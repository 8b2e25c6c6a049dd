/** Four-digit numbers: validation and judging (judge.go, game_validate.go). */
module Digits {
  import opened Common

  type Four = s: seq<int> | |s| == 4 witness [0, 0, 0, 0]

  datatype DigitResult = Miss | Hit

  type FourResults = s: seq<DigitResult> | |s| == 4 witness [Miss, Miss, Miss, Miss]

  predicate ValidDigits(d: Four) {
    && (forall i | 0 <= i < 4 :: 0 <= d[i] <= 9)
    && (forall i, j | 0 <= i < j < 4 :: d[i] != d[j])
  }

  /** A number a validation has accepted. */
  type Number = d: Four | ValidDigits(d) witness [0, 1, 2, 3]

  predicate IsDigit(c: char) {
    '0' <= c <= '9'
  }

  function DigitValue(c: char): (d: int)
    requires IsDigit(c)
    ensures 0 <= d <= 9
  {
    c as int - '0' as int
  }

  function DigitChar(d: int): (c: char)
    requires 0 <= d <= 9
    ensures IsDigit(c) && DigitValue(c) == d
  {
    (d + '0' as int) as char
  }

  // ---------- Judging ----------

  function Judge(secret: Four, guess: Four): FourResults {
    seq(4, i requires 0 <= i < 4 => if secret[i] == guess[i] then Hit else Miss)
  }

  function Hits(results: seq<DigitResult>): (n: nat)
    ensures n <= |results|
  {
    if results == [] then 0
    else Hits(results[..|results| - 1]) + if results[|results| - 1] == Hit then 1 else 0
  }

  predicate FullHit(results: seq<DigitResult>) {
    forall i | 0 <= i < |results| :: results[i] == Hit
  }

  method JudgeDigits(secret: Four, guess: Four) returns (results: FourResults)
    ensures results == Judge(secret, guess)
    ensures forall i | 0 <= i < 4 :: results[i] == Hit <==> secret[i] == guess[i]
  {
    results := [Miss, Miss, Miss, Miss];
    for i := 0 to 4
      invariant forall k | 0 <= k < i :: results[k] == Hit <==> secret[k] == guess[k]
      invariant forall k | i <= k < 4 :: results[k] == Miss
    {
      if secret[i] == guess[i] {
        results := results[i := Hit];
      }
    }
    assert results == Judge(secret, guess);
  }

  method IsWin(results: FourResults) returns (win: bool)
    ensures win <==> FullHit(results)
  {
    for i := 0 to 4
      invariant FullHit(results[..i])
    {
      if results[i] != Hit {
        return false;
      }
      assert results[..i + 1] == results[..i] + [results[i]];
    }
    assert results[..4] == results;
    return true;
  }

  method HitCount(results: FourResults) returns (n: nat)
    ensures n == Hits(results)
  {
    n := 0;
    for i := 0 to 4
      invariant n == Hits(results[..i])
    {
      assert results[..i + 1][..i] == results[..i];
      if results[i] == Hit {
        n := n + 1;
      }
    }
    assert results[..4] == results;
  }

  lemma {:induction false} AllHitsIffFull(results: seq<DigitResult>)
    ensures Hits(results) == |results| <==> FullHit(results)
  {
    if results != [] {
      var init := results[..|results| - 1];
      AllHitsIffFull(init);
      assert forall i | 0 <= i < |init| :: results[i] == init[i];
    }
  }

  /** Hits counts the places that are hit. */
  lemma {:induction false} HitsCounted(results: seq<DigitResult>)
    ensures Hits(results) == |set i | 0 <= i < |results| && results[i] == Hit|
  {
    if results != [] {
      var n := |results| - 1;
      var init := results[..n];
      HitsCounted(init);
      var before := set i | 0 <= i < |init| && init[i] == Hit;
      assert (set i | 0 <= i < |results| && results[i] == Hit) == before + if results[n] == Hit then {n} else {};
    }
  }

  /** The three ways of saying "the guess is the secret" agree. */
  lemma WinMeansSecretGuessed(secret: Four, guess: Four)
    ensures FullHit(Judge(secret, guess)) <==> guess == secret
    ensures Hits(Judge(secret, guess)) == 4 <==> guess == secret
  {
    var r := Judge(secret, guess);
    AllHitsIffFull(r);
    if FullHit(r) {
      forall i | 0 <= i < 4 ensures guess[i] == secret[i] {
        assert r[i] == Hit;
      }
      assert guess == secret;
    }
  }

  // ---------- Validation ----------

  /** The first complaint a left-to-right scan of `input` makes at or after position `i`. A text is the
      sequence of its bytes, and a byte beyond ASCII is no digit, whatever character it begins. */
  function Complaint(input: string, i: nat): (e: Option<Error>)
    requires i <= |input|
    decreases |input| - i
  {
    if i == |input| then None
    else if !IsDigit(input[i]) then Some(BadDigit)
    else if input[i] in input[..i] then Some(DuplicateDigit)
    else Complaint(input, i + 1)
  }

  function Parse(input: string): (r: Result<Number, Error>) {
    if |input| != 4 then Err(BadDigitLength)
    else match Complaint(input, 0)
      case Some(e) => Err(e)
      case None =>
        CleanInput(input, 0);
        var d := seq(4, i requires 0 <= i < 4 => DigitValue(input[i]));
        assert forall i, j | 0 <= i < j < 4 :: input[i] in input[..j];
        Ok(d)
  }

  function Format(d: Number): (s: string)
    ensures |s| == 4
  {
    seq(4, i requires 0 <= i < 4 => DigitChar(d[i]))
  }

  lemma {:induction false} CleanInput(input: string, i: nat)
    requires i <= |input|
    ensures Complaint(input, i).None?
            <==> (forall k | i <= k < |input| :: IsDigit(input[k]) && input[k] !in input[..k])
    decreases |input| - i
  {
    if i < |input| {
      CleanInput(input, i + 1);
    }
  }

  /** Validation accepts exactly the texts of four distinct digits, and its result renders back
      to the text it was given. */
  lemma ParseAccepts(input: string)
    ensures Parse(input).Ok?
            <==> (&& |input| == 4
                  && (forall i | 0 <= i < 4 :: IsDigit(input[i]))
                  && (forall i, j | 0 <= i < j < 4 :: input[i] != input[j]))
    ensures Parse(input).Ok? ==> Format(Parse(input).value) == input
  {
    if |input| == 4 {
      CleanInput(input, 0);
      if Complaint(input, 0).None? {
        var d := Parse(input).value;
        forall i, j | 0 <= i < j < 4 ensures d[i] != d[j] && input[i] != input[j] {
          assert input[i] in input[..j];
        }
        assert Format(d) == input;
      }
    }
  }

  /** No complaint up to position `i`: digits that have not come before. */
  ghost predicate CleanUpTo(input: string, i: nat)
    requires i <= |input|
  {
    forall k | 0 <= k < i :: '0' <= input[k] <= '9' && forall j | 0 <= j < k :: input[j] != input[k]
  }

  lemma {:induction false} ComplaintMeans(input: string, i: nat, at: nat)
    requires i <= at < |input| && CleanUpTo(input, at)
    ensures !('0' <= input[at] <= '9') ==> Complaint(input, i) == Some(BadDigit)
    ensures '0' <= input[at] <= '9' && input[at] in input[..at] ==> Complaint(input, i) == Some(DuplicateDigit)
    decreases at - i
  {
    if i < at {
      ComplaintMeans(input, i + 1, at);
    }
  }

  /** What validation replies: the length first, then the first byte that is no digit or has come before;
      and otherwise the digits that the bytes stand for. */
  lemma ParseReplies(input: string, at: nat)
    ensures |input| != 4 ==> Parse(input) == Err(BadDigitLength)
    ensures |input| == 4 && at < 4 && CleanUpTo(input, at) && !('0' <= input[at] <= '9') ==>
              Parse(input) == Err(BadDigit)
    ensures |input| == 4 && at < 4 && CleanUpTo(input, at) && '0' <= input[at] <= '9' && input[at] in input[..at] ==>
              Parse(input) == Err(DuplicateDigit)
    ensures |input| == 4 && CleanUpTo(input, 4) ==>
              Parse(input).Ok? && forall i | 0 <= i < 4 :: input[i] as int == '0' as int + Parse(input).value[i]
    ensures Parse(input).Err? ==> Parse(input).error in {BadDigitLength, BadDigit, DuplicateDigit}
  {
    if |input| == 4 {
      if at < 4 && CleanUpTo(input, at) {
        ComplaintMeans(input, 0, at);
      }
      CleanInput(input, 0);
      ComplaintKinds(input, 0);
    }
  }

  lemma {:induction false} ComplaintKinds(input: string, i: nat)
    requires i <= |input|
    ensures Complaint(input, i) in {None, Some(BadDigit), Some(DuplicateDigit)}
    decreases |input| - i
  {
    if i < |input| {
      ComplaintKinds(input, i + 1);
    }
  }

  lemma ParseFormat(d: Number)
    ensures Parse(Format(d)) == Ok(d)
  {
    ParseAccepts(Format(d));
    forall i, j | 0 <= i < j < 4 ensures Format(d)[i] != Format(d)[j] {
      assert DigitValue(Format(d)[i]) != DigitValue(Format(d)[j]);
    }
    assert Parse(Format(d)).value == d;
  }

  method ValidateFourDigits(input: string) returns (r: Result<Number, Error>)
    ensures r == Parse(input)
  {
    if |input| != 4 {
      return Err(BadDigitLength);
    }
    var seen: set<int> := {};
    var digits: Four := [0, 0, 0, 0];
    CleanInput(input, 0);
    for i := 0 to 4
      invariant forall k | 0 <= k < i :: IsDigit(input[k]) && digits[k] == DigitValue(input[k])
      invariant seen == set k | 0 <= k < i :: digits[k]
      invariant Complaint(input, 0) == Complaint(input, i)
    {
      if !IsDigit(input[i]) {
        return Err(BadDigit);
      }
      var d := DigitValue(input[i]);
      if d in seen {
        assert exists k | 0 <= k < i :: digits[k] == d;
        return Err(DuplicateDigit);
      }
      seen := seen + {d};
      digits := digits[i := d];
    }
    assert digits == Parse(input).value;
    r := Ok(digits);
  }

  method ValidateFourDigitsArray(digits: Four) returns (r: Result<(), Error>)
    ensures r.Ok? <==> ValidDigits(digits)
    ensures r.Err? ==> r.error == BadDigit || r.error == DuplicateDigit
    ensures r == Err(BadDigit) <==>
              exists i | 0 <= i < 4 :: !(0 <= digits[i] <= 9) && forall j, k | 0 <= j < k < i :: digits[j] != digits[k]
  {
    var seen: set<int> := {};
    for i := 0 to 4
      invariant seen == set k | 0 <= k < i :: digits[k]
      invariant forall k | 0 <= k < i :: 0 <= digits[k] <= 9
      invariant forall j, k | 0 <= j < k < i :: digits[j] != digits[k]
    {
      if digits[i] < 0 || digits[i] > 9 {
        return Err(BadDigit);
      }
      if digits[i] in seen {
        assert exists k | 0 <= k < i :: digits[k] == digits[i];
        return Err(DuplicateDigit);
      }
      seen := seen + {digits[i]};
    }
    r := Ok(());
  }
}
