/** Storage form of a secret number: four keyed digests joined by ':' (crypto/secret.go). */
module Secrets {
  import opened Common
  import opened Digits

  /** The keyed primitive. `mac` is hex(HMAC-SHA256(pepper, message)), `show` the text of a UUID.
      What is assumed of them is said by HexDigests and DigestsDistinct and nowhere else. */
  datatype Hasher = Hasher(mac: string -> string, show: Uuid -> string)

  const DIGEST_LENGTH := 64

  predicate IsHex(c: char) {
    '0' <= c <= '9' || 'a' <= c <= 'f'
  }

  ghost predicate HexDigests(h: Hasher) {
    forall m: string :: |h.mac(m)| == DIGEST_LENGTH && forall i | 0 <= i < DIGEST_LENGTH :: IsHex(h.mac(m)[i])
  }

  /** Two different digits at one place never have the same digest. */
  ghost predicate DigestsDistinct(h: Hasher) {
    forall game, slot, position, d, e | 0 <= d <= 9 && 0 <= e <= 9 && d != e ::
      Digest(h, game, slot, position, d) != Digest(h, game, slot, position, e)
  }

  function Decimal(n: int): (s: string)
    ensures |s| > 0
    decreases n < 0, if n < 0 then -n else n
  {
    if n < 0 then "-" + Decimal(-n)
    else if n < 10 then [DigitChar(n)]
    else Decimal(n / 10) + [DigitChar(n % 10)]
  }

  function Message(h: Hasher, game: Uuid, slot: int, position: int, digit: int): string {
    h.show(game) + ":" + Decimal(slot) + ":" + Decimal(position) + ":" + Decimal(digit)
  }

  function Digest(h: Hasher, game: Uuid, slot: int, position: int, digit: int): string {
    h.mac(Message(h, game, slot, position, digit))
  }

  // ---------- Join and Split on ':' ----------

  function Join(parts: seq<string>): string {
    if |parts| == 0 then ""
    else if |parts| == 1 then parts[0]
    else parts[0] + ":" + Join(parts[1..])
  }

  function Split(s: string): (parts: seq<string>)
    ensures |parts| > 0
  {
    if s == "" then [""]
    else
      var rest := Split(s[1..]);
      if s[0] == ':' then [""] + rest else [[s[0]] + rest[0]] + rest[1..]
  }

  lemma {:induction false} SplitAtColon(part: string, rest: string)
    requires ':' !in part
    ensures Split(part) == [part]
    ensures Split(part + ":" + rest) == [part] + Split(rest)
  {
    if part == "" {
      assert (part + ":" + rest)[1..] == rest;
    } else {
      SplitAtColon(part[1..], rest);
      assert (part + ":" + rest)[1..] == part[1..] + ":" + rest;
      assert [part[0]] + part[1..] == part;
    }
  }

  lemma {:induction false} SplitJoin(parts: seq<string>)
    requires |parts| > 0
    requires forall i | 0 <= i < |parts| :: ':' !in parts[i]
    ensures Split(Join(parts)) == parts
  {
    if |parts| == 1 {
      SplitAtColon(parts[0], "");
    } else {
      SplitJoin(parts[1..]);
      SplitAtColon(parts[0], Join(parts[1..]));
      assert parts == [parts[0]] + parts[1..];
    }
  }

  // ---------- Hash and Verify ----------

  function HashParts(h: Hasher, digits: Four, game: Uuid, slot: int): (parts: seq<string>)
    ensures |parts| == 4
  {
    seq(4, i requires 0 <= i < 4 => Digest(h, game, slot, i, digits[i]))
  }

  function Hashed(h: Hasher, digits: Four, game: Uuid, slot: int): string {
    Join(HashParts(h, digits, game, slot))
  }

  function Verified(h: Hasher, stored: string, guess: Four, game: Uuid, slot: int): Result<FourResults, Error> {
    var parts := Split(stored);
    if |parts| != 4 then Err(BadSecretFormat)
    else Ok(seq(4, i requires 0 <= i < 4 =>
              if parts[i] == Digest(h, game, slot, i, guess[i]) then Hit else Miss))
  }

  class SecretHashService {
    const hasher: Hasher

    constructor (hasher: Hasher)
      ensures this.hasher == hasher
    {
      this.hasher := hasher;
    }

    method Hash(digits: Four, game: Uuid, slot: int) returns (stored: string)
      ensures stored == Hashed(hasher, digits, game, slot)
    {
      var parts := new string[4];
      for i := 0 to 4
        invariant forall k | 0 <= k < i :: parts[k] == Digest(hasher, game, slot, k, digits[k])
      {
        parts[i] := Digest(hasher, game, slot, i, digits[i]);
      }
      assert parts[..] == HashParts(hasher, digits, game, slot);
      stored := Join(parts[..]);
    }

    method Verify(stored: string, guess: Four, game: Uuid, slot: int) returns (r: Result<FourResults, Error>)
      ensures r == Verified(hasher, stored, guess, game, slot)
    {
      var parts := Split(stored);
      if |parts| != 4 {
        return Err(BadSecretFormat);
      }
      var results: FourResults := [Miss, Miss, Miss, Miss];
      for i := 0 to 4
        invariant forall k | 0 <= k < i ::
                    results[k] == if parts[k] == Digest(hasher, game, slot, k, guess[k]) then Hit else Miss
        invariant forall k | i <= k < 4 :: results[k] == Miss
      {
        var expected := Digest(hasher, game, slot, i, guess[i]);
        if parts[i] == expected {
          results := results[i := Hit];
        }
      }
      assert results == Verified(hasher, stored, guess, game, slot).value;
      r := Ok(results);
    }
  }

  lemma PartsHaveNoColon(h: Hasher, digits: Four, game: Uuid, slot: int)
    requires HexDigests(h)
    ensures forall i | 0 <= i < 4 :: ':' !in HashParts(h, digits, game, slot)[i]
  {
    forall i | 0 <= i < 4 ensures ':' !in HashParts(h, digits, game, slot)[i] {
      var m := Message(h, game, slot, i, digits[i]);
      assert forall k | 0 <= k < |h.mac(m)| :: IsHex(h.mac(m)[k]);
    }
  }

  /** The digest form loses nothing a judge needs: checking a guess against the stored secret
      gives what judging it against the plain secret gives. */
  lemma VerifyAgreesWithJudge(h: Hasher, secret: Four, guess: Four, game: Uuid, slot: int)
    requires HexDigests(h) && DigestsDistinct(h)
    requires forall i | 0 <= i < 4 :: 0 <= secret[i] <= 9 && 0 <= guess[i] <= 9
    ensures Verified(h, Hashed(h, secret, game, slot), guess, game, slot) == Ok(Judge(secret, guess))
  {
    var parts := HashParts(h, secret, game, slot);
    PartsHaveNoColon(h, secret, game, slot);
    SplitJoin(parts);
    var v := Verified(h, Hashed(h, secret, game, slot), guess, game, slot).value;
    forall i | 0 <= i < 4 ensures v[i] == Judge(secret, guess)[i] {
      assert Digest(h, game, slot, i, secret[i]) == Digest(h, game, slot, i, guess[i]) <==> secret[i] == guess[i];
    }
    assert v == Judge(secret, guess);
  }

  /** A stored secret always has four parts, so Verify never rejects its format. */
  lemma HashedVerifies(h: Hasher, secret: Four, guess: Four, game: Uuid, slot: int)
    requires HexDigests(h)
    ensures Verified(h, Hashed(h, secret, game, slot), guess, game, slot).Ok?
  {
    PartsHaveNoColon(h, secret, game, slot);
    SplitJoin(HashParts(h, secret, game, slot));
  }

  /** The stored form: for each place the keyed digest of the text "game:slot:place:digit", with ':' between
      the four. */
  lemma HashedForm(h: Hasher, d: Number, game: Uuid, slot: int)
    requires slot == 1 || slot == 2
    ensures var place := (i: nat, digit: int) requires i < 4 && 0 <= digit <= 9 =>
              h.mac(h.show(game) + ":" + (if slot == 1 then "1" else "2") + ":" + ["0", "1", "2", "3"][i] + ":"
                    + ["0", "1", "2", "3", "4", "5", "6", "7", "8", "9"][digit]);
            Hashed(h, d, game, slot)
            == place(0, d[0]) + ":" + (place(1, d[1]) + ":" + (place(2, d[2]) + ":" + place(3, d[3])))
  {
    var p := HashParts(h, d, game, slot);
    assert p[1..][1..] == p[2..] && p[2..][1..] == p[3..];
    assert Join(p[3..]) == p[3];
    assert Join(p[2..]) == p[2] + ":" + Join(p[3..]);
    assert Join(p[1..]) == p[1] + ":" + Join(p[2..]);
    forall n | 0 <= n <= 9 ensures Decimal(n) == ["0", "1", "2", "3", "4", "5", "6", "7", "8", "9"][n] {
    }
  }

  lemma {:induction false} SplitCounts(s: string)
    ensures |Split(s)| == 1 + multiset(s)[':']
  {
    if s != "" {
      SplitCounts(s[1..]);
      assert s == [s[0]] + s[1..];
    }
  }

  /** Verify refuses exactly the texts without three colons. */
  lemma VerifyRefusesIff(h: Hasher, stored: string, guess: Four, game: Uuid, slot: int)
    ensures Verified(h, stored, guess, game, slot) == Err(BadSecretFormat) <==> multiset(stored)[':'] != 3
    ensures Verified(h, stored, guess, game, slot).Err? ==>
              Verified(h, stored, guess, game, slot) == Err(BadSecretFormat)
  {
    SplitCounts(stored);
  }

  /** A stored secret takes 259 characters: four more than the declared column holds. */
  lemma HashedLength(h: Hasher, secret: Four, game: Uuid, slot: int)
    requires HexDigests(h)
    ensures |Hashed(h, secret, game, slot)| == 4 * DIGEST_LENGTH + 3 == 259
  {
    var p := HashParts(h, secret, game, slot);
    assert forall i | 0 <= i < 4 :: |p[i]| == DIGEST_LENGTH;
    assert p[1..][1..] == p[2..] && p[2..][1..] == p[3..];
    assert Join(p[3..]) == p[3];
    assert Join(p[2..]) == p[2] + ":" + Join(p[3..]);
    assert Join(p[1..]) == p[1] + ":" + Join(p[2..]);
  }

  /** The two assumptions can hold together: a digest that repeats the message's last character. */
  lemma AssumptionsCanHold(show: Uuid -> string)
    ensures exists h: Hasher :: h.show == show && HexDigests(h) && DigestsDistinct(h)
  {
    var mac := (m: string) => seq(64, i => if m != "" && IsHex(m[|m| - 1]) then m[|m| - 1] else '0');
    var h := Hasher(mac, show);
    forall game, slot, position, d, e | 0 <= d <= 9 && 0 <= e <= 9 && d != e
      ensures Digest(h, game, slot, position, d) != Digest(h, game, slot, position, e)
    {
      var md, me := Message(h, game, slot, position, d), Message(h, game, slot, position, e);
      assert md[|md| - 1] == DigitChar(d) && me[|me| - 1] == DigitChar(e);
      assert DigitValue(DigitChar(d)) != DigitValue(DigitChar(e));
      assert mac(md)[0] != mac(me)[0];
    }
  }
}
