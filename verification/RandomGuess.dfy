/** The generator of automatic guesses: a partial Fisher-Yates shuffle (crypto/random.go). */
module RandomGuess {
  import opened Common
  import opened Digits

  function Swap<T>(s: seq<T>, i: nat, j: nat): (r: seq<T>)
    requires i < |s| && j < |s|
    ensures |r| == |s| && multiset(r) == multiset(s)
  {
    s[i := s[j]][j := s[i]]
  }

  /** Choice vectors: at step i the generator draws j with i <= j < n. */
  predicate Choices(n: nat, js: seq<nat>) {
    |js| <= n && forall i | 0 <= i < |js| :: i <= js[i] < n
  }

  predicate Distinct<T(==)>(s: seq<T>) {
    forall i, j | 0 <= i < j < |s| :: s[i] != s[j]
  }

  /** The pool once the swaps of steps i, i + 1, ... have been made. */
  function Shuffled<T>(pool: seq<T>, js: seq<nat>, i: nat): (r: seq<T>)
    requires Choices(|pool|, js) && i <= |js|
    ensures |r| == |pool| && multiset(r) == multiset(pool) && r[..i] == pool[..i]
    decreases |js| - i
  {
    if i == |js| then pool
    else
      var next := Swap(pool, i, js[i]);
      assert next[..i] == pool[..i];
      assert Shuffled(next, js, i + 1)[..i] == Shuffled(next, js, i + 1)[..i + 1][..i];
      Shuffled(next, js, i + 1)
  }

  /** The numbers drawn: the first |js| places of the shuffled pool. */
  function Drawn<T>(pool: seq<T>, js: seq<nat>): (r: seq<T>)
    requires Choices(|pool|, js)
    ensures |r| == |js|
  {
    Shuffled(pool, js, 0)[..|js|]
  }

  lemma {:induction false} DistinctMeansOnce<T>(s: seq<T>)
    ensures Distinct(s) <==> forall x | x in s :: multiset(s)[x] == 1
  {
    if s != [] {
      var rest := s[1..];
      DistinctMeansOnce(rest);
      assert s == [s[0]] + rest;
      assert Distinct(s) <==> s[0] !in rest && Distinct(rest);
      if forall x | x in s :: multiset(s)[x] == 1 {
        assert s[0] in s;
        assert forall x | x in rest :: x in s;
      }
    }
  }

  lemma DistinctByMultiset<T>(s: seq<T>, t: seq<T>)
    requires multiset(s) == multiset(t) && Distinct(s)
    ensures Distinct(t)
  {
    DistinctMeansOnce(s);
    DistinctMeansOnce(t);
    forall x | x in t ensures multiset(t)[x] == 1 {
      assert x in multiset(s);
    }
  }

  /** Step i's draw is pool[js[i]] and no later step moves it. */
  lemma DrawIsFinal<T>(pool: seq<T>, js: seq<nat>, i: nat)
    requires Choices(|pool|, js) && i < |js|
    ensures Shuffled(pool, js, i)[i] == pool[js[i]]
  {
    var next := Swap(pool, i, js[i]);
    assert Shuffled(next, js, i + 1)[..i + 1][i] == next[i];
  }

  /** The number drawn at step i is the one found at place js[i] after the earlier swaps. */
  lemma {:induction false} DrawAtPlace<T>(pool: seq<T>, js: seq<nat>, i: nat, k: nat)
    requires Choices(|pool|, js) && k <= i < |js|
    ensures Shuffled(pool, js, k)[i] == Shuffled(pool, js[..i], k)[js[i]]
    decreases i - k
  {
    if k == i {
      DrawIsFinal(pool, js, i);
    } else {
      DrawAtPlace(Swap(pool, k, js[k]), js, i, k + 1);
    }
  }

  lemma SameDraw<T>(pool: seq<T>, js: seq<nat>, ks: seq<nat>, i: nat)
    requires Distinct(pool) && |js| == |ks| && Choices(|pool|, js) && Choices(|pool|, ks) && i < |js|
    requires Shuffled(pool, js, i)[..|js|] == Shuffled(pool, ks, i)[..|js|]
    ensures js[i] == ks[i]
  {
    DrawIsFinal(pool, js, i);
    DrawIsFinal(pool, ks, i);
    assert Shuffled(pool, js, i)[..|js|][i] == Shuffled(pool, ks, i)[..|js|][i];
  }

  lemma SameNext<T>(pool: seq<T>, js: seq<nat>, ks: seq<nat>, i: nat)
    requires Distinct(pool) && |js| == |ks| && Choices(|pool|, js) && Choices(|pool|, ks) && i < |js|
    requires js[i] == ks[i]
    requires Shuffled(pool, js, i)[..|js|] == Shuffled(pool, ks, i)[..|js|]
    ensures forall m | i < m < |js| :: js[m] == ks[m]
    decreases |js| - i, 0
  {
    var next := Swap(pool, i, js[i]);
    DistinctByMultiset(pool, next);
    DrawsInjective(next, js, ks, i + 1);
  }

  /** One-to-one: different choice vectors draw different numbers. */
  lemma {:induction false} DrawsInjective<T>(pool: seq<T>, js: seq<nat>, ks: seq<nat>, i: nat)
    requires Distinct(pool) && |js| == |ks| && Choices(|pool|, js) && Choices(|pool|, ks) && i <= |js|
    requires Shuffled(pool, js, i)[..|js|] == Shuffled(pool, ks, i)[..|js|]
    ensures forall m | i <= m < |js| :: js[m] == ks[m]
    decreases |js| - i, 1
  {
    if i < |js| {
      SameDraw(pool, js, ks, i);
      SameNext(pool, js, ks, i);
    }
  }

  /** Step i can always bring the i-th wanted number into place. */
  lemma ChooseNext<T>(pool: seq<T>, target: seq<T>, i: nat) returns (j: nat)
    requires Distinct(target) && i < |target| <= |pool| && forall x | x in target :: x in pool
    requires pool[..i] == target[..i]
    ensures i <= j < |pool| && Swap(pool, i, j)[..i + 1] == target[..i + 1]
    ensures forall x | x in target :: x in Swap(pool, i, j)
  {
    assert target[i] in pool;
    j :| 0 <= j < |pool| && pool[j] == target[i];
    assert forall m | 0 <= m < i :: pool[m] == pool[..i][m] == target[..i][m] == target[m];
    var next := Swap(pool, i, j);
    forall m | 0 <= m < i + 1 ensures next[m] == target[m] {
    }
    forall x | x in target ensures x in next {
      assert x in multiset(pool);
      assert x in multiset(next);
    }
  }

  /** Onto: every duplicate-free sequence of pool members is drawn by some choice vector. */
  lemma {:induction false} DrawsSurjective<T>(pool: seq<T>, target: seq<T>, js: seq<nat>) returns (full: seq<nat>)
    requires Distinct(target) && |target| <= |pool| && forall x | x in target :: x in pool
    requires |js| <= |target| && Choices(|pool|, js)
    requires pool[..|js|] == target[..|js|]
    ensures |full| == |target| && Choices(|pool|, full) && full[..|js|] == js
    ensures Shuffled(pool, full, |js|)[..|target|] == target
    decreases |target| - |js|
  {
    var i := |js|;
    if i == |target| {
      full := js;
    } else {
      var j := ChooseNext(pool, target, i);
      full := DrawsSurjective(Swap(pool, i, j), target, js + [j]);
      assert full[i] == full[..i + 1][i] == j;
      assert full[..i] == full[..i + 1][..i] == js;
    }
  }

  /** The swap loop keeps the pool a permutation and is a bijection from choice vectors to
      duplicate-free sequences of the drawn length. */
  lemma ShuffleIsBijection<T>(pool: seq<T>, k: nat)
    requires Distinct(pool) && k <= |pool|
    ensures forall js: seq<nat> | |js| == k && Choices(|pool|, js) ::
              Distinct(Drawn(pool, js)) && forall x | x in Drawn(pool, js) :: x in pool
    ensures forall js: seq<nat>, ks: seq<nat> |
              |js| == k && |ks| == k && Choices(|pool|, js) && Choices(|pool|, ks)
              && Drawn(pool, js) == Drawn(pool, ks) ::
              js == ks
    ensures forall target: seq<T> | |target| == k && Distinct(target) && (forall x | x in target :: x in pool) ::
              exists js: seq<nat> :: |js| == k && Choices(|pool|, js) && Drawn(pool, js) == target
  {
    forall js: seq<nat> | |js| == k && Choices(|pool|, js)
      ensures Distinct(Drawn(pool, js)) && forall x | x in Drawn(pool, js) :: x in pool
    {
      var r := Shuffled(pool, js, 0);
      DistinctByMultiset(pool, r);
      forall x | x in Drawn(pool, js) ensures x in pool {
        assert x in multiset(r);
        assert x in multiset(pool);
      }
    }
    forall js: seq<nat>, ks: seq<nat> |
      |js| == k && |ks| == k && Choices(|pool|, js) && Choices(|pool|, ks) && Drawn(pool, js) == Drawn(pool, ks)
      ensures js == ks
    {
      DrawsInjective(pool, js, ks, 0);
      assert js == ks;
    }
    forall target: seq<T> | |target| == k && Distinct(target) && (forall x | x in target :: x in pool)
      ensures exists js: seq<nat> :: |js| == k && Choices(|pool|, js) && Drawn(pool, js) == target
    {
      var js := DrawsSurjective(pool, target, []);
      assert Drawn(pool, js) == target;
    }
  }

  function TenDigits(): (s: seq<int>)
    ensures |s| == 10 && forall i | 0 <= i < 10 :: s[i] == i
  {
    seq(10, i => i)
  }

  /** What the four draws `js` make of the ten digits is always an acceptable number. */
  function GuessDrawn(js: seq<nat>): (d: Number)
    requires |js| == 4 && Choices(10, js)
  {
    DrawnIsValid(js);
    Drawn(TenDigits(), js)
  }

  lemma DrawnIsValid(js: seq<nat>)
    requires |js| == 4 && Choices(10, js)
    ensures ValidDigits(Drawn(TenDigits(), js))
  {
    var r := Shuffled(TenDigits(), js, 0);
    DistinctByMultiset(TenDigits(), r);
    forall i | 0 <= i < 4 ensures 0 <= r[i] <= 9 {
      assert r[i] in multiset(r);
      assert r[i] in TenDigits();
    }
  }

  /** The swap loop on the pool itself; `js` are the draws of the random source. */
  method SwapLoop(pool: array<int>, js: seq<nat>)
    requires Choices(pool.Length, js)
    modifies pool
    ensures pool[..] == Shuffled(old(pool[..]), js, 0)
  {
    for i := 0 to |js|
      invariant Shuffled(pool[..], js, i) == Shuffled(old(pool[..]), js, 0)
    {
      ghost var before := pool[..];
      var j := js[i];
      pool[i], pool[j] := pool[j], pool[i];
      assert pool[..] == Swap(before, i, j);
    }
  }

  method GenerateGuessNumber(js: seq<nat>) returns (guess: string)
    requires |js| == 4 && Choices(10, js)
    ensures guess == Format(GuessDrawn(js))
    ensures Parse(guess) == Ok(GuessDrawn(js))
  {
    var pool := new int[10](i => i);
    assert pool[..] == TenDigits();
    SwapLoop(pool, js);
    DrawnIsValid(js);
    guess := Format(pool[..4]);
    ParseFormat(GuessDrawn(js));
  }
}
