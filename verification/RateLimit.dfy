/** The sliding-window rate limiter (middleware/rate_limit.go). */
module RateLimit {
  import opened Common

  // ---------- What one call computes ----------

  /** The timestamps that are still inside the window at `now`, in order. */
  function Recent(ts: seq<Time>, now: Time, window: Time): (r: seq<Time>)
    ensures |r| <= |ts|
  {
    if ts == [] then []
    else
      var init := Recent(ts[..|ts| - 1], now, window);
      if now - ts[|ts| - 1] < window then init + [ts[|ts| - 1]] else init
  }

  predicate Answer(stored: seq<Time>, limit: int, window: Time, now: Time) {
    limit <= 0 || |Recent(stored, now, window)| < limit
  }

  function After(stored: seq<Time>, limit: int, window: Time, now: Time): seq<Time> {
    if limit <= 0 then stored
    else if Answer(stored, limit, window, now) then Recent(stored, now, window) + [now]
    else Recent(stored, now, window)
  }

  /** Recent keeps exactly the timestamps less than a window old. */
  lemma {:induction false} RecentMembers(ts: seq<Time>, now: Time, window: Time)
    ensures forall t :: t in Recent(ts, now, window) <==> t in ts && now - t < window
  {
    if ts != [] {
      var n := |ts| - 1;
      RecentMembers(ts[..n], now, window);
      assert forall t :: t in ts <==> t in ts[..n] || t == ts[n];
    }
  }

  lemma {:induction false} RecentCount(ts: seq<Time>, now: Time, window: Time)
    ensures |Recent(ts, now, window)| == |set i | 0 <= i < |ts| && now - ts[i] < window|
  {
    if ts != [] {
      var n := |ts| - 1;
      var init := ts[..n];
      RecentCount(init, now, window);
      var before := set i | 0 <= i < |init| && now - init[i] < window;
      assert (set i | 0 <= i < |ts| && now - ts[i] < window) == before + if now - ts[n] < window then {n} else {};
    }
  }

  /** And keeps them in order. */
  lemma {:induction false} RecentInOrder(ts: seq<Time>, now: Time, window: Time)
    requires NonDecreasing(ts)
    ensures NonDecreasing(Recent(ts, now, window))
  {
    if ts != [] {
      var n := |ts| - 1;
      var init := ts[..n];
      RecentInOrder(init, now, window);
      RecentMembers(init, now, window);
      var r := Recent(init, now, window);
      forall i | 0 <= i < |r| ensures r[i] <= ts[n] {
        assert r[i] in r;
        var k :| 0 <= k < n && init[k] == r[i];
      }
    }
  }

  /** One call: without a positive limit it is let through and nothing is stored; otherwise it is let
      through exactly if fewer than `limit` stored timestamps are less than a window old. What is stored
      then is those timestamps, and the call itself if it was let through. */
  lemma OneCall(stored: seq<Time>, limit: int, window: Time, now: Time)
    ensures limit <= 0 ==> Answer(stored, limit, window, now) && After(stored, limit, window, now) == stored
    ensures limit > 0 ==>
              var recent := set i | 0 <= i < |stored| && now - stored[i] < window;
              && (Answer(stored, limit, window, now) <==> |recent| < limit)
              && After(stored, limit, window, now)
                 == Recent(stored, now, window) + if |recent| < limit then [now] else []
  {
    RecentCount(stored, now, window);
  }

  // ---------- Whole runs ----------

  /** After calls at `times`: the pruned list the limiter stores, and the log of every call it
      ever accepted, which the limiter does not keep. */
  function Run(times: seq<Time>, limit: int, window: Time): (r: (seq<Time>, seq<Time>)) {
    if times == [] then ([], [])
    else
      var now := times[|times| - 1];
      var (stored, log) := Run(times[..|times| - 1], limit, window);
      (After(stored, limit, window, now),
       if Answer(stored, limit, window, now) then log + [now] else log)
  }

  predicate NonDecreasing(ts: seq<Time>) {
    forall i, j | 0 <= i <= j < |ts| :: ts[i] <= ts[j]
  }

  lemma {:induction false} RecentAppend(a: seq<Time>, t: Time, now: Time, window: Time)
    ensures Recent(a + [t], now, window) == Recent(a, now, window) + if now - t < window then [t] else []
  {
    assert (a + [t])[..|a|] == a;
  }

  /** Pruning at an earlier instant removes nothing that matters later. */
  lemma {:induction false} PruneTwice(ts: seq<Time>, earlier: Time, now: Time, window: Time)
    requires earlier <= now
    ensures Recent(Recent(ts, earlier, window), now, window) == Recent(ts, now, window)
  {
    if ts != [] {
      var init := ts[..|ts| - 1];
      PruneTwice(init, earlier, now, window);
      RecentAppend(Recent(init, earlier, window), ts[|ts| - 1], now, window);
    }
  }

  /** At any instant not before the last call, the pruned list and the full log of accepted
      calls hold the same timestamps inside the window. */
  lemma {:induction false} PrunedAgreesWithLog(times: seq<Time>, limit: int, window: Time, now: Time)
    requires NonDecreasing(times) && limit > 0
    requires times != [] ==> times[|times| - 1] <= now
    ensures Recent(Run(times, limit, window).0, now, window) == Recent(Run(times, limit, window).1, now, window)
  {
    if times != [] {
      var last := times[|times| - 1];
      var (stored, log) := Run(times[..|times| - 1], limit, window);
      PrunedAgreesWithLog(times[..|times| - 1], limit, window, now);
      PruneTwice(stored, last, now, window);
      RecentAppend(Recent(stored, last, window), last, now, window);
      RecentAppend(log, last, now, window);
    }
  }

  /** The answer is what the full history says: yes exactly when fewer than `limit` earlier
      accepted calls lie within the window. */
  lemma AnswerMatchesHistory(times: seq<Time>, limit: int, window: Time, now: Time)
    requires NonDecreasing(times) && limit > 0
    requires times != [] ==> times[|times| - 1] <= now
    ensures Answer(Run(times, limit, window).0, limit, window, now)
            <==> |Recent(Run(times, limit, window).1, now, window)| < limit
  {
    PrunedAgreesWithLog(times, limit, window, now);
  }

  /** The log grows by exactly the calls let through: those at which fewer than `limit` earlier accepted
      calls are less than a window old. */
  lemma LogGrows(times: seq<Time>, limit: int, window: Time, now: Time)
    requires NonDecreasing(times + [now]) && limit > 0
    ensures var log := Run(times, limit, window).1;
            Run(times + [now], limit, window).1
            == log + if |set i | 0 <= i < |log| && now - log[i] < window| < limit then [now] else []
  {
    var all := times + [now];
    assert all[..|all| - 1] == times && all[|all| - 1] == now;
    assert NonDecreasing(times) by {
      assert forall i | 0 <= i < |times| :: times[i] == all[i];
    }
    assert times != [] ==> times[|times| - 1] == all[|times| - 1] <= now;
    AnswerMatchesHistory(times, limit, window, now);
    RecentCount(Run(times, limit, window).1, now, window);
  }

  /** A sorted log whose last `n` entries are inside the window has at least `n` recent entries. */
  lemma {:induction false} RecentAtLeast(log: seq<Time>, now: Time, window: Time, n: nat)
    requires NonDecreasing(log) && 0 < n <= |log| && now - log[|log| - n] < window
    ensures |Recent(log, now, window)| >= n
  {
    assert log[|log| - n] <= log[|log| - 1];
    if n > 1 {
      RecentAtLeast(log[..|log| - 1], now, window, n - 1);
    }
  }

  lemma {:induction false} LogSpaced(times: seq<Time>, limit: int, window: Time)
    requires NonDecreasing(times) && limit > 0
    ensures var log := Run(times, limit, window).1;
            && NonDecreasing(log)
            && (log != [] ==> log[|log| - 1] <= times[|times| - 1])
            && forall i | 0 <= i && i + limit < |log| :: log[i + limit] - log[i] >= window
  {
    if times != [] {
      var now := times[|times| - 1];
      var rest := times[..|times| - 1];
      var (stored, log) := Run(rest, limit, window);
      LogSpaced(rest, limit, window);
      AnswerMatchesHistory(rest, limit, window, now);
      if Answer(stored, limit, window, now) && limit <= |log| && now - log[|log| - limit] < window {
        RecentAtLeast(log, now, window, limit);
        assert false;
      }
    }
  }

  /** No window ever holds more than `limit` accepted calls: an accepted call and the one
      `limit` places later are at least a window apart. */
  lemma AcceptedCallsSpaced(times: seq<Time>, limit: int, window: Time, i: nat)
    requires NonDecreasing(times) && limit > 0
    requires i + limit < |Run(times, limit, window).1|
    ensures Run(times, limit, window).1[i + limit] - Run(times, limit, window).1[i] >= window
  {
    LogSpaced(times, limit, window);
  }

  // ---------- The limiter ----------

  /** A slice: the first `len` cells of a backing array whose length is the capacity. */
  datatype Slice = Slice(data: array<Time>, len: nat)

  class RateLimiter {
    var hits: map<string, Slice>

    constructor ()
      ensures Valid() && forall k: string :: View(k) == []
    {
      hits := map[];
    }

    ghost function Arrays(): set<array<Time>>
      reads this
    {
      set k | k in hits :: hits[k].data
    }

    /** Different keys never share a backing array. */
    ghost predicate Valid()
      reads this
    {
      && (forall k | k in hits :: hits[k].len <= hits[k].data.Length)
      && (forall k, l | k in hits && l in hits && k != l :: hits[k].data != hits[l].data)
    }

    ghost function View(key: string): seq<Time>
      requires Valid()
      reads this, Arrays()
    {
      if key in hits then hits[key].data[..hits[key].len] else []
    }

    /** The compaction loop: keeps the recent timestamps in the front of the same array. */
    method Compact(s: Slice, window: Time, now: Time) returns (kept: nat)
      requires s.len <= s.data.Length
      modifies s.data
      ensures kept <= s.len && s.data[..kept] == Recent(old(s.data[..s.len]), now, window)
    {
      kept := 0;
      ghost var all := s.data[..s.len];
      for i := 0 to s.len
        invariant kept <= i
        invariant s.data[..kept] == Recent(all[..i], now, window)
        invariant s.data[i..s.len] == all[i..]
      {
        var t := s.data[i];
        assert t == s.data[i..s.len][0] == all[i];
        assert all[..i + 1][..i] == all[..i];
        if now - t < window {
          s.data[kept] := t;
          kept := kept + 1;
        }
        assert s.data[i + 1..s.len] == all[i..][1..];
      }
      assert all[..s.len] == all;
    }

    /** `append`: in place while there is capacity, into a new array otherwise. */
    static method Append(s: Slice, t: Time) returns (r: Slice)
      requires s.len <= s.data.Length
      modifies s.data
      ensures r.len == s.len + 1 <= r.data.Length
      ensures r.data == s.data || fresh(r.data)
      ensures r.data[..r.len] == old(s.data[..s.len]) + [t]
    {
      if s.len < s.data.Length {
        s.data[s.len] := t;
        r := Slice(s.data, s.len + 1);
      } else {
        var grown := new Time[2 * s.data.Length + 1];
        for i := 0 to s.len
          invariant forall k | 0 <= k < i :: grown[k] == s.data[k]
          invariant s.data[..] == old(s.data[..])
        {
          grown[i] := s.data[i];
        }
        grown[s.len] := t;
        r := Slice(grown, s.len + 1);
      }
    }

    method Allow(key: string, limit: int, window: Time, now: Time) returns (ok: bool)
      requires Valid()
      modifies this, Arrays()
      ensures Valid() && fresh(Arrays() - old(Arrays()))
      ensures ok <==> Answer(old(View(key)), limit, window, now)
      ensures View(key) == After(old(View(key)), limit, window, now)
      ensures forall k | k != key :: View(k) == old(View(k))
    {
      if limit <= 0 {
        return true;
      }
      var s: Slice;
      if key in hits {
        s := hits[key];
      } else {
        var empty := new Time[0];
        s := Slice(empty, 0);
      }
      var n := Compact(s, window, now);
      if n >= limit {
        hits := hits[key := Slice(s.data, n)];
        return false;
      }
      var grown := Append(Slice(s.data, n), now);
      hits := hits[key := grown];
      return true;
    }
  }
}
