/** Sliding-window rate limits. A bucket holds the times of recorded attempts, oldest first, and
    is trimmed from the front; the reference is a log that is never trimmed and is counted. */
module RateLimits {
  import opened Bytes

  type Window = seq<nat>

  /** The 64-bit sum wraps around. */
  predicate Gone(t: nat, now: nat, width: nat) {
    (t + width) % TWO64 <= now
  }

  function Trim(b: Window, now: nat, width: nat): Window {
    if b == [] || !Gone(b[0], now, width) then b else Trim(b[1..], now, width)
  }

  function Check(b: Window, now: nat, width: nat, limit: nat): (Window, bool) {
    var t := Trim(b, now, width);
    if |t| >= limit then (t, false) else (t + [now], true)
  }

  method TrimWindow(b: Window, now: nat, width: nat) returns (t: Window)
    ensures t == Trim(b, now, width)
  {
    t := b;
    while t != [] && (t[0] + width) % TWO64 <= now
      invariant Trim(t, now, width) == Trim(b, now, width)
    {
      t := t[1..];
    }
  }

  method CheckAndRecord(b: Window, now: nat, width: nat, limit: nat) returns (t: Window, ok: bool)
    ensures (t, ok) == Check(b, now, width, limit)
  {
    t := TrimWindow(b, now, width);
    if |t| >= limit {
      return t, false;
    }
    return t + [now], true;
  }

  // ---- buckets by key ----

  type Buckets<!K> = map<K, Window>

  function Bucket<K>(m: Buckets<K>, k: K): Window {
    if k in m then m[k] else []
  }

  /** Trims every bucket and drops those that become empty. */
  function TrimAll<K>(m: Buckets<K>, now: nat, width: nat): Buckets<K> {
    map k | k in m && Trim(m[k], now, width) != [] :: Trim(m[k], now, width)
  }

  method TrimMap<K>(m: Buckets<K>, now: nat, width: nat) returns (t: Buckets<K>)
    ensures t == TrimAll(m, now, width)
  {
    t := m;
    var todo := m.Keys;
    while todo != {}
      invariant todo <= m.Keys && t.Keys <= m.Keys
      invariant forall k :: k in todo ==> k in t && t[k] == m[k]
      invariant forall k :: k in m && k !in todo ==>
                  (k in t <==> Trim(m[k], now, width) != []) && (k in t ==> t[k] == Trim(m[k], now, width))
      decreases |todo|
    {
      var k :| k in todo;
      var b := TrimWindow(t[k], now, width);
      t := if b == [] then t - {k} else t[k := b];
      todo := todo - {k};
    }
  }

  // ---- the reference ----

  /** How many of the logged attempts lie in the window that ends at `x`. */
  function Count(log: Window, x: nat, width: nat): nat {
    if log == [] then 0 else
    var t := log[|log|-1];
    Count(log[..|log|-1], x, width) + if t <= x < t + width then 1 else 0
  }

  ghost predicate NotAfter(log: Window, now: nat) {
    forall i :: 0 <= i < |log| ==> log[i] <= now
  }

  ghost predicate Sorted(log: Window) {
    forall i, j :: 0 <= i < j < |log| ==> log[i] <= log[j]
  }

  /** The clock is in order and far from wrapping around. */
  ghost predicate Logged(log: Window, now: nat, width: nat) {
    Sorted(log) && NotAfter(log, now) && now + width < TWO64
  }

  /** The bucket and the log agree on what counts now and later. */
  ghost predicate Tracks(b: Window, log: Window, now: nat, width: nat) {
    && Logged(log, now, width) && NotAfter(b, now)
    && Trim(b, now, width) == Trim(log, now, width)
  }

  lemma {:induction false} TrimTwice(b: Window, t: nat, x: nat, width: nat)
    requires t <= x && NotAfter(b, x) && x + width < TWO64
    ensures Trim(Trim(b, t, width), x, width) == Trim(b, x, width)
    ensures NotAfter(Trim(b, t, width), x)
  {
    if b != [] && Gone(b[0], t, width) {
      TrimTwice(b[1..], t, x, width);
    }
  }

  lemma {:induction false} TrimAppend(b: Window, v: nat, x: nat, width: nat)
    ensures Trim(b + [v], x, width) == if Trim(b, x, width) != [] then Trim(b, x, width) + [v] else Trim([v], x, width)
  {
    if b == [] {
      assert b + [v] == [v];
    } else if Gone(b[0], x, width) {
      assert (b + [v])[1..] == b[1..] + [v];
      TrimAppend(b[1..], v, x, width);
    }
  }

  /** Time goes on. */
  lemma TracksLater(b: Window, log: Window, now: nat, later: nat, width: nat)
    requires Tracks(b, log, now, width) && now <= later && later + width < TWO64
    ensures Tracks(b, log, later, width)
  {
    TrimTwice(b, now, later, width);
    TrimTwice(log, now, later, width);
  }

  lemma TracksTrimmed(b: Window, log: Window, now: nat, width: nat)
    requires Tracks(b, log, now, width)
    ensures Tracks(Trim(b, now, width), log, now, width)
  {
    TrimTwice(b, now, now, width);
  }

  lemma {:induction false} CountPrefix(v: nat, log: Window, x: nat, width: nat)
    ensures Count([v] + log, x, width) == (if v <= x < v + width then 1 else 0) + Count(log, x, width)
  {
    if log == [] {
      assert [v] + log == [v];
    } else {
      assert ([v] + log)[..|log|] == [v] + log[..|log|-1];
      CountPrefix(v, log[..|log|-1], x, width);
    }
  }

  /** What trimming leaves of an ordered log is what counts. */
  lemma {:induction false} TrimCounts(log: Window, now: nat, width: nat)
    requires Logged(log, now, width)
    ensures |Trim(log, now, width)| == Count(log, now, width)
  {
    if log != [] {
      var v, tail := log[0], log[1..];
      assert log == [v] + tail;
      CountPrefix(v, tail, now, width);
      TrimCounts(tail, now, width);
      if !Gone(v, now, width) {
        NothingGone(tail, v, now, width);
      }
    }
  }

  lemma NothingGone(b: Window, v: nat, now: nat, width: nat)
    requires !Gone(v, now, width) && v + width < TWO64 && now + width < TWO64
    requires forall i :: 0 <= i < |b| ==> v <= b[i] <= now
    ensures Trim(b, now, width) == b
  {
  }

  /** One attempt: the bucket decides as the log does, and goes on tracking it. */
  lemma CheckTracks(b: Window, log: Window, now: nat, width: nat, limit: nat)
    requires Tracks(b, log, now, width)
    ensures var (b', ok) := Check(b, now, width, limit);
            && (ok <==> Count(log, now, width) < limit)
            && Tracks(b', if ok then log + [now] else log, now, width)
  {
    TrimCounts(log, now, width);
    TracksTrimmed(b, log, now, width);
    TracksPush(Trim(b, now, width), log, now, width);
  }

  lemma TracksPush(b: Window, log: Window, now: nat, width: nat)
    requires Tracks(b, log, now, width)
    ensures Tracks(b + [now], log + [now], now, width)
  {
    TrimAppend(b, now, now, width);
    TrimAppend(log, now, now, width);
  }

  /** Every attempt in the log was recorded while fewer than `limit` were in its window. */
  ghost predicate Legit(log: Window, width: nat, limit: nat) {
    forall k :: 0 <= k < |log| ==> Count(log[..k], log[k], width) < limit
  }

  lemma LegitPush(log: Window, now: nat, width: nat, limit: nat)
    requires Legit(log, width, limit) && Count(log, now, width) < limit
    ensures Legit(log + [now], width, limit)
  {
    forall k | 0 <= k < |log| + 1 ensures Count((log + [now])[..k], (log + [now])[k], width) < limit {
      assert (log + [now])[..k] == log[..k];
      assert k == |log| ==> log[..k] == log;
    }
  }

  lemma {:induction false} CountMonotone(log: Window, t: nat, x: nat, width: nat)
    requires NotAfter(log, t) && t <= x
    ensures Count(log, x, width) <= Count(log, t, width)
  {
    if log != [] {
      CountMonotone(log[..|log|-1], t, x, width);
    }
  }

  /** No window, wherever it ends, holds more than the limit. */
  lemma {:induction false} NoWindowExceeds(log: Window, x: nat, width: nat, limit: nat)
    requires Legit(log, width, limit) && Sorted(log)
    ensures Count(log, x, width) <= limit
  {
    if log != [] {
      var n := |log| - 1;
      var init, t := log[..n], log[n];
      forall k | 0 <= k < n ensures Count(init[..k], init[k], width) < limit {
        assert init[..k] == log[..k];
      }
      NoWindowExceeds(init, x, width, limit);
      if t <= x {
        CountMonotone(init, t, x, width);
      }
    }
  }
}
