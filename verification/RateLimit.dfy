/**
 The in-memory rate limiter: one deque of admission times per client key, pruned from the left.

 Times are reals.  A single call is `Decide`; what one key has been through is `Replay` of the
 times at which it was checked, in the order in which the lock was taken.
 */
module RateLimit {
  import opened Arithmetic

  /** `IndexError` is the exception that `timestamps[0]` raises on an empty deque. */
  datatype Verdict = Admitted | RetryAfter(seconds: int) | IndexError

  datatype Decision = Decision(stamps: seq<real>, verdict: Verdict)

  /** Python's `int(x)`: rounds toward zero. */
  function Truncate(x: real): int {
    if x < 0.0 then -(-x).Floor else x.Floor
  }

  function Prune(stamps: seq<real>, cutoff: real): seq<real> {
    if stamps != [] && stamps[0] <= cutoff then Prune(stamps[1..], cutoff) else stamps
  }

  function Decide(maxRequests: int, window: int, stamps: seq<real>, now: real): Decision {
    var kept := Prune(stamps, now - window as real);
    if |kept| >= maxRequests then
      if kept == [] then Decision(kept, IndexError)
      else Decision(kept, RetryAfter(Max(Truncate(kept[0] + window as real - now) + 1, 1)))
    else Decision(kept + [now], Admitted)
  }

  /** The deque of one key, and every time at which that key was ever admitted. */
  datatype KeyLog = KeyLog(stamps: seq<real>, admitted: seq<real>)

  ghost function Step(maxRequests: int, window: int, before: KeyLog, now: real): KeyLog {
    var d := Decide(maxRequests, window, before.stamps, now);
    KeyLog(d.stamps, if d.verdict == Admitted then before.admitted + [now] else before.admitted)
  }

  ghost function Replay(maxRequests: int, window: int, times: seq<real>): KeyLog {
    if times == [] then KeyLog([], [])
    else Step(maxRequests, window, Replay(maxRequests, window, times[..|times| - 1]), times[|times| - 1])
  }

  lemma ReplayNext(maxRequests: int, window: int, times: seq<real>, now: real)
    ensures Replay(maxRequests, window, times + [now])
      == Step(maxRequests, window, Replay(maxRequests, window, times), now)
  {
    assert (times + [now])[..|times|] == times;
  }

  class InMemoryRateLimiter {
    const maxRequests: int
    const windowSeconds: int
    var requests: map<string, seq<real>>
    ghost var arrivals: map<string, seq<real>>

    ghost predicate Valid()
      reads this
    {
      && requests.Keys == arrivals.Keys
      && forall key :: key in requests ==> requests[key] == Replay(maxRequests, windowSeconds, arrivals[key]).stamps
    }

    /** The times at which `key` was checked so far. */
    ghost function Arrivals(key: string): seq<real>
      reads this
    {
      if key in arrivals then arrivals[key] else []
    }

    constructor (maxRequests: int, windowSeconds: int)
      ensures this.maxRequests == maxRequests && this.windowSeconds == windowSeconds
      ensures Valid() && arrivals == map[] && requests == map[]
    {
      this.maxRequests := maxRequests;
      this.windowSeconds := windowSeconds;
      requests := map[];
      arrivals := map[];
    }

    /** Records a request for `key` at `now`; every other key keeps its deque. */
    method Check(key: string, now: real) returns (verdict: Verdict)
      requires Valid()
      modifies this
      ensures Valid()
      ensures arrivals == old(arrivals)[key := old(Arrivals(key)) + [now]]
      ensures var log := Replay(maxRequests, windowSeconds, old(Arrivals(key)));
        verdict == Decide(maxRequests, windowSeconds, log.stamps, now).verdict
      ensures forall other :: other in old(requests) && other != key ==>
        other in requests && requests[other] == old(requests)[other]
    {
      var timestamps := if key in requests then requests[key] else [];
      timestamps, verdict := CheckDeque(timestamps, now);
      requests := requests[key := timestamps];
      ReplayNext(maxRequests, windowSeconds, Arrivals(key), now);
      arrivals := arrivals[key := Arrivals(key) + [now]];
    }

    /** The critical section on one key's deque: drop what has left the window, then admit or refuse. */
    method CheckDeque(deque: seq<real>, now: real) returns (timestamps: seq<real>, verdict: Verdict)
      ensures Decision(timestamps, verdict) == Decide(maxRequests, windowSeconds, deque, now)
    {
      timestamps := deque;
      var cutoff := now - windowSeconds as real;
      while timestamps != [] && timestamps[0] <= cutoff
        invariant Prune(timestamps, cutoff) == Prune(deque, cutoff)
        decreases |timestamps|
      {
        timestamps := timestamps[1..];
      }
      if |timestamps| >= maxRequests {
        if timestamps == [] {
          return timestamps, IndexError;
        }
        var oldest := timestamps[0];
        var retryAfter := Truncate(oldest + windowSeconds as real - now) + 1;
        return timestamps, RetryAfter(Max(retryAfter, 1));
      }
      return timestamps + [now], Admitted;
    }

    method Reset()
      modifies this
      ensures Valid() && requests == map[] && arrivals == map[]
    {
      requests := map[];
      arrivals := map[];
    }
  }

  // ----- the window of a history

  ghost predicate Sorted(s: seq<real>) {
    forall i, j :: 0 <= i < j < |s| ==> s[i] <= s[j]
  }

  /** The elements of `history` that lie in the half-open interval (t - window, t]. */
  ghost function InWindow(history: seq<real>, t: real, window: int): seq<real> {
    if history == [] then []
    else
      var rest, last := history[..|history| - 1], history[|history| - 1];
      InWindow(rest, t, window) + if t - window as real < last <= t then [last] else []
  }

  /** Any admission lies at least a whole window after the one `maxRequests` places before it. */
  ghost predicate Spaced(history: seq<real>, maxRequests: int, window: int) {
    && maxRequests >= 1
    && forall i :: maxRequests <= i < |history| ==> history[i - maxRequests] + window as real <= history[i]
  }

  lemma {:induction false} InWindowIsSuffix(history: seq<real>, n: nat, t: real, window: int)
    requires n <= |history|
    requires forall i :: 0 <= i < n ==> history[i] <= t - window as real
    requires forall i :: n <= i < |history| ==> t - window as real < history[i] <= t
    ensures InWindow(history, t, window) == history[n..]
  {
    if history != [] {
      var rest, last := history[..|history| - 1], history[|history| - 1];
      InWindowIsSuffix(rest, if n == |history| then n - 1 else n, t, window);
      if n == |history| {
        assert rest[n - 1..] == [] && history[n..] == [];
      } else {
        assert t - window as real < last <= t;
        assert history[n..] == rest[n..] + [last];
      }
    }
  }

  /** A spaced history never has more than `maxRequests` admissions in one window. */
  lemma {:induction false} SpacedCapsWindow(history: seq<real>, maxRequests: int, window: int, t: real)
    requires Sorted(history) && Spaced(history, maxRequests, window)
    ensures |InWindow(history, t, window)| <= maxRequests
  {
    if history != [] {
      if history[|history| - 1] > t {
        SpacedCapsWindow(history[..|history| - 1], maxRequests, window, t);
      } else {
        var n := FirstInside(history, 0, t - window as real);
        InWindowIsSuffix(history, n, t, window);
        var k := |history| - 1 - maxRequests;
        assert k >= 0 ==> history[k] + window as real <= history[k + maxRequests] <= t;
      }
    }
  }

  /** The first element inside the window, looking from `from` on. */
  lemma {:induction false} FirstInside(history: seq<real>, from: nat, cutoff: real) returns (n: nat)
    requires Sorted(history) && from <= |history|
    requires forall i :: 0 <= i < from ==> history[i] <= cutoff
    ensures from <= n <= |history|
    ensures forall i :: 0 <= i < n ==> history[i] <= cutoff
    ensures forall i :: n <= i < |history| ==> cutoff < history[i]
    decreases |history| - from
  {
    if from == |history| || cutoff < history[from] {
      n := from;
    } else {
      n := FirstInside(history, from + 1, cutoff);
    }
  }

  // ----- what a run keeps

  /** The deque is a suffix of the history, and what it dropped had expired by `now`. */
  ghost predicate Tracks(log: KeyLog, n: nat, now: real, window: int) {
    && n <= |log.admitted|
    && log.stamps == log.admitted[n..]
    && (forall i :: 0 <= i < n ==> log.admitted[i] <= now - window as real)
    && (forall i :: 0 <= i < |log.admitted| ==> log.admitted[i] <= now)
  }

  lemma {:induction false} PruneIsSuffix(history: seq<real>, n: nat, m: nat, cutoff: real)
    requires n <= m <= |history|
    requires forall i :: 0 <= i < m ==> history[i] <= cutoff
    requires forall i :: m <= i < |history| ==> cutoff < history[i]
    ensures Prune(history[n..], cutoff) == history[m..]
    decreases m - n
  {
    if n < m {
      assert history[n..][1..] == history[n + 1..];
      PruneIsSuffix(history, n + 1, m, cutoff);
    }
  }

  /** One check: the pruned deque is the window of the history, whatever the verdict. */
  lemma PruneIsWindow(log: KeyLog, n: nat, last: real, now: real, window: int) returns (m: nat)
    requires Tracks(log, n, last, window) && Sorted(log.admitted) && last <= now
    ensures n <= m <= |log.admitted|
    ensures Prune(log.stamps, now - window as real) == log.admitted[m..] == InWindow(log.admitted, now, window)
    ensures forall i :: 0 <= i < m ==> log.admitted[i] <= now - window as real
  {
    m := FirstInside(log.admitted, n, now - window as real);
    PruneIsSuffix(log.admitted, n, m, now - window as real);
    InWindowIsSuffix(log.admitted, m, now, window);
  }

  lemma StepInvariant(maxRequests: int, window: int, log: KeyLog, n: nat, last: real, now: real) returns (m: nat)
    requires maxRequests >= 1 && last <= now
    requires Sorted(log.admitted) && Spaced(log.admitted, maxRequests, window) && Tracks(log, n, last, window)
    ensures var log' := Step(maxRequests, window, log, now);
      Sorted(log'.admitted) && Spaced(log'.admitted, maxRequests, window) && Tracks(log', m, now, window)
  {
    m := PruneIsWindow(log, n, last, now, window);
    var kept := log.admitted[m..];
    if |kept| < maxRequests {
      AdmitKeepsSpacing(log.admitted, maxRequests, window, m, now);
      TrackAdmission(log.admitted, window, m, now);
    } else {
      assert Step(maxRequests, window, log, now) == KeyLog(kept, log.admitted);
    }
  }

  lemma TrackAdmission(history: seq<real>, window: int, m: nat, now: real)
    requires m <= |history|
    requires forall i :: 0 <= i < m ==> history[i] <= now - window as real
    requires forall i :: 0 <= i < |history| ==> history[i] <= now
    ensures Tracks(KeyLog(history[m..] + [now], history + [now]), m, now, window)
  {
    assert history[m..] + [now] == (history + [now])[m..];
  }

  lemma AdmitKeepsSpacing(history: seq<real>, maxRequests: int, window: int, m: nat, now: real)
    requires Sorted(history) && Spaced(history, maxRequests, window)
    requires m <= |history| < m + maxRequests
    requires forall i :: 0 <= i < m ==> history[i] <= now - window as real
    requires forall i :: 0 <= i < |history| ==> history[i] <= now
    ensures Sorted(history + [now]) && Spaced(history + [now], maxRequests, window)
  {
    var longer := history + [now];
    forall i | maxRequests <= i < |longer|
      ensures longer[i - maxRequests] + window as real <= longer[i]
    {
      if i == |history| {
        assert longer[i - maxRequests] == history[i - maxRequests] <= now - window as real;
      } else {
        assert history[i - maxRequests] + window as real <= history[i];
      }
    }
  }

  lemma SortedLast(times: seq<real>, now: real)
    requires times != [] && Sorted(times + [now])
    ensures Sorted(times[..|times| - 1] + [times[|times| - 1]]) && times[|times| - 1] <= now
  {
    var all := times + [now];
    assert times[..|times| - 1] + [times[|times| - 1]] == all[..|times|];
    assert all[|times| - 1] <= all[|times|];
  }

  /** On a run whose checks are in clock order the history stays sorted and spaced, and the deque tracks it. */
  lemma {:induction false} ReplayInvariant(maxRequests: int, window: int, times: seq<real>, now: real)
    returns (n: nat, last: real)
    requires maxRequests >= 1 && Sorted(times + [now])
    ensures last <= now && (times != [] ==> last == times[|times| - 1])
    ensures var log := Replay(maxRequests, window, times);
      Sorted(log.admitted) && Spaced(log.admitted, maxRequests, window) && Tracks(log, n, last, window)
    decreases |times|
  {
    if times == [] {
      n, last := 0, now;
    } else {
      var earlier, before := times[..|times| - 1], 0.0;
      last := times[|times| - 1];
      SortedLast(times, now);
      n, before := ReplayInvariant(maxRequests, window, earlier, last);
      n := StepInvariant(maxRequests, window, Replay(maxRequests, window, earlier), n, before, last);
    }
  }

  /**
   Sliding-window refinement: after the last of any clock-ordered checks the deque holds
   exactly the admissions of the last window.
   */
  lemma DequeIsWindow(maxRequests: int, window: int, times: seq<real>, now: real)
    requires maxRequests >= 1 && window >= 1 && Sorted(times + [now])
    ensures var log := Replay(maxRequests, window, times + [now]);
      log.stamps == InWindow(log.admitted, now, window)
  {
    var log := Replay(maxRequests, window, times);
    var n, last := ReplayInvariant(maxRequests, window, times, now);
    var m := PruneIsWindow(log, n, last, now, window);
    ReplayNext(maxRequests, window, times, now);
    assert (log.admitted + [now])[..|log.admitted|] == log.admitted;
  }

  /** No window anywhere on a clock-ordered run holds more than `maxRequests` admissions. */
  lemma WindowCap(maxRequests: int, window: int, times: seq<real>, t: real)
    requires maxRequests >= 1 && Sorted(times)
    ensures |InWindow(Replay(maxRequests, window, times).admitted, t, window)| <= maxRequests
  {
    if times != [] {
      var last := times[|times| - 1];
      assert forall i :: 0 <= i < |times| ==> times[i] <= last;
      var _, _ := ReplayInvariant(maxRequests, window, times, last);
    }
    SpacedCapsWindow(Replay(maxRequests, window, times).admitted, maxRequests, window, t);
  }

  /** A check is refused exactly when the window that ends with it already holds `maxRequests` admissions. */
  lemma RefusedIffFull(maxRequests: int, window: int, times: seq<real>, now: real)
    requires maxRequests >= 1 && Sorted(times + [now])
    ensures var log := Replay(maxRequests, window, times);
      var verdict := Decide(maxRequests, window, log.stamps, now).verdict;
      && (verdict.RetryAfter? <==> |InWindow(log.admitted, now, window)| == maxRequests)
      && (verdict.Admitted? <==> |InWindow(log.admitted, now, window)| < maxRequests)
  {
    var log := Replay(maxRequests, window, times);
    var n, last := ReplayInvariant(maxRequests, window, times, now);
    var m := PruneIsWindow(log, n, last, now, window);
    SpacedCapsWindow(log.admitted, maxRequests, window, now);
  }

  lemma SecondsOf(maxRequests: int, window: int, stamps: seq<real>, now: real)
    requires var refused := Decide(maxRequests, window, stamps, now);
      refused.verdict.RetryAfter? && now - window as real < refused.stamps[0] <= now
    ensures var refused := Decide(maxRequests, window, stamps, now);
      var n, w := refused.verdict.seconds, refused.stamps[0] + window as real - now;
      0.0 < w < n as real <= w + 1.0 && 1 <= n <= window + 1
  {
    RoundedUp(Decide(maxRequests, window, stamps, now).stamps[0] + window as real - now);
  }

  ghost predicate Refused(maxRequests: int, window: int, times: seq<real>, now: real) {
    Decide(maxRequests, window, Replay(maxRequests, window, times).stamps, now).verdict.RetryAfter?
  }

  /** A refused caller's true wait: until the oldest admission leaves the window. */
  ghost function Wait(maxRequests: int, window: int, times: seq<real>, now: real): real
    requires Refused(maxRequests, window, times, now)
  {
    Decide(maxRequests, window, Replay(maxRequests, window, times).stamps, now).stamps[0] + window as real - now
  }

  /**
   Retry-after is sound and tight to a second, on every clock-ordered run.  However often the
   refused key is checked `between`, as long as it is before the end of the true wait `w` none
   of these checks is admitted; a check at `t` is admitted exactly when `t - now >= w`; and the
   advertised number of seconds lies in (w, w + 1] and in 1..window + 1.
   */
  lemma RetryAfterIsTight(maxRequests: int, window: int, times: seq<real>, now: real, between: seq<real>,
      run: seq<real>, t: real)
    requires maxRequests >= 1 && run == times + [now] + between && Sorted(run + [t])
    requires Refused(maxRequests, window, times, now)
    requires forall i :: 0 <= i < |between| ==> between[i] < now + Wait(maxRequests, window, times, now)
    ensures Replay(maxRequests, window, run).admitted == Replay(maxRequests, window, times).admitted
    ensures Decide(maxRequests, window, Replay(maxRequests, window, run).stamps, t).verdict == Admitted
       <==> t - now >= Wait(maxRequests, window, times, now)
    ensures
      var n := Decide(maxRequests, window, Replay(maxRequests, window, times).stamps, now).verdict.seconds;
      var w := Wait(maxRequests, window, times, now);
      0.0 < w < n as real <= w + 1.0 && 1 <= n <= window + 1
  {
    SortedParts(times, now, between, t);
    RefusedMeanwhile(maxRequests, window, times, now, between);
    NextCheck(maxRequests, window, times, now, run, t);
    AdvertisedSeconds(maxRequests, window, times, now);
  }

  lemma SortedPrefix(a: seq<real>, b: seq<real>)
    requires Sorted(a + b)
    ensures Sorted(a)
  {
    assert forall i :: 0 <= i < |a| ==> a[i] == (a + b)[i];
  }

  lemma SortedParts(times: seq<real>, now: real, between: seq<real>, x: real)
    requires Sorted(times + [now] + between + [x])
    ensures Sorted(times + [now]) && Sorted(times + [now] + between) && now <= x
  {
    SortedPrefix(times + [now] + between, [x]);
    SortedPrefix(times + [now], between);
    var all := times + [now] + between + [x];
    assert all[|times|] == now && all[|all| - 1] == x;
  }

  /** Checks before the end of the wait leave the admissions as they are. */
  lemma {:induction false} RefusedMeanwhile(maxRequests: int, window: int, times: seq<real>, now: real,
      between: seq<real>)
    requires maxRequests >= 1 && Sorted(times + [now] + between) && Sorted(times + [now])
    requires Refused(maxRequests, window, times, now)
    requires forall i :: 0 <= i < |between| ==> between[i] < now + Wait(maxRequests, window, times, now)
    ensures Replay(maxRequests, window, times + [now] + between).admitted == Replay(maxRequests, window, times).admitted
    decreases |between|
  {
    if between == [] {
      assert times + [now] + between == times + [now];
      ReplayNext(maxRequests, window, times, now);
    } else {
      var earlier, t := between[..|between| - 1], between[|between| - 1];
      var run := times + [now] + earlier;
      assert run + [t] == times + [now] + between;
      SortedPrefix(run, [t]);
      assert (run + [t])[|times|] == now && (run + [t])[|run|] == t;
      RefusedMeanwhile(maxRequests, window, times, now, earlier);
      NextCheck(maxRequests, window, times, now, run, t);
      ReplayNext(maxRequests, window, run, t);
    }
  }

  /** While nothing was admitted since the refusal, the next check is admitted exactly from the end of the wait on. */
  lemma NextCheck(maxRequests: int, window: int, times: seq<real>, now: real, run: seq<real>, t: real)
    requires maxRequests >= 1 && Sorted(times + [now]) && Sorted(run + [t]) && now <= t
    requires Refused(maxRequests, window, times, now)
    requires Replay(maxRequests, window, run).admitted == Replay(maxRequests, window, times).admitted
    ensures Decide(maxRequests, window, Replay(maxRequests, window, run).stamps, t).verdict == Admitted
       <==> t >= now + Wait(maxRequests, window, times, now)
  {
    var log := Replay(maxRequests, window, times);
    var n, last := ReplayInvariant(maxRequests, window, times, now);
    var m := PruneIsWindow(log, n, last, now, window);
    RefusedIffFull(maxRequests, window, times, now);
    RefusedIffFull(maxRequests, window, run, t);
    WindowLater(log.admitted, now, t, window);
  }

  lemma WindowLater(history: seq<real>, now: real, t: real, window: int)
    requires Sorted(history) && now <= t && forall i :: 0 <= i < |history| ==> history[i] <= now
    requires InWindow(history, now, window) != []
    ensures |InWindow(history, t, window)| < |InWindow(history, now, window)|
       <==> InWindow(history, now, window)[0] <= t - window as real
  {
    var m := FirstInside(history, 0, now - window as real);
    var k := FirstInside(history, 0, t - window as real);
    InWindowIsSuffix(history, m, now, window);
    InWindowIsSuffix(history, k, t, window);
    assert m < |history| && InWindow(history, now, window)[0] == history[m];
  }

  lemma FirstIsInside(history: seq<real>, m: nat, now: real, window: int)
    requires Sorted(history) && m < |history| && history[m..] == InWindow(history, now, window)
    requires forall i :: 0 <= i < |history| ==> history[i] <= now
    ensures now - window as real < history[m]
  {
    var k := FirstInside(history, 0, now - window as real);
    InWindowIsSuffix(history, k, now, window);
    assert |history[k..]| == |history[m..]|;
  }

  lemma AdvertisedSeconds(maxRequests: int, window: int, times: seq<real>, now: real)
    requires maxRequests >= 1 && Sorted(times + [now]) && Refused(maxRequests, window, times, now)
    ensures
      var n := Decide(maxRequests, window, Replay(maxRequests, window, times).stamps, now).verdict.seconds;
      var w := Wait(maxRequests, window, times, now);
      0.0 < w < n as real <= w + 1.0 && 1 <= n <= window + 1
  {
    var log := Replay(maxRequests, window, times);
    var n, last := ReplayInvariant(maxRequests, window, times, now);
    var m := PruneIsWindow(log, n, last, now, window);
    var kept := Decide(maxRequests, window, log.stamps, now).stamps;
    assert kept == log.admitted[m..] && kept[0] == log.admitted[m];
    FirstIsInside(log.admitted, m, now, window);
    SecondsOf(maxRequests, window, log.stamps, now);
  }

  lemma RoundedUp(wait: real)
    requires wait > 0.0
    ensures wait < (Truncate(wait) + 1) as real <= wait + 1.0
  {
  }

  /** With no admissions allowed the first check of a key raises instead of answering, and only then. */
  lemma {:induction false} RaisesIffNothingAllowed(maxRequests: int, window: int, times: seq<real>, now: real)
    ensures Decide(maxRequests, window, Replay(maxRequests, window, times).stamps, now).verdict == IndexError
      <==> maxRequests <= 0
  {
    if maxRequests <= 0 {
      NothingAdmitted(maxRequests, window, times);
    }
  }

  lemma {:induction false} NothingAdmitted(maxRequests: int, window: int, times: seq<real>)
    requires maxRequests <= 0
    ensures Replay(maxRequests, window, times) == KeyLog([], [])
  {
    if times != [] {
      NothingAdmitted(maxRequests, window, times[..|times| - 1]);
    }
  }

  // ----- checks that enter against the clock

  /**
   The time is read before the lock is taken, so checks may enter in another order than that of
   their times.  The cap on every window survives any order exactly when no more than one
   admission is allowed, or the window is empty.
   */
  lemma CapNeedsClockOrderExactly(maxRequests: int, window: int)
    requires maxRequests >= 1
    ensures (forall times: seq<real>, t: real ::
        |InWindow(Replay(maxRequests, window, times).admitted, t, window)| <= maxRequests)
       <==> (maxRequests == 1 || window <= 0)
  {
    if window <= 0 {
      forall times: seq<real>, t: real
        ensures |InWindow(Replay(maxRequests, window, times).admitted, t, window)| <= maxRequests
      {
        EmptyWindow(Replay(maxRequests, window, times).admitted, t, window);
      }
    } else if maxRequests == 1 {
      forall times: seq<real>, t: real
        ensures |InWindow(Replay(1, window, times).admitted, t, window)| <= 1
      {
        OneAdmissionIsSpaced(window, times);
        SpacedCapsWindow(Replay(1, window, times).admitted, 1, window, t);
      }
    } else {
      var times := seq(maxRequests, _ => 0.0);
      var c, d := window as real, 0.0;
      LockOrderInversionBreaksCap(maxRequests, window, times, c, d);
      assert |InWindow(Replay(maxRequests, window, times + [c, d]).admitted, d, window)| == maxRequests + 1;
    }
  }

  lemma {:induction false} EmptyWindow(history: seq<real>, t: real, window: int)
    requires window <= 0
    ensures InWindow(history, t, window) == []
  {
    if history != [] {
      EmptyWindow(history[..|history| - 1], t, window);
    }
  }

  /** The deque holds the last admission and nothing else. */
  ghost predicate HoldsLast(log: KeyLog) {
    log.stamps == if log.admitted == [] then [] else [log.admitted[|log.admitted| - 1]]
  }

  /** With one admission allowed, the deque holds the last admission, and the next must clear it. */
  lemma {:induction false} OneAdmissionIsSpaced(window: int, times: seq<real>)
    requires window >= 1
    ensures var log := Replay(1, window, times);
      Sorted(log.admitted) && Spaced(log.admitted, 1, window) && HoldsLast(log)
  {
    if times != [] {
      OneAdmissionIsSpaced(window, times[..|times| - 1]);
      OneMoreIsSpaced(window, Replay(1, window, times[..|times| - 1]), times[|times| - 1]);
    }
  }

  lemma OneMoreIsSpaced(window: int, log: KeyLog, now: real)
    requires window >= 1 && Sorted(log.admitted) && Spaced(log.admitted, 1, window) && HoldsLast(log)
    ensures var log' := Step(1, window, log, now);
      Sorted(log'.admitted) && Spaced(log'.admitted, 1, window) && HoldsLast(log')
  {
    var history := log.admitted;
    if history == [] || history[|history| - 1] <= now - window as real {
      AdmitKeepsSpacing(history, 1, window, |history|, now);
      assert Step(1, window, log, now) == KeyLog([now], history + [now]) by {
        PruneOne(log.stamps, now - window as real);
        assert [] + [now] == [now];
      }
    } else {
      assert Step(1, window, log, now) == log;
    }
  }

  lemma PruneOne(stamps: seq<real>, cutoff: real)
    requires |stamps| <= 1 && (stamps != [] ==> stamps[0] <= cutoff)
    ensures Prune(stamps, cutoff) == []
  {
    assert stamps != [] ==> stamps[1..] == [];
  }

  /**
   For any limit of two or more: `times` fill the window, the check at `c` drops them all, and
   the check at `d`, whose window they still fill, enters behind it and is admitted.
   */
  lemma LockOrderInversionBreaksCap(maxRequests: int, window: int, times: seq<real>, c: real, d: real)
    requires maxRequests >= 2 && |times| == maxRequests && Sorted(times)
    requires times[|times| - 1] <= d < times[0] + window as real
    requires times[|times| - 1] + window as real <= c
    ensures Replay(maxRequests, window, times + [c, d]).admitted == times + [c, d]
    ensures |InWindow(times + [c, d], d, window)| == maxRequests + 1
  {
    FillingIsAdmitted(maxRequests, window, times);
    EntersBehind(maxRequests, window, times, c, d);
    ReplayTwo(maxRequests, window, times, c, d);
    assert times + [c] + [d] == times + [c, d];
    FillsTheWindow(window, times, c, d);
  }

  lemma ReplayTwo(maxRequests: int, window: int, times: seq<real>, c: real, d: real)
    ensures Replay(maxRequests, window, times + [c, d])
      == Step(maxRequests, window, Step(maxRequests, window, Replay(maxRequests, window, times), c), d)
  {
    ReplayNext(maxRequests, window, times, c);
    ReplayNext(maxRequests, window, times + [c], d);
    assert times + [c] + [d] == times + [c, d];
  }

  lemma EntersBehind(maxRequests: int, window: int, times: seq<real>, c: real, d: real)
    requires maxRequests >= 2 && times != [] && Sorted(times)
    requires times[|times| - 1] <= d < times[0] + window as real
    requires times[|times| - 1] + window as real <= c
    ensures Step(maxRequests, window, KeyLog(times, times), c) == KeyLog([c], times + [c])
    ensures Step(maxRequests, window, KeyLog([c], times + [c]), d).admitted == times + [c] + [d]
  {
    assert times[0..] == times && times[|times|..] == [];
    PruneIsSuffix(times, 0, |times|, c - window as real);
    assert [] + [c] == [c];
    assert Prune([c], d - window as real) == [c];
  }

  lemma FillsTheWindow(window: int, times: seq<real>, c: real, d: real)
    requires times != [] && Sorted(times)
    requires times[|times| - 1] <= d < times[0] + window as real
    requires times[|times| - 1] + window as real <= c
    ensures |InWindow(times + [c, d], d, window)| == |times| + 1
  {
    assert times[0..] == times && times + [c] + [d] == times + [c, d];
    forall i | 0 <= i < |times|
      ensures d - window as real < times[i] <= d
    {
      assert times[0] <= times[i] <= times[|times| - 1];
    }
    InWindowIsSuffix(times, 0, d, window);
    InWindowSnoc(times, c, d, window);
    InWindowSnoc(times + [c], d, d, window);
  }

  lemma InWindowSnoc(history: seq<real>, x: real, t: real, window: int)
    ensures |InWindow(history + [x], t, window)|
      == |InWindow(history, t, window)| + if t - window as real < x <= t then 1 else 0
  {
    assert (history + [x])[..|history|] == history;
  }

  lemma NothingToPrune(stamps: seq<real>, cutoff: real)
    requires stamps != [] ==> stamps[0] > cutoff
    ensures Prune(stamps, cutoff) == stamps
  {
  }

  /** Checks that together lie within one window are all admitted, up to the limit. */
  lemma {:induction false} FillingIsAdmitted(maxRequests: int, window: int, times: seq<real>)
    requires |times| <= maxRequests && Sorted(times)
    requires times != [] ==> times[|times| - 1] < times[0] + window as real
    ensures Replay(maxRequests, window, times) == KeyLog(times, times)
  {
    if times != [] {
      var earlier, now := times[..|times| - 1], times[|times| - 1];
      FillingIsAdmitted(maxRequests, window, earlier);
      NothingToPrune(earlier, now - window as real);
      ReplayNext(maxRequests, window, earlier, now);
      assert earlier + [now] == times;
    }
  }
}
