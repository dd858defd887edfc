/** ToolService::acquire_rate_limit_slot: a deque of grants, under a lock. Times are ticks of a steady
    clock, and `window` is the number of ticks in a second. */
module RateLimiter {
  const MAX_CALLS := 16

  /** One call, in lock order: its clock reading and its answer. */
  datatype Call = Call(now: int, granted: bool)
  datatype State = State(recent: seq<int>, history: seq<Call>)

  function Evict(recent: seq<int>, now: int, window: int): seq<int> {
    if recent != [] && now - recent[0] >= window then Evict(recent[1..], now, window) else recent
  }

  function Serve(s: State, now: int, window: int): State {
    var recent := Evict(s.recent, now, window);
    if |recent| >= MAX_CALLS then State(recent, s.history + [Call(now, false)])
    else State(recent + [now], s.history + [Call(now, true)])
  }

  /** The limiter after these clock readings, in lock order. */
  function Served(readings: seq<int>, window: int): State {
    if readings == [] then State([], [])
    else Serve(Served(readings[..|readings| - 1], window), readings[|readings| - 1], window)
  }

  class Limiter {
    const window: int
    var recentCalls: seq<int>
    ghost var history: seq<Call>

    ghost function Now(): State
      reads this
    {
      State(recentCalls, history)
    }

    constructor (window: int)
      ensures this.window == window && Now() == Served([], window)
    {
      this.window := window;
      recentCalls, history := [], [];
    }

    method Acquire(now: int) returns (granted: bool)
      modifies this
      ensures Now() == Serve(old(Now()), now, window) && history[|history| - 1] == Call(now, granted)
    {
      while recentCalls != [] && now - recentCalls[0] >= window
        invariant Evict(recentCalls, now, window) == Evict(old(recentCalls), now, window) && history == old(history)
        decreases |recentCalls|
      {
        recentCalls := recentCalls[1..];
      }
      if |recentCalls| >= MAX_CALLS {
        granted := false;
      } else {
        recentCalls := recentCalls + [now];
        granted := true;
      }
      history := history + [Call(now, granted)];
    }
  }

  // ---------- What a limiter promises ----------

  function Grants(history: seq<Call>): seq<int> {
    if history == [] then []
    else
      var last := history[|history| - 1];
      Grants(history[..|history| - 1]) + (if last.granted then [last.now] else [])
  }

  /** The grants later than `cutoff`. */
  function After(grants: seq<int>, cutoff: int): seq<int> {
    if grants == [] then []
    else
      var last := grants[|grants| - 1];
      After(grants[..|grants| - 1], cutoff) + (if last > cutoff then [last] else [])
  }

  /** How many grants fall into the half-open window that starts at `from`. */
  function InWindow(grants: seq<int>, from: int, window: int): nat {
    if grants == [] then 0
    else
      var last := grants[|grants| - 1];
      InWindow(grants[..|grants| - 1], from, window) + (if from <= last < from + window then 1 else 0)
  }

  predicate Ascending(s: seq<int>) {
    forall i, k :: 0 <= i < k < |s| ==> s[i] <= s[k]
  }

  // In an ascending deque, evicting from the front removes exactly the expired grants.
  lemma {:induction false} EvictIsAfter(recent: seq<int>, now: int, window: int)
    requires Ascending(recent)
    ensures Evict(recent, now, window) == After(recent, now - window)
  {
    if recent != [] && now - recent[0] >= window {
      EvictIsAfter(recent[1..], now, window);
      DropFront(recent, now - window);
    } else {
      AllAfter(recent, now - window);
    }
  }

  lemma {:induction false} DropFront(s: seq<int>, cutoff: int)
    requires s != [] && s[0] <= cutoff
    ensures After(s[1..], cutoff) == After(s, cutoff)
  {
    if |s| > 1 {
      DropFront(s[..|s| - 1], cutoff);
      assert s[..|s| - 1][1..] == s[1..][..|s| - 2];
    }
  }

  lemma {:induction false} AllAfter(s: seq<int>, cutoff: int)
    requires forall i :: 0 <= i < |s| ==> s[i] > cutoff
    ensures After(s, cutoff) == s
  {
    if s != [] {
      AllAfter(s[..|s| - 1], cutoff);
    }
  }

  lemma AfterAppend(s: seq<int>, x: int, cutoff: int)
    ensures After(s + [x], cutoff) == if x > cutoff then After(s, cutoff) + [x] else After(s, cutoff)
  {
    assert (s + [x])[..|s|] == s;
  }

  lemma {:induction false} AfterAfter(s: seq<int>, earlier: int, cutoff: int)
    requires earlier <= cutoff
    ensures After(After(s, earlier), cutoff) == After(s, cutoff)
  {
    if s != [] {
      var rest, last := s[..|s| - 1], s[|s| - 1];
      AfterAfter(rest, earlier, cutoff);
      AfterAppend(After(rest, earlier), last, cutoff);
      assert last <= earlier ==> After(s, earlier) == After(rest, earlier);
      assert last <= cutoff ==> After(s, cutoff) == After(rest, cutoff);
    }
  }

  lemma {:induction false} GrantsAscend(history: seq<Call>, bound: int)
    requires forall i, k :: 0 <= i < k < |history| ==> history[i].now <= history[k].now
    requires forall i :: 0 <= i < |history| ==> history[i].now <= bound
    ensures Ascending(Grants(history)) && forall i :: 0 <= i < |Grants(history)| ==> Grants(history)[i] <= bound
  {
    if history != [] {
      GrantsAscend(history[..|history| - 1], history[|history| - 1].now);
    }
  }

  lemma {:induction false} AfterAscends(s: seq<int>, cutoff: int)
    requires Ascending(s)
    ensures Ascending(After(s, cutoff)) && forall x :: x in After(s, cutoff) ==> x in s
  {
    if s != [] {
      var rest, last := s[..|s| - 1], s[|s| - 1];
      AfterAscends(rest, cutoff);
      var kept := After(rest, cutoff);
      forall i | 0 <= i < |kept| ensures kept[i] in s && kept[i] <= last {
        assert kept[i] in kept;
      }
      assert After(s, cutoff) == if last > cutoff then kept + [last] else kept;
    }
  }

  lemma {:induction false} HistoryIs(readings: seq<int>, window: int)
    ensures |Served(readings, window).history| == |readings|
    ensures forall i :: 0 <= i < |readings| ==> Served(readings, window).history[i].now == readings[i]
  {
    hide Evict;
    if readings != [] {
      HistoryIs(readings[..|readings| - 1], window);
    }
  }

  /** With readings that do not go back, the deque is at all times the grants of the past second. */
  lemma {:induction false} DequeIsPastSecond(readings: seq<int>, window: int)
    requires readings != [] && Ascending(readings) && window > 0
    ensures var s := Served(readings, window);
            s.recent == After(Grants(s.history), readings[|readings| - 1] - window)
    decreases |readings|, 1
  {
    hide Evict, After, Grants;
    var rest, now := readings[..|readings| - 1], readings[|readings| - 1];
    var s, t := Served(rest, window), Served(readings, window);
    EvictedIsPastSecond(readings, window);
    GrantsNext(s.history, now, t.history[|t.history| - 1].granted, now - window);
  }

  lemma GrantsNext(history: seq<Call>, now: int, granted: bool, cutoff: int)
    requires now > cutoff
    ensures After(Grants(history + [Call(now, granted)]), cutoff) == After(Grants(history), cutoff) + (if granted then [now] else [])
  {
    GrantsAppend(history, now, granted);
    AfterAppend(Grants(history), now, cutoff);
  }

  // What is left after eviction, before the answer is given.
  lemma {:induction false} EvictedIsPastSecond(readings: seq<int>, window: int)
    requires readings != [] && Ascending(readings) && window > 0
    ensures var s, now := Served(readings[..|readings| - 1], window), readings[|readings| - 1];
            Evict(s.recent, now, window) == After(Grants(s.history), now - window)
    decreases |readings|, 0
  {
    hide Evict, After, Grants;
    var rest, now := readings[..|readings| - 1], readings[|readings| - 1];
    var s := Served(rest, window);
    if rest == [] {
      NothingGranted(now, window);
    } else {
      DequeIsPastSecond(rest, window);
      HistoryIs(rest, window);
      GrantsAscend(s.history, rest[|rest| - 1]);
      AfterAscends(Grants(s.history), rest[|rest| - 1] - window);
      EvictIsAfter(s.recent, now, window);
      AfterAfter(Grants(s.history), rest[|rest| - 1] - window, now - window);
    }
  }

  lemma NothingGranted(now: int, window: int)
    ensures Evict([], now, window) == After(Grants([]), now - window)
  {
  }

  /** A call is refused exactly when sixteen grants lie within the past second. */
  lemma RefusedWhenFull(readings: seq<int>, window: int)
    requires readings != [] && Ascending(readings) && window > 0
    ensures var s, t, now := Served(readings[..|readings| - 1], window), Served(readings, window), readings[|readings| - 1];
            && t.history == s.history + [Call(now, |After(Grants(s.history), now - window)| < MAX_CALLS)]
            && |After(Grants(s.history), now - window)| <= MAX_CALLS
  {
    hide After, Grants, Evict;
    EvictedIsPastSecond(readings, window);
    DequeFits(readings[..|readings| - 1], window);
    EvictShrinks(Served(readings[..|readings| - 1], window).recent, readings[|readings| - 1], window);
  }

  lemma {:induction false} EvictShrinks(recent: seq<int>, now: int, window: int)
    ensures |Evict(recent, now, window)| <= |recent|
  {
    if recent != [] {
      EvictShrinks(recent[1..], now, window);
    }
  }

  lemma {:induction false} DequeFits(readings: seq<int>, window: int)
    ensures |Served(readings, window).recent| <= MAX_CALLS
  {
    hide Evict;
    if readings != [] {
      DequeFits(readings[..|readings| - 1], window);
      EvictShrinks(Served(readings[..|readings| - 1], window).recent, readings[|readings| - 1], window);
    }
  }

  lemma InWindowAppend(grants: seq<int>, now: int, from: int, len: int)
    ensures InWindow(grants + [now], from, len) == InWindow(grants, from, len) + (if from <= now < from + len then 1 else 0)
  {
    assert (grants + [now])[..|grants|] == grants;
  }

  // ---------- Clock drift ----------

  /** No reading lies more than `drift` before an earlier one, in lock order. */
  predicate BackAtMost(readings: seq<int>, drift: nat) {
    forall i, k :: 0 <= i < k < |readings| ==> readings[i] <= readings[k] + drift
  }

  lemma {:induction false} InWindowTail(s: seq<int>, from: int, len: int)
    requires s != [] && s[0] < from
    ensures InWindow(s[1..], from, len) == InWindow(s, from, len)
  {
    if |s| > 1 {
      InWindowTail(s[..|s| - 1], from, len);
      assert s[..|s| - 1][1..] == s[1..][..|s| - 2];
    }
  }

  lemma {:induction false} InWindowFits(s: seq<int>, from: int, len: int)
    ensures InWindow(s, from, len) <= |s|
  {
    if s != [] {
      InWindowFits(s[..|s| - 1], from, len);
    }
  }

  // Eviction removes nothing from an interval that starts within the window.
  lemma {:induction false} EvictSpares(recent: seq<int>, now: int, window: int, from: int, len: int)
    requires now - window < from
    ensures InWindow(Evict(recent, now, window), from, len) == InWindow(recent, from, len)
  {
    if recent != [] && now - recent[0] >= window {
      EvictSpares(recent[1..], now, window, from, len);
      InWindowTail(recent, from, len);
    }
  }

  // While no reading is a window or more past the start of an interval, the deque has all its grants.
  lemma {:induction false} DequeHasInterval(readings: seq<int>, window: int, from: int, len: int)
    requires forall i :: 0 <= i < |readings| ==> readings[i] - window < from
    ensures var s := Served(readings, window); InWindow(s.recent, from, len) == InWindow(Grants(s.history), from, len)
  {
    hide Evict, InWindow, Grants;
    if readings == [] {
      NothingServed(window);
    } else {
      var rest, now := readings[..|readings| - 1], readings[|readings| - 1];
      DequeHasInterval(rest, window, from, len);
      OneServed(Served(rest, window), now, window, from, len);
    }
  }

  lemma NothingServed(window: int)
    ensures Served([], window).recent == Grants(Served([], window).history)
  {
  }

  lemma OneServed(s: State, now: int, window: int, from: int, len: int)
    requires now - window < from && InWindow(s.recent, from, len) == InWindow(Grants(s.history), from, len)
    ensures var t := Serve(s, now, window); InWindow(t.recent, from, len) == InWindow(Grants(t.history), from, len)
  {
    hide Evict, InWindow, Grants;
    var t := Serve(s, now, window);
    EvictSpares(s.recent, now, window, from, len);
    GrantsAppend(s.history, now, t.history[|t.history| - 1].granted);
    InWindowAppend(Evict(s.recent, now, window), now, from, len);
    InWindowAppend(Grants(s.history), now, from, len);
  }

  /** Readings that go back by at most `drift`: no half-open interval shorter than the window by the
      drift holds more than sixteen grants, wherever it starts. */
  lemma {:induction false} DriftBound(readings: seq<int>, window: int, drift: nat, from: int, len: nat)
    requires BackAtMost(readings, drift) && len + drift <= window
    ensures InWindow(Grants(Served(readings, window).history), from, len) <= MAX_CALLS
  {
    hide Evict, InWindow, Grants;
    if readings == [] {
      NothingInWindow(from, len);
    } else {
      var rest, now := readings[..|readings| - 1], readings[|readings| - 1];
      var s, t := Served(rest, window), Served(readings, window);
      DriftBound(rest, window, drift, from, len);
      GrantsAppend(s.history, now, t.history[|t.history| - 1].granted);
      InWindowAppend(Grants(s.history), now, from, len);
      if from <= now < from + len && t.history[|t.history| - 1].granted {
        DequeHasInterval(rest, window, from, len);
        EvictSpares(s.recent, now, window, from, len);
        InWindowFits(Evict(s.recent, now, window), from, len);
      }
    }
  }

  lemma NothingInWindow(from: int, len: int)
    ensures InWindow(Grants([]), from, len) == 0
  {
  }

  /** With readings that do not go back, no half-open second holds more than sixteen grants. */
  lemma WindowBound(readings: seq<int>, window: int, from: int)
    requires Ascending(readings) && window > 0
    ensures InWindow(Grants(Served(readings, window).history), from, window) <= MAX_CALLS
  {
    DriftBound(readings, window, 0, from, window);
  }

  // ---------- A reading that goes back ----------

  function Zeros(n: nat): seq<int> {
    seq(n, _ => 0)
  }

  lemma {:induction false} ZerosGranted(n: nat, window: int)
    requires n <= MAX_CALLS && window > 0
    ensures Served(Zeros(n), window) == State(Zeros(n), seq(n, _ => Call(0, true)))
  {
    if n > 0 {
      ZerosGranted(n - 1, window);
      assert Zeros(n)[..n - 1] == Zeros(n - 1);
      assert Evict(Zeros(n - 1), 0, window) == Zeros(n - 1);
    }
  }

  lemma {:induction false} EvictZeros(n: nat, now: int, window: int)
    requires now >= window
    ensures Evict(Zeros(n), now, window) == []
  {
    if n > 0 {
      assert Zeros(n)[1..] == Zeros(n - 1);
      EvictZeros(n - 1, now, window);
    }
  }

  lemma {:induction false} ZerosInWindow(n: nat, window: int)
    requires window > 0
    ensures InWindow(Grants(seq(n, _ => Call(0, true))), 0, window) == n
  {
    if n > 0 {
      var history := seq(n, _ => Call(0, true));
      assert history[..n - 1] == seq(n - 1, _ => Call(0, true));
      ZerosInWindow(n - 1, window);
      InWindowAppend(Grants(history[..n - 1]), 0, 0, window);
    }
  }

  /** Readings that go back by at most `drift`, and an interval, whatever its excess over the window
      less the drift, that holds more than sixteen grants. */
  function Stale(window: int, drift: nat): seq<int> {
    Zeros(16) + [window, if drift < window then window - drift else 0]
  }

  lemma DriftBreaks(window: int, drift: nat, len: nat)
    requires window > 0 && len > 0 && len + drift > window
    ensures BackAtMost(Stale(window, drift), drift)
    ensures InWindow(Grants(Served(Stale(window, drift), window).history), 0, len) > MAX_CALLS
  {
    hide InWindow, Grants, Served;
    var last := if drift < window then window - drift else 0;
    var history := seq(16, _ => Call(0, true));
    StaleServed(window, drift, last, history);
    ZerosInWindow(16, len);
    GrantsAppend(history, window, true);
    GrantsAppend(history + [Call(window, true)], last, true);
    InWindowAppend(Grants(history), window, 0, len);
    InWindowAppend(Grants(history) + [window], last, 0, len);
  }

  // All eighteen calls are granted.
  lemma StaleServed(window: int, drift: nat, last: int, history: seq<Call>)
    requires window > 0 && last == (if drift < window then window - drift else 0) && history == seq(16, _ => Call(0, true))
    ensures Served(Stale(window, drift), window).history == history + [Call(window, true)] + [Call(last, true)]
  {
    hide Zeros;
    var readings := Stale(window, drift);
    ZerosGranted(16, window);
    EvictZeros(16, window, window);
    assert |Zeros(16)| == 16 by { ZerosLength(16); }
    assert readings[..17] == Zeros(16) + [window] && readings[..17][..16] == Zeros(16);
    assert Served(readings[..17], window) == State([window], history + [Call(window, true)]);
  }

  lemma ZerosLength(n: nat)
    ensures |Zeros(n)| == n
  {
  }

  /** The bound holds of every sequence of readings that goes back by at most `drift`. */
  ghost predicate AlwaysBounded(window: int, drift: nat, len: nat) {
    forall readings, from :: BackAtMost(readings, drift) ==> InWindow(Grants(Served(readings, window).history), from, len) <= MAX_CALLS
  }

  /** Exactly which intervals the limiter protects: those that, together with the drift of the
      readings, are no longer than the window. For whole seconds that is no drift at all. */
  lemma DriftExact(window: int, drift: nat, len: nat)
    requires window > 0 && len > 0
    ensures AlwaysBounded(window, drift, len) <==> len + drift <= window
  {
    hide Served, InWindow, Grants, BackAtMost;
    if len + drift <= window {
      forall readings, from | BackAtMost(readings, drift)
        ensures InWindow(Grants(Served(readings, window).history), from, len) <= MAX_CALLS
      {
        DriftBound(readings, window, drift, from, len);
      }
    } else {
      DriftBreaks(window, drift, len);
    }
  }

  /** The clock is read before the lock is taken. After sixteen grants at 0 and one a second later, a
      call that read its clock just before that is granted, and the first second holds seventeen. */
  lemma StaleReading(window: int)
    requires window > 1
    ensures var readings := Zeros(16) + [window, window - 1];
            BackAtMost(readings, 1) && InWindow(Grants(Served(readings, window).history), 0, window) > MAX_CALLS
  {
    DriftBreaks(window, 1, window);
  }

  lemma GrantsAppend(history: seq<Call>, now: int, granted: bool)
    ensures Grants(history + [Call(now, granted)]) == if granted then Grants(history) + [now] else Grants(history)
  {
    assert (history + [Call(now, granted)])[..|history|] == history;
  }
}
