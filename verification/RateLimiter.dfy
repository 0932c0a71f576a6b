/** The fixed-window rate limiter context: lazily expiring windows per duration, with counts
    per key, and the bound it puts on accepted requests. */
module RateLimiter {

  type Key = nat

  /** A request's duration as it arrives: missing, not a finite number, or milliseconds. */
  datatype Requested = Absent | NotFinite | Millis(value: int)

  const SENSITIVE_RATE_DURATION_MS := 60_000

  datatype Window = Window(duration: int, counts: map<Key, nat>, start: int, resetAt: int)

  function Count(w: Window, key: Key): nat {
    if key in w.counts then w.counts[key] else 0
  }

  function Opened(duration: int, now: int): Window {
    Window(duration, map[], now, now + duration)
  }

  function Refreshed(w: Window, now: int): Window {
    if now < w.resetAt then w else Opened(w.duration, now)
  }

  function Counted(w: Window, key: Key, now: int): Window {
    var w2 := Refreshed(w, now);
    w2.(counts := w2.counts[key := Count(w2, key) + 1])
  }

  // ---- The context object, against a log of what it counted ------------------------------------

  /** What counts: a request, a refund of one, forgetting a key. */
  datatype Event = Hit(key: Key, duration: int) | Refund(key: Key, duration: int) | Forget(key: Key)

  /** Requests less refunds of a key in a stretch of the log, since the key was forgotten. */
  function Net(log: seq<Event>, d: int, key: Key): int {
    if log == [] then 0
    else
      var before := Net(log[..|log| - 1], d, key);
      match log[|log| - 1]
      case Hit(k, dur) => if k == key && dur == d then before + 1 else before
      case Refund(k, dur) => if k == key && dur == d then before - 1 else before
      case Forget(k) => if k == key then 0 else before
  }

  /** A window's counts are what the log says since entry `from`. */
  ghost predicate Tallies(w: Window, log: seq<Event>, from: nat) {
    from <= |log| && forall k :: Count(w, k) == Net(log[from..], w.duration, k)
  }

  lemma NetGrows(log: seq<Event>, from: nat, event: Event, d: int, key: Key)
    requires from <= |log|
    ensures Net((log + [event])[from..], d, key) ==
            match event
            case Hit(k, dur) => Net(log[from..], d, key) + if k == key && dur == d then 1 else 0
            case Refund(k, dur) => Net(log[from..], d, key) - if k == key && dur == d then 1 else 0
            case Forget(k) => if k == key then 0 else Net(log[from..], d, key)
  {
    var tail := (log + [event])[from..];
    assert tail[..|tail| - 1] == log[from..];
  }

  /** What an event does to a window's counts. */
  function Applied(w: Window, event: Event): Window {
    match event
    case Hit(k, dur) => if dur == w.duration then w.(counts := w.counts[k := Count(w, k) + 1]) else w
    case Refund(k, dur) =>
      if dur == w.duration && Count(w, k) > 0 then w.(counts := w.counts[k := Count(w, k) - 1]) else w
    case Forget(k) => w.(counts := w.counts - {k})
  }

  lemma TalliesGrow(w: Window, log: seq<Event>, from: nat, event: Event)
    requires Tallies(w, log, from)
    requires event.Refund? && event.duration == w.duration ==> Count(w, event.key) > 0
    ensures Tallies(Applied(w, event), log + [event], from)
  {
    forall k ensures Count(Applied(w, event), k) == Net((log + [event])[from..], w.duration, k) {
      NetGrows(log, from, event, w.duration, k);
    }
  }

  class FixedWindowContext {
    var windows: map<int, Window>
    var defaultDuration: int
    ghost var log: seq<Event>
    ghost var since: map<int, nat>   // where in the log each window (re)started

    ghost predicate Valid()
      reads this
    {
      && defaultDuration > 0 && windows.Keys <= since.Keys
      && forall d :: d in windows ==>
           && d > 0 && windows[d].duration == d && windows[d].resetAt == windows[d].start + d
           && Tallies(windows[d], log, since[d])
    }

    constructor ()
      ensures Valid() && windows == map[] && defaultDuration == SENSITIVE_RATE_DURATION_MS
    {
      windows, defaultDuration, log, since := map[], SENSITIVE_RATE_DURATION_MS, [], map[];
    }

    function ValidDuration(candidate: Requested): (d: int)
      reads this
      requires defaultDuration > 0
      ensures d > 0
      ensures candidate == Millis(d) <==> candidate.Millis? && candidate.value > 0
      ensures candidate != Millis(d) ==> d == defaultDuration
    {
      if candidate.Millis? && candidate.value > 0 then candidate.value else defaultDuration
    }

    function WindowFor(d: int, now: int): Window
      reads this
    {
      if d in windows then windows[d] else Opened(d, now)
    }

    method Init(duration: Requested)
      modifies this
      ensures Valid() && windows == map[]
      ensures defaultDuration ==
              if duration.Millis? && duration.value > 0 then duration.value else SENSITIVE_RATE_DURATION_MS
    {
      defaultDuration := if duration.Millis? && duration.value > 0 then duration.value else SENSITIVE_RATE_DURATION_MS;
      windows, log, since := map[], [], map[];
    }

    /** Counts a request in the window of its duration, which is opened or restarted if due. */
    method Increment(key: Key, requested: Requested, now: int) returns (count: nat, nextReset: int, start: int)
      requires Valid()
      modifies this
      ensures Valid() && defaultDuration == old(defaultDuration)
      ensures var d := ValidDuration(requested);
        && windows == old(windows)[d := Counted(old(WindowFor(ValidDuration(requested), now)), key, now)]
        && count == Count(windows[d], key) && nextReset == windows[d].resetAt && start == windows[d].start
        && count > 0 && now < nextReset
    {
      var d := ValidDuration(requested);
      var window := WindowFor(d, now);
      if d !in windows || window.resetAt <= now { since := since[d := |log|]; }
      ghost var was := window;
      window := Refreshed(window, now);
      ghost var event := Hit(key, d);
      assert Tallies(window, log, since[d]) && now < window.resetAt;
      TalliesGrow(window, log, since[d], event);
      forall e | e in windows && e != d ensures Tallies(windows[e], log + [event], since[e]) {
        TalliesGrow(windows[e], log, since[e], event);
      }
      count := Count(window, key) + 1;
      window := window.(counts := window.counts[key := count]);
      assert window == Counted(was, key, now) == Applied(Refreshed(was, now), event);
      windows, log := windows[d := window], log + [event];
      nextReset, start := window.resetAt, window.start;
    }

    /** The durations whose window has a count of the key left. */
    function Targets(key: Key): (targets: set<int>)
      reads this
      ensures forall d :: d in targets <==>
                d in windows && key in windows[d].counts && windows[d].counts[key] >= 1
    {
      set d | d in windows && Count(windows[d], key) > 0
    }

    /** Refunds a request if exactly one window counts the key; otherwise nothing changes. */
    method Decrement(key: Key)
      requires Valid()
      modifies this`windows, this`log
      ensures Valid()
      ensures |old(Targets(key))| != 1 ==> windows == old(windows)
      ensures forall d :: old(Targets(key)) == {d} ==>
                var was := old(windows)[d];
                windows == old(windows)[d := was.(counts := was.counts[key := was.counts[key] - 1])]
    {
      var targets := Targets(key);
      if |targets| != 1 { return; }
      NotEmpty(targets);
      var d :| d in targets;
      OnlyOne(targets, d);
      forall e | e in windows ensures Tallies(Applied(windows[e], Refund(key, d)), log + [Refund(key, d)], since[e]) {
        TalliesGrow(windows[e], log, since[e], Refund(key, d));
      }
      windows := windows[d := windows[d].(counts := windows[d].counts[key := windows[d].counts[key] - 1])];
      log := log + [Refund(key, d)];
    }

    /** Forgets one key in every window. */
    method ResetKey(key: Key)
      requires Valid()
      modifies this`windows, this`log
      ensures Valid() && windows.Keys == old(windows).Keys
      ensures forall d :: d in windows ==> windows[d] == old(windows)[d].(counts := old(windows)[d].counts - {key})
    {
      forall e | e in windows ensures Tallies(Applied(windows[e], Forget(key)), log + [Forget(key)], since[e]) {
        TalliesGrow(windows[e], log, since[e], Forget(key));
      }
      windows := map d | d in windows :: windows[d].(counts := windows[d].counts - {key});
      log := log + [Forget(key)];
    }

    /** Restarts every window. */
    method ResetAll(now: int)
      requires Valid()
      modifies this`windows, this`since
      ensures Valid() && windows.Keys == old(windows).Keys && forall d :: d in windows ==> windows[d] == Opened(d, now)
    {
      windows := map d | d in windows :: Opened(windows[d].duration, now);
      since := map d | d in windows :: |log|;
    }
  }

  lemma NotEmpty(s: set<int>)
    requires |s| > 0
    ensures exists d: int :: d in s
  {
    if forall d: int :: d !in s { assert false; }
  }

  lemma OnlyOne(s: set<int>, d: int)
    requires |s| == 1 && d in s
    ensures s == {d}
  {
    assert |s - {d}| == 0;
    assert s == {d} + (s - {d});
  }

  // ---- The bound on accepted requests ----------------------------------------------------------------

  datatype Request = Request(key: Key, time: int)

  predicate Chronological(reqs: seq<Request>) {
    forall i, j :: 0 <= i < j < |reqs| ==> reqs[i].time <= reqs[j].time
  }

  /** The window of the one duration after the first `n` requests. */
  function WindowAfter(reqs: seq<Request>, duration: int, n: nat): Window
    requires 0 < n <= |reqs|
  {
    var r := reqs[n - 1];
    Counted(if n == 1 then Opened(duration, r.time) else WindowAfter(reqs, duration, n - 1), r.key, r.time)
  }

  /** The limiter lets a request pass if its count does not exceed the maximum. */
  predicate Accepted(reqs: seq<Request>, duration: int, max: nat, i: nat)
    requires i < |reqs|
  {
    Count(WindowAfter(reqs, duration, i + 1), reqs[i].key) <= max
  }

  function AcceptedOf(reqs: seq<Request>, duration: int, max: nat, key: Key, from: nat, end: nat): nat
    requires from <= end <= |reqs|
    decreases end - from
  {
    if from == end then 0
    else
      AcceptedOf(reqs, duration, max, key, from, end - 1) +
      if reqs[end - 1].key == key && Accepted(reqs, duration, max, end - 1) then 1 else 0
  }

  predicate Restarts(reqs: seq<Request>, duration: int, i: nat)
    requires 0 < i < |reqs|
  {
    WindowAfter(reqs, duration, i).resetAt <= reqs[i].time
  }

  lemma {:induction false} WithinWindow(reqs: seq<Request>, duration: int, max: nat, key: Key, from: nat, end: nat)
    requires from < end <= |reqs|
    requires forall i :: from < i < end ==> !Restarts(reqs, duration, i)
    ensures AcceptedOf(reqs, duration, max, key, from, end) <= max
    ensures AcceptedOf(reqs, duration, max, key, from, end) <= Count(WindowAfter(reqs, duration, end), key)
    decreases end
  {
    if from + 1 < end {
      WithinWindow(reqs, duration, max, key, from, end - 1);
      assert !Restarts(reqs, duration, end - 1);
    } else {
      assert AcceptedOf(reqs, duration, max, key, from, from) == 0;
    }
  }

  lemma {:induction false} WindowReaches(reqs: seq<Request>, duration: int, i: nat, n: nat)
    requires Chronological(reqs) && 0 < i < n <= |reqs| && Restarts(reqs, duration, i)
    ensures WindowAfter(reqs, duration, n).resetAt >= reqs[i].time + duration
    ensures WindowAfter(reqs, duration, n).duration == duration
    decreases n
  {
    DurationKept(reqs, duration, n);
    if n > i + 1 {
      WindowReaches(reqs, duration, i, n - 1);
    } else {
      DurationKept(reqs, duration, i);
    }
    DurationKept(reqs, duration, n - 1);
  }

  lemma {:induction false} DurationKept(reqs: seq<Request>, duration: int, n: nat)
    requires 0 < n <= |reqs|
    ensures WindowAfter(reqs, duration, n).duration == duration
  {
    if n > 1 { DurationKept(reqs, duration, n - 1); }
  }

  lemma {:induction false} AcceptedSplits(reqs: seq<Request>, duration: int, max: nat, key: Key, from: nat, mid: nat,
                                          end: nat)
    requires from <= mid <= end <= |reqs|
    ensures AcceptedOf(reqs, duration, max, key, from, end) ==
            AcceptedOf(reqs, duration, max, key, from, mid) + AcceptedOf(reqs, duration, max, key, mid, end)
    decreases end
  {
    if mid < end { AcceptedSplits(reqs, duration, max, key, from, mid, end - 1); }
  }

  /** Requests of any keys share the window. Those within less than one duration of each other
      span at most two windows, so at most twice the maximum of a key is accepted. */
  lemma AtMostTwiceMax(reqs: seq<Request>, duration: int, max: nat, key: Key, from: nat, end: nat)
    requires Chronological(reqs) && from < end <= |reqs| && reqs[end - 1].time < reqs[from].time + duration
    ensures AcceptedOf(reqs, duration, max, key, from, end) <= 2 * max
  {
    if r :| from < r < end && Restarts(reqs, duration, r) {
      forall i | from < i < end && i != r ensures !Restarts(reqs, duration, i) {
        var first, second := if i < r then i else r, if i < r then r else i;
        if Restarts(reqs, duration, i) {
          WindowReaches(reqs, duration, first, second);
        }
      }
      WithinWindow(reqs, duration, max, key, from, r);
      WithinWindow(reqs, duration, max, key, r, end);
      AcceptedSplits(reqs, duration, max, key, from, r, end);
    } else {
      WithinWindow(reqs, duration, max, key, from, end);
    }
  }

  /** The bound is met: one request of another key opens the window just early enough. */
  lemma TwiceMaxIsReached()
    ensures var reqs := [Request(0, 0), Request(1, 9), Request(1, 10)];
      Chronological(reqs) && reqs[2].time < reqs[1].time + 10 && AcceptedOf(reqs, 10, 1, 1, 1, 3) == 2
  {
  }
}
