/**
 The per-connection sliding-window rate limit (src/runtime/ingress/websocket.ts). Old timestamps are
 thrown away at every message; the bound nevertheless holds for every window of the whole history.
 */
module RateLimit {
  import opened Prelude

  function Within(now: int, windowMs: int): int -> bool {
    timestamp => now - timestamp < windowMs
  }

  function Span(from: int, windowMs: int): int -> bool {
    timestamp => from <= timestamp < from + windowMs
  }

  /** One arriving message: the remembered timestamps afterwards, and whether it is let in. */
  function Admit(timestamps: seq<int>, now: int, windowMs: int, maxMessages: int): (seq<int>, bool) {
    var recent := Filter(Within(now, windowMs), timestamps);
    if |recent| >= maxMessages then (recent, false) else (recent + [now], true)
  }

  class MessageWindow {
    const windowMs: int
    const maxMessages: int
    var messageTimestamps: seq<int>

    constructor (windowMs: int, maxMessages: int)
      ensures this.windowMs == windowMs && this.maxMessages == maxMessages && messageTimestamps == []
    {
      this.windowMs := windowMs;
      this.maxMessages := maxMessages;
      messageTimestamps := [];
    }

    method OnMessage(currentTime: int) returns (admitted: bool)
      modifies this
      ensures (messageTimestamps, admitted) == Admit(old(messageTimestamps), currentTime, windowMs, maxMessages)
    {
      messageTimestamps := Filter(Within(currentTime, windowMs), messageTimestamps);
      if |messageTimestamps| >= maxMessages {
        return false;
      }
      messageTimestamps := messageTimestamps + [currentTime];
      return true;
    }
  }

  /** Every message let in so far, and what the connection still remembers of them. */
  datatype History = History(admitted: seq<int>, timestamps: seq<int>)

  ghost function Arrivals(h: History, times: seq<int>, windowMs: int, maxMessages: int): History {
    if times == [] then h
    else
      var before := Arrivals(h, times[..|times| - 1], windowMs, maxMessages);
      var now := times[|times| - 1];
      var (timestamps, ok) := Admit(before.timestamps, now, windowMs, maxMessages);
      History(if ok then before.admitted + [now] else before.admitted, timestamps)
  }

  ghost predicate NonDecreasing(times: seq<int>) {
    forall i, j :: 0 <= i < j < |times| ==> times[i] <= times[j]
  }

  lemma {:induction false} FilterNarrow<T(!new)>(p: T -> bool, q: T -> bool, s: seq<T>)
    requires forall x :: x in s && p(x) ==> q(x)
    ensures |Filter(p, s)| <= |Filter(q, s)|
    ensures Filter(p, Filter(q, s)) == Filter(p, s)
  {
    if s != [] { FilterNarrow(p, q, s[1..]); }
  }

  // ---- Counting messages by time ----

  /** The messages of the window that ends at `now`. */
  ghost function LastWindow(admitted: seq<int>, now: int, windowMs: int): set<int> {
    set i | 0 <= i < |admitted| && now - admitted[i] < windowMs
  }

  /** The messages of the half-open span that starts at `from`. */
  ghost function InSpan(admitted: seq<int>, from: int, windowMs: int): set<int> {
    set i | 0 <= i < |admitted| && from <= admitted[i] < from + windowMs
  }

  ghost function Positions(keep: int -> bool, s: seq<int>): set<int> {
    set i | 0 <= i < |s| && keep(s[i])
  }

  lemma {:induction false} FilterSize(keep: int -> bool, s: seq<int>)
    ensures |Filter(keep, s)| == |Positions(keep, s)|
  {
    if s == [] {
      assert Positions(keep, s) == {};
    } else {
      var n := |s| - 1;
      var init := s[..n];
      FilterSize(keep, init);
      FilterLast(keep, s);
      PositionsLast(keep, s);
    }
  }

  lemma FilterLast(keep: int -> bool, s: seq<int>)
    requires s != []
    ensures var n := |s| - 1;
      |Filter(keep, s)| == |Filter(keep, s[..n])| + if keep(s[n]) then 1 else 0
  {
    var n := |s| - 1;
    assert s == s[..n] + [s[n]];
    FilterAppend(keep, s[..n], [s[n]]);
  }

  lemma PositionsLast(keep: int -> bool, s: seq<int>)
    requires s != []
    ensures var n := |s| - 1;
      |Positions(keep, s)| == |Positions(keep, s[..n])| + if keep(s[n]) then 1 else 0
  {
    var n := |s| - 1;
    assert Positions(keep, s) == Positions(keep, s[..n]) + if keep(s[n]) then {n} else {};
  }

  lemma CountWindow(admitted: seq<int>, now: int, windowMs: int)
    ensures |Filter(Within(now, windowMs), admitted)| == |LastWindow(admitted, now, windowMs)|
  {
    FilterSize(Within(now, windowMs), admitted);
    assert Positions(Within(now, windowMs), admitted) == LastWindow(admitted, now, windowMs);
  }

  lemma CountSpan(admitted: seq<int>, from: int, windowMs: int)
    ensures |Filter(Span(from, windowMs), admitted)| == |InSpan(admitted, from, windowMs)|
  {
    FilterSize(Span(from, windowMs), admitted);
    assert Positions(Span(from, windowMs), admitted) == InSpan(admitted, from, windowMs);
  }

  /** What is remembered is exactly the admitted messages of the last window, as of time `now`. */
  ghost predicate Remembers(h: History, now: int, windowMs: int) {
    && h.timestamps == Filter(Within(now, windowMs), h.admitted)
    && forall t :: t in h.admitted ==> t <= now
  }

  lemma AdmitRemembers(h: History, last: int, now: int, windowMs: int, maxMessages: int)
    requires Remembers(h, last, windowMs) && last <= now && windowMs > 0
    ensures var (timestamps, ok) := Admit(h.timestamps, now, windowMs, maxMessages);
      && Remembers(History(if ok then h.admitted + [now] else h.admitted, timestamps), now, windowMs)
      && (ok <==> |Filter(Within(now, windowMs), h.admitted)| < maxMessages)
  {
    FilterNarrow(Within(now, windowMs), Within(last, windowMs), h.admitted);
    FilterAppend(Within(now, windowMs), h.admitted, [now]);
    assert Filter(Within(now, windowMs), [now]) == [now];
  }

  lemma {:induction false} ArrivalsRemember(times: seq<int>, windowMs: int, maxMessages: int)
    requires NonDecreasing(times) && windowMs > 0 && times != []
    ensures var h, now := Arrivals(History([], []), times, windowMs, maxMessages), times[|times| - 1];
      && Remembers(h, now, windowMs) && |h.timestamps| == |LastWindow(h.admitted, now, windowMs)|
      && forall t :: t in h.timestamps <==> t in h.admitted && now - t < windowMs
    decreases |times|
  {
    var init, now := times[..|times| - 1], times[|times| - 1];
    if init == [] {
      AdmitRemembers(History([], []), now, now, windowMs, maxMessages);
    } else {
      ArrivalsRemember(init, windowMs, maxMessages);
      AdmitRemembers(Arrivals(History([], []), init, windowMs, maxMessages), init[|init| - 1], now, windowMs, maxMessages);
    }
    CountWindow(Arrivals(History([], []), times, windowMs, maxMessages).admitted, now, windowMs);
  }

  /**
   With a clock that does not run backwards, every half-open span of one window's length contains
   at most `maxMessages` of the messages let in, over the connection's whole life.
   */
  lemma EveryWindowBounded(times: seq<int>, windowMs: int, maxMessages: nat, from: int)
    requires NonDecreasing(times)
    ensures |InSpan(Arrivals(History([], []), times, windowMs, maxMessages).admitted, from, windowMs)| <= maxMessages
  {
    SpanBounded(times, windowMs, maxMessages, from);
    CountSpan(Arrivals(History([], []), times, windowMs, maxMessages).admitted, from, windowMs);
  }

  lemma {:induction false} SpanBounded(times: seq<int>, windowMs: int, maxMessages: nat, from: int)
    requires NonDecreasing(times)
    ensures |Filter(Span(from, windowMs), Arrivals(History([], []), times, windowMs, maxMessages).admitted)| <= maxMessages
    decreases |times|
  {
    if times != [] {
      var init, now := times[..|times| - 1], times[|times| - 1];
      SpanBounded(init, windowMs, maxMessages, from);
      var before := Arrivals(History([], []), init, windowMs, maxMessages);
      FilterAppend(Span(from, windowMs), before.admitted, [now]);
      if Span(from, windowMs)(now) {
        if init != [] {
          ArrivalsRemember(init, windowMs, maxMessages);
          AdmitRemembers(before, init[|init| - 1], now, windowMs, maxMessages);
          FilterNarrow(Span(from, windowMs), Within(now, windowMs), before.admitted);
        }
      }
    }
  }

  /**
   And it is no stricter than that: a message is let in exactly when fewer than `maxMessages` of the
   messages admitted before it lie in the window that ends with it.
   */
  lemma AdmittedExactly(times: seq<int>, windowMs: int, maxMessages: nat, now: int)
    requires NonDecreasing(times) && (times != [] ==> times[|times| - 1] <= now) && windowMs > 0
    ensures var before := Arrivals(History([], []), times, windowMs, maxMessages);
      Arrivals(History([], []), times + [now], windowMs, maxMessages).admitted
      == if |LastWindow(before.admitted, now, windowMs)| < maxMessages then before.admitted + [now] else before.admitted
  {
    var all := times + [now];
    assert all[..|all| - 1] == times && all[|all| - 1] == now;
    var before := Arrivals(History([], []), times, windowMs, maxMessages);
    CountWindow(before.admitted, now, windowMs);
    if times != [] {
      ArrivalsRemember(times, windowMs, maxMessages);
      AdmitRemembers(before, times[|times| - 1], now, windowMs, maxMessages);
    }
  }
}
