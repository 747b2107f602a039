/** The login rate limiter: a fixed window of attempts per key, with a lazy sweep of elapsed windows. */
module RateLimiter {
  import opened Options

  /** One key's attempts in its current window; resetAt is the last instant of the window. */
  datatype HitWindow = HitWindow(count: nat, resetAt: int)

  type Hits = map<string, HitWindow>

  const SWEEP_THRESHOLD := 1024

  datatype Attempt = Attempt(key: string, now: int)

  /** max attempts per window of the given length. */
  datatype Limits = Limits(max: int, window: int)

  // ----- One attempt

  function Window(hits: Hits, key: string): Option<HitWindow> {
    if key in hits then Some(hits[key]) else None
  }

  /** A fresh window for a first attempt or an elapsed one; else one more attempt while there is room. */
  function Judge(w: Option<HitWindow>, l: Limits, now: int): (HitWindow, bool) {
    if w.None? || now > w.value.resetAt then (HitWindow(1, now + l.window), true)
    else if w.value.count >= l.max then (w.value, false)
    else (w.value.(count := w.value.count + 1), true)
  }

  function Live(hits: Hits, now: int): Hits {
    map k | k in hits && now <= hits[k].resetAt :: hits[k]
  }

  function Swept(hits: Hits, now: int): Hits {
    if |hits| >= SWEEP_THRESHOLD then Live(hits, now) else hits
  }

  function Attempted(hits: Hits, l: Limits, a: Attempt): (Hits, bool) {
    var swept := Swept(hits, a.now);
    var (w, ok) := Judge(Window(swept, a.key), l, a.now);
    (swept[a.key := w], ok)
  }

  class Limiter {
    var hits: Hits
    const limits: Limits

    constructor (limits: Limits)
      ensures hits == map[] && this.limits == limits
    {
      hits := map[];
      this.limits := limits;
    }

    /** Drops every elapsed window, visiting the keys in whatever order they come. */
    method Sweep(now: int)
      modifies this`hits
      ensures hits == Live(old(hits), now)
    {
      ghost var before := hits;
      var pending := hits.Keys;
      while |pending| > 0
        invariant pending <= before.Keys
        invariant forall k :: k in hits <==> k in before && (k in pending || now <= before[k].resetAt)
        invariant forall k :: k in hits ==> hits[k] == before[k]
        decreases |pending|
      {
        assert (forall k: string :: k !in pending) ==> pending == {};
        var k: string :| k in pending;
        pending := pending - {k};
        if now > hits[k].resetAt {
          hits := hits - {k};
        }
      }
    }

    /** Records an attempt for a key and reports whether it is permitted. */
    method Allow(key: string, now: int) returns (ok: bool)
      modifies this`hits
      ensures (hits, ok) == Attempted(old(hits), limits, Attempt(key, now))
    {
      if |hits| >= SWEEP_THRESHOLD {
        Sweep(now);
      }
      if key !in hits || now > hits[key].resetAt {
        hits := hits[key := HitWindow(1, now + limits.window)];
        return true;
      }
      var w := hits[key];
      if w.count >= limits.max {
        assert hits == hits[key := w];
        return false;
      }
      hits := hits[key := w.(count := w.count + 1)];
      ok := true;
    }
  }

  // ----- Traces

  ghost predicate Ordered(trace: seq<Attempt>) {
    forall i, j :: 0 <= i < j < |trace| ==> trace[i].now <= trace[j].now
  }

  ghost predicate OrderedTimes(times: seq<int>) {
    forall i, j :: 0 <= i < j < |times| ==> times[i] <= times[j]
  }

  /** When one key was tried and what it was told, along a trace over all keys. */
  function AnswersTo(key: string, hits: Hits, l: Limits, trace: seq<Attempt>): seq<(int, bool)>
    decreases |trace|
  {
    if trace == [] then []
    else
      var a := trace[0];
      var (hits', ok) := Attempted(hits, l, a);
      var rest := AnswersTo(key, hits', l, trace[1..]);
      if a.key == key then [(a.now, ok)] + rest else rest
  }

  /** What a limiter with no sweep that sees only these attempts answers. */
  function Alone(w: Option<HitWindow>, l: Limits, times: seq<int>): seq<(int, bool)>
    decreases |times|
  {
    if times == [] then []
    else
      var (w', ok) := Judge(w, l, times[0]);
      [(times[0], ok)] + Alone(Some(w'), l, times[1..])
  }

  function TimesOf(key: string, trace: seq<Attempt>): seq<int> {
    if trace == [] then []
    else if trace[0].key == key then [trace[0].now] + TimesOf(key, trace[1..])
    else TimesOf(key, trace[1..])
  }

  /** The map remembers a key's window, or has forgotten one that is over by now. */
  predicate Agrees(hits: Hits, key: string, w: Option<HitWindow>, now: int) {
    Window(hits, key) == w || (key !in hits && w.Some? && w.value.resetAt < now)
  }

  lemma {:induction false} ProjectsFrom(hits: Hits, l: Limits, key: string, w: Option<HitWindow>, trace: seq<Attempt>, since: int)
    requires Ordered(trace) && (trace != [] ==> since <= trace[0].now)
    requires Agrees(hits, key, w, since)
    ensures AnswersTo(key, hits, l, trace) == Alone(w, l, TimesOf(key, trace))
    decreases |trace|
  {
    if trace != [] {
      var a := trace[0];
      var (hits', ok) := Attempted(hits, l, a);
      AgreesLater(hits, l, a, key, w);
      if a.key == key {
        var w' := Judge(w, l, a.now).0;
        ProjectsFrom(hits', l, key, Some(w'), trace[1..], a.now);
        assert TimesOf(key, trace)[1..] == TimesOf(key, trace[1..]);
      } else {
        ProjectsFrom(hits', l, key, w, trace[1..], a.now);
      }
    }
  }

  lemma AgreesLater(hits: Hits, l: Limits, a: Attempt, key: string, w: Option<HitWindow>)
    requires Agrees(hits, key, w, a.now)
    ensures var (hits', ok) := Attempted(hits, l, a);
            && (a.key == key ==> var (w', ok') := Judge(w, l, a.now); ok == ok' && Window(hits', key) == Some(w'))
            && (a.key != key ==> Agrees(hits', key, w, a.now))
  {}

  /** The sweep is invisible: along any trace with a clock that never runs back, what one key is told is
      what a limiter without a sweep that never saw the other keys would tell it. */
  lemma SweepIsInvisible(l: Limits, key: string, trace: seq<Attempt>)
    requires Ordered(trace)
    ensures AnswersTo(key, map[], l, trace) == Alone(None, l, TimesOf(key, trace))
  {
    ProjectsFrom(map[], l, key, None, trace, if trace == [] then 0 else trace[0].now);
  }

  // ----- What each window permits

  predicate NonePast(times: seq<int>, end: int) {
    forall i :: 0 <= i < |times| ==> times[i] <= end
  }

  lemma {:induction false} RestOfWindow(w: HitWindow, l: Limits, times: seq<int>)
    requires NonePast(times, w.resetAt)
    ensures var answers := Alone(Some(w), l, times);
            && |answers| == |times|
            && forall i :: 0 <= i < |times| ==> answers[i] == (times[i], w.count + i < l.max)
    decreases |times|
  {
    if times != [] {
      RestOfWindow(Judge(Some(w), l, times[0]).0, l, times[1..]);
    }
  }

  /** The first attempt opens a window that closes with its last instant; of the attempts within it exactly
      the first max are permitted, and the first one always. */
  lemma WindowPermitsFirstMax(l: Limits, times: seq<int>)
    requires times != [] && NonePast(times, times[0] + l.window)
    ensures var answers := Alone(None, l, times);
            && |answers| == |times|
            && forall i :: 0 <= i < |times| ==> answers[i] == (times[i], i == 0 || i < l.max)
  {
    RestOfWindow(HitWindow(1, times[0] + l.window), l, times[1..]);
  }

  lemma {:induction false} AfterWindow(w: HitWindow, l: Limits, times: seq<int>, later: seq<int>)
    requires NonePast(times, w.resetAt)
    requires later != [] ==> w.resetAt < later[0]
    ensures Alone(Some(w), l, times + later) == Alone(Some(w), l, times) + Alone(None, l, later)
    decreases |times|
  {
    if times == [] {
      assert times + later == later;
    } else {
      assert (times + later)[1..] == times[1..] + later;
      AfterWindow(Judge(Some(w), l, times[0]).0, l, times[1..], later);
    }
  }

  lemma Opens(l: Limits, times: seq<int>)
    requires times != []
    ensures Alone(None, l, times) ==
            [(times[0], true)] + Alone(Some(HitWindow(1, times[0] + l.window)), l, times[1..])
  {}

  /** The first attempt past a window starts over, as if nothing had been tried before. */
  lemma WindowsAreIndependent(l: Limits, times: seq<int>, later: seq<int>)
    requires times != [] && NonePast(times, times[0] + l.window)
    requires later != [] ==> times[0] + l.window < later[0]
    ensures Alone(None, l, times + later) == Alone(None, l, times) + Alone(None, l, later)
  {
    hide Alone;
    assert (times + later)[0] == times[0] && (times + later)[1..] == times[1..] + later;
    Opens(l, times);
    Opens(l, times + later);
    AfterWindow(HitWindow(1, times[0] + l.window), l, times[1..], later);
  }

  // ----- The real-time bound

  /** How many answers in [from, to] were permits. */
  function Permits(answers: seq<(int, bool)>, from: int, to: int): nat {
    if answers == [] then 0
    else (if answers[0].1 && from <= answers[0].0 <= to then 1 else 0) + Permits(answers[1..], from, to)
  }

  function PermitsAlone(w: Option<HitWindow>, l: Limits, times: seq<int>, from: int, to: int): nat {
    Permits(Alone(w, l, times), from, to)
  }

  lemma PermitsStep(w: Option<HitWindow>, l: Limits, times: seq<int>, from: int, to: int)
    requires times != []
    ensures var (w', ok) := Judge(w, l, times[0]);
            PermitsAlone(w, l, times, from, to) ==
            (if ok && from <= times[0] <= to then 1 else 0) + PermitsAlone(Some(w'), l, times[1..], from, to)
  {
    var (w', ok) := Judge(w, l, times[0]);
    assert Alone(w, l, times)[1..] == Alone(Some(w'), l, times[1..]);
  }

  lemma {:induction false} NonePastTheEnd(w: Option<HitWindow>, l: Limits, times: seq<int>, from: int, to: int)
    requires forall i :: 0 <= i < |times| ==> times[i] > to
    ensures PermitsAlone(w, l, times, from, to) == 0
    decreases |times|
  {
    if times != [] {
      PermitsStep(w, l, times, from, to);
      NonePastTheEnd(Some(Judge(w, l, times[0]).0), l, times[1..], from, to);
    }
  }

  /** A window that outlasts the interval permits only what room it has left. */
  lemma {:induction false} OneWindow(w: HitWindow, l: Limits, times: seq<int>, from: int, to: int)
    requires OrderedTimes(times) && to <= w.resetAt
    ensures PermitsAlone(Some(w), l, times, from, to) <= if w.count < l.max then l.max - w.count else 0
    decreases |times|
  {
    if times != [] {
      var w' := Judge(Some(w), l, times[0]).0;
      PermitsStep(Some(w), l, times, from, to);
      if times[0] > w.resetAt {
        NonePastTheEnd(Some(w'), l, times[1..], from, to);
      } else {
        OneWindow(w', l, times[1..], from, to);
      }
    }
  }

  /** Once inside the interval: the rest of the current window, and one more window. */
  lemma {:induction false} TwoWindows(w: Option<HitWindow>, l: Limits, times: seq<int>, from: int, to: int)
    requires l.max >= 1 && to <= from + l.window
    requires OrderedTimes(times) && forall i :: 0 <= i < |times| ==> from <= times[i]
    ensures PermitsAlone(w, l, times, from, to) <=
            l.max + if w.Some? && w.value.count < l.max then l.max - w.value.count else 0
    decreases |times|
  {
    if times != [] {
      var w' := Judge(w, l, times[0]).0;
      PermitsStep(w, l, times, from, to);
      if w.None? || times[0] > w.value.resetAt {
        OneWindow(w', l, times[1..], from, to);
      } else {
        TwoWindows(Some(w'), l, times[1..], from, to);
      }
    }
  }

  lemma {:induction false} AnyStart(w: Option<HitWindow>, l: Limits, times: seq<int>, from: int, to: int)
    requires l.max >= 1 && to <= from + l.window && OrderedTimes(times)
    requires w.Some? ==> w.value.count >= 1
    ensures PermitsAlone(w, l, times, from, to) <= 2 * l.max - 1
    decreases |times|
  {
    if times == [] || from <= times[0] {
      TwoWindows(w, l, times, from, to);
    } else {
      PermitsStep(w, l, times, from, to);
      AnyStart(Some(Judge(w, l, times[0]).0), l, times[1..], from, to);
    }
  }

  lemma {:induction false} TimesAreOrdered(key: string, trace: seq<Attempt>)
    requires Ordered(trace)
    ensures OrderedTimes(TimesOf(key, trace))
    ensures forall i :: 0 <= i < |TimesOf(key, trace)| ==> trace != [] && trace[0].now <= TimesOf(key, trace)[i]
  {
    if trace != [] {
      TimesAreOrdered(key, trace[1..]);
      if |trace| > 1 { assert trace[0].now <= trace[1..][0].now; }
    }
  }

  /** However attempts are interleaved, any closed interval no longer than the window permits one key
      fewer than twice max attempts. */
  lemma FewerThanTwiceMax(l: Limits, key: string, trace: seq<Attempt>, from: int, to: int)
    requires Ordered(trace) && l.max >= 1 && to <= from + l.window
    ensures Permits(AnswersTo(key, map[], l, trace), from, to) <= 2 * l.max - 1
  {
    SweepIsInvisible(l, key, trace);
    TimesAreOrdered(key, trace);
    AnyStart(None, l, TimesOf(key, trace), from, to);
  }

  // ----- The bound is reached

  lemma {:induction false} PermitsAppend(a: seq<(int, bool)>, b: seq<(int, bool)>, from: int, to: int)
    ensures Permits(a + b, from, to) == Permits(a, from, to) + Permits(b, from, to)
  {
    if a == [] {
      assert a + b == b;
    } else {
      assert (a + b)[1..] == a[1..] + b;
      PermitsAppend(a[1..], b, from, to);
    }
  }

  lemma {:induction false} AllPermitted(answers: seq<(int, bool)>, from: int, to: int)
    requires forall i :: 0 <= i < |answers| ==> answers[i].1 && from <= answers[i].0 <= to
    ensures Permits(answers, from, to) == |answers|
  {
    if answers != [] {
      AllPermitted(answers[1..], from, to);
    }
  }

  /** When a burst of attempts comes: one at 0, all but one of the rest of its window at its last instant,
      and a whole window's worth an instant later. */
  function FirstTimes(l: Limits): seq<int>
    requires l.max >= 1
  {
    [0] + seq(l.max - 1, _ => l.window)
  }

  function LaterTimes(l: Limits): seq<int>
    requires l.max >= 1
  {
    seq(l.max, _ => l.window + 1)
  }

  function Tries(key: string, times: seq<int>): seq<Attempt> {
    seq(|times|, i requires 0 <= i < |times| => Attempt(key, times[i]))
  }

  lemma {:induction false} TimesOfTries(key: string, times: seq<int>)
    ensures TimesOf(key, Tries(key, times)) == times
  {
    if times != [] {
      assert Tries(key, times)[1..] == Tries(key, times[1..]);
      TimesOfTries(key, times[1..]);
    }
  }

  lemma FirstPermits(l: Limits)
    requires l.max >= 1 && l.window >= 1
    ensures PermitsAlone(None, l, FirstTimes(l), l.window, 2 * l.window) == l.max - 1
  {
    hide Alone;
    var answers := Alone(None, l, FirstTimes(l));
    WindowPermitsFirstMax(l, FirstTimes(l));
    AllPermitted(answers[1..], l.window, 2 * l.window);
  }

  lemma LaterPermits(l: Limits)
    requires l.max >= 1 && l.window >= 1
    ensures PermitsAlone(None, l, LaterTimes(l), l.window, 2 * l.window) == l.max
  {
    hide Alone;
    WindowPermitsFirstMax(l, LaterTimes(l));
    AllPermitted(Alone(None, l, LaterTimes(l)), l.window, 2 * l.window);
  }

  /** Whatever the limits, one key's burst gets one fewer than twice max permits within an interval as long
      as the window. */
  lemma BoundIsReached(l: Limits, key: string)
    requires l.max >= 1 && l.window >= 1
    ensures var trace := Tries(key, FirstTimes(l) + LaterTimes(l));
            && Ordered(trace)
            && Permits(AnswersTo(key, map[], l, trace), l.window, 2 * l.window) == 2 * l.max - 1
  {
    hide AnswersTo, Alone, Permits, TimesOf;
    var first, later := FirstTimes(l), LaterTimes(l);
    SweepIsInvisible(l, key, Tries(key, first + later));
    TimesOfTries(key, first + later);
    WindowsAreIndependent(l, first, later);
    PermitsAppend(Alone(None, l, first), Alone(None, l, later), l.window, 2 * l.window);
    FirstPermits(l);
    LaterPermits(l);
  }

  // ----- The size of the map

  /** Below 1024 keys an attempt leaves every other key alone; from 1024 on it first drops exactly the
      elapsed windows of the others. */
  lemma SweepsWhenFull(hits: Hits, l: Limits, a: Attempt, k: string)
    requires k != a.key
    ensures var hits' := Attempted(hits, l, a).0;
            && (k in hits' <==> k in hits && (|hits| < 1024 || a.now <= hits[k].resetAt))
            && (k in hits' ==> hits'[k] == hits[k])
  {}

  /** After an attempt the map holds at most 1024 keys, or nothing but windows still open; this fails
      only of a negative window, for a key new to a map that the sweep leaves full. */
  lemma MapStaysSmall(hits: Hits, l: Limits, a: Attempt)
    ensures var hits' := Attempted(hits, l, a).0;
            var live := Live(hits, a.now);
            && (|hits'| <= 1024 || Live(hits', a.now) == hits' <==>
                l.window >= 0 || |hits| < 1024 || a.key in live || |live| < 1024)
            && (|hits'| <= 1024 || |hits'| <= |Live(hits', a.now)| + 1)
  {
    var swept := Swept(hits, a.now);
    var hits' := Attempted(hits, l, a).0;
    assert hits'.Keys == swept.Keys + {a.key};
    if |hits| < SWEEP_THRESHOLD {
      assert |hits'.Keys| <= |swept.Keys| + 1;
    } else {
      SweptThenTried(swept, l, a);
    }
  }

  /** An attempt on a swept map. */
  lemma SweptThenTried(swept: Hits, l: Limits, a: Attempt)
    requires Live(swept, a.now) == swept
    ensures var hits' := swept[a.key := Judge(Window(swept, a.key), l, a.now).0];
            && (Live(hits', a.now) == hits' <==> l.window >= 0 || a.key in swept)
            && |hits'| == |swept| + (if a.key in swept then 0 else 1)
            && |Live(hits', a.now)| >= |swept|
  {
    var hits' := swept[a.key := Judge(Window(swept, a.key), l, a.now).0];
    assert a.key in Live(swept, a.now) <==> a.key in swept;
    assert forall k :: k in swept ==> k in Live(swept, a.now);
    assert forall k :: k in swept ==> a.now <= hits'[k].resetAt;
    if a.key in swept {
      assert hits'.Keys == swept.Keys;
    } else {
      assert hits'.Keys == swept.Keys + {a.key};
    }
    assert swept.Keys <= Live(hits', a.now).Keys;
    SubsetIsSmaller(swept.Keys, Live(hits', a.now).Keys);
    assert Live(hits', a.now) == hits' <==> a.key in Live(hits', a.now);
  }

  lemma SubsetIsSmaller<T>(a: set<T>, b: set<T>)
    requires a <= b
    ensures |a| <= |b|
  {
    assert b == a + (b - a) && |b| == |a| + |b - a|;
  }
}
