/** Runs of a rate limiter: timed calls on many keys, the run seen by one key, and what was granted when. */
module Runs {

  // Times and durations are in nanoseconds.
  const SECOND: int := 1_000_000_000
  const HOUR: int := 3600 * SECOND
  const DAY: int := 24 * HOUR

  /** A call for `n` units at time `now`, or a reset of a key. */
  datatype Event = Call(key: string, n: int, now: int) | Reset(key: string, now: int)

  /** Times never go back. */
  ghost predicate Timed(events: seq<Event>, from: int) {
    && (forall i :: 0 <= i < |events| ==> from <= events[i].now)
    && (forall i, k :: 0 <= i < k < |events| ==> events[i].now <= events[k].now)
  }

  lemma TimedTail(events: seq<Event>, from: int)
    requires Timed(events, from) && events != []
    ensures from <= events[0].now && Timed(events[1..], events[0].now)
  {
  }

  // ----- One key at a time -----

  /** How one key answers: a state, the number of units asked for, the time. */
  type Allow<!S> = (S, int, int) -> (S, bool)

  function KeyStep<S>(allow: Allow<S>, init: S, s: S, e: Event): (S, bool) {
    match e
    case Call(_, n, now) => allow(s, n, now)
    case Reset(_, _) => (init, true)
  }

  /** The answers of a single key to its events, from state `s`. */
  function KeyRun<S>(allow: Allow<S>, init: S, s: S, events: seq<Event>): (r: seq<bool>)
    ensures |r| == |events|
    decreases |events|
  {
    if events == [] then []
    else
      var (s', ok) := KeyStep(allow, init, s, events[0]);
      [ok] + KeyRun(allow, init, s', events[1..])
  }

  /** The state a single key's events lead to. */
  function KeyEnd<S>(allow: Allow<S>, init: S, s: S, events: seq<Event>): S
    decreases |events|
  {
    if events == [] then s else KeyEnd(allow, init, KeyStep(allow, init, s, events[0]).0, events[1..])
  }

  lemma KeyRunCons<S>(allow: Allow<S>, init: S, s: S, e: Event, events: seq<Event>)
    ensures var (s', ok) := KeyStep(allow, init, s, e);
            KeyRun(allow, init, s, [e] + events) == [ok] + KeyRun(allow, init, s', events)
  {
    assert ([e] + events)[1..] == events;
  }

  function StateOf<S>(m: map<string, S>, key: string, init: S): S {
    if key in m then m[key] else init
  }

  /** The answers when every key has a state of its own. */
  function AllKeysRun<S>(allow: Allow<S>, init: S, m: map<string, S>, events: seq<Event>): (r: seq<bool>)
    ensures |r| == |events|
    decreases |events|
  {
    if events == [] then []
    else
      var key := events[0].key;
      var (s', ok) := KeyStep(allow, init, StateOf(m, key, init), events[0]);
      [ok] + AllKeysRun(allow, init, m[key := s'], events[1..])
  }

  function EventsOf(events: seq<Event>, key: string): seq<Event> {
    if events == [] then []
    else (if events[0].key == key then [events[0]] else []) + EventsOf(events[1..], key)
  }

  function AnswersOf(events: seq<Event>, answers: seq<bool>, key: string): (r: seq<bool>)
    requires |answers| == |events|
    ensures |r| == |EventsOf(events, key)|
  {
    if events == [] then []
    else (if events[0].key == key then [answers[0]] else []) + AnswersOf(events[1..], answers[1..], key)
  }

  /** Keys are independent: in any interleaving, a key is answered as in the run of its own events. */
  lemma {:induction false} KeysIndependent<S>(allow: Allow<S>, init: S, m: map<string, S>, events: seq<Event>,
                                              key: string)
    ensures AnswersOf(events, AllKeysRun(allow, init, m, events), key) ==
            KeyRun(allow, init, StateOf(m, key, init), EventsOf(events, key))
    decreases |events|
  {
    if events != [] {
      var e := events[0];
      var (s', ok) := KeyStep(allow, init, StateOf(m, e.key, init), e);
      KeysIndependent(allow, init, m[e.key := s'], events[1..], key);
      var rest := EventsOf(events[1..], key);
      assert AllKeysRun(allow, init, m, events)[1..] == AllKeysRun(allow, init, m[e.key := s'], events[1..]);
      if e.key == key {
        assert ([e] + rest)[0] == e && ([e] + rest)[1..] == rest;
      } else {
        assert [] + rest == rest;
      }
    }
  }

  lemma {:induction false} EventsOfTimed(events: seq<Event>, key: string, from: int)
    requires Timed(events, from)
    ensures Timed(EventsOf(events, key), from)
    ensures forall e :: e in EventsOf(events, key) ==> e in events && e.key == key
  {
    if events != [] {
      TimedTail(events, from);
      EventsOfTimed(events[1..], key, events[0].now);
      var rest := EventsOf(events[1..], key);
      var all := (if events[0].key == key then [events[0]] else []) + rest;
      forall e | e in all ensures e in events && e.key == key {}
    }
  }

  // ----- Two calls on one key -----

  lemma TwoAnswers<S>(allow: Allow<S>, s0: S, a: Event, b: Event)
    ensures KeyRun(allow, s0, s0, [a, b]) ==
            [KeyStep(allow, s0, s0, a).1, KeyStep(allow, s0, KeyStep(allow, s0, s0, a).0, b).1]
  {
    assert [a, b] == [a] + [b] && [b] == [b] + [];
    KeyRunCons(allow, s0, s0, a, [b]);
    KeyRunCons(allow, s0, KeyStep(allow, s0, s0, a).0, b, []);
  }

  lemma OneKey(a: Event, b: Event, x: bool, y: bool)
    requires a.key == b.key
    ensures EventsOf([a, b], a.key) == [a, b] && AnswersOf([a, b], [x, y], a.key) == [x, y]
  {
    assert [a, b][1..] == [b] && [b][1..] == [] && [x, y][1..] == [y] && [y][1..] == [];
    assert EventsOf([b], a.key) == [b] + [] && AnswersOf([b], [y], a.key) == [y] + [];
  }

  // ----- What was granted -----

  datatype Grant = Grant(time: int, n: nat)

  /** The units granted with lo <= time <= hi. */
  function Total(log: seq<Grant>, lo: int, hi: int): nat {
    if log == [] then 0
    else
      var g := log[|log| - 1];
      Total(log[..|log| - 1], lo, hi) + (if lo <= g.time <= hi then g.n else 0)
  }

  /** No grant is later than `now`. */
  ghost predicate Until(log: seq<Grant>, now: int) {
    forall i :: 0 <= i < |log| ==> log[i].time <= now
  }

  lemma TotalAppend(log: seq<Grant>, g: Grant, lo: int, hi: int)
    ensures Total(log + [g], lo, hi) == Total(log, lo, hi) + (if lo <= g.time <= hi then g.n else 0)
  {
    assert (log + [g])[..|log|] == log;
  }

  lemma {:induction false} TotalSplit(log: seq<Grant>, lo: int, mid: int, hi: int)
    requires lo - 1 <= mid <= hi
    ensures Total(log, lo, hi) == Total(log, lo, mid) + Total(log, mid + 1, hi)
  {
    if log != [] {
      TotalSplit(log[..|log| - 1], lo, mid, hi);
    }
  }

  lemma {:induction false} TotalWithin(log: seq<Grant>, lo: int, hi: int, lo': int, hi': int)
    requires lo' <= lo && hi <= hi'
    ensures Total(log, lo, hi) <= Total(log, lo', hi')
  {
    if log != [] {
      TotalWithin(log[..|log| - 1], lo, hi, lo', hi');
    }
  }

  /** Beyond the last grant nothing is added. */
  lemma {:induction false} TotalUntil(log: seq<Grant>, now: int, lo: int, hi: int)
    requires Until(log, now) && hi >= now
    ensures Total(log, lo, hi) == Total(log, lo, now)
    ensures lo > now ==> Total(log, lo, hi) == 0
  {
    if log != [] {
      TotalUntil(log[..|log| - 1], now, lo, hi);
    }
  }

  /** The grants of one key: the positive calls that were answered with true, in order. */
  function GrantsOf(events: seq<Event>, answers: seq<bool>): seq<Grant>
    requires |answers| == |events|
  {
    if events == [] then []
    else
      (if events[0].Call? && answers[0] && events[0].n > 0 then [Grant(events[0].now, events[0].n)] else []) +
      GrantsOf(events[1..], answers[1..])
  }

  ghost predicate NoResets(events: seq<Event>) {
    forall e :: e in events ==> e.Call?
  }

  function Extended(log: seq<Grant>, n: int, now: int, ok: bool): seq<Grant> {
    if ok && n > 0 then log + [Grant(now, n)] else log
  }

  /** The log grows by the grants of the rest of the run. */
  lemma GrantsCons(log: seq<Grant>, events: seq<Event>, answers: seq<bool>)
    requires |answers| == |events| && events != [] && events[0].Call?
    ensures log + GrantsOf(events, answers) ==
            Extended(log, events[0].n, events[0].now, answers[0]) + GrantsOf(events[1..], answers[1..])
  {
    var rest := GrantsOf(events[1..], answers[1..]);
    if answers[0] && events[0].n > 0 {
      var g := Grant(events[0].now, events[0].n);
      assert GrantsOf(events, answers) == [g] + rest;
      assert log + ([g] + rest) == log + [g] + rest;
    } else {
      assert GrantsOf(events, answers) == [] + rest == rest;
    }
  }
}
