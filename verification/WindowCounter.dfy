// The window-counter rate limiter: one counter per key, charged by an atomic
// script or by the server's own INCREX command.  Time is in milliseconds.
module WindowCounter {
  import opened Prelude

  // A counter as the server holds it; None is a key with no expiry.
  datatype Counter = Counter(value: int, expiresAt: Option<nat>)

  // What both tiers return: the value now, how much was added, and PTTL.
  datatype Reply = Reply(newValue: int, increment: int, pttl: int)

  function Value(c: Option<Counter>): int { if c.Some? then c.value.value else 0 }

  function Pttl(c: Option<Counter>, now: nat): int {
    match c
    case None => -2
    case Some(Counter(_, None)) => -1
    case Some(Counter(_, Some(at))) => at - now
  }

  // The script: refuse, or add and start the window when the sum is the cost.
  function Lua(c: Option<Counter>, now: nat, cost: int, limit: int, window: nat): (Option<Counter>, Reply) {
    if Value(c) + cost > limit then (c, Reply(Value(c), 0, Pttl(c, now)))
    else
      var sum := Value(c) + cost;
      var kept := if c.Some? then c.value.expiresAt else None;
      var next := Some(Counter(sum, if sum == cost then Some(now + window) else kept));
      (next, Reply(sum, cost, Pttl(next, now)))
  }

  // INCREX key BYINT cost UBOUND limit EX window ENX: refuse, or add and set
  // the expiry only where there is none.
  function Increx(c: Option<Counter>, now: nat, cost: int, limit: int, window: nat): (Option<Counter>, Reply) {
    if Value(c) + cost > limit then (c, Reply(Value(c), 0, Pttl(c, now)))
    else
      var sum := Value(c) + cost;
      var kept := if c.Some? then c.value.expiresAt else None;
      var next := Some(Counter(sum, if kept == None then Some(now + window) else kept));
      (next, Reply(sum, cost, Pttl(next, now)))
  }

  // The states a limiter leaves behind: a counter is positive and expires.
  predicate Sound(c: Option<Counter>, now: nat) {
    c.Some? ==> c.value.value > 0 && c.value.expiresAt.Some? && now < c.value.expiresAt.value
  }

  // The two tiers part ways exactly when a charge is admitted on a counter
  // that has value but no expiry, or an expiry but no value and not the one a
  // fresh window would get.
  lemma TiersAgreeExactly(c: Option<Counter>, now: nat, cost: int, limit: int, window: nat)
    ensures Lua(c, now, cost, limit, window) == Increx(c, now, cost, limit, window) <==>
            || c == None
            || c.value.value + cost > limit
            || (c.value.value == 0 && (c.value.expiresAt == None || c.value.expiresAt == Some(now + window)))
            || (c.value.value != 0 && c.value.expiresAt.Some?)
  {
    var l, i := Lua(c, now, cost, limit, window).0, Increx(c, now, cost, limit, window).0;
    assert l == i ==> Lua(c, now, cost, limit, window) == Increx(c, now, cost, limit, window);
  }

  // What a charge is meant to do to a sound counter.
  function Charge(c: Option<Counter>, now: nat, cost: nat, limit: int, window: nat): Option<Counter> {
    if Value(c) + cost > limit then c
    else if c == None then Some(Counter(cost, Some(now + window)))
    else Some(c.value.(value := c.value.value + cost))
  }

  // On a sound counter both tiers do that, and leave a sound counter.
  lemma TiersCharge(c: Option<Counter>, now: nat, cost: nat, limit: int, window: nat)
    requires Sound(c, now) && cost > 0 && window > 0
    ensures Lua(c, now, cost, limit, window).0 == Charge(c, now, cost, limit, window)
    ensures Increx(c, now, cost, limit, window) == Lua(c, now, cost, limit, window)
    ensures Sound(Charge(c, now, cost, limit, window), now)
    ensures Lua(c, now, cost, limit, window).1.increment != 0 <==> Value(c) + cost <= limit
  {
  }

  // -- runs -----------------------------------------------------------------

  // One key under one limit, charged by any number of clients, each through
  // whichever tier it has.
  datatype Event = Pass(ms: nat) | Hit(cost: nat, increx: bool)

  // `log` holds every admitted charge with its time; `start` is when the
  // latest window began.
  datatype World = World(now: nat, counter: Option<Counter>, start: nat, log: seq<(nat, nat)>)

  const NEW_WORLD := World(0, None, 0, [])

  function Admits(w: World, cost: nat, limit: nat): bool { Value(w.counter) + cost <= limit }

  function Step(w: World, e: Event, limit: nat, window: nat): World {
    match e
    case Pass(ms) =>
      var now := w.now + ms;
      var gone := w.counter.Some? && w.counter.value.expiresAt.Some? && w.counter.value.expiresAt.value <= now;
      w.(now := now, counter := if gone then None else w.counter)
    case Hit(cost, increx) =>
      if !Admits(w, cost, limit) then w
      else
        w.(counter := (if increx then Increx(w.counter, w.now, cost, limit, window)
                       else Lua(w.counter, w.now, cost, limit, window)).0,
           start := if w.counter == None then w.now else w.start,
           log := w.log + [(w.now, cost)])
  }

  predicate Costs(events: seq<Event>) { forall i :: 0 <= i < |events| ==> events[i].Hit? ==> events[i].cost >= 1 }

  function Run(events: seq<Event>, limit: nat, window: nat): World {
    if events == [] then NEW_WORLD
    else Step(Run(events[..|events| - 1], limit, window), events[|events| - 1], limit, window)
  }

  // The admitted cost at times from `from` on and before `to`.
  function Admitted(log: seq<(nat, nat)>, from: int, to: int): (n: nat) {
    if log == [] then 0
    else
      var (t, cost) := log[|log| - 1];
      Admitted(log[..|log| - 1], from, to) + (if from <= t < to then cost else 0)
  }

  lemma AdmittedPlus(log: seq<(nat, nat)>, t: nat, cost: nat, from: int, to: int)
    ensures Admitted(log + [(t, cost)], from, to) == Admitted(log, from, to) + (if from <= t < to then cost else 0)
  {
    assert (log + [(t, cost)])[..|log|] == log;
  }

  lemma {:induction false} AdmittedSplits(log: seq<(nat, nat)>, from: int, mid: int, to: int)
    requires from <= mid <= to
    ensures Admitted(log, from, to) == Admitted(log, from, mid) + Admitted(log, mid, to)
  {
    if log == [] {
    } else {
      AdmittedSplits(log[..|log| - 1], from, mid, to);
    }
  }

  // A wider interval admits no less.
  lemma AdmittedWidens(log: seq<(nat, nat)>, from: int, to: int, from': int, to': int)
    requires from' <= from <= to <= to'
    ensures Admitted(log, from, to) <= Admitted(log, from', to')
  {
    AdmittedSplits(log, from', from, to');
    AdmittedSplits(log, from, to, to');
  }

  // Nothing is admitted after the last charge, nor in an empty interval.
  lemma {:induction false} AdmittedNone(log: seq<(nat, nat)>, from: int, to: int)
    requires to <= from || forall i :: 0 <= i < |log| ==> log[i].0 < from
    ensures Admitted(log, from, to) == 0
  {
    if log == [] {
    } else {
      AdmittedNone(log[..|log| - 1], from, to);
    }
  }

  // -- the invariant --------------------------------------------------------

  // The window in force: the counter is exactly what it has admitted.
  ghost predicate CounterInv(w: World, window: nat) {
    && w.start <= w.now
    && (forall i :: 0 <= i < |w.log| ==> w.log[i].0 <= w.now && w.log[i].0 < w.start + window)
    && (w.log == [] ==> w.counter == None)
    && (w.counter == None && w.log != [] ==> w.start + window <= w.now)
    && (w.counter.Some? ==>
          && w.counter.value.expiresAt == Some(w.start + window) && w.now < w.start + window
          && 0 < w.counter.value.value == Admitted(w.log, w.start, w.now + 1))
    // a window begins with a charge
    && (w.log != [] ==> Admitted(w.log, w.start, w.start + 1) >= 1)
  }

  // What is admitted in the latest window, in an interval that reaches back
  // less than a window before it, and in any interval as long as a window.
  ghost predicate BoundInv(w: World, limit: nat, window: nat) {
    && Admitted(w.log, w.start, w.now + 1) <= limit
    && (forall t: int :: w.start < t + window ==> Admitted(w.log, t, w.start) < limit)
    && (forall t: int, to: int :: to == t + window ==> Admitted(w.log, t, to) < 2 * limit)
  }

  lemma PassKeepsCounter(w: World, ms: nat, limit: nat, window: nat)
    requires CounterInv(w, window)
    ensures CounterInv(Step(w, Pass(ms), limit, window), window)
    ensures Admitted(w.log, w.start, w.now + ms + 1) == Admitted(w.log, w.start, w.now + 1)
  {
    AdmittedSplits(w.log, w.start, w.now + 1, w.now + ms + 1);
    AdmittedNone(w.log, w.now + 1, w.now + ms + 1);
  }

  lemma {:induction false} HitKeepsCounter(w: World, cost: nat, increx: bool, limit: nat, window: nat)
    requires CounterInv(w, window) && window > 0 && cost >= 1
    ensures CounterInv(Step(w, Hit(cost, increx), limit, window), window)
  {
    hide Admitted;
    if Admits(w, cost, limit) {
      var start := if w.counter == None then w.now else w.start;
      if w.counter == None { AdmittedNone(w.log, w.now, w.now + 1); }
      AdmittedPlus(w.log, w.now, cost, start, w.now + 1);
      AdmittedPlus(w.log, w.now, cost, start, start + 1);
    }
  }

  lemma ChargeKeepsBound(w: World, cost: nat, increx: bool, limit: nat, window: nat)
    requires CounterInv(w, window) && BoundInv(w, limit, window) && window > 0 && cost >= 1
    requires Admits(w, cost, limit) && limit > 0
    ensures BoundInv(Step(w, Hit(cost, increx), limit, window), limit, window)
  {
    hide Admitted;
    var v := Step(w, Hit(cost, increx), limit, window);
    if w.counter == None { AdmittedNone(w.log, w.now, w.now + 1); }
    AdmittedPlus(w.log, w.now, cost, v.start, w.now + 1);
    forall t: int | v.start < t + window ensures Admitted(v.log, t, v.start) < limit {
      AdmittedPlus(w.log, w.now, cost, t, v.start);
      if t >= v.start || w.log == [] {
        AdmittedNone(w.log, t, v.start);
      } else if w.counter == None {
        AdmittedWidens(w.log, t, v.start, w.start + 1, w.now + 1);
        AdmittedSplits(w.log, w.start, w.start + 1, w.now + 1);
      }
    }
    forall t: int, to: int | to == t + window ensures Admitted(v.log, t, to) < 2 * limit {
      AdmittedPlus(w.log, w.now, cost, t, to);
      if t <= w.now < to {
        // up to now, and nothing after it
        AdmittedSplits(v.log, t, w.now + 1, to);
        AdmittedNone(v.log, w.now + 1, to);
        if t <= v.start {
          AdmittedSplits(v.log, t, v.start, w.now + 1);
        } else {
          AdmittedWidens(v.log, t, w.now + 1, v.start, w.now + 1);
        }
      }
    }
  }

  lemma {:induction false} RunInv(events: seq<Event>, limit: nat, window: nat)
    requires Costs(events) && window > 0 && limit > 0
    ensures CounterInv(Run(events, limit, window), window) && BoundInv(Run(events, limit, window), limit, window)
  {
    if events == [] {
    } else {
      var before := events[..|events| - 1];
      RunInv(before, limit, window);
      var w := Run(before, limit, window);
      match events[|events| - 1] {
        case Pass(ms) => PassKeepsCounter(w, ms, limit, window);
        case Hit(cost, increx) =>
          HitKeepsCounter(w, cost, increx, limit, window);
          if Admits(w, cost, limit) { ChargeKeepsBound(w, cost, increx, limit, window); }
      }
    }
  }

  // After any run: a counter that exists carries an expiry, is positive, is at
  // most the limit, and equals the cost admitted since its window began.
  lemma CounterIsExact(events: seq<Event>, limit: nat, window: nat)
    requires Costs(events) && window > 0 && limit > 0
    ensures var w := Run(events, limit, window);
            && Sound(w.counter, w.now)
            && (w.counter.Some? ==>
                  && w.counter.value.expiresAt.value - window <= w.now
                  && w.counter.value.value <= limit
                  && w.counter.value.value ==
                     Admitted(w.log, w.counter.value.expiresAt.value - window, w.counter.value.expiresAt.value))
  {
    RunInv(events, limit, window);
    var w := Run(events, limit, window);
    if w.counter.Some? {
      var until := w.start + window;
      AdmittedSplits(w.log, w.start, w.now + 1, until);
      AdmittedNone(w.log, w.now + 1, until);
    }
  }

  // After any run, whatever interval of window length is chosen, the cost
  // admitted in it stays under twice the limit.
  lemma AnyWindowAdmitsUnderTwice(events: seq<Event>, limit: nat, window: nat, t: int)
    requires Costs(events) && window > 0 && limit > 0
    ensures Admitted(Run(events, limit, window).log, t, t + window) < 2 * limit
  {
    RunInv(events, limit, window);
  }

  lemma RunPlus(events: seq<Event>, e: Event, limit: nat, window: nat)
    ensures Run(events + [e], limit, window) == Step(Run(events, limit, window), e, limit, window)
  {
    assert (events + [e])[..|events|] == events;
  }

  lemma NothingRun(limit: nat, window: nat)
    ensures Run([], limit, window) == NEW_WORLD && Admitted([], 1, 1 + window) == 0
  {
  }

  // And no smaller bound holds: the rest of a window's limit just before it
  // ends, and a full limit as the next begins.
  lemma TwiceLessOneIsReached(limit: nat, window: nat, a: bool, b: bool, c: bool)
    requires limit >= 2 && window >= 2
    ensures var events := [Hit(1, a)] + [Pass(window - 1)] + [Hit(limit - 1, b)] + [Pass(1)] + [Hit(limit, c)];
            Admitted(Run(events, limit, window).log, 1, 1 + window) == 2 * limit - 1
  {
    hide Run, Admitted;
    NothingRun(limit, window);
    RunPlus([], Hit(1, a), limit, window);
    assert [] + [Hit(1, a)] == [Hit(1, a)];
    RunPlus([Hit(1, a)], Pass(window - 1), limit, window);
    RunPlus([Hit(1, a)] + [Pass(window - 1)], Hit(limit - 1, b), limit, window);
    RunPlus([Hit(1, a)] + [Pass(window - 1)] + [Hit(limit - 1, b)], Pass(1), limit, window);
    RunPlus([Hit(1, a)] + [Pass(window - 1)] + [Hit(limit - 1, b)] + [Pass(1)], Hit(limit, c), limit, window);
    AdmittedPlus([], 0, 1, 1, 1 + window);
    AdmittedPlus([] + [(0, 1)], window - 1, limit - 1, 1, 1 + window);
    AdmittedPlus([] + [(0, 1)] + [(window - 1, limit - 1)], window, limit, 1, 1 + window);
  }
}
