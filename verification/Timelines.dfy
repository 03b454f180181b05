// A load and the past, with any number of operations interleaved command by
// command: what the two clocks in Redis decide, a look at the events would.
module Timelines {
  import opened Prelude
  import opened Payloads
  import opened SessionServer
  import opened Lifecycle

  predicate Writes(e: Event, id: Id) { e.Do? && e.cmd.HSetEx? && e.cmd.id == id }

  predicate Refreshes(e: Event, id: Id) { e.Do? && (e.cmd.HSetEx? || e.cmd.HGetEx? || e.cmd.HExpire?) && e.cmd.id == id }

  // The idle clock restarted by event i was restarted again in time, or still
  // runs in state j.
  ghost predicate InTime(k: Clocks, ss: seq<Sys>, es: seq<Event>, id: Id, i: nat, j: nat)
    requires |ss| == |es| + 1 && i < j < |ss|
  {
    || ss[j].srv.now < ss[i].srv.now + k.idle
    || exists n :: i < n < j && Refreshes(es[n], id) && ss[n].srv.now < ss[i].srv.now + k.idle
  }

  // Written at w, given its deadline at c, not deleted since the write, younger
  // than the absolute limit, and with every gap between refreshes shorter than
  // the idle limit.
  ghost predicate AliveSince(k: Clocks, ss: seq<Sys>, es: seq<Event>, id: Id, w: nat, c: nat, j: nat)
    requires |ss| == |es| + 1 && w < c < j < |ss|
  {
    && Writes(es[w], id) && es[c] == Do(Expire(id, k.absolute))
    && (forall d :: w < d < j ==> es[d] != Do(Del(id)))
    && ss[j].srv.now < ss[c].srv.now + k.absolute
    && forall i :: w <= i < j && Refreshes(es[i], id) ==> InTime(k, ss, es, id, i, j)
  }

  ghost predicate Alive(k: Clocks, ss: seq<Sys>, es: seq<Event>, id: Id, j: nat)
    requires |ss| == |es| + 1 && j < |ss|
  {
    exists w, c :: 0 <= w < c < j && AliveSince(k, ss, es, id, w, c, j)
  }

  // -- one event -------------------------------------------------------------

  // What an event does to the key of one id.
  ghost predicate Steps(k: Clocks, s: Sys, e: Event, t: Sys, id: Id) {
    && s.srv.now <= t.srv.now
    && (Writes(e, id) ==> id in t.srv.keys && t.srv.keys[id].data == e.cmd.data)
    && (id in t.srv.keys && !Writes(e, id) ==> id in s.srv.keys && t.srv.keys[id].data == s.srv.keys[id].data)
    && (e == Do(Del(id)) ==> id !in t.srv.keys)
    && (id in t.srv.keys ==>
          && t.srv.now < t.srv.keys[id].idleAt
          && t.srv.keys[id].idleAt == if Refreshes(e, id) then s.srv.now + k.idle else s.srv.keys[id].idleAt)
  }

  lemma KeySteps(k: Clocks, s: Sys, e: Event, id: Id)
    requires k.Valid() && Inv(k, s) && Enabled(k, s, e)
    ensures Steps(k, s, e, Lifecycle.Next(s, e), id)
  {
    StepInv(k, s, e);
    var t := Lifecycle.Next(s, e);
    assert id in t.srv.keys ==> KeyInv(k, t, id);
  }

  // A key goes through any event but its deletion and a fatal wait.
  lemma KeyGoesOn(k: Clocks, s: Sys, e: Event, id: Id)
    requires Enabled(k, s, e) && id in s.srv.keys && e != Do(Del(id))
    requires !Expired(s.srv.keys[id], Lifecycle.Next(s, e).srv.now)
    ensures var t := Lifecycle.Next(s, e);
            && id in t.srv.keys
            && t.srv.keys[id].idleAt == (if Refreshes(e, id) then s.srv.now + k.idle else s.srv.keys[id].idleAt)
            && t.srv.keys[id].deadline == if e.Do? && e.cmd.Expire? && e.cmd.id == id then Some(s.srv.now + k.absolute)
                                          else s.srv.keys[id].deadline
  {
  }

  lemma TraceSteps(k: Clocks, ss: seq<Sys>, es: seq<Event>, i: nat, id: Id)
    requires Trace(k, ss, es) && i < |es|
    ensures Inv(k, ss[i]) && Enabled(k, ss[i], es[i]) && ss[i + 1] == Lifecycle.Next(ss[i], es[i])
    ensures Steps(k, ss[i], es[i], ss[i + 1], id)
  {
    hide Inv, Enabled, Lifecycle.Next, Steps;
    TraceInv(k, ss, es, i);
    KeySteps(k, ss[i], es[i], id);
  }

  lemma {:induction false} NowGrows(k: Clocks, ss: seq<Sys>, es: seq<Event>, i: nat, j: nat)
    requires Trace(k, ss, es) && i <= j < |ss|
    ensures ss[i].srv.now <= ss[j].srv.now
    decreases j - i
  {
    if i == j {
    } else {
      NowGrows(k, ss, es, i, j - 1);
      TraceSteps(k, ss, es, j - 1, "");
    }
  }

  // -- what is found was kept alive ------------------------------------------

  lemma NothingAtFirst(k: Clocks, ss: seq<Sys>, es: seq<Event>, id: Id)
    requires Trace(k, ss, es)
    ensures |ss| == |es| + 1 && id !in ss[0].srv.keys
  {
  }

  // The last write of a key that is there.
  lemma {:induction false} WrittenBefore(k: Clocks, ss: seq<Sys>, es: seq<Event>, id: Id, m: nat) returns (w: nat)
    requires Trace(k, ss, es) && m < |ss| && id in ss[m].srv.keys
    ensures w < m && Writes(es[w], id) && ss[m].srv.keys[id].data == es[w].cmd.data
    ensures forall n :: w < n < m ==> !Writes(es[n], id)
    ensures forall n :: w < n <= m ==> id in ss[n].srv.keys
  {
    hide Trace, Inv, Enabled, Lifecycle.Next;
    NothingAtFirst(k, ss, es, id);
    TraceSteps(k, ss, es, m - 1, id);
    if Writes(es[m - 1], id) {
      w := m - 1;
    } else {
      w := WrittenBefore(k, ss, es, id, m - 1);
    }
  }

  lemma {:induction false} IdleClockIs(k: Clocks, ss: seq<Sys>, es: seq<Event>, id: Id, i: nat, n: nat)
    requires Trace(k, ss, es) && i < n < |ss| && Refreshes(es[i], id)
    requires forall m :: i < m <= n ==> id in ss[m].srv.keys
    requires forall m :: i < m < n ==> !Refreshes(es[m], id)
    ensures ss[n].srv.keys[id].idleAt == ss[i].srv.now + k.idle && ss[n].srv.now < ss[n].srv.keys[id].idleAt
    decreases n
  {
    TraceSteps(k, ss, es, n - 1, id);
    if n > i + 1 { IdleClockIs(k, ss, es, id, i, n - 1); }
  }

  // While the key is there, every restart of its idle clock was in time.
  lemma {:induction false} RefreshedInTime(k: Clocks, ss: seq<Sys>, es: seq<Event>, id: Id, i: nat, j: nat)
    requires Trace(k, ss, es) && i < j < |ss| && Refreshes(es[i], id)
    requires forall m :: i < m <= j ==> id in ss[m].srv.keys
    ensures InTime(k, ss, es, id, i, j)
    decreases j
  {
    hide Inv, Enabled, Lifecycle.Next, Refreshes;
    if n :| i < n < j && Refreshes(es[n], id) {
      RefreshedInTime(k, ss, es, id, i, n);
    } else {
      IdleClockIs(k, ss, es, id, i, j);
    }
  }

  lemma {:induction false} LoadableWasKept(k: Clocks, ss: seq<Sys>, es: seq<Event>, id: Id, j: nat)
    requires Trace(k, ss, es) && j < |ss| && Loadable(ss[j].srv, id)
    ensures Alive(k, ss, es, id, j)
  {
    TraceInv(k, ss, es, j);
    LoadableIsBounded(k, ss[j], id);
    assert KeyInv(k, ss[j], id);
    var c := LoadableIsBorn(k, ss, es, j, id);
    StandsSince(k, ss, es, id, c, j);
    hide Trace, Inv, KeyInv, Loadable, InTime;
    var w := WrittenBefore(k, ss, es, id, c);
    forall d | w < d < j ensures es[d] != Do(Del(id)) { TraceSteps(k, ss, es, d, id); }
    forall i | w <= i < j && Refreshes(es[i], id) ensures InTime(k, ss, es, id, i, j) { RefreshedInTime(k, ss, es, id, i, j); }
    assert AliveSince(k, ss, es, id, w, c, j);
  }

  // A session that is loadable was there ever since its deadline was set.
  lemma StandsSince(k: Clocks, ss: seq<Sys>, es: seq<Event>, id: Id, c: nat, j: nat)
    requires Trace(k, ss, es) && c < j < |ss| && es[c] == Do(Expire(id, k.absolute)) && Loadable(ss[j].srv, id)
    ensures forall m :: c <= m <= j ==> id in ss[m].srv.keys
  {
    forall m | c < m <= j ensures id in ss[m].srv.keys {
      assert ss[c + 1] == Lifecycle.Next(ss[c], es[c]);
      OpenGrows(k, ss, es, c + 1, m, id);
      if !Loadable(ss[m].srv, id) { DeathIsPermanent(k, ss, es, m, j, id); }
    }
    TraceSteps(k, ss, es, c, id);
  }

  // -- what was kept alive is found ------------------------------------------

  // Before its deadline is set a key has none, and afterwards none is set.
  lemma DeadlineOnce(k: Clocks, ss: seq<Sys>, es: seq<Event>, id: Id, c: nat, m: nat)
    requires Trace(k, ss, es) && c < |es| && m < |es| && es[c] == Do(Expire(id, k.absolute))
    ensures m <= c && id in ss[m].srv.keys ==> ss[m].srv.keys[id].deadline == None
    ensures m > c ==> !(es[m].Do? && es[m].cmd.Expire? && es[m].cmd.id == id)
  {
    TraceInv(k, ss, es, c);
    TraceInv(k, ss, es, m);
    assert Enabled(k, ss[c], es[c]) && Enabled(k, ss[m], es[m]);
    if m <= c {
      if id in ss[m].born { OpenGrows(k, ss, es, m, c, id); }
      assert id in ss[m].srv.keys ==> KeyInv(k, ss[m], id);
    } else {
      assert ss[c + 1] == Lifecycle.Next(ss[c], es[c]);
      OpenGrows(k, ss, es, c + 1, m, id);
    }
  }

  // The key is there in every state since the write, with its last restart.
  lemma {:induction false} KeptStands(k: Clocks, ss: seq<Sys>, es: seq<Event>, id: Id, w: nat, c: nat, j: nat, m: nat) returns (r: nat)
    requires Trace(k, ss, es) && w < c < j < |ss| && AliveSince(k, ss, es, id, w, c, j) && w < m <= j
    ensures id in ss[m].srv.keys && (m > c ==> ss[m].srv.keys[id].deadline == Some(ss[c].srv.now + k.absolute))
    ensures w <= r < m && Refreshes(es[r], id) && ss[m].srv.keys[id].idleAt == ss[r].srv.now + k.idle
    ensures forall n :: r < n < m ==> !Refreshes(es[n], id)
    decreases m
  {
    hide Inv, Enabled, Lifecycle.Next, InTime, Expired;
    TraceSteps(k, ss, es, m - 1, id);
    if m == w + 1 {
      r := w;
    } else {
      r := KeptStands(k, ss, es, id, w, c, j, m - 1);
      NotYetDue(k, ss, es, id, w, c, j, m - 1, r);
      KeyGoesOn(k, ss[m - 1], es[m - 1], id);
      DeadlineOnce(k, ss, es, id, c, m - 1);
      if Refreshes(es[m - 1], id) { r := m - 1; }
    }
  }

  // A restart that was in time is in force until the next one.
  lemma StillRuns(k: Clocks, ss: seq<Sys>, es: seq<Event>, id: Id, r: nat, m: nat, j: nat)
    requires Trace(k, ss, es) && r < m < j < |ss| && InTime(k, ss, es, id, r, j)
    requires forall n :: r < n < m ==> !Refreshes(es[n], id)
    ensures ss[m + 1].srv.now < ss[r].srv.now + k.idle
  {
    hide Inv, Enabled, Lifecycle.Next;
    assert ss[m + 1] == Lifecycle.Next(ss[m], es[m]);
    NowGoesOn(ss[m], es[m]);
    NowGrows(k, ss, es, m + 1, j);
    if ss[j].srv.now >= ss[r].srv.now + k.idle {
      var n :| r < n < j && Refreshes(es[n], id) && ss[n].srv.now < ss[r].srv.now + k.idle;
      if n > m { NowGrows(k, ss, es, m + 1, n); }
    }
  }

  lemma NotYetDue(k: Clocks, ss: seq<Sys>, es: seq<Event>, id: Id, w: nat, c: nat, j: nat, m: nat, r: nat)
    requires Trace(k, ss, es) && w < c < j < |ss| && AliveSince(k, ss, es, id, w, c, j) && w <= r < m < j
    requires id in ss[m].srv.keys && (m > c ==> ss[m].srv.keys[id].deadline == Some(ss[c].srv.now + k.absolute))
    requires Refreshes(es[r], id) && ss[m].srv.keys[id].idleAt == ss[r].srv.now + k.idle
    requires forall n :: r < n < m ==> !Refreshes(es[n], id)
    ensures !Expired(ss[m].srv.keys[id], ss[m + 1].srv.now)
  {
    hide Inv, Enabled, Lifecycle.Next, Refreshes, Writes, InTime;
    DeadlineOnce(k, ss, es, id, c, m);
    NowGrows(k, ss, es, m + 1, j);
    assert InTime(k, ss, es, id, r, j);
    StillRuns(k, ss, es, id, r, m, j);
  }

  // -- the theorem -----------------------------------------------------------

  // In every state of every trace a load finds a session exactly when the past
  // says so, and what it finds is the last record written.
  lemma LoadableIsAlive(k: Clocks, ss: seq<Sys>, es: seq<Event>, id: Id, j: nat)
    requires Trace(k, ss, es) && j < |ss|
    ensures Loadable(ss[j].srv, id) <==> Alive(k, ss, es, id, j)
    ensures Loadable(ss[j].srv, id) ==>
              exists w :: 0 <= w < j && Writes(es[w], id) && (forall n :: w < n < j ==> !Writes(es[n], id))
                          && ReadData(ss[j].srv, id) == Some(es[w].cmd.data)
  {
    if Loadable(ss[j].srv, id) {
      LoadableWasKept(k, ss, es, id, j);
      var w := WrittenBefore(k, ss, es, id, j);
    }
    if w, c :| 0 <= w < c < j && AliveSince(k, ss, es, id, w, c, j) {
      var r := KeptStands(k, ss, es, id, w, c, j, j);
    }
  }
}
