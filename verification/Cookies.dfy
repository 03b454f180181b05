// What a request knows of its session's absolute clock: the cookie it sends
// lasts as long as the session, and the age it reports is the session's own.
module Cookies {
  import opened Prelude
  import opened Payloads
  import opened SessionServer
  import opened Lifecycle
  import opened SessionOps
  import opened SessionStores
  import opened Middleware
  import opened Requests
  import Embedding

  // `remaining` was what was left at some moment since the request arrived.
  predicate Measured(k: Clocks, w: World, rid: Rid, id: Id, remaining: nat) {
    && id in w.sys.born && rid in w.began && remaining <= k.absolute
    && w.began[rid] + remaining <= w.sys.born[id] + k.absolute <= w.sys.srv.now + remaining
  }

  predicate RequestOk(k: Clocks, w: World, rid: Rid, r: Request) {
    r.st.id.Some? ==> r.st.remaining.Some? && Measured(k, w, rid, r.st.id.value, r.st.remaining.value)
  }

  // The deadline is about to be set.
  predicate Setting(k: Clocks, cmds: seq<Cmd>, id: Id) { Cmd.Expire(id, k.absolute) in cmds }

  predicate ThenOk(k: Clocks, w: World, rid: Rid, cmds: seq<Cmd>, r: Request) {
    r.st.id.Some? ==>
      r.st.remaining.Some? &&
      (Measured(k, w, rid, r.st.id.value, r.st.remaining.value) ||
       (Setting(k, cmds, r.st.id.value) && r.st.remaining.value == k.absolute))
  }

  predicate PhaseOk(c: Config, w: World, rid: Rid, p: Phase) {
    match p
    case Running(r) => RequestOk(c.clocks, w, rid, r)
    case Busy(r, cmds, after, reply) =>
      && (reply == None ==> RequestOk(c.clocks, w, rid, r))
      && ThenOk(c.clocks, w, rid, cmds, after)
      && (reply.Some? && reply.value.Names? ==>
            after.st.id == Some(reply.value.id) && (c.cookieOnly || reply.value.maxAge == after.st.remaining))
    case _ => true
  }

  predicate CookieOk(c: Config, w: World, id: Id)
    requires id in w.cookieUntil
  {
    w.cookieUntil[id].Some? && id in w.sys.born && w.sys.born[id] + c.clocks.absolute <= w.cookieUntil[id].value
  }

  ghost predicate ClockInv(c: Config, w: World) {
    && (forall rid :: rid in w.reqs ==> rid in w.began && w.began[rid] <= w.sys.srv.now && PhaseOk(c, w, rid, w.reqs[rid]))
    && (!c.cookieOnly ==> forall id :: id in w.cookieUntil ==> CookieOk(c, w, id))
  }

  ghost predicate Ready(c: Config, w: World, a: Act) {
    c.clocks.Valid() && Embedding.WorldInv(c, w) && ClockInv(c, w) && Possible(c, w, a)
  }

  // -- one action ------------------------------------------------------------

  ghost predicate Onward(w: World, v: World, rid: Rid) {
    && w.sys.srv.now <= v.sys.srv.now
    && (forall id :: id in w.sys.born ==> id in v.sys.born && v.sys.born[id] == w.sys.born[id])
    && (rid in w.began ==> rid in v.began && v.began[rid] == w.began[rid])
  }

  lemma EventGoesOn(k: Clocks, s: Sys, e: Event)
    requires Inv(k, s) && Enabled(k, s, e)
    ensures var t := Lifecycle.Next(s, e);
            && s.srv.now <= t.srv.now
            && forall id :: id in s.born ==> id in t.born && t.born[id] == s.born[id]
  {
  }

  lemma SysGoesOn(c: Config, w: World, a: Act)
    requires Ready(c, w, a)
    ensures var s, t := w.sys, SysAfter(c, w, a);
            && s.srv.now <= t.srv.now
            && forall id :: id in s.born ==> id in t.born && t.born[id] == s.born[id]
  {
    hide ClockInv, Embedding.PhaseOk, Inv, EventOf, Enabled, Lifecycle.Next, JobsAfter, Embedding.JobOk;
    Embedding.ActIsEnabled(c, w, a);
    if EventOf(c, w, a).Some? { EventGoesOn(c.clocks, w.sys, EventOf(c, w, a).value); }
  }

  lemma GoesOn(c: Config, w: World, a: Act, rid: Rid)
    requires Ready(c, w, a) && (rid in w.reqs || !a.Arrive?)
    ensures Onward(w, Advance(c, w, a), rid)
  {
    hide ClockInv, Embedding.WorldInv, SysAfter, PinnedAfter, CookieUntilAfter, ReqsAfter, JobsAfter;
    SysGoesOn(c, w, a);
  }

  lemma PhaseFrame(c: Config, w: World, v: World, rid: Rid, p: Phase)
    requires PhaseOk(c, w, rid, p) && Onward(w, v, rid)
    ensures PhaseOk(c, v, rid, p)
  {
  }

  lemma SendOk(c: Config, w: World, rid: Rid)
    requires Ready(c, w, Send(rid))
    ensures var v := Advance(c, w, Send(rid)); PhaseOk(c, v, rid, v.reqs[rid])
  {
    hide Embedding.WorldInv, Exec, JobsAfter;
    GoesOn(c, w, Send(rid), rid);
    var cmds := w.reqs[rid].cmds;
    assert PhaseOk(c, w, rid, w.reqs[rid]);
    assert cmds == [cmds[0]] + cmds[1..];
  }

  lemma WriteThenOk(c: Config, v: World, a: Act, r: Request)
    requires a.Respond? && RequestOk(c.clocks, v, a.rid, r)
    ensures ThenOk(c.clocks, v, a.rid, WriteCmds(c, r, a.newId, a.stamp, a.extra), r.(st := Written(c, r, a.newId, a.stamp)))
  {
    hide WriteCmds, RotateCmds, Setting, Measured;
    Sets(c, r, a);
  }

  lemma RotateThenOk(c: Config, v: World, a: Act, r: Request)
    requires a.Respond?
    ensures var subject, record := NonEmpty(c.subjectOf(r.session.data)), Record(r.session.data, a.stamp, a.stamp);
            ThenOk(c.clocks, v, a.rid, RotateCmds(c.clocks, r.st, subject, a.newId, record, a.extra),
                   r.(st := Rotated(c.clocks, subject, a.newId, record)))
  {
    hide WriteCmds, RotateCmds, Setting, Measured;
    Sets(c, r, a);
  }

  lemma KeptThenOk(c: Config, v: World, rid: Rid, cmds: seq<Cmd>, r: Request)
    requires RequestOk(c.clocks, v, rid, r)
    ensures ThenOk(c.clocks, v, rid, cmds, r) && ThenOk(c.clocks, v, rid, cmds, r.(st := Revoked(r.st)))
  {
    hide Setting, Measured;
  }

  lemma PlanOk(c: Config, v: World, a: Act, r: Request)
    requires a.Respond? && RequestOk(c.clocks, v, a.rid, r)
    ensures PhaseOk(c, v, a.rid, RespondOp(c, r, a.status, a.newId, a.stamp, a.extra))
  {
    hide WriteCmds, RotateCmds, ThenOk, RequestOk;
    WriteThenOk(c, v, a, r);
    RotateThenOk(c, v, a, r);
    KeptThenOk(c, v, a.rid, PlanFor(c, r, a.status, a.newId, a.stamp, a.extra).cmds, r);
  }

  lemma RespondOk(c: Config, w: World, a: Act)
    requires Ready(c, w, a) && a.Respond?
    ensures var v := Advance(c, w, a); PhaseOk(c, v, a.rid, v.reqs[a.rid])
  {
    hide Embedding.WorldInv, SysAfter, PinnedAfter, CookieUntilAfter, RespondOp, JobsAfter;
    var v := Advance(c, w, a);
    var r := w.reqs[a.rid].r;
    assert PhaseOk(c, w, a.rid, w.reqs[a.rid]);
    SysGoesOn(c, w, a);
    PlanOk(c, v, a, r);
  }

  // A creation among the commands sets the full clock.
  lemma Sets(c: Config, r: Request, a: Act)
    requires a.Respond?
    ensures r.st.id == None ==> Setting(c.clocks, WriteCmds(c, r, a.newId, a.stamp, a.extra), a.newId)
    ensures Setting(c.clocks, RotateCmds(c.clocks, r.st, NonEmpty(c.subjectOf(r.session.data)), a.newId,
                                         Record(r.session.data, a.stamp, a.stamp), a.extra), a.newId)
  {
    RotateSets(c.clocks, r.st, NonEmpty(c.subjectOf(r.session.data)), a.newId, Record(r.session.data, a.stamp, a.stamp), a.extra);
    if r.st.id == None {
      assert WriteCmds(c, r, a.newId, a.stamp, a.extra)[1] == Cmd.Expire(a.newId, c.clocks.absolute);
    }
  }

  lemma RotateSets(k: Clocks, st: State, subject: Option<Subject>, newId: Id, rec: Record, extra: Dict)
    ensures Setting(k, RotateCmds(k, st, subject, newId, rec, extra), newId)
  {
    var front := if st.id.Some? then [Del(st.id.value)] + DropCmds(st.subject, st.id.value) else [];
    assert RotateCmds(k, st, subject, newId, rec, extra)[|front| + 1] == Cmd.Expire(newId, k.absolute);
  }

  lemma CallRotateOk(c: Config, w: World, a: Act)
    requires Ready(c, w, a) && a.CallRotate?
    ensures var v := Advance(c, w, a); PhaseOk(c, v, a.rid, v.reqs[a.rid])
  {
    hide Embedding.WorldInv, RotateCmds, JobsAfter;
    var r := w.reqs[a.rid].r;
    assert PhaseOk(c, w, a.rid, w.reqs[a.rid]);
    RotateSets(c.clocks, r.st, if a.target.Some? then a.target.value else r.st.subject, a.newId,
               Record(r.session.data, a.stamp, a.stamp), a.extra);
  }

  // What a load reports is left of the session's clock, is.
  lemma FoundMeasured(c: Config, w: World, rid: Rid)
    requires Inv(c.clocks, w.sys) && ClockInv(c, w) && rid in w.reqs && w.reqs[rid].Reading?
    ensures var found := Judge(w.reqs[rid].data, ReadTtl(w.sys.srv, w.reqs[rid].cookie));
            found.Live? ==> Measured(c.clocks, w, rid, w.reqs[rid].cookie, found.remaining)
  {
    hide IndexInv, PhaseOk, CookieOk;
    var p := w.reqs[rid];
    assert p.cookie in w.sys.srv.keys ==> KeyInv(c.clocks, w.sys, p.cookie);
  }

  lemma TurnOk(c: Config, w: World, v: World, a: Act)
    requires Possible(c, w, a) && !Outside(a) && !a.Send? && !a.Respond? && !a.CallRotate?
    requires !a.Arrive? ==> PhaseOk(c, v, a.rid, w.reqs[a.rid])
    requires a.AskTtl? ==>
               var found := Judge(w.reqs[a.rid].data, ReadTtl(w.sys.srv, w.reqs[a.rid].cookie));
               found.Live? ==> Measured(c.clocks, v, a.rid, w.reqs[a.rid].cookie, found.remaining)
    ensures PhaseOk(c, v, a.rid, PhaseAfter(c, w, a))
  {
    hide Measured, Lists, Presentable, Judge, ReadTtl;
  }

  lemma OtherOwnPhase(c: Config, w: World, a: Act)
    requires Ready(c, w, a) && !Outside(a) && !a.Send? && !a.Respond? && !a.CallRotate?
    ensures var v := Advance(c, w, a); PhaseOk(c, v, a.rid, v.reqs[a.rid])
  {
    hide Inv, Embedding.PhaseOk, Embedding.JobOk, PhaseOk, PhaseAfter, Onward, Judge, ReadTtl, OwnerAfter, PinnedAfter,
         CookieUntilAfter, JobsAfter;
    var v := Advance(c, w, a);
    if !a.Arrive? {
      GoesOn(c, w, a, a.rid);
      PhaseFrame(c, w, v, a.rid, w.reqs[a.rid]);
    }
    if a.AskTtl? { FoundMeasured(c, w, a.rid); }
    TurnOk(c, w, v, a);
  }

  lemma CookieStep(c: Config, w: World, a: Act, id: Id)
    requires Ready(c, w, a) && !c.cookieOnly && id in CookieUntilAfter(w, a)
    ensures CookieOk(c, Advance(c, w, a), id)
  {
    hide Embedding.WorldInv, SysAfter, ReqsAfter, JobsAfter;
    SysGoesOn(c, w, a);
    if Issues(w, a) { assert PhaseOk(c, w, a.rid, w.reqs[a.rid]); }
  }

  lemma {:induction false} ActKeepsClocks(c: Config, w: World, a: Act)
    requires Ready(c, w, a)
    ensures ClockInv(c, Advance(c, w, a))
  {
    hide SysAfter, PinnedAfter, PhaseOk, CookieOk, CookieUntilAfter, Embedding.WorldInv, PhaseAfter, JobsAfter;
    var v := Advance(c, w, a);
    forall rid | rid in v.reqs ensures rid in v.began && v.began[rid] <= v.sys.srv.now && PhaseOk(c, v, rid, v.reqs[rid]) {
      if Outside(a) || rid != a.rid {
        GoesOn(c, w, a, rid);
        PhaseFrame(c, w, v, rid, w.reqs[rid]);
      } else {
        OwnPhase(c, w, a);
      }
    }
    forall id | !c.cookieOnly && id in v.cookieUntil ensures CookieOk(c, v, id) { CookieStep(c, w, a, id); }
  }

  lemma {:induction false} OwnPhase(c: Config, w: World, a: Act)
    requires Ready(c, w, a) && !Outside(a)
    ensures var v := Advance(c, w, a);
            PhaseOk(c, v, a.rid, v.reqs[a.rid]) && a.rid in v.began && v.began[a.rid] <= v.sys.srv.now
  {
    hide PhaseOk, Embedding.WorldInv, SysAfter, PhaseAfter, PinnedAfter, CookieUntilAfter, JobsAfter;
    if a.Send? { SendOk(c, w, a.rid); }
    else if a.Respond? { RespondOk(c, w, a); }
    else if a.CallRotate? { CallRotateOk(c, w, a); }
    else { OtherOwnPhase(c, w, a); }
    SysGoesOn(c, w, a);
  }

  lemma {:induction false} RunClocks(c: Config, ws: seq<World>, acts: seq<Act>, i: nat)
    requires Embedding.Run(c, ws, acts) && i < |ws|
    ensures Embedding.WorldInv(c, ws[i]) && ClockInv(c, ws[i])
  {
    Embedding.RunInv(c, ws, acts, i);
    if i > 0 {
      RunClocks(c, ws, acts, i - 1);
      hide Embedding.WorldInv, ClockInv, Advance, Possible;
      ActKeepsClocks(c, ws[i - 1], acts[i - 1]);
    }
  }

  // -- the two claims --------------------------------------------------------

  // Outside cookie-only mode the latest cookie naming an id expires no earlier
  // than that id's key, at every point of every run, however many requests
  // sent no cookie since.
  lemma CookieOutlivesSession(c: Config, ws: seq<World>, acts: seq<Act>, j: nat, id: Id)
    requires Embedding.Run(c, ws, acts) && j < |ws| && !c.cookieOnly && id in ws[j].cookieUntil && Loadable(ws[j].sys.srv, id)
    ensures ws[j].cookieUntil[id].Some? && ws[j].sys.srv.keys[id].deadline.value <= ws[j].cookieUntil[id].value
  {
    RunClocks(c, ws, acts, j);
    assert CookieOk(c, ws[j], id) && KeyInv(c.clocks, ws[j].sys, id);
  }

  // Whatever saves, touches and rotations came before, the age a request
  // reports is that of its id at a moment since the request arrived, and the
  // gate admits it if and only if, at that moment, the id was no older than
  // the limit.
  lemma GateSeesTrueAge(c: Config, ws: seq<World>, acts: seq<Act>, j: nat, rid: Rid, limit: nat) returns (moment: nat)
    requires Embedding.Run(c, ws, acts) && j < |ws| && IsRunning(ws[j], rid)
    ensures var w, r := ws[j], ws[j].reqs[rid].r;
            && rid in w.began
            && (r.st.id.Some? ==>
                  && r.st.id.value in w.sys.born && w.sys.born[r.st.id.value] <= moment
                  && w.began[rid] <= moment <= w.sys.srv.now
                  && IssuedAgo(c.clocks.absolute, r.st) == Some(moment - w.sys.born[r.st.id.value]))
            && (Gate(r, Some(limit), c.clocks.absolute) == Admitted <==>
                  && r.load.Loaded? && r.st.id.Some? && !r.st.revoked && !(r.session.modified && r.session.data.Empty())
                  && moment <= w.sys.born[r.st.id.value] + limit)
  {
    RunClocks(c, ws, acts, j);
    var r := ws[j].reqs[rid].r;
    assert PhaseOk(c, ws[j], rid, ws[j].reqs[rid]);
    moment := if r.st.id.Some? then ws[j].sys.born[r.st.id.value] + c.clocks.absolute - r.st.remaining.value else 0;
  }
}
