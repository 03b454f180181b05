// One action at a time: what every action of an ordinary run keeps of the
// reverse index.
module IndexSteps {
  import opened Prelude
  import opened Payloads
  import opened SessionServer
  import opened Lifecycle
  import opened SessionOps
  import opened SessionStores
  import opened Middleware
  import opened Requests
  import Embedding
  import Principals

  // The configuration, with the subject as a function of the principal.
  datatype Listed = Listed(c: Config, subjectFor: Principal -> Option<Subject>) {
    ghost predicate Valid() { c.clocks.Valid() && forall d :: c.subjectOf(d) == subjectFor(c.principalOf(d)) }
  }

  // What the claim is about: nothing fails part-way, no handler rotates, and
  // no sign-in adds to a subject's index between revoke_all's reading it and
  // clearing it.
  predicate Ordinary(w: World, a: Act) {
    && !a.CallRotate? && !a.Fail?
    && (a.Proceed? && a.job in w.jobs && w.jobs[a.job].RevokingAll? && w.jobs[a.job].cmds != [] && w.jobs[a.job].cmds[0].IndexClear? ==>
          forall id :: id in w.sys.srv.Members(w.jobs[a.job].subject) ==> id in w.jobs[a.job].ids)
  }

  // -- the principal an id is for --------------------------------------------

  // Fixed by its cookie, or by the response about to send one.
  function Fate(c: Config, w: World, id: Id): Option<Principal> {
    if id in w.pinned then Some(w.pinned[id])
    else if id in w.owner && w.owner[id] in w.reqs && Naming(w.reqs[w.owner[id]], id) then
      Some(c.principalOf(w.reqs[w.owner[id]].after.session.data))
    else None
  }

  predicate Naming(p: Phase, id: Id) { p.Busy? && p.reply.Some? && p.reply.value.Names? && p.reply.value.id == id }

  // Whose list it belongs to, if any.
  function Subjected(l: Listed, w: World, id: Id): Option<Subject> {
    var fate := Fate(l.c, w, id);
    if fate.Some? then NonEmpty(l.subjectFor(fate.value)) else None
  }

  // A response with a cookie to send keeps it until it is sent.
  lemma NamingStays(c: Config, w: World, a: Act, o: Rid, id: Id)
    requires Possible(c, w, a) && Ordinary(w, a) && o in w.reqs && Naming(w.reqs[o], id)
    ensures || (Issues(w, a) && a.rid == o)
            || (o in ReqsAfter(c, w, a) && Naming(ReqsAfter(c, w, a)[o], id) && ReqsAfter(c, w, a)[o].after == w.reqs[o].after)
  {
    hide Lists, Fresh, Presentable, RespondOp, RotateOp, RevokeOp, Judged;
  }

  lemma FateStays(c: Config, w: World, a: Act, id: Id)
    requires Principals.Sound(c, w) && Possible(c, w, a) && Ordinary(w, a) && Fate(c, w, id).Some?
    ensures Fate(c, Advance(c, w, a), id) == Fate(c, w, id)
  {
    hide Possible, SysAfter, OwnerAfter, CookieUntilAfter, BeganAfter, ReqsAfter, JobsAfter, Principals.Sound,
         Principals.PhaseOk, Ordinary;
    OwnersStay(c, w, a);
    if Issues(w, a) { Principals.IssuesItsOwn(c, w, a); }
    if id !in w.pinned { NamingStays(c, w, a, w.owner[id], id); }
  }

  // -- the invariant ---------------------------------------------------------

  // `ttl` counted from now reaches the session's deadline; counted from the
  // arrival of the request, it does not pass it.
  predicate TimesOk(l: Listed, w: World, rid: Rid, id: Id, ttl: nat) {
    && id in w.sys.born && rid in w.began
    && w.sys.born[id] + l.c.clocks.absolute <= w.sys.srv.now + ttl
    && w.began[rid] + ttl <= w.sys.born[id] + l.c.clocks.absolute
  }

  predicate RequestOk(l: Listed, w: World, rid: Rid, r: Request) {
    r.st.id.Some? ==>
      r.st.id == r.loadedId && r.st.remaining.Some? && r.st.remaining.value > 0
      && TimesOk(l, w, rid, r.st.id.value, r.st.remaining.value)
  }

  predicate CmdOk(l: Listed, w: World, rid: Rid, cmds: seq<Cmd>, i: nat)
    requires i < |cmds|
  {
    match cmds[i]
    case HSetEx(id, data, _) => Fate(l.c, w, id) == Some(l.c.principalOf(data.data))
    case Expire(id, _) =>
      && id in w.owner && w.owner[id] == rid && Fate(l.c, w, id).Some?
      && (Subjected(l, w, id).Some? ==> i + 1 < |cmds| && cmds[i + 1].IndexSet? && cmds[i + 1].id == id)
    case IndexSet(subject, id, _, ttl) =>
      && Subjected(l, w, id) == Some(subject)
      && (TimesOk(l, w, rid, id, ttl) ||
          (i > 0 && cmds[i - 1] == Expire(id, l.c.clocks.absolute) && ttl == l.c.clocks.absolute))
    case IndexDel(_, id) => (i == 0 && Dead(w.sys, id)) || (i > 0 && cmds[i - 1] == Del(id))
    case IndexClear(_) => false
    case _ => true
  }

  predicate PhaseOk(l: Listed, w: World, rid: Rid, p: Phase) {
    match p
    case Running(r) => RequestOk(l, w, rid, r)
    case Busy(_, cmds, after, reply) =>
      (reply == None ==> RequestOk(l, w, rid, after)) && forall i :: 0 <= i < |cmds| ==> CmdOk(l, w, rid, cmds, i)
    case _ => true
  }

  // The creating request has still to write the entry.
  predicate Pending(w: World, id: Id) {
    && id in w.owner && w.owner[id] in w.reqs && w.reqs[w.owner[id]].Busy?
    && exists i :: 0 <= i < |w.reqs[w.owner[id]].cmds| && w.reqs[w.owner[id]].cmds[i].IndexSet? && w.reqs[w.owner[id]].cmds[i].id == id
  }

  predicate Outlives(l: Listed, w: World, subject: Subject, id: Id) {
    && id in w.sys.srv.Members(subject) && id in w.sys.born
    && w.sys.born[id] + l.c.clocks.absolute <= w.sys.srv.Members(subject)[id].until
  }

  predicate Covered(l: Listed, w: World, id: Id) {
    Loadable(w.sys.srv, id) && Subjected(l, w, id).Some? ==>
      Outlives(l, w, Subjected(l, w, id).value, id) || Pending(w, id)
  }

  ghost predicate CoverInv(l: Listed, w: World) {
    && (forall rid :: rid in w.reqs ==> rid in w.began && w.began[rid] <= w.sys.srv.now)
    && (forall rid :: rid in w.reqs ==> PhaseOk(l, w, rid, w.reqs[rid]))
    && (forall id :: id in w.sys.srv.keys ==> Fate(l.c, w, id) == Some(l.c.principalOf(w.sys.srv.keys[id].data.data)))
    && (forall subject, id :: id in w.sys.srv.Members(subject) ==> Subjected(l, w, id) == Some(subject))
    && (forall id :: id in w.sys.srv.keys ==> Covered(l, w, id))
  }

  // -- what an event does ----------------------------------------------------

  lemma EventIndex(s: Sys, e: Event, subject: Subject, id: Id)
    ensures var t := Lifecycle.Next(s, e);
            var was, now := s.srv.Members(subject), t.srv.Members(subject);
            if e.Do? && e.cmd.IndexSet? && e.cmd.subject == subject && e.cmd.id == id
            then id in now && now[id].until == s.srv.now + e.cmd.ttl
            else
              && (id in now ==> id in was && now[id] == was[id])
              && (id in was && id !in now ==>
                    || was[id].until <= t.srv.now
                    || (e.Do? && (e.cmd == IndexDel(subject, id) || e.cmd == IndexClear(subject))))
  {
  }

  lemma EventClocks(k: Clocks, s: Sys, e: Event, id: Id)
    requires k.Valid() && Inv(k, s) && Enabled(k, s, e)
    ensures var t := Lifecycle.Next(s, e);
            && s.srv.now <= t.srv.now
            && (id in s.born ==> id in t.born && t.born[id] == s.born[id])
            && (e.Do? && e.cmd.Expire? && e.cmd.id == id ==> id in t.born && t.born[id] == t.srv.now)
            && (Dead(s, id) ==> Dead(t, id))
            && (e == Do(Del(id)) ==> Dead(t, id))
            && (Loadable(t.srv, id) ==> Loadable(s.srv, id) || (e.Do? && e.cmd.Expire? && e.cmd.id == id))
  {
    if Dead(s, id) { DeadStays(k, s, e, id); }
  }

  // What a request sees others do.
  ghost predicate Onward(l: Listed, w: World, v: World, rid: Rid) {
    && w.sys.srv.now <= v.sys.srv.now
    && (forall id :: id in w.sys.born ==> id in v.sys.born && v.sys.born[id] == w.sys.born[id])
    && (forall id :: Dead(w.sys, id) ==> Dead(v.sys, id))
    && (forall id :: Fate(l.c, w, id).Some? ==> Fate(l.c, v, id) == Fate(l.c, w, id))
    && (forall id :: id in w.owner ==> id in v.owner && v.owner[id] == w.owner[id])
    && (rid in w.began ==> rid in v.began && v.began[rid] == w.began[rid])
  }

  ghost predicate Ready(l: Listed, w: World, a: Act) {
    l.Valid() && Principals.Sound(l.c, w) && CoverInv(l, w) && Possible(l.c, w, a) && Ordinary(w, a)
  }

  lemma ClocksGoOn(l: Listed, w: World, a: Act, id: Id)
    requires Ready(l, w, a)
    ensures w.sys.srv.now <= SysAfter(l.c, w, a).srv.now
    ensures id in w.sys.born ==> id in SysAfter(l.c, w, a).born && SysAfter(l.c, w, a).born[id] == w.sys.born[id]
    ensures Dead(w.sys, id) ==> Dead(SysAfter(l.c, w, a), id)
  {
    hide CoverInv, Possible, Ordinary, EventOf, Lifecycle.Next, Enabled, Dead, Inv, Embedding.PhaseOk, Embedding.JobOk,
         Principals.PrincipalInv;
    var e := EventOf(l.c, w, a);
    Embedding.ActIsEnabled(l.c, w, a);
    if e.Some? { EventClocks(l.c.clocks, w.sys, e.value, id); }
  }

  lemma BeganStays(c: Config, w: World, a: Act, rid: Rid)
    requires Possible(c, w, a) && rid in w.reqs
    ensures rid in w.began ==> rid in BeganAfter(w, a) && BeganAfter(w, a)[rid] == w.began[rid]
  {
    hide Lists, Presentable, Fresh;
  }

  lemma {:induction false} GoesOn(l: Listed, w: World, a: Act, rid: Rid)
    requires Ready(l, w, a) && rid in w.reqs
    ensures Onward(l, w, Advance(l.c, w, a), rid)
  {
    hide Principals.Sound, CoverInv, Possible, Ordinary, Fate, Dead, SysAfter, OwnerAfter, PinnedAfter,
         CookieUntilAfter, BeganAfter, ReqsAfter, JobsAfter;
    OwnersStay(l.c, w, a);
    BeganStays(l.c, w, a, rid);
    var v := Advance(l.c, w, a);
    ClocksGoOn(l, w, a, "");
    forall id
      ensures id in w.sys.born ==> id in v.sys.born && v.sys.born[id] == w.sys.born[id]
      ensures Dead(w.sys, id) ==> Dead(v.sys, id)
    {
      ClocksGoOn(l, w, a, id);
    }
    forall id | Fate(l.c, w, id).Some? ensures Fate(l.c, v, id) == Fate(l.c, w, id) { FateStays(l.c, w, a, id); }
  }

  lemma PhaseFrame(l: Listed, w: World, v: World, rid: Rid, p: Phase)
    requires PhaseOk(l, w, rid, p) && Onward(l, w, v, rid)
    ensures PhaseOk(l, v, rid, p)
  {
    hide Fate, Dead, JobsAfter, Embedding.JobOk;
    if p.Busy? {
      forall i | 0 <= i < |p.cmds| ensures CmdOk(l, v, rid, p.cmds, i) { assert CmdOk(l, w, rid, p.cmds, i); }
    }
  }

  // -- what the request itself does ------------------------------------------

  lemma SendOk(l: Listed, w: World, rid: Rid)
    requires Ready(l, w, Send(rid))
    ensures var v := Advance(l.c, w, Send(rid)); PhaseOk(l, v, rid, v.reqs[rid])
  {
    hide Principals.PrincipalInv, Fate, Dead, SysAfter, Enabled, Embedding.PhaseOk, KeysInv, IndexInv, JobsAfter,
         Embedding.JobOk;
    var v := Advance(l.c, w, Send(rid));
    var p := w.reqs[rid];
    GoesOn(l, w, Send(rid), rid);
    assert PhaseOk(l, w, rid, p) && CmdOk(l, w, rid, p.cmds, 0);
    Embedding.ActIsEnabled(l.c, w, Send(rid));
    SentClocks(l, w, rid);
    forall i | 0 <= i < |p.cmds[1..]| ensures CmdOk(l, v, rid, p.cmds[1..], i) {
      assert CmdOk(l, w, rid, p.cmds, i + 1);
    }
  }

  // The command sent sets the clock, or ends the session, that the next one
  // counts on.
  lemma SentClocks(l: Listed, w: World, rid: Rid)
    requires Ready(l, w, Send(rid)) && w.reqs[rid].cmds != []
    ensures var cmd, t := w.reqs[rid].cmds[0], SysAfter(l.c, w, Send(rid));
            && (cmd.Expire? ==> cmd.id in t.born && t.born[cmd.id] == t.srv.now)
            && (cmd.Del? ==> Dead(t, cmd.id))
  {
    hide Principals.PrincipalInv, CoverInv, Fate, Dead, Lifecycle.Next, Enabled, Embedding.PhaseOk, Inv, JobsAfter,
         Embedding.JobOk;
    var cmd := w.reqs[rid].cmds[0];
    Embedding.ActIsEnabled(l.c, w, Send(rid));
    if cmd.Expire? || cmd.Del? { EventClocks(l.c.clocks, w.sys, Do(cmd), cmd.id); }
  }

  lemma WriteOk(l: Listed, v: World, rid: Rid, r: Request, newId: Id, stamp: int, extra: Dict)
    requires l.Valid()
    requires Fate(l.c, v, Written(l.c, r, newId, stamp).id.value) == Some(l.c.principalOf(r.session.data))
    requires r.st.id == None ==> newId in v.owner && v.owner[newId] == rid
    requires r.st.id.Some? ==> r.st.remaining.Some? && r.st.remaining.value > 0 && TimesOk(l, v, rid, r.st.id.value, r.st.remaining.value)
    ensures var cmds := WriteCmds(l.c, r, newId, stamp, extra);
            forall i :: 0 <= i < |cmds| ==> CmdOk(l, v, rid, cmds, i)
  {
  }

  lemma RotateOk(l: Listed, v: World, rid: Rid, st: State, newId: Id, rec: Record, extra: Dict)
    requires l.Valid()
    requires Fate(l.c, v, newId) == Some(l.c.principalOf(rec.data)) && newId in v.owner && v.owner[newId] == rid
    ensures var cmds := RotateCmds(l.c.clocks, st, NonEmpty(l.c.subjectOf(rec.data)), newId, rec, extra);
            forall i :: 0 <= i < |cmds| ==> CmdOk(l, v, rid, cmds, i)
  {
  }

  // A response that names an id fixes its principal.
  lemma NamedFate(c: Config, v: World, rid: Rid)
    requires rid in v.reqs && Principals.PhaseOk(c, v, rid, v.reqs[rid])
    requires v.reqs[rid].Busy? && v.reqs[rid].reply.Some? && v.reqs[rid].reply.value.Names?
    ensures Fate(c, v, v.reqs[rid].reply.value.id) == Some(c.principalOf(v.reqs[rid].after.session.data))
  {
  }

  lemma PlanOk(l: Listed, v: World, a: Act, r: Request)
    requires l.Valid() && a.Respond? && RequestOk(l, v, a.rid, r) && a.newId in v.owner && v.owner[a.newId] == a.rid
    requires var p := RespondOp(l.c, r, a.status, a.newId, a.stamp, a.extra);
             p.reply.value.Names? ==> Fate(l.c, v, p.reply.value.id) == Some(l.c.principalOf(p.after.session.data))
    ensures PhaseOk(l, v, a.rid, RespondOp(l.c, r, a.status, a.newId, a.stamp, a.extra))
  {
    hide WriteCmds, RotateCmds, Fate, TimesOk, Subjected;
    if !Forgets(r) {
      var outcome := OutcomeOf(l.c, r, a.status);
      if outcome == Write || (outcome == CookieOnly && r.session.modified) {
        WriteOk(l, v, a.rid, r, a.newId, a.stamp, a.extra);
      } else if outcome == Rotate {
        RotateOk(l, v, a.rid, r.st, a.newId, Record(r.session.data, a.stamp, a.stamp), a.extra);
      }
    }
  }

  lemma {:induction false} RespondOk(l: Listed, w: World, a: Act)
    requires Ready(l, w, a) && a.Respond?
    ensures var v := Advance(l.c, w, a); PhaseOk(l, v, a.rid, v.reqs[a.rid])
  {
    hide Principals.PhaseOk, Embedding.WorldInv, PlanFor, Fate, RequestOk, CmdOk, Onward, SysAfter, PinnedAfter,
         CookieUntilAfter, BeganAfter, JobsAfter, Ordinary;
    var v, p := Advance(l.c, w, a), w.reqs[a.rid];
    Principals.ActKeepsInv(l.c, w, a);
    assert Principals.PhaseOk(l.c, v, a.rid, v.reqs[a.rid]);
    if v.reqs[a.rid].reply.value.Names? { NamedFate(l.c, v, a.rid); }
    GoesOn(l, w, a, a.rid);
    PhaseFrame(l, w, v, a.rid, p);
    PlanOk(l, v, a, p.r);
  }

  // What a load reports is left of the session's clock, is.
  lemma FoundTimes(l: Listed, w: World, rid: Rid)
    requires Inv(l.c.clocks, w.sys) && CoverInv(l, w) && rid in w.reqs && w.reqs[rid].Reading?
    ensures var found := Judge(w.reqs[rid].data, ReadTtl(w.sys.srv, w.reqs[rid].cookie));
            found.Live? ==> found.remaining > 0 && TimesOk(l, w, rid, w.reqs[rid].cookie, found.remaining)
  {
    hide PhaseOk, Fate, Subjected, Covered, IndexInv;
    var p := w.reqs[rid];
    assert p.cookie in w.sys.srv.keys ==> KeyInv(l.c.clocks, w.sys, p.cookie);
  }

  // What the other actions make of a phase that is right.
  lemma TurnOk(l: Listed, w: World, v: World, a: Act)
    requires Possible(l.c, w, a) && Ordinary(w, a) && !Outside(a) && !a.Send? && !a.Respond?
    requires !a.Arrive? ==> PhaseOk(l, v, a.rid, w.reqs[a.rid])
    requires a.AskTtl? ==>
               var found := Judge(w.reqs[a.rid].data, ReadTtl(w.sys.srv, w.reqs[a.rid].cookie));
               found.Live? ==> found.remaining > 0 && TimesOk(l, v, a.rid, w.reqs[a.rid].cookie, found.remaining)
    ensures PhaseOk(l, v, a.rid, PhaseAfter(l.c, w, a))
  {
    hide TimesOk, Fate, Subjected, Dead, Lists, Presentable, Judge, ReadTtl;
  }

  lemma OtherOwnPhase(l: Listed, w: World, a: Act)
    requires Ready(l, w, a) && !Outside(a) && !a.Send? && !a.Respond?
    ensures var v := Advance(l.c, w, a); PhaseOk(l, v, a.rid, v.reqs[a.rid])
  {
    hide Principals.PrincipalInv, Embedding.PhaseOk, Embedding.JobOk, Inv, PhaseOk, Fate, Onward, Ordinary, PhaseAfter,
         Judge, ReadTtl, OwnerAfter, PinnedAfter, CookieUntilAfter, JobsAfter;
    var v := Advance(l.c, w, a);
    if !a.Arrive? {
      GoesOn(l, w, a, a.rid);
      PhaseFrame(l, w, v, a.rid, w.reqs[a.rid]);
    }
    if a.AskTtl? { FoundTimes(l, w, a.rid); }
    TurnOk(l, w, v, a);
  }

  // -- keys and entries ------------------------------------------------------

  lemma {:induction false} KeyStep(l: Listed, w: World, a: Act, id: Id)
    requires Ready(l, w, a)
    ensures id in Advance(l.c, w, a).sys.srv.keys ==>
              Fate(l.c, Advance(l.c, w, a), id) == Some(l.c.principalOf(Advance(l.c, w, a).sys.srv.keys[id].data.data))
  {
    hide Fate, SysAfter, ReqsAfter, PinnedAfter, Embedding.WorldInv, Principals.PrincipalInv, JobsAfter;
    if id in Advance(l.c, w, a).sys.srv.keys {
      Principals.ActEffects(l.c, w, a, id);
      if a.Send? {
        assert PhaseOk(l, w, a.rid, w.reqs[a.rid]) && CmdOk(l, w, a.rid, w.reqs[a.rid].cmds, 0);
      }
      FateStays(l.c, w, a, id);
    }
  }

  // The commands an action sends, and where they come from.
  lemma WhatIsSent(l: Listed, w: World, a: Act)
    requires Ready(l, w, a)
    ensures a.Send? ==> EventOf(l.c, w, a) == Some(Do(w.reqs[a.rid].cmds[0]))
    ensures EventOf(l.c, w, a).Some? && EventOf(l.c, w, a).value.Do? ==>
              var cmd := EventOf(l.c, w, a).value.cmd;
              && (cmd.IndexSet? ==> a.Send? && Subjected(l, w, cmd.id) == Some(cmd.subject) && TimesOk(l, w, a.rid, cmd.id, cmd.ttl))
              && (cmd.Expire? ==> a.Send?)
              && (cmd.IndexDel? ==> Dead(w.sys, cmd.id))
              && (cmd.IndexClear? ==> forall id :: id in w.sys.srv.Members(cmd.subject) ==> Dead(w.sys, id))
  {
    hide Principals.PrincipalInv, Fate, Subjected, TimesOk, Dead, Embedding.PhaseOk, Embedding.JobOk, Inv, Lists, Fresh,
         Presentable;
    if a.Send? {
      assert PhaseOk(l, w, a.rid, w.reqs[a.rid]) && CmdOk(l, w, a.rid, w.reqs[a.rid].cmds, 0);
    }
    if a.Proceed? { Embedding.JobCmds(w.sys, w.jobs[a.job]); }
  }

  // One entry of one index, before an action and after it.
  lemma EntryStep(l: Listed, w: World, a: Act, subject: Subject, id: Id)
    requires Ready(l, w, a)
    ensures var was, now := w.sys.srv.Members(subject), SysAfter(l.c, w, a).srv.Members(subject);
            if a.Send? && w.reqs[a.rid].cmds[0].IndexSet? && w.reqs[a.rid].cmds[0].subject == subject && w.reqs[a.rid].cmds[0].id == id
            then
              && Subjected(l, w, id) == Some(subject) && TimesOk(l, w, a.rid, id, w.reqs[a.rid].cmds[0].ttl)
              && id in now && now[id].until == w.sys.srv.now + w.reqs[a.rid].cmds[0].ttl
            else
              && (id in now ==> id in was && now[id] == was[id])
              && (id in was && id !in now ==> was[id].until <= SysAfter(l.c, w, a).srv.now || !Loadable(w.sys.srv, id))
  {
    hide Principals.Sound, CoverInv, Possible, Ordinary, EventOf, Lifecycle.Next, Subjected, TimesOk, Loadable;
    WhatIsSent(l, w, a);
    var e := EventOf(l.c, w, a);
    if e.Some? { EventIndex(w.sys, e.value, subject, id); }
  }

  lemma IndexStep(l: Listed, w: World, a: Act, subject: Subject, id: Id)
    requires Ready(l, w, a)
    ensures id in Advance(l.c, w, a).sys.srv.Members(subject) ==> Subjected(l, Advance(l.c, w, a), id) == Some(subject)
  {
    hide Fate, SysAfter, ReqsAfter, PinnedAfter, Embedding.WorldInv, Principals.PrincipalInv, TimesOk, JobsAfter;
    if id in Advance(l.c, w, a).sys.srv.Members(subject) {
      EntryStep(l, w, a, subject, id);
      assert Subjected(l, w, id) == Some(subject);
      FateStays(l.c, w, a, id);
    }
  }

  predicate SendsEntry(w: World, a: Act, id: Id) {
    && a.Send? && a.rid in w.reqs && w.reqs[a.rid].Busy? && w.reqs[a.rid].cmds != []
    && w.reqs[a.rid].cmds[0].IndexSet? && w.reqs[a.rid].cmds[0].id == id
  }

  lemma PendingStep(l: Listed, w: World, a: Act, id: Id)
    requires Ready(l, w, a) && Pending(w, id)
    ensures Pending(Advance(l.c, w, a), id) || SendsEntry(w, a, id)
  {
    hide SysAfter, PinnedAfter, Embedding.WorldInv, Principals.PrincipalInv, CoverInv, JobsAfter;
    var v := Advance(l.c, w, a);
    var o := w.owner[id];
    var i :| 0 <= i < |w.reqs[o].cmds| && w.reqs[o].cmds[i].IndexSet? && w.reqs[o].cmds[i].id == id;
    if a == Send(o) && i > 0 { assert v.reqs[o].cmds[i - 1] == w.reqs[o].cmds[i]; }
  }

  lemma {:induction false} BecomesLive(l: Listed, w: World, a: Act, id: Id)
    requires Ready(l, w, a)
    ensures !Loadable(w.sys.srv, id) && Loadable(Advance(l.c, w, a).sys.srv, id) && Subjected(l, Advance(l.c, w, a), id).Some? ==>
              Pending(Advance(l.c, w, a), id)
  {
    hide Principals.PrincipalInv, Embedding.PhaseOk, Embedding.JobOk, Inv, Fate, EventOf, Lifecycle.Next, OwnerAfter,
         PinnedAfter, CookieUntilAfter, BeganAfter, JobsAfter, TimesOk, Loadable, Enabled, Dead, Ordinary, Lists, Fresh,
         Presentable;
    if !Loadable(w.sys.srv, id) && Loadable(Advance(l.c, w, a).sys.srv, id) && Subjected(l, Advance(l.c, w, a), id).Some? {
      OwnersStay(l.c, w, a);
      Embedding.ActIsEnabled(l.c, w, a);
      EventClocks(l.c.clocks, w.sys, EventOf(l.c, w, a).value, id);
      WhatIsSent(l, w, a);
      var cmds := w.reqs[a.rid].cmds;
      assert PhaseOk(l, w, a.rid, w.reqs[a.rid]) && CmdOk(l, w, a.rid, cmds, 0);
      FateStays(l.c, w, a, id);
      assert Advance(l.c, w, a).reqs[a.rid].cmds[0] == cmds[1];
    }
  }

  // An entry that lasts to the deadline is there as long as the session is.
  lemma {:induction false} OutlivesStep(l: Listed, w: World, a: Act, subject: Subject, id: Id)
    requires Ready(l, w, a) && Outlives(l, w, subject, id) && Loadable(w.sys.srv, id)
    ensures Loadable(Advance(l.c, w, a).sys.srv, id) ==> Outlives(l, Advance(l.c, w, a), subject, id)
  {
    hide Principals.PrincipalInv, CoverInv, Fate, Lifecycle.Next, ReqsAfter, PinnedAfter, Embedding.PhaseOk, Enabled,
         EventOf, Loadable, Inv, Dead, JobsAfter, Embedding.JobOk;
    if Loadable(Advance(l.c, w, a).sys.srv, id) {
      var v := Advance(l.c, w, a);
      EntryStep(l, w, a, subject, id);
      ClocksGoOn(l, w, a, id);
      Embedding.ActKeepsInv(l.c, w, a);
      LoadableIsBounded(l.c.clocks, v.sys, id);
      LiveUntil(l.c.clocks, v.sys, id);
    }
  }

  lemma LiveUntil(k: Clocks, s: Sys, id: Id)
    requires Inv(k, s) && Loadable(s.srv, id)
    ensures id in s.born && s.srv.now < s.born[id] + k.absolute
  {
    assert KeyInv(k, s, id);
  }

  lemma {:induction false} CoverStep(l: Listed, w: World, a: Act, id: Id)
    requires Ready(l, w, a)
    ensures Covered(l, Advance(l.c, w, a), id)
  {
    hide Principals.PrincipalInv, Fate, Lifecycle.Next, ReqsAfter, PinnedAfter, EventOf, Embedding.WorldInv, TimesOk,
         Pending, JobsAfter;
    var v := Advance(l.c, w, a);
    if Loadable(v.sys.srv, id) && Subjected(l, v, id).Some? {
      if !Loadable(w.sys.srv, id) {
        BecomesLive(l, w, a, id);
      } else {
        FateStays(l.c, w, a, id);
        assert Covered(l, w, id);
        var subject := Subjected(l, w, id).value;
        if Outlives(l, w, subject, id) {
          OutlivesStep(l, w, a, subject, id);
        } else {
          PendingStep(l, w, a, id);
          if !Pending(v, id) { WrittenNow(l, w, a, subject, id); }
        }
      }
    }
  }

  // The entry, the moment it is written.
  lemma WrittenNow(l: Listed, w: World, a: Act, subject: Subject, id: Id)
    requires Ready(l, w, a) && Subjected(l, w, id) == Some(subject)
    requires SendsEntry(w, a, id)
    ensures Outlives(l, Advance(l.c, w, a), subject, id)
  {
    hide Principals.PrincipalInv, Fate, Lifecycle.Next, ReqsAfter, PinnedAfter, EventOf, Embedding.WorldInv, JobsAfter;
    assert PhaseOk(l, w, a.rid, w.reqs[a.rid]) && CmdOk(l, w, a.rid, w.reqs[a.rid].cmds, 0);
    EntryStep(l, w, a, subject, id);
    ClocksGoOn(l, w, a, id);
  }

  lemma BeganKept(l: Listed, w: World, a: Act, rid: Rid)
    requires Ready(l, w, a)
    ensures var v := Advance(l.c, w, a); rid in v.reqs ==> rid in v.began && v.began[rid] <= v.sys.srv.now
  {
    hide Principals.Sound, Lists, Fresh, Presentable, Ordinary, SysAfter, OwnerAfter, PinnedAfter, CookieUntilAfter,
         JobsAfter, PhaseOk, Fate, Subjected, Covered, PhaseAfter;
    ClocksGoOn(l, w, a, "");
  }

  lemma PhasesKept(l: Listed, w: World, a: Act, rid: Rid)
    requires Ready(l, w, a)
    ensures var v := Advance(l.c, w, a); rid in v.reqs ==> PhaseOk(l, v, rid, v.reqs[rid])
  {
    hide Principals.Sound, Possible, Ordinary, SysAfter, OwnerAfter, PinnedAfter, CookieUntilAfter, BeganAfter,
         JobsAfter, PhaseOk, Fate, Subjected, Covered, PhaseAfter, Onward;
    if rid in Advance(l.c, w, a).reqs {
      var v := Advance(l.c, w, a);
      if Principals.ByOther(a, rid) {
        GoesOn(l, w, a, rid);
        PhaseFrame(l, w, v, rid, w.reqs[rid]);
      } else {
        OwnPhase(l, w, a);
      }
    }
  }

  lemma ActKeepsCover(l: Listed, w: World, a: Act)
    requires Ready(l, w, a)
    ensures CoverInv(l, Advance(l.c, w, a))
  {
    hide Principals.Sound, Possible, Ordinary, Advance, PhaseOk, Fate, Subjected, Covered;
    var v := Advance(l.c, w, a);
    forall rid | rid in v.reqs ensures PhaseOk(l, v, rid, v.reqs[rid]) && rid in v.began && v.began[rid] <= v.sys.srv.now {
      PhasesKept(l, w, a, rid);
      BeganKept(l, w, a, rid);
    }
    forall id | id in v.sys.srv.keys
      ensures Covered(l, v, id) && Fate(l.c, v, id) == Some(l.c.principalOf(v.sys.srv.keys[id].data.data))
    {
      CoverStep(l, w, a, id);
      KeyStep(l, w, a, id);
    }
    forall subject, id | id in v.sys.srv.Members(subject) ensures Subjected(l, v, id) == Some(subject) {
      IndexStep(l, w, a, subject, id);
    }
  }

  lemma OwnPhase(l: Listed, w: World, a: Act)
    requires Ready(l, w, a) && !Outside(a)
    ensures var v := Advance(l.c, w, a); PhaseOk(l, v, a.rid, v.reqs[a.rid])
  {
    hide Advance, PhaseOk, Ready;
    if a.Send? { SendOk(l, w, a.rid); }
    else if a.Respond? { RespondOk(l, w, a); }
    else { OtherOwnPhase(l, w, a); }
  }
}
