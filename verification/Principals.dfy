// One identifier, one principal: from the first cookie that names a session
// id, every payload ever stored under it belongs to the same principal.
module Principals {
  import opened Prelude
  import opened Payloads
  import opened SessionServer
  import opened Lifecycle
  import opened SessionOps
  import opened SessionStores
  import opened Middleware
  import opened Requests
  import Embedding
  import Sessions

  // An id the request generated and no cookie has named yet.
  predicate Own(w: World, rid: Rid, id: Id) { id in w.owner && w.owner[id] == rid && id !in w.pinned }

  predicate Stored(c: Config, w: World, id: Id, p: Principal) {
    id in w.sys.srv.keys ==> c.principalOf(w.sys.srv.keys[id].data.data) == p
  }

  // What a cookie may carry: a named id, or nobody's.
  predicate Cookied(w: World, id: Id) {
    id in w.pinned || (id in w.sys.open && id !in w.owner && id !in w.sys.born)
  }

  // A request was loaded under a named id, with that id's principal, and
  // writes only there or to an id of its own.
  predicate RequestOk(c: Config, w: World, rid: Rid, r: Request) {
    && (r.session.modified ==> r.session.accessed)
    && (r.loadedId.Some? ==> r.loadedId.value in w.pinned && r.before == w.pinned[r.loadedId.value])
    && (r.st.id.Some? ==> r.st.id == r.loadedId || Own(w, rid, r.st.id.value))
  }

  // Its own id holds what the session holds, as long as nothing was changed.
  predicate InStep(c: Config, w: World, rid: Rid, r: Request) {
    r.st.id.Some? && Own(w, rid, r.st.id.value) && !r.session.modified ==>
      Stored(c, w, r.st.id.value, c.principalOf(r.session.data))
  }

  predicate MayStore(c: Config, w: World, rid: Rid, cmd: Cmd) {
    cmd.HSetEx? ==>
      || (cmd.id in w.pinned && c.principalOf(cmd.data.data) == w.pinned[cmd.id])
      || Own(w, rid, cmd.id)
  }

  predicate WritesTo(cmd: Cmd, id: Id) { cmd.HSetEx? && cmd.id == id }

  // Once the commands are sent, `id` holds a payload of principal p, if any.
  predicate Leaves(c: Config, w: World, cmds: seq<Cmd>, id: Id, p: Principal) {
    && (forall i :: 0 <= i < |cmds| && WritesTo(cmds[i], id) ==> c.principalOf(cmds[i].data.data) == p)
    && (Stored(c, w, id, p) || exists i :: 0 <= i < |cmds| && WritesTo(cmds[i], id))
  }

  predicate BusyOk(c: Config, w: World, rid: Rid, p: Phase)
    requires p.Busy?
  {
    && RequestOk(c, w, rid, p.r) && RequestOk(c, w, rid, p.after)
    && (forall i :: 0 <= i < |p.cmds| ==> MayStore(c, w, rid, p.cmds[i]))
    && (p.reply == None ==>
          InStep(c, w, rid, p.r)
          && forall i :: 0 <= i < |p.cmds| ==> p.r.st.id.Some? ==> !WritesTo(p.cmds[i], p.r.st.id.value))
    && (p.after.st.id.Some? && Own(w, rid, p.after.st.id.value)
        && (if p.reply.Some? then p.reply.value.Names? else !p.after.session.modified) ==>
          Leaves(c, w, p.cmds, p.after.st.id.value, c.principalOf(p.after.session.data)))
    && (p.reply.Some? && p.reply.value.Names? ==>
          && p.after.st.id == Some(p.reply.value.id)
          && (p.reply.value.id in w.pinned ==> c.principalOf(p.after.session.data) == w.pinned[p.reply.value.id]))
  }

  predicate PhaseOk(c: Config, w: World, rid: Rid, p: Phase) {
    match p
    case Arrived(cookie) => Cookied(w, cookie)
    case Reading(cookie, data) =>
      && Cookied(w, cookie)
      && (cookie in w.pinned && data.Some? ==> c.principalOf(data.value.data) == w.pinned[cookie])
    case Tidying(_) => true
    case Running(r) => RequestOk(c, w, rid, r) && InStep(c, w, rid, r)
    case Busy(_, _, _, _) => BusyOk(c, w, rid, p)
    case Done => true
  }

  ghost predicate PrincipalInv(c: Config, w: World) {
    && w.owner.Keys <= w.sys.open + w.sys.building
    && (forall id :: id in w.pinned ==> Stored(c, w, id, w.pinned[id]))
    && (forall rid :: rid in w.reqs ==> PhaseOk(c, w, rid, w.reqs[rid]))
  }

  // -- what others do --------------------------------------------------------

  // The changes a request may see others make: to who knows and is named what,
  ghost predicate QuietNames(w: World, v: World, rid: Rid) {
    && (forall id :: id in w.sys.open && id !in w.owner ==> id !in v.owner)
    && (forall id :: id in w.pinned ==> id in v.pinned && v.pinned[id] == w.pinned[id])
    && (forall id :: id in v.pinned && id !in w.pinned ==> id in w.owner)
    && (forall id :: Own(w, rid, id) <==> Own(v, rid, id))
  }

  // and to what is stored.
  ghost predicate QuietStore(w: World, v: World, rid: Rid) {
    && w.sys.open <= v.sys.open
    && (forall id :: id in w.sys.open && id !in w.sys.born ==> id !in v.sys.born)
    && (forall id :: Own(w, rid, id) && id in v.sys.srv.keys ==>
          id in w.sys.srv.keys && v.sys.srv.keys[id].data == w.sys.srv.keys[id].data)
  }

  ghost predicate Quiet(w: World, v: World, rid: Rid) { QuietNames(w, v, rid) && QuietStore(w, v, rid) }

  lemma PhaseFrame(c: Config, w: World, v: World, rid: Rid, p: Phase)
    requires PhaseOk(c, w, rid, p) && Quiet(w, v, rid)
    requires forall id :: id in w.pinned ==> id in w.sys.open
    ensures PhaseOk(c, v, rid, p)
  {
  }

  ghost predicate Sound(c: Config, w: World) { c.clocks.Valid() && Embedding.WorldInv(c, w) && PrincipalInv(c, w) }

  // What an event does to what is stored, and to who may know an id.
  lemma EventEffects(k: Clocks, s: Sys, e: Event, id: Id)
    requires IdsInv(s) && Enabled(k, s, e)
    ensures var t := Lifecycle.Next(s, e);
            && s.open <= t.open && s.open + s.building <= t.open + t.building
            && (id in s.open && id !in s.born ==> id !in t.born)
            && if e.Do? && WritesTo(e.cmd, id) then id in t.srv.keys && t.srv.keys[id].data == e.cmd.data
               else id in t.srv.keys ==> id in s.srv.keys && t.srv.keys[id].data == s.srv.keys[id].data
  {
  }

  // The command sent stores a payload under the id.
  predicate Writes(w: World, a: Act, id: Id) {
    a.Send? && a.rid in w.reqs && w.reqs[a.rid].Busy? && w.reqs[a.rid].cmds != [] && WritesTo(w.reqs[a.rid].cmds[0], id)
  }

  // An action, as one id shows it.
  ghost predicate StoreAfter(c: Config, w: World, a: Act, id: Id)
    requires Possible(c, w, a)
  {
    var s, t := w.sys, SysAfter(c, w, a);
    && s.open <= t.open && s.open + s.building <= t.open + t.building
    && (id in s.open && id !in s.born ==> id !in t.born)
    && if Writes(w, a, id)
       then id in t.srv.keys && t.srv.keys[id].data == w.reqs[a.rid].cmds[0].data
       else id in t.srv.keys ==> id in s.srv.keys && t.srv.keys[id].data == s.srv.keys[id].data
  }

  lemma ActEffects(c: Config, w: World, a: Act, id: Id)
    requires Sound(c, w) && Possible(c, w, a)
    ensures StoreAfter(c, w, a, id)
  {
    hide Enabled, Lifecycle.Next, PrincipalInv, Embedding.PhaseOk, KeysInv, IndexInv, JobsAfter, Embedding.JobOk, Lists,
         Presentable, Fresh;
    Embedding.ActIsEnabled(c, w, a);
    if a.Proceed? { Embedding.JobCmds(w.sys, w.jobs[a.job]); }
    var e := EventOf(c, w, a);
    if e.Some? { EventEffects(c.clocks, w.sys, e.value, id); }
  }

  // Who may name an id for the first time: the request that generated it.
  lemma IssuesItsOwn(c: Config, w: World, a: Act)
    requires Sound(c, w) && Issues(w, a)
    ensures var p := w.reqs[a.rid];
            && PhaseOk(c, w, a.rid, p) && p.after.st.id == Some(p.reply.value.id)
            && (p.reply.value.id in w.pinned || Own(w, a.rid, p.reply.value.id))
  {
    hide Embedding.WorldInv, JobsAfter;
    assert PhaseOk(c, w, a.rid, w.reqs[a.rid]);
  }

  predicate ByOther(a: Act, rid: Rid) { Outside(a) || a.rid != rid }

  // An action of another, or one that generates, names and stores nothing.
  predicate Aside(w: World, a: Act, rid: Rid) { ByOther(a, rid) || !(a.Send? || a.CallRotate? || a.Respond? || Issues(w, a)) }

  lemma NamesAreQuiet(c: Config, w: World, a: Act, rid: Rid)
    requires Sound(c, w) && Possible(c, w, a) && Aside(w, a, rid)
    ensures QuietNames(w, Advance(c, w, a), rid)
  {
    hide SysAfter, OwnerAfter, PinnedAfter, CookieUntilAfter, BeganAfter, ReqsAfter, JobsAfter, Possible, Sound,
         PhaseOk;
    OwnersStay(c, w, a);
    PinnedStays(c, w, a);
    if Issues(w, a) { IssuesItsOwn(c, w, a); }
  }

  lemma StoreIsQuiet(c: Config, w: World, a: Act, rid: Rid)
    requires Sound(c, w) && Possible(c, w, a) && Aside(w, a, rid)
    ensures QuietStore(w, Advance(c, w, a), rid)
  {
    hide SysAfter, OwnerAfter, PinnedAfter, CookieUntilAfter, BeganAfter, ReqsAfter, JobsAfter, Possible, Sound, Writes,
         Own, Aside;
    var v := Advance(c, w, a);
    ActEffects(c, w, a, "");
    forall id
      ensures id in w.sys.open && id !in w.sys.born ==> id !in v.sys.born
      ensures Own(w, rid, id) && id in v.sys.srv.keys ==> id in w.sys.srv.keys && v.sys.srv.keys[id].data == w.sys.srv.keys[id].data
    {
      ActEffects(c, w, a, id);
      if Own(w, rid, id) { WritesToItsOwn(c, w, a, rid, id); }
    }
  }

  lemma LeavesQuiet(c: Config, w: World, a: Act, rid: Rid)
    requires Sound(c, w) && Possible(c, w, a) && Aside(w, a, rid)
    ensures Quiet(w, Advance(c, w, a), rid)
  {
    hide Sound, Possible, Advance, QuietNames, QuietStore, Aside;
    NamesAreQuiet(c, w, a, rid);
    StoreIsQuiet(c, w, a, rid);
  }

  // No command of one request writes to what another has generated.
  lemma WritesToItsOwn(c: Config, w: World, a: Act, rid: Rid, id: Id)
    requires Sound(c, w) && Possible(c, w, a) && Aside(w, a, rid) && Own(w, rid, id)
    ensures !Writes(w, a, id)
  {
    hide Embedding.WorldInv;
    if a.Send? { assert PhaseOk(c, w, a.rid, w.reqs[a.rid]) && MayStore(c, w, a.rid, w.reqs[a.rid].cmds[0]); }
  }

  lemma {:induction false} PinnedKept(c: Config, w: World, a: Act)
    requires Sound(c, w) && Possible(c, w, a)
    ensures var v := Advance(c, w, a);
            && v.owner.Keys <= v.sys.open + v.sys.building
            && forall id :: id in v.pinned ==> Stored(c, v, id, v.pinned[id])
  {
    hide SysAfter, ReqsAfter, Embedding.WorldInv, JobsAfter;
    var v := Advance(c, w, a);
    if a.Send? || a.Return? { assert PhaseOk(c, w, a.rid, w.reqs[a.rid]); }
    if a.Send? { assert MayStore(c, w, a.rid, w.reqs[a.rid].cmds[0]); }
    forall id | id in v.pinned ensures Stored(c, v, id, v.pinned[id]) { ActEffects(c, w, a, id); }
    OwnersAreKnown(c, w, a);
  }

  lemma OwnersAreKnown(c: Config, w: World, a: Act)
    requires Sound(c, w) && Possible(c, w, a)
    ensures OwnerAfter(w, a).Keys <= SysAfter(c, w, a).open + SysAfter(c, w, a).building
  {
    hide PhaseOk, Embedding.WorldInv, Exec, JobsAfter;
    ActEffects(c, w, a, "");
  }

  // -- what the request itself does ------------------------------------------

  // The server after one command, as stored payloads show it.
  predicate Sent(w: World, v: World, cmd: Cmd, id: Id) {
    if WritesTo(cmd, id) then id in v.sys.srv.keys && v.sys.srv.keys[id].data == cmd.data
    else id in v.sys.srv.keys ==> id in w.sys.srv.keys && v.sys.srv.keys[id].data == w.sys.srv.keys[id].data
  }

  lemma SentOk(c: Config, w: World, v: World, rid: Rid, p: Phase)
    requires p.Busy? && p.cmds != [] && BusyOk(c, w, rid, p) && v.owner == w.owner && v.pinned == w.pinned
    requires forall id :: Sent(w, v, p.cmds[0], id)
    ensures BusyOk(c, v, rid, p.(cmds := p.cmds[1..]))
  {
    assert p.r.st.id.Some? ==> Sent(w, v, p.cmds[0], p.r.st.id.value);
    assert p.after.st.id.Some? ==> Sent(w, v, p.cmds[0], p.after.st.id.value);
  }

  lemma {:induction false} SendOk(c: Config, w: World, rid: Rid)
    requires Sound(c, w) && Possible(c, w, Send(rid))
    ensures var v := Advance(c, w, Send(rid)); PhaseOk(c, v, rid, v.reqs[rid])
  {
    hide BusyOk, SysAfter, Embedding.WorldInv, JobsAfter;
    var v, p := Advance(c, w, Send(rid)), w.reqs[rid];
    assert PhaseOk(c, w, rid, p);
    forall id ensures Sent(w, v, p.cmds[0], id) { ActEffects(c, w, Send(rid), id); }
    SentOk(c, w, v, rid, p);
  }

  // The list stores one payload, under one id.
  ghost predicate StoresOnly(cmds: seq<Cmd>, id: Id, data: Dict) {
    && (exists i :: 0 <= i < |cmds| && WritesTo(cmds[i], id))
    && forall i :: 0 <= i < |cmds| && cmds[i].HSetEx? ==> cmds[i].id == id && cmds[i].data.data == data
  }

  lemma WriteStores(c: Config, r: Request, newId: Id, stamp: int, extra: Dict)
    ensures Written(c, r, newId, stamp).id == Some(if r.st.id == None then newId else r.st.id.value)
    ensures StoresOnly(WriteCmds(c, r, newId, stamp, extra), Written(c, r, newId, stamp).id.value, r.session.data)
  {
    assert WritesTo(WriteCmds(c, r, newId, stamp, extra)[0], Written(c, r, newId, stamp).id.value);
  }

  lemma RotateStores(k: Clocks, st: State, subject: Option<Subject>, newId: Id, rec: Record, extra: Dict)
    ensures StoresOnly(RotateCmds(k, st, subject, newId, rec, extra), newId, rec.data)
  {
    var front := if st.id.Some? then [Del(st.id.value)] + DropCmds(st.subject, st.id.value) else [];
    assert WritesTo(RotateCmds(k, st, subject, newId, rec, extra)[|front|], newId);
  }

  lemma RotatingOk(c: Config, v: World, rid: Rid, r: Request, target: Option<Option<Subject>>, newId: Id, stamp: int, extra: Dict)
    requires RequestOk(c, v, rid, r) && InStep(c, v, rid, r) && Own(v, rid, newId) && r.st.id != Some(newId)
    ensures BusyOk(c, v, rid, RotateOp(c, r, target, newId, stamp, extra))
  {
    hide RotateCmds;
    RotateStores(c.clocks, r.st, if target.Some? then target.value else r.st.subject, newId, Record(r.session.data, stamp, stamp), extra);
  }

  // The acting request as it was, seen after an action that generates an id.
  lemma SeenAfter(c: Config, w: World, a: Act)
    requires Sound(c, w) && Possible(c, w, a) && (a.CallRotate? || a.Respond?)
    ensures var v, r := Advance(c, w, a), w.reqs[a.rid].r;
            && RequestOk(c, v, a.rid, r) && InStep(c, v, a.rid, r)
            && Own(v, a.rid, a.newId) && r.st.id != Some(a.newId)
  {
    hide PhaseAfter, Exec, JobsAfter, Embedding.JobOk, Embedding.PhaseOk, Inv, BusyOk, Lists;
    assert PhaseOk(c, w, a.rid, w.reqs[a.rid]);
  }

  lemma CallRotateOk(c: Config, w: World, a: Act)
    requires Sound(c, w) && Possible(c, w, a) && a.CallRotate?
    ensures var v := Advance(c, w, a); PhaseOk(c, v, a.rid, v.reqs[a.rid])
  {
    SeenAfter(c, w, a);
    hide Sound, RotateOp, BusyOk, SysAfter, JobsAfter;
    RotatingOk(c, Advance(c, w, a), a.rid, w.reqs[a.rid].r, a.target, a.newId, a.stamp, a.extra);
  }

  // A response that stores the session under `id`, and names it.
  lemma StoringOk(c: Config, w: World, rid: Rid, p: Phase, id: Id)
    requires p.Busy? && RequestOk(c, w, rid, p.r) && RequestOk(c, w, rid, p.after)
    requires p.after.st.id == Some(id) && p.after.session == p.r.session && StoresOnly(p.cmds, id, p.r.session.data)
    requires p.reply.Some? && p.reply.value.Names? && p.reply.value.id == id
    requires id in w.pinned ==> c.principalOf(p.r.session.data) == w.pinned[id]
    ensures BusyOk(c, w, rid, p)
  {
  }

  lemma PlanOk(c: Config, v: World, a: Act, r: Request)
    requires a.Respond? && RequestOk(c, v, a.rid, r) && InStep(c, v, a.rid, r) && Own(v, a.rid, a.newId)
    ensures PhaseOk(c, v, a.rid, RespondOp(c, r, a.status, a.newId, a.stamp, a.extra))
  {
    hide WriteCmds, RotateCmds, StoresOnly, JobsAfter, Embedding.JobOk;
    var p := RespondOp(c, r, a.status, a.newId, a.stamp, a.extra);
    if !Forgets(r) {
      var outcome := OutcomeOf(c, r, a.status);
      if outcome == Write || (outcome == CookieOnly && r.session.modified) {
        WriteStores(c, r, a.newId, a.stamp, a.extra);
        StoringOk(c, v, a.rid, p, p.reply.value.id);
      } else if outcome == Rotate {
        RotateStores(c.clocks, r.st, NonEmpty(c.subjectOf(r.session.data)), a.newId, Record(r.session.data, a.stamp, a.stamp), a.extra);
        StoringOk(c, v, a.rid, p, a.newId);
      }
    }
  }

  lemma RespondOk(c: Config, w: World, a: Act)
    requires Sound(c, w) && Possible(c, w, a) && a.Respond?
    ensures var v := Advance(c, w, a); PhaseOk(c, v, a.rid, v.reqs[a.rid])
  {
    SeenAfter(c, w, a);
    hide Sound, RespondOp, BusyOk, SysAfter, JobsAfter;
    PlanOk(c, Advance(c, w, a), a, w.reqs[a.rid].r);
  }

  // A load that finds a session finds a named one.
  lemma FoundIsNamed(c: Config, w: World, rid: Rid)
    requires Sound(c, w) && rid in w.reqs && w.reqs[rid].Reading?
    ensures Judge(w.reqs[rid].data, ReadTtl(w.sys.srv, w.reqs[rid].cookie)).Live? ==> w.reqs[rid].cookie in w.pinned
  {
    hide Embedding.PhaseOk, Embedding.JobOk, IndexInv, BusyOk;
    var p := w.reqs[rid];
    assert PhaseOk(c, w, rid, p);
    assert p.cookie in w.sys.srv.keys ==> KeyInv(c.clocks, w.sys, p.cookie);
  }

  // What the other actions make of a phase that is right.
  lemma TurnOk(c: Config, w: World, v: World, a: Act)
    requires Possible(c, w, a) && !Outside(a) && !a.Arrive? && !a.Send? && !a.CallRotate? && !a.Respond?
    requires Issues(w, a) || (PhaseOk(c, v, a.rid, w.reqs[a.rid]) && w.pinned == v.pinned)
    requires a.Read? ==> w.reqs[a.rid].cookie in w.pinned ==> Stored(c, w, w.reqs[a.rid].cookie, w.pinned[w.reqs[a.rid].cookie])
    requires a.AskTtl? ==> Judge(w.reqs[a.rid].data, ReadTtl(w.sys.srv, w.reqs[a.rid].cookie)).Live? ==> w.reqs[a.rid].cookie in w.pinned
    ensures PhaseOk(c, v, a.rid, PhaseAfter(c, w, a))
  {
    hide Cookied, Lists;
    if a.Application? { Sessions.UnmodifiedMeansUnchanged(w.reqs[a.rid].r.session, a.ops); }
  }

  lemma ArriveOk(c: Config, w: World, a: Act)
    requires Sound(c, w) && Possible(c, w, a) && a.Arrive?
    ensures var v := Advance(c, w, a); PhaseOk(c, v, a.rid, v.reqs[a.rid])
  {
    hide BusyOk, Embedding.PhaseOk, Embedding.JobOk, IndexInv, KeysInv, JobsAfter;
  }

  lemma OtherOwnPhase(c: Config, w: World, a: Act)
    requires Sound(c, w) && Possible(c, w, a) && !Outside(a)
    requires !a.Arrive? && !a.Send? && !a.CallRotate? && !a.Respond?
    ensures var v := Advance(c, w, a); PhaseOk(c, v, a.rid, v.reqs[a.rid])
  {
    hide SysAfter, CookieUntilAfter, BeganAfter, PhaseAfter, JobsAfter, BusyOk, Embedding.PhaseOk, Embedding.JobOk, Inv,
         PhaseOk, Quiet, Issues;
    var v := Advance(c, w, a);
    if !Issues(w, a) {
      LeavesQuiet(c, w, a, a.rid);
      PhaseFrame(c, w, v, a.rid, w.reqs[a.rid]);
    }
    if a.AskTtl? { FoundIsNamed(c, w, a.rid); }
    TurnOk(c, w, v, a);
  }

  lemma OwnPhase(c: Config, w: World, a: Act)
    requires Sound(c, w) && Possible(c, w, a) && !Outside(a)
    ensures var v := Advance(c, w, a); PhaseOk(c, v, a.rid, v.reqs[a.rid])
  {
    hide Advance, PhaseOk, Sound;
    match a {
      case CallRotate(_, _, _, _, _) => CallRotateOk(c, w, a);
      case Respond(_, _, _, _, _) => RespondOk(c, w, a);
      case Send(rid) => SendOk(c, w, rid);
      case Arrive(_, _) => ArriveOk(c, w, a);
      case _ => OtherOwnPhase(c, w, a);
    }
  }

  // Every action keeps the invariant.
  lemma ActKeepsInv(c: Config, w: World, a: Act)
    requires Sound(c, w) && Possible(c, w, a)
    ensures Sound(c, Advance(c, w, a))
  {
    hide PhaseOk, Quiet, Embedding.PhaseOk, Inv, SysAfter, OwnerAfter, PinnedAfter, PhaseAfter, JobsAfter,
         Embedding.JobOk;
    var v := Advance(c, w, a);
    Embedding.ActKeepsInv(c, w, a);
    PinnedKept(c, w, a);
    forall rid | rid in v.reqs ensures PhaseOk(c, v, rid, v.reqs[rid]) {
      if ByOther(a, rid) {
        LeavesQuiet(c, w, a, rid);
        PhaseFrame(c, w, v, rid, w.reqs[rid]);
      } else {
        OwnPhase(c, w, a);
      }
    }
  }

  lemma {:induction false} RunSound(c: Config, ws: seq<World>, acts: seq<Act>, i: nat)
    requires Embedding.Run(c, ws, acts) && i < |ws|
    ensures Sound(c, ws[i])
  {
    if i == 0 {
      StartInv(c.clocks);
    } else {
      RunSound(c, ws, acts, i - 1);
      hide Sound, Advance, Possible;
      ActKeepsInv(c, ws[i - 1], acts[i - 1]);
    }
  }

  // -- the theorem -----------------------------------------------------------

  lemma {:induction false} PinnedForGood(c: Config, ws: seq<World>, acts: seq<Act>, i: nat, j: nat, id: Id)
    requires Embedding.Run(c, ws, acts) && i <= j < |ws| && id in ws[i].pinned
    ensures id in ws[j].pinned && ws[j].pinned[id] == ws[i].pinned[id]
    decreases j - i
  {
    hide Possible, SysAfter, ReqsAfter, JobsAfter, Embedding.JobOk;
    if i == j {
    } else {
      PinnedForGood(c, ws, acts, i, j - 1, id);
    }
  }

  // From the first cookie that names an id, whatever any number of concurrent
  // requests do, every payload ever found under it has the principal of the
  // session that response was sent with.
  lemma OnePrincipal(c: Config, ws: seq<World>, acts: seq<Act>, i: nat, j: nat, id: Id)
    requires Embedding.Run(c, ws, acts) && i < j < |ws| && Issues(ws[i], acts[i]) && ws[i].reqs[acts[i].rid].reply.value.id == id
    ensures id in ws[j].sys.srv.keys ==>
              c.principalOf(ws[j].sys.srv.keys[id].data.data) == c.principalOf(ws[i].reqs[acts[i].rid].after.session.data)
  {
    RunSound(c, ws, acts, i);
    RunSound(c, ws, acts, j);
    assert PhaseOk(c, ws[i], acts[i].rid, ws[i].reqs[acts[i].rid]);
    assert ws[i + 1] == Advance(c, ws[i], acts[i]);
    PinnedForGood(c, ws, acts, i + 1, j, id);
  }
}
