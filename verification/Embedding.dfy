// The middleware only ever does what the life cycle allows: every run of
// concurrent requests is a run of the life cycle, so what no interleaving can
// do, no requests can.
module Embedding {
  import opened Prelude
  import opened Payloads
  import opened SessionServer
  import opened Lifecycle
  import opened SessionOps
  import opened SessionStores
  import opened Middleware
  import opened Requests
  import Sessions

  // The identifiers a request has generated whose creation is not complete.
  function Mine(w: World, rid: Rid): set<Id> { set id | id in w.sys.building && id in w.owner && w.owner[id] == rid }

  // The commands can be sent in order: each is enabled when its turn comes.
  predicate Runnable(k: Clocks, open: set<Id>, mine: set<Id>, cmds: seq<Cmd>)
    decreases |cmds|
  {
    cmds == [] ||
    (CmdEnabled(k, open, mine, cmds[0]) &&
     if cmds[0].Expire? then Runnable(k, open + {cmds[0].id}, mine - {cmds[0].id}, cmds[1..])
     else Runnable(k, open, mine, cmds[1..]))
  }

  // What is open once they have been.
  function OpenAfter(open: set<Id>, cmds: seq<Cmd>): set<Id> {
    open + set i | 0 <= i < |cmds| && cmds[i].Expire? :: cmds[i].id
  }

  predicate KnownTo(open: set<Id>, r: Request) {
    && (r.st.id.Some? ==> r.st.id.value in open)
    && (r.loadedId.Some? ==> r.loadedId.value in open)
    && (r.unloadedId.Some? ==> r.unloadedId.value in open)
  }

  predicate PhaseOk(k: Clocks, open: set<Id>, mine: set<Id>, p: Phase) {
    match p
    case Arrived(cookie) => cookie in open
    case Reading(cookie, _) => cookie in open
    case Tidying(cookie) => cookie in open
    case Running(r) => KnownTo(open, r)
    case Busy(r, cmds, after, reply) =>
      KnownTo(open, r) && Runnable(k, open, mine, cmds) && KnownTo(OpenAfter(open, cmds), after)
      && (reply.Some? && reply.value.Names? ==> Some(reply.value.id) == after.st.id)
    case Done => true
  }

  // What a job has still to send it may, and what it has deleted, or judged
  // dead, is dead.
  predicate JobOk(s: Sys, j: Job) {
    match j
    case RevokingAll(subject, ids, cmds) =>
      var all := RevokeAllCmds(ids, subject);
      && (forall i :: 0 <= i < |ids| ==> ids[i] in s.open)
      && |cmds| <= |all| && cmds == all[|all| - |cmds|..]
      && forall i :: 0 <= i < |ids| && i < |all| - |cmds| ==> Dead(s, ids[i])
    case RevokingOne(subject, id, accepted, cmds) =>
      if !accepted then cmds == []
      else
        && id in s.open
        && (cmds == [Del(id), IndexDel(subject, id)] || ((cmds == [IndexDel(subject, id)] || cmds == []) && Dead(s, id)))
    case Verifying(_, todo, field, dead) =>
      && todo != []
      && (forall i :: 0 <= i < |todo| ==> todo[i] in s.open)
      && (forall i :: 0 <= i < |dead| ==> Dead(s, dead[i]))
      && (field == Some(false) ==> Dead(s, todo[0]))
    case Pruning(_, cmds) => forall i :: 0 <= i < |cmds| ==> cmds[i].IndexDel? && Dead(s, cmds[i].id)
  }

  ghost predicate WorldInv(c: Config, w: World) {
    && Inv(c.clocks, w.sys)
    && (forall job :: job in w.jobs ==> JobOk(w.sys, w.jobs[job]))
    && w.pinned.Keys <= w.sys.open
    && (forall rid :: rid in w.reqs ==> PhaseOk(c.clocks, w.sys.open, Mine(w, rid), w.reqs[rid]))
  }

  // -- command lists ---------------------------------------------------------

  lemma {:induction false} RunnableGrows(k: Clocks, open: set<Id>, open': set<Id>, mine: set<Id>, cmds: seq<Cmd>)
    requires Runnable(k, open, mine, cmds) && open <= open'
    ensures Runnable(k, open', mine, cmds)
    decreases |cmds|
  {
    if cmds == [] {
    } else {
      if cmds[0].Expire? { RunnableGrows(k, open + {cmds[0].id}, open' + {cmds[0].id}, mine - {cmds[0].id}, cmds[1..]); }
      else { RunnableGrows(k, open, open', mine, cmds[1..]); }
    }
  }

  lemma {:induction false} RunnableAppends(k: Clocks, open: set<Id>, mine: set<Id>, a: seq<Cmd>, b: seq<Cmd>)
    requires Runnable(k, open, mine, a) && Runnable(k, OpenAfter(open, a), mine - ExpiredIn(a), b)
    ensures Runnable(k, open, mine, a + b)
    decreases |a|
  {
    if a == [] {
      assert a + b == b && OpenAfter(open, a) == open && mine - ExpiredIn(a) == mine;
    } else {
      assert (a + b)[1..] == a[1..] + b;
      assert a == [a[0]] + a[1..];
      if a[0].Expire? {
        assert OpenAfter(open + {a[0].id}, a[1..]) == OpenAfter(open, a);
        assert mine - {a[0].id} - ExpiredIn(a[1..]) == mine - ExpiredIn(a);
        RunnableAppends(k, open + {a[0].id}, mine - {a[0].id}, a[1..], b);
      } else {
        assert OpenAfter(open, a[1..]) == OpenAfter(open, a);
        assert ExpiredIn(a[1..]) == ExpiredIn(a);
        RunnableAppends(k, open, mine, a[1..], b);
      }
    }
  }

  function ExpiredIn(cmds: seq<Cmd>): set<Id> { set i | 0 <= i < |cmds| && cmds[i].Expire? :: cmds[i].id }

  lemma OpenAfterAppends(open: set<Id>, a: seq<Cmd>, b: seq<Cmd>)
    ensures OpenAfter(open, a + b) == OpenAfter(open, a) + OpenAfter(open, b)
  {
    forall id | id in OpenAfter(open, a) + OpenAfter(open, b) ensures id in OpenAfter(open, a + b) {
      if i :| 0 <= i < |a| && a[i].Expire? && a[i].id == id { assert (a + b)[i] == a[i]; }
      else if i :| 0 <= i < |b| && b[i].Expire? && b[i].id == id { assert (a + b)[|a| + i] == b[i]; }
    }
  }

  // Commands that complete no creation leave what is open alone.
  lemma OpenAfterPlain(open: set<Id>, cmds: seq<Cmd>)
    requires forall i :: 0 <= i < |cmds| ==> !cmds[i].Expire?
    ensures OpenAfter(open, cmds) == open && ExpiredIn(cmds) == {}
  {
  }

  lemma FrontRunnable(k: Clocks, open: set<Id>, mine: set<Id>, id: Id, subject: Option<Subject>)
    requires id in open
    ensures Runnable(k, open, mine, [Del(id)] + DropCmds(subject, id))
    ensures OpenAfter(open, [Del(id)] + DropCmds(subject, id)) == open && ExpiredIn([Del(id)] + DropCmds(subject, id)) == {}
  {
    var cmds := [Del(id)] + DropCmds(subject, id);
    OpenAfterPlain(open, cmds);
    assert cmds[1..] == DropCmds(subject, id);
    if Truthy(subject) { assert cmds[1..][1..] == []; }
  }

  lemma NoneRunnable(k: Clocks, open: set<Id>, mine: set<Id>)
    ensures Runnable(k, open, mine, []) && OpenAfter(open, []) == open
  {
    OpenAfterPlain(open, []);
  }

  lemma OneRunnable(k: Clocks, open: set<Id>, mine: set<Id>, cmd: Cmd)
    requires CmdEnabled(k, open, mine, cmd) && !cmd.Expire?
    ensures Runnable(k, open, mine, [cmd]) && OpenAfter(open, [cmd]) == open
  {
    assert [cmd][1..] == [];
    OpenAfterPlain(open, [cmd]);
  }

  lemma RevokeRunnable(k: Clocks, open: set<Id>, mine: set<Id>, r: Request, whom: Option<Subject>)
    requires KnownTo(open, r)
    ensures Runnable(k, open, mine, RevokeCmds(r.st, whom)) && OpenAfter(open, RevokeCmds(r.st, whom)) == open
  {
    NoneRunnable(k, open, mine);
    if r.st.id.Some? { FrontRunnable(k, open, mine, r.st.id.value, if whom.Some? then whom else r.st.subject); }
  }

  // A creation, or a save, and then the entry.
  lemma CreateRunnable(k: Clocks, open: set<Id>, mine: set<Id>, id: Id, rec: Record, tail: seq<Cmd>)
    requires id in mine
    requires tail == [] || (|tail| == 1 && tail[0].IndexSet? && tail[0].id == id && tail[0].ttl > 0)
    ensures var cmds := CreateCmds(k, id, rec) + tail;
            Runnable(k, open, mine, cmds) && OpenAfter(open, cmds) == open + {id}
  {
    var cmds := CreateCmds(k, id, rec) + tail;
    assert cmds[1..] == [Expire(id, k.absolute)] + tail;
    assert cmds[1..][1..] == tail;
    if tail != [] { assert tail[1..] == []; }
    assert Runnable(k, open + {id}, mine - {id}, tail);
    assert Runnable(k, open, mine, cmds[1..]);
    assert cmds[1].Expire? && cmds[1].id == id;
  }

  lemma SaveRunnable(k: Clocks, open: set<Id>, mine: set<Id>, id: Id, rec: Record, tail: seq<Cmd>)
    requires id in open
    requires tail == [] || (|tail| == 1 && tail[0].IndexSet? && tail[0].id == id && tail[0].ttl > 0)
    ensures var cmds := SaveCmds(k, id, rec) + tail;
            Runnable(k, open, mine, cmds) && OpenAfter(open, cmds) == open
  {
    var cmds := SaveCmds(k, id, rec) + tail;
    OpenAfterPlain(open, cmds);
    assert cmds[1..] == tail;
    if tail != [] { assert tail[1..] == []; }
  }

  lemma RotateRunnable(k: Clocks, open: set<Id>, mine: set<Id>, st: State, subject: Option<Subject>, newId: Id,
                       rec: Record, extra: Dict)
    requires k.Valid() && newId in mine && (st.id.Some? ==> st.id.value in open)
    ensures var cmds := RotateCmds(k, st, subject, newId, rec, extra);
            Runnable(k, open, mine, cmds) && OpenAfter(open, cmds) == open + {newId}
  {
    var tail := if subject.Some? then IndexCmds(subject.value, newId, rec, extra, k.absolute) else [];
    var back := CreateCmds(k, newId, rec) + tail;
    CreateRunnable(k, open, mine, newId, rec, tail);
    var cmds := RotateCmds(k, st, subject, newId, rec, extra);
    if st.id.Some? {
      var front := [Del(st.id.value)] + DropCmds(st.subject, st.id.value);
      FrontRunnable(k, open, mine, st.id.value, st.subject);
      assert mine - {} == mine;
      RunnableAppends(k, open, mine, front, back);
      OpenAfterAppends(open, front, back);
      assert cmds == front + back;
    } else {
      assert cmds == back;
    }
  }

  lemma WriteRunnable(c: Config, open: set<Id>, mine: set<Id>, r: Request, newId: Id, stamp: int, extra: Dict)
    requires c.clocks.Valid() && newId in mine && KnownTo(open, r)
    ensures var cmds := WriteCmds(c, r, newId, stamp, extra);
            && Runnable(c.clocks, open, mine, cmds)
            && Written(c, r, newId, stamp).id.Some? && Written(c, r, newId, stamp).id.value in OpenAfter(open, cmds)
            && open <= OpenAfter(open, cmds)
  {
    var record := WriteRecord(r, stamp);
    var st := Written(c, r, newId, stamp);
    var tail := if Truthy(st.subject) then IndexCmds(st.subject.value, st.id.value, record, extra, EntryTime(c, st)) else [];
    if r.st.id == None {
      CreateRunnable(c.clocks, open, mine, newId, record, tail);
    } else {
      SaveRunnable(c.clocks, open, mine, r.st.id.value, record, tail);
    }
  }

  lemma RespondOk(c: Config, open: set<Id>, mine: set<Id>, r: Request, status: int, newId: Id, stamp: int, extra: Dict)
    requires c.clocks.Valid() && newId in mine && KnownTo(open, r)
    ensures PhaseOk(c.clocks, open, mine, RespondOp(c, r, status, newId, stamp, extra))
  {
    hide WriteCmds, RotateCmds, RevokeCmds, Runnable, OpenAfter;
    var k := c.clocks;
    NoneRunnable(k, open, mine);
    if Forgets(r) {
      OneRunnable(k, open, mine, Del(r.unloadedId.value));
    } else {
      match OutcomeOf(c, r, status) {
        case SignOut => RevokeRunnable(k, open, mine, r, None);
        case CookieOnly => if r.session.modified { WriteRunnable(c, open, mine, r, newId, stamp, extra); }
        case Rotate =>
          RotateRunnable(k, open, mine, r.st, NonEmpty(c.subjectOf(r.session.data)), newId,
                         Record(r.session.data, stamp, stamp), extra);
        case Write => WriteRunnable(c, open, mine, r, newId, stamp, extra);
        case Touch => OneRunnable(k, open, mine, HExpire(r.loadedId.value, k.idle));
        case _ =>
      }
    }
  }

  lemma RotateOk(c: Config, open: set<Id>, mine: set<Id>, r: Request, subject: Option<Option<Subject>>, newId: Id, stamp: int, extra: Dict)
    requires c.clocks.Valid() && newId in mine && KnownTo(open, r)
    ensures PhaseOk(c.clocks, open, mine, RotateOp(c, r, subject, newId, stamp, extra))
  {
    hide RotateCmds, Runnable, OpenAfter;
    RotateRunnable(c.clocks, open, mine, r.st, if subject.Some? then subject.value else r.st.subject, newId,
                   Record(r.session.data, stamp, stamp), extra);
  }

  lemma RevokeOk(k: Clocks, open: set<Id>, mine: set<Id>, r: Request, whom: Option<Subject>)
    requires KnownTo(open, r)
    ensures PhaseOk(k, open, mine, RevokeOp(r, whom))
  {
    hide RevokeCmds, Runnable, OpenAfter;
    RevokeRunnable(k, open, mine, r, whom);
  }

  // -- one action ------------------------------------------------------------

  // A phase stays right while others act: more ids may open, and nobody else
  // touches the creations in hand.
  lemma PhaseFrame(k: Clocks, open: set<Id>, open': set<Id>, mine: set<Id>, p: Phase)
    requires PhaseOk(k, open, mine, p) && open <= open'
    ensures PhaseOk(k, open', mine, p)
  {
    if p.Busy? { RunnableGrows(k, open, open', mine, p.cmds); }
  }

  // The commands of jobs delete, and take out of the index, and nothing else.
  lemma JobCmds(s: Sys, j: Job)
    requires JobOk(s, j) && !j.Verifying? && j.cmds != []
    ensures var cmd := j.cmds[0];
            && (cmd.Del? || cmd.IndexDel? || cmd.IndexClear?)
            && (cmd.Del? ==> cmd.id in s.open)
            // an entry is dropped of a dead session only
            && (cmd.IndexDel? ==> Dead(s, cmd.id))
            // an index is cleared once all it was read to hold is dead
            && (cmd.IndexClear? ==>
                  j.RevokingAll? && cmd.subject == j.subject && forall i :: 0 <= i < |j.ids| ==> Dead(s, j.ids[i]))
  {
  }

  // What an action asks for, the life cycle allows.
  lemma ActIsEnabled(c: Config, w: World, a: Act)
    requires c.clocks.Valid() && WorldInv(c, w) && Possible(c, w, a)
    ensures EventOf(c, w, a).Some? ==> Enabled(c.clocks, w.sys, EventOf(c, w, a).value)
  {
    hide JobOk, Dead, KeysInv, IndexInv;
    if a.Send? || a.Read? || a.Tidy? { assert PhaseOk(c.clocks, w.sys.open, Mine(w, a.rid), w.reqs[a.rid]); }
    if a.Proceed? { JobCmds(w.sys, w.jobs[a.job]); }
  }

  lemma JobFrame(s: Sys, t: Sys, j: Job)
    requires JobOk(s, j) && s.open <= t.open && forall id :: Dead(s, id) ==> Dead(t, id)
    ensures JobOk(t, j)
  {
    hide Dead;
  }

  lemma StartOk(c: Config, w: World, a: Act)
    requires WorldInv(c, w) && Possible(c, w, a) && (a.RevokeAll? || a.RevokeById? || a.ListSubject?)
    ensures JobOk(w.sys, JobAfter(w, a))
  {
    hide PhaseOk, KeysInv, Dead;
    if !a.RevokeById? {
      forall i | 0 <= i < |a.ids| ensures a.ids[i] in w.sys.open { assert a.ids[i] in w.sys.srv.Members(a.subject); }
    }
  }

  // A negative answer means that the session is dead.
  lemma CheckOk(k: Clocks, s: Sys, j: Job)
    requires Inv(k, s) && JobOk(s, j) && j.Verifying?
    ensures JobOk(s, Checked(s.srv, j))
  {
    LoadableIsBounded(k, s, j.todo[0]);
  }

  // A job with its first command gone, once what that deletes is dead.
  lemma JobShrinks(t: Sys, j: Job)
    requires JobOk(t, j) && !j.Verifying? && j.cmds != [] && (j.cmds[0].Del? ==> Dead(t, j.cmds[0].id))
    ensures JobOk(t, j.(cmds := j.cmds[1..]))
  {
    hide Dead, RevokeAllCmds;
    match j {
      case RevokingAll(subject, ids, cmds) =>
        var all := RevokeAllCmds(ids, subject);
        assert cmds[0] == all[|all| - |cmds|];
        assert cmds[1..] == all[|all| - |cmds[1..]|..];
      case RevokingOne(_, _, _, cmds) => assert |cmds| == 1 ==> cmds[1..] == [];
      case _ =>
    }
  }

  // The command sent ends its session, or takes an entry away.
  lemma ProceedOk(k: Clocks, s: Sys, j: Job)
    requires k.Valid() && Inv(k, s) && JobOk(s, j) && !j.Verifying? && j.cmds != []
    ensures JobOk(Lifecycle.Next(s, Do(j.cmds[0])), j.(cmds := j.cmds[1..]))
  {
    hide JobOk, Dead, Inv, Loadable;
    var t := Lifecycle.Next(s, Do(j.cmds[0]));
    JobCmds(s, j);
    forall id | Dead(s, id) ensures Dead(t, id) { DeadStays(k, s, Do(j.cmds[0]), id); }
    JobFrame(s, t, j);
    if j.cmds[0].Del? { DeleteEnds(s, j.cmds[0].id); }
    JobShrinks(t, j);
  }

  lemma DeleteEnds(s: Sys, id: Id)
    requires id in s.open
    ensures Dead(Lifecycle.Next(s, Do(Del(id))), id)
  {
  }

  lemma JobsKept(c: Config, w: World, a: Act)
    requires c.clocks.Valid() && WorldInv(c, w) && Possible(c, w, a)
    ensures forall job :: job in JobsAfter(c, w, a) ==> JobOk(SysAfter(c, w, a), JobsAfter(c, w, a)[job])
  {
    hide PhaseOk, JobOk, KeysInv, IndexInv, JobAfter, Dead, Checked;
    var t := SysAfter(c, w, a);
    ActIsEnabled(c, w, a);
    forall id | Dead(w.sys, id) ensures Dead(t, id) {
      if EventOf(c, w, a).Some? { DeadStays(c.clocks, w.sys, EventOf(c, w, a).value, id); }
    }
    OpenOnlyGrows(c, w, a);
    forall job | job in JobsAfter(c, w, a) ensures JobOk(t, JobsAfter(c, w, a)[job]) {
      if job in w.jobs { JobFrame(w.sys, t, w.jobs[job]); }
      JobSteps(c, w, a);
    }
  }

  lemma JobSteps(c: Config, w: World, a: Act)
    requires c.clocks.Valid() && WorldInv(c, w) && Possible(c, w, a)
    ensures a.RevokeAll? || a.RevokeById? || a.ListSubject? || a.Check? || a.Proceed? ==> JobOk(SysAfter(c, w, a), JobAfter(w, a))
  {
    hide PhaseOk, JobOk, Checked, Lifecycle.Next;
    if a.Check? { CheckOk(c.clocks, w.sys, w.jobs[a.job]); }
    else if a.Proceed? { ProceedOk(c.clocks, w.sys, w.jobs[a.job]); }
    else if a.RevokeAll? || a.RevokeById? || a.ListSubject? { StartOk(c, w, a); }
  }

  // An id stops being built when its own request sets its deadline.
  lemma BuildingAfter(c: Config, w: World, a: Act, id: Id)
    requires c.clocks.Valid() && WorldInv(c, w) && Possible(c, w, a)
    ensures id in SysAfter(c, w, a).building <==>
            || (id in w.sys.building && !(a.Send? && w.reqs[a.rid].cmds[0].Expire? && w.reqs[a.rid].cmds[0].id == id))
            || ((a.CallRotate? || a.Respond?) && a.newId == id)
  {
    hide PhaseOk, JobOk, Dead, Inv, Exec;
    if a.Proceed? { JobCmds(w.sys, w.jobs[a.job]); }
  }

  lemma MineElsewhere(c: Config, w: World, a: Act, rid: Rid)
    requires c.clocks.Valid() && WorldInv(c, w) && Possible(c, w, a) && rid in w.reqs
    requires Outside(a) || a.rid != rid
    ensures Mine(Advance(c, w, a), rid) == Mine(w, rid)
  {
    if a.Send? { assert PhaseOk(c.clocks, w.sys.open, Mine(w, a.rid), w.reqs[a.rid]); }
    var v := Advance(c, w, a);
    hide JobOk, Inv, SysAfter, ReqsAfter, JobsAfter, PinnedAfter, CookieUntilAfter;
    forall id ensures id in Mine(v, rid) <==> id in Mine(w, rid) { BuildingAfter(c, w, a, id); }
  }

  lemma OpenOnlyGrows(c: Config, w: World, a: Act)
    requires Possible(c, w, a)
    ensures w.sys.open <= Advance(c, w, a).sys.open
  {
    hide OwnerAfter, PinnedAfter, CookieUntilAfter, BeganAfter, ReqsAfter, JobsAfter, Exec, Tick, Possible;
  }

  // What an action but a sending makes of the phase it finds.
  lemma TurnOk(c: Config, w: World, a: Act, before: set<Id>, mine: set<Id>)
    requires c.clocks.Valid() && Possible(c, w, a) && !Outside(a) && !a.Arrive? && !a.Send?
    requires PhaseOk(c.clocks, w.sys.open, before, w.reqs[a.rid])
    requires a.CallRotate? || a.Respond? ==> a.newId in mine
    ensures PhaseOk(c.clocks, w.sys.open, mine, PhaseAfter(c, w, a))
  {
    hide RotateOp, RevokeOp, RespondOp, Runnable, Fresh, Judge;
    match a {
      case CallRotate(rid, subject, newId, stamp, extra) =>
        RotateOk(c, w.sys.open, mine, w.reqs[rid].r, subject, newId, stamp, extra);
      case CallRevoke(rid, whom) => RevokeOk(c.clocks, w.sys.open, mine, w.reqs[rid].r, whom);
      case Respond(rid, status, newId, stamp, extra) => RespondOk(c, w.sys.open, mine, w.reqs[rid].r, status, newId, stamp, extra);
      case Return(rid) => assert OpenAfter(w.sys.open, []) == w.sys.open;
      case Fail(rid, kept) => if kept { OpenAfterPlain(w.sys.open, w.reqs[rid].cmds); }
      case _ =>
    }
  }

  lemma NewIsMine(c: Config, w: World, a: Act)
    requires Possible(c, w, a) && (a.CallRotate? || a.Respond?)
    ensures a.newId in Mine(Advance(c, w, a), a.rid)
  {
    hide PhaseAfter;
  }

  lemma OwnPhase(c: Config, w: World, a: Act)
    requires c.clocks.Valid() && WorldInv(c, w) && Possible(c, w, a) && !Outside(a)
    ensures var v := Advance(c, w, a);
            PhaseOk(c.clocks, v.sys.open, Mine(v, a.rid), v.reqs[a.rid])
  {
    hide PhaseOk, Mine, PhaseAfter, Inv, JobOk, OwnerAfter, PinnedAfter, CookieUntilAfter, BeganAfter, JobsAfter;
    var v := Advance(c, w, a);
    if a.Send? { SendOk(c, w, a.rid); }
    else if a.Arrive? { ArriveOk(c, w, a); }
    else {
      if a.CallRotate? || a.Respond? { NewIsMine(c, w, a); }
      TurnOk(c, w, a, Mine(w, a.rid), Mine(v, a.rid));
      OpenOnlyGrows(c, w, a);
      PhaseFrame(c.clocks, w.sys.open, v.sys.open, Mine(v, a.rid), PhaseAfter(c, w, a));
    }
  }

  lemma ArriveOk(c: Config, w: World, a: Act)
    requires Possible(c, w, a) && a.Arrive?
    ensures var v := Advance(c, w, a);
            PhaseOk(c.clocks, v.sys.open, Mine(v, a.rid), v.reqs[a.rid])
  {
  }

  // A list with its first command gone, once that has been sent.
  lemma SentOk(k: Clocks, open: set<Id>, mine: set<Id>, p: Phase)
    requires PhaseOk(k, open, mine, p) && p.Busy? && p.cmds != []
    ensures var cmd := p.cmds[0];
            && CmdEnabled(k, open, mine, cmd)
            && PhaseOk(k, if cmd.Expire? then open + {cmd.id} else open, if cmd.Expire? then mine - {cmd.id} else mine,
                       p.(cmds := p.cmds[1..]))
  {
    var cmd := p.cmds[0];
    assert p.cmds == [cmd] + p.cmds[1..];
    OpenAfterAppends(open, [cmd], p.cmds[1..]);
    if cmd.Expire? {
      assert [cmd][0].Expire?;
      assert OpenAfter(open + {cmd.id}, p.cmds[1..]) == OpenAfter(open, p.cmds);
    } else {
      OpenAfterPlain(open, [cmd]);
      assert OpenAfter(open, p.cmds[1..]) == OpenAfter(open, p.cmds);
    }
  }

  lemma SendOk(c: Config, w: World, rid: Rid)
    requires c.clocks.Valid() && WorldInv(c, w) && Possible(c, w, Send(rid))
    ensures var v := Advance(c, w, Send(rid));
            PhaseOk(c.clocks, v.sys.open, Mine(v, rid), v.reqs[rid])
  {
    hide PhaseOk, Inv, JobOk, Exec, PinnedAfter, CookieUntilAfter, BeganAfter, JobsAfter;
    var v, cmd := Advance(c, w, Send(rid)), w.reqs[rid].cmds[0];
    SentOk(c.clocks, w.sys.open, Mine(w, rid), w.reqs[rid]);
    assert v.sys.open == if cmd.Expire? then w.sys.open + {cmd.id} else w.sys.open;
    assert Mine(v, rid) == if cmd.Expire? then Mine(w, rid) - {cmd.id} else Mine(w, rid);
  }

  // Every action keeps the invariant.
  lemma {:induction false} ActKeepsInv(c: Config, w: World, a: Act)
    requires c.clocks.Valid() && WorldInv(c, w) && Possible(c, w, a)
    ensures WorldInv(c, Advance(c, w, a))
  {
    var v := Advance(c, w, a);
    ActIsEnabled(c, w, a);
    JobsKept(c, w, a);
    if EventOf(c, w, a).Some? { StepInv(c.clocks, w.sys, EventOf(c, w, a).value); }
    OpenOnlyGrows(c, w, a);
    forall rid | rid in v.reqs ensures PhaseOk(c.clocks, v.sys.open, Mine(v, rid), v.reqs[rid]) {
      if Outside(a) || a.rid != rid {
        MineElsewhere(c, w, a, rid);
        PhaseFrame(c.clocks, w.sys.open, v.sys.open, Mine(w, rid), w.reqs[rid]);
      } else {
        OwnPhase(c, w, a);
      }
    }
    if a.Return? {
      assert OpenAfter(w.sys.open, []) == w.sys.open;
      assert PhaseOk(c.clocks, w.sys.open, Mine(w, a.rid), w.reqs[a.rid]);
    }
  }

  // -- runs ------------------------------------------------------------------

  // acts[i] takes ws[i] to ws[i + 1]; everything starts on an empty server.
  ghost predicate Run(c: Config, ws: seq<World>, acts: seq<Act>) {
    && c.clocks.Valid()
    && |ws| == |acts| + 1
    && ws[0] == NEW_WORLD
    && forall i :: 0 <= i < |acts| ==> Possible(c, ws[i], acts[i]) && ws[i + 1] == Advance(c, ws[i], acts[i])
  }

  lemma {:induction false} RunInv(c: Config, ws: seq<World>, acts: seq<Act>, i: nat)
    requires Run(c, ws, acts) && i < |ws|
    ensures WorldInv(c, ws[i])
  {
    if i == 0 {
      StartInv(c.clocks);
    } else {
      RunInv(c, ws, acts, i - 1);
      ActKeepsInv(c, ws[i - 1], acts[i - 1]);
    }
  }

  // The run up to ws[n], seen from the server: ws[i] is at position at[i] of a
  // trace, and what an action asks for is the event there.
  ghost predicate SeenAs(c: Config, ws: seq<World>, acts: seq<Act>, n: nat, ss: seq<Sys>, es: seq<Event>, at: seq<nat>)
    requires Run(c, ws, acts) && n < |ws|
  {
    && Trace(c.clocks, ss, es)
    && |at| == n + 1 && at[n] == |ss| - 1
    && (forall i :: 0 <= i <= n ==> at[i] < |ss| && ss[at[i]] == ws[i].sys)
    && (forall i, j :: 0 <= i <= j <= n ==> at[i] <= at[j])
    && (forall i :: 0 <= i < n && EventOf(c, ws[i], acts[i]).Some? ==>
          at[i] < |es| && es[at[i]] == EventOf(c, ws[i], acts[i]).value && at[i + 1] == at[i] + 1)
  }

  lemma SeenOneMore(c: Config, ws: seq<World>, acts: seq<Act>, n: nat, ss: seq<Sys>, es: seq<Event>, at: seq<nat>, e: Event)
    requires Run(c, ws, acts) && n + 1 < |ws| && SeenAs(c, ws, acts, n, ss, es, at)
    requires EventOf(c, ws[n], acts[n]) == Some(e) && Enabled(c.clocks, ws[n].sys, e)
    ensures SeenAs(c, ws, acts, n + 1, ss + [ws[n + 1].sys], es + [e], at + [|ss|])
  {
    hide Possible, EventOf, Enabled, Lifecycle.Next, ReqsAfter, PinnedAfter, CookieUntilAfter, OwnerAfter, BeganAfter;
    assert ws[n + 1] == Advance(c, ws[n], acts[n]);
  }

  lemma SeenTheSame(c: Config, ws: seq<World>, acts: seq<Act>, n: nat, ss: seq<Sys>, es: seq<Event>, at: seq<nat>)
    requires Run(c, ws, acts) && n + 1 < |ws| && SeenAs(c, ws, acts, n, ss, es, at)
    requires EventOf(c, ws[n], acts[n]) == None
    ensures SeenAs(c, ws, acts, n + 1, ss, es, at + [|ss| - 1])
  {
    hide Possible, EventOf, Enabled, Lifecycle.Next, ReqsAfter, PinnedAfter, CookieUntilAfter, OwnerAfter, BeganAfter;
    assert ws[n + 1] == Advance(c, ws[n], acts[n]);
  }

  // A run of requests, seen from the server, is a run of the life cycle: it
  // passes through the same states, in order.
  lemma {:induction false} RunIsTrace(c: Config, ws: seq<World>, acts: seq<Act>, n: nat)
    returns (ss: seq<Sys>, es: seq<Event>, at: seq<nat>)
    requires Run(c, ws, acts) && n < |ws|
    ensures SeenAs(c, ws, acts, n, ss, es, at)
  {
    if n == 0 {
      ss, es, at := [START], [], [0];
    } else {
      ss, es, at := RunIsTrace(c, ws, acts, n - 1);
      RunInv(c, ws, acts, n - 1);
      ActIsEnabled(c, ws[n - 1], acts[n - 1]);
      hide SeenAs, WorldInv, EventOf, Enabled, Advance;
      var e := EventOf(c, ws[n - 1], acts[n - 1]);
      if e.Some? {
        SeenOneMore(c, ws, acts, n - 1, ss, es, at, e.value);
        ss, es, at := ss + [ws[n].sys], es + [e.value], at + [|ss|];
      } else {
        SeenTheSame(c, ws, acts, n - 1, ss, es, at);
        at := at + [|ss| - 1];
      }
    }
  }

  // So whatever the requests in flight do, a session that is over stays over.
  lemma RequestsNeverRevive(c: Config, ws: seq<World>, acts: seq<Act>, i: nat, j: nat, id: Id)
    requires Run(c, ws, acts) && i <= j < |ws| && Dead(ws[i].sys, id)
    ensures !Loadable(ws[j].sys.srv, id)
  {
    var ss, es, at := RunIsTrace(c, ws, acts, j);
    DeathIsPermanent(c.clocks, ss, es, at[i], at[j], id);
  }

  // And a request that signs out, or is signed out, ends its session: once the
  // delete it sent has reached the server, no later load finds the session.
  lemma SentDeleteIsFinal(c: Config, ws: seq<World>, acts: seq<Act>, i: nat, j: nat, id: Id)
    requires Run(c, ws, acts) && i < j < |ws| && EventOf(c, ws[i], acts[i]) == Some(Do(Del(id)))
    ensures !Loadable(ws[j].sys.srv, id)
  {
    var ss, es, at := RunIsTrace(c, ws, acts, j);
    assert at[i + 1] <= at[j];
    DeletedStaysDead(c.clocks, ss, es, at[i], at[j], id);
  }
}
