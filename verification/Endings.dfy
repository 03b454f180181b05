// How sessions end in a run of requests: by rotation, which never leaves two
// identifiers behind, and by revocation, which nothing undoes.
module Endings {
  import opened Prelude
  import opened Payloads
  import opened SessionServer
  import opened Lifecycle
  import opened SessionOps
  import opened SessionStores
  import opened Middleware
  import opened Requests
  import opened Embedding

  // -- rotation --------------------------------------------------------------

  // A handler's own rotation, or the one a response performs, from a session
  // stored under `before` to the identifier it generates.
  predicate Rotates(c: Config, w: World, a: Act, before: Id) {
    && (a.CallRotate? || (a.Respond? && IsRunning(w, a.rid) && !Forgets(w.reqs[a.rid].r) && OutcomeOf(c, w.reqs[a.rid].r, a.status) == Rotate))
    && IsRunning(w, a.rid) && w.reqs[a.rid].r.st.id == Some(before)
  }

  predicate Sets(cmds: seq<Cmd>, id: Id) { exists i :: 0 <= i < |cmds| && cmds[i].Expire? && cmds[i].id == id }

  // The old identifier is dead by the time the new one's deadline is set.
  predicate Guarded(s: Sys, cmds: seq<Cmd>, before: Id, newId: Id) {
    Sets(cmds, newId) ==> cmds[0] == Del(before) || Dead(s, before)
  }

  ghost predicate OldGoesFirst(w: World, before: Id, newId: Id) {
    && before in w.sys.open && newId in w.owner
    && (newId in w.sys.born ==> Dead(w.sys, before))
    && forall rid :: rid in w.reqs && w.reqs[rid].Busy? ==> Guarded(w.sys, w.reqs[rid].cmds, before, newId)
  }

  lemma {:induction false} RunnableSetsItsOwn(k: Clocks, open: set<Id>, mine: set<Id>, cmds: seq<Cmd>, id: Id)
    requires Runnable(k, open, mine, cmds) && Sets(cmds, id)
    ensures id in mine
    decreases |cmds|
  {
    var i :| 0 <= i < |cmds| && cmds[i].Expire? && cmds[i].id == id;
    if i > 0 {
      assert cmds[1..][i - 1] == cmds[i];
      if cmds[0].Expire? { RunnableSetsItsOwn(k, open + {cmds[0].id}, mine - {cmds[0].id}, cmds[1..], id); }
      else { RunnableSetsItsOwn(k, open, mine, cmds[1..], id); }
    }
  }

  // The lists of new operations set the deadline of the new identifier only.
  predicate SetsOnly(cmds: seq<Cmd>, id: Id) { forall i :: 0 <= i < |cmds| && cmds[i].Expire? ==> cmds[i].id == id }

  lemma RotateSetsOnly(k: Clocks, st: State, subject: Option<Subject>, newId: Id, rec: Record, extra: Dict)
    ensures SetsOnly(RotateCmds(k, st, subject, newId, rec, extra), newId)
  {
  }

  lemma PlanSetsOnly(c: Config, r: Request, a: Act)
    requires a.Respond?
    ensures SetsOnly(RespondOp(c, r, a.status, a.newId, a.stamp, a.extra).cmds, a.newId)
  {
    hide RotateCmds, WriteCmds;
    RotateSetsOnly(c.clocks, r.st, NonEmpty(c.subjectOf(r.session.data)), a.newId, Record(r.session.data, a.stamp, a.stamp), a.extra);
    WriteSetsOnly(c, r, a.newId, a.stamp, a.extra);
  }

  lemma WriteSetsOnly(c: Config, r: Request, newId: Id, stamp: int, extra: Dict)
    ensures SetsOnly(WriteCmds(c, r, newId, stamp, extra), newId)
  {
  }

  lemma NewListsSet(c: Config, r: Request, a: Act, id: Id)
    requires a.Respond? ==> Sets(RespondOp(c, r, a.status, a.newId, a.stamp, a.extra).cmds, id)
    requires a.CallRotate? ==> Sets(RotateOp(c, r, a.target, a.newId, a.stamp, a.extra).cmds, id)
    requires a.CallRevoke? ==> Sets(RevokeOp(r, a.whom).cmds, id)
    requires a.Respond? || a.CallRotate? || a.CallRevoke?
    ensures !a.CallRevoke? && id == a.newId
  {
    if a.Respond? {
      hide RespondOp;
      PlanSetsOnly(c, r, a);
    } else if a.CallRotate? {
      hide RotateCmds;
      RotateSetsOnly(c.clocks, r.st, if a.target.Some? then a.target.value else r.st.subject, a.newId,
                     Record(r.session.data, a.stamp, a.stamp), a.extra);
    }
  }

  lemma StartsGuarded(c: Config, w: World, a: Act, before: Id)
    requires c.clocks.Valid() && WorldInv(c, w) && Possible(c, w, a) && Rotates(c, w, a, before)
    ensures OldGoesFirst(Advance(c, w, a), before, a.newId)
  {
    var v := Advance(c, w, a);
    assert PhaseOk(c.clocks, w.sys.open, Mine(w, a.rid), w.reqs[a.rid]);
    assert v.reqs[a.rid].cmds[0] == Del(before);
    hide PhaseAfter, KeysInv, IndexInv, JobOk, Dead, Runnable;
    forall rid | rid in v.reqs && v.reqs[rid].Busy? ensures Guarded(v.sys, v.reqs[rid].cmds, before, a.newId) {
      if rid != a.rid && Sets(v.reqs[rid].cmds, a.newId) {
        assert PhaseOk(c.clocks, w.sys.open, Mine(w, rid), w.reqs[rid]);
        RunnableSetsItsOwn(c.clocks, w.sys.open, Mine(w, rid), w.reqs[rid].cmds, a.newId);
        assert false;
      }
    }
  }

  // What an action does to the deadlines set, and to the dead.
  lemma DeadlinesSet(c: Config, w: World, a: Act, id: Id)
    requires c.clocks.Valid() && WorldInv(c, w) && Possible(c, w, a)
    ensures var s, t := w.sys, SysAfter(c, w, a);
            && s.open <= t.open
            && (Dead(s, id) ==> Dead(t, id))
            && (a.Send? && w.reqs[a.rid].cmds[0] == Del(id) && id in s.open ==> Dead(t, id))
            && (id in t.born && id !in s.born ==> a.Send? && w.reqs[a.rid].cmds[0].Expire? && w.reqs[a.rid].cmds[0].id == id)
  {
    hide PhaseOk, JobOk, Enabled, KeysInv, IndexInv;
    ActIsEnabled(c, w, a);
    if a.Proceed? { JobCmds(w.sys, w.jobs[a.job]); }
    var e := EventOf(c, w, a);
    if e.Some? && Dead(w.sys, id) { DeadStays(c.clocks, w.sys, e.value, id); }
  }

  lemma StaysGuarded(c: Config, w: World, a: Act, before: Id, newId: Id)
    requires c.clocks.Valid() && WorldInv(c, w) && Possible(c, w, a) && OldGoesFirst(w, before, newId)
    ensures OldGoesFirst(Advance(c, w, a), before, newId)
  {
    hide WorldInv, SysAfter, PhaseAfter, Dead, JobsAfter, PinnedAfter, CookieUntilAfter;
    var v := Advance(c, w, a);
    DeadlinesSet(c, w, a, before);
    DeadlinesSet(c, w, a, newId);
    if newId in v.sys.born && newId !in w.sys.born {
      assert Guarded(w.sys, w.reqs[a.rid].cmds, before, newId);
      assert Sets(w.reqs[a.rid].cmds, newId);
    }
    forall rid | rid in v.reqs && v.reqs[rid].Busy? ensures Guarded(v.sys, v.reqs[rid].cmds, before, newId) {
      if Outside(a) || rid != a.rid {
        assert Guarded(w.sys, w.reqs[rid].cmds, before, newId);
      } else {
        OwnListGuarded(c, w, a, before, newId);
      }
    }
  }

  lemma OwnListGuarded(c: Config, w: World, a: Act, before: Id, newId: Id)
    requires c.clocks.Valid() && WorldInv(c, w) && Possible(c, w, a) && OldGoesFirst(w, before, newId)
    requires !Outside(a) && Advance(c, w, a).reqs[a.rid].Busy?
    ensures Guarded(SysAfter(c, w, a), Advance(c, w, a).reqs[a.rid].cmds, before, newId)
  {
    hide WorldInv, SysAfter, Dead, RespondOp, RotateOp, RevokeOp;
    var cmds := Advance(c, w, a).reqs[a.rid].cmds;
    DeadlinesSet(c, w, a, before);
    if Sets(cmds, newId) {
      if a.Send? {
        var sent := w.reqs[a.rid].cmds;
        assert Guarded(w.sys, sent, before, newId);
        var i :| 0 <= i < |cmds| && cmds[i].Expire? && cmds[i].id == newId;
        assert sent[i + 1] == cmds[i] && Sets(sent, newId);
      } else {
        NewListsSet(c, w.reqs[a.rid].r, a, newId);
        assert false;
      }
    }
  }

  lemma {:induction false} RotationGuarded(c: Config, ws: seq<World>, acts: seq<Act>, i: nat, j: nat, before: Id)
    requires Run(c, ws, acts) && i < j < |ws| && Rotates(c, ws[i], acts[i], before)
    ensures OldGoesFirst(ws[j], before, acts[i].newId)
    decreases j
  {
    RunInv(c, ws, acts, j - 1);
    if i == j - 1 {
      StartsGuarded(c, ws[i], acts[i], before);
    } else {
      RotationGuarded(c, ws, acts, i, j - 1, before);
      hide WorldInv, OldGoesFirst, Advance, Possible;
      StaysGuarded(c, ws[j - 1], acts[j - 1], before, acts[i].newId);
    }
  }

  // Whatever else goes on, and wherever a rotation stops, no state of the run
  // has both the old and the new identifier load; and once the new one exists
  // the old one is over for good.
  lemma RotationNeverLeavesTwo(c: Config, ws: seq<World>, acts: seq<Act>, i: nat, j: nat, before: Id)
    requires Run(c, ws, acts) && i < j < |ws| && Rotates(c, ws[i], acts[i], before)
    ensures !(Loadable(ws[j].sys.srv, before) && Loadable(ws[j].sys.srv, acts[i].newId))
    ensures acts[i].newId in ws[j].sys.born ==> forall m :: j <= m < |ws| ==> !Loadable(ws[m].sys.srv, before)
  {
    RotationGuarded(c, ws, acts, i, j, before);
    RunInv(c, ws, acts, j);
    LoadableIsBounded(c.clocks, ws[j].sys, acts[i].newId);
    assert Loadable(ws[j].sys.srv, acts[i].newId) ==> KeyInv(c.clocks, ws[j].sys, acts[i].newId);
    if acts[i].newId in ws[j].sys.born {
      forall m | j <= m < |ws| ensures !Loadable(ws[m].sys.srv, before) { RequestsNeverRevive(c, ws, acts, j, m, before); }
    }
  }

  // -- revocation ------------------------------------------------------------

  // The commands a job has still to send.
  function LeftOf(w: World, job: JobId): seq<Cmd> {
    if job in w.jobs && !w.jobs[job].Verifying? then w.jobs[job].cmds else []
  }

  // Two accounts of one job, an earlier and a later.
  predicate SameJob(j: Job, k: Job) {
    match j
    case RevokingAll(subject, ids, _) => k.RevokingAll? && k.subject == subject && k.ids == ids
    case RevokingOne(subject, id, accepted, _) => k.RevokingOne? && k.subject == subject && k.id == id && k.accepted == accepted
    case _ => true
  }

  lemma JobStep(w: World, a: Act, job: JobId)
    requires a.Check? || a.Proceed?
    requires a.Check? ==> a.job in w.jobs && w.jobs[a.job].Verifying? && w.jobs[a.job].todo != []
    requires a.Proceed? ==> a.job in w.jobs && !w.jobs[a.job].Verifying? && w.jobs[a.job].cmds != []
    ensures SameJob(w.jobs[a.job], JobAfter(w, a))
  {
    hide Checked;
  }

  lemma JobsGoOn(c: Config, w: World, a: Act, job: JobId)
    requires Possible(c, w, a) && job in w.jobs
    ensures job in Advance(c, w, a).jobs && SameJob(w.jobs[job], Advance(c, w, a).jobs[job])
  {
    hide SysAfter, ReqsAfter, OwnerAfter, PinnedAfter, CookieUntilAfter, BeganAfter, JobAfter;
    if a.Check? || a.Proceed? { JobStep(w, a, job); }
  }

  lemma {:induction false} JobGoesOn(c: Config, ws: seq<World>, acts: seq<Act>, i: nat, j: nat, job: JobId)
    requires Run(c, ws, acts) && i <= j < |ws| && job in ws[i].jobs
    ensures job in ws[j].jobs && SameJob(ws[i].jobs[job], ws[j].jobs[job])
    decreases j - i
  {
    if i == j {
    } else {
      JobGoesOn(c, ws, acts, i, j - 1, job);
      hide Possible, Advance;
      JobsGoOn(c, ws[j - 1], acts[j - 1], job);
    }
  }

  // In what is left of a revocation of all, a session that is not there, or
  // any once one command at most is, has had its delete sent.
  lemma DeletesGoInOrder(ids: seq<Id>, subject: Subject, left: seq<Cmd>, n: nat)
    requires n < |ids| && |left| <= |RevokeAllCmds(ids, subject)|
    requires left == RevokeAllCmds(ids, subject)[|RevokeAllCmds(ids, subject)| - |left|..]
    requires Del(ids[n]) !in left || |left| <= 1
    ensures n < |RevokeAllCmds(ids, subject)| - |left|
  {
    var all := RevokeAllCmds(ids, subject);
    var sent := |all| - |left|;
    assert forall m :: sent <= m < |all| ==> left[m - sent] == all[m];
    assert all[n] == Del(ids[n]);
  }

  lemma JobStarted(c: Config, ws: seq<World>, acts: seq<Act>, i: nat, j: nat)
    requires Run(c, ws, acts) && i < j < |ws| && (acts[i].RevokeAll? || acts[i].RevokeById?)
    ensures acts[i].job in ws[j].jobs && SameJob(JobAfter(ws[i], acts[i]), ws[j].jobs[acts[i].job])
    ensures JobOk(ws[j].sys, ws[j].jobs[acts[i].job])
  {
    hide SysAfter, ReqsAfter, OwnerAfter, PinnedAfter, CookieUntilAfter, BeganAfter, JobAfter, JobOk, Inv, PhaseOk;
    assert ws[i + 1] == Advance(c, ws[i], acts[i]) && ws[i + 1].jobs[acts[i].job] == JobAfter(ws[i], acts[i]);
    JobGoesOn(c, ws, acts, i + 1, j, acts[i].job);
    RunInv(c, ws, acts, j);
  }

  lemma DeletedByJob(s: Sys, j: Job, n: nat)
    requires JobOk(s, j) && j.RevokingAll? && n < |j.ids| && (Del(j.ids[n]) !in j.cmds || |j.cmds| <= 1)
    ensures Dead(s, j.ids[n])
  {
    hide Dead;
    DeletesGoInOrder(j.ids, j.subject, j.cmds, n);
  }

  // revoke_all, from its reading of the index: a session that was listed then
  // is dead for good from the moment its delete is sent, whichever requests
  // hold it and go on to save, touch or re-index it.  So all of them are once
  // only the clearing is left to do.
  lemma RevokeAllEnds(c: Config, ws: seq<World>, acts: seq<Act>, i: nat, j: nat, id: Id)
    requires Run(c, ws, acts) && i < j < |ws| && acts[i].RevokeAll? && id in ws[i].sys.srv.Members(acts[i].subject)
    ensures Del(id) !in LeftOf(ws[j], acts[i].job) || |LeftOf(ws[j], acts[i].job)| <= 1 ==>
              forall m :: j <= m < |ws| ==> !Loadable(ws[m].sys.srv, id)
  {
    hide JobOk, RevokeAllCmds, Dead, Loadable;
    JobStarted(c, ws, acts, i, j);
    ListsIt(c, ws[i], acts[i], id);
    var n :| 0 <= n < |acts[i].ids| && acts[i].ids[n] == id;
    var left := LeftOf(ws[j], acts[i].job);
    if Del(id) !in left || |left| <= 1 {
      DeletedByJob(ws[j].sys, ws[j].jobs[acts[i].job], n);
      forall m | j <= m < |ws| ensures !Loadable(ws[m].sys.srv, id) { RequestsNeverRevive(c, ws, acts, j, m, id); }
    }
  }

  lemma ListsIt(c: Config, w: World, a: Act, id: Id)
    requires Possible(c, w, a) && a.RevokeAll? && id in w.sys.srv.Members(a.subject)
    ensures exists n :: 0 <= n < |a.ids| && a.ids[n] == id
  {
    assert id in a.ids;
  }

  // revoke_id, from its reading of the index: refused, it sends nothing at
  // all; accepted, the session is dead for good once its delete is sent.
  lemma RevokeByIdEnds(c: Config, ws: seq<World>, acts: seq<Act>, i: nat, j: nat)
    requires Run(c, ws, acts) && i < j < |ws| && acts[i].RevokeById?
    ensures var accepted := IsValidId(acts[i].id) && acts[i].id in ws[i].sys.srv.Members(acts[i].subject);
            if !accepted then LeftOf(ws[j], acts[i].job) == []
            else Del(acts[i].id) !in LeftOf(ws[j], acts[i].job) ==> forall m :: j <= m < |ws| ==> !Loadable(ws[m].sys.srv, acts[i].id)
  {
    var job, id := acts[i].job, acts[i].id;
    JobStarted(c, ws, acts, i, j);
    var left := LeftOf(ws[j], job);
    if ws[j].jobs[job].accepted && Del(id) !in left {
      assert left != [Del(id), IndexDel(acts[i].subject, id)] by { assert Del(id) in [Del(id), IndexDel(acts[i].subject, id)]; }
      forall m | j <= m < |ws| ensures !Loadable(ws[m].sys.srv, id) { RequestsNeverRevive(c, ws, acts, j, m, id); }
    }
  }

  // Listing takes an entry out of the index only of a session no later state
  // will load.
  lemma PruningIsSafe(c: Config, ws: seq<World>, acts: seq<Act>, i: nat, j: nat)
    requires Run(c, ws, acts) && i < |acts| && acts[i].Proceed? && acts[i].job in ws[i].jobs && ws[i].jobs[acts[i].job].Pruning?
    requires i <= j < |ws|
    ensures var cmd := LeftOf(ws[i], acts[i].job)[0]; cmd.IndexDel? && !Loadable(ws[j].sys.srv, cmd.id)
  {
    RunInv(c, ws, acts, i);
    hide WorldInv, LeftOf, Dead;
    PrunesTheDead(c, ws[i], acts[i]);
    RequestsNeverRevive(c, ws, acts, i, j, LeftOf(ws[i], acts[i].job)[0].id);
  }

  lemma PrunesTheDead(c: Config, w: World, a: Act)
    requires WorldInv(c, w) && Possible(c, w, a) && a.Proceed? && w.jobs[a.job].Pruning?
    ensures LeftOf(w, a.job) != [] && LeftOf(w, a.job)[0].IndexDel? && Dead(w.sys, LeftOf(w, a.job)[0].id)
  {
    hide Inv, PhaseOk, Dead;
    assert JobOk(w.sys, w.jobs[a.job]);
  }
}
