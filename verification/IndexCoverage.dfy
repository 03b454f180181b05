// The reverse index lists exactly the sessions there are: every live session
// whose data has a subject is listed under that subject and under no other,
// for at least as long as it lives.
module IndexCoverage {
  import opened Prelude
  import opened Payloads
  import opened SessionServer
  import opened Lifecycle
  import opened SessionOps
  import opened Middleware
  import opened Requests
  import opened IndexSteps
  import Embedding
  import Principals

  // The default seams make the subject a function of the principal.
  function DefaultSubjectFor(str: Value -> string): Principal -> Option<Subject> {
    p => if p == None then None else FirstSubject(p.value, str)
  }

  lemma DefaultsAreListed(clocks: Clocks, keys: seq<string>, str: Value -> string, always: bool, refresh: bool, cookieOnly: bool, failClosed: bool)
    requires clocks.Valid()
    ensures Listed(Config(clocks, d => DefaultPrincipal(keys, d), d => DefaultSubject(keys, str, d), always, refresh, cookieOnly, failClosed),
                   DefaultSubjectFor(str)).Valid()
  {
    forall d ensures DefaultSubject(keys, str, d) == DefaultSubjectFor(str)(DefaultPrincipal(keys, d)) {
      if DefaultPrincipal(keys, d) == None {
        NoValuesNoSubject(ValuesOf(keys, d), str);
      }
    }
  }

  // -- runs ------------------------------------------------------------------

  ghost predicate OrdinaryRun(l: Listed, ws: seq<World>, acts: seq<Act>) {
    l.Valid() && Embedding.Run(l.c, ws, acts) && forall i :: 0 <= i < |acts| ==> Ordinary(ws[i], acts[i])
  }

  lemma StartCovered(l: Listed)
    ensures CoverInv(l, NEW_WORLD)
  {
  }

  lemma {:induction false} RunReady(l: Listed, ws: seq<World>, acts: seq<Act>, i: nat)
    requires OrdinaryRun(l, ws, acts) && i < |ws|
    ensures Principals.Sound(l.c, ws[i]) && CoverInv(l, ws[i])
  {
    hide Principals.Sound, CoverInv, Advance, Possible, Ordinary;
    Principals.RunSound(l.c, ws, acts, i);
    if i == 0 {
      StartCovered(l);
    } else {
      RunReady(l, ws, acts, i - 1);
      ActKeepsCover(l, ws[i - 1], acts[i - 1]);
    }
  }

  // The request that created the session has not sent its response yet.
  predicate Responding(w: World, id: Id) { id in w.owner && w.owner[id] in w.reqs && w.reqs[w.owner[id]].Busy? }

  // At every point of every ordinary run, a live session whose data has a
  // subject is listed under it until its deadline at least, once the request
  // that created it is done; and nothing live is listed under any subject that
  // is not its data's.
  lemma IndexIsExact(l: Listed, ws: seq<World>, acts: seq<Act>, j: nat, id: Id)
    requires OrdinaryRun(l, ws, acts) && j < |ws| && Loadable(ws[j].sys.srv, id)
    ensures var srv := ws[j].sys.srv;
            var subject := l.c.subjectOf(srv.keys[id].data.data);
            && (Truthy(subject) && !Responding(ws[j], id) ==>
                  id in srv.Members(subject.value) && srv.keys[id].deadline.value <= srv.Members(subject.value)[id].until)
            && (forall other :: id in srv.Members(other) ==> Truthy(subject) && other == subject.value)
  {
    hide Embedding.PhaseOk, PhaseOk, Principals.PrincipalInv, Embedding.Run, Fate, JobsAfter, Embedding.JobOk;
    RunReady(l, ws, acts, j);
    LoadableIsBounded(l.c.clocks, ws[j].sys, id);
    assert KeyInv(l.c.clocks, ws[j].sys, id) && Covered(l, ws[j], id);
  }

  // An entry is written to last until the session's deadline, and past it by
  // no more than the time its request has been going.
  lemma EntryFollowsKey(l: Listed, ws: seq<World>, acts: seq<Act>, j: nat, rid: Rid)
    requires OrdinaryRun(l, ws, acts) && j < |acts| && acts[j] == Send(rid) && ws[j].reqs[rid].cmds[0].IndexSet?
    ensures var cmd := ws[j].reqs[rid].cmds[0];
            var members := ws[j + 1].sys.srv.Members(cmd.subject);
            && cmd.id in members && cmd.id in ws[j].sys.born && rid in ws[j].began
            && var deadline := ws[j].sys.born[cmd.id] + l.c.clocks.absolute;
               deadline <= members[cmd.id].until <= deadline + (ws[j].sys.srv.now - ws[j].began[rid])
  {
    hide PhaseOk, Principals.PrincipalInv, Embedding.WorldInv, Fate, Lifecycle.Next, ReqsAfter, PinnedAfter, EventOf,
         JobsAfter;
    RunReady(l, ws, acts, j);
    var cmd := ws[j].reqs[rid].cmds[0];
    EntryStep(l, ws[j], acts[j], cmd.subject, cmd.id);
  }

  // So a session ended by id is one of the subject's own: an accepted
  // revocation never ends a stranger's.
  lemma RevokeByIdEndsItsOwn(l: Listed, ws: seq<World>, acts: seq<Act>, j: nat)
    requires OrdinaryRun(l, ws, acts) && j < |acts| && acts[j].RevokeById?
    requires RevokeIdCmds(ws[j].sys.srv, acts[j].id, acts[j].subject) != []
    ensures var srv := ws[j].sys.srv;
            acts[j].id in srv.keys ==> l.c.subjectOf(srv.keys[acts[j].id].data.data) == Some(acts[j].subject)
  {
    hide PhaseOk, Principals.Sound, Fate, Covered;
    RunReady(l, ws, acts, j);
    assert Subjected(l, ws[j], acts[j].id) == Some(acts[j].subject);
  }
}
