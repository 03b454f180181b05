// Rotation, revocation and listing while other requests save, touch, load,
// re-index and delete the same sessions between any two of their commands.
module Interleavings {
  import opened Prelude
  import opened Payloads
  import opened SessionServer
  import opened Lifecycle
  import opened SessionOps

  // The first |at| commands of an operation reached the server, in order, at
  // these positions of the run; it may have stopped there.
  ghost predicate Performs(es: seq<Event>, at: seq<nat>, cmds: seq<Cmd>) {
    && |at| <= |cmds|
    && (forall i :: 0 <= i < |at| ==> at[i] < |es| && es[at[i]] == Do(cmds[i]))
    && (forall i, j :: 0 <= i < j < |at| ==> at[i] < at[j])
  }

  // -- rotation --------------------------------------------------------------

  // Where the deadline is set in a rotation's list.
  function ExpireIndex(st: State): nat {
    if st.id == None then 1 else 2 + |DropCmds(st.subject, st.id.value)|
  }

  lemma ExpireAt(k: Clocks, st: State, subject: Option<Subject>, newId: Id, rec: Record, extra: Dict)
    ensures var cmds := RotateCmds(k, st, subject, newId, rec, extra);
            ExpireIndex(st) < |cmds| && cmds[ExpireIndex(st)] == Expire(newId, k.absolute)
  {
    var front := if st.id.Some? then [Del(st.id.value)] + DropCmds(st.subject, st.id.value) else [];
    assert ExpireIndex(st) == |front| + 1;
  }

  // A rotation that got as far as setting the new deadline has ended the old
  // identifier for good and started a full absolute clock.
  lemma RotationEndsTheOld(k: Clocks, ss: seq<Sys>, es: seq<Event>, at: seq<nat>, st: State, subject: Option<Subject>,
                           newId: Id, rec: Record, extra: Dict, j: nat)
    requires Trace(k, ss, es) && j < |ss|
    requires Performs(es, at, RotateCmds(k, st, subject, newId, rec, extra))
    requires ExpireIndex(st) < |at| && at[ExpireIndex(st)] < j
    ensures st.id.Some? ==> !Loadable(ss[j].srv, st.id.value)
    ensures Loadable(ss[j].srv, newId) ==>
              ss[j].srv.keys[newId].deadline == Some(ss[at[ExpireIndex(st)]].srv.now + k.absolute)
  {
    var cmds := RotateCmds(k, st, subject, newId, rec, extra);
    ExpireAt(k, st, subject, newId, rec, extra);
    if st.id.Some? {
      assert cmds[0] == Del(st.id.value);
      assert at[0] < at[ExpireIndex(st)];
      DeletedStaysDead(k, ss, es, at[0], j, st.id.value);
    }
    var e := at[ExpireIndex(st)];
    assert ss[e + 1] == Next(ss[e], es[e]);
    DeadlineIsFinal(k, ss, es, e + 1, j, newId);
  }

  // -- revocation ------------------------------------------------------------

  // However a session in hand is revoked, once the first command of it has
  // reached the server no load finds the session again.
  lemma RevokeIsFinal(k: Clocks, ss: seq<Sys>, es: seq<Event>, at: seq<nat>, st: State, subject: Option<Subject>, j: nat)
    requires Trace(k, ss, es) && j < |ss| && st.id.Some?
    requires Performs(es, at, RevokeCmds(st, subject)) && at != [] && at[0] < j
    ensures !Loadable(ss[j].srv, st.id.value)
  {
    assert RevokeCmds(st, subject)[0] == Del(st.id.value);
    DeletedStaysDead(k, ss, es, at[0], j, st.id.value);
  }

  // One ended by id was in the subject's index when the request read it; and
  // once the first command has reached the server no load finds it.
  lemma RevokeIdIsFinal(k: Clocks, ss: seq<Sys>, es: seq<Event>, read: nat, at: seq<nat>, subject: Subject, id: string, j: nat)
    requires Trace(k, ss, es) && read < |ss| && j < |ss|
    requires Performs(es, at, RevokeIdCmds(ss[read].srv, id, subject)) && at != [] && at[0] < j
    ensures id in ss[read].srv.Members(subject) && !Loadable(ss[j].srv, id)
  {
    assert es[at[0]] == Do(Del(id));
    DeletedStaysDead(k, ss, es, at[0], j, id);
  }

  // Stopped after any of its commands, revoke_all has ended for good the
  // sessions it got to; and with the last delete sent, every session that was
  // in the index when it was read, whoever still saves, touches or re-indexes
  // it.
  lemma RevokeAllIsFinal(k: Clocks, ss: seq<Sys>, es: seq<Event>, read: nat, at: seq<nat>, subject: Subject, ids: seq<Id>, j: nat)
    requires Trace(k, ss, es) && read < |ss| && j < |ss|
    requires Lists(ids, ss[read].srv.Members(subject).Keys)
    requires Performs(es, at, RevokeAllCmds(ids, subject))
    ensures forall i :: 0 <= i < |at| && i < |ids| && at[i] < j ==> !Loadable(ss[j].srv, ids[i])
    ensures |ids| <= |at| && (forall i :: 0 <= i < |ids| ==> at[i] < j) ==>
              forall id :: id in ss[read].srv.Members(subject) ==> !Loadable(ss[j].srv, id)
  {
    forall i | 0 <= i < |at| && i < |ids| && at[i] < j ensures !Loadable(ss[j].srv, ids[i]) {
      assert es[at[i]] == Do(Del(ids[i]));
      DeletedStaysDead(k, ss, es, at[i], j, ids[i]);
    }
    if |ids| <= |at| && forall i :: 0 <= i < |ids| ==> at[i] < j {
      forall id | id in ss[read].srv.Members(subject) ensures !Loadable(ss[j].srv, id) {
        assert id in ids;
        var i :| 0 <= i < |ids| && ids[i] == id;
      }
    }
  }

  // So if nothing was added to the index since it was read, the clearing drops
  // no entry of a session that lives.
  lemma ClearingForgetsOnlyTheDead(k: Clocks, ss: seq<Sys>, es: seq<Event>, read: nat, at: seq<nat>, subject: Subject, ids: seq<Id>)
    requires Trace(k, ss, es) && read < |ss|
    requires Lists(ids, ss[read].srv.Members(subject).Keys) && ids != []
    requires Performs(es, at, RevokeAllCmds(ids, subject)) && |at| == |ids| + 1
    ensures var clear := at[|ids|];
            ss[clear].srv.Members(subject).Keys <= ss[read].srv.Members(subject).Keys ==>
              forall id :: id in ss[clear].srv.Members(subject) ==> Dead(ss[clear], id)
  {
    var clear := at[|ids|];
    TraceInv(k, ss, es, clear);
    RevokeAllIsFinal(k, ss, es, read, at, subject, ids, clear);
    if ss[clear].srv.Members(subject).Keys <= ss[read].srv.Members(subject).Keys {
      forall id | id in ss[clear].srv.Members(subject) ensures Dead(ss[clear], id) {
        assert id in ss[clear].srv.Members(subject).Keys;
      }
    }
  }

  // -- listing ---------------------------------------------------------------

  // The verification of one candidate: HTTL on the field at h, TTL at t.
  predicate SaysAlive(ss: seq<Sys>, h: nat, t: nat, id: Id)
    requires h < |ss| && t < |ss|
  {
    FieldHasTime(ss[h].srv, id) && KeyHasTime(ss[t].srv, id)
  }

  // For a member read from the index, the verdict is exact at the moment its
  // deadline was read; and a member judged dead is never loaded from then on,
  // so dropping its entry loses nothing that lives or ever will.
  lemma ListingIsExactAndPruningSafe(k: Clocks, ss: seq<Sys>, es: seq<Event>, read: nat, h: nat, t: nat, subject: Subject, id: Id)
    requires Trace(k, ss, es) && read <= h <= t < |ss|
    requires id in ss[read].srv.Members(subject)
    ensures SaysAlive(ss, h, t, id) <==> Loadable(ss[t].srv, id)
    ensures !SaysAlive(ss, h, t, id) ==> forall j :: t <= j < |ss| ==> !Loadable(ss[j].srv, id)
  {
    TraceInv(k, ss, es, read);
    OpenGrows(k, ss, es, read, h, id);
    OpenGrows(k, ss, es, read, t, id);
    TraceInv(k, ss, es, h);
    TraceInv(k, ss, es, t);
    LoadableIsBounded(k, ss[h], id);
    LoadableIsBounded(k, ss[t], id);
    if !SaysAlive(ss, h, t, id) {
      if !FieldHasTime(ss[h].srv, id) { DeathIsPermanent(k, ss, es, h, t, id); }
      forall j | t <= j < |ss| ensures !Loadable(ss[j].srv, id) { DeathIsPermanent(k, ss, es, t, j, id); }
    }
  }

  // -- age -------------------------------------------------------------------

  // What a request's state holds after a load: the payload was read at a, the
  // deadline at b.
  function LoadedState(st: State, id: Id, remaining: nat): State { st.(id := Some(id), remaining := Some(remaining)) }

  // The age of a loaded session is the time since its deadline was set, by
  // the server's clock.
  lemma AgeIsElapsedTime(k: Clocks, ss: seq<Sys>, es: seq<Event>, a: nat, b: nat, id: Id, st: State) returns (c: nat)
    requires Trace(k, ss, es) && a <= b < |ss| && id in ss[a].open
    requires Judge(ReadData(ss[a].srv, id), ReadTtl(ss[b].srv, id)).Live?
    ensures c < b && es[c] == Do(Expire(id, k.absolute))
    ensures var remaining := Judge(ReadData(ss[a].srv, id), ReadTtl(ss[b].srv, id)).remaining;
            IssuedAgo(k.absolute, LoadedState(st, id, remaining)) == Some(ss[b].srv.now - ss[c].srv.now)
  {
    LoadDecides(k, ss, es, a, b, id);
    c := LoadableIsBorn(k, ss, es, b, id);
    BornIsFixed(k, ss, es, b, b, id);
    TraceInv(k, ss, es, b);
  }

  // Over two loads of one id the age grows by exactly the time between them,
  // whatever was saved or touched meanwhile.
  lemma AgeNeverDecreases(k: Clocks, ss: seq<Sys>, es: seq<Event>, a: nat, b: nat, a': nat, b': nat, id: Id, st: State, st': State)
    requires Trace(k, ss, es) && a <= b <= b' < |ss| && a' <= b' && id in ss[a].open && id in ss[a'].open
    requires Judge(ReadData(ss[a].srv, id), ReadTtl(ss[b].srv, id)).Live?
    requires Judge(ReadData(ss[a'].srv, id), ReadTtl(ss[b'].srv, id)).Live?
    ensures var age := IssuedAgo(k.absolute, LoadedState(st, id, Judge(ReadData(ss[a].srv, id), ReadTtl(ss[b].srv, id)).remaining));
            var age' := IssuedAgo(k.absolute, LoadedState(st', id, Judge(ReadData(ss[a'].srv, id), ReadTtl(ss[b'].srv, id)).remaining));
            age.Some? && age'.Some? && age'.value - age.value == ss[b'].srv.now - ss[b].srv.now >= 0
  {
    LoadDecides(k, ss, es, a, b, id);
    LoadDecides(k, ss, es, a', b', id);
    BornIsFixed(k, ss, es, b, b', id);
    TraceInv(k, ss, es, b);
    TraceInv(k, ss, es, b');
  }
}
