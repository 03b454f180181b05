// The session store over Redis: each method sends its commands and updates the
// request's record, and leaves the server exactly where its command list does.
module SessionStores {
  import opened Prelude
  import opened Payloads
  import opened SessionServer
  import opened Lifecycle
  import opened SessionOps
  import opened Sessions

  // A connection to the server.
  class Redis {
    var server: Server

    constructor ()
      ensures server == EMPTY_SERVER
    {
      server := EMPTY_SERVER;
    }

    method Send(c: Cmd)
      modifies this
      ensures server == Exec(c, old(server))
    {
      server := Exec(c, server);
    }

    // DEL, with its reply: how many keys there were.
    method Remove(id: Id) returns (n: nat)
      modifies this
      ensures server == Exec(Del(id), old(server))
      ensures n == if id in old(server).keys then 1 else 0
    {
      n := if id in server.keys then 1 else 0;
      server := Exec(Del(id), server);
    }

    // The field names of a subject's index, in the server's order.
    method Members(subject: Subject) returns (ids: seq<Id>)
      ensures Lists(ids, server.Members(subject).Keys)
    {
      ids := [];
      var todo := server.Members(subject).Keys;
      while todo != {}
        invariant Lists(ids, server.Members(subject).Keys - todo) && todo <= server.Members(subject).Keys
        decreases |todo|
      {
        var id :| id in todo;
        ids := ids + [id];
        todo := todo - {id};
      }
    }
  }

  // What the middleware owns for one request, beside the data.
  class SessionState {
    const data: Session
    var sessionId: Option<Id>
    var subject: Option<Subject>
    var created: Option<int>
    var absoluteRemaining: Option<nat>
    var revoked: bool
    var rotated: bool

    constructor (data: Session)
      ensures this.data == data && Now() == FRESH
    {
      this.data := data;
      sessionId, subject, created, absoluteRemaining, revoked, rotated := None, None, None, None, false, false;
    }

    function Now(): State
      reads this
    {
      State(sessionId, subject, created, absoluteRemaining, revoked, rotated)
    }
  }

  datatype Loaded = Loaded(record: Record, remaining: nat)

  datatype Info = Info(id: Id, about: Descriptor)

  lemma DelFirst(ids: seq<Id>, s: Server)
    requires ids != []
    ensures ExecAll(DelCmds(ids), s) == ExecAll(DelCmds(ids[1..]), Exec(Del(ids[0]), s))
  {
    assert DelCmds(ids)[1..] == DelCmds(ids[1..]);
  }

  // How many keys a run of deletes finds.
  function Present(ids: seq<Id>, s: Server): nat
    decreases |ids|
  {
    if ids == [] then 0 else (if ids[0] in s.keys then 1 else 0) + Present(ids[1..], Exec(Del(ids[0]), s))
  }

  function SetOf(ids: seq<Id>): set<Id> { set id | id in ids }

  lemma SetOfSteps(ids: seq<Id>)
    ensures ids == [] ==> SetOf(ids) == {}
    ensures ids != [] ==> SetOf(ids) == {ids[0]} + SetOf(ids[1..])
  {
    if ids != [] { assert ids == [ids[0]] + ids[1..]; }
  }

  lemma {:induction false} DelAll(ids: seq<Id>, s: Server)
    ensures ExecAll(DelCmds(ids), s) == s.(keys := s.keys - SetOf(ids))
    decreases |ids|
  {
    if ids == [] {
      assert s.keys - SetOf(ids) == s.keys;
    } else {
      DelFirst(ids, s);
      DelAll(ids[1..], Exec(Del(ids[0]), s));
      assert ids == [ids[0]] + ids[1..];
      assert s.keys - {ids[0]} - SetOf(ids[1..]) == s.keys - SetOf(ids);
    }
  }

  lemma {:induction false} PresentCounts(ids: seq<Id>, s: Server)
    ensures Present(ids, s) == |SetOf(ids) * s.keys.Keys|
    decreases |ids|
  {
    hide SetOf, Exec;
    SetOfSteps(ids);
    if ids == [] {
      assert {} * s.keys.Keys == {};
    } else {
      DelTakes(ids[0], s);
      PresentCounts(ids[1..], Exec(Del(ids[0]), s));
      CountOneMore(ids[0], SetOf(ids[1..]), s.keys);
    }
  }

  lemma DelTakes(id: Id, s: Server)
    ensures Exec(Del(id), s).keys == s.keys - {id}
  {
  }

  lemma CountOneMore(id: Id, rest: set<Id>, keys: map<Id, Hash>)
    ensures |({id} + rest) * keys.Keys| == (if id in keys then 1 else 0) + |rest * (keys - {id}).Keys|
  {
    var all := ({id} + rest) * keys.Keys;
    assert rest * (keys - {id}).Keys == all - {id};
  }

  // A read that refreshes the idle clock, or a plain one.
  function ReadCmds(k: Clocks, id: Id, refresh: bool): seq<Cmd> {
    if refresh then [HGetEx(id, k.idle)] else []
  }

  // The commands of a load that found what it found: after the read, a key
  // that is not a session is removed.
  function LoadCmds(k: Clocks, s: Server, id: Id, refresh: bool): seq<Cmd> {
    ReadCmds(k, id, refresh)
    + (if Judge(ReadData(s, id), ReadTtl(s, id)).HalfDead? then [Del(id)] else [])
  }

  lemma LoadRuns(k: Clocks, s: Server, id: Id, refresh: bool)
    ensures var s1 := if refresh then Exec(HGetEx(id, k.idle), s) else s;
            ExecAll(LoadCmds(k, s, id, refresh), s) ==
            if Judge(ReadData(s, id), ReadTtl(s, id)).HalfDead? then Exec(Del(id), s1) else s1
  {
    ExecAllAppends(ReadCmds(k, id, refresh),
                   if Judge(ReadData(s, id), ReadTtl(s, id)).HalfDead? then [Del(id)] else [], s);
  }

  // Both clocks of a session have time left: the rule of a load, asked of the
  // server without reading the payload.
  predicate Alive(s: Server, id: Id) { FieldHasTime(s, id) && KeyHasTime(s, id) }

  lemma AliveIsLoadable(k: Clocks, s: Sys, id: Id)
    requires Inv(k, s)
    ensures Alive(s.srv, id) <==> Loadable(s.srv, id)
  {
    LoadableIsBounded(k, s, id);
  }

  predicate NewestFirst(a: Info, b: Info) { a.about.lastAccess >= b.about.lastAccess }

  // The rows are those of the given entries, each exactly once.
  ghost predicate Shows(infos: seq<Info>, members: map<Id, Entry>, ids: set<Id>) {
    forall x: Info :: multiset(infos)[x] == if x.id in ids && x.id in members && members[x.id].about == x.about then 1 else 0
  }

  predicate SortedNewestFirst(infos: seq<Info>) {
    forall i, j :: 0 <= i < j < |infos| ==> infos[i].about.lastAccess >= infos[j].about.lastAccess
  }

  class RedisSessionStore {
    const redis: Redis
    const clocks: Clocks
    const failClosed: bool

    constructor (redis: Redis, idleTtl: nat, absoluteTtl: nat, gcTtl: nat, failClosed: bool)
      requires gcTtl > 0
      ensures this.redis == redis && clocks == ClocksOf(idleTtl, absoluteTtl, gcTtl) && this.failClosed == failClosed
    {
      this.redis, this.failClosed := redis, failClosed;
      clocks := ClocksOf(idleTtl, absoluteTtl, gcTtl);
    }

    // A generated identifier, refused unless it has the shape of one.
    method NewId(candidate: string) returns (r: Result<Id>)
      ensures r.Ok? <==> IsValidId(candidate)
      ensures r.Ok? ==> r.value == candidate
    {
      if !IsValidId(candidate) {
        return Err("id_factory returned an unusable session ID");
      }
      r := Ok(candidate);
    }

    // -- the lifecycle -------------------------------------------------------

    // A session is reported exactly when its payload is there and its key has
    // time left; a record that does not decode is kept and counts as a failed
    // read, as does an unreachable server.  A failed read raises or is
    // reported, by policy; a tidy-up that does not work is neither.
    method LoadWithStatus(id: string, refresh: bool, reachable: bool, decodes: bool, tidies: bool)
      returns (loaded: Option<Loaded>, failed: bool, raised: bool)
      modifies redis
      ensures !IsValidId(id) || !reachable ==> loaded == None && redis.server == old(redis.server)
      ensures failed || raised <==> IsValidId(id) && (!reachable || (old(Loadable(redis.server, id)) && !decodes))
      ensures (raised ==> failClosed) && (failed ==> !failClosed)
      ensures IsValidId(id) && reachable ==>
                var s := old(redis.server);
                redis.server == ExecAll(if tidies then LoadCmds(clocks, s, id, refresh) else ReadCmds(clocks, id, refresh), s)
      ensures loaded.Some? <==> IsValidId(id) && reachable && decodes && old(Loadable(redis.server, id))
      ensures loaded.Some? ==>
                && loaded.value.record == old(redis.server).keys[id].data
                && old(redis.server).keys[id].deadline == Some(old(redis.server).now + loaded.value.remaining)
    {
      if !IsValidId(id) {
        return None, false, false;
      }
      if !reachable {
        return None, !failClosed, failClosed;
      }
      LoadRuns(clocks, redis.server, id, refresh);
      var data := ReadData(redis.server, id);
      ghost var found := Judge(data, ReadTtl(redis.server, id));
      if refresh {
        redis.Send(HGetEx(id, clocks.idle));
        ExecOne(HGetEx(id, clocks.idle), old(redis.server));
      }
      var ttl := ReadTtl(redis.server, id);
      var aliveUntil := if ttl.Left? then ttl.seconds else 0;
      if data == None || aliveUntil <= 0 {
        if data.Some? || !ttl.Absent? {
          assert found.HalfDead?;
          if tidies {
            redis.Send(Del(id));
          }
        }
        return None, false, false;
      }
      if !decodes {
        return None, !failClosed, failClosed;
      }
      loaded, failed, raised := Some(Loaded(data.value, aliveUntil)), false, false;
    }

    method Create(id: Id, record: Record)
      modifies redis
      ensures redis.server == ExecAll(CreateCmds(clocks, id, record), old(redis.server))
    {
      redis.Send(HSetEx(id, record, clocks.idle));
      redis.Send(Expire(id, clocks.absolute));
      ExecPair(HSetEx(id, record, clocks.idle), Expire(id, clocks.absolute), old(redis.server));
    }

    method Save(id: Id, record: Record)
      modifies redis
      ensures redis.server == ExecAll(SaveCmds(clocks, id, record), old(redis.server))
    {
      redis.Send(HSetEx(id, record, clocks.idle));
    }

    method Touch(id: Id)
      modifies redis
      ensures redis.server == ExecAll([HExpire(id, clocks.idle)], old(redis.server))
    {
      redis.Send(HExpire(id, clocks.idle));
    }

    method Delete(id: Id)
      modifies redis
      ensures redis.server == ExecAll([Del(id)], old(redis.server))
    {
      redis.Send(Del(id));
    }

    method Index(subject: Subject, id: Id, record: Record, remaining: nat, extra: Dict)
      modifies redis
      ensures redis.server == ExecAll(IndexCmds(subject, id, record, extra, remaining), old(redis.server))
    {
      if remaining > 0 {
        redis.Send(IndexSet(subject, id, Descriptor(record.created, record.lastAccess, extra), remaining));
      }
    }

    method IndexDrop(subject: Option<Subject>, id: Id)
      modifies redis
      ensures redis.server == ExecAll(DropCmds(subject, id), old(redis.server))
    {
      if Truthy(subject) {
        redis.Send(IndexDel(subject.value, id));
      }
    }

    // -- rotation and revocation ---------------------------------------------

    // A new identifier for the session in hand; the old key and its entry are
    // deleted first.  `subject` of None keeps the session's current one.
    method Rotate(state: SessionState, subject: Option<Option<Subject>>, extra: Dict, newId: Id, stamp: int)
      modifies redis, state
      ensures var target := if subject.Some? then subject.value else old(state.subject);
              var record := Record(state.data.data, stamp, stamp);
              && redis.server == ExecAll(RotateCmds(clocks, old(state.Now()), target, newId, record, extra), old(redis.server))
              && state.Now() == Rotated(clocks, target, newId, record)
    {
      ghost var start := redis.server;
      var target := if subject.Some? then subject.value else state.subject;
      ghost var front := if state.sessionId.Some?
        then [Del(state.sessionId.value)] + DropCmds(state.subject, state.sessionId.value) else [];
      if state.sessionId.Some? {
        Delete(state.sessionId.value);
        IndexDrop(state.subject, state.sessionId.value);
        ExecAllAppends([Del(state.sessionId.value)], DropCmds(state.subject, state.sessionId.value), start);
      }
      assert redis.server == ExecAll(front, start);
      var record := Record(state.data.data, stamp, stamp);
      Create(newId, record);
      ExecAllAppends(front, CreateCmds(clocks, newId, record), start);
      state.sessionId := Some(newId);
      state.created := Some(record.created);
      state.absoluteRemaining := Some(clocks.absolute);
      state.rotated := false;
      state.revoked := false;
      state.subject := target;
      ghost var tail := if target.Some? then IndexCmds(target.value, newId, record, extra, clocks.absolute) else [];
      if target.Some? {
        Index(target.value, newId, record, clocks.absolute, extra);
      }
      ExecAllAppends(front + CreateCmds(clocks, newId, record), tail, start);
    }

    method Reauthenticate(state: SessionState)
      modifies state
      ensures state.Now() == old(state.Now()).(rotated := true)
    {
      state.rotated := true;
    }

    // End the session in hand.  Safe on one that was never written.
    method Revoke(state: SessionState, subject: Option<Subject>)
      modifies redis, state, state.data
      ensures redis.server == ExecAll(RevokeCmds(old(state.Now()), subject), old(redis.server))
      ensures state.Now() == Revoked(old(state.Now()))
      ensures state.data.data == EMPTY && state.data.modified
    {
      if state.sessionId.Some? {
        ghost var start := redis.server;
        var resolved := if subject.Some? then subject else state.subject;
        Delete(state.sessionId.value);
        IndexDrop(resolved, state.sessionId.value);
        ExecAllAppends([Del(state.sessionId.value)], DropCmds(resolved, state.sessionId.value), start);
      }
      state.data.Clear();
      state.sessionId := None;
      state.subject := None;
      state.revoked := true;
      state.rotated := false;
    }

    // End one session by id, but only one indexed under the subject.
    method RevokeId(id: string, subject: Subject) returns (ended: bool)
      modifies redis
      ensures ended <==> IsValidId(id) && id in old(redis.server).Members(subject)
      ensures redis.server == ExecAll(RevokeIdCmds(old(redis.server), id, subject), old(redis.server))
    {
      if !IsValidId(id) {
        return false;
      }
      var members := redis.server.Members(subject);
      if id !in members {
        return false;
      }
      Delete(id);
      redis.Send(IndexDel(subject, id));
      ExecPair(Del(id), IndexDel(subject, id), old(redis.server));
      ended := true;
    }

    // Delete many keys, counting those that were there.
    method DeleteMany(ids: seq<Id>) returns (removed: nat)
      modifies redis
      ensures redis.server == ExecAll(DelCmds(ids), old(redis.server))
      ensures removed == Present(ids, old(redis.server))
    {
      removed := 0;
      for i := 0 to |ids|
        invariant ExecAll(DelCmds(ids[i..]), redis.server) == ExecAll(DelCmds(ids), old(redis.server))
        invariant removed + Present(ids[i..], redis.server) == Present(ids, old(redis.server))
      {
        assert ids[i..][1..] == ids[i + 1..];
        DelFirst(ids[i..], redis.server);
        var n := redis.Remove(ids[i]);
        removed := removed + n;
      }
    }

    // End every session of a subject: afterwards none of those indexed has a
    // key, nothing else has changed, and the answer counts the keys removed.
    method RevokeAll(subject: Subject) returns (removed: nat)
      modifies redis
      ensures var s := old(redis.server);
              var members := s.Members(subject).Keys;
              && redis.server == s.(keys := s.keys - members,
                                    index := if members == {} then s.index else s.index - {subject})
              && removed == |members * s.keys.Keys|
      ensures var s := old(redis.server);
              exists ids :: Lists(ids, s.Members(subject).Keys) && redis.server == ExecAll(RevokeAllCmds(ids, subject), s)
    {
      var members := redis.Members(subject);
      hide Exec, ExecAll, Present, SetOf;
      RevokeAllLeaves(members, subject, redis.server);
      if members == [] {
        return 0;
      }
      removed := DeleteMany(members);
      redis.Send(IndexClear(subject));
    }

    static lemma RevokeAllLeaves(ids: seq<Id>, subject: Subject, s: Server)
      requires Lists(ids, s.Members(subject).Keys)
      ensures var members := s.Members(subject).Keys;
              && ExecAll(RevokeAllCmds(ids, subject), s) == s.(keys := s.keys - members,
                                                               index := if members == {} then s.index else s.index - {subject})
              && Present(ids, s) == |members * s.keys.Keys|
      ensures ids == [] ==> Present(ids, s) == 0 && ExecAll(RevokeAllCmds(ids, subject), s) == s
      ensures ids != [] ==> ExecAll(RevokeAllCmds(ids, subject), s) == Exec(IndexClear(subject), ExecAll(DelCmds(ids), s))
    {
      hide SetOf, Present, ExecAll, Exec, DelCmds;
      DelAll(ids, s);
      PresentCounts(ids, s);
      SetOfListed(ids, s.Members(subject).Keys);
      if ids == [] {
        NoneLeft(subject, s);
      } else {
        ExecAllAppends(DelCmds(ids), [IndexClear(subject)], s);
        ExecOne(IndexClear(subject), ExecAll(DelCmds(ids), s));
        ClearIs(subject, ExecAll(DelCmds(ids), s));
      }
    }

    static lemma SetOfListed(ids: seq<Id>, all: set<Id>)
      requires Lists(ids, all)
      ensures SetOf(ids) == all && (ids == [] <==> all == {})
    {
      if ids != [] { assert ids[0] in all; }
    }

    static lemma NoneLeft(subject: Subject, s: Server)
      requires s.Members(subject).Keys == {}
      ensures ExecAll(RevokeAllCmds([], subject), s) == s && Present([], s) == 0 && s.keys - {} == s.keys
    {
    }

    static lemma ClearIs(subject: Subject, s: Server)
      ensures Exec(IndexClear(subject), s) == s.(index := s.index - {subject})
    {
    }

    // -- the reverse lookup --------------------------------------------------

    // Which of the candidates are alive, by two replies for each in one batch;
    // None when the server could not say.
    method Verify(ids: seq<Id>, reachable: bool) returns (live: Option<set<Id>>)
      ensures live == None <==> !reachable && ids != []
      ensures live.Some? ==> forall id :: id in live.value <==> id in ids && Alive(redis.server, id)
    {
      if ids == [] {
        return Some({});
      }
      if !reachable {
        return None;
      }
      var replies: seq<Deadline> := [];
      for i := 0 to |ids|
        invariant |replies| == 2 * i
        invariant forall n :: 0 <= n < i ==> replies[2 * n] == ReadFieldTtl(redis.server, ids[n])
        invariant forall n :: 0 <= n < i ==> replies[2 * n + 1] == ReadTtl(redis.server, ids[n])
      {
        replies := replies + [ReadFieldTtl(redis.server, ids[i]), ReadTtl(redis.server, ids[i])];
      }
      var found := {};
      for i := 0 to |ids|
        invariant found == set id | id in ids[..i] && Alive(redis.server, id)
      {
        assert ids[..i + 1] == ids[..i] + [ids[i]];
        assert replies[2 * i] == ReadFieldTtl(redis.server, ids[i]) && replies[2 * i + 1] == ReadTtl(redis.server, ids[i]);
        if HasTimeLeft(replies[2 * i]) && HasTimeLeft(replies[2 * i + 1]) {
          found := found + {ids[i]};
        }
      }
      assert ids[..|ids|] == ids;
      live := Some(found);
    }

    // The subject's sessions, newest first.  With a verification, exactly the
    // live ones, and the entries of the others are gone, but for those whose
    // removal fails; without one, every entry, and none is pruned.  An index
    // that cannot be read is an empty listing, or an error, by policy.
    method ListForSubject(subject: Subject, reachable: bool, verifies: bool, stuck: set<Id>) returns (r: Result<seq<Info>>)
      modifies redis
      ensures r.Err? <==> !reachable && failClosed
      ensures !reachable ==> redis.server == old(redis.server) && (r.Ok? ==> r.value == [])
      ensures var s := old(redis.server);
              var members := s.Members(subject);
              var shown := set id | id in members && (verifies ==> Alive(s, id));
              reachable ==>
                && SortedNewestFirst(r.value)
                && Shows(r.value, members, shown)
                && redis.server.keys == s.keys && redis.server.now == s.now
                && redis.server.Members(subject) == (map id | id in members && (id in shown || id in stuck) :: members[id])
                && forall other :: other != subject ==> redis.server.Members(other) == s.Members(other)
    {
      hide Removable, Rows, Rejects, Dropped, Shows, SortedNewestFirst, Lists, Alive;
      if !reachable {
        return if failClosed then Err("Could not load session") else Ok([]);
      }
      var ids := redis.Members(subject);
      if ids == [] {
        NothingToShow(redis.server.Members(subject), verifies, stuck, redis.server);
        return Ok([]);
      }
      var live := Verify(ids, verifies);
      assert live.Some? ==> live.value == set id | id in ids && Alive(redis.server, id);
      ListingLeaves(redis.server, subject, ids, live, verifies, stuck);
      var rows, dead := Sift(ids, redis.server.Members(subject), live);
      Prune(subject, dead, stuck);
      var infos := SortNewest(rows);
      StillShows(rows, infos);
      r := Ok(infos);
    }

    static lemma NothingToShow(members: map<Id, Entry>, verifies: bool, stuck: set<Id>, s: Server)
      requires Lists([], members.Keys)
      ensures var shown := set id | id in members && (verifies ==> Alive(s, id));
              && SortedNewestFirst([]) && Shows([], members, shown)
              && members == (map id | id in members && (id in shown || id in stuck) :: members[id])
    {
      hide Alive;
      assert members == map[];
    }

    static lemma StillShows(rows: seq<Info>, infos: seq<Info>)
      requires multiset(rows) == multiset(infos)
      ensures forall members, shown :: Shows(rows, members, shown) ==> Shows(infos, members, shown)
    {
    }

    static lemma ListingLeaves(s: Server, subject: Subject, ids: seq<Id>, live: Option<set<Id>>, verifies: bool, stuck: set<Id>)
      requires Lists(ids, s.Members(subject).Keys)
      requires live == if verifies then Some(set id | id in ids && Alive(s, id)) else None
      ensures var members := s.Members(subject);
              var shown := set id | id in members && (verifies ==> Alive(s, id));
              var t := Dropped(subject, Removable(Rejects(ids, live), stuck), s);
              && Shows(Rows(ids, members, live), members, shown)
              && t.keys == s.keys && t.now == s.now
              && t.Members(subject) == (map id | id in members && (id in shown || id in stuck) :: members[id])
              && forall other :: other != subject ==> t.Members(other) == s.Members(other)
    {
      hide Rows, Rejects, Dropped, Removable, Shows, Alive;
      var shown := set id | id in s.Members(subject) && (verifies ==> Alive(s, id));
      WantedRows(s, s.Members(subject), ids, live, verifies, shown);
      PruningLeaves(s, subject, Rejects(ids, live), shown, stuck);
    }

    static lemma WantedRows(s: Server, members: map<Id, Entry>, ids: seq<Id>, live: Option<set<Id>>, verifies: bool, shown: set<Id>)
      requires Lists(ids, members.Keys)
      requires live == if verifies then Some(set id | id in ids && Alive(s, id)) else None
      requires forall id :: id in shown <==> id in members && (verifies ==> Alive(s, id))
      ensures Shows(Rows(ids, members, live), members, shown)
      ensures forall id :: id in Rejects(ids, live) <==> id in members && id !in shown
    {
      hide Rows, Rejects, Alive, Shows;
      RowsShow(ids, members, live);
      assert shown == set id | id in ids && (live == None || id in live.value);
    }

    static lemma PruningLeaves(s: Server, subject: Subject, dead: seq<Id>, shown: set<Id>, stuck: set<Id>)
      requires forall id :: id in dead <==> id in s.Members(subject) && id !in shown
      ensures var members, t := s.Members(subject), Dropped(subject, Removable(dead, stuck), s);
              && t.keys == s.keys && t.now == s.now
              && t.Members(subject) == (map id | id in members && (id in shown || id in stuck) :: members[id])
              && forall other :: other != subject ==> t.Members(other) == s.Members(other)
    {
      hide Dropped, Removable, SetOf;
      var members := s.Members(subject);
      RemovableAre(dead, stuck);
      KeptAre(members, Removable(dead, stuck), set id | id in members && (id in shown || id in stuck));
      DropAll(subject, Removable(dead, stuck), s);
    }

    static lemma KeptAre(members: map<Id, Entry>, dead: seq<Id>, shown: set<Id>)
      requires forall id :: id in shown <==> id in members && id !in dead
      ensures members - SetOf(dead) == (map id | id in shown :: members[id])
    {
    }

    // Tell the entries to report from those verified dead.
    static method Sift(ids: seq<Id>, members: map<Id, Entry>, live: Option<set<Id>>) returns (infos: seq<Info>, dead: seq<Id>)
      requires forall id :: id in ids ==> id in members
      ensures infos == Rows(ids, members, live) && dead == Rejects(ids, live)
    {
      hide Rows, Rejects;
      infos, dead := [], [];
      assert ids[0..] == ids;
      for i := 0 to |ids|
        invariant infos + Rows(ids[i..], members, live) == Rows(ids, members, live)
        invariant dead + Rejects(ids[i..], live) == Rejects(ids, live)
      {
        assert ids[i..][1..] == ids[i + 1..];
        SiftFirst(ids[i..], members, live);
        if live.Some? && ids[i] !in live.value {
          dead := dead + [ids[i]];
        } else {
          infos := infos + [Info(ids[i], members[ids[i]].about)];
        }
      }
      SiftNone(members, live);
    }

    // Entries that cannot be removed are left for the next reader.
    method Prune(subject: Subject, dead: seq<Id>, stuck: set<Id>)
      modifies redis
      ensures redis.server == Dropped(subject, Removable(dead, stuck), old(redis.server))
    {
      for i := 0 to |dead|
        invariant Dropped(subject, Removable(dead[i..], stuck), redis.server)
                  == Dropped(subject, Removable(dead, stuck), old(redis.server))
      {
        assert dead[i..][1..] == dead[i + 1..];
        if dead[i] !in stuck {
          assert Removable(dead[i..], stuck)[1..] == Removable(dead[i + 1..], stuck);
          redis.Send(IndexDel(subject, dead[i]));
        } else {
          assert Removable(dead[i..], stuck) == Removable(dead[i + 1..], stuck);
        }
      }
    }

    // How many sessions a subject has: the entries, or, from the limit on, the
    // live ones; no answer when there are entries and their liveness could not
    // be verified.
    method CountForSubject(subject: Subject, limit: Option<nat>, verifies: bool) returns (r: Result<nat>)
      ensures var members := redis.server.Members(subject);
              if limit == None || |members| < limit.value then r == Ok(|members|)
              else if !verifies && members != map[] then r.Err?
              else r == Ok(|set id | id in members && Alive(redis.server, id)|)
    {
      var upper := |redis.server.Members(subject)|;
      if limit == None || upper < limit.value {
        return Ok(upper);
      }
      var members := redis.server.Members(subject);
      var ids := redis.Members(subject);
      var live := Verify(ids, verifies);
      if live == None {
        assert ids[0] in members;
        return Err("Could not verify session liveness while counting");
      }
      assert live.value == set id | id in members && Alive(redis.server, id);
      r := Ok(|live.value|);
    }
  }

  // The rows of the candidates that are not known dead, and those that are.
  function Rows(ids: seq<Id>, members: map<Id, Entry>, live: Option<set<Id>>): seq<Info>
    requires forall id :: id in ids ==> id in members
  {
    if ids == [] then []
    else (if live.Some? && ids[0] !in live.value then [] else [Info(ids[0], members[ids[0]].about)])
         + Rows(ids[1..], members, live)
  }

  function Rejects(ids: seq<Id>, live: Option<set<Id>>): seq<Id> {
    if ids == [] then []
    else (if live.Some? && ids[0] !in live.value then [ids[0]] else []) + Rejects(ids[1..], live)
  }

  // A row is there once if its entry is wanted, and not otherwise.
  lemma {:induction false} RowCount(ids: seq<Id>, members: map<Id, Entry>, live: Option<set<Id>>, x: Info)
    requires forall id :: id in ids ==> id in members
    requires forall i, j :: 0 <= i < j < |ids| ==> ids[i] != ids[j]
    ensures multiset(Rows(ids, members, live))[x] ==
            if x.id in ids && (live == None || x.id in live.value) && members[x.id].about == x.about then 1 else 0
  {
    if ids == [] {
    } else {
      RowCount(ids[1..], members, live, x);
      assert ids == [ids[0]] + ids[1..] && ids[0] !in ids[1..];
      var first := if live.Some? && ids[0] !in live.value then [] else [Info(ids[0], members[ids[0]].about)];
      assert Rows(ids, members, live) == first + Rows(ids[1..], members, live);
    }
  }

  lemma {:induction false} RejectsAre(ids: seq<Id>, live: Option<set<Id>>)
    ensures forall id :: id in Rejects(ids, live) <==> id in ids && live.Some? && id !in live.value
  {
    if ids == [] {
    } else {
      RejectsAre(ids[1..], live);
      assert ids == [ids[0]] + ids[1..];
    }
  }

  lemma RowsShow(ids: seq<Id>, members: map<Id, Entry>, live: Option<set<Id>>)
    requires forall id :: id in ids ==> id in members
    requires forall i, j :: 0 <= i < j < |ids| ==> ids[i] != ids[j]
    ensures Shows(Rows(ids, members, live), members, set id | id in ids && (live == None || id in live.value))
    ensures forall id :: id in Rejects(ids, live) <==> id in ids && live.Some? && id !in live.value
  {
    hide Rows, Rejects;
    RejectsAre(ids, live);
    forall x: Info
      ensures multiset(Rows(ids, members, live))[x] ==
              if x.id in ids && (live == None || x.id in live.value) && members[x.id].about == x.about then 1 else 0
    {
      RowCount(ids, members, live, x);
    }
  }

  lemma SiftFirst(ids: seq<Id>, members: map<Id, Entry>, live: Option<set<Id>>)
    requires ids != [] && forall id :: id in ids ==> id in members
    ensures Rows(ids, members, live) == (if live.Some? && ids[0] !in live.value then [] else [Info(ids[0], members[ids[0]].about)])
                                        + Rows(ids[1..], members, live)
    ensures Rejects(ids, live) == (if live.Some? && ids[0] !in live.value then [ids[0]] else []) + Rejects(ids[1..], live)
  {
  }

  lemma SiftNone(members: map<Id, Entry>, live: Option<set<Id>>)
    ensures Rows([], members, live) == [] && Rejects([], live) == []
  {
  }

  function Removable(dead: seq<Id>, stuck: set<Id>): seq<Id> {
    if dead == [] then [] else (if dead[0] in stuck then [] else [dead[0]]) + Removable(dead[1..], stuck)
  }

  lemma {:induction false} RemovableAre(dead: seq<Id>, stuck: set<Id>)
    ensures forall id :: id in Removable(dead, stuck) <==> id in dead && id !in stuck
  {
    if dead == [] {
    } else {
      RemovableAre(dead[1..], stuck);
      assert dead == [dead[0]] + dead[1..];
    }
  }

  // Entries dropped one by one.
  function Dropped(subject: Subject, ids: seq<Id>, s: Server): Server
    decreases |ids|
  {
    if ids == [] then s else Dropped(subject, ids[1..], Exec(IndexDel(subject, ids[0]), s))
  }

  lemma {:induction false} DropAll(subject: Subject, ids: seq<Id>, s: Server)
    ensures var t := Dropped(subject, ids, s);
            && t.keys == s.keys && t.now == s.now
            && t.Members(subject) == s.Members(subject) - SetOf(ids)
            && forall other :: other != subject ==> t.Members(other) == s.Members(other)
    decreases |ids|
  {
    if ids == [] {
      assert s.Members(subject) - SetOf(ids) == s.Members(subject);
    } else {
      DropAll(subject, ids[1..], Exec(IndexDel(subject, ids[0]), s));
      assert ids == [ids[0]] + ids[1..];
      assert s.Members(subject) - {ids[0]} - SetOf(ids[1..]) == s.Members(subject) - SetOf(ids);
    }
  }

  lemma Empty()
    ensures SortedNewestFirst([])
  {
  }

  lemma InsertedSorts(sorted: seq<Info>, at: nat, x: Info)
    requires SortedNewestFirst(sorted) && at <= |sorted|
    requires at > 0 ==> NewestFirst(sorted[at - 1], x)
    requires forall j :: at <= j < |sorted| ==> NewestFirst(x, sorted[j])
    ensures SortedNewestFirst(sorted[..at] + [x] + sorted[at..])
  {
    var next := sorted[..at] + [x] + sorted[at..];
    assert forall j :: 0 <= j < at ==> next[j] == sorted[j] && NewestFirst(sorted[j], x);
    assert next[at] == x && forall j :: at < j < |next| ==> next[j] == sorted[j - 1];
  }

  lemma InsertedCounts(sorted: seq<Info>, at: nat, x: Info)
    requires at <= |sorted|
    ensures multiset(sorted[..at] + [x] + sorted[at..]) == multiset(sorted) + multiset{x}
  {
    assert sorted == sorted[..at] + sorted[at..];
  }

  // A stable insertion sort by last access, newest first.
  method SortNewest(infos: seq<Info>) returns (sorted: seq<Info>)
    ensures SortedNewestFirst(sorted) && multiset(sorted) == multiset(infos)
  {
    hide SortedNewestFirst;
    sorted := [];
    Empty();
    for i := 0 to |infos|
      invariant SortedNewestFirst(sorted) && multiset(sorted) == multiset(infos[..i])
    {
      assert infos[..i + 1] == infos[..i] + [infos[i]];
      var at := |sorted|;
      while at > 0 && !NewestFirst(sorted[at - 1], infos[i])
        invariant 0 <= at <= |sorted|
        invariant forall j :: at <= j < |sorted| ==> NewestFirst(infos[i], sorted[j])
      {
        at := at - 1;
      }
      InsertedSorts(sorted, at, infos[i]);
      InsertedCounts(sorted, at, infos[i]);
      sorted := sorted[..at] + [infos[i]] + sorted[at..];
    }
    assert infos[..|infos|] == infos;
  }
}
