// The session middleware: what a request loads, what its response owes the
// session, and the commands and the cookie that pay it.
module Middleware {
  import opened Prelude
  import opened Payloads
  import opened SessionServer
  import opened Lifecycle
  import opened SessionOps
  import opened SessionStores
  import Sessions

  // What identifies a privilege level; None when there is no identity.
  type Principal = Option<seq<Value>>

  // The application's seams, as pure functions of the data, and the settings.
  datatype Config = Config(clocks: Clocks, principalOf: Dict -> Principal, subjectOf: Dict -> Option<Subject>,
                           alwaysSave: bool, refreshOnLoad: bool, cookieOnly: bool, failClosed: bool)

  // -- the default seams -----------------------------------------------------

  // What the configured names hold, in order.
  function ValuesOf(keys: seq<string>, d: Dict): (values: seq<Value>)
    ensures |values| == |keys| && forall i :: 0 <= i < |keys| ==> values[i] == d.Get(keys[i])
  {
    seq(|keys|, i requires 0 <= i < |keys| => d.Get(keys[i]))
  }

  function DefaultPrincipal(keys: seq<string>, d: Dict): Principal {
    var values := ValuesOf(keys, d);
    if exists i :: 0 <= i < |values| && values[i] != Null then Some(values) else None
  }

  // `str` of a value that is not None; any function will do.
  function DefaultSubject(keys: seq<string>, str: Value -> string, d: Dict): Option<Subject> {
    FirstSubject(ValuesOf(keys, d), str)
  }

  function FirstSubject(values: seq<Value>, str: Value -> string): Option<Subject> {
    if values == [] then None
    else if values[0] != Null then Some(str(values[0]))
    else FirstSubject(values[1..], str)
  }

  lemma {:induction false} NoValuesNoSubject(values: seq<Value>, str: Value -> string)
    requires forall i :: 0 <= i < |values| ==> values[i] == Null
    ensures FirstSubject(values, str) == None
  {
    if values == [] {
    } else {
      NoValuesNoSubject(values[1..], str);
    }
  }

  // Two sessions are of one principal exactly when they agree on every
  // configured name, a missing one and a null counting alike, so that adding
  // one makes a change of it a change of principal.
  lemma PrincipalsAgree(keys: seq<string>, a: Dict, b: Dict)
    ensures DefaultPrincipal(keys, a) == DefaultPrincipal(keys, b) <==>
            forall i :: 0 <= i < |keys| ==> a.Get(keys[i]) == b.Get(keys[i])
    ensures DefaultPrincipal(keys, a) == None <==> forall i :: 0 <= i < |keys| ==> a.Get(keys[i]) == Null
  {
    var x, y := ValuesOf(keys, a), ValuesOf(keys, b);
    assert x == y <==> forall i :: 0 <= i < |keys| ==> x[i] == y[i];
  }

  // The subject is the first of the configured values that is there, as text.
  lemma SubjectIsFirst(keys: seq<string>, str: Value -> string, d: Dict, i: nat)
    requires i < |keys| && d.Get(keys[i]) != Null && forall n :: 0 <= n < i ==> d.Get(keys[n]) == Null
    ensures DefaultSubject(keys, str, d) == Some(str(d.Get(keys[i])))
  {
    FirstIs(ValuesOf(keys, d), str, i);
  }

  lemma {:induction false} FirstIs(values: seq<Value>, str: Value -> string, i: nat)
    requires i < |values| && values[i] != Null && forall n :: 0 <= n < i ==> values[n] == Null
    ensures FirstSubject(values, str) == Some(str(values[i]))
    decreases i
  {
    if i > 0 { FirstIs(values[1..], str, i - 1); }
  }

  // -- the decision ----------------------------------------------------------

  datatype Outcome = Nothing | ClearCookie | Suppress | SignOut | CookieOnly | Rotate | Write | Touch

  datatype Signals = Signals(revoked: bool, rotated: bool, changed: bool, accessed: bool, modified: bool, empty: bool,
                             stored: bool, idChanged: bool, failed: bool, alwaysSave: bool, refreshOnLoad: bool)

  function DecideOutcome(s: Signals): Outcome {
    if s.revoked then ClearCookie
    else if s.failed && (s.changed || s.rotated) then Suppress
    else if s.idChanged then CookieOnly
    else if s.modified && s.empty && s.stored then SignOut
    else if s.changed || s.rotated then Rotate
    else if !s.accessed then Nothing
    else if (s.modified || s.alwaysSave) && !s.empty then Write
    else if !s.refreshOnLoad && s.stored then Touch
    else Nothing
  }

  // -- one request -----------------------------------------------------------

  datatype LoadStatus = Loaded | Missing | NotFound | Failed

  // A request's session, its record of it, and what it arrived with.
  datatype Request = Request(session: Sessions.View, st: State, load: LoadStatus,
                             loadedId: Option<Id>, unloadedId: Option<Id>, before: Principal)

  function NewRequest(c: Config, data: Dict, st: State, load: LoadStatus, loadedId: Option<Id>, unloadedId: Option<Id>): Request {
    Request(Sessions.View(data, false, false), st, load, loadedId, unloadedId, c.principalOf(data))
  }

  function LoadedRequest(c: Config, id: Id, record: Record, remaining: nat): Request {
    NewRequest(c, record.data, State(Some(id), c.subjectOf(record.data), Some(record.created), Some(remaining), false, false),
               LoadStatus.Loaded, Some(id), None)
  }

  function UnloadedRequest(c: Config, id: Id, failed: bool): Request {
    NewRequest(c, EMPTY, FRESH, if failed then Failed else NotFound, None, Some(id))
  }

  function AnonymousRequest(c: Config): Request { NewRequest(c, EMPTY, FRESH, Missing, None, None) }

  function SignalsOf(c: Config, r: Request, status: int): Signals {
    Signals(r.st.revoked, r.st.rotated, c.principalOf(r.session.data) != r.before,
            r.session.accessed, r.session.modified, r.session.data.Empty(),
            r.loadedId.Some?, r.st.id.Some? && r.st.id != r.loadedId,
            status >= 400, c.alwaysSave, c.refreshOnLoad)
  }

  function OutcomeOf(c: Config, r: Request, status: int): Outcome { DecideOutcome(SignalsOf(c, r, status)) }

  // One Set-Cookie, or none.
  datatype Cookie = NoCookie | Cleared | Names(id: Id, maxAge: Option<nat>)

  function CookieFor(c: Config, st: State): Cookie {
    Names(if st.id.Some? then st.id.value else "", if c.cookieOnly then None else st.remaining)
  }

  // Everything a response start does: the commands it sends, in order, the
  // record it leaves, and the cookie it sets once they have all been answered.
  datatype Plan = Plan(cmds: seq<Cmd>, st: State, cookie: Cookie)

  function NonEmpty(s: Option<Subject>): Option<Subject> { if Truthy(s) then s else None }

  function WriteRecord(r: Request, stamp: int): Record {
    Record(r.session.data, if r.st.created.Some? then r.st.created.value else stamp, stamp)
  }

  // The record after a write: the id is new when there was none.
  function Written(c: Config, r: Request, newId: Id, stamp: int): State {
    var subject := c.subjectOf(r.session.data);
    if r.st.id == None
    then r.st.(id := Some(newId), remaining := Some(c.clocks.absolute), created := Some(WriteRecord(r, stamp).created), subject := subject)
    else r.st.(subject := subject)
  }

  function EntryTime(c: Config, st: State): nat {
    if st.remaining.Some? && st.remaining.value != 0 then st.remaining.value else c.clocks.absolute
  }

  function WriteCmds(c: Config, r: Request, newId: Id, stamp: int, extra: Dict): seq<Cmd> {
    var record := WriteRecord(r, stamp);
    var st := Written(c, r, newId, stamp);
    (if r.st.id == None then CreateCmds(c.clocks, newId, record) else SaveCmds(c.clocks, r.st.id.value, record))
    + (if Truthy(st.subject) then IndexCmds(st.subject.value, st.id.value, record, extra, EntryTime(c, st)) else [])
  }

  // A sign-out on a cookie whose record did not load still ends that record.
  predicate Forgets(r: Request) {
    r.unloadedId.Some? && r.st.id == None && (r.st.revoked || (r.session.modified && r.session.data.Empty()))
  }

  function PlanFor(c: Config, r: Request, status: int, newId: Id, stamp: int, extra: Dict): Plan {
    if Forgets(r) then Plan([Del(r.unloadedId.value)], r.st, Cleared)
    else
      match OutcomeOf(c, r, status)
      case Nothing => Plan([], r.st, NoCookie)
      case Suppress => Plan([], r.st, NoCookie)
      case ClearCookie => Plan([], r.st, Cleared)
      case SignOut => Plan(RevokeCmds(r.st, None), Revoked(r.st), Cleared)
      case CookieOnly =>
        if r.session.modified then
          var st := Written(c, r, newId, stamp);
          Plan(WriteCmds(c, r, newId, stamp, extra), st, CookieFor(c, st))
        else Plan([], r.st, CookieFor(c, r.st))
      case Rotate =>
        var record := Record(r.session.data, stamp, stamp);
        var subject := NonEmpty(c.subjectOf(r.session.data));
        var st := Rotated(c.clocks, subject, newId, record);
        Plan(RotateCmds(c.clocks, r.st, subject, newId, record, extra), st, CookieFor(c, st))
      case Write =>
        var st := Written(c, r, newId, stamp);
        Plan(WriteCmds(c, r, newId, stamp, extra), st, CookieFor(c, st))
      case Touch => Plan([HExpire(r.loadedId.value, c.clocks.idle)], r.st, NoCookie)
  }

  // -- nothing is lost -------------------------------------------------------

  // Two kinds of command leave a stored payload as it is: those on the index,
  // and the one that sets the key's deadline.
  lemma {:induction false} PayloadStays(cmds: seq<Cmd>, s: Server, id: Id)
    requires forall i :: 0 <= i < |cmds| ==> cmds[i].Expire? || cmds[i].IndexSet?
    ensures ReadData(ExecAll(cmds, s), id) == ReadData(s, id)
    decreases |cmds|
  {
    if cmds == [] {
    } else {
      PayloadStays(cmds[1..], Exec(cmds[0], s), id);
    }
  }

  // A list whose last payload write is `record` under `id`.
  lemma WriteLands(front: seq<Cmd>, k: Clocks, id: Id, record: Record, tail: seq<Cmd>, s: Server)
    requires forall i :: 0 <= i < |tail| ==> tail[i].Expire? || tail[i].IndexSet?
    ensures ReadData(ExecAll(front + ([HSetEx(id, record, k.idle)] + tail), s), id) == Some(record)
  {
    ExecAllAppends(front, [HSetEx(id, record, k.idle)] + tail, s);
    ExecAllAppends([HSetEx(id, record, k.idle)], tail, ExecAll(front, s));
    ExecOne(HSetEx(id, record, k.idle), ExecAll(front, s));
    PayloadStays(tail, Exec(HSetEx(id, record, k.idle), ExecAll(front, s)), id);
  }

  // If the application changed its session, left it non-empty, did not revoke
  // it, and the response is not one that must persist nothing, then once the
  // response start is done the record named by the cookie holds exactly what
  // the application left in the session.
  lemma NoLostWrite(c: Config, r: Request, status: int, newId: Id, stamp: int, extra: Dict, s: Server)
    requires r.session.modified && r.session.accessed && !r.session.data.Empty() && !r.st.revoked
    requires OutcomeOf(c, r, status) != Suppress
    ensures var p := PlanFor(c, r, status, newId, stamp, extra);
            && p.cookie.Names?
            && ReadData(ExecAll(p.cmds, s), p.cookie.id).Some?
            && ReadData(ExecAll(p.cmds, s), p.cookie.id).value.data == r.session.data
  {
    var p := PlanFor(c, r, status, newId, stamp, extra);
    var k := c.clocks;
    if OutcomeOf(c, r, status) == Rotate {
      var record := Record(r.session.data, stamp, stamp);
      var front := if r.st.id.Some? then [Del(r.st.id.value)] + DropCmds(r.st.subject, r.st.id.value) else [];
      var subject := NonEmpty(c.subjectOf(r.session.data));
      var tail := [Expire(newId, k.absolute)]
                  + (if subject.Some? then IndexCmds(subject.value, newId, record, extra, k.absolute) else []);
      assert p.cmds == front + ([HSetEx(newId, record, k.idle)] + tail);
      WriteLands(front, k, newId, record, tail, s);
    } else {
      var record := WriteRecord(r, stamp);
      var st := Written(c, r, newId, stamp);
      var tail := (if r.st.id == None then [Expire(newId, k.absolute)] else [])
                  + (if Truthy(st.subject) then IndexCmds(st.subject.value, st.id.value, record, extra, EntryTime(c, st)) else []);
      assert p.cmds == [] + ([HSetEx(st.id.value, record, k.idle)] + tail);
      WriteLands([], k, st.id.value, record, tail, s);
    }
  }

  lemma {:induction false} KeyStays(cmds: seq<Cmd>, s: Server)
    requires forall i :: 0 <= i < |cmds| ==> cmds[i].IndexSet?
    ensures ExecAll(cmds, s).keys == s.keys && ExecAll(cmds, s).now == s.now
    decreases |cmds|
  {
    if cmds == [] {
    } else {
      KeyStays(cmds[1..], Exec(cmds[0], s));
    }
  }

  // A session created after some other commands is loadable,
  lemma CreateLoads(front: seq<Cmd>, k: Clocks, id: Id, record: Record, tail: seq<Cmd>, s: Server)
    requires k.Valid() && forall i :: 0 <= i < |tail| ==> tail[i].IndexSet?
    ensures Loadable(ExecAll(front + (CreateCmds(k, id, record) + tail), s), id)
  {
    var u := ExecAll(front, s);
    ExecAllAppends(front, CreateCmds(k, id, record) + tail, s);
    ExecAllAppends(CreateCmds(k, id, record), tail, u);
    ExecPair(HSetEx(id, record, k.idle), Expire(id, k.absolute), u);
    KeyStays(tail, ExecAll(CreateCmds(k, id, record), u));
  }

  // and one saved is if it was.
  lemma SaveLoads(k: Clocks, id: Id, record: Record, tail: seq<Cmd>, s: Server)
    requires forall i :: 0 <= i < |tail| ==> tail[i].IndexSet?
    ensures Loadable(ExecAll(SaveCmds(k, id, record) + tail, s), id) <==> Loadable(s, id)
  {
    ExecAllAppends(SaveCmds(k, id, record), tail, s);
    ExecOne(HSetEx(id, record, k.idle), s);
    KeyStays(tail, ExecAll(SaveCmds(k, id, record), s));
  }

  // What was kept the next load returns, if and only if the response created
  // the session, or gave it a new id, or the session was still loadable when
  // the save reached the server: a session ended meanwhile stays ended.
  lemma SavedIsLoaded(c: Config, r: Request, status: int, newId: Id, stamp: int, extra: Dict, s: Server)
    requires c.clocks.Valid()
    requires r.session.modified && r.session.accessed && !r.session.data.Empty() && !r.st.revoked
    requires OutcomeOf(c, r, status) != Suppress
    ensures var p := PlanFor(c, r, status, newId, stamp, extra);
            var t := ExecAll(p.cmds, s);
            var verdict := Judge(ReadData(t, p.cookie.id), ReadTtl(t, p.cookie.id));
            && (verdict.Live? <==> OutcomeOf(c, r, status) == Rotate || r.st.id == None || Loadable(s, r.st.id.value))
            && (verdict.Live? ==> verdict.record.data == r.session.data)
  {
    NoLostWrite(c, r, status, newId, stamp, extra, s);
    hide ExecAll, IndexCmds, DropCmds;
    var p := PlanFor(c, r, status, newId, stamp, extra);
    if OutcomeOf(c, r, status) == Rotate {
      var record := Record(r.session.data, stamp, stamp);
      var front := if r.st.id.Some? then [Del(r.st.id.value)] + DropCmds(r.st.subject, r.st.id.value) else [];
      var subject := NonEmpty(c.subjectOf(r.session.data));
      var tail := if subject.Some? then IndexCmds(subject.value, newId, record, extra, c.clocks.absolute) else [];
      EntriesOnly(subject, newId, record, extra, c.clocks.absolute);
      assert p.cmds == front + (CreateCmds(c.clocks, newId, record) + tail);
      CreateLoads(front, c.clocks, newId, record, tail, s);
    } else {
      var record := WriteRecord(r, stamp);
      var st := Written(c, r, newId, stamp);
      var tail := if Truthy(st.subject) then IndexCmds(st.subject.value, st.id.value, record, extra, EntryTime(c, st)) else [];
      EntriesOnly(st.subject, st.id.value, record, extra, EntryTime(c, st));
      if r.st.id == None {
        assert p.cmds == [] + (CreateCmds(c.clocks, newId, record) + tail);
        CreateLoads([], c.clocks, newId, record, tail, s);
      } else {
        assert p.cmds == SaveCmds(c.clocks, r.st.id.value, record) + tail;
        SaveLoads(c.clocks, r.st.id.value, record, tail, s);
      }
    }
  }

  lemma EntriesOnly(subject: Option<Subject>, id: Id, record: Record, extra: Dict, remaining: nat)
    ensures subject.Some? ==> forall i :: 0 <= i < |IndexCmds(subject.value, id, record, extra, remaining)| ==>
              IndexCmds(subject.value, id, record, extra, remaining)[i].IndexSet?
  {
  }

  // -- signing out, and staying in -------------------------------------------

  // The request still holds what it loaded, or loaded nothing.
  predicate AsLoaded(r: Request) { r.st.id == r.loadedId && (r.loadedId.Some? ==> r.unloadedId == None) }

  // An application that empties the session it was given has signed the user
  // out: the record is gone, even one that could not be read, and the cookie
  // is cleared - except when the response failed after the identity changed
  // on a session that did load.
  lemma EmptyingSignsOut(c: Config, r: Request, status: int, newId: Id, stamp: int, extra: Dict, s: Server, id: Id)
    requires AsLoaded(r) && !r.st.revoked && r.session.modified && r.session.data.Empty()
    requires r.loadedId == Some(id) || r.unloadedId == Some(id)
    requires id in s.keys
    ensures var p := PlanFor(c, r, status, newId, stamp, extra);
            var kept := r.loadedId.Some? && status >= 400 && (r.st.rotated || c.principalOf(r.session.data) != r.before);
            && (id in ExecAll(p.cmds, s).keys <==> kept)
            && (p.cookie == Cleared <==> !kept)
  {
    var p := PlanFor(c, r, status, newId, stamp, extra);
    ExecOne(Del(id), s);
    if r.st.id.Some? {
      ExecAllAppends([Del(id)], DropCmds(r.st.subject, id), s);
      if Truthy(r.st.subject) { ExecOne(IndexDel(r.st.subject.value, id), Exec(Del(id), s)); }
    }
  }

  // The exception is real: a signed-in user's session, emptied by a handler
  // whose response is a 401, is still there, and the browser keeps its cookie.
  lemma FailedResponseKeepsTheSession(c: Config, id: Id, remaining: nat, newId: Id, stamp: int, extra: Dict, s: Server)
    requires forall d :: c.principalOf(d) == DefaultPrincipal(["user_id"], d)
    requires id in s.keys && s.keys[id].data.data == Dict(["user_id"], map["user_id" := Text("ada")])
    ensures var r := LoadedRequest(c, id, s.keys[id].data, remaining);
            var handled := r.(session := Sessions.Apply(r.session, Sessions.Clear).0);
            var p := PlanFor(c, handled, 401, newId, stamp, extra);
            id in ExecAll(p.cmds, s).keys && p.cookie == NoCookie
  {
    var r := LoadedRequest(c, id, s.keys[id].data, remaining);
    assert DefaultPrincipal(["user_id"], EMPTY) == None;
    assert DefaultPrincipal(["user_id"], r.session.data).Some? by {
      assert seq(1, i requires 0 <= i < 1 => r.session.data.Get(["user_id"][i]))[0] != Null;
    }
    EmptyingSignsOut(c, r.(session := Sessions.Apply(r.session, Sessions.Clear).0), 401, newId, stamp, extra, s, id);
  }

  // Where a load does not restart the idle clock, a response to a request that
  // read its session does, whether it writes or not.
  lemma ReadingRestartsTheIdleClock(c: Config, r: Request, status: int, newId: Id, stamp: int, extra: Dict, s: Server, id: Id)
    requires AsLoaded(r) && r.loadedId == Some(id) && id in s.keys
    requires !c.refreshOnLoad && r.session.accessed && !r.st.revoked && !r.st.rotated
    requires c.principalOf(r.session.data) == r.before && !(r.session.modified && r.session.data.Empty())
    ensures var t := ExecAll(PlanFor(c, r, status, newId, stamp, extra).cmds, s);
            && id in t.keys && t.keys[id].idleAt == s.now + c.clocks.idle && t.keys[id].deadline == s.keys[id].deadline
  {
    var p := PlanFor(c, r, status, newId, stamp, extra);
    if OutcomeOf(c, r, status) == Write {
      var record := WriteRecord(r, stamp);
      var tail := p.cmds[1..];
      assert p.cmds == [HSetEx(id, record, c.clocks.idle)] + tail;
      ExecAllAppends([HSetEx(id, record, c.clocks.idle)], tail, s);
      ExecOne(HSetEx(id, record, c.clocks.idle), s);
      KeyStays(tail, Exec(HSetEx(id, record, c.clocks.idle), s));
    } else {
      ExecOne(HExpire(id, c.clocks.idle), s);
    }
  }

  // -- when the identifier changes -------------------------------------------

  // The handler asked for a rotation, or left another principal in the session.
  predicate Asked(c: Config, r: Request) { r.st.rotated || c.principalOf(r.session.data) != r.before }

  // A response that succeeds gives the session a new identifier exactly when a
  // rotation was asked for or the principal changed.  The old identifier is
  // then gone and the new one live; otherwise the old one stays.
  lemma RotatesWhenAsked(c: Config, r: Request, status: int, newId: Id, stamp: int, extra: Dict, s: Server, id: Id)
    requires c.clocks.Valid() && AsLoaded(r) && r.loadedId == Some(id) && !r.st.revoked && status < 400 && newId != id
    requires !(r.session.modified && r.session.data.Empty())
    ensures var p := PlanFor(c, r, status, newId, stamp, extra);
            var t := ExecAll(p.cmds, s);
            && (p.cookie.Names? && p.cookie.id == newId <==> Asked(c, r))
            && (Asked(c, r) ==>
                  id !in t.keys && Loadable(t, newId) && t.keys[newId].data.data == r.session.data
                  && t.keys[newId].deadline == Some(s.now + c.clocks.absolute)
                  && p.cookie.maxAge == if c.cookieOnly then None else Some(c.clocks.absolute))
            && (!Asked(c, r) ==> (id in s.keys ==> id in t.keys) && (newId in t.keys <==> newId in s.keys))
  {
    var p := PlanFor(c, r, status, newId, stamp, extra);
    if Asked(c, r) {
      var record := Record(r.session.data, stamp, stamp);
      RotationLeaves(c.clocks, r.st, NonEmpty(c.subjectOf(r.session.data)), newId, record, extra, s);
    } else if OutcomeOf(c, r, status) == Write {
      WriteLeaves(c, r, newId, stamp, extra, s, newId);
      WriteLeaves(c, r, newId, stamp, extra, s, id);
    } else if OutcomeOf(c, r, status) == Touch {
      ExecOne(HExpire(id, c.clocks.idle), s);
    }
  }

  // What a rotation does to the keys.
  lemma RotationLeaves(k: Clocks, st: State, subject: Option<Subject>, newId: Id, record: Record, extra: Dict, s: Server)
    requires st.id != Some(newId)
    ensures var t := ExecAll(RotateCmds(k, st, subject, newId, record, extra), s);
            && (st.id.Some? ==> st.id.value !in t.keys)
            && newId in t.keys && t.keys[newId] == Hash(record, s.now + k.idle, Some(s.now + k.absolute)) && t.now == s.now
  {
    hide ExecAll, IndexCmds, DropCmds;
    var front := if st.id.Some? then [Del(st.id.value)] + DropCmds(st.subject, st.id.value) else [];
    var tail := if subject.Some? then IndexCmds(subject.value, newId, record, extra, k.absolute) else [];
    assert RotateCmds(k, st, subject, newId, record, extra) == front + (CreateCmds(k, newId, record) + tail);
    var u := ExecAll(front, s);
    FrontLeaves(st, s);
    ExecAllAppends(front, CreateCmds(k, newId, record) + tail, s);
    ExecAllAppends(CreateCmds(k, newId, record), tail, u);
    ExecPair(HSetEx(newId, record, k.idle), Expire(newId, k.absolute), u);
    EntriesOnly(subject, newId, record, extra, k.absolute);
    KeyStays(tail, ExecAll(CreateCmds(k, newId, record), u));
  }

  lemma FrontLeaves(st: State, s: Server)
    ensures var t := ExecAll(if st.id.Some? then [Del(st.id.value)] + DropCmds(st.subject, st.id.value) else [], s);
            t.now == s.now && t.keys == if st.id.Some? then s.keys - {st.id.value} else s.keys
  {
    if st.id.Some? {
      var id := st.id.value;
      ExecAllAppends([Del(id)], DropCmds(st.subject, id), s);
      ExecOne(Del(id), s);
      if Truthy(st.subject) { ExecOne(IndexDel(st.subject.value, id), Exec(Del(id), s)); }
    }
  }

  // And what a write does to one.
  lemma WriteLeaves(c: Config, r: Request, newId: Id, stamp: int, extra: Dict, s: Server, id: Id)
    requires r.st.id.Some?
    ensures var t := ExecAll(WriteCmds(c, r, newId, stamp, extra), s);
            id in t.keys <==> id == r.st.id.value || id in s.keys
  {
    hide ExecAll, IndexCmds;
    var record, st := WriteRecord(r, stamp), Written(c, r, newId, stamp);
    var tail := if Truthy(st.subject) then IndexCmds(st.subject.value, st.id.value, record, extra, EntryTime(c, st)) else [];
    EntriesOnly(st.subject, st.id.value, record, extra, EntryTime(c, st));
    ExecAllAppends(SaveCmds(c.clocks, r.st.id.value, record), tail, s);
    ExecOne(HSetEx(r.st.id.value, record, c.clocks.idle), s);
    KeyStays(tail, ExecAll(SaveCmds(c.clocks, r.st.id.value, record), s));
  }

  // A response the client saw fail leaves no trace of a change of identity: the
  // server is as it was and no cookie is sent.
  lemma FailedChangeLeavesNoTrace(c: Config, r: Request, status: int, newId: Id, stamp: int, extra: Dict)
    requires !r.st.revoked && !Forgets(r) && Asked(c, r) && status >= 400
    ensures PlanFor(c, r, status, newId, stamp, extra) == Plan([], r.st, NoCookie)
  {
  }

  // A handler that rotated for itself keeps the identifier it was given: the
  // cookie names it, and nothing is created or deleted.
  lemma HandlersRotationStands(c: Config, r: Request, status: int, newId: Id, stamp: int, extra: Dict, s: Server, id: Id)
    requires r.st.id.Some? && r.st.id != r.loadedId && !r.st.revoked && !(status >= 400 && Asked(c, r))
    requires id in s.keys
    ensures var p := PlanFor(c, r, status, newId, stamp, extra);
            && p.cookie.Names? && p.cookie.id == r.st.id.value && p.cookie.maxAge == (if c.cookieOnly then None else r.st.remaining)
            && id in ExecAll(p.cmds, s).keys
  {
    var p := PlanFor(c, r, status, newId, stamp, extra);
    if r.session.modified { WriteLeaves(c, r, newId, stamp, extra, s, id); }
  }

  // A session the handler revoked stays revoked: the cookie goes, a record that
  // had not loaded with it, and nothing is written.
  lemma RevokedStaysRevoked(c: Config, r: Request, status: int, newId: Id, stamp: int, extra: Dict, s: Server)
    requires r.st.revoked && r.st.id == None
    ensures var p := PlanFor(c, r, status, newId, stamp, extra);
            && p.cookie == Cleared
            && ExecAll(p.cmds, s) == if r.unloadedId.Some? then s.(keys := s.keys - {r.unloadedId.value}) else s
  {
    if r.unloadedId.Some? { ExecOne(Del(r.unloadedId.value), s); }
  }

  // Where no identity changed: a session is written, and named by a cookie,
  // exactly when it was used, is not empty, and was changed or is always saved;
  // and but for that, a sign-out and a restart of the idle clock that the load
  // left undone, nothing is sent.
  lemma WrittenWhenChanged(c: Config, r: Request, status: int, newId: Id, stamp: int, extra: Dict)
    requires AsLoaded(r) && !r.st.revoked && !Asked(c, r) && !Forgets(r)
    requires r.session.modified ==> r.session.accessed
    ensures var p := PlanFor(c, r, status, newId, stamp, extra);
            var writes := r.session.accessed && !r.session.data.Empty() && (r.session.modified || c.alwaysSave);
            var signsOut := r.loadedId.Some? && r.session.modified && r.session.data.Empty();
            var restarts := r.session.accessed && !c.refreshOnLoad && r.loadedId.Some?;
            && (p.cookie.Names? <==> writes)
            && (p.cookie.Names? ==> p.cookie.id == if r.loadedId.Some? then r.loadedId.value else newId)
            && (p.cookie == Cleared <==> signsOut)
            && (p.cmds == [] <==> !writes && !signsOut && !restarts)
            && (!writes && !signsOut ==> p.st == r.st)
  {
    hide IndexCmds, DropCmds;
  }

  // -- the entry beside the record -------------------------------------------

  // Whatever a response writes for a session with a subject, its index entry
  // shows the two stamps of the stored record and lasts as long as the cookie
  // says, or a full absolute clock when that is not known.
  lemma IndexedAsStored(c: Config, r: Request, newId: Id, stamp: int, extra: Dict, s: Server)
    requires c.clocks.Valid() && Truthy(c.subjectOf(r.session.data))
    ensures var st, t := Written(c, r, newId, stamp), ExecAll(WriteCmds(c, r, newId, stamp, extra), s);
            Shown(t, c.subjectOf(r.session.data).value, st.id.value, extra,
                  if r.st.id == None then c.clocks.absolute
                  else if r.st.remaining.Some? && r.st.remaining.value > 0 then r.st.remaining.value else c.clocks.absolute)
            && t.keys[st.id.value].data.lastAccess == stamp
            && t.keys[st.id.value].data.created == if r.st.created.Some? then r.st.created.value else stamp
  {
    hide ExecAll;
    var record, st := WriteRecord(r, stamp), Written(c, r, newId, stamp);
    var front := if r.st.id == None then CreateCmds(c.clocks, newId, record) else SaveCmds(c.clocks, r.st.id.value, record);
    var entry := IndexSet(st.subject.value, st.id.value, Descriptor(record.created, record.lastAccess, extra), EntryTime(c, st));
    assert WriteCmds(c, r, newId, stamp, extra) == front + [entry];
    ExecAllAppends(front, [entry], s);
    ExecOne(entry, ExecAll(front, s));
    if r.st.id == None { ExecPair(HSetEx(newId, record, c.clocks.idle), Expire(newId, c.clocks.absolute), s); }
    else { ExecOne(HSetEx(r.st.id.value, record, c.clocks.idle), s); }
  }

  lemma RotatedIsIndexed(k: Clocks, st: State, subject: Option<Subject>, newId: Id, record: Record, extra: Dict, s: Server)
    requires k.Valid() && subject.Some? && st.id != Some(newId)
    ensures Shown(ExecAll(RotateCmds(k, st, subject, newId, record, extra), s), subject.value, newId, extra, k.absolute)
  {
    RotationLeaves(k, st, subject, newId, record, extra, s);
    hide ExecAll, DropCmds;
    var front := if st.id.Some? then [Del(st.id.value)] + DropCmds(st.subject, st.id.value) else [];
    var entry := IndexSet(subject.value, newId, Descriptor(record.created, record.lastAccess, extra), k.absolute);
    assert RotateCmds(k, st, subject, newId, record, extra) == (front + CreateCmds(k, newId, record)) + [entry];
    ExecAllAppends(front + CreateCmds(k, newId, record), [entry], s);
    ExecOne(entry, ExecAll(front + CreateCmds(k, newId, record), s));
  }

  // The subject's index has an entry for the id that tells of its stored record.
  predicate Shown(s: Server, subject: Subject, id: Id, extra: Dict, remaining: nat) {
    && id in s.keys && id in s.Members(subject)
    && s.Members(subject)[id] == Entry(Descriptor(s.keys[id].data.created, s.keys[id].data.lastAccess, extra), s.now + remaining)
  }

  // A session that was loaded keeps its date of creation when it is saved.
  lemma SaveKeepsCreation(c: Config, id: Id, record: Record, remaining: nat, session: Sessions.View, newId: Id, stamp: int, extra: Dict, s: Server)
    requires c.clocks.Valid()
    ensures var r := LoadedRequest(c, id, record, remaining).(session := session);
            var t := ExecAll(WriteCmds(c, r, newId, stamp, extra), s);
            id in t.keys && t.keys[id].data == Record(session.data, record.created, stamp)
  {
    hide ExecAll, IndexCmds;
    var r := LoadedRequest(c, id, record, remaining).(session := session);
    var st := Written(c, r, newId, stamp);
    var tail := if Truthy(st.subject) then IndexCmds(st.subject.value, id, WriteRecord(r, stamp), extra, EntryTime(c, st)) else [];
    EntriesOnly(st.subject, id, WriteRecord(r, stamp), extra, EntryTime(c, st));
    ExecAllAppends(SaveCmds(c.clocks, id, WriteRecord(r, stamp)), tail, s);
    ExecOne(HSetEx(id, WriteRecord(r, stamp), c.clocks.idle), s);
    KeyStays(tail, ExecAll(SaveCmds(c.clocks, id, WriteRecord(r, stamp)), s));
  }

  // A session that was loaded under a subject and is signed out leaves neither
  // its key nor its entry behind,
  lemma SignedOutLeavesNothing(c: Config, id: Id, record: Record, remaining: nat, session: Sessions.View, status: int,
                               newId: Id, stamp: int, extra: Dict, s: Server)
    requires status < 400 && session.modified && session.data.Empty()
    ensures var r := LoadedRequest(c, id, record, remaining).(session := session);
            var t := ExecAll(PlanFor(c, r, status, newId, stamp, extra).cmds, s);
            id !in t.keys && (Truthy(c.subjectOf(record.data)) ==> id !in t.Members(c.subjectOf(record.data).value))
  {
    hide ExecAll;
    FrontEnds(LoadedRequest(c, id, record, remaining).st, s);
  }

  // and nor does one whose change of principal gives it another identifier.
  lemma RotatedLeavesNothing(c: Config, id: Id, record: Record, remaining: nat, session: Sessions.View, status: int,
                             newId: Id, stamp: int, extra: Dict, s: Server)
    requires newId != id && status < 400 && !(session.modified && session.data.Empty())
    requires c.principalOf(session.data) != c.principalOf(record.data)
    ensures var r := LoadedRequest(c, id, record, remaining).(session := session);
            var t := ExecAll(PlanFor(c, r, status, newId, stamp, extra).cmds, s);
            id !in t.keys && (Truthy(c.subjectOf(record.data)) ==> id !in t.Members(c.subjectOf(record.data).value))
  {
    hide ExecAll, DropCmds, IndexCmds;
    var st := LoadedRequest(c, id, record, remaining).st;
    var subject, now := NonEmpty(c.subjectOf(session.data)), Record(session.data, stamp, stamp);
    RotationLeaves(c.clocks, st, subject, newId, now, extra, s);
    FrontEnds(st, s);
    var front := [Del(id)] + DropCmds(st.subject, id);
    var tail := CreateCmds(c.clocks, newId, now) + (if subject.Some? then IndexCmds(subject.value, newId, now, extra, c.clocks.absolute) else []);
    assert RotateCmds(c.clocks, st, subject, newId, now, extra) == front + tail;
    ExecAllAppends(front, tail, s);
    EntriesAreFor(subject, newId, now, extra, c.clocks.absolute);
    if Truthy(st.subject) { EntryStaysAway(tail, ExecAll(front, s), st.subject.value, id); }
  }

  // A revocation takes the entry out of the index it is told of, or of the one
  // the session was loaded with when it is told of none.
  lemma RevokedIsUnindexed(st: State, whom: Option<Subject>, s: Server)
    requires st.id.Some?
    ensures var subject := if whom.Some? then whom else st.subject;
            var t := ExecAll(RevokeCmds(st, whom), s);
            st.id.value !in t.keys && (Truthy(subject) ==> st.id.value !in t.Members(subject.value))
  {
    hide ExecAll, DropCmds;
    FrontEnds(st.(subject := if whom.Some? then whom else st.subject), s);
  }

  // Signing out ends a record that did not load as well.
  lemma UnloadedIsForgotten(c: Config, id: Id, failed: bool, session: Sessions.View, revoked: bool, status: int,
                            newId: Id, stamp: int, extra: Dict, s: Server)
    requires revoked || (session.modified && session.data.Empty())
    ensures var u := UnloadedRequest(c, id, failed);
            var r := u.(session := session, st := if revoked then Revoked(u.st) else u.st);
            var p := PlanFor(c, r, status, newId, stamp, extra);
            id !in ExecAll(p.cmds, s).keys && p.cookie == Cleared
  {
    ExecOne(Del(id), s);
  }

  lemma FrontEnds(st: State, s: Server)
    requires st.id.Some?
    ensures var t := ExecAll([Del(st.id.value)] + DropCmds(st.subject, st.id.value), s);
            st.id.value !in t.keys && (Truthy(st.subject) ==> st.id.value !in t.Members(st.subject.value))
  {
    var id := st.id.value;
    ExecAllAppends([Del(id)], DropCmds(st.subject, id), s);
    ExecOne(Del(id), s);
    if Truthy(st.subject) { ExecOne(IndexDel(st.subject.value, id), Exec(Del(id), s)); }
  }

  lemma EntriesAreFor(subject: Option<Subject>, id: Id, record: Record, extra: Dict, remaining: nat)
    ensures subject.Some? ==> forall i :: 0 <= i < |IndexCmds(subject.value, id, record, extra, remaining)| ==>
              IndexCmds(subject.value, id, record, extra, remaining)[i].IndexSet? && IndexCmds(subject.value, id, record, extra, remaining)[i].id == id
  {
  }

  lemma {:induction false} EntryStaysAway(cmds: seq<Cmd>, s: Server, subject: Subject, id: Id)
    requires forall i :: 0 <= i < |cmds| && cmds[i].IndexSet? ==> cmds[i].id != id
    requires id !in s.Members(subject)
    ensures id !in ExecAll(cmds, s).Members(subject)
    decreases |cmds|
  {
    if cmds == [] {
    } else {
      EntryStaysAway(cmds[1..], Exec(cmds[0], s), subject, id);
    }
  }

  // -- the objects -----------------------------------------------------------

  class RequestState {
    const store: SessionState
    const load: LoadStatus
    const loadedId: Option<Id>
    const unloadedId: Option<Id>
    const before: Principal

    constructor (store: SessionState, load: LoadStatus, loadedId: Option<Id>, unloadedId: Option<Id>, before: Principal)
      ensures this.store == store && this.load == load && this.loadedId == loadedId
      ensures this.unloadedId == unloadedId && this.before == before
    {
      this.store, this.load, this.loadedId, this.unloadedId, this.before := store, load, loadedId, unloadedId, before;
    }

    function Now(): Request
      reads this, store, store.data
    {
      Request(store.data.Now(), store.Now(), load, loadedId, unloadedId, before)
    }
  }

  class SessionMiddleware {
    const c: Config
    const store: RedisSessionStore

    constructor (c: Config, store: RedisSessionStore)
      requires c.clocks == store.clocks && c.failClosed == store.failClosed
      ensures this.c == c && this.store == store && Valid()
    {
      this.c, this.store := c, store;
    }

    predicate Valid() { c.clocks == store.clocks && c.failClosed == store.failClosed }

    // What a request starts with: the session its cookie names, if there is one
    // to load, and whose it was.  Under fail-closed a failed read is the end of
    // the request.
    method Load(cookie: Option<string>, reachable: bool, decodes: bool, tidies: bool) returns (r: Result<RequestState>)
      requires Valid()
      modifies store.redis
      ensures r.Ok? ==> fresh(r.value) && fresh(r.value.store) && fresh(r.value.store.data)
      ensures var s := old(store.redis.server);
              store.redis.server == if cookie.Some? && IsValidId(cookie.value) && reachable
                then ExecAll(if tidies then LoadCmds(c.clocks, s, cookie.value, c.refreshOnLoad)
                             else ReadCmds(c.clocks, cookie.value, c.refreshOnLoad), s)
                else s
      ensures var s := old(store.redis.server);
              if cookie == None || !IsValidId(cookie.value) then
                r.Ok? && r.value.Now() == AnonymousRequest(c)
              else if reachable && decodes && Loadable(s, cookie.value) then
                && r.Ok? && r.value.Now() == LoadedRequest(c, cookie.value, s.keys[cookie.value].data,
                                                           s.keys[cookie.value].deadline.value - s.now)
              else
                var fails := !reachable || Loadable(s, cookie.value);
                if fails && c.failClosed then r.Err? else r.Ok? && r.value.Now() == UnloadedRequest(c, cookie.value, fails)
    {
      hide ExecAll, LoadCmds, ReadCmds, IsValidId;
      if cookie == None || !IsValidId(cookie.value) {
        var none := new Sessions.Session(EMPTY);
        var unstored := new SessionState(none);
        var q := new RequestState(unstored, Missing, None, None, c.principalOf(EMPTY));
        return Ok(q);
      }
      var id := cookie.value;
      var loaded, failed, raised := store.LoadWithStatus(id, c.refreshOnLoad, reachable, decodes, tidies);
      if raised {
        return Err("Could not load session");
      }
      if loaded == None {
        var none := new Sessions.Session(EMPTY);
        var unstored := new SessionState(none);
        var q := new RequestState(unstored, if failed then Failed else NotFound, None, Some(id), c.principalOf(EMPTY));
        return Ok(q);
      }
      var record := loaded.value.record;
      var session := new Sessions.Session(record.data);
      var state := new SessionState(session);
      state.sessionId := Some(id);
      state.subject := c.subjectOf(record.data);
      state.created := Some(record.created);
      state.absoluteRemaining := Some(loaded.value.remaining);
      var q := new RequestState(state, LoadStatus.Loaded, Some(id), None, c.principalOf(record.data));
      r := Ok(q);
    }

    // Creates or saves the record, then writes its index entry for as long as
    // the session has left.
    method Write(r: RequestState, newId: Id, stamp: int, extra: Dict)
      requires Valid()
      modifies store.redis, r.store
      ensures store.redis.server == ExecAll(WriteCmds(c, old(r.Now()), newId, stamp, extra), old(store.redis.server))
      ensures r.store.Now() == Written(c, old(r.Now()), newId, stamp)
    {
      ghost var start := store.redis.server;
      ghost var was := r.Now();
      var state := r.store;
      var create := state.sessionId == None;
      if create {
        state.sessionId := Some(newId);
        state.absoluteRemaining := Some(store.clocks.absolute);
      }
      var id := state.sessionId.value;
      var data := state.data.Raw();
      var record := Record(data, if state.created.Some? then state.created.value else stamp, stamp);
      assert record == WriteRecord(was, stamp);
      if create {
        store.Create(id, record);
        state.created := Some(record.created);
      } else {
        store.Save(id, record);
      }
      ghost var front := if create then CreateCmds(c.clocks, id, record) else SaveCmds(c.clocks, id, record);
      var subject := c.subjectOf(state.data.data);
      state.subject := subject;
      var entry := EntryTime(c, state.Now());
      ghost var tail := if Truthy(subject) then IndexCmds(subject.value, id, record, extra, entry) else [];
      if Truthy(subject) {
        store.Index(subject.value, id, record, entry, extra);
      }
      ExecAllAppends(front, tail, start);
    }

    // At response start: decide once what the response owes, then do it.  Of
    // what it does only the delete of a record that did not load may fail
    // without failing the response.
    method OnResponseStart(r: RequestState, status: int, newId: Id, stamp: int, extra: Dict, forgets: bool) returns (cookie: Cookie)
      requires Valid()
      modifies store.redis, r.store, r.store.data
      ensures var p := PlanFor(c, old(r.Now()), status, newId, stamp, extra);
              && store.redis.server == (if Forgets(old(r.Now())) && !forgets then old(store.redis.server)
                                        else ExecAll(p.cmds, old(store.redis.server)))
              && r.store.Now() == p.st && cookie == p.cookie
      // so what the application changed is what the cookie's record now holds
      ensures var was := old(r.Now());
              was.session.modified && was.session.accessed && !was.session.data.Empty() && !was.st.revoked
              && OutcomeOf(c, was, status) != Suppress ==>
                && cookie.Names? && cookie.id in store.redis.server.keys
                && store.redis.server.keys[cookie.id].data.data == was.session.data
    {
      var now := r.Now();
      if now.session.modified && now.session.accessed && !now.session.data.Empty() && !now.st.revoked
         && OutcomeOf(c, now, status) != Suppress {
        NoLostWrite(c, now, status, newId, stamp, extra, store.redis.server);
      }
      var outcome := OutcomeOf(c, now, status);
      if Forgets(now) {
        if forgets {
          store.Delete(r.unloadedId.value);
        }
        return Cleared;
      }
      match outcome {
        case Nothing => cookie := NoCookie;
        case Suppress => cookie := NoCookie;
        case ClearCookie => cookie := Cleared;
        case SignOut =>
          store.Revoke(r.store, None);
          cookie := Cleared;
        case CookieOnly =>
          if now.session.modified {
            Write(r, newId, stamp, extra);
          }
          cookie := CookieFor(c, r.store.Now());
        case Rotate =>
          store.Rotate(r.store, Some(NonEmpty(c.subjectOf(r.store.data.data))), extra, newId, stamp);
          cookie := CookieFor(c, r.store.Now());
        case Write =>
          Write(r, newId, stamp, extra);
          cookie := CookieFor(c, r.store.Now());
        case Touch =>
          store.Touch(r.loadedId.value);
          cookie := NoCookie;
      }
    }
  }

  // -- the session gate ------------------------------------------------------

  datatype GateVerdict = Admitted | Rejected(reason: string)

  // The gate's decision for a request with sessions set up, before any cache.
  function Gate(r: Request, limit: Option<nat>, absolute: nat): GateVerdict {
    match r.load
    case Missing => Rejected("missing")
    case NotFound => Rejected("expired")
    case Failed => Rejected("unavailable")
    case Loaded =>
      var cleared := r.session.modified && r.session.data.Empty();
      if r.st.id == None || r.st.revoked || cleared then Rejected("missing")
      else if limit == None then Admitted
      else
        var age := IssuedAgo(absolute, r.st);
        if age.Some? && age.value <= limit.value then Admitted else Rejected("stale")
  }

  // What the gate makes of each way a request can begin: no cookie, a session
  // that is gone, one that could not be read, and one that loaded, which a
  // limit refuses when it was issued longer ago.
  lemma GateTellsWhy(c: Config, id: Id, record: Record, remaining: nat, limit: nat)
    requires remaining <= c.clocks.absolute
    ensures forall l :: Gate(AnonymousRequest(c), l, c.clocks.absolute) == Rejected("missing")
    ensures forall l :: Gate(UnloadedRequest(c, id, false), l, c.clocks.absolute) == Rejected("expired")
    ensures forall l :: Gate(UnloadedRequest(c, id, true), l, c.clocks.absolute) == Rejected("unavailable")
    ensures var r := LoadedRequest(c, id, record, remaining);
            && Gate(r, None, c.clocks.absolute) == Admitted
            && Gate(r, Some(limit), c.clocks.absolute) == if c.clocks.absolute - remaining <= limit then Admitted else Rejected("stale")
  {
  }

  // A session that the handler has ended is refused, whatever the limit; any
  // other that loaded is admitted where there is none, and where there is one
  // refused for its age alone.
  lemma GateRefusesTheEnded(r: Request, limit: nat, absolute: nat)
    requires r.load.Loaded?
    ensures var ended := r.st.id == None || r.st.revoked || (r.session.modified && r.session.data.Empty());
            && (Gate(r, None, absolute) == Admitted <==> !ended)
            && (ended ==> Gate(r, None, absolute) == Gate(r, Some(limit), absolute) == Rejected("missing"))
            && (!ended ==> Gate(r, Some(limit), absolute) == Admitted || Gate(r, Some(limit), absolute) == Rejected("stale"))
  {
  }
}
