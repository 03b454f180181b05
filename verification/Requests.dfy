// Any number of requests at once, each a load, an application and a response,
// with their commands interleaved in every way, operations failing part-way,
// and revocations, listings and deletions going on underneath.
module Requests {
  import opened Prelude
  import opened Payloads
  import opened SessionServer
  import opened Lifecycle
  import opened SessionOps
  import opened SessionStores
  import opened Middleware
  import Sessions

  type Rid = nat
  type JobId = nat

  datatype Phase =
    | Arrived(cookie: Id)                          // a well-formed cookie, not read yet
    | Reading(cookie: Id, data: Option<Record>)    // the payload is read, the deadline not yet
    | Tidying(cookie: Id)                          // what was found is not a session
    | Running(r: Request)                          // the application has the request
    // A store operation is in flight: `cmds` are still to be sent, `then` is
    // the request once all are answered, and a response start ends with `reply`.
    | Busy(r: Request, cmds: seq<Cmd>, after: Request, reply: Option<Cookie>)
    | Done

  // What else goes on in the store, in some request or outside any: each has
  // read a subject's index, and may stop for good between any two steps.
  datatype Job =
    | RevokingAll(subject: Subject, ids: seq<Id>, cmds: seq<Cmd>)
    | RevokingOne(subject: Subject, id: string, accepted: bool, cmds: seq<Cmd>)
    // A listing asks of each candidate whether its field, then its key, has
    // time left, and afterwards drops the entries of the dead.
    | Verifying(subject: Subject, todo: seq<Id>, field: Option<bool>, dead: seq<Id>)
    | Pruning(subject: Subject, cmds: seq<Cmd>)

  // Beside the server: which request generated an id; the principal of the
  // first cookie naming it, and the expiry of the latest; when a request
  // arrived.
  datatype World = World(sys: Sys, owner: map<Id, Rid>, pinned: map<Id, Principal>, cookieUntil: map<Id, Option<nat>>,
                         began: map<Rid, nat>, reqs: map<Rid, Phase>, jobs: map<JobId, Job>)

  const NEW_WORLD := World(START, map[], map[], map[], map[], map[], map[])

  datatype Act =
    | Arrive(rid: Rid, cookie: Option<string>)
    | Read(rid: Rid)
    | AskTtl(rid: Rid, decodes: bool)
    | Tidy(rid: Rid, works: bool)
    | ReadFails(rid: Rid)
    | Application(rid: Rid, ops: seq<Sessions.Op>)
    | Reauthenticate(rid: Rid)
    | CallRotate(rid: Rid, target: Option<Option<Subject>>, newId: Id, stamp: int, extra: Dict)
    | CallRevoke(rid: Rid, whom: Option<Subject>)
    | Respond(rid: Rid, status: int, newId: Id, stamp: int, extra: Dict)
    | Send(rid: Rid)
    | Return(rid: Rid)
    | Fail(rid: Rid, kept: bool)   // an operation raises; `kept` when only its index entry was left to write
    | Elapse(seconds: nat)
    | Elsewhere(id: Id)      // somebody deletes a session outright
    | RevokeAll(job: JobId, subject: Subject, ids: seq<Id>)
    | RevokeById(job: JobId, id: string, subject: Subject)
    | ListSubject(job: JobId, subject: Subject, ids: seq<Id>)
    | Check(job: JobId)      // the next answer of a verification
    | Proceed(job: JobId)    // the next command of a job

  // An action of no request in particular.
  predicate Outside(a: Act) {
    a.Elapse? || a.Elsewhere? || a.RevokeAll? || a.RevokeById? || a.ListSubject? || a.Check? || a.Proceed?
  }

  // What an action asks of the server and of the supply of identifiers.
  function EventOf(c: Config, w: World, a: Act): Option<Event>
    requires Possible(c, w, a)
  {
    match a
    case Arrive(_, cookie) => if cookie.Some? && IsValidId(cookie.value) then Some(Mention(cookie.value)) else None
    case Read(rid) => if c.refreshOnLoad then Some(Do(HGetEx(w.reqs[rid].cookie, c.clocks.idle))) else None
    case Tidy(rid, works) => if works then Some(Do(Del(w.reqs[rid].cookie))) else None
    case CallRotate(_, _, newId, _, _) => Some(Name(newId))
    case Respond(_, _, newId, _, _) => Some(Name(newId))
    case Send(rid) => Some(Do(w.reqs[rid].cmds[0]))
    case Elapse(seconds) => Some(Pass(seconds))
    case Elsewhere(id) => Some(Do(Del(id)))
    case Proceed(job) => Some(Do(w.jobs[job].cmds[0]))
    case _ => None
  }

  predicate Fresh(w: World, id: Id) { id !in w.sys.open && id !in w.sys.building && id !in w.owner }

  // Cookies carry what a Set-Cookie named, or text that is nobody's identifier.
  predicate Presentable(w: World, id: Id) { id in w.pinned || (id !in w.owner && id !in w.sys.building && id !in w.sys.born) }

  predicate IsRunning(w: World, rid: Rid) { rid in w.reqs && w.reqs[rid].Running? }

  ghost predicate Possible(c: Config, w: World, a: Act) {
    match a
    case Arrive(rid, cookie) => rid !in w.reqs && (cookie.Some? && IsValidId(cookie.value) ==> Presentable(w, cookie.value))
    case Read(rid) => rid in w.reqs && w.reqs[rid].Arrived?
    case AskTtl(rid, _) => rid in w.reqs && w.reqs[rid].Reading?
    case Tidy(rid, _) => rid in w.reqs && w.reqs[rid].Tidying?
    case ReadFails(rid) => rid in w.reqs && (w.reqs[rid].Arrived? || w.reqs[rid].Reading?)
    case Application(rid, _) => IsRunning(w, rid)
    case Reauthenticate(rid) => IsRunning(w, rid)
    case CallRotate(rid, _, newId, _, _) => IsRunning(w, rid) && Fresh(w, newId)
    case CallRevoke(rid, _) => IsRunning(w, rid)
    case Respond(rid, _, newId, _, _) => IsRunning(w, rid) && Fresh(w, newId)
    case Send(rid) => rid in w.reqs && w.reqs[rid].Busy? && w.reqs[rid].cmds != []
    case Return(rid) => rid in w.reqs && w.reqs[rid].Busy? && w.reqs[rid].cmds == []
    case Fail(rid, kept) =>
      rid in w.reqs && w.reqs[rid].Busy?
      && (kept ==> forall i :: 0 <= i < |w.reqs[rid].cmds| ==> w.reqs[rid].cmds[i].IndexSet?)
    case Elapse(_) => true
    case Elsewhere(id) => id in w.sys.open
    case RevokeAll(job, subject, ids) => job !in w.jobs && Lists(ids, w.sys.srv.Members(subject).Keys)
    case RevokeById(job, _, _) => job !in w.jobs
    case ListSubject(job, subject, ids) => job !in w.jobs && Lists(ids, w.sys.srv.Members(subject).Keys)
    case Check(job) => job in w.jobs && w.jobs[job].Verifying? && w.jobs[job].todo != []
    case Proceed(job) => job in w.jobs && !w.jobs[job].Verifying? && w.jobs[job].cmds != []
  }

  // A failed read goes on without a session, or ends the request, by policy.
  function FailedRead(c: Config, cookie: Id): Phase {
    if c.failClosed then Done else Running(UnloadedRequest(c, cookie, true))
  }

  // The load's judgement of its two replies.
  function Judged(c: Config, cookie: Id, data: Option<Record>, ttl: Deadline, decodes: bool): Phase {
    match Judge(data, ttl)
    case Live(record, remaining) =>
      if decodes then Running(LoadedRequest(c, cookie, record, remaining)) else FailedRead(c, cookie)
    case HalfDead => Tidying(cookie)
    case Gone => Running(UnloadedRequest(c, cookie, false))
  }

  // The application's own call of rotate.
  function RotateOp(c: Config, r: Request, subject: Option<Option<Subject>>, newId: Id, stamp: int, extra: Dict): Phase {
    var target := if subject.Some? then subject.value else r.st.subject;
    var record := Record(r.session.data, stamp, stamp);
    Busy(r, RotateCmds(c.clocks, r.st, target, newId, record, extra),
         r.(st := Rotated(c.clocks, target, newId, record)), None)
  }

  function RevokeOp(r: Request, subject: Option<Subject>): Phase {
    Busy(r, RevokeCmds(r.st, subject), r.(st := Revoked(r.st), session := Sessions.Apply(r.session, Sessions.Clear).0), None)
  }

  function RespondOp(c: Config, r: Request, status: int, newId: Id, stamp: int, extra: Dict): Phase {
    var p := PlanFor(c, r, status, newId, stamp, extra);
    Busy(r, p.cmds, r.(st := p.st), Some(p.cookie))
  }

  // -- an action, part by part -----------------------------------------------

  function SysAfter(c: Config, w: World, a: Act): Sys
    requires Possible(c, w, a)
  {
    var event := EventOf(c, w, a);
    if event.Some? then Lifecycle.Next(w.sys, event.value) else w.sys
  }

  function OwnerAfter(w: World, a: Act): map<Id, Rid> {
    if a.CallRotate? || a.Respond? then w.owner[a.newId := a.rid] else w.owner
  }

  // The response leaves, and with it a cookie that names an id.
  predicate Issues(w: World, a: Act) {
    a.Return? && a.rid in w.reqs && w.reqs[a.rid].Busy? && w.reqs[a.rid].reply.Some? && w.reqs[a.rid].reply.value.Names?
  }

  function PinnedAfter(c: Config, w: World, a: Act): map<Id, Principal> {
    if Issues(w, a) && w.reqs[a.rid].reply.value.id !in w.pinned then
      w.pinned[w.reqs[a.rid].reply.value.id := c.principalOf(w.reqs[a.rid].after.session.data)]
    else w.pinned
  }

  function CookieUntilAfter(w: World, a: Act): map<Id, Option<nat>> {
    if Issues(w, a) then
      var cookie := w.reqs[a.rid].reply.value;
      w.cookieUntil[cookie.id := if cookie.maxAge.Some? then Some(w.sys.srv.now + cookie.maxAge.value) else None]
    else w.cookieUntil
  }

  function BeganAfter(w: World, a: Act): map<Rid, nat> {
    if a.Arrive? then w.began[a.rid := w.sys.srv.now] else w.began
  }

  // What becomes of the acting request.
  function PhaseAfter(c: Config, w: World, a: Act): Phase
    requires Possible(c, w, a) && !Outside(a)
  {
    match a
    case Arrive(rid, cookie) =>
      if cookie.Some? && IsValidId(cookie.value) then Arrived(cookie.value) else Running(AnonymousRequest(c))
    case Read(rid) => Reading(w.reqs[rid].cookie, ReadData(w.sys.srv, w.reqs[rid].cookie))
    case AskTtl(rid, decodes) =>
      var p := w.reqs[rid];
      Judged(c, p.cookie, p.data, ReadTtl(w.sys.srv, p.cookie), decodes)
    case Tidy(rid, _) => Running(UnloadedRequest(c, w.reqs[rid].cookie, false))
    case ReadFails(rid) => FailedRead(c, w.reqs[rid].cookie)
    case Application(rid, ops) =>
      var r := w.reqs[rid].r;
      Running(r.(session := Sessions.ApplyAll(r.session, ops)))
    case Reauthenticate(rid) =>
      var r := w.reqs[rid].r;
      Running(r.(st := r.st.(rotated := true)))
    case CallRotate(rid, subject, newId, stamp, extra) => RotateOp(c, w.reqs[rid].r, subject, newId, stamp, extra)
    case CallRevoke(rid, subject) => RevokeOp(w.reqs[rid].r, subject)
    case Respond(rid, status, newId, stamp, extra) => RespondOp(c, w.reqs[rid].r, status, newId, stamp, extra)
    case Send(rid) => w.reqs[rid].(cmds := w.reqs[rid].cmds[1..])
    case Return(rid) => if w.reqs[rid].reply == None then Running(w.reqs[rid].after) else Done
    case Fail(rid, kept) =>
      // a rotation records the new id before it writes the entry, a
      // revocation records nothing until all is done
      if w.reqs[rid].reply.Some? then Done
      else if kept && w.reqs[rid].after.st.id.Some? then Running(w.reqs[rid].after)
      else Running(w.reqs[rid].r)
  }

  function ReqsAfter(c: Config, w: World, a: Act): map<Rid, Phase>
    requires Possible(c, w, a)
  {
    if Outside(a) then w.reqs else w.reqs[a.rid := PhaseAfter(c, w, a)]
  }

  // With the last answer in, a listing turns to dropping the entries it found
  // dead.
  function Checked(srv: Server, j: Job): Job
    requires j.Verifying? && j.todo != []
  {
    var id := j.todo[0];
    if j.field == None then j.(field := Some(FieldHasTime(srv, id)))
    else
      var dead := if j.field.value && KeyHasTime(srv, id) then j.dead else j.dead + [id];
      if |j.todo| == 1 then Pruning(j.subject, seq(|dead|, i requires 0 <= i < |dead| => IndexDel(j.subject, dead[i])))
      else Verifying(j.subject, j.todo[1..], None, dead)
  }

  // A new job, or the acting one a step further.
  function JobAfter(w: World, a: Act): Job
    requires a.RevokeAll? || a.RevokeById? || a.ListSubject? || a.Check? || a.Proceed?
    requires a.Check? ==> a.job in w.jobs && w.jobs[a.job].Verifying? && w.jobs[a.job].todo != []
    requires a.Proceed? ==> a.job in w.jobs && !w.jobs[a.job].Verifying? && w.jobs[a.job].cmds != []
  {
    match a
    case RevokeAll(_, subject, ids) => RevokingAll(subject, ids, RevokeAllCmds(ids, subject))
    case RevokeById(_, id, subject) => 
      var cmds := RevokeIdCmds(w.sys.srv, id, subject);
      RevokingOne(subject, id, cmds != [], cmds)
    case ListSubject(_, subject, ids) => if ids == [] then Pruning(subject, []) else Verifying(subject, ids, None, [])
    case Check(job) => Checked(w.sys.srv, w.jobs[job])
    case Proceed(job) => w.jobs[job].(cmds := w.jobs[job].cmds[1..])
  }

  function JobsAfter(c: Config, w: World, a: Act): map<JobId, Job>
    requires Possible(c, w, a)
  {
    if a.RevokeAll? || a.RevokeById? || a.ListSubject? || a.Check? || a.Proceed? then w.jobs[a.job := JobAfter(w, a)] else w.jobs
  }

  function Advance(c: Config, w: World, a: Act): World
    requires Possible(c, w, a)
  {
    World(SysAfter(c, w, a), OwnerAfter(w, a), PinnedAfter(c, w, a), CookieUntilAfter(w, a), BeganAfter(w, a), ReqsAfter(c, w, a),
          JobsAfter(c, w, a))
  }

  // An action gives no id a principal but the one its cookie names,
  lemma PinnedStays(c: Config, w: World, a: Act)
    ensures forall id :: id in w.pinned ==> id in PinnedAfter(c, w, a) && PinnedAfter(c, w, a)[id] == w.pinned[id]
    ensures forall id :: id in PinnedAfter(c, w, a) && id !in w.pinned ==>
              && Issues(w, a) && id == w.reqs[a.rid].reply.value.id
              && PinnedAfter(c, w, a)[id] == c.principalOf(w.reqs[a.rid].after.session.data)
  {
  }

  // and no id a new owner but the one it generates.
  lemma OwnersStay(c: Config, w: World, a: Act)
    requires Possible(c, w, a)
    ensures forall id :: id in w.owner ==> id in OwnerAfter(w, a) && OwnerAfter(w, a)[id] == w.owner[id]
    ensures forall id :: id in OwnerAfter(w, a) && id !in w.owner ==>
              (a.CallRotate? || a.Respond?) && OwnerAfter(w, a)[id] == a.rid && id !in w.sys.open && id !in w.sys.building
  {
    hide Lists, Presentable;
  }

  // With nothing in between, the steps of a load come to what the middleware's
  // does: the session when it is loadable and decodes, the policy on a failed
  // read when it does not, and otherwise no session and nothing left to tidy.
  lemma LoadsAlike(c: Config, s: Server, cookie: Id, decodes: bool)
    ensures var p := Judged(c, cookie, ReadData(s, cookie), ReadTtl(s, cookie), decodes);
            if Loadable(s, cookie) then
              p == if decodes then Running(LoadedRequest(c, cookie, s.keys[cookie].data, s.keys[cookie].deadline.value - s.now))
                   else if c.failClosed then Done
                   else Running(UnloadedRequest(c, cookie, true))
            else if cookie in s.keys then p == Tidying(cookie)
            else p == Running(UnloadedRequest(c, cookie, false))
  {
  }

  // And the two answers about a listed session come to the store's own test.
  lemma ChecksAlike(srv: Server, subject: Subject, todo: seq<Id>, dead: seq<Id>)
    requires |todo| > 1
    ensures Checked(srv, Checked(srv, Verifying(subject, todo, None, dead))) ==
            Verifying(subject, todo[1..], None, if Alive(srv, todo[0]) then dead else dead + [todo[0]])
  {
  }
}
