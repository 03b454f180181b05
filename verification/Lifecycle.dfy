// Every way in which requests may use the session keys, command by command,
// and what no interleaving of them can do.
module Lifecycle {
  import opened Prelude
  import opened Payloads
  import opened SessionServer

  // The TTLs of field "d" and of the session key, in seconds.
  datatype Clocks = Clocks(idle: nat, absolute: nat) {
    predicate Valid() { idle > 0 && absolute > 0 }
  }

  // The three settings, 0 disabling a clock.
  function ClocksOf(idleTtl: nat, absoluteTtl: nat, gcTtl: nat): (k: Clocks)
    requires gcTtl > 0
    ensures k.Valid()
    ensures idleTtl == 0 ==> k.idle == k.absolute
    ensures absoluteTtl > 0 ==> k.absolute == absoluteTtl
    ensures idleTtl > 0 ==> k.idle == idleTtl
  {
    var absolute := if absoluteTtl != 0 then absoluteTtl else gcTtl;
    Clocks(if idleTtl != 0 then idleTtl else absolute, absolute)
  }

  // The server, with who may know which identifier: an id is `building` from
  // the moment it is generated until its creation has set the deadline, and
  // only the creating request knows it then; `open` ids are known to anybody.
  // `born` records when each deadline was set.
  datatype Sys = Sys(srv: Server, open: set<Id>, building: set<Id>, born: map<Id, nat>)

  const START := Sys(EMPTY_SERVER, {}, {}, map[])

  datatype Event =
    | Pass(seconds: nat)
    | Name(id: Id)       // a fresh identifier is generated
    | Mention(id: Id)    // a request arrives with some text as its identifier
    | Do(cmd: Cmd)       // some request's next command reaches the server

  predicate Enabled(k: Clocks, s: Sys, e: Event) {
    match e
    case Pass(_) => true
    case Name(id) => id !in s.open && id !in s.building
    case Mention(id) => id !in s.building
    case Do(cmd) => CmdEnabled(k, s.open, s.building, cmd)
  }

  // Only a creation sets a deadline, once, on the identifier it generated.
  predicate CmdEnabled(k: Clocks, open: set<Id>, building: set<Id>, cmd: Cmd) {
    match cmd
    case HSetEx(id, _, idle) => (id in open || id in building) && idle == k.idle
    case Expire(id, ttl) => id in building && ttl == k.absolute
    case HGetEx(id, idle) => id in open && idle == k.idle
    case HExpire(id, idle) => id in open && idle == k.idle
    case Del(id) => id in open
    case IndexSet(_, id, _, ttl) => id in open && ttl > 0
    case IndexDel(_, _) => true
    case IndexClear(_) => true
  }

  function Next(s: Sys, e: Event): Sys {
    match e
    case Pass(d) => s.(srv := Tick(s.srv, d))
    case Name(id) => s.(building := s.building + {id})
    case Mention(id) => s.(open := s.open + {id})
    case Do(cmd) =>
      var t := s.(srv := Exec(cmd, s.srv));
      if cmd.Expire? then
        t.(open := s.open + {cmd.id}, building := s.building - {cmd.id}, born := s.born[cmd.id := s.srv.now])
      else t
  }

  // -- the invariant ---------------------------------------------------------

  ghost predicate KeyInv(k: Clocks, s: Sys, id: Id)
    requires id in s.srv.keys
  {
    var h := s.srv.keys[id];
    && !Expired(h, s.srv.now) && h.idleAt <= s.srv.now + k.idle
    && (id in s.open || id in s.building)
    && (h.deadline.Some? ==> id in s.open && id in s.born && h.deadline.value == s.born[id] + k.absolute)
  }

  ghost predicate KeysInv(k: Clocks, s: Sys) {
    forall id :: id in s.srv.keys ==> KeyInv(k, s, id)
  }

  ghost predicate IdsInv(s: Sys) {
    && s.open !! s.building
    && (forall id :: id in s.born ==> id in s.open && s.born[id] <= s.srv.now)
  }

  ghost predicate IndexInv(s: Sys) {
    forall subject, id :: subject in s.srv.index && id in s.srv.index[subject] ==>
      id in s.open && s.srv.now < s.srv.index[subject][id].until
  }

  ghost predicate Inv(k: Clocks, s: Sys) { IdsInv(s) && KeysInv(k, s) && IndexInv(s) }

  lemma StartInv(k: Clocks)
    ensures Inv(k, START)
  {
  }

  lemma StepKeepsIds(k: Clocks, s: Sys, e: Event)
    requires IdsInv(s) && Enabled(k, s, e)
    ensures IdsInv(Next(s, e))
  {
    hide Exec, Tick;
    NowGoesOn(s, e);
  }

  lemma NowGoesOn(s: Sys, e: Event)
    ensures s.srv.now <= Next(s, e).srv.now && (!e.Pass? ==> Next(s, e).srv.now == s.srv.now)
  {
  }

  lemma StepKeepsKey(k: Clocks, s: Sys, e: Event, id: Id)
    requires k.Valid() && IdsInv(s) && Enabled(k, s, e) && id in Next(s, e).srv.keys
    requires id in s.srv.keys ==> KeyInv(k, s, id)
    ensures KeyInv(k, Next(s, e), id)
  {
  }

  lemma StepKeepsKeys(k: Clocks, s: Sys, e: Event)
    requires k.Valid() && IdsInv(s) && KeysInv(k, s) && Enabled(k, s, e)
    ensures IdsInv(Next(s, e)) && KeysInv(k, Next(s, e))
  {
    hide KeyInv, Enabled, IdsInv, Next;
    StepKeepsIds(k, s, e);
    forall id | id in Next(s, e).srv.keys ensures KeyInv(k, Next(s, e), id) { StepKeepsKey(k, s, e, id); }
  }

  lemma StepKeepsIndex(k: Clocks, s: Sys, e: Event)
    requires IndexInv(s) && Enabled(k, s, e)
    ensures IndexInv(Next(s, e))
  {
    var t := Next(s, e);
    forall subject, id | subject in t.srv.index && id in t.srv.index[subject]
      ensures id in t.open && t.srv.now < t.srv.index[subject][id].until
    {
      if e.Do? && e.cmd.IndexSet? && subject == e.cmd.subject && id == e.cmd.id {
      } else {
        assert subject in s.srv.index && id in s.srv.index[subject];
      }
    }
  }

  lemma {:induction false} StepInv(k: Clocks, s: Sys, e: Event)
    requires k.Valid() && Inv(k, s) && Enabled(k, s, e)
    ensures Inv(k, Next(s, e))
  {
    StepKeepsKeys(k, s, e);
    StepKeepsIndex(k, s, e);
  }

  // -- one step --------------------------------------------------------------

  // An identifier anybody may know and no load finds.
  predicate Dead(s: Sys, id: Id) { id in s.open && !Loadable(s.srv, id) }

  // Death survives every event: writes, touches, refreshing reads, other
  // creations, deletions and the clock.
  lemma DeadStays(k: Clocks, s: Sys, e: Event, id: Id)
    requires k.Valid() && Inv(k, s) && Enabled(k, s, e) && Dead(s, id)
    ensures Dead(Next(s, e), id)
  {
  }

  // Under the invariant a key is loadable exactly when it carries a deadline.
  lemma LoadableIsBounded(k: Clocks, s: Sys, id: Id)
    requires Inv(k, s)
    ensures Loadable(s.srv, id) <==> id in s.srv.keys && s.srv.keys[id].deadline.Some?
    ensures id in s.srv.keys ==> FieldHasTime(s.srv, id)
  {
    if id in s.srv.keys { assert KeyInv(k, s, id); }
  }

  // -- runs ------------------------------------------------------------------

  // es[i] takes ss[i] to ss[i + 1]; everything starts on an empty server.
  ghost predicate Trace(k: Clocks, ss: seq<Sys>, es: seq<Event>) {
    && k.Valid()
    && |ss| == |es| + 1
    && ss[0] == START
    && forall i :: 0 <= i < |es| ==> Enabled(k, ss[i], es[i]) && ss[i + 1] == Next(ss[i], es[i])
  }

  lemma {:induction false} TraceInv(k: Clocks, ss: seq<Sys>, es: seq<Event>, i: nat)
    requires Trace(k, ss, es) && i < |ss|
    ensures Inv(k, ss[i])
  {
    if i == 0 {
      StartInv(k);
    } else {
      TraceInv(k, ss, es, i - 1);
      StepInv(k, ss[i - 1], es[i - 1]);
    }
  }

  // A dead identifier is dead in every later state, whatever happens.
  lemma {:induction false} DeathIsPermanent(k: Clocks, ss: seq<Sys>, es: seq<Event>, i: nat, j: nat, id: Id)
    requires Trace(k, ss, es) && i <= j < |ss| && Dead(ss[i], id)
    ensures Dead(ss[j], id)
    decreases j - i
  {
    if i == j {
    } else {
      DeathIsPermanent(k, ss, es, i, j - 1, id);
      TraceInv(k, ss, es, j - 1);
      DeadStays(k, ss[j - 1], es[j - 1], id);
    }
  }

  // Once deleted, a session is never loaded again.
  lemma DeletedStaysDead(k: Clocks, ss: seq<Sys>, es: seq<Event>, i: nat, j: nat, id: Id)
    requires Trace(k, ss, es) && i < j < |ss| && es[i] == Do(Del(id))
    ensures !Loadable(ss[j].srv, id)
  {
    assert ss[i + 1] == Next(ss[i], es[i]);
    DeathIsPermanent(k, ss, es, i + 1, j, id);
  }

  lemma {:induction false} BornIsFixed(k: Clocks, ss: seq<Sys>, es: seq<Event>, i: nat, j: nat, id: Id)
    requires Trace(k, ss, es) && i <= j < |ss| && id in ss[i].born
    ensures id in ss[j].born && ss[j].born[id] == ss[i].born[id] && ss[i].srv.now <= ss[j].srv.now
    decreases j - i
  {
    if i == j {
    } else {
      BornIsFixed(k, ss, es, i, j - 1, id);
      TraceInv(k, ss, es, j - 1);
    }
  }

  // Past its absolute deadline a session is never loaded again, and while it
  // is loaded the deadline stands where its creation put it.
  lemma DeadlineIsFinal(k: Clocks, ss: seq<Sys>, es: seq<Event>, i: nat, j: nat, id: Id)
    requires Trace(k, ss, es) && i <= j < |ss| && id in ss[i].born
    ensures Loadable(ss[j].srv, id) ==>
              && ss[j].srv.keys[id].deadline == Some(ss[i].born[id] + k.absolute)
              && ss[j].srv.now < ss[i].born[id] + k.absolute
  {
    BornIsFixed(k, ss, es, i, j, id);
    TraceInv(k, ss, es, j);
    LoadableIsBounded(k, ss[j], id);
  }

  // A load is two commands, with anything in between: the payload is read at
  // position a, the deadline at b.  If it reports a session, that session is
  // loadable at b with that much time left.  If it reports none, then none is
  // loadable from b on, so the tidy-up delete removes nothing that lives.
  lemma LoadDecides(k: Clocks, ss: seq<Sys>, es: seq<Event>, a: nat, b: nat, id: Id)
    requires Trace(k, ss, es) && a <= b < |ss| && id in ss[a].open
    ensures match Judge(ReadData(ss[a].srv, id), ReadTtl(ss[b].srv, id))
            case Live(record, remaining) =>
              && Loadable(ss[b].srv, id) && id in ss[b].born
              && ss[b].born[id] + k.absolute == ss[b].srv.now + remaining
            case _ => forall d :: b <= d < |ss| ==> !Loadable(ss[d].srv, id)
  {
    TraceInv(k, ss, es, a);
    TraceInv(k, ss, es, b);
    OpenGrows(k, ss, es, a, b, id);
    if !Judge(ReadData(ss[a].srv, id), ReadTtl(ss[b].srv, id)).Live? {
      forall d | b <= d < |ss| ensures !Loadable(ss[d].srv, id) {
        if ReadData(ss[a].srv, id) == None {
          DeathIsPermanent(k, ss, es, a, d, id);
        } else {
          LoadableIsBounded(k, ss[b], id);
          DeathIsPermanent(k, ss, es, b, d, id);
        }
      }
    }
  }

  lemma {:induction false} OpenGrows(k: Clocks, ss: seq<Sys>, es: seq<Event>, i: nat, j: nat, id: Id)
    requires Trace(k, ss, es) && i <= j < |ss| && id in ss[i].open
    ensures id in ss[j].open
    decreases j - i
  {
    if i == j {
    } else {
      OpenGrows(k, ss, es, i, j - 1, id);
    }
  }

  // A session exists only from the moment its creation set the deadline.
  lemma {:induction false} LoadableIsBorn(k: Clocks, ss: seq<Sys>, es: seq<Event>, j: nat, id: Id)
    returns (i: nat)
    requires Trace(k, ss, es) && j < |ss| && id in ss[j].born
    ensures i < j && es[i] == Do(Expire(id, k.absolute)) && ss[j].born[id] == ss[i].srv.now
  {
    assert j > 0;
    assert ss[j] == Next(ss[j - 1], es[j - 1]);
    if es[j - 1].Do? && es[j - 1].cmd.Expire? && es[j - 1].cmd.id == id {
      i := j - 1;
    } else {
      i := LoadableIsBorn(k, ss, es, j - 1, id);
    }
  }
}
