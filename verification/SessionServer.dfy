// What an application keeps in a session: an insertion-ordered mapping from
// names to values.
module Payloads {
  import opened Prelude

  datatype Value = Null | Text(text: string) | Num(n: int) | Flag(b: bool)

  datatype Dict = Dict(order: seq<string>, at: map<string, Value>) {

    ghost predicate Valid() {
      && (forall i :: 0 <= i < |order| ==> order[i] in at)
      && (forall k :: k in at ==> k in order)
      && (forall i, j :: 0 <= i < j < |order| ==> order[i] != order[j])
    }

    // dict.get(key): null for a missing name
    function Get(key: string): Value { if key in at then at[key] else Null }

    predicate Empty() { at == map[] }

    // d[key] = value: a new name goes last, a known one keeps its place.
    function Put(key: string, value: Value): (d: Dict)
      ensures Valid() ==> d.Valid()
      ensures d.Get(key) == value && key in d.at && forall k :: k != key ==> (k in d.at <==> k in at) && d.Get(k) == Get(k)
    {
      Dict(if key in at then order else order + [key], at[key := value])
    }

    function PutAll(pairs: seq<(string, Value)>): (d: Dict)
      ensures Valid() ==> d.Valid()
      decreases |pairs|
    {
      if pairs == [] then this else Put(pairs[0].0, pairs[0].1).PutAll(pairs[1..])
    }

    lemma {:induction false} PutAllAppends(pairs: seq<(string, Value)>, more: seq<(string, Value)>)
      ensures PutAll(pairs + more) == PutAll(pairs).PutAll(more)
      decreases |pairs|
    {
      if pairs == [] {
        assert pairs + more == more;
      } else {
        assert (pairs + more)[1..] == pairs[1..] + more;
        Put(pairs[0].0, pairs[0].1).PutAllAppends(pairs[1..], more);
      }
    }

    // Pairs are put one after the other.
    lemma PutAllIs(pairs: seq<(string, Value)>, pair: (string, Value))
      ensures PutAll([]) == this
      ensures PutAll(pairs + [pair]) == PutAll(pairs).Put(pair.0, pair.1)
    {
      PutAllAppends(pairs, [pair]);
      var d := PutAll(pairs);
      assert d.Put(pair.0, pair.1).PutAll([pair][1..]) == d.Put(pair.0, pair.1);
    }

    // A name without a pair keeps what it holds, and every name its place.
    lemma {:induction false} OthersStay(pairs: seq<(string, Value)>, key: string)
      requires forall i :: 0 <= i < |pairs| ==> pairs[i].0 != key
      ensures (key in PutAll(pairs).at <==> key in at) && PutAll(pairs).Get(key) == Get(key)
      decreases |pairs|
    {
      if pairs == [] {
      } else {
        Put(pairs[0].0, pairs[0].1).OthersStay(pairs[1..], key);
      }
    }

    lemma {:induction false} PlacesStay(pairs: seq<(string, Value)>)
      ensures order <= PutAll(pairs).order
      decreases |pairs|
    {
      if pairs == [] {
      } else {
        Put(pairs[0].0, pairs[0].1).PlacesStay(pairs[1..]);
      }
    }

    // The last pair of a name decides what it holds.
    lemma LastPairWins(pairs: seq<(string, Value)>, i: nat)
      requires i < |pairs| && forall n :: i < n < |pairs| ==> pairs[n].0 != pairs[i].0
      ensures pairs[i].0 in PutAll(pairs).at && PutAll(pairs).Get(pairs[i].0) == pairs[i].1
    {
      hide PutAll, Put;
      SeqSplits(pairs, i);
      PutAllAppends(pairs[..i] + [pairs[i]], pairs[i + 1..]);
      PutAllIs(pairs[..i], pairs[i]);
      PutAll(pairs[..i]).Put(pairs[i].0, pairs[i].1).OthersStay(pairs[i + 1..], pairs[i].0);
    }

    // Pair i is the first of its name, and the name is new.
    predicate Adds(pairs: seq<(string, Value)>, i: nat)
      requires i < |pairs|
    {
      pairs[i].0 !in at && forall n :: 0 <= n < i ==> pairs[n].0 != pairs[i].0
    }

    // A new name goes behind all that came before it.
    lemma NewNameLast(pairs: seq<(string, Value)>, i: nat) returns (place: nat)
      requires i < |pairs| && Adds(pairs, i)
      ensures place == |PutAll(pairs[..i]).order| < |PutAll(pairs).order| && PutAll(pairs).order[place] == pairs[i].0
      ensures PutAll(pairs[..i]).order <= PutAll(pairs).order
    {
      hide PutAll;
      SeqSplits(pairs, i);
      PutAllAppends(pairs[..i] + [pairs[i]], pairs[i + 1..]);
      PutAllIs(pairs[..i], pairs[i]);
      OthersStay(pairs[..i], pairs[i].0);
      place := |PutAll(pairs[..i]).order|;
      PutAll(pairs[..i]).Put(pairs[i].0, pairs[i].1).PlacesStay(pairs[i + 1..]);
    }

    // New names follow the old ones in the order in which they first appear.
    lemma NewNamesFollow(pairs: seq<(string, Value)>, i: nat, j: nat) returns (m: nat, n: nat)
      requires i < j < |pairs| && Adds(pairs, i) && Adds(pairs, j)
      ensures |order| <= m < n < |PutAll(pairs).order|
      ensures PutAll(pairs).order[m] == pairs[i].0 && PutAll(pairs).order[n] == pairs[j].0
    {
      n := NewNameLast(pairs, j);
      m := NewNameLast(pairs[..j], i);
      hide PutAll;
      assert pairs[..j][..i] == pairs[..i];
      PlacesStay(pairs[..i]);
    }

    function Remove(key: string): (d: Dict)
      ensures Valid() ==> d.Valid()
      ensures key !in d.at && forall k :: k != key ==> (k in d.at <==> k in at) && d.Get(k) == Get(k)
    {
      RemovedOrder(key);
      Dict(Without(order, key), at - {key})
    }

    lemma RemovedOrder(key: string)
      ensures Valid() ==> Dict(Without(order, key), at - {key}).Valid()
    {
      if Valid() {
        WithoutIs(order, key);
        var names := Without(order, key);
        assert forall i :: 0 <= i < |names| ==> names[i] in names;
      }
    }
  }

  // A listing with every occurrence of one name taken out.
  function Without(names: seq<string>, key: string): (r: seq<string>)
  {
    if names == [] then []
    else if names[0] == key then Without(names[1..], key)
    else [names[0]] + Without(names[1..], key)
  }

  lemma {:induction false} WithoutIs(names: seq<string>, key: string)
    ensures forall k :: k in Without(names, key) <==> k in names && k != key
    ensures (forall i, j :: 0 <= i < j < |names| ==> names[i] != names[j]) ==>
              forall i, j :: 0 <= i < j < |Without(names, key)| ==> Without(names, key)[i] != Without(names, key)[j]
  {
    if names == [] {
    } else {
      WithoutIs(names[1..], key);
      assert names == [names[0]] + names[1..];
      if forall i, j :: 0 <= i < j < |names| ==> names[i] != names[j] {
        assert names[0] !in names[1..];
        assert forall i, j :: 0 <= i < j < |names[1..]| ==> names[1..][i] == names[i + 1] && names[1..][j] == names[j + 1];
      }
    }
  }

  const EMPTY := Dict([], map[])
}

// The part of Redis that sessions use.  One hash per session with the single
// field "d", one hash per subject with a field per session, and whole-second
// clocks.  A session key and its field are here together: the hash holds
// nothing else, so when the field expires the key goes with it.
module SessionServer {
  import opened Prelude
  import opened Payloads

  type Id = string
  type Subject = string

  // The decoded envelope of field "d".  The two stamps are readings of the
  // application's own clock; nothing here depends on them.
  datatype Record = Record(data: Dict, created: int, lastAccess: int)

  // The decoded descriptor of an index entry.
  datatype Descriptor = Descriptor(created: int, lastAccess: int, extra: Dict)

  // `idleAt` is when field "d" expires and `deadline` when the key does; a key
  // with no deadline is one that a late write recreated.
  datatype Hash = Hash(data: Record, idleAt: nat, deadline: Option<nat>)

  datatype Entry = Entry(about: Descriptor, until: nat)

  datatype Server = Server(now: nat, keys: map<Id, Hash>, index: map<Subject, map<Id, Entry>>) {
    function Members(subject: Subject): map<Id, Entry> { if subject in index then index[subject] else map[] }
  }

  const EMPTY_SERVER := Server(0, map[], map[])

  // The commands that change something, each atomic.
  datatype Cmd =
    | HSetEx(id: Id, data: Record, idle: nat)
    | HGetEx(id: Id, idle: nat)
    | HExpire(id: Id, idle: nat)
    | Expire(id: Id, ttl: nat)
    | Del(id: Id)
    | IndexSet(subject: Subject, id: Id, about: Descriptor, ttl: nat)
    | IndexDel(subject: Subject, id: Id)
    | IndexClear(subject: Subject)

  function Exec(c: Cmd, s: Server): Server {
    match c
    case HSetEx(id, data, idle) =>
      // writing a field leaves the key's own expiry alone
      var deadline := if id in s.keys then s.keys[id].deadline else None;
      s.(keys := s.keys[id := Hash(data, s.now + idle, deadline)])
    case HGetEx(id, idle) => Refresh(s, id, idle)
    case HExpire(id, idle) => Refresh(s, id, idle)
    case Expire(id, ttl) =>
      if id in s.keys then s.(keys := s.keys[id := s.keys[id].(deadline := Some(s.now + ttl))]) else s
    case Del(id) => s.(keys := s.keys - {id})
    case IndexSet(subject, id, about, ttl) =>
      s.(index := s.index[subject := s.Members(subject)[id := Entry(about, s.now + ttl)]])
    case IndexDel(subject, id) => s.(index := s.index[subject := s.Members(subject) - {id}])
    case IndexClear(subject) => s.(index := s.index - {subject})
  }

  function Refresh(s: Server, id: Id, idle: nat): Server {
    if id in s.keys then s.(keys := s.keys[id := s.keys[id].(idleAt := s.now + idle)]) else s
  }

  predicate Expired(h: Hash, now: nat) { h.idleAt <= now || (h.deadline.Some? && h.deadline.value <= now) }

  // The clock moves, and whatever is due is gone before the next command.
  function Tick(s: Server, d: nat): Server {
    var now := s.now + d;
    Server(now,
           map id | id in s.keys && !Expired(s.keys[id], now) :: s.keys[id],
           map subject | subject in s.index ::
             map id | id in s.index[subject] && now < s.index[subject][id].until :: s.index[subject][id])
  }

  function ExecAll(cs: seq<Cmd>, s: Server): Server {
    if cs == [] then s else ExecAll(cs[1..], Exec(cs[0], s))
  }

  lemma ExecOne(c: Cmd, s: Server)
    ensures ExecAll([c], s) == Exec(c, s)
  {
    assert [c][1..] == [];
  }

  lemma ExecPair(a: Cmd, b: Cmd, s: Server)
    ensures ExecAll([a, b], s) == Exec(b, Exec(a, s))
  {
    assert [a, b][1..] == [b] && [b][1..] == [];
    assert ExecAll([b], Exec(a, s)) == ExecAll([], Exec(b, Exec(a, s)));
  }

  lemma {:induction false} ExecAllAppends(a: seq<Cmd>, b: seq<Cmd>, s: Server)
    ensures ExecAll(a + b, s) == ExecAll(b, ExecAll(a, s))
  {
    if a == [] {
      assert a + b == b;
    } else {
      assert (a + b)[1..] == a[1..] + b;
      ExecAllAppends(a[1..], b, Exec(a[0], s));
    }
  }

  // -- replies ---------------------------------------------------------------

  function ReadData(s: Server, id: Id): Option<Record> {
    if id in s.keys then Some(s.keys[id].data) else None
  }

  // What TTL says of a key, the two negative answers named.
  datatype Deadline = Absent | Unbounded | Left(seconds: nat)

  function ReadTtl(s: Server, id: Id): Deadline {
    if id !in s.keys then Absent
    else if s.keys[id].deadline == None then Unbounded
    else if s.keys[id].deadline.value <= s.now then Absent
    else Left(s.keys[id].deadline.value - s.now)
  }

  // What HTTL says of field "d".
  function ReadFieldTtl(s: Server, id: Id): Deadline {
    if id !in s.keys || s.keys[id].idleAt <= s.now then Absent else Left(s.keys[id].idleAt - s.now)
  }

  predicate HasTimeLeft(reply: Deadline) { reply.Left? && reply.seconds > 0 }

  // HTTL on field "d" is positive.
  predicate FieldHasTime(s: Server, id: Id) { id in s.keys && s.now < s.keys[id].idleAt }

  predicate KeyHasTime(s: Server, id: Id) { ReadTtl(s, id).Left? }

  // What a load makes of the two replies of its round trip.
  datatype Verdict = Live(record: Record, remaining: nat) | HalfDead | Gone

  function Judge(data: Option<Record>, ttl: Deadline): Verdict {
    if data.Some? && ttl.Left? && ttl.seconds > 0 then Live(data.value, ttl.seconds)
    else if data.Some? || !ttl.Absent? then HalfDead
    else Gone
  }

  // A load issued now, with nothing in between, finds a session.
  predicate Loadable(s: Server, id: Id) { Judge(ReadData(s, id), ReadTtl(s, id)).Live? }
}
