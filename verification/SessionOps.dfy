// What each store operation sends to Redis, as a list of commands, and what it
// leaves in the request's own record of the session.  The store's methods run
// these lists; the concurrent models interleave them.
module SessionOps {
  import opened Prelude
  import opened Payloads
  import opened SessionServer
  import opened Lifecycle

  // A request's record of its session, apart from the data.
  datatype State = State(id: Option<Id>, subject: Option<Subject>, created: Option<int>, remaining: Option<nat>,
                         revoked: bool, rotated: bool)

  const FRESH := State(None, None, None, None, false, false)

  // Python's truth of an optional text.
  predicate Truthy(s: Option<string>) { s.Some? && s.value != "" }

  function CreateCmds(k: Clocks, id: Id, rec: Record): seq<Cmd> {
    [HSetEx(id, rec, k.idle), Expire(id, k.absolute)]
  }

  function SaveCmds(k: Clocks, id: Id, rec: Record): seq<Cmd> { [HSetEx(id, rec, k.idle)] }

  function DropCmds(subject: Option<Subject>, id: Id): seq<Cmd> {
    if Truthy(subject) then [IndexDel(subject.value, id)] else []
  }

  // An entry takes what is left of the session's clock; nothing left, no entry.
  function IndexCmds(subject: Subject, id: Id, rec: Record, extra: Dict, remaining: nat): seq<Cmd> {
    if remaining == 0 then []
    else [IndexSet(subject, id, Descriptor(rec.created, rec.lastAccess, extra), remaining)]
  }

  // The old key and its entry go first.
  function RotateCmds(k: Clocks, st: State, subject: Option<Subject>, newId: Id, rec: Record, extra: Dict): seq<Cmd> {
    (if st.id.Some? then [Del(st.id.value)] + DropCmds(st.subject, st.id.value) else [])
    + CreateCmds(k, newId, rec)
    + (if subject.Some? then IndexCmds(subject.value, newId, rec, extra, k.absolute) else [])
  }

  function Rotated(k: Clocks, subject: Option<Subject>, newId: Id, rec: Record): State {
    State(Some(newId), subject, Some(rec.created), Some(k.absolute), false, false)
  }

  // `subject` overrides the one the session was loaded under.
  function RevokeCmds(st: State, subject: Option<Subject>): seq<Cmd> {
    if st.id == None then []
    else [Del(st.id.value)] + DropCmds(if subject.Some? then subject else st.subject, st.id.value)
  }

  function Revoked(st: State): State { st.(id := None, subject := None, revoked := true, rotated := false) }

  // Seconds since the session's id was issued.
  function IssuedAgo(absolute: nat, st: State): Option<nat> {
    if st.id == None || st.remaining == None || absolute < st.remaining.value then None
    else Some(absolute - st.remaining.value)
  }

  predicate IsIdChar(c: char) { 'a' <= c <= 'z' || 'A' <= c <= 'Z' || '0' <= c <= '9' || c == '-' || c == '_' }

  predicate IsValidId(value: string) { |value| >= 22 && forall i :: 0 <= i < |value| ==> IsIdChar(value[i]) }

  // The alphabet of section 5 of RFC 4648, six bits to a character.
  function Base64Url(n: nat): char
    requires n < 64
  {
    if n < 26 then 'A' + n as char
    else if n < 52 then 'a' + (n - 26) as char
    else if n < 62 then '0' + (n - 52) as char
    else if n == 62 then '-' else '_'
  }

  ghost predicate InAlphabet(c: char) { exists n :: 0 <= n < 64 && Base64Url(n) == c }

  // A text is taken for an identifier exactly when it is written in that
  // alphabet and is long enough for 128 bits.
  lemma IdsCarryEnough(value: string)
    ensures IsValidId(value) <==>
              6 * |value| >= 128 && forall i :: 0 <= i < |value| ==> InAlphabet(value[i])
    ensures forall m, n :: 0 <= m < n < 64 ==> Base64Url(m) != Base64Url(n)
  {
    forall c ensures IsIdChar(c) <==> InAlphabet(c) { CharIsDigit(c); }
  }

  lemma CharIsDigit(c: char)
    ensures IsIdChar(c) <==> InAlphabet(c)
  {
    if IsIdChar(c) {
      var n := if 'A' <= c <= 'Z' then c as int - 'A' as int
               else if 'a' <= c <= 'z' then c as int - 'a' as int + 26
               else if '0' <= c <= '9' then c as int - '0' as int + 52
               else if c == '-' then 62 else 63;
      assert Base64Url(n) == c;
    }
  }

  // The sequence lists the set, each element once.
  ghost predicate Lists(ids: seq<Id>, all: set<Id>) {
    && (forall id :: id in ids <==> id in all)
    && (forall i, j :: 0 <= i < j < |ids| ==> ids[i] != ids[j])
  }

  // End many sessions: a delete for each.
  function DelCmds(ids: seq<Id>): (cs: seq<Cmd>)
    ensures |cs| == |ids|
  {
    seq(|ids|, i requires 0 <= i < |ids| => Del(ids[i]))
  }

  // End every session of a subject: those its index was read to have, each
  // deleted, and then the index.
  function RevokeAllCmds(ids: seq<Id>, subject: Subject): (cs: seq<Cmd>)
    ensures ids != [] ==> |cs| == |ids| + 1 && cs[|ids|] == IndexClear(subject)
    ensures forall i :: 0 <= i < |ids| ==> i < |cs| && cs[i] == Del(ids[i])
  {
    if ids == [] then [] else DelCmds(ids) + [IndexClear(subject)]
  }

  // End one session by id: nothing unless the subject's index, as read, has it.
  function RevokeIdCmds(s: Server, id: string, subject: Subject): seq<Cmd> {
    if IsValidId(id) && id in s.Members(subject) then [Del(id), IndexDel(subject, id)] else []
  }
}
