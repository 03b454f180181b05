// The capture of a response on its way out: held back until its last chunk,
// or let through, and stored when the rules allow.
module Capture {
  import opened Prelude
  import opened Replay
  import opened Revalidation
  import opened Texts

  // ASGI messages from the application.  `Other` is any extension message.
  datatype Message =
    | Start(status: int, headers: seq<Header>)
    | Body(chunk: Octets, more: bool)
    | Debug(info: string)
    | Other(kind: string)

  datatype Write = Write(key: string, entry: Entry, expires: Option<int>)

  // What the response is judged by: the pending cache operation the route left
  // behind, whether the session was read undeclared, the storage rules, the
  // hash, whether Redis can be written, and the largest body to hold.
  datatype Policy = Policy(pending: Option<Pending>, leaks: bool, refuses: (int, seq<Header>) -> bool,
                           digest: Octets -> Octets, writable: bool, limit: nat)

  datatype State = State(body: Octets, status: int, headers: seq<Header>, passthrough: bool, started: bool,
                         pending: Option<Pending>, sent: seq<Message>, stored: seq<Write>)

  const FRESH := State("", 200, [], false, false, None, [], [])

  function Bypass(): seq<Header> { [Header(STATUS, "BYPASS")] }

  predicate Storing(p: Policy, s: State) {
    s.pending.Some? && !p.leaks && !p.refuses(s.status, s.headers) && DecodeUtf8(s.body).Some?
  }

  function WriteOf(p: Pending, entry: Entry): Write { Write(p.key, entry, if p.ttl > 0 then Some(p.ttl) else None) }

  // The fields the last chunk adds.
  function FinalExtra(p: Policy, s: State): seq<Header> {
    if s.pending == None then []
    else if p.leaks then [Header(CONTROL, "private, no-store")]
    else if Storing(p, s) then MissExtra(s.pending.value, Validator(s.headers, p.digest(s.body)))
    else Bypass()
  }

  function Finish(p: Policy, s: State): State {
    s.(stored := if Storing(p, s) && p.writable
                 then s.stored + [WriteOf(s.pending.value, MakeEntry(DecodeUtf8(s.body).value, s.headers, p.digest(s.body)))] else s.stored,
       sent := s.sent + [Start(s.status, Merge(s.headers, FinalExtra(p, s)))] + [Body(s.body, false)])
  }

  function Flush(s: State, m: Message): State {
    s.(passthrough := true, body := "",
       sent := s.sent + [Start(s.status, Merge(s.headers, Bypass()))] + (if s.body != "" then [Body(s.body, true)] else []) + [m])
  }

  function Step(p: Policy, s: State, m: Message): State {
    match m
    case Start(status, headers) =>
      var t := s.(started := true, pending := p.pending);
      if p.pending == None then t.(passthrough := true, sent := s.sent + [m]) else t.(status := status, headers := headers)
    case Debug(_) => s.(sent := s.sent + [m])
    case Other(_) =>
      if !s.started || s.passthrough then s.(sent := s.sent + [m])
      else s.(passthrough := true, sent := s.sent + [Start(s.status, s.headers)] + [m])
    case Body(chunk, more) =>
      if !s.started || s.passthrough then s.(sent := s.sent + [m])
      else if |s.body| + |chunk| > p.limit then Flush(s, m)
      else if more then s.(body := s.body + chunk)
      else Finish(p, s.(body := s.body + chunk))
  }

  function Run(p: Policy, ms: seq<Message>): State {
    if ms == [] then FRESH else Step(p, Run(p, ms[..|ms| - 1]), ms[|ms| - 1])
  }

  class CaptureSend {
    const policy: Policy
    var body: Octets
    var status: int
    var headers: seq<Header>
    var passthrough: bool
    var started: bool
    var pending: Option<Pending>
    var sent: seq<Message>
    var stored: seq<Write>

    constructor (policy: Policy)
      ensures this.policy == policy && Now() == FRESH
    {
      this.policy := policy;
      body, status, headers, passthrough, started, pending, sent, stored := "", 200, [], false, false, None, [], [];
    }

    function Now(): State
      reads this
    {
      State(body, status, headers, passthrough, started, pending, sent, stored)
    }

    method Send(m: Message)
      modifies this`sent
      ensures sent == old(sent) + [m]
    {
      sent := sent + [m];
    }

    method FlushOversized(m: Message)
      modifies this`sent, this`body
      ensures Now().(passthrough := true) == Flush(old(Now()), m)
    {
      Send(Start(status, Merge(headers, Bypass())));
      if body != "" {
        Send(Body(body, true));
        body := "";
      }
      Send(m);
    }

    // Writes the entry, if it can, and answers with the fields the cache owns.
    method StoreEntry(p: Pending, text: string) returns (extra: seq<Header>)
      modifies this`stored
      ensures extra == MissExtra(p, Validator(headers, policy.digest(body)))
      ensures stored == if policy.writable
        then old(stored) + [WriteOf(p, MakeEntry(text, headers, policy.digest(body)))] else old(stored)
    {
      var etag := Validator(headers, policy.digest(body));
      extra := MissExtra(p, etag);
      if policy.writable {
        stored := stored + [WriteOf(p, Entry(text, etag, Storable(headers)))];
      }
    }

    method Receive(m: Message)
      modifies this
      ensures Now() == Step(policy, old(Now()), m)
    {
      hide Merge, MissExtra, Storable, Validator;
      if m.Start? {
        started := true;
        pending := policy.pending;
        if pending == None {
          passthrough := true;
          Send(m);
          return;
        }
        status, headers := m.status, m.headers;
        return;
      }
      if m.Debug? || !started {
        Send(m);
        return;
      }
      if !m.Body? {
        if !passthrough {
          Send(Start(status, headers));
          passthrough := true;
        }
        Send(m);
        return;
      }
      if passthrough {
        Send(m);
        return;
      }
      if |body| + |m.chunk| > policy.limit {
        passthrough := true;
        FlushOversized(m);
        return;
      }
      body := body + m.chunk;
      if m.more {
        return;
      }
      var extra := [];
      if pending.Some? && policy.leaks {
        extra := [Header(CONTROL, "private, no-store")];
      } else if pending.Some? {
        var text := DecodeUtf8(body);
        if !policy.refuses(status, headers) && text.Some? {
          extra := StoreEntry(pending.value, text.value);
        } else {
          extra := Bypass();
        }
      }
      Send(Start(status, Merge(headers, extra)));
      Send(Body(body, false));
    }
  }

  // -- what a receiver sees --------------------------------------------------

  // The statuses, with the fields this library does not own; the bytes; the
  // debug and extension messages; whether a body came before any start, how
  // many chunks said they were the last, and how many extension messages
  // came after a start.
  datatype View = View(starts: seq<(int, seq<Header>)>, content: Octets, debugs: seq<string>, others: seq<string>,
                       early: bool, finals: nat, late: nat)

  const NOTHING := View([], "", [], [], false, 0, 0)

  function Foreign(hs: seq<Header>): seq<Header> { Keep(NotNamed(OWNED), hs) }

  function See(v: View, m: Message): View {
    match m
    case Start(status, headers) => v.(starts := v.starts + [(status, Foreign(headers))])
    case Body(chunk, more) =>
      v.(content := v.content + chunk, early := v.early || v.starts == [], finals := v.finals + if more then 0 else 1)
    case Debug(info) => v.(debugs := v.debugs + [info])
    case Other(kind) => v.(others := v.others + [kind], late := v.late + if v.starts == [] then 0 else 1)
  }

  function Viewed(ms: seq<Message>): View {
    if ms == [] then NOTHING else See(Viewed(ms[..|ms| - 1]), ms[|ms| - 1])
  }

  // A response as ASGI has it: one start, then chunks up to a last one, and
  // the other messages anywhere.
  predicate Allowed(v: View, m: Message) {
    match m
    case Start(_, _) => v.starts == []
    case Body(_, _) => v.starts != [] && v.finals == 0
    case _ => true
  }

  predicate WellFormed(ms: seq<Message>) {
    ms == [] || (WellFormed(ms[..|ms| - 1]) && Allowed(Viewed(ms[..|ms| - 1]), ms[|ms| - 1]))
  }

  // After these messages the response is held back, or was, and has something
  // to lose: bytes, or a start that has gone out already.
  predicate Holding(p: Policy, v: View) {
    p.pending.Some? && v.starts != [] && |v.content| <= p.limit && v.late == 0 && (v.content != "" || v.finals > 0)
  }

  // No extension message arrives at such a moment.
  predicate Undisturbed(p: Policy, ms: seq<Message>) {
    ms == [] || (Undisturbed(p, ms[..|ms| - 1]) && !(ms[|ms| - 1].Other? && Holding(p, Viewed(ms[..|ms| - 1]))))
  }

  // -- the relation ----------------------------------------------------------

  lemma SentOne(ms: seq<Message>, m: Message)
    ensures Viewed(ms + [m]) == See(Viewed(ms), m)
  {
    assert (ms + [m])[..|ms|] == ms;
  }

  function Accepted(p: Policy, s: State): seq<Write> {
    if Storing(p, s) && p.writable then [WriteOf(s.pending.value, MakeEntry(DecodeUtf8(s.body).value, s.headers, p.digest(s.body)))] else []
  }

  // The stream so far, v, and what the middleware has made of it.
  ghost predicate Follows(p: Policy, v: View, s: State) {
    var out := Viewed(s.sent);
    if v.starts == [] then !s.started && !s.passthrough && s.body == "" && s.stored == [] && out == v && v.content == "" && v.late == 0 && v.finals == 0
    else
      && s.started && s.pending == p.pending && |v.starts| == 1
      && if p.pending == None || |v.content| > p.limit || v.late > 0 then s.passthrough && out == v && s.stored == []
         else
           && !s.passthrough && s.body == v.content && v.starts[0] == (s.status, Foreign(s.headers))
           && if v.finals > 0 then out == v && s.stored == Accepted(p, s)
              else out == v.(starts := [], content := "") && s.stored == []
  }

  // Something went out twice, or never will.
  ghost predicate Spoilt(p: Policy, v: View, s: State) {
    var out := Viewed(s.sent);
    && s.started && s.passthrough && v.starts != [] && out.starts != []
    && p.pending.Some? && |v.starts| == 1 && (|out.starts| > 1 || |out.content| < |v.content|)
    && (s.stored == [] || (v.finals > 0 && |s.stored| == 1 && s.stored[0].key == p.pending.value.key && Utf8(s.stored[0].entry.body) == v.content))
  }

  // What the middleware adds to a start is its own.
  lemma ForeignMerge(hs: seq<Header>, extra: seq<Header>)
    requires forall i :: 0 <= i < |extra| ==> Lower(extra[i].name) in OWNED
    ensures Foreign(Merge(hs, extra)) == Foreign(hs)
  {
    hide OWNED, Lower;
    KeepAppends(NotNamed(OWNED), Keep(NotNamed(NamesOf(extra)), hs), extra);
    KeepNone(NotNamed(OWNED), extra);
    KeepTwice(NotNamed(OWNED), NotNamed(NamesOf(extra)), hs);
  }

  lemma AddsItsOwn(p: Policy, s: State)
    ensures Foreign(Merge(s.headers, FinalExtra(p, s))) == Foreign(s.headers)
    ensures Foreign(Merge(s.headers, Bypass())) == Foreign(s.headers)
  {
    hide STATUS, ETAG, CONTROL, OWNED, Lower, Merge, Foreign;
    AlreadyLower();
    OwnFields();
    if s.pending.Some? { OwnNames(MissExtra(s.pending.value, Validator(s.headers, p.digest(s.body)))); }
    ForeignMerge(s.headers, FinalExtra(p, s));
    ForeignMerge(s.headers, Bypass());
  }

  lemma OwnFields()
    ensures STATUS in OWNED && CONTROL in OWNED
  {
  }

  lemma FollowsBefore(p: Policy, v: View, s: State, m: Message)
    requires Follows(p, v, s) && Allowed(v, m) && v.starts == []
    ensures Follows(p, See(v, m), Step(p, s, m))
  {
    SentOne(s.sent, m);
  }

  lemma FollowsPassing(p: Policy, v: View, s: State, m: Message)
    requires Follows(p, v, s) && Allowed(v, m) && v.starts != [] && s.passthrough
    ensures Follows(p, See(v, m), Step(p, s, m))
  {
    SentOne(s.sent, m);
  }

  ghost predicate Held(p: Policy, v: View, s: State) { Follows(p, v, s) && v.starts != [] && !s.passthrough }

  lemma HeldMeetsOther(p: Policy, v: View, s: State, m: Message)
    requires Held(p, v, s) && m.Other? && !Holding(p, v)
    ensures Follows(p, See(v, m), Step(p, s, m))
  {
    hide Foreign, Viewed, Accepted, Storing, FinalExtra, Merge, MakeEntry;
    var start := Message.Start(s.status, s.headers);
    SentOne(s.sent, start);
    SentOne(s.sent + [start], m);
  }

  lemma HeldOverflows(p: Policy, v: View, s: State, m: Message)
    requires Held(p, v, s) && m.Body? && v.finals == 0 && |s.body| + |m.chunk| > p.limit
    ensures Follows(p, See(v, m), Step(p, s, m))
  {
    hide Merge, MakeEntry, MissExtra, Foreign, Viewed;
    AddsItsOwn(p, s);
    var start := Message.Start(s.status, Merge(s.headers, Bypass()));
    var rest := if s.body != "" then [Body(s.body, true)] else [];
    SentOne(s.sent, start);
    SentOne(s.sent + [start], Body(s.body, true));
    assert s.sent + [start] + [] == s.sent + [start];
    SentOne(s.sent + [start] + rest, m);
  }

  lemma {:induction false} HeldEnds(p: Policy, v: View, s: State, m: Message)
    requires Held(p, v, s) && m.Body? && !m.more && v.finals == 0 && |s.body| + |m.chunk| <= p.limit
    ensures Follows(p, See(v, m), Step(p, s, m))
  {
    hide Merge, MakeEntry, MissExtra, Foreign, Viewed, FinalExtra;
    var t := s.(body := s.body + m.chunk);
    AddsItsOwn(p, t);
    var start := Message.Start(t.status, Merge(t.headers, FinalExtra(p, t)));
    SentOne(s.sent, start);
    SentOne(s.sent + [start], Body(t.body, false));
  }

  lemma {:induction false} FollowsHeld(p: Policy, v: View, s: State, m: Message)
    requires Held(p, v, s) && Allowed(v, m) && !(m.Other? && Holding(p, v))
    ensures Follows(p, See(v, m), Step(p, s, m))
  {
    hide Merge, Foreign;
    if m.Other? { HeldMeetsOther(p, v, s, m); }
    else if m.Body? && |s.body| + |m.chunk| > p.limit { HeldOverflows(p, v, s, m); }
    else if m.Body? && !m.more { HeldEnds(p, v, s, m); }
    else { SentOne(s.sent, m); }
  }

  lemma Spoils(p: Policy, v: View, s: State, m: Message)
    requires Follows(p, v, s) && m.Other? && Holding(p, v)
    ensures Spoilt(p, See(v, m), Step(p, s, m))
  {
    hide DecodeUtf8, Utf8, Foreign, Validator, Storable;
    DecodedEncodes(s.body);
    var start := Message.Start(s.status, s.headers);
    SentOne(s.sent, start);
    SentOne(s.sent + [start], m);
  }

  lemma StaysSpoilt(p: Policy, v: View, s: State, m: Message)
    requires Spoilt(p, v, s) && Allowed(v, m)
    ensures Spoilt(p, See(v, m), Step(p, s, m))
  {
    SentOne(s.sent, m);
  }

  lemma {:induction false} RunFollows(p: Policy, ms: seq<Message>)
    requires WellFormed(ms)
    ensures Undisturbed(p, ms) ==> Follows(p, Viewed(ms), Run(p, ms))
    ensures !Undisturbed(p, ms) ==> Spoilt(p, Viewed(ms), Run(p, ms))
  {
    if ms == [] {
    } else {
      var front, m := ms[..|ms| - 1], ms[|ms| - 1];
      var v, s := Viewed(front), Run(p, front);
      RunFollows(p, front);
      hide See, Step, Follows, Spoilt, Holding, Allowed;
      if !Undisturbed(p, front) { StaysSpoilt(p, v, s, m); }
      else if m.Other? && Holding(p, v) { Spoils(p, v, s, m); }
      else { FollowsOn(p, v, s, m); }
    }
  }

  lemma {:induction false} FollowsOn(p: Policy, v: View, s: State, m: Message)
    requires Follows(p, v, s) && Allowed(v, m) && !(m.Other? && Holding(p, v))
    ensures Follows(p, See(v, m), Step(p, s, m))
  {
    hide See, Step, Follows;
    if v.starts == [] { FollowsBefore(p, v, s, m); }
    else if s.passthrough { FollowsPassing(p, v, s, m); }
    else { FollowsHeld(p, v, s, m); }
  }

  // -- the claims ------------------------------------------------------------

  lemma {:induction false} WellFormedViews(ms: seq<Message>)
    requires WellFormed(ms)
    ensures var v := Viewed(ms); !v.early && |v.starts| <= 1 && v.finals <= |v.starts|
  {
    if ms == [] {
    } else {
      WellFormedViews(ms[..|ms| - 1]);
    }
  }

  // For every complete response, the client is sent what the application
  // produced: one start, with its status and its fields, before any body, the
  // same bytes up to one last chunk, and the debug messages in order - exactly
  // when no extension message arrived while bytes were held back or after a
  // response held back was sent.
  lemma {:induction false} TransparentUnlessDisturbed(p: Policy, ms: seq<Message>)
    requires WellFormed(ms) && Viewed(ms).finals > 0
    ensures Viewed(Run(p, ms).sent) == Viewed(ms) <==> Undisturbed(p, ms)
    ensures Undisturbed(p, ms) ==>
              var out := Viewed(Run(p, ms).sent); |out.starts| == 1 && !out.early && out.finals == 1
  {
    RunFollows(p, ms);
    WellFormedViews(ms);
  }

  lemma StepHoldsNoMore(p: Policy, s: State, m: Message)
    requires |s.body| <= p.limit
    ensures |Step(p, s, m).body| <= p.limit
  {
    hide Merge, Storing, FinalExtra, MakeEntry;
  }

  // No prefix of any stream, however malformed, makes it hold more than the
  // limit.
  lemma {:induction false} HoldsNoMoreThanTheLimit(p: Policy, ms: seq<Message>)
    ensures |Run(p, ms).body| <= p.limit
  {
    if ms == [] {
    } else {
      HoldsNoMoreThanTheLimit(p, ms[..|ms| - 1]);
      StepHoldsNoMore(p, Run(p, ms[..|ms| - 1]), ms[|ms| - 1]);
      hide Step;
    }
  }

  // At most one entry is written, when the response is complete, and it holds
  // the complete body.
  lemma {:induction false} AtMostOneEntry(p: Policy, ms: seq<Message>)
    requires WellFormed(ms)
    ensures var stored := Run(p, ms).stored;
            stored == [] ||
            (|stored| == 1 && p.pending.Some? && Viewed(ms).finals > 0
             && stored[0].key == p.pending.value.key && Utf8(stored[0].entry.body) == Viewed(ms).content)
  {
    hide DecodeUtf8, Utf8, Foreign, Validator, Storable;
    DecodedEncodes(Viewed(ms).content);
    RunFollows(p, ms);
  }

  // The start the application sent.
  function StartOf(ms: seq<Message>): Option<Message> {
    if ms == [] then None
    else if StartOf(ms[..|ms| - 1]).Some? then StartOf(ms[..|ms| - 1])
    else if ms[|ms| - 1].Start? then Some(ms[|ms| - 1])
    else None
  }

  lemma StepKeepsTheStart(p: Policy, s: State, m: Message)
    ensures m.Start? && p.pending.Some? ==> Step(p, s, m).status == m.status && Step(p, s, m).headers == m.headers
    ensures !m.Start? ==> Step(p, s, m).status == s.status && Step(p, s, m).headers == s.headers
  {
    hide Merge, Storing, FinalExtra, MakeEntry;
  }

  lemma RunLast(p: Policy, ms: seq<Message>)
    requires ms != []
    ensures Run(p, ms) == Step(p, Run(p, ms[..|ms| - 1]), ms[|ms| - 1])
  {
  }

  lemma {:induction false} KeepsTheStart(p: Policy, ms: seq<Message>)
    requires WellFormed(ms)
    ensures StartOf(ms) == None <==> Viewed(ms).starts == []
    ensures StartOf(ms).Some? ==> StartOf(ms).value.Start?
    ensures StartOf(ms).Some? && p.pending.Some? ==>
              Run(p, ms).status == StartOf(ms).value.status && Run(p, ms).headers == StartOf(ms).value.headers
  {
    hide Step, Run;
    if ms == [] {
    } else {
      KeepsTheStart(p, ms[..|ms| - 1]);
      RunLast(p, ms);
      StepKeepsTheStart(p, Run(p, ms[..|ms| - 1]), ms[|ms| - 1]);
    }
  }

  // And it is written exactly when one is wanted, the rules admit it, it fits,
  // no extension message follows the start, and Redis can be written.
  lemma StoredWhenAllowed(p: Policy, ms: seq<Message>)
    requires WellFormed(ms) && Viewed(ms).finals > 0 && Undisturbed(p, ms)
    ensures StartOf(ms).Some? && StartOf(ms).value.Start?
    ensures var body, start := Viewed(ms).content, StartOf(ms).value;
            Run(p, ms).stored ==
              if p.pending.Some? && |body| <= p.limit && Viewed(ms).late == 0 && p.writable
                 && !p.leaks && !p.refuses(start.status, start.headers) && DecodeUtf8(body).Some?
              then
                [Write(p.pending.value.key, MakeEntry(DecodeUtf8(body).value, start.headers, p.digest(body)),
                       if p.pending.value.ttl > 0 then Some(p.pending.value.ttl) else None)]
              else []
  {
    RunFollows(p, ms);
    WellFormedViews(ms);
    KeepsTheStart(p, ms);
  }

  // -- what the start says ---------------------------------------------------

  lemma {:induction false} StartPlus(ms: seq<Message>, m: Message)
    ensures StartOf(ms + [m]) == if StartOf(ms).Some? then StartOf(ms) else if m.Start? then Some(m) else None
  {
    assert (ms + [m])[..|ms|] == ms;
  }

  // Which start has gone out, for the stream so far and what came of it.
  ghost predicate Announced(p: Policy, v: View, s: State, a: Option<Message>) {
    var out := StartOf(s.sent);
    if v.starts == [] then out == None
    else if p.pending == None then out == a
    else if s.passthrough then
      || (v.late > 0 && out == Some(Message.Start(s.status, s.headers)))
      || (|v.content| > p.limit && out == Some(Message.Start(s.status, Merge(s.headers, Bypass()))))
    else if v.finals > 0 then out == Some(Message.Start(s.status, Merge(s.headers, FinalExtra(p, s))))
    else out == None
  }

  lemma AnnouncedOn(p: Policy, v: View, s: State, m: Message, a: Option<Message>)
    requires Follows(p, v, s) && Allowed(v, m) && !(m.Other? && Holding(p, v)) && Announced(p, v, s, a)
    requires v.starts == [] ==> a == None
    ensures Announced(p, See(v, m), Step(p, s, m), if a.Some? then a else if m.Start? then Some(m) else None)
  {
    hide Viewed, Merge, MakeEntry, FinalExtra, Foreign, StartOf, Storing, WriteOf;
    StartPlus(s.sent, m);
    SameFields(p, s, Step(p, s, m));
    if m.Other? && s.started && !s.passthrough {
      StartPlus(s.sent, Message.Start(s.status, s.headers));
      StartPlus(s.sent + [Message.Start(s.status, s.headers)], m);
    }
    if m.Body? && s.started && !s.passthrough {
      var start := Message.Start(s.status, Merge(s.headers, Bypass()));
      var rest := if s.body != "" then [Body(s.body, true)] else [];
      StartPlus(s.sent, start);
      StartPlus(s.sent + [start], Body(s.body, true));
      assert s.sent + [start] + [] == s.sent + [start];
      StartPlus(s.sent + [start] + rest, m);
      var t := s.(body := s.body + m.chunk);
      var last := Message.Start(t.status, Merge(t.headers, FinalExtra(p, t)));
      StartPlus(s.sent, last);
      StartPlus(s.sent + [last], Body(t.body, false));
      SameFields(p, t, Step(p, s, m));
    }
  }

  lemma SameFields(p: Policy, s: State, t: State)
    ensures s.status == t.status && s.headers == t.headers && s.body == t.body && s.pending == t.pending ==>
              FinalExtra(p, s) == FinalExtra(p, t)
  {
  }

  lemma {:induction false} RunAnnounces(p: Policy, ms: seq<Message>)
    requires WellFormed(ms) && Undisturbed(p, ms)
    ensures Announced(p, Viewed(ms), Run(p, ms), StartOf(ms))
  {
    if ms == [] {
    } else {
      var front, m := ms[..|ms| - 1], ms[|ms| - 1];
      RunAnnounces(p, front);
      RunFollows(p, front);
      KeepsTheStart(p, front);
      hide See, Step, Follows, Announced, Holding, Allowed;
      AnnouncedOn(p, Viewed(front), Run(p, front), m, StartOf(front));
    }
  }

  // The start a client gets for a response that was held back to its end is
  // the application's, and says whether the body can be replayed: a miss with
  // the entry's tag and age limit when it can, whether or not Redis took it, a
  // bypass when it cannot; a response whose session was read undeclared is
  // neither, and forbids every cache to keep it.
  lemma {:induction false} StartSays(p: Policy, ms: seq<Message>)
    requires WellFormed(ms) && Viewed(ms).finals > 0 && Undisturbed(p, ms)
    requires p.pending.Some? && |Viewed(ms).content| <= p.limit && Viewed(ms).late == 0
    ensures StartOf(ms).Some? && StartOf(ms).value.Start? && StartOf(Run(p, ms).sent).Some? && StartOf(Run(p, ms).sent).value.Start?
    ensures var start, out := StartOf(ms).value, StartOf(Run(p, ms).sent).value;
            var body := Viewed(ms).content;
            && out.status == start.status
            && (p.leaks ==>
                  Find(out.headers, CONTROL) == Some("private, no-store") && Find(out.headers, STATUS) == Find(start.headers, STATUS))
            && (!p.leaks && (p.refuses(start.status, start.headers) || DecodeUtf8(body) == None) ==>
                  Find(out.headers, STATUS) == Some("BYPASS") && Find(out.headers, CONTROL) == Find(start.headers, CONTROL))
            && (!p.leaks && !p.refuses(start.status, start.headers) && DecodeUtf8(body).Some? ==>
                  && Find(out.headers, STATUS) == Some("MISS")
                  && Find(out.headers, ETAG) == Some(Utf8(Validator(start.headers, p.digest(body))))
                  && Find(out.headers, CONTROL) == Some(Utf8(ControlValue(p.pending.value.ttl, p.pending.value.private, p.pending.value.noStore))))
  {
    RunAnnounces(p, ms);
    RunFollows(p, ms);
    WellFormedViews(ms);
    KeepsTheStart(p, ms);
    var start := StartOf(ms).value;
    hide Viewed, Run, StartOf, WellFormed, Undisturbed, Merge, Find, MakeEntry, Validator, ControlValue, Utf8,
         DecodeUtf8, STATUS, ETAG, CONTROL;
    FinalFields(p, Run(p, ms));
  }

  // One too large to hold is let through as a bypass, its other fields as they
  // are.
  lemma {:induction false} OversizedIsBypassed(p: Policy, ms: seq<Message>, name: Octets)
    requires WellFormed(ms) && Undisturbed(p, ms)
    requires p.pending.Some? && |Viewed(ms).content| > p.limit && Viewed(ms).late == 0 && Viewed(ms).starts != []
    ensures StartOf(ms).Some? && StartOf(ms).value.Start? && StartOf(Run(p, ms).sent).Some? && StartOf(Run(p, ms).sent).value.Start?
    ensures var start, out := StartOf(ms).value, StartOf(Run(p, ms).sent).value;
            && out.status == start.status && Find(out.headers, STATUS) == Some("BYPASS")
            && (name != STATUS ==> Find(out.headers, name) == Find(start.headers, name))
  {
    RunAnnounces(p, ms);
    RunFollows(p, ms);
    KeepsTheStart(p, ms);
    AlreadyLower();
    hide Viewed, Run, StartOf, WellFormed, Undisturbed, Merge, Find, STATUS, Lower;
    FindIs(Bypass(), STATUS);
    FoundInMerge(StartOf(ms).value.headers, Bypass(), STATUS);
    FoundInMerge(StartOf(ms).value.headers, Bypass(), name);
  }

  lemma FinalFields(p: Policy, s: State)
    requires s.pending.Some?
    ensures var hs := Merge(s.headers, FinalExtra(p, s));
            if p.leaks then Find(hs, CONTROL) == Some("private, no-store") && Find(hs, STATUS) == Find(s.headers, STATUS)
            else if Storing(p, s) then
              && Find(hs, STATUS) == Some("MISS")
              && Find(hs, ETAG) == Some(Utf8(Validator(s.headers, p.digest(s.body))))
              && Find(hs, CONTROL) == Some(Utf8(ControlValue(s.pending.value.ttl, s.pending.value.private, s.pending.value.noStore)))
            else Find(hs, STATUS) == Some("BYPASS") && Find(hs, CONTROL) == Find(s.headers, CONTROL)
  {
    NamesDiffer();
    AlreadyLower();
    hide STATUS, ETAG, CONTROL, LENGTH, OWNED, Lower, Merge, Find, Validator, ControlValue, Utf8, Storing;
    var extra := FinalExtra(p, s);
    if p.leaks || !Storing(p, s) {
      FindIs(extra, extra[0].name);
      FoundInMerge(s.headers, extra, STATUS);
      FoundInMerge(s.headers, extra, CONTROL);
    } else {
      OwnAreFound(s.headers, extra, []);
      assert Merge(s.headers, extra) + [] == Merge(s.headers, extra);
    }
  }

  // -- where it is not -------------------------------------------------------

  lemma RunNone(p: Policy)
    ensures Viewed([]) == NOTHING && Run(p, []) == FRESH && WellFormed([])
  {
  }

  lemma RunOne(p: Policy, ms: seq<Message>, m: Message)
    ensures Run(p, ms + [m]) == Step(p, Run(p, ms), m)
    ensures WellFormed(ms + [m]) <==> WellFormed(ms) && Allowed(Viewed(ms), m)
  {
    assert (ms + [m])[..|ms|] == ms;
  }

  // Trailers between two chunks: the chunk held so far is never sent.
  lemma TrailersDropTheBody(p: Policy)
    requires p.pending.Some? && p.limit >= 1
    ensures var ms := [Message.Start(200, [])] + [Body("x", true)] + [Other("trailers")] + [Body("", false)];
            WellFormed(ms) && Viewed(ms).content == "x" && Viewed(Run(p, ms).sent).content == ""
  {
    var a, b, c, d := Message.Start(200, []), Body("x", true), Other("trailers"), Body("", false);
    hide Run, Viewed, WellFormed;
    RunNone(p);
    assert [] + [a] == [a];
    RunOne(p, [], a);
    RunOne(p, [a], b);
    RunOne(p, [a] + [b], c);
    RunOne(p, [a] + [b] + [c], d);
    SentOne([], a);
    SentOne([a], b);
    SentOne([a] + [b], c);
    SentOne([a] + [b] + [c], d);
    var start := Message.Start(200, []);
    assert Run(p, [a] + [b] + [c] + [d]).sent == [start] + [c] + [d];
    SentOne([start], c);
    SentOne([start] + [c], d);
  }

  // Trailers after the last chunk: a second start goes out.
  lemma TrailersStartAgain(p: Policy)
    requires p.pending.Some?
    ensures var ms := [Message.Start(200, [])] + [Body("", false)] + [Other("trailers")];
            WellFormed(ms) && |Viewed(ms).starts| == 1 && |Viewed(Run(p, ms).sent).starts| == 2
  {
    var a, b, c := Message.Start(200, []), Body("", false), Other("trailers");
    hide Run, Viewed, WellFormed, FinalExtra, Merge, Storing, MakeEntry;
    RunNone(p);
    assert [] + [a] == [a];
    RunOne(p, [], a);
    RunOne(p, [a], b);
    RunOne(p, [a] + [b], c);
    SentOne([], a);
    SentOne([a], b);
    SentOne([a] + [b], c);
    var t := Run(p, [a] + [b]);
    var first := t.sent[0];
    assert t.sent == [first] + [Body("", false)] && first.Start?;
    assert [] + [first] == [first];
    SentOne([], first);
    SentOne([first], Body("", false));
    SentOne(t.sent, Message.Start(200, []));
    SentOne(t.sent + [Message.Start(200, [])], c);
  }
}
