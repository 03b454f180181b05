// The stored response: what an entry keeps of a miss, and what a hit makes of
// the entry.
module Replay {
  import opened Prelude
  import opened Texts
  import Rates

  // Header bytes, each as the character latin-1 gives it, so that encoding and
  // decoding latin-1 change nothing.
  type Octets = string

  datatype Header = Header(name: Octets, value: Octets)

  function LowerChar(c: char): char { if 'A' <= c <= 'Z' then c + (32 as char) else c }

  // bytes.lower
  function Lower(s: Octets): (r: Octets)
    ensures |r| == |s| && forall i :: 0 <= i < |s| ==> r[i] == LowerChar(s[i])
  {
    seq(|s|, i requires 0 <= i < |s| => LowerChar(s[i]))
  }

  // str.lower, on what latin-1 decodes to
  function LowerLatin(c: char): char {
    if 'A' <= c <= 'Z' || (0xC0 <= c as int <= 0xDE && c as int != 0xD7) then c + (32 as char) else c
  }

  function LowerText(s: Octets): (r: Octets)
    ensures |r| == |s| && forall i :: 0 <= i < |s| ==> r[i] == LowerLatin(s[i])
  {
    seq(|s|, i requires 0 <= i < |s| => LowerLatin(s[i]))
  }

  // Both are the same on a name they leave in ASCII.
  lemma LowersAgree(s: Octets)
    requires Ascii(LowerText(s)) || Ascii(Lower(s))
    ensures LowerText(s) == Lower(s) && Lower(LowerText(s)) == Lower(s)
  {
    forall i | 0 <= i < |s| ensures s[i] as int < 0x80 {
      if Ascii(Lower(s)) { assert Lower(s)[i] as int < 0x80; } else { assert LowerText(s)[i] as int < 0x80; }
    }
  }

  // -- the field names -------------------------------------------------------

  const STATUS := "x-redis-cache"
  const ETAG := "etag"
  const CONTROL := "cache-control"
  const LENGTH := "content-length"
  const CONNECTION := "connection"

  const OWNED := {CONTROL, ETAG, STATUS}
  const HOP_BY_HOP := {CONNECTION, "keep-alive", "proxy-connection", "te", "transfer-encoding", "upgrade"}
  const PROXY := {"proxy-authenticate", "proxy-authentication-info", "proxy-authorization"}
  const FRAMING := {LENGTH}
  const POLICY := {"date", "set-cookie"}
  const NOT_MODIFIED := {ETAG, CONTROL, "vary", "content-location", "expires"}

  const NEVER_STORED := OWNED + HOP_BY_HOP + PROXY + FRAMING + POLICY

  // Never stored: what the library sends itself, what concerns one connection
  // (section 7.6.1 of RFC 9110) or one proxy, the length, the date and cookies.
  lemma NeverStoredAre()
    ensures NEVER_STORED == {"cache-control", "etag", "x-redis-cache", "connection", "keep-alive", "proxy-connection", "te",
                             "transfer-encoding", "upgrade", "proxy-authenticate", "proxy-authentication-info",
                             "proxy-authorization", "content-length", "date", "set-cookie"}
  {
  }

  // -- lists of fields -------------------------------------------------------

  // Does not carry, in lower case, one of these names.
  function NotNamed(names: set<Octets>): Header -> bool { (h: Header) => Lower(h.name) !in names }

  function NamesOf(hs: seq<Header>): (names: set<Octets>)
    ensures forall n :: n in names <==> exists i :: 0 <= i < |hs| && Lower(hs[i].name) == n
  {
    set i | 0 <= i < |hs| :: Lower(hs[i].name)
  }

  // `overrides` replace whatever carries one of their names.
  function Merge(base: seq<Header>, overrides: seq<Header>): seq<Header> {
    Keep(NotNamed(NamesOf(overrides)), base) + overrides
  }

  function Find(hs: seq<Header>, name: Octets): Option<Octets> {
    if hs == [] then None
    else if Lower(hs[0].name) == name then Some(hs[0].value)
    else Find(hs[1..], name)
  }

  lemma {:induction false} KeepAll<T>(p: T -> bool, s: seq<T>)
    requires forall i :: 0 <= i < |s| ==> p(s[i])
    ensures Keep(p, s) == s
  {
    if s == [] {
    } else {
      KeepAll(p, s[1..]);
    }
  }

  lemma {:induction false} KeepNone<T>(p: T -> bool, s: seq<T>)
    requires forall i :: 0 <= i < |s| ==> !p(s[i])
    ensures Keep(p, s) == []
  {
    if s == [] {
    } else {
      KeepNone(p, s[1..]);
    }
  }

  // A filter makes an earlier, weaker one redundant.
  lemma {:induction false} KeepTwice<T>(p: T -> bool, q: T -> bool, s: seq<T>)
    requires forall i :: 0 <= i < |s| && p(s[i]) ==> q(s[i])
    ensures Keep(p, Keep(q, s)) == Keep(p, s)
  {
    if s == [] {
    } else {
      KeepTwice(p, q, s[1..]);
      KeepAppends(p, if q(s[0]) then [s[0]] else [], Keep(q, s[1..]));
      assert Keep(p, [s[0]]) == (if p(s[0]) then [s[0]] else []);
    }
  }

  lemma {:induction false} KeepMeets<T>(p: T -> bool, s: seq<T>)
    ensures forall i :: 0 <= i < |Keep(p, s)| ==> p(Keep(p, s)[i])
  {
    if s == [] {
    } else {
      KeepMeets(p, s[1..]);
    }
  }

  // -- what an entry leaves out ----------------------------------------------

  predicate Blank(c: char) { c == ' ' || 9 <= c as int <= 13 }

  // bytes.strip
  function Strip(s: Octets): Octets { Trim(s, c => Blank(c)) }

  // So a name with blanks of any kind around it is the name.
  lemma {:induction false} StripDrops(b0: Octets, n: Octets, b1: Octets)
    requires forall i :: 0 <= i < |b0| ==> b0[i] in {' ', '\t', '\n', '\r', 11 as char, 12 as char}
    requires forall i :: 0 <= i < |b1| ==> b1[i] in {' ', '\t', '\n', '\r', 11 as char, 12 as char}
    requires n != "" && !Blank(n[0]) && !Blank(n[|n| - 1])
    ensures Strip(b0 + n + b1) == n
    decreases |b0| + |b1|
  {
    var s := b0 + n + b1;
    if b0 != "" {
      assert s[1..] == b0[1..] + n + b1;
      StripDrops(b0[1..], n, b1);
    } else if b1 != "" {
      assert s[..|s| - 1] == b0 + n + b1[..|b1| - 1];
      assert s[0] == n[0] && s[|s| - 1] == b1[|b1| - 1];
      StripDrops(b0, n, b1[..|b1| - 1]);
    } else {
      assert s == n;
    }
  }

  function TokenSet(tokens: seq<Octets>): set<Octets> {
    if tokens == [] then {}
    else (if Strip(tokens[0]) != "" then {Lower(Strip(tokens[0]))} else {}) + TokenSet(tokens[1..])
  }

  function NamedByConnection(hs: seq<Header>): set<Octets> {
    if hs == [] then {}
    else (if Lower(hs[0].name) == CONNECTION then TokenSet(Split(hs[0].value, ',')) else {}) + NamedByConnection(hs[1..])
  }

  function Excluded(hs: seq<Header>): set<Octets> { NEVER_STORED + NamedByConnection(hs) }

  lemma {:induction false} TokensAre(tokens: seq<Octets>, n: Octets)
    ensures n in TokenSet(tokens) <==> n != "" && exists k :: 0 <= k < |tokens| && Lower(Strip(tokens[k])) == n
  {
    if tokens == [] {
    } else {
      TokensAre(tokens[1..], n);
      assert forall k :: 0 < k < |tokens| ==> tokens[k] == tokens[1..][k - 1];
    }
  }

  // A Connection field that lists n, blanks and case apart.
  ghost predicate ListsField(h: Header, n: Octets) {
    Lower(h.name) == CONNECTION && exists k :: 0 <= k < |Split(h.value, ',')| && Lower(Strip(Split(h.value, ',')[k])) == n
  }

  // A field is left out exactly when it is one of the fixed ones or some
  // Connection field lists it.
  lemma ExcludedAre(hs: seq<Header>, n: Octets)
    ensures n in Excluded(hs) <==>
              || n in {"cache-control", "etag", "x-redis-cache", "connection", "keep-alive", "proxy-connection", "te",
                       "transfer-encoding", "upgrade", "proxy-authenticate", "proxy-authentication-info",
                       "proxy-authorization", "content-length", "date", "set-cookie"}
              || (n != "" && exists i :: 0 <= i < |hs| && ListsField(hs[i], n))
  {
    hide NEVER_STORED, ListsField;
    NeverStoredAre();
    NamedAre(hs, n);
  }

  lemma {:induction false} NamedAre(hs: seq<Header>, n: Octets)
    ensures n in NamedByConnection(hs) <==> n != "" && exists i :: 0 <= i < |hs| && ListsField(hs[i], n)
  {
    if hs == [] {
    } else {
      NamedAre(hs[1..], n);
      TokensAre(Split(hs[0].value, ','), n);
      hide ListsField;
      if i :| 0 <= i < |hs[1..]| && ListsField(hs[1..][i], n) { assert ListsField(hs[i + 1], n); }
      assert forall i :: 0 < i < |hs| ==> hs[i] == hs[1..][i - 1];
    }
  }

  method ExcludedFromStorage(headers: seq<Header>) returns (excluded: set<Octets>)
    ensures excluded == Excluded(headers)
  {
    excluded := NEVER_STORED;
    for i := 0 to |headers|
      invariant excluded + NamedByConnection(headers[i..]) == Excluded(headers)
    {
      assert headers[i..][1..] == headers[i + 1..];
      if Lower(headers[i].name) == CONNECTION {
        var tokens := Split(headers[i].value, ',');
        ghost var start := excluded;
        for k := 0 to |tokens|
          invariant excluded + TokenSet(tokens[k..]) == start + TokenSet(tokens)
        {
          assert tokens[k..][1..] == tokens[k + 1..];
          if Strip(tokens[k]) != "" {
            excluded := excluded + {Lower(Strip(tokens[k]))};
          }
        }
      }
    }
  }

  function LowerName(h: Header): Header { Header(LowerText(h.name), h.value) }

  function LowerNames(hs: seq<Header>): (r: seq<Header>)
    ensures |r| == |hs| && forall i :: 0 <= i < |hs| ==> r[i] == LowerName(hs[i])
  {
    seq(|hs|, i requires 0 <= i < |hs| => LowerName(hs[i]))
  }

  // The fields of a response that a cache may replay, in order, names lowered.
  function Storable(hs: seq<Header>): seq<Header> { LowerNames(Keep(NotNamed(Excluded(hs)), hs)) }

  // -- storing ---------------------------------------------------------------

  // The body is kept as text, decoded from UTF-8.
  datatype Entry = Entry(body: string, etag: Octets, headers: seq<Header>)

  datatype Pending = Pending(key: string, ttl: int, private: bool, noStore: bool, writeThrough: bool)

  function ControlValue(maxAge: int, private: bool, noStore: bool): string {
    if noStore then "no-store"
    else
      var base := if maxAge <= 0 then "no-cache" else "max-age=" + Rates.Decimal(maxAge);
      if private then "private, " + base else base
  }

  // An endpoint's own validator is kept; otherwise there is a hash of the body.
  function Validator(hs: seq<Header>, digest: Octets): Octets {
    var own := Find(hs, ETAG);
    if own.Some? then own.value else digest
  }

  function MakeEntry(text: string, hs: seq<Header>, digest: Octets): Entry {
    Entry(text, Validator(hs, digest), Storable(hs))
  }

  // What the miss itself is sent with.
  function MissHeaders(p: Pending, hs: seq<Header>, digest: Octets): seq<Header> {
    Merge(hs, MissExtra(p, Validator(hs, digest)))
  }

  function MissExtra(p: Pending, etag: Octets): seq<Header> {
    [Header(STATUS, "MISS"), Header(ETAG, Utf8(etag)), Header(CONTROL, Utf8(ControlValue(p.ttl, p.private, p.noStore)))]
  }

  // -- replaying -------------------------------------------------------------

  datatype Conditions = Conditions(ifNoneMatch: Option<Octets>, ifModifiedSince: Option<Octets>)

  datatype Response = Response(status: int, headers: seq<Header>, body: Octets)

  // If-None-Match decides alone when it is there.
  function IsNotModified(q: Conditions, etag: Octets, stored: seq<Header>, date: Octets -> Option<int>): bool {
    if q.ifNoneMatch.Some? then q.ifNoneMatch.value == etag
    else
      var modified := FindExactly(stored, "last-modified");
      q.ifModifiedSince.Some? && modified.Some? && date(modified.value).Some? && date(q.ifModifiedSince.value).Some?
      && date(modified.value).value <= date(q.ifModifiedSince.value).value
  }

  function FindExactly(hs: seq<Header>, name: Octets): Option<Octets> {
    if hs == [] then None else if hs[0].name == name then Some(hs[0].value) else FindExactly(hs[1..], name)
  }

  function OnlyNamed(names: set<Octets>): Header -> bool { (h: Header) => h.name in names }

  function HitExtra(etag: Octets, control: string): seq<Header> {
    [Header(STATUS, "HIT"), Header(ETAG, etag), Header(CONTROL, control)]
  }

  function HitHeaders(stored: seq<Header>, etag: Octets, control: string, notModified: bool): seq<Header> {
    Merge(if notModified then Keep(OnlyNamed(NOT_MODIFIED), stored) else stored, HitExtra(etag, control))
  }

  function BuildHit(e: Entry, remaining: int, q: Conditions, private: bool, noStore: bool, date: Octets -> Option<int>): Response {
    var control := ControlValue(remaining, private, noStore);
    if IsNotModified(q, e.etag, e.headers, date) then Response(304, HitHeaders(e.headers, e.etag, control, true), "")
    else Response(200, HitHeaders(e.headers, e.etag, control, false) + [Header(LENGTH, Rates.Decimal(|Utf8(e.body)|))], Utf8(e.body))
  }

  // -- what a hit shows ------------------------------------------------------

  // The fields of a hit, apart from those this library owns and the length.
  function Replayed(hs: seq<Header>): seq<Header> { Keep(NotNamed(OWNED + FRAMING), hs) }

  lemma {:induction false} NamedByConnectionAppends(a: seq<Header>, b: seq<Header>)
    ensures NamedByConnection(a + b) == NamedByConnection(a) + NamedByConnection(b)
  {
    if a == [] {
      assert a + b == b;
    } else {
      assert (a + b)[1..] == a[1..] + b;
      NamedByConnectionAppends(a[1..], b);
    }
  }

  // Fields under other names do not count towards what Connection names.
  lemma {:induction false} ConnectionKept(names: set<Octets>, hs: seq<Header>)
    requires CONNECTION !in names
    ensures NamedByConnection(Keep(NotNamed(names), hs)) == NamedByConnection(hs)
  {
    if hs == [] {
    } else {
      ConnectionKept(names, hs[1..]);
      NamedByConnectionAppends(if NotNamed(names)(hs[0]) then [hs[0]] else [], Keep(NotNamed(names), hs[1..]));
    }
  }

  lemma AlreadyLower()
    ensures Lower(STATUS) == STATUS && Lower(ETAG) == ETAG && Lower(CONTROL) == CONTROL && Lower(LENGTH) == LENGTH
    ensures CONNECTION !in OWNED
  {
    assert |STATUS| == 13 && |ETAG| == 4 && |CONTROL| == 13 && |LENGTH| == 14 && |CONNECTION| == 10;
  }

  predicate IsOwn(extra: seq<Header>) {
    |extra| == 3 && extra[0].name == STATUS && extra[1].name == ETAG && extra[2].name == CONTROL
  }

  lemma {:induction false} NoConnection(hs: seq<Header>)
    requires forall i :: 0 <= i < |hs| ==> Lower(hs[i].name) != CONNECTION
    ensures NamedByConnection(hs) == {}
  {
    if hs == [] {
    } else {
      NoConnection(hs[1..]);
    }
  }

  lemma ThreeNames(extra: seq<Header>, a: Octets, b: Octets, c: Octets)
    requires |extra| == 3 && Lower(extra[0].name) == a && Lower(extra[1].name) == b && Lower(extra[2].name) == c
    ensures NamesOf(extra) == {c, b, a}
  {
    hide Lower;
    assert a in NamesOf(extra) && b in NamesOf(extra) && c in NamesOf(extra);
  }

  lemma {:induction false} OwnNames(extra: seq<Header>)
    requires IsOwn(extra)
    ensures NamesOf(extra) == OWNED && NamedByConnection(extra) == {}
    ensures forall i :: 0 <= i < |extra| ==> Lower(extra[i].name) in OWNED
  {
    hide STATUS, ETAG, CONTROL, LENGTH, CONNECTION, Lower, NamedByConnection, NamesOf;
    AlreadyLower();
    ThreeNames(extra, STATUS, ETAG, CONTROL);
    NoConnection(extra);
  }

  // The miss leaves out of storage what the endpoint's own response does: this
  // library's fields change neither the list nor what Connection names.
  lemma {:induction false} MissStoresTheSame(p: Pending, hs: seq<Header>, digest: Octets)
    ensures Storable(MissHeaders(p, hs, digest)) == Storable(hs)
  {
    hide STATUS, ETAG, CONTROL, LENGTH, CONNECTION, Lower, OWNED, HOP_BY_HOP, PROXY, FRAMING, POLICY, Keep;
    var extra := MissExtra(p, Validator(hs, digest));
    OwnNames(extra);
    AlreadyLower();
    var kept := Keep(NotNamed(OWNED), hs);
    ConnectionKept(OWNED, hs);
    NamedByConnectionAppends(kept, extra);
    var excluded := Excluded(hs);
    KeepAppends(NotNamed(excluded), kept, extra);
    KeepTwice(NotNamed(excluded), NotNamed(OWNED), hs);
    KeepNone(NotNamed(excluded), extra);
    assert Excluded(kept + extra) == excluded;
    assert Keep(NotNamed(excluded), kept + extra) == Keep(NotNamed(excluded), hs);
  }

  lemma OwnIsAscii(n: Octets)
    requires n in OWNED + FRAMING
    ensures Ascii(n)
  {
  }

  // Nothing stored carries a name this library sends itself.
  lemma StoredIsForeign(hs: seq<Header>)
    ensures forall i :: 0 <= i < |Storable(hs)| ==> Lower(Storable(hs)[i].name) !in OWNED + FRAMING
  {
    hide STATUS, ETAG, CONTROL, LENGTH, CONNECTION, OWNED, FRAMING, HOP_BY_HOP, PROXY, POLICY;
    var kept := Keep(NotNamed(Excluded(hs)), hs);
    KeepMeets(NotNamed(Excluded(hs)), hs);
    forall i | 0 <= i < |kept| ensures Lower(LowerText(kept[i].name)) !in OWNED + FRAMING {
      var n := kept[i].name;
      assert Lower(n) !in Excluded(hs);
      if Lower(LowerText(n)) in OWNED + FRAMING {
        OwnIsAscii(Lower(LowerText(n)));
        LowerKeepsAscii(LowerText(n));
        LowersAgree(n);
        assert false;
      }
    }
  }

  lemma LowerKeepsAscii(s: Octets)
    requires Ascii(Lower(s))
    ensures Ascii(s)
  {
    forall i | 0 <= i < |s| ensures s[i] as int < 0x80 { assert Lower(s)[i] as int < 0x80; }
  }

  // What a hit is sent with: the stored fields as they are, then this
  // library's own, then the length.
  lemma {:induction false} HitIsStoredPlusOwn(hs: seq<Header>, etag: Octets, control: string)
    ensures HitHeaders(Storable(hs), etag, control, false) == Storable(hs) + HitExtra(etag, control)
  {
    hide STATUS, ETAG, CONTROL, LENGTH, OWNED;
    StoredIsForeign(hs);
    OwnNames(HitExtra(etag, control));
    KeepAll(NotNamed(OWNED), Storable(hs));
  }

  // A hit replays the miss: the same body, and, this library's fields and the
  // length apart, the fields of the miss, in their order and as often as they
  // came, less those a cache may not keep, under names in lower case.
  lemma {:induction false} HitReplaysMiss(p: Pending, hs: seq<Header>, digest: Octets, body: Octets, remaining: int, q: Conditions,
                       private: bool, noStore: bool, date: Octets -> Option<int>)
    requires DecodeUtf8(body).Some?
    ensures var hit := BuildHit(MakeEntry(DecodeUtf8(body).value, hs, digest), remaining, q, private, noStore, date);
            hit.status == 200 ==> hit.body == body && Replayed(hit.headers) == Storable(MissHeaders(p, hs, digest))
  {
    hide STATUS, ETAG, CONTROL, LENGTH, OWNED, Storable, MissHeaders, HitHeaders, IsNotModified, NamesOf, Lower, Keep,
         DecodeUtf8, Utf8;
    DecodedEncodes(body);
    var e := MakeEntry(DecodeUtf8(body).value, hs, digest);
    var control := ControlValue(remaining, private, noStore);
    var extra := HitExtra(e.etag, control);
    var length := [Header(LENGTH, Rates.Decimal(|body|))];
    HitIsStoredPlusOwn(hs, e.etag, control);
    MissStoresTheSame(p, hs, digest);
    StoredIsForeign(hs);
    var foreign := NotNamed(OWNED + FRAMING);
    KeepAppends(foreign, Storable(hs) + extra, length);
    KeepAppends(foreign, Storable(hs), extra);
    KeepAll(foreign, Storable(hs));
    OwnNames(extra);
    KeepNone(foreign, extra);
    AlreadyLower();
    KeepNone(foreign, length);
  }

  // A 304 is the 200 of the same entry, cut down to the fields a 304 carries.
  lemma {:induction false} NotModifiedIsTheHitCutDown(hs: seq<Header>, etag: Octets, control: string, length: Octets)
    ensures HitHeaders(Storable(hs), etag, control, true)
            == Keep(OnlyNamed(NOT_MODIFIED + {STATUS}), HitHeaders(Storable(hs), etag, control, false) + [Header(LENGTH, length)])
  {
    var extra := HitExtra(etag, control);
    HitIsStoredPlusOwn(hs, etag, control);
    StoredIsForeign(hs);
    CutDown(Storable(hs), extra, length);
  }

  lemma {:induction false} CutDown(stored: seq<Header>, extra: seq<Header>, length: Octets)
    requires IsOwn(extra) && forall i :: 0 <= i < |stored| ==> Lower(stored[i].name) !in OWNED + FRAMING
    ensures Merge(Keep(OnlyNamed(NOT_MODIFIED), stored), extra)
            == Keep(OnlyNamed(NOT_MODIFIED + {STATUS}), stored + extra + [Header(LENGTH, length)])
  {
    var some, all := OnlyNamed(NOT_MODIFIED), OnlyNamed(NOT_MODIFIED + {STATUS});
    LengthIsNotOne();
    StatusIsOwn();
    hide STATUS, ETAG, CONTROL, LENGTH, OWNED, NOT_MODIFIED, Lower, Keep, NamesOf;
    AlreadyLower();
    OwnNames(extra);
    KeepAppends(all, stored + extra, [Header(LENGTH, length)]);
    KeepAppends(all, stored, extra);
    KeepNone(all, [Header(LENGTH, length)]);
    OwnFieldsStay();
    KeepAll(all, extra);
    KeepAlike(some, all, stored);
    KeepHolds(some, NotNamed(OWNED), stored);
    KeepAll(NotNamed(OWNED), Keep(some, stored));
  }

  lemma LengthIsNotOne()
    ensures LENGTH !in NOT_MODIFIED + {STATUS}
  {
    assert |LENGTH| == 14 && |ETAG| == 4 && |CONTROL| == 13 && |STATUS| == 13;
    assert |"vary"| == 4 && |"content-location"| == 16 && |"expires"| == 7;
  }

  lemma StatusIsOwn()
    ensures STATUS in OWNED
  {
  }

  lemma OwnFieldsStay()
    ensures STATUS in NOT_MODIFIED + {STATUS} && ETAG in NOT_MODIFIED + {STATUS} && CONTROL in NOT_MODIFIED + {STATUS}
  {
  }

  lemma {:induction false} KeepAlike<T>(p: T -> bool, q: T -> bool, s: seq<T>)
    requires forall i :: 0 <= i < |s| ==> (p(s[i]) <==> q(s[i]))
    ensures Keep(p, s) == Keep(q, s)
  {
    if s == [] {
    } else {
      KeepAlike(p, q, s[1..]);
    }
  }

  lemma {:induction false} KeepHolds<T>(p: T -> bool, r: T -> bool, s: seq<T>)
    requires forall i :: 0 <= i < |s| ==> r(s[i])
    ensures forall i :: 0 <= i < |Keep(p, s)| ==> r(Keep(p, s)[i])
  {
    if s == [] {
    } else {
      KeepHolds(p, r, s[1..]);
    }
  }

  // -- the validator ---------------------------------------------------------

  lemma {:induction false} FindAppends(a: seq<Header>, b: seq<Header>, name: Octets)
    ensures Find(a + b, name) == if Find(a, name).Some? then Find(a, name) else Find(b, name)
  {
    if a == [] {
      assert a + b == b;
    } else {
      assert (a + b)[1..] == a[1..] + b;
      FindAppends(a[1..], b, name);
    }
  }

  lemma {:induction false} FindsNone(hs: seq<Header>, name: Octets)
    requires forall i :: 0 <= i < |hs| ==> Lower(hs[i].name) != name
    ensures Find(hs, name) == None
  {
    if hs == [] {
    } else {
      FindsNone(hs[1..], name);
    }
  }

  // After a merge with this library's fields, the validator is its own.
  lemma MergedValidator(base: seq<Header>, extra: seq<Header>, rest: seq<Header>)
    requires IsOwn(extra)
    ensures Find(Merge(base, extra) + rest, ETAG) == Some(extra[1].value)
  {
    StatusIsNotEtag();
    hide STATUS, ETAG, CONTROL, LENGTH, CONNECTION, Lower;
    AlreadyLower();
    OwnNames(extra);
    var kept := Keep(NotNamed(OWNED), base);
    KeepMeets(NotNamed(OWNED), base);
    FindsNone(kept, ETAG);
    FindAppends(kept + extra, rest, ETAG);
    FindAppends(kept, extra, ETAG);
    assert extra == [extra[0]] + ([extra[1]] + [extra[2]]);
    FindAppends([extra[0]], [extra[1]] + [extra[2]], ETAG);
  }

  lemma StatusIsNotEtag()
    ensures STATUS != ETAG && ETAG in OWNED
  {
    assert |STATUS| == 13 && |ETAG| == 4;
  }

  // The validator a client reads off the miss is the one it reads off the hit,
  // and sending it back gets a 304, exactly when the validator is ASCII: the
  // miss writes it as UTF-8, the hit as latin-1.
  lemma {:induction false} EchoIsCurrentWhenAscii(p: Pending, hs: seq<Header>, digest: Octets, text: string, remaining: int, q: Conditions,
                               private: bool, noStore: bool, date: Octets -> Option<int>)
    requires q.ifNoneMatch == Find(MissHeaders(p, hs, digest), ETAG)
    ensures var hit := BuildHit(MakeEntry(text, hs, digest), remaining, q, private, noStore, date);
            && (hit.status == 304 <==> Ascii(Validator(hs, digest)))
            && (q.ifNoneMatch == Find(hit.headers, ETAG) <==> Ascii(Validator(hs, digest)))
  {
    hide STATUS, ETAG, CONTROL, LENGTH, Merge;
    var e := MakeEntry(text, hs, digest);
    var control := ControlValue(remaining, private, noStore);
    Utf8IsAscii(e.etag);
    var miss := MissExtra(p, e.etag);
    MergedValidator(hs, miss, []);
    assert Merge(hs, miss) + [] == Merge(hs, miss);
    MergedValidator(e.headers, HitExtra(e.etag, control), [Header(LENGTH, Rates.Decimal(|Utf8(text)|))]);
    MergedValidator(Keep(OnlyNamed(NOT_MODIFIED), e.headers), HitExtra(e.etag, control), []);
    assert HitHeaders(e.headers, e.etag, control, true) + [] == HitHeaders(e.headers, e.etag, control, true);
  }

  // So an endpoint's own tag with an accent is sent back in vain: whoever
  // echoes it gets the whole response again.
  lemma AccentedTagNeverMatches(p: Pending, text: string, digest: Octets, remaining: int, q: Conditions,
                                private: bool, noStore: bool, date: Octets -> Option<int>)
    requires q.ifNoneMatch == Find(MissHeaders(p, [Header(ETAG, ['"', 0xE9 as char, '"'])], digest), ETAG)
    ensures BuildHit(MakeEntry(text, [Header(ETAG, ['"', 0xE9 as char, '"'])], digest), remaining, q, private, noStore, date).status == 200
  {
    var hs := [Header(ETAG, ['"', 0xE9 as char, '"'])];
    AlreadyLower();
    assert Find(hs, ETAG) == Some(hs[0].value);
    assert hs[0].value[1] as int == 0xE9;
    hide MissHeaders, HitHeaders, MakeEntry;
    EchoIsCurrentWhenAscii(p, hs, digest, text, remaining, q, private, noStore, date);
  }
}
