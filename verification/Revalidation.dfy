// What a client learns from a hit, and what its conditions get it.
module Revalidation {
  import opened Prelude
  import opened Texts
  import opened Replay
  import Rates

  // -- the library's own fields ----------------------------------------------

  lemma NamesDiffer()
    ensures STATUS != ETAG && STATUS != CONTROL && ETAG != CONTROL && LENGTH != ETAG && LENGTH != STATUS && LENGTH != CONTROL
    ensures OWNED == {STATUS, ETAG, CONTROL} && LENGTH in FRAMING
  {
    assert |STATUS| == 13 && |ETAG| == 4 && |CONTROL| == 13 && |LENGTH| == 14;
    assert STATUS[0] == 'x' && CONTROL[0] == 'c';
  }

  // After a merge each of this library's fields is there with its own value.
  lemma OwnAreFound(base: seq<Header>, extra: seq<Header>, rest: seq<Header>)
    requires IsOwn(extra)
    ensures var hs := Merge(base, extra) + rest;
            && Find(hs, STATUS) == Some(extra[0].value) && Find(hs, ETAG) == Some(extra[1].value) && Find(hs, CONTROL) == Some(extra[2].value)
  {
    NamesDiffer();
    hide STATUS, ETAG, CONTROL, LENGTH, CONNECTION, OWNED, Lower, Find;
    AlreadyLower();
    OwnNames(extra);
    var kept := Keep(NotNamed(OWNED), base);
    KeepMeets(NotNamed(OWNED), base);
    FindsNone(kept, STATUS);
    FindsNone(kept, ETAG);
    FindsNone(kept, CONTROL);
    assert Merge(base, extra) == kept + extra;
    FoundBehind(kept, extra, rest, STATUS);
    FoundBehind(kept, extra, rest, ETAG);
    FoundBehind(kept, extra, rest, CONTROL);
    ThreeFound(extra);
  }

  lemma FoundBehind(kept: seq<Header>, extra: seq<Header>, rest: seq<Header>, name: Octets)
    requires Find(kept, name) == None
    ensures Find(extra, name).Some? ==> Find(kept + extra + rest, name) == Find(extra, name)
  {
    hide Find;
    FindAppends(kept + extra, rest, name);
    FindAppends(kept, extra, name);
  }

  lemma ThreeFound(extra: seq<Header>)
    requires IsOwn(extra)
    ensures Find(extra, STATUS) == Some(extra[0].value) && Find(extra, ETAG) == Some(extra[1].value) && Find(extra, CONTROL) == Some(extra[2].value)
  {
    NamesDiffer();
    AlreadyLower();
    hide STATUS, ETAG, CONTROL, LENGTH, CONNECTION, OWNED, Lower;
    assert extra[1..][0] == extra[1] && extra[1..][1..] == extra[2..] && extra[2..][0] == extra[2];
    FindIs(extra, STATUS);
    FindIs(extra, ETAG);
    FindIs(extra, CONTROL);
    FindIs(extra[1..], ETAG);
    FindIs(extra[1..], CONTROL);
    FindIs(extra[2..], CONTROL);
  }

  lemma FindIs(hs: seq<Header>, name: Octets)
    ensures Find(hs, name) == if hs == [] then None else if Lower(hs[0].name) == name then Some(hs[0].value) else Find(hs[1..], name)
  {
  }

  // -- the entity tag --------------------------------------------------------

  // A client that names a tag is told its copy is current exactly when the tag
  // is the one the answer itself carries; either way the answer carries the
  // entry's, and nothing else of the condition counts.
  lemma {:induction false} TagDecides(e: Entry, remaining: int, q: Conditions, private: bool, noStore: bool, date: Octets -> Option<int>)
    requires q.ifNoneMatch.Some?
    ensures var hit := BuildHit(e, remaining, q, private, noStore, date);
            && (hit.status == 304 || hit.status == 200)
            && (hit.status == 304 <==> q.ifNoneMatch == Find(hit.headers, ETAG))
            && Find(hit.headers, ETAG) == Some(e.etag)
  {
    FieldsOfHit(e, remaining, q, private, noStore, date);
    hide STATUS, ETAG, CONTROL, LENGTH, HitHeaders, Find;
  }

  // Every hit says so, carries the entry's tag, and how long it may be kept.
  lemma {:induction false} FieldsOfHit(e: Entry, remaining: int, q: Conditions, private: bool, noStore: bool, date: Octets -> Option<int>)
    ensures var hit := BuildHit(e, remaining, q, private, noStore, date);
            && Find(hit.headers, STATUS) == Some("HIT") && Find(hit.headers, ETAG) == Some(e.etag)
            && Find(hit.headers, CONTROL) == Some(ControlValue(remaining, private, noStore))
  {
    hide STATUS, ETAG, CONTROL, LENGTH, Merge, Find, ControlValue, IsNotModified;
    var control := ControlValue(remaining, private, noStore);
    var extra := HitExtra(e.etag, control);
    OwnAreFound(e.headers, extra, [Header(LENGTH, Rates.Decimal(|Utf8(e.body)|))]);
    OwnAreFound(Keep(OnlyNamed(NOT_MODIFIED), e.headers), extra, []);
    assert HitHeaders(e.headers, e.etag, control, true) + [] == HitHeaders(e.headers, e.etag, control, true);
  }

  // The tag is the endpoint's own when it sent one, and a hash of the body when
  // it did not; and a response with the same tag, or the same body and none, is
  // one a client need not fetch again.
  lemma {:induction false} TagIsTheEndpoints(hs: seq<Header>, digest: Octets, text: string, remaining: int, q: Conditions,
                                             private: bool, noStore: bool, date: Octets -> Option<int>)
    ensures var hit := BuildHit(MakeEntry(text, hs, digest), remaining, q, private, noStore, date);
            var tag := Find(hit.headers, ETAG);
            && (Find(hs, ETAG).Some? ==> tag == Find(hs, ETAG))
            && (Find(hs, ETAG) == None ==> tag == Some(digest))
            && (q.ifNoneMatch.Some? ==> (hit.status == 304 <==> q.ifNoneMatch == tag))
  {
    hide STATUS, ETAG, CONTROL, LENGTH, BuildHit, Find, Storable;
    var e := MakeEntry(text, hs, digest);
    FieldsOfHit(e, remaining, q, private, noStore, date);
    if q.ifNoneMatch.Some? { TagDecides(e, remaining, q, private, noStore, date); }
  }

  // -- the date --------------------------------------------------------------

  const MODIFIED := "last-modified"

  // Without a tag the date decides: a client is told its copy is current
  // exactly when it names a date, the miss it was stored from named one that
  // may be kept, both parse, and the client's is no earlier.
  lemma {:induction false} DateDecides(p: Pending, hs: seq<Header>, digest: Octets, text: string, remaining: int, q: Conditions,
                                       private: bool, noStore: bool, date: Octets -> Option<int>)
    requires q.ifNoneMatch == None
    ensures var hit := BuildHit(MakeEntry(text, hs, digest), remaining, q, private, noStore, date);
            var sent := Find(MissHeaders(p, hs, digest), MODIFIED);
            && (hit.status == 304 || hit.status == 200)
            && (hit.status == 304 <==>
                  && q.ifModifiedSince.Some? && sent.Some? && MODIFIED !in Excluded(hs)
                  && date(sent.value).Some? && date(q.ifModifiedSince.value).Some?
                  && date(sent.value).value <= date(q.ifModifiedSince.value).value)
            // so echoing the date of the miss gets a 304 when it parses
            && (sent.Some? && q.ifModifiedSince == sent && MODIFIED !in Excluded(hs) ==> (hit.status == 304 <==> date(sent.value).Some?))
            && (q.ifModifiedSince == None ==> hit.status == 200)
  {
    StoredDate(hs);
    SentDate(p, hs, digest);
    hide Find, FindExactly, Storable, HitHeaders, MissHeaders, Excluded;
  }

  lemma ModifiedIsForeign()
    ensures MODIFIED !in OWNED && Ascii(MODIFIED) && Lower(MODIFIED) == MODIFIED
  {
    assert |MODIFIED| == 13 && MODIFIED[0] == 'l' && STATUS[0] == 'x' && CONTROL[0] == 'c' && |ETAG| == 4;
  }

  // The date of the endpoint's own response is the miss's,
  lemma SentDate(p: Pending, hs: seq<Header>, digest: Octets)
    ensures Find(MissHeaders(p, hs, digest), MODIFIED) == Find(hs, MODIFIED)
  {
    ModifiedIsForeign();
    hide STATUS, ETAG, CONTROL, LENGTH, OWNED, MODIFIED, Lower, Find, ControlValue;
    var extra := MissExtra(p, Validator(hs, digest));
    OwnNames(extra);
    FindAppends(Keep(NotNamed(OWNED), hs), extra, MODIFIED);
    FindsNone(extra, MODIFIED);
    FindKept(hs, OWNED, MODIFIED);
  }

  lemma {:induction false} FindKept(hs: seq<Header>, names: set<Octets>, name: Octets)
    ensures Find(Keep(NotNamed(names), hs), name) == if name in names then None else Find(hs, name)
  {
    hide Lower;
    if hs == [] {
    } else {
      FindKept(hs[1..], names, name);
      FindAppends(if NotNamed(names)(hs[0]) then [hs[0]] else [], Keep(NotNamed(names), hs[1..]), name);
      FindIs([hs[0]], name);
    }
  }

  // In a merge the overrides are found, and behind them what they leave.
  lemma FoundInMerge(base: seq<Header>, extra: seq<Header>, name: Octets)
    ensures Find(Merge(base, extra), name) == if name in NamesOf(extra) then Find(extra, name) else Find(base, name)
  {
    hide Find, Lower;
    FindKept(base, NamesOf(extra), name);
    FindAppends(Keep(NotNamed(NamesOf(extra)), base), extra, name);
    if name !in NamesOf(extra) { FindsNone(extra, name); }
  }

  // and the entry's, if it may be kept.
  lemma StoredDate(hs: seq<Header>)
    ensures FindExactly(Storable(hs), MODIFIED) == if MODIFIED in Excluded(hs) then None else Find(hs, MODIFIED)
  {
    ModifiedIsForeign();
    hide MODIFIED, Lower, LowerText, Find, FindExactly, Excluded;
    var kept := Keep(NotNamed(Excluded(hs)), hs);
    FindKept(hs, Excluded(hs), MODIFIED);
    FindLowered(kept, MODIFIED);
  }

  lemma {:induction false} FindLowered(hs: seq<Header>, name: Octets)
    requires Ascii(name)
    ensures FindExactly(LowerNames(hs), name) == Find(hs, name)
  {
    if hs == [] {
    } else {
      FindLowered(hs[1..], name);
      assert LowerNames(hs)[1..] == LowerNames(hs[1..]);
      LowersMeet(hs[0].name, name);
      hide Lower, LowerText;
    }
  }

  lemma LowersMeet(s: Octets, name: Octets)
    requires Ascii(name)
    ensures LowerText(s) == name <==> Lower(s) == name
  {
    hide Lower, LowerText;
    if LowerText(s) == name || Lower(s) == name { LowersAgree(s); }
  }

  // -- the body --------------------------------------------------------------

  // The whole response announces the length of the body it has; one that says
  // "not modified" has neither.
  lemma {:induction false} LengthIsTrue(hs: seq<Header>, digest: Octets, text: string, remaining: int, q: Conditions,
                                        private: bool, noStore: bool, date: Octets -> Option<int>)
    ensures var hit := BuildHit(MakeEntry(text, hs, digest), remaining, q, private, noStore, date);
            && (hit.status == 200 ==> hit.body == Utf8(text) && Find(hit.headers, LENGTH) == Some(Rates.Decimal(|hit.body|)))
            && (hit.status == 304 ==> hit.body == "" && Find(hit.headers, LENGTH) == None)
  {
    NamesDiffer();
    AlreadyLower();
    StoredIsForeign(hs);
    hide STATUS, ETAG, CONTROL, LENGTH, OWNED, FRAMING, NOT_MODIFIED, Lower, Find, ControlValue, IsNotModified, Utf8,
         Rates.Decimal, Storable;
    var e := MakeEntry(text, hs, digest);
    var control := ControlValue(remaining, private, noStore);
    NoLength(e.headers, HitExtra(e.etag, control));
    NoLengthCut(e.headers, HitExtra(e.etag, control));
    var length := [Header(LENGTH, Rates.Decimal(|Utf8(text)|))];
    FindAppends(HitHeaders(e.headers, e.etag, control, false), length, LENGTH);
    FindIs(length, LENGTH);
  }

  lemma NoLengthCut(stored: seq<Header>, extra: seq<Header>)
    requires IsOwn(extra) && forall i :: 0 <= i < |stored| ==> Lower(stored[i].name) !in OWNED + FRAMING
    ensures Find(Merge(Keep(OnlyNamed(NOT_MODIFIED), stored), extra), LENGTH) == None
  {
    hide STATUS, ETAG, CONTROL, LENGTH, OWNED, FRAMING, NOT_MODIFIED, Lower, Find, Merge;
    var foreign := NotNamed(OWNED + FRAMING);
    KeepHolds(OnlyNamed(NOT_MODIFIED), foreign, stored);
    var some := Keep(OnlyNamed(NOT_MODIFIED), stored);
    assert forall i :: 0 <= i < |some| ==> foreign(some[i]);
    NoLength(some, extra);
  }

  lemma NoLength(base: seq<Header>, extra: seq<Header>)
    requires IsOwn(extra) && forall i :: 0 <= i < |base| ==> Lower(base[i].name) !in OWNED + FRAMING
    ensures Find(Merge(base, extra), LENGTH) == None
  {
    NamesDiffer();
    hide STATUS, ETAG, CONTROL, LENGTH, OWNED, FRAMING, Lower, Find;
    OwnNames(extra);
    KeepAll(NotNamed(OWNED), base);
    FindAppends(base, extra, LENGTH);
    FindsNone(base, LENGTH);
    FindsNone(extra, LENGTH);
  }

  // -- what is never replayed ------------------------------------------------

  // A stored field has no name of those never stored, nor any other, of ASCII
  // characters as a field name is, that is left out.
  predicate Allowed(hs: seq<Header>, name: Octets) { name !in NEVER_STORED && (Ascii(name) ==> name !in Excluded(hs)) }

  // No hit carries a field a cache must not replay: no cookie, no date, nothing
  // of one connection or one proxy, and nothing the miss's Connection named.
  lemma {:induction false} NeverReplayed(hs: seq<Header>, digest: Octets, text: string, remaining: int, q: Conditions,
                                         private: bool, noStore: bool, date: Octets -> Option<int>)
    ensures var hit := BuildHit(MakeEntry(text, hs, digest), remaining, q, private, noStore, date);
            forall i :: 0 <= i < |hit.headers| ==>
              && (Lower(hit.headers[i].name) in OWNED + FRAMING || Allowed(hs, Lower(hit.headers[i].name)))
              && Lower(hit.headers[i].name) !in {"set-cookie", "date", "transfer-encoding", "proxy-authorization"}
  {
    NeverOwnNorAllowed(hs);
    hide STATUS, ETAG, CONTROL, LENGTH, OWNED, FRAMING, NOT_MODIFIED, Lower, ControlValue, IsNotModified, Utf8,
         Rates.Decimal, Allowed, Storable;
    NamesDiffer();
    AlreadyLower();
    var e := MakeEntry(text, hs, digest);
    var extra := HitExtra(e.etag, ControlValue(remaining, private, noStore));
    OwnNames(extra);
    StoredIsAllowed(hs);
    var allowed := (h: Header) => Allowed(hs, Lower(h.name));
    var some := Keep(OnlyNamed(NOT_MODIFIED), e.headers);
    KeepHolds(OnlyNamed(NOT_MODIFIED), allowed, e.headers);
    KeepHolds(NotNamed(NamesOf(extra)), allowed, e.headers);
    KeepHolds(NotNamed(NamesOf(extra)), allowed, some);
  }

  lemma StoredIsAllowed(hs: seq<Header>)
    ensures forall i :: 0 <= i < |Storable(hs)| ==> Allowed(hs, Lower(Storable(hs)[i].name))
  {
    var kept := Keep(NotNamed(Excluded(hs)), hs);
    KeepMeets(NotNamed(Excluded(hs)), hs);
    forall i | 0 <= i < |kept| ensures Allowed(hs, Lower(LowerText(kept[i].name))) { LoweredIsAllowed(hs, kept[i].name); }
  }

  lemma LoweredIsAllowed(hs: seq<Header>, n: Octets)
    requires Lower(n) !in Excluded(hs)
    ensures Allowed(hs, Lower(LowerText(n)))
  {
    var name := Lower(LowerText(n));
    NeverStoredIsAscii(name);
    hide NEVER_STORED, Lower, LowerText, Excluded;
    if Ascii(name) {
      LowerKeepsAscii(LowerText(n));
      LowersAgree(n);
    }
    ExcludedHas(hs, name);
  }

  lemma ExcludedHas(hs: seq<Header>, n: Octets)
    ensures n in NEVER_STORED ==> n in Excluded(hs)
  {
    hide NEVER_STORED;
  }

  lemma NeverStoredIsAscii(n: Octets)
    ensures n in NEVER_STORED ==> Ascii(n)
  {
    if n in OWNED + FRAMING { OwnIsAscii(n); }
    HopsAreAscii(n);
    OthersAreAscii(n);
    hide OWNED, HOP_BY_HOP, PROXY, FRAMING, POLICY, Ascii;
  }

  lemma HopsAreAscii(n: Octets)
    ensures n in HOP_BY_HOP ==> Ascii(n)
  {
  }

  lemma OthersAreAscii(n: Octets)
    ensures n in PROXY + POLICY ==> Ascii(n)
  {
  }

  lemma NeverOwnNorAllowed(hs: seq<Header>)
    ensures forall n :: n in {"set-cookie", "date", "transfer-encoding", "proxy-authorization"} ==> !Allowed(hs, n) && n !in OWNED + FRAMING
  {
    assert |STATUS| == 13 && |ETAG| == 4 && |CONTROL| == 13 && |LENGTH| == 14;
    assert |"set-cookie"| == 10 && |"transfer-encoding"| == 17 && |"proxy-authorization"| == 19 && "date"[0] == 'd';
  }

  // -- what "not modified" carries -------------------------------------------

  // A 304 tells what it must of the response it stands for, as that would have,
  // and nothing else of it.
  lemma {:induction false} NotModifiedCarries(stored: seq<Header>, etag: Octets, control: string)
    ensures forall n :: n in {"vary", "content-location", "expires"} ==>
              FindExactly(HitHeaders(stored, etag, control, true), n) == FindExactly(HitHeaders(stored, etag, control, false), n)
    ensures var hs := HitHeaders(stored, etag, control, true);
            forall i :: 0 <= i < |hs| ==>
              hs[i].name in {"etag", "cache-control", "vary", "content-location", "expires", "x-redis-cache"}
  {
    hide STATUS, ETAG, CONTROL, OWNED, NOT_MODIFIED, Lower, FindExactly;
    var extra := HitExtra(etag, control);
    var some := Keep(OnlyNamed(NOT_MODIFIED), stored);
    MustCarry();
    KeepMeets(OnlyNamed(NOT_MODIFIED), stored);
    KeepHolds(NotNamed(NamesOf(extra)), OnlyNamed(NOT_MODIFIED), some);
    var kept := Keep(NotNamed(NamesOf(extra)), some);
    forall i | 0 <= i < |kept + extra| ensures (kept + extra)[i].name in NOT_MODIFIED + {STATUS, ETAG, CONTROL} {
      if i < |kept| { assert OnlyNamed(NOT_MODIFIED)(kept[i]); }
    }
    forall n | n in {"vary", "content-location", "expires"}
      ensures FindExactly(HitHeaders(stored, etag, control, true), n) == FindExactly(HitHeaders(stored, etag, control, false), n)
    {
      FindExactlyAppends(Keep(NotNamed(NamesOf(extra)), some), extra, n);
      FindExactlyAppends(Keep(NotNamed(NamesOf(extra)), stored), extra, n);
      FindExactlyCut(stored, NamesOf(extra), n);
    }
  }

  lemma MustCarry()
    ensures forall n :: n in {"vary", "content-location", "expires"} ==> n in NOT_MODIFIED
    ensures forall n :: n in NOT_MODIFIED + {STATUS, ETAG, CONTROL} ==> n in {"etag", "cache-control", "vary", "content-location", "expires", "x-redis-cache"}
  {
  }

  lemma {:induction false} FindExactlyAppends(a: seq<Header>, b: seq<Header>, name: Octets)
    ensures FindExactly(a + b, name) == if FindExactly(a, name).Some? then FindExactly(a, name) else FindExactly(b, name)
  {
    if a == [] {
      assert a + b == b;
    } else {
      assert (a + b)[1..] == a[1..] + b;
      FindExactlyAppends(a[1..], b, name);
    }
  }

  lemma {:induction false} FindExactlyCut(stored: seq<Header>, names: set<Octets>, name: Octets)
    requires name in NOT_MODIFIED
    ensures FindExactly(Keep(NotNamed(names), Keep(OnlyNamed(NOT_MODIFIED), stored)), name) == FindExactly(Keep(NotNamed(names), stored), name)
  {
    hide NOT_MODIFIED, Lower;
    if stored == [] {
    } else {
      FindExactlyCut(stored[1..], names, name);
      var h, cut := stored[0], Keep(OnlyNamed(NOT_MODIFIED), stored[1..]);
      KeepIs(OnlyNamed(NOT_MODIFIED), stored);
      KeepIs(NotNamed(names), stored);
      KeepIs(NotNamed(names), [h] + cut);
      assert ([h] + cut)[1..] == cut && [] + cut == cut;
      hide Keep;
      FindExactlyAppends([h], Keep(NotNamed(names), cut), name);
      FindExactlyAppends([h], Keep(NotNamed(names), stored[1..]), name);
      assert [] + Keep(NotNamed(names), cut) == Keep(NotNamed(names), cut);
      assert [] + Keep(NotNamed(names), stored[1..]) == Keep(NotNamed(names), stored[1..]);
      assert FindExactly([h], name) == if h.name == name then Some(h.value) else None;
    }
  }

  // -- how long a response may be kept ---------------------------------------

  // The directives of a Cache-Control value.
  function Directives(control: string): set<Octets> { TokenSet(Split(control, ',')) }

  // A directive as it is written here: lower-case letters, digits and signs.
  predicate Plain(d: string) { d != "" && forall i :: 0 <= i < |d| ==> !Blank(d[i]) && d[i] != ',' && !('A' <= d[i] <= 'Z') }

  lemma PlainIsRead(d: string)
    requires Plain(d)
    ensures Lower(Strip(d)) == d && Lower(Strip([' '] + d)) == d && Strip(d) != "" && Strip([' '] + d) != ""
  {
    assert ([' '] + d)[1..] == d;
    assert Strip(d) == d && Strip([' '] + d) == d;
    assert Lower(d) == d;
  }

  lemma TokensOfOne(d: string)
    requires Strip(d) != ""
    ensures TokenSet([d]) == {Lower(Strip(d))}
  {
    assert [d][1..] == [];
    assert TokenSet([]) == {};
  }

  lemma TokensOfTwo(d: string, e: string)
    requires Strip(d) != "" && Strip(e) != ""
    ensures TokenSet([d, e]) == {Lower(Strip(d)), Lower(Strip(e))}
  {
    TokensOfOne(e);
    assert [d, e][1..] == [e];
  }

  lemma OneDirective(d: string)
    requires Plain(d)
    ensures Directives(d) == {d}
  {
    hide Strip, Lower, Split, TokenSet;
    SplitFirst(d, "", ',');
    PlainIsRead(d);
    TokensOfOne(d);
  }

  lemma TwoDirectives(d: string, e: string)
    requires Plain(d) && Plain(e)
    ensures Directives(d + [','] + ([' '] + e)) == {d, e}
  {
    hide Strip, Lower, Split, TokenSet;
    SplitFirst(d, [' '] + e, ',');
    SplitFirst([' '] + e, "", ',');
    PlainIsRead(d);
    PlainIsRead(e);
    TokensOfTwo(d, [' '] + e);
    assert [d] + [[' '] + e] == [d, [' '] + e];
  }

  // The value forbids storing exactly when it should, is private exactly when
  // it should, and gives the time that is left as the age limit, or none at all
  // when no time is left.
  lemma {:induction false} ControlSays(maxAge: int, private: bool, noStore: bool, n: nat)
    ensures var ds := Directives(ControlValue(maxAge, private, noStore));
            && ("no-store" in ds <==> noStore)
            && ("private" in ds <==> private && !noStore)
            && ("no-cache" in ds <==> maxAge <= 0 && !noStore)
            && (AgeLimit(n) in ds <==> n > 0 && n == maxAge && !noStore)
  {
    hide Directives, Rates.Decimal;
    var base := if maxAge <= 0 then "no-cache" else AgeLimit(maxAge);
    WordsArePlain();
    AgeLimitIsPlain(n);
    if maxAge > 0 { AgeLimitIsPlain(maxAge); AgeLimitsDiffer(maxAge, n); }
    OneDirective("no-store");
    OneDirective(base);
    TwoDirectives("private", base);
    assert "private, " + base == "private" + [','] + ([' '] + base);
  }

  function AgeLimit(n: nat): string { "max-age=" + Rates.Decimal(n) }

  lemma WordsArePlain()
    ensures Plain("no-store") && Plain("no-cache") && Plain("private")
    ensures "no-store" != "no-cache" && "private" != "no-cache" && "private" != "no-store"
  {
    assert "no-store"[3] == 's' && "no-cache"[3] == 'c' && "private"[0] == 'p';
  }

  lemma AgeLimitIsPlain(n: nat)
    ensures Plain(AgeLimit(n)) && AgeLimit(n)[0] == 'm'
  {
    Rates.DecimalReadsBack(n);
    var d := Rates.Decimal(n);
    assert forall i :: 0 <= i < |d| ==> Rates.Class.Digit.Has(d[i]);
  }

  lemma AgeLimitsDiffer(a: nat, b: nat)
    ensures AgeLimit(a) == AgeLimit(b) <==> a == b
  {
    Rates.DecimalReadsBack(a);
    Rates.DecimalReadsBack(b);
    assert AgeLimit(a)[8..] == Rates.Decimal(a) && AgeLimit(b)[8..] == Rates.Decimal(b);
  }
}
