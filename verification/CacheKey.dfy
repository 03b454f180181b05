// The cache key of a request: percent-encoded path segments and query items,
// behind a prefix and an eviction group.
module CacheKey {
  import opened Texts

  // -- percent-encoding ------------------------------------------------------

  // Letters, digits and the four marks of section 2.3 of RFC 3986.
  predicate Unreserved(c: char) {
    'A' <= c <= 'Z' || 'a' <= c <= 'z' || '0' <= c <= '9' || c == '_' || c == '.' || c == '-' || c == '~'
  }

  function HexDigit(n: nat): (c: char)
    requires n < 16
    ensures '0' <= c <= '9' || 'A' <= c <= 'F'
  {
    if n < 10 then '0' + n as char else 'A' + (n - 10) as char
  }

  function EscapeByte(b: char, plus: bool): string
    requires b as int < 0x100
  {
    if Unreserved(b) then [b]
    else if plus && b == ' ' then ['+']
    else ['%', HexDigit(b as int / 16), HexDigit(b as int % 16)]
  }

  function Escape(bytes: string, plus: bool): string
    requires Bytes(bytes)
  {
    if bytes == "" then "" else EscapeByte(bytes[0], plus) + Escape(bytes[1..], plus)
  }

  // quote(s, safe="") and quote_plus(s)
  function Quote(s: string): string { Escape(Utf8(s), false) }

  function QuotePlus(s: string): string { Escape(Utf8(s), true) }

  // None of the characters a key is put together with.
  predicate Inert(s: string) { forall i :: 0 <= i < |s| ==> Unreserved(s[i]) || s[i] == '%' || s[i] == '+' }

  lemma {:induction false} EscapeIsInert(bytes: string, plus: bool)
    requires Bytes(bytes)
    ensures Inert(Escape(bytes, plus))
  {
    if bytes == "" {
    } else {
      EscapeIsInert(bytes[1..], plus);
    }
  }

  // Section 2.1 of RFC 3986: a percent sign and two hexadecimal digits.
  function HexValue(c: char): nat {
    if '0' <= c <= '9' then c as nat - '0' as nat
    else if 'A' <= c <= 'F' then c as nat - 'A' as nat + 10
    else if 'a' <= c <= 'f' then c as nat - 'a' as nat + 10
    else 0
  }

  // unquote, and unquote_plus
  function Unescape(s: string, plus: bool): string {
    if s == "" then ""
    else if s[0] == '%' && |s| >= 3 then [(16 * HexValue(s[1]) + HexValue(s[2])) as char] + Unescape(s[3..], plus)
    else [if plus && s[0] == '+' then ' ' else s[0]] + Unescape(s[1..], plus)
  }

  lemma HexPair(n: nat)
    requires n < 0x100
    ensures HexValue(HexDigit(n / 16)) == n / 16 && HexValue(HexDigit(n % 16)) == n % 16
    ensures 16 * HexValue(HexDigit(n / 16)) + HexValue(HexDigit(n % 16)) == n
  {
  }

  lemma UnescapePercent(a: char, b: char, plus: bool, rest: string)
    ensures Unescape(['%', a, b] + rest, plus) == [(16 * HexValue(a) + HexValue(b)) as char] + Unescape(rest, plus)
  {
    assert (['%', a, b] + rest)[3..] == rest;
  }

  lemma UnescapePlain(a: char, plus: bool, rest: string)
    requires a != '%'
    ensures Unescape([a] + rest, plus) == [if plus && a == '+' then ' ' else a] + Unescape(rest, plus)
  {
    assert ([a] + rest)[1..] == rest;
  }

  lemma UnescapeByte(b: char, plus: bool, rest: string)
    requires b as int < 0x100
    ensures Unescape(EscapeByte(b, plus) + rest, plus) == [b] + Unescape(rest, plus)
  {
    hide Unescape, HexValue, HexDigit;
    if Unreserved(b) {
      UnescapePlain(b, plus, rest);
    } else if plus && b == ' ' {
      UnescapePlain('+', plus, rest);
    } else {
      HexPair(b as int);
      UnescapePercent(HexDigit(b as int / 16), HexDigit(b as int % 16), plus, rest);
    }
  }

  // Decoding gives the bytes back.
  lemma {:induction false} UnescapeEscape(bytes: string, plus: bool)
    requires Bytes(bytes)
    ensures Unescape(Escape(bytes, plus), plus) == bytes
  {
    if bytes == "" {
    } else {
      UnescapeEscape(bytes[1..], plus);
      UnescapeByte(bytes[0], plus, Escape(bytes[1..], plus));
      assert bytes == [bytes[0]] + bytes[1..];
    }
  }

  // Letters, digits and the four marks stay as they are, and in a query a blank
  // becomes a plus; every other byte takes a percent sign and two digits.
  lemma {:induction false} PlainIsKept(s: string)
    requires forall i :: 0 <= i < |s| ==> 'A' <= s[i] <= 'Z' || 'a' <= s[i] <= 'z' || '0' <= s[i] <= '9' || s[i] in "_.-~"
    ensures Quote(s) == s && QuotePlus(s) == s
  {
    if s == "" {
    } else {
      PlainIsKept(s[1..]);
      assert s == [s[0]] + s[1..];
      QuoteOne(s[0], s[1..]);
    }
  }

  lemma QuoteOne(c: char, rest: string)
    requires c as int < 0x80
    ensures Quote([c] + rest) == EscapeByte(c, false) + Quote(rest) && QuotePlus([c] + rest) == EscapeByte(c, true) + QuotePlus(rest)
  {
    assert ([c] + rest)[1..] == rest;
    assert ([c] + Utf8(rest))[1..] == Utf8(rest);
  }

  lemma OthersAreEscaped(b: char)
    requires b as int < 0x100 && !('A' <= b <= 'Z' || 'a' <= b <= 'z' || '0' <= b <= '9' || b in "_.-~")
    ensures |EscapeByte(b, false)| == 3 && EscapeByte(b, false)[0] == '%'
    ensures b != ' ' ==> EscapeByte(b, true) == EscapeByte(b, false)
    ensures EscapeByte(' ', true) == "+"
  {
  }

  // Percent-encoding loses nothing.
  lemma QuoteIsInjective(a: string, b: string)
    requires Quote(a) == Quote(b) || QuotePlus(a) == QuotePlus(b)
    ensures a == b
  {
    UnescapeEscape(Utf8(a), false);
    UnescapeEscape(Utf8(b), false);
    UnescapeEscape(Utf8(a), true);
    UnescapeEscape(Utf8(b), true);
    Utf8IsInjective(a, b);
  }

  // -- the path --------------------------------------------------------------

  // str.strip("/")
  function StripSlashes(path: string): string { Trim(path, c => c == '/') }

  function Segments(path: string): (parts: seq<string>)
    ensures |parts| >= 1
  {
    Split(StripSlashes(path), '/')
  }

  // The segments are the path between its outer slashes, in one piece each.
  lemma SegmentsAre(path: string) returns (i: nat, j: nat)
    ensures i <= j <= |path| && Join(Segments(path), '/') == path[i..j] && Free(Segments(path), '/')
    ensures forall k :: 0 <= k < i || j <= k < |path| ==> path[k] == '/'
    ensures i < j ==> path[i] != '/' && path[j - 1] != '/'
  {
    i, j := TrimIs(path, c => c == '/');
    JoinSplit(StripSlashes(path), '/');
  }

  function QuoteAll(parts: seq<string>): (r: seq<string>)
    ensures |r| == |parts| && forall i :: 0 <= i < |parts| ==> r[i] == Quote(parts[i])
  {
    seq(|parts|, i requires 0 <= i < |parts| => Quote(parts[i]))
  }

  function PathText(path: string): string { Join(QuoteAll(Segments(path)), ':') }

  // -- the query -------------------------------------------------------------

  datatype Item = Item(name: string, value: string)

  // The order of texts, character by character.
  predicate Before(a: string, b: string) {
    b != "" && (a == "" || a[0] < b[0] || (a[0] == b[0] && Before(a[1..], b[1..])))
  }

  // One text is before another exactly when it is a proper front of it, or has
  // the smaller character where they first differ.
  ghost predicate FirstDiffers(a: string, b: string, k: nat) {
    k <= |a| && k < |b| && a[..k] == b[..k] && (k == |a| || a[k] < b[k])
  }

  lemma {:induction false} BeforeIs(a: string, b: string)
    ensures Before(a, b) <==> exists k :: 0 <= k && FirstDiffers(a, b, k)
  {
    if a != "" && b != "" {
      BeforeIs(a[1..], b[1..]);
      if k :| 0 <= k && FirstDiffers(a[1..], b[1..], k) {
        if a[0] == b[0] {
          assert a[..k + 1] == [a[0]] + a[1..][..k] && b[..k + 1] == [b[0]] + b[1..][..k];
          assert FirstDiffers(a, b, k + 1);
        }
      }
      if a[0] < b[0] { assert FirstDiffers(a, b, 0); }
      if k :| 0 <= k && FirstDiffers(a, b, k) {
        if k > 0 {
          assert a[0] == a[..k][0] == b[..k][0] == b[0];
          assert a[1..][..k - 1] == a[..k][1..] && b[1..][..k - 1] == b[..k][1..];
          assert FirstDiffers(a[1..], b[1..], k - 1);
        }
      }
    } else if b != "" {
      assert FirstDiffers(a, b, 0);
    }
  }

  // In front of the items whose name is not before its own.
  function Insert(x: Item, items: seq<Item>): seq<Item> {
    if items != [] && Before(items[0].name, x.name) then [items[0]] + Insert(x, items[1..]) else [x] + items
  }

  // sorted(items, key=name), which is stable
  function SortByName(items: seq<Item>): seq<Item> {
    if items == [] then [] else Insert(items[0], SortByName(items[1..]))
  }

  function Pair(x: Item): string { QuotePlus(x.name) + ['='] + QuotePlus(x.value) }

  function Pairs(items: seq<Item>): (r: seq<string>)
    ensures |r| == |items| && forall i :: 0 <= i < |items| ==> r[i] == Pair(items[i])
  {
    seq(|items|, i requires 0 <= i < |items| => Pair(items[i]))
  }

  function QueryText(items: seq<Item>): string { Join(Pairs(SortByName(items)), '&') }

  // -- the key ---------------------------------------------------------------

  // The group in its hash-tag braces; no group, no braces.
  function OfGroup(group: string): string { if group == "" then "" else ['{'] + group + ['}'] }

  // A part that is left out when it is empty.
  function IfAny(s: string): seq<string> { if s == "" then [] else [s] }

  function DefaultKey(prefix: string, group: string, path: string, items: seq<Item>): string {
    Join(IfAny(prefix)
         + IfAny(OfGroup(group))
         + IfAny(PathText(path))
         + (if items == [] then [] else [QueryText(items)]), ':')
  }

  // -- what sorting keeps ----------------------------------------------------

  // The values given under one name, in order.
  function ValuesOf(items: seq<Item>, name: string): seq<string> {
    if items == [] then []
    else (if items[0].name == name then [items[0].value] else []) + ValuesOf(items[1..], name)
  }

  predicate Sorted(items: seq<Item>) { forall i, j :: 0 <= i < j < |items| ==> !Before(items[j].name, items[i].name) }

  lemma {:induction false} BeforeIsAnOrder(a: string, b: string)
    ensures !(Before(a, b) && Before(b, a)) && (Before(a, b) || Before(b, a) || a == b) && !Before(a, a)
  {
    if a != "" && b != "" {
      BeforeIsAnOrder(a[1..], b[1..]);
      BeforeIsAnOrder(a[1..], a[1..]);
      assert a == [a[0]] + a[1..] && b == [b[0]] + b[1..];
    } else if a != "" {
      BeforeIsAnOrder(a[1..], a[1..]);
    }
  }

  lemma {:induction false} BeforeIsTransitive(a: string, b: string, c: string)
    requires !Before(b, a) && !Before(c, b)
    ensures !Before(c, a)
  {
    if a != "" && b != "" && c != "" && a[0] == b[0] == c[0] { BeforeIsTransitive(a[1..], b[1..], c[1..]); }
  }

  lemma {:induction false} InsertKeeps(x: Item, items: seq<Item>, name: string)
    ensures ValuesOf(Insert(x, items), name) == ValuesOf([x] + items, name)
  {
    assert ([x] + items)[1..] == items;
    if items != [] && Before(items[0].name, x.name) {
      BeforeIsAnOrder(items[0].name, x.name);
      InsertKeeps(x, items[1..], name);
      assert ([x] + items[1..])[1..] == items[1..];
      assert Insert(x, items)[1..] == Insert(x, items[1..]);
    }
  }

  lemma {:induction false} InsertSorts(x: Item, items: seq<Item>)
    requires Sorted(items)
    ensures Sorted(Insert(x, items)) && |Insert(x, items)| == |items| + 1
    ensures forall i :: 0 <= i < |Insert(x, items)| ==> Insert(x, items)[i] == x || Insert(x, items)[i] in items
  {
    if items != [] && Before(items[0].name, x.name) {
      BeforeIsAnOrder(items[0].name, x.name);
      InsertSorts(x, items[1..]);
      var rest := Insert(x, items[1..]);
      forall j | 0 <= j < |rest| ensures !Before(rest[j].name, items[0].name) && rest[j] in [x] + items {
        if rest[j] != x {
          var k :| 0 <= k < |items[1..]| && items[1..][k] == rest[j];
          assert items[k + 1] == rest[j];
        }
      }
    } else if items != [] {
      forall j | 0 <= j < |items| ensures !Before(items[j].name, x.name) {
        if j > 0 { BeforeIsTransitive(x.name, items[0].name, items[j].name); }
      }
    }
  }

  lemma {:induction false} SortIsStable(items: seq<Item>, name: string)
    ensures ValuesOf(SortByName(items), name) == ValuesOf(items, name)
    ensures Sorted(SortByName(items)) && |SortByName(items)| == |items|
  {
    if items == [] {
    } else {
      SortIsStable(items[1..], name);
      var rest := SortByName(items[1..]);
      InsertKeeps(items[0], rest, name);
      InsertSorts(items[0], rest);
      assert ([items[0]] + rest)[1..] == rest;
    }
  }

  lemma {:induction false} NoValues(items: seq<Item>, name: string)
    requires forall i :: 0 <= i < |items| ==> items[i].name != name
    ensures ValuesOf(items, name) == []
  {
    if items == [] {
    } else {
      NoValues(items[1..], name);
    }
  }

  // The first of a sorted list decides.
  lemma HeadIsLeast(items: seq<Item>, name: string)
    requires Sorted(items) && items != [] && Before(name, items[0].name)
    ensures ValuesOf(items, name) == []
  {
    BeforeIsAnOrder(name, items[0].name);
    NoValues(items, name);
  }

  lemma {:induction false} SortedIsDetermined(a: seq<Item>, b: seq<Item>)
    requires Sorted(a) && Sorted(b) && forall n :: ValuesOf(a, n) == ValuesOf(b, n)
    ensures a == b
  {
    if a == [] || b == [] {
      assert a != [] ==> ValuesOf(a, a[0].name) == ValuesOf(b, a[0].name);
      assert b != [] ==> ValuesOf(a, b[0].name) == ValuesOf(b, b[0].name);
    } else {
      var n, m := a[0].name, b[0].name;
      assert ValuesOf(a, n) == ValuesOf(b, n) && ValuesOf(a, m) == ValuesOf(b, m);
      BeforeIsAnOrder(n, m);
      if Before(n, m) { HeadIsLeast(b, n); }
      if Before(m, n) { HeadIsLeast(a, m); }
      assert n == m;
      assert ValuesOf(a, n)[0] == a[0].value && ValuesOf(b, n)[0] == b[0].value;
      forall k ensures ValuesOf(a[1..], k) == ValuesOf(b[1..], k) {
        assert ValuesOf(a, k) == ValuesOf(b, k);
        if k == n { assert ValuesOf(a, k)[1..] == ValuesOf(a[1..], k) && ValuesOf(b, k)[1..] == ValuesOf(b[1..], k); }
        else { assert ValuesOf(a, k) == ValuesOf(a[1..], k) && ValuesOf(b, k) == ValuesOf(b[1..], k); }
      }
      SortedIsDetermined(a[1..], b[1..]);
      assert a == [a[0]] + a[1..] && b == [b[0]] + b[1..];
    }
  }

  // Each name has the same values, in the same order.
  ghost predicate SameValues(a: seq<Item>, b: seq<Item>) { forall n :: ValuesOf(a, n) == ValuesOf(b, n) }

  // Sorting by name forgets the order of the names, and nothing else.
  lemma SameWhenSorted(a: seq<Item>, b: seq<Item>)
    ensures SortByName(a) == SortByName(b) <==> SameValues(a, b)
  {
    hide ValuesOf, SortByName, Sorted;
    SortIsStable(a, "");
    SortIsStable(b, "");
    if SortByName(a) == SortByName(b) {
      forall n ensures ValuesOf(a, n) == ValuesOf(b, n) {
        SortIsStable(a, n);
        SortIsStable(b, n);
      }
    }
    if SameValues(a, b) {
      forall n ensures ValuesOf(SortByName(a), n) == ValuesOf(SortByName(b), n) {
        SortIsStable(a, n);
        SortIsStable(b, n);
        assert ValuesOf(a, n) == ValuesOf(b, n);
      }
      SortedIsDetermined(SortByName(a), SortByName(b));
    }
  }

  // -- taking a key apart ----------------------------------------------------

  lemma QuotesAreInert(s: string)
    ensures Inert(Quote(s)) && Inert(QuotePlus(s))
    ensures forall c :: c in Quote(s) || c in QuotePlus(s) ==> c !in ":=&/{}"
  {
    EscapeIsInert(Utf8(s), false);
    EscapeIsInert(Utf8(s), true);
  }

  lemma PairDecodes(x: Item, y: Item)
    requires Pair(x) == Pair(y)
    ensures x == y
  {
    PairSplits(x);
    PairSplits(y);
    assert Split(Pair(x), '=')[0] == Split(Pair(y), '=')[0] && Split(Pair(x), '=')[1] == Split(Pair(y), '=')[1];
    QuoteIsInjective(x.name, y.name);
    QuoteIsInjective(x.value, y.value);
  }

  lemma PairSplits(x: Item)
    ensures Split(Pair(x), '=') == [QuotePlus(x.name), QuotePlus(x.value)]
  {
    hide QuotePlus, Inert;
    QuotesAreInert(x.name);
    QuotesAreInert(x.value);
    SplitFirst(QuotePlus(x.name), QuotePlus(x.value), '=');
    SplitFirst(QuotePlus(x.value), "", '=');
  }

  lemma {:induction false} QueryChars(items: seq<Item>)
    ensures Free(Pairs(items), '&') && Free(Pairs(items), ':') && Free(Pairs(items), '{') && Free(Pairs(items), '}')
    ensures forall c :: c in Join(Pairs(items), '&') ==> c != ':' && c != '{' && c != '}'
  {
    var pairs := Pairs(items);
    forall i | 0 <= i < |pairs| ensures '&' !in pairs[i] && ':' !in pairs[i] && '{' !in pairs[i] && '}' !in pairs[i] {
      QuotesAreInert(items[i].name);
      QuotesAreInert(items[i].value);
    }
    forall c | c in Join(pairs, '&') ensures c != ':' && c != '{' && c != '}' { JoinedChars(pairs, '&', c); }
  }

  lemma {:induction false} QueryDecodes(a: seq<Item>, b: seq<Item>)
    requires a != [] && b != [] && QueryText(a) == QueryText(b)
    ensures SortByName(a) == SortByName(b)
  {
    var s, t := SortByName(a), SortByName(b);
    SortIsStable(a, "");
    SortIsStable(b, "");
    QueryChars(s);
    QueryChars(t);
    SplitJoin(Pairs(s), '&');
    SplitJoin(Pairs(t), '&');
    forall i | 0 <= i < |s| && i < |t| ensures s[i] == t[i] {
      assert Pairs(s)[i] == Pairs(t)[i];
      PairDecodes(s[i], t[i]);
    }
    assert |s| == |Pairs(s)| && |t| == |Pairs(t)|;
  }

  function TailParts(path: string, items: seq<Item>): seq<string> {
    IfAny(PathText(path)) + (if items == [] then [] else [QueryText(items)])
  }

  function Tail(path: string, items: seq<Item>): string {
    Join(TailParts(path, items), ':')
  }

  lemma PathChars(path: string)
    ensures Free(QuoteAll(Segments(path)), ':')
    ensures forall c :: c in PathText(path) ==> c != '=' && c != '{' && c != '}'
    ensures PathText(path) == "" <==> Segments(path) == [""]
  {
    var parts := QuoteAll(Segments(path));
    forall i | 0 <= i < |parts| ensures forall c :: c in parts[i] ==> c !in ":=&/{}" { QuotesAreInert(Segments(path)[i]); }
    forall c | c in PathText(path) ensures c != '=' && c != '{' && c != '}' { JoinedChars(parts, ':', c); }
    if PathText(path) == "" { assert |parts| == 1 && parts[0] == Quote(""); QuoteIsInjective(Segments(path)[0], ""); }
  }

  // What follows the group: its pieces, and whether there is a query.
  lemma {:induction false} TailPieces(path: string, items: seq<Item>)
    ensures var pieces := Split(Tail(path, items), ':');
            && (items == [] ==> pieces == QuoteAll(Segments(path)))
            && (items != [] ==> pieces == (if PathText(path) == "" then [] else QuoteAll(Segments(path))) + [QueryText(items)])
    ensures '=' in Tail(path, items) <==> items != []
    ensures forall c :: c in Tail(path, items) ==> c != '{' && c != '}'
    ensures Tail(path, items) == "" <==> PathText(path) == "" && items == []
  {
    hide QueryText, Quote, Segments;
    var parts := QuoteAll(Segments(path));
    PathChars(path);
    if items == [] {
      SplitJoin(parts, ':');
    } else {
      QueryIsThere(items);
      var query := QueryText(items);
      if PathText(path) == "" {
        SplitFirst(query, "", ':');
        assert [] + [query] == [query];
      } else {
        assert IfAny(PathText(path)) + [query] == [PathText(path), query];
        assert [PathText(path), query][1..] == [query];
        JoinAppends(parts, [query], ':');
        SplitJoin(parts + [query], ':');
      }
    }
  }

  lemma QueryIsThere(items: seq<Item>)
    requires items != []
    ensures '=' in QueryText(items) && ':' !in QueryText(items) && forall c :: c in QueryText(items) ==> c != '{' && c != '}'
  {
    SortIsStable(items, "");
    var s := SortByName(items);
    QueryChars(s);
    assert Pairs(s)[0][|QuotePlus(s[0].name)|] == '=';
    assert '=' in Pairs(s)[0];
  }

  lemma {:induction false} TailDecodes(path: string, items: seq<Item>, path': string, items': seq<Item>)
    requires Tail(path, items) == Tail(path', items')
    ensures Segments(path) == Segments(path') && SortByName(items) == SortByName(items')
  {
    hide Tail, Segments, Quote;
    TailPieces(path, items);
    TailPieces(path', items');
    PathChars(path);
    PathChars(path');
    var a, b := QuoteAll(Segments(path)), QuoteAll(Segments(path'));
    if items != [] {
      var pieces := Split(Tail(path, items), ':');
      assert pieces[|pieces| - 1] == QueryText(items) && pieces[|pieces| - 1] == QueryText(items');
      QueryDecodes(items, items');
      assert pieces[..|pieces| - 1] == (if PathText(path) == "" then [] else a);
      assert pieces[..|pieces| - 1] == (if PathText(path') == "" then [] else b);
    }
    if PathText(path) != "" || items == [] {
      assert a == b;
      forall i | 0 <= i < |Segments(path)| ensures Segments(path)[i] == Segments(path')[i] {
        assert a[i] == b[i];
        QuoteIsInjective(Segments(path)[i], Segments(path')[i]);
      }
    }
  }

  // Two texts with a separator between them, if there are two.
  function Link(first: string, rest: string): string {
    if first == "" then rest else if rest == "" then first else first + [':'] + rest
  }

  lemma JoinOptional(first: string, parts: seq<string>)
    requires parts == [] <==> Join(parts, ':') == ""
    ensures Join(IfAny(first) + parts, ':') == Link(first, Join(parts, ':'))
    ensures IfAny(first) + parts == [] <==> Link(first, Join(parts, ':')) == ""
  {
    if first == "" {
      assert [] + parts == parts;
    } else if parts == [] {
      assert [first] + parts == [first];
    } else {
      JoinAppends([first], parts, ':');
    }
  }

  lemma JoinOne(s: string)
    ensures Join([s], ':') == s
  {
  }

  function Rest(group: string, path: string, items: seq<Item>): string { Link(OfGroup(group), Tail(path, items)) }

  // The key is the prefix, and the rest after it.
  lemma KeyIsPrefixAndRest(prefix: string, group: string, path: string, items: seq<Item>)
    ensures DefaultKey(prefix, group, path, items) == Link(prefix, Rest(group, path, items))
  {
    hide PathText, QueryText, OfGroup, Join, Link;
    var t := TailParts(path, items);
    TailIsJoined(path, items);
    JoinOptional(OfGroup(group), t);
    JoinOptional(prefix, IfAny(OfGroup(group)) + t);
    assert IfAny(prefix) + IfAny(OfGroup(group)) + IfAny(PathText(path)) + (if items == [] then [] else [QueryText(items)])
           == IfAny(prefix) + (IfAny(OfGroup(group)) + t);
  }

  lemma TailIsJoined(path: string, items: seq<Item>)
    ensures Tail(path, items) == Join(TailParts(path, items), ':')
    ensures TailParts(path, items) == [] <==> Tail(path, items) == ""
  {
    hide PathText, QueryText;
    TailPieces(path, items);
  }

  // A group ends at the last brace, whatever it is called.
  lemma {:induction false} LastBrace(a: string, x: string, b: string, y: string)
    requires a + ['}'] + x == b + ['}'] + y && '}' !in x && '}' !in y
    ensures a == b && x == y
  {
    var s := a + ['}'] + x;
    assert s[|a|] == '}' && s[|b|] == '}';
    assert forall i :: |a| < i < |s| ==> s[i] == x[i - |a| - 1];
    assert forall i :: |b| < i < |s| ==> s[i] == y[i - |b| - 1];
    assert |a| == |b|;
    assert a == s[..|a|] && b == s[..|b|];
    assert x == s[|a| + 1..] && y == s[|b| + 1..];
  }

  function After(tail: string): string { if tail == "" then "" else [':'] + tail }

  lemma LinkIs(group: string, tail: string)
    requires group != ""
    ensures Link(OfGroup(group), tail) == (['{'] + group) + ['}'] + After(tail)
  {
    assert ['{'] + group + ['}'] + "" == ['{'] + group + ['}'];
  }

  lemma AfterIsPlain(tail: string)
    requires '}' !in tail
    ensures '}' !in After(tail)
  {
  }

  // A brace tells a grouped key from one without a group.
  lemma GroupedShape(group: string, tail: string)
    requires '{' !in tail && '}' !in tail
    ensures '{' in Link(OfGroup(group), tail) <==> group != ""
    ensures group != "" ==> Link(OfGroup(group), tail) == (['{'] + group) + ['}'] + After(tail)
    ensures '}' !in After(tail)
  {
    AfterIsPlain(tail);
    if group == "" {
      assert Link(OfGroup(group), tail) == tail;
    } else {
      LinkIs(group, tail);
      hide Link, OfGroup, After;
      assert Link(OfGroup(group), tail)[0] == '{';
    }
  }

  lemma GroupedDecodes(group: string, tail: string, group': string, tail': string)
    requires '{' !in tail && '}' !in tail && '{' !in tail' && '}' !in tail'
    requires Link(OfGroup(group), tail) == Link(OfGroup(group'), tail')
    ensures group == group' && tail == tail'
  {
    GroupedShape(group, tail);
    GroupedShape(group', tail');
    if group != "" {
      hide Link, OfGroup;
      LastBrace(['{'] + group, After(tail), ['{'] + group', After(tail'));
      assert (['{'] + group)[1..] == group && (['{'] + group')[1..] == group';
      assert tail != "" ==> After(tail)[1..] == tail;
      assert tail' != "" ==> After(tail')[1..] == tail';
    }
  }

  lemma RestDecodes(group: string, path: string, items: seq<Item>, group': string, path': string, items': seq<Item>)
    requires Rest(group, path, items) == Rest(group', path', items')
    ensures group == group' && Tail(path, items) == Tail(path', items')
  {
    hide Tail, Link, OfGroup;
    TailPieces(path, items);
    TailPieces(path', items');
    GroupedDecodes(group, Tail(path, items), group', Tail(path', items'));
  }

  // Under one prefix, two requests share a key exactly when they have the same
  // eviction group, the same path segments once outer slashes are dropped, and
  // under every name the same values in the same order.
  lemma KeysAgreeExactly(prefix: string, group: string, path: string, items: seq<Item>,
                         group': string, path': string, items': seq<Item>)
    ensures DefaultKey(prefix, group, path, items) == DefaultKey(prefix, group', path', items')
            <==> group == group' && Segments(path) == Segments(path') && SameValues(items, items')
  {
    hide Segments, SortByName, SameValues, QuoteAll, Rest;
    SameWhenSorted(items, items');
    SortIsStable(items, "");
    SortIsStable(items', "");
    KeyIsPrefixAndRest(prefix, group, path, items);
    KeyIsPrefixAndRest(prefix, group', path', items');
    if DefaultKey(prefix, group, path, items) == DefaultKey(prefix, group', path', items') {
      var r, r' := Rest(group, path, items), Rest(group', path', items');
      if prefix != "" && r != "" && r' != "" { assert (prefix + [':'] + r)[|prefix| + 1..] == r && (prefix + [':'] + r')[|prefix| + 1..] == r'; }
      assert r == r';
      RestDecodes(group, path, items, group', path', items');
      TailDecodes(path, items, path', items');
    }
  }
}
