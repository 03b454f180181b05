// Clearing one eviction group: a glob pattern that selects its keys and no
// others, and two ways of deleting what it selects.
module EvictionGroup {
  import opened Texts
  import opened CacheKey

  // -- Redis glob matching ---------------------------------------------------

  // What a character class, read from position i of the pattern, says of c,
  // and where the class ends.  `\` quotes, `a-z` is a range either way round,
  // and a class that is never closed ends with the pattern.
  function InClass(p: string, i: nat, c: char): (r: (bool, nat))
    requires i <= |p|
    ensures i <= r.1 <= |p|
    decreases |p| - i
  {
    if i == |p| then (false, i)
    else if p[i] == '\\' && i + 1 < |p| then Or(p[i + 1] == c, InClass(p, i + 2, c))
    else if p[i] == ']' then (false, i + 1)
    else if i + 2 < |p| && p[i + 1] == '-' then Or(p[i] <= c <= p[i + 2] || p[i + 2] <= c <= p[i], InClass(p, i + 3, c))
    else Or(p[i] == c, InClass(p, i + 1, c))
  }

  function Or(b: bool, r: (bool, nat)): (bool, nat) { (b || r.0, r.1) }

  predicate Matches(p: string, s: string)
    decreases |p| + |s|
  {
    if p == "" then s == ""
    else if p[0] == '*' then Matches(p[1..], s) || (s != "" && Matches(p, s[1..]))
    else if s == "" then false
    else if p[0] == '?' then Matches(p[1..], s[1..])
    else if p[0] == '[' then
      var negated := |p| > 1 && p[1] == '^';
      var read := InClass(p, if negated then 2 else 1, s[0]);
      read.0 != negated && Matches(p[read.1..], s[1..])
    else if p[0] == '\\' && |p| > 1 then p[1] == s[0] && Matches(p[2..], s[1..])
    else p[0] == s[0] && Matches(p[1..], s[1..])
  }

  // -- patterns and keys -----------------------------------------------------

  predicate GlobChar(c: char) { c == '*' || c == '?' || c == '[' || c == ']' || c == '\\' }

  function EscapeChar(c: char): string { if GlobChar(c) then ['\\', c] else [c] }

  // A text as a pattern that matches it alone.
  function Literal(s: string): string {
    if s == "" then "" else EscapeChar(s[0]) + Literal(s[1..])
  }

  function BuildKey(prefix: string, group: string, key: string): string {
    Join(IfAny(prefix) + IfAny(OfGroup(group)) + [key], ':')
  }

  function GroupPattern(prefix: string, group: string): string {
    Join(IfAny(prefix) + IfAny(OfGroup(Literal(group))) + ["*"], ':')
  }

  // What every key of the group starts with.
  function GroupPrefix(prefix: string, group: string): string {
    (if prefix == "" then "" else prefix + [':']) + (if group == "" then "" else OfGroup(group) + [':'])
  }

  predicate Starts(s: string, key: string) { s <= key }

  predicate GlobFree(s: string) { forall i :: 0 <= i < |s| ==> !GlobChar(s[i]) }

  lemma CharMatches(c: char, p: string, s: string)
    ensures Matches(EscapeChar(c) + p, s) <==> s != "" && s[0] == c && Matches(p, s[1..])
  {
    var q := EscapeChar(c) + p;
    assert q[|EscapeChar(c)|..] == p;
    assert q[0] == EscapeChar(c)[0];
  }

  // An escaped text matches itself, and leaves the rest to the rest.
  lemma {:induction false} LiteralMatches(t: string, p: string, s: string)
    ensures Matches(Literal(t) + p, s) <==> t <= s && Matches(p, s[|t|..])
  {
    if t == "" {
      assert Literal(t) + p == p && s[0..] == s;
    } else {
      assert Literal(t) + p == EscapeChar(t[0]) + (Literal(t[1..]) + p);
      CharMatches(t[0], Literal(t[1..]) + p, s);
      hide Matches, EscapeChar;
      if s != "" {
        LiteralMatches(t[1..], p, s[1..]);
        StartsStep(t, s);
      }
    }
  }

  lemma StartsStep(t: string, s: string)
    requires t != "" && s != ""
    ensures t <= s <==> t[0] == s[0] && t[1..] <= s[1..]
    ensures t <= s ==> s[1..][|t[1..]|..] == s[|t|..]
  {
    assert t == [t[0]] + t[1..] && s == [s[0]] + s[1..];
  }

  lemma {:induction false} StarMatches(s: string)
    ensures Matches("*", s)
  {
    assert "*"[1..] == "";
    if s == "" {
    } else {
      StarMatches(s[1..]);
    }
  }

  lemma {:induction false} LiteralAppends(a: string, b: string)
    ensures Literal(a + b) == Literal(a) + Literal(b)
  {
    if a == "" {
      assert a + b == b;
    } else {
      assert (a + b)[1..] == a[1..] + b;
      LiteralAppends(a[1..], b);
    }
  }

  lemma {:induction false} LiteralNothing(s: string)
    requires GlobFree(s)
    ensures Literal(s) == s
  {
    if s == "" {
    } else {
      LiteralNothing(s[1..]);
      assert s == [s[0]] + s[1..];
    }
  }

  lemma JoinTwo(first: string, parts: seq<string>)
    requires parts != []
    ensures Join(IfAny(first) + parts, ':') == (if first == "" then "" else first + [':']) + Join(parts, ':')
  {
    if first == "" {
      assert [] + parts == parts;
    } else {
      JoinOne(first);
      JoinAppends([first], parts, ':');
    }
  }

  lemma JoinThree(prefix: string, middle: string, last: string)
    ensures Join(IfAny(prefix) + IfAny(middle) + [last], ':')
            == (if prefix == "" then "" else prefix + [':']) + (if middle == "" then "" else middle + [':']) + last
  {
    hide Join;
    assert IfAny(prefix) + IfAny(middle) + [last] == IfAny(prefix) + (IfAny(middle) + [last]);
    JoinTwo(prefix, IfAny(middle) + [last]);
    JoinTwo(middle, [last]);
    JoinOne(last);
  }

  lemma PatternIsLiteralPrefix(prefix: string, group: string)
    requires GlobFree(prefix)
    ensures GroupPattern(prefix, group) == Literal(GroupPrefix(prefix, group)) + "*"
  {
    var a := if prefix == "" then "" else prefix + [':'];
    var b := if group == "" then "" else OfGroup(group) + [':'];
    JoinThree(prefix, OfGroup(Literal(group)), "*");
    LiteralAppends(a, b);
    LiteralNothing(a);
    if group != "" {
      LiteralAppends(['{'] + group + ['}'], [':']);
      LiteralAppends(['{'] + group, ['}']);
      LiteralAppends(['{'], group);
      LiteralNothing(['{']);
      LiteralNothing(['}']);
      LiteralNothing([':']);
    }
  }

  // The pattern matches a key if and only if the key starts with the group's
  // own prefix, whatever characters the group's name has.
  lemma PatternSelectsPrefix(prefix: string, group: string, key: string)
    requires GlobFree(prefix)
    ensures Matches(GroupPattern(prefix, group), key) <==> Starts(GroupPrefix(prefix, group), key)
  {
    var start := GroupPrefix(prefix, group);
    PatternIsLiteralPrefix(prefix, group);
    LiteralMatches(start, "*", key);
    if start <= key { StarMatches(key[|start|..]); }
  }

  // So it covers every value the backend keeps in the group,
  lemma CoversBuiltKeys(prefix: string, group: string, key: string)
    requires GlobFree(prefix)
    ensures Matches(GroupPattern(prefix, group), BuildKey(prefix, group, key))
  {
    PatternSelectsPrefix(prefix, group, BuildKey(prefix, group, key));
    BuiltKeyIs(prefix, group, key);
  }

  // and every cached response of the group but one: the root path with no
  // query has a key that ends with the group.
  lemma CoversDefaultKeys(prefix: string, group: string, path: string, items: seq<Item>)
    requires GlobFree(prefix) && group != ""
    ensures Matches(GroupPattern(prefix, group), DefaultKey(prefix, group, path, items))
            <==> !(Segments(path) == [""] && items == [])
  {
    hide Segments, DefaultKey, Matches, Tail, GroupPattern;
    PatternSelectsPrefix(prefix, group, DefaultKey(prefix, group, path, items));
    TailPieces(path, items);
    PathChars(path);
    if Tail(path, items) == "" {
      KeyIsPrefixAndRest(prefix, group, path, items);
      assert |DefaultKey(prefix, group, path, items)| < |GroupPrefix(prefix, group)|;
    } else {
      DefaultKeyIs(prefix, group, path, items);
    }
  }

  // So clearing "a" leaves the cached root page of "a" behind.
  lemma RootPageStays()
    ensures !Matches(GroupPattern("", "a"), DefaultKey("", "a", "/", []))
  {
    hide Matches, GroupPattern, DefaultKey;
    CoversDefaultKeys("", "a", "/", []);
    var i, j := TrimIs("/", c => c == '/');
    assert "/"[0] == '/';
  }

  // -- what clearing one group does to the others ----------------------------

  lemma BuiltKeyIs(prefix: string, group: string, key: string)
    ensures BuildKey(prefix, group, key) == GroupPrefix(prefix, group) + key
  {
    JoinThree(prefix, OfGroup(group), key);
  }

  lemma LinkTwice(prefix: string, middle: string, tail: string)
    requires tail != ""
    ensures Link(prefix, Link(middle, tail))
            == (if prefix == "" then "" else prefix + [':']) + (if middle == "" then "" else middle + [':']) + tail
  {
    LinkOnce(middle, tail);
    LinkOnce(prefix, Link(middle, tail));
    hide Link;
  }

  lemma LinkOnce(first: string, rest: string)
    requires rest != ""
    ensures Link(first, rest) == (if first == "" then "" else first + [':']) + rest && Link(first, rest) != ""
  {
  }

  lemma DefaultKeyIs(prefix: string, group: string, path: string, items: seq<Item>)
    requires Tail(path, items) != ""
    ensures DefaultKey(prefix, group, path, items) == GroupPrefix(prefix, group) + Tail(path, items)
  {
    hide DefaultKey, Tail, Link;
    KeyIsPrefixAndRest(prefix, group, path, items);
    LinkTwice(prefix, OfGroup(group), Tail(path, items));
    assert OfGroup(group) == "" <==> group == "";
  }

  // How a group's name stands in its keys, up to the separator after it.
  function Named(group: string): string { group + ['}', ':'] }

  lemma GroupPrefixIs(prefix: string, group: string)
    requires group != ""
    ensures GroupPrefix(prefix, group) == GroupPrefix(prefix, "") + (['{'] + Named(group))
  {
    var before := if prefix == "" then "" else prefix + [':'];
    assert before + "" == before;
    assert OfGroup(group) + [':'] == ['{'] + Named(group);
  }

  // A common front takes no part in a comparison.
  lemma FrontCancels(front: string, a: string, b: string)
    ensures front + a <= front + b <==> a <= b
  {
    assert (front + a)[|front|..] == a && (front + b)[|front|..] == b;
    if front + a <= front + b {
      assert forall i :: 0 <= i < |a| ==> a[i] == (front + a)[|front| + i] == (front + b)[|front| + i] == b[i];
    }
  }

  // The pattern of one group selects a value the backend keeps in another just
  // when the other's name and the value's own key spell out the first's.
  lemma SelectsBuiltKey(prefix: string, group: string, other: string, key: string)
    requires GlobFree(prefix) && group != ""
    ensures Matches(GroupPattern(prefix, group), BuildKey(prefix, other, key)) <==>
            if other == "" then OfGroup(group) + [':'] <= key else Named(group) <= Named(other) + key
  {
    hide Matches, GroupPattern, BuildKey, GroupPrefix;
    PatternSelectsPrefix(prefix, group, BuildKey(prefix, other, key));
    BuiltKeyIs(prefix, other, key);
    if other == "" { UngroupedStarts(prefix, group, key); } else { GroupedStarts(prefix, group, other, key); }
  }

  lemma UngroupedStarts(prefix: string, group: string, key: string)
    requires group != ""
    ensures GroupPrefix(prefix, group) <= GroupPrefix(prefix, "") + key <==> OfGroup(group) + [':'] <= key
  {
    hide GroupPrefix, OfGroup, Named;
    GroupPrefixIs(prefix, group);
    NamedInBraces(group);
    FrontCancels(GroupPrefix(prefix, ""), ['{'] + Named(group), key);
  }

  lemma GroupedStarts(prefix: string, group: string, other: string, key: string)
    requires group != "" && other != ""
    ensures GroupPrefix(prefix, group) <= GroupPrefix(prefix, other) + key <==> Named(group) <= Named(other) + key
  {
    hide GroupPrefix, Named;
    GroupPrefixIs(prefix, group);
    GroupPrefixIs(prefix, other);
    var front := GroupPrefix(prefix, "");
    assert front + (['{'] + Named(other)) + key == front + (['{'] + (Named(other) + key));
    FrontCancels(front, ['{'] + Named(group), ['{'] + (Named(other) + key));
    FrontCancels(['{'], Named(group), Named(other) + key);
  }

  lemma NamedInBraces(group: string)
    requires group != ""
    ensures ['{'] + Named(group) == OfGroup(group) + [':']
  {
  }

  // So clearing one group leaves every value of another if and only if neither
  // name, closed, starts with the other.
  lemma GroupsApart(prefix: string, group: string, other: string)
    requires GlobFree(prefix) && group != "" && other != ""
    ensures (forall key :: !Matches(GroupPattern(prefix, group), BuildKey(prefix, other, key))) <==>
            !(Named(group) <= Named(other)) && !(Named(other) <= Named(group))
  {
    hide Matches, GroupPattern, BuildKey, Named;
    var g, h := Named(group), Named(other);
    forall key ensures Matches(GroupPattern(prefix, group), BuildKey(prefix, other, key)) <==> g <= h + key {
      SelectsBuiltKey(prefix, group, other, key);
    }
    if g <= h {
      assert g <= h + "";
    } else if h <= g {
      assert g == h + g[|h|..];
      assert g <= h + g[|h|..];
    } else {
      forall key ensures !(g <= h + key) { OneIsFirst(g, h, key); }
    }
  }

  lemma OneIsFirst(g: string, h: string, key: string)
    ensures g <= h + key ==> g <= h || h <= g
  {
    if g <= h + key {
      assert forall i :: 0 <= i < |g| && i < |h| ==> g[i] == (h + key)[i] == h[i];
    }
  }

  // Names without a closing brace are apart unless they are one.
  lemma BracelessNamesAreApart(group: string, other: string)
    requires '}' !in group && '}' !in other
    ensures Named(group) <= Named(other) <==> group == other
  {
    var g, h := Named(group), Named(other);
    assert g[|group|] == '}' && h[|other|] == '}';
    assert forall i :: 0 <= i < |group| ==> g[i] == group[i];
    assert forall i :: 0 <= i < |other| ==> h[i] == other[i];
    if g <= h {
      assert h[|group|] == '}' && forall i :: 0 <= i < |group| ==> h[i] == group[i];
      assert |group| == |other|;
    }
  }

  // A cached response is selected just when it is one of the group's own, and
  // not that of the root path with no query, or when its group's name goes on
  // from the other with a brace and a colon.
  lemma SelectsDefaultKey(prefix: string, group: string, other: string, path: string, items: seq<Item>)
    requires GlobFree(prefix) && group != ""
    ensures Matches(GroupPattern(prefix, group), DefaultKey(prefix, other, path, items)) <==>
            (group == other && !(Segments(path) == [""] && items == [])) || Named(group) <= other
  {
    hide Matches, GroupPattern, Segments, DefaultKey, Tail, Rest, GroupPrefix, Named;
    var key, rest := DefaultKey(prefix, other, path, items), Rest(other, path, items);
    PatternSelectsPrefix(prefix, group, key);
    KeyIsPrefixAndRest(prefix, other, path, items);
    TailPieces(path, items);
    PathChars(path);
    GroupPrefixIs(prefix, group);
    var front := GroupPrefix(prefix, "");
    if rest == "" {
      RestIsNone(other, path, items);
      NothingIsNamed(prefix, group);
    } else {
      KeyAfterFront(prefix, rest);
      FrontCancels(front, ['{'] + Named(group), rest);
      NamedStartsRest(group, other, path, items);
    }
  }

  lemma NothingIsNamed(prefix: string, group: string)
    requires group != ""
    ensures !(Named(group) <= "") && |prefix| < |GroupPrefix(prefix, group)|
  {
  }

  lemma KeyAfterFront(prefix: string, rest: string)
    requires rest != ""
    ensures Link(prefix, rest) == GroupPrefix(prefix, "") + rest
  {
  }

  lemma RestIsNone(other: string, path: string, items: seq<Item>)
    requires Rest(other, path, items) == ""
    ensures other == "" && Tail(path, items) == ""
  {
  }

  lemma NamedStartsRest(group: string, other: string, path: string, items: seq<Item>)
    requires group != ""
    ensures ['{'] + Named(group) <= Rest(other, path, items) <==>
            (group == other && Tail(path, items) != "") || Named(group) <= other
  {
    hide Tail, Named, OfGroup, Link;
    TailPieces(path, items);
    var tail := Tail(path, items);
    GroupedShape(other, tail);
    if other != "" {
      RestShape(other, After(tail));
      FrontCancels(['{'], Named(group), other + (['}'] + After(tail)));
      NameEnds(group, other, After(tail));
    } else {
      NoBraceNoName(group, Rest(other, path, items));
    }
  }

  lemma RestShape(other: string, end: string)
    ensures (['{'] + other) + ['}'] + end == ['{'] + (other + (['}'] + end))
  {
  }

  lemma NoBraceNoName(group: string, rest: string)
    requires '{' !in rest
    ensures !(['{'] + Named(group) <= rest) && !(Named(group) <= "")
  {
    assert (['{'] + Named(group))[0] == '{';
  }

  // Where a name ends in text whose braces are all its own.
  lemma NameEnds(group: string, other: string, end: string)
    requires '}' !in end && (end != "" ==> end[0] == ':')
    ensures Named(group) <= other + (['}'] + end) <==> (group == other && end != "") || Named(group) <= other
  {
    var g, s := Named(group), other + (['}'] + end);
    assert g[|group|] == '}' && g[|group| + 1] == ':';
    assert s[|other|] == '}' && forall i :: |other| < i < |s| ==> s[i] == end[i - |other| - 1];
    assert forall i :: 0 <= i < |other| ==> s[i] == other[i];
    if g <= s {
      assert s[|group|] == '}' && s[|group| + 1] == ':';
      assert |group| <= |other|;
      if |group| == |other| {
        assert group == other by { assert forall i :: 0 <= i < |group| ==> group[i] == g[i] == s[i] == other[i]; }
      } else {
        assert |group| + 1 < |other|;
        assert forall i :: 0 <= i < |g| ==> g[i] == s[i] == other[i];
      }
    }
    if group == other && end != "" {
      assert forall i :: 0 <= i < |g| ==> g[i] == s[i];
    }
    if g <= other {
      assert forall i :: 0 <= i < |g| ==> g[i] == other[i] == s[i];
    }
  }

  // With a brace in a name, clearing "a" reaches into "a}:b", and clearing
  // "a}:b" into "a".
  lemma BracesMayOverlap()
    ensures Matches(GroupPattern("", "a"), BuildKey("", "a}:b", "k"))
    ensures Matches(GroupPattern("", "a}:b"), BuildKey("", "a", "b}:k"))
  {
    hide Matches, GroupPattern, BuildKey;
    SelectsBuiltKey("", "a", "a}:b", "k");
    assert Named("a") == "a}:" && Named("a}:b") + "k" == "a}:b}:k";
    SelectsBuiltKey("", "a}:b", "a", "b}:k");
    assert Named("a}:b") == "a}:b}:" && Named("a") + "b}:k" == "a}:b}:k";
  }

  // and reaches every cached response of "a}:b".
  lemma BracesReachResponses(path: string, items: seq<Item>)
    ensures Matches(GroupPattern("", "a"), DefaultKey("", "a}:b", path, items))
  {
    hide Matches, GroupPattern, DefaultKey;
    SelectsDefaultKey("", "a", "a}:b", path, items);
    assert Named("a") == "a}:";
  }

  // And a value kept in no group is taken along when its own key looks grouped.
  lemma UngroupedMayBeTaken()
    ensures Matches(GroupPattern("", "a"), BuildKey("", "", "{a}:x"))
  {
    hide Matches, GroupPattern, BuildKey;
    SelectsBuiltKey("", "a", "", "{a}:x");
    assert OfGroup("a") + [':'] == "{a}:";
  }
}
