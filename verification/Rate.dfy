// The compact rate grammar: "100/minute", "10/15seconds", "100 per 2 minutes".
module Rates {
  import opened Prelude

  // A request limit allowed within a window of seconds.
  datatype Rate = Rate(limit: int, window: int) {
    predicate Valid() { limit > 0 && window > 0 }
  }

  // The three things a rate may be written as.
  datatype Spec = Text(text: string) | Ready(rate: Rate) | Pair(limit: int, window: int)

  // -- character classes ----------------------------------------------------

  datatype Class = Digit | Letter | Space {
    predicate Has(c: char) {
      match this
      case Digit => '0' <= c <= '9'
      case Letter => 'a' <= c <= 'z' || 'A' <= c <= 'Z'
      case Space =>
        var n := c as int;
        9 <= n <= 13 || 28 <= n <= 32 || n == 0x85 || n == 0xA0 || n == 0x1680 || 0x2000 <= n <= 0x200A
        || n == 0x2028 || n == 0x2029 || n == 0x202F || n == 0x205F || n == 0x3000
    }
  }

  // Every character of s from i up to j satisfies p.
  predicate Span(p: Class, s: string, i: nat, j: nat) {
    i <= j <= |s| && forall k :: i <= k < j ==> p.Has(s[k])
  }

  ghost predicate Digits(s: string) { Span(Digit, s, 0, |s|) }

  // Where a greedy class that starts at i stops.
  function End(p: Class, s: string, i: nat): (j: nat)
    requires i <= |s|
    ensures Span(p, s, i, j) && (j < |s| ==> !p.Has(s[j]))
    decreases |s| - i
  {
    if i < |s| && p.Has(s[i]) then End(p, s, i + 1) else i
  }

  lemma {:induction false} EndIs(p: Class, s: string, i: nat, j: nat)
    requires Span(p, s, i, j) && (j < |s| ==> !p.Has(s[j]))
    ensures End(p, s, i) == j
    decreases j - i
  {
    if i == j {
    } else {
      EndIs(p, s, i + 1, j);
    }
  }

  // The length of the separator at i, "/" or "per"; 0 when there is none.
  function SeparatorAt(s: string, i: nat): (n: nat)
    ensures i + n <= |s| || n == 0
  {
    if i < |s| && s[i] == '/' then 1
    else if i + 3 <= |s| && s[i] == 'p' && s[i + 1] == 'e' && s[i + 2] == 'r' then 3
    else 0
  }

  // -- the pattern ----------------------------------------------------------

  // Where the groups of one reading start and stop: the limit and the
  // separator, then the multiple and the unit with its plural "s".
  datatype Front = Front(limit0: nat, limit1: nat, sep0: nat, sep1: nat) {
    predicate Fits(s: string) {
      && Span(Space, s, 0, limit0)
      && limit0 < limit1 && Span(Digit, s, limit0, limit1)
      && Span(Space, s, limit1, sep0)
      && SeparatorAt(s, sep0) > 0 && sep1 == sep0 + SeparatorAt(s, sep0)
    }
  }

  datatype Back = Back(multiple0: nat, multiple1: nat, unit0: nat, unit1: nat, end: nat) {
    predicate Fits(s: string, from: nat) {
      && Span(Space, s, from, multiple0)
      && Span(Digit, s, multiple0, multiple1)
      && Span(Space, s, multiple1, unit0)
      && unit0 < unit1 && Span(Letter, s, unit0, unit1)
      && (end == unit1 || (end == unit1 + 1 <= |s| && s[unit1] == 's'))
      && Span(Space, s, end, |s|)
    }
  }

  // A reading of the whole text by the pattern.
  datatype Match = Match(front: Front, back: Back) {
    predicate Fits(s: string) { front.Fits(s) && back.Fits(s, front.sep1) }

    // The texts of the three groups.
    function Limit(s: string): (r: string)
      requires Fits(s)
      ensures Digits(r)
    {
      s[front.limit0..front.limit1]
    }

    function Multiple(s: string): (r: string)
      requires Fits(s)
      ensures Digits(r)
    {
      s[back.multiple0..back.multiple1]
    }

    function Unit(s: string): string requires Fits(s) { s[back.unit0..back.unit1] }
  }

  // A single left-to-right scan; no choice is ever taken back.
  function ScanFront(s: string): (f: Option<Front>)
    ensures f.Some? ==> f.value.Fits(s)
  {
    var limit0 := End(Space, s, 0);
    var limit1 := End(Digit, s, limit0);
    var sep0 := End(Space, s, limit1);
    var n := SeparatorAt(s, sep0);
    if limit0 == limit1 || n == 0 then None else Some(Front(limit0, limit1, sep0, sep0 + n))
  }

  function ScanBack(s: string, from: nat): (b: Option<Back>)
    requires from <= |s|
    ensures b.Some? ==> b.value.Fits(s, from)
  {
    var multiple0 := End(Space, s, from);
    var multiple1 := End(Digit, s, multiple0);
    var unit0 := End(Space, s, multiple1);
    var end := End(Letter, s, unit0);
    if unit0 == end || End(Space, s, end) != |s| then None
    else Some(Back(multiple0, multiple1, unit0, UnitEnd(s, unit0, end), end))
  }

  // The unit is lazy and the plural "s" optional: the "s" is left to the
  // plural whenever a letter remains.
  function UnitEnd(s: string, unit0: nat, end: nat): (unit1: nat)
    requires unit0 < end <= |s|
  {
    if end >= unit0 + 2 && s[end - 1] == 's' then end - 1 else end
  }

  function Scan(s: string): (m: Option<Match>)
    ensures m.Some? ==> m.value.Fits(s)
  {
    match ScanFront(s)
    case None => None
    case Some(front) =>
      match ScanBack(s, front.sep1)
      case None => None
      case Some(back) => Some(Match(front, back))
  }

  // Two readings with the same groups, but for the length of the unit, where
  // the first is no longer.
  ghost predicate SameButShorter(s: string, m: Match, r: Match) {
    && m.front == r.front
    && m.back.multiple0 <= m.back.multiple1 <= |s| && r.back.multiple0 <= r.back.multiple1 <= |s|
    && s[m.back.multiple0..m.back.multiple1] == s[r.back.multiple0..r.back.multiple1]
    && m.back.unit0 == r.back.unit0 && m.back.unit1 <= r.back.unit1
  }

  // The scan accepts exactly the texts of the pattern, and of all readings of
  // a text it returns the one the lazy pattern prefers: the shortest unit.
  lemma ScanMeetsPattern(s: string)
    ensures Scan(s).Some? <==> exists r: Match :: r.Fits(s)
    ensures forall r: Match :: r.Fits(s) ==> Scan(s).Some? && SameButShorter(s, Scan(s).value, r)
  {
    forall r: Match | r.Fits(s) ensures Scan(s).Some? && SameButShorter(s, Scan(s).value, r) {
      ScanIsComplete(s, r);
    }
  }

  lemma ScanFrontIs(s: string, f: Front)
    requires f.Fits(s)
    ensures ScanFront(s) == Some(f)
  {
    EndIs(Space, s, 0, f.limit0);
    EndIs(Digit, s, f.limit0, f.limit1);
    EndIs(Space, s, f.limit1, f.sep0);
  }

  lemma ScanBackIs(s: string, from: nat, r: Back)
    requires from <= |s| && r.Fits(s, from)
    ensures var b := ScanBack(s, from);
            && b.Some?
            && s[b.value.multiple0..b.value.multiple1] == s[r.multiple0..r.multiple1]
            && b.value.unit0 == r.unit0 && b.value.end == r.end && b.value.unit1 == UnitEnd(s, r.unit0, r.end)
  {
    // With no multiple, the spaces on both sides of it are one run.
    if r.multiple0 == r.multiple1 {
      EndIs(Space, s, from, r.unit0);
      EndIs(Digit, s, r.unit0, r.unit0);
      EndIs(Space, s, r.unit0, r.unit0);
    } else {
      EndIs(Space, s, from, r.multiple0);
      EndIs(Digit, s, r.multiple0, r.multiple1);
      EndIs(Space, s, r.multiple1, r.unit0);
    }
    EndIs(Letter, s, r.unit0, r.end);
    EndIs(Space, s, r.end, |s|);
  }

  lemma ScanIsComplete(s: string, r: Match)
    requires r.Fits(s)
    ensures Scan(s).Some? && SameButShorter(s, Scan(s).value, r)
    ensures Scan(s).value.back.unit1 == UnitEnd(s, r.back.unit0, r.back.end)
  {
    ScanFrontIs(s, r.front);
    ScanBackIs(s, r.front.sep1, r.back);
  }

  // -- numbers --------------------------------------------------------------

  function DigitChar(n: nat): (c: char)
    requires n < 10
    ensures Class.Digit.Has(c) && c as int - '0' as int == n
  {
    '0' + n as char
  }

  function Decimal(n: nat): (s: string)
  {
    if n < 10 then [DigitChar(n)] else Decimal(n / 10) + [DigitChar(n % 10)]
  }

  function Number(s: string): (n: nat)
    requires Digits(s)
  {
    if s == [] then 0
    else 10 * Number(s[..|s| - 1]) + (s[|s| - 1] as int - '0' as int)
  }

  lemma {:induction false} DecimalReadsBack(n: nat)
    ensures Decimal(n) != [] && Digits(Decimal(n)) && Number(Decimal(n)) == n
  {
    if n < 10 {
      assert Decimal(n)[..0] == [];
    } else {
      DecimalReadsBack(n / 10);
      var s := Decimal(n);
      assert s[..|s| - 1] == Decimal(n / 10);
    }
  }

  // -- parsing and printing -------------------------------------------------

  function Lower(s: string): (r: string)
    ensures |r| == |s|
  {
    seq(|s|, i requires 0 <= i < |s| => if 'A' <= s[i] <= 'Z' then s[i] - 'A' + 'a' else s[i])
  }

  function UnitSeconds(unit: string): Option<nat>
  {
    if unit in {"second", "sec", "s"} then Some(1)
    else if unit in {"minute", "min", "m"} then Some(60)
    else if unit in {"hour", "hr", "h"} then Some(3600)
    else if unit in {"day", "d"} then Some(86400)
    else None
  }

  function MakeRate(limit: int, window: int): Result<Rate>
  {
    if limit <= 0 then Err("rate limit must be positive")
    else if window <= 0 then Err("rate window must be positive")
    else Ok(Rate(limit, window))
  }

  // The rate that three matched groups stand for.
  function FromGroups(limit: string, multiple: string, unit: string): (r: Result<Rate>)
    requires Digits(limit) && Digits(multiple)
    ensures r.Ok? ==> r.value.Valid()
  {
    match UnitSeconds(Lower(unit))
    case None => Err("unknown time unit")
    case Some(seconds) => MakeRate(Number(limit), seconds * (if multiple == [] then 1 else Number(multiple)))
  }

  function ParseText(s: string): (r: Result<Rate>)
    ensures r.Ok? ==> r.value.Valid()
  {
    match Scan(s)
    case None => Err("invalid rate spec")
    case Some(m) => FromGroups(m.Limit(s), m.Multiple(s), m.Unit(s))
  }

  function ParseRate(spec: Spec): (r: Result<Rate>)
    ensures r.Ok? && !spec.Ready? ==> r.value.Valid()
    ensures spec.Ready? ==> r == Ok(spec.rate)
    ensures spec.Pair? ==> (r.Ok? <==> spec.limit > 0 && spec.window > 0) && (r.Ok? ==> r.value == Rate(spec.limit, spec.window))
  {
    match spec
    case Ready(rate) => Ok(rate)
    case Pair(limit, window) => MakeRate(limit, window)
    case Text(text) => ParseText(text)
  }

  function UnitOf(window: int): Option<string>
  {
    if window == 1 then Some("second")
    else if window == 60 then Some("minute")
    else if window == 3600 then Some("hour")
    else if window == 86400 then Some("day")
    else None
  }

  function Seconds(): string { "seconds" }

  function Print(r: Rate): string
    requires r.Valid()
  {
    match UnitOf(r.window)
    case Some(unit) => Decimal(r.limit) + ['/'] + unit
    case None => Decimal(r.limit) + ['/'] + Decimal(r.window) + Seconds()
  }

  // A text made of a limit, a slash, an optional multiple and a word.
  lemma SpecScans(limit: string, multiple: string, word: string)
    requires limit != [] && Digits(limit) && Digits(multiple)
    requires word != [] && Span(Letter, word, 0, |word|)
    ensures var s := limit + ['/'] + multiple + word;
            && Scan(s).Some?
            && var m := Scan(s).value;
               m.Limit(s) == limit && m.Multiple(s) == multiple && m.Unit(s) == word[..UnitEnd(word, 0, |word|)]
  {
    hide Scan, ScanFront, ScanBack;
    var s := limit + ['/'] + multiple + word;
    var a, b := |limit|, |limit| + 1 + |multiple|;
    assert s[..a] == limit && s[a] == '/' && s[a + 1..b] == multiple && s[b..] == word;
    assert forall k :: 0 <= k < a ==> s[k] == limit[k];
    assert forall k :: a < k < b ==> s[k] == multiple[k - a - 1];
    assert forall k :: b <= k < |s| ==> s[k] == word[k - b];
    var r := Match(Front(0, a, a, a + 1), Back(a + 1, b, b, |s|, |s|));
    ScanIsComplete(s, r);
    var u := UnitEnd(word, 0, |word|);
    assert UnitEnd(s, b, |s|) == b + u;
    assert s[b..b + u] == word[..u];
  }

  // What the printer writes for a unit is what the parser's table reads.
  lemma UnitsAgree(window: int)
    ensures match UnitOf(window)
            case Some(u) => |u| > 1 && Span(Letter, u, 0, |u|) && u[|u| - 1] != 's' && UnitSeconds(Lower(u)) == Some(window)
            case None => true
  {
    assert Lower("second") == "second" && Lower("minute") == "minute" && Lower("hour") == "hour" && Lower("day") == "day";
  }

  lemma SecondsAgree()
    ensures |Seconds()| == 7 && Seconds()[6] == 's' && Span(Letter, Seconds(), 0, 7)
    ensures UnitSeconds(Lower(Seconds()[..6])) == Some(1)
  {
    assert Seconds()[..6] == "second";
    assert Lower("second") == "second";
  }

  lemma {:induction false} SpecParses(limit: string, multiple: string, word: string)
    requires limit != [] && Digits(limit) && Digits(multiple)
    requires word != [] && Span(Letter, word, 0, |word|)
    ensures ParseText(limit + ['/'] + multiple + word) ==
            FromGroups(limit, multiple, word[..UnitEnd(word, 0, |word|)])
  {
    SpecScans(limit, multiple, word);
  }

  // Printing a rate and parsing the text gives the rate back, whatever its
  // limit and window.
  lemma {:induction false} PrintParses(r: Rate)
    requires r.Valid()
    ensures ParseRate(Text(Print(r))) == Ok(r)
  {
    hide Decimal, Number, ParseText, UnitSeconds, Lower;
    DecimalReadsBack(r.limit);
    var limit := Decimal(r.limit);
    match UnitOf(r.window) {
      case Some(unit) =>
        UnitsAgree(r.window);
        SpecParses(limit, [], unit);
        assert limit + ['/'] + [] + unit == limit + ['/'] + unit;
        assert unit[..|unit|] == unit;
      case None =>
        DecimalReadsBack(r.window);
        SecondsAgree();
        SpecParses(limit, Decimal(r.window), Seconds());
    }
  }

  // Distinct rates print differently, and a text that parses at all prints
  // and parses back to the same rate.
  lemma PrintIsCanonical(r1: Rate, r2: Rate)
    requires r1.Valid() && r2.Valid()
    ensures Print(r1) == Print(r2) <==> r1 == r2
  {
    PrintParses(r1);
    PrintParses(r2);
  }

  // -- what a text means -----------------------------------------------------

  // The names of the four units, short and long.
  predicate IsName(name: string, window: nat) {
    || (window == 1 && name in {"second", "sec", "s"})
    || (window == 60 && name in {"minute", "min", "m"})
    || (window == 3600 && name in {"hour", "hr", "h"})
    || (window == 86400 && name in {"day", "d"})
  }

  // A word spells a unit: in capitals or not, with or without a plural "s".
  predicate Spells(word: string, window: nat) {
    IsName(Lower(word), window) || (word != [] && word[|word| - 1] == 's' && IsName(Lower(word[..|word| - 1]), window))
  }

  lemma NamesAreRead(name: string, window: nat)
    ensures UnitSeconds(name) == Some(window) <==> IsName(name, window)
    ensures IsName(name, window) ==> name != [] && window > 0 && (name[|name| - 1] == 's' ==> |name| == 1)
  {
  }

  lemma WordIsRead(word: string, window: nat)
    requires word != []
    ensures UnitSeconds(Lower(word[..UnitEnd(word, 0, |word|)])) == Some(window) <==> Spells(word, window)
  {
    var n := |word| - 1;
    var front := word[..n];
    NamesAreRead(Lower(word), window);
    NamesAreRead(Lower(front), window);
    hide UnitSeconds, IsName;
    assert word[..|word|] == word;
    assert Lower(word)[n] == 's' <==> word[n] == 's' || word[n] == 'S';
  }

  // The two numbers and the word of a reading, in the compact form.
  function Compact(limit: nat, multiple: Option<nat>, word: string): string {
    Decimal(limit) + ['/'] + (if multiple.Some? then Decimal(multiple.value) else []) + word
  }

  // A compact text is a rate exactly when both its numbers are positive and its
  // word spells a unit; the window is then the multiple of that unit.
  lemma {:induction false} CompactMeans(limit: nat, multiple: Option<nat>, word: string, window: nat)
    requires word != [] && Span(Letter, word, 0, |word|)
    ensures limit > 0 && multiple != Some(0) && Spells(word, window) ==>
              ParseRate(Text(Compact(limit, multiple, word))) == Ok(Rate(limit, if multiple.Some? then multiple.value * window else window))
    ensures ParseRate(Text(Compact(limit, multiple, word))).Ok? <==>
              limit > 0 && multiple != Some(0) && exists w: nat :: Spells(word, w)
  {
    hide Spells, Decimal, UnitSeconds, Number, ParseText;
    var digits := if multiple.Some? then Decimal(multiple.value) else [];
    DecimalReadsBack(limit);
    if multiple.Some? { DecimalReadsBack(multiple.value); }
    NothingIsZero();
    SpecParses(Decimal(limit), digits, word);
    var unit := word[..UnitEnd(word, 0, |word|)];
    var u := UnitSeconds(Lower(unit));
    forall w: nat ensures Spells(word, w) <==> u == Some(w) { WordIsRead(word, w); }
    if u.Some? { UnitsArePositive(Lower(unit)); }
    GroupsGive(Decimal(limit), digits, unit);
  }

  lemma NothingIsZero()
    ensures Number([]) == 0
  {
  }

  lemma UnitsArePositive(unit: string)
    ensures UnitSeconds(unit).Some? ==> UnitSeconds(unit).value > 0
  {
  }

  lemma GroupsGive(limit: string, multiple: string, unit: string)
    requires Digits(limit) && Digits(multiple)
    ensures var r := FromGroups(limit, multiple, unit);
            match UnitSeconds(Lower(unit))
            case None => r.Err?
            case Some(w) =>
              w > 0 ==>
                var n := if multiple == [] then 1 else Number(multiple);
                if Number(limit) > 0 && n > 0 then r == Ok(Rate(Number(limit), n * w)) else r.Err?
  {
    hide Number, UnitSeconds;
    var n := if multiple == [] then 1 else Number(multiple);
    if UnitSeconds(Lower(unit)).Some? { Positive(n, UnitSeconds(Lower(unit)).value); }
  }

  lemma Positive(n: nat, w: nat)
    ensures n * w == w * n
    ensures n > 0 && w > 0 ==> n * w > 0
    ensures n == 0 ==> n * w == 0
  {
  }

  // The word of a reading, plural and all.
  function Word(s: string, r: Match): string
    requires r.Fits(s)
  {
    s[r.back.unit0..r.back.end]
  }

  // Blanks, leading zeros and the choice between "/" and "per" mean nothing:
  // any text reads as the compact one with its numbers and its word.
  lemma {:induction false} ReadsAsCompact(s: string, r: Match)
    requires r.Fits(s)
    ensures var multiple := if r.Multiple(s) == [] then None else Some(Number(r.Multiple(s)));
            ParseRate(Text(s)) == ParseRate(Text(Compact(Number(r.Limit(s)), multiple, Word(s, r))))
  {
    ScanIsComplete(s, r);
    var word := Word(s, r);
    var limit, multiple := Number(r.Limit(s)), r.Multiple(s);
    var digits := if multiple == [] then [] else Decimal(Number(multiple));
    DecimalReadsBack(limit);
    if multiple != [] { DecimalReadsBack(Number(multiple)); }
    WordFits(s, r);
    SpecParses(Decimal(limit), digits, word);
    GroupsMean(r.Limit(s), Decimal(limit), multiple, digits, word[..UnitEnd(word, 0, |word|)]);
    hide Scan, Decimal, Number, FromGroups, Match.Fits;
  }

  lemma WordFits(s: string, r: Match)
    requires r.Fits(s)
    ensures var word := Word(s, r);
            && word != [] && Span(Letter, word, 0, |word|)
            && UnitEnd(s, r.back.unit0, r.back.end) == r.back.unit0 + UnitEnd(word, 0, |word|)
            && s[r.back.unit0..UnitEnd(s, r.back.unit0, r.back.end)] == word[..UnitEnd(word, 0, |word|)]
  {
    var word := Word(s, r);
    assert forall i :: 0 <= i < |word| ==> word[i] == s[r.back.unit0 + i];
  }

  lemma GroupsMean(limit: string, limit': string, multiple: string, multiple': string, unit: string)
    requires Digits(limit) && Digits(limit') && Digits(multiple) && Digits(multiple')
    requires Number(limit) == Number(limit') && Number(multiple) == Number(multiple') && (multiple == [] <==> multiple' == [])
    ensures FromGroups(limit, multiple, unit) == FromGroups(limit', multiple', unit)
  {
    hide Number;
  }

  lemma SpelledIsWord(word: string, window: nat)
    requires Spells(word, window)
    ensures word != [] && Span(Letter, word, 0, |word|)
  {
    NamesAreLetters(Lower(word), window);
    NamesAreLetters(Lower(word[..|word| - 1]), window);
    hide IsName;
    forall i | 0 <= i < |word| ensures Class.Letter.Has(word[i]) {
      if i < |word| - 1 { assert Lower(word[..|word| - 1])[i] == Lower(word)[i]; }
    }
  }

  lemma NamesAreLetters(name: string, window: nat)
    ensures IsName(name, window) ==> name != [] && forall i :: 0 <= i < |name| ==> 'a' <= name[i] <= 'z'
  {
  }

  // A front of the text, up to the separator, and a back.
  function FrontText(b0: string, limit: string, b1: string, sep: string): string { b0 + limit + b1 + sep }

  function BackText(b2: string, multiple: string, b3: string, word: string, b4: string): string { b2 + multiple + b3 + word + b4 }

  predicate Blank(b: string) { Span(Space, b, 0, |b|) }

  // So all the ways of writing a rate, with "/" or "per" and with or without
  // blanks, mean the same.
  lemma {:induction false} WaysOfWriting(b0: string, limit: string, b1: string, sep: string, b2: string, multiple: string, b3: string,
                                         word: string, b4: string, window: nat)
    requires Blank(b0) && Blank(b1) && Blank(b2) && Blank(b3) && Blank(b4) && (sep == ['/'] || sep == ['p', 'e', 'r'])
    requires limit != [] && Digits(limit) && Digits(multiple) && Number(limit) > 0 && (multiple != [] ==> Number(multiple) > 0)
    requires Spells(word, window)
    ensures ParseRate(Text(FrontText(b0, limit, b1, sep) + BackText(b2, multiple, b3, word, b4))) ==
            Ok(Rate(Number(limit), if multiple == [] then window else Number(multiple) * window))
  {
    hide ParseText, Number, Spells, Decimal, FrontText, BackText;
    SpelledIsWord(word, window);
    var f, b := FrontText(b0, limit, b1, sep), BackText(b2, multiple, b3, word, b4);
    var front := FrontFits(b0, limit, b1, sep, b);
    var back := BackFits(f, b2, multiple, b3, word, b4);
    var r := Match(front, back);
    ReadsAsCompact(f + b, r);
    CompactMeans(Number(limit), if multiple == [] then None else Some(Number(multiple)), word, window);
  }

  lemma PartSpans(p: Class, s: string, i: nat, part: string)
    requires i + |part| <= |s| && s[i..i + |part|] == part && Span(p, part, 0, |part|)
    ensures Span(p, s, i, i + |part|)
  {
    assert forall n :: i <= n < i + |part| ==> s[n] == part[n - i];
  }

  lemma FrontFits(b0: string, limit: string, b1: string, sep: string, rest: string) returns (f: Front)
    requires Blank(b0) && Blank(b1) && limit != [] && Digits(limit) && (sep == ['/'] || sep == ['p', 'e', 'r'])
    ensures f == Front(|b0|, |b0| + |limit|, |b0| + |limit| + |b1|, |FrontText(b0, limit, b1, sep)|)
    ensures var s := FrontText(b0, limit, b1, sep) + rest; f.Fits(s) && s[f.limit0..f.limit1] == limit
  {
    var s := FrontText(b0, limit, b1, sep) + rest;
    var i, j, k := |b0|, |b0| + |limit|, |b0| + |limit| + |b1|;
    f := Front(i, j, k, k + |sep|);
    hide Span;
    assert s[0..i] == b0 && s[i..j] == limit && s[j..k] == b1 && s[k..k + |sep|] == sep;
    PartSpans(Space, s, 0, b0);
    PartSpans(Digit, s, i, limit);
    PartSpans(Space, s, j, b1);
    assert forall n :: k <= n < k + |sep| ==> s[n] == sep[n - k];
  }

  lemma BackFits(front: string, b2: string, multiple: string, b3: string, word: string, b4: string) returns (b: Back)
    requires Blank(b2) && Blank(b3) && Blank(b4) && Digits(multiple) && word != [] && Span(Letter, word, 0, |word|)
    ensures var s := front + BackText(b2, multiple, b3, word, b4);
            b.Fits(s, |front|) && s[b.multiple0..b.multiple1] == multiple && s[b.unit0..b.end] == word
  {
    var s := front + BackText(b2, multiple, b3, word, b4);
    var a := |front|;
    var i, j, k, l := a + |b2|, a + |b2| + |multiple|, a + |b2| + |multiple| + |b3|, a + |b2| + |multiple| + |b3| + |word|;
    b := Back(i, j, k, l, l);
    hide Span;
    assert |s| == l + |b4|;
    assert s[a..i] == b2 && s[i..j] == multiple && s[j..k] == b3 && s[k..l] == word && s[l..l + |b4|] == b4;
    PartSpans(Space, s, a, b2);
    PartSpans(Digit, s, i, multiple);
    PartSpans(Space, s, j, b3);
    PartSpans(Letter, s, k, word);
    PartSpans(Space, s, l, b4);
  }

  lemma AsciiBlanks(b: string)
    requires forall i :: 0 <= i < |b| ==> b[i] in {' ', '\t', '\n', '\r', 11 as char, 12 as char}
    ensures Blank(b)
  {
  }

  // A rate prints with the long name of a unit when its window is one, and in
  // seconds otherwise.
  lemma PrintsAs(r: Rate, name: string)
    requires r.Valid()
    ensures IsName(name, r.window) && name in {"second", "minute", "hour", "day"} ==> Print(r) == Compact(r.limit, None, name)
    ensures r.window !in {1, 60, 3600, 86400} ==> Print(r) == Compact(r.limit, Some(r.window), "seconds")
  {
    hide Decimal;
    assert Decimal(r.limit) + ['/'] + [] == Decimal(r.limit) + ['/'];
  }
}
