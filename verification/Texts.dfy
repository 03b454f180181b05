// Joining pieces with a separator, and taking them apart again.
module Texts {
  import opened Prelude

  function Join(parts: seq<string>, sep: char): string {
    if parts == [] then ""
    else if |parts| == 1 then parts[0]
    else parts[0] + [sep] + Join(parts[1..], sep)
  }

  function Split(s: string, sep: char): (parts: seq<string>)
    ensures |parts| >= 1
  {
    if s == "" then [""]
    else
      var rest := Split(s[1..], sep);
      if s[0] == sep then [""] + rest else [[s[0]] + rest[0]] + rest[1..]
  }

  // Up to a separator, the text before it is one piece.
  lemma {:induction false} SplitFirst(a: string, b: string, sep: char)
    requires sep !in a
    ensures Split(a, sep) == [a]
    ensures Split(a + [sep] + b, sep) == [a] + Split(b, sep)
  {
    if a == "" {
      assert (a + [sep] + b)[1..] == b;
    } else {
      SplitFirst(a[1..], b, sep);
      assert (a + [sep] + b)[1..] == a[1..] + [sep] + b;
      assert a == [a[0]] + a[1..];
    }
  }

  ghost predicate Free(parts: seq<string>, sep: char) { forall i :: 0 <= i < |parts| ==> sep !in parts[i] }

  // Pieces that hold no separator come back as they went in.
  lemma {:induction false} SplitJoin(parts: seq<string>, sep: char)
    requires parts != [] && Free(parts, sep)
    ensures Split(Join(parts, sep), sep) == parts
  {
    if |parts| == 1 {
      SplitFirst(parts[0], "", sep);
    } else {
      var rest := parts[1..];
      assert Free(rest, sep);
      SplitJoin(rest, sep);
      SplitFirst(parts[0], Join(rest, sep), sep);
      assert Join(parts, sep) == parts[0] + [sep] + Join(rest, sep);
      assert parts == [parts[0]] + rest;
    }
  }

  // A separator in front, or another character on the first piece.
  lemma JoinSplitFirst(c: char, rest: seq<string>, sep: char)
    requires rest != [] && Free(rest, sep)
    ensures Join([""] + rest, sep) == [sep] + Join(rest, sep) && Free([""] + rest, sep)
    ensures Join([[c] + rest[0]] + rest[1..], sep) == [c] + Join(rest, sep)
    ensures c != sep ==> Free([[c] + rest[0]] + rest[1..], sep)
  {
    assert ([""] + rest)[1..] == rest;
    assert ([[c] + rest[0]] + rest[1..])[1..] == rest[1..];
  }

  // Splitting yields such pieces, and loses nothing.
  lemma {:induction false} JoinSplit(s: string, sep: char)
    ensures Free(Split(s, sep), sep) && Join(Split(s, sep), sep) == s
  {
    if s == "" {
    } else {
      JoinSplit(s[1..], sep);
      JoinSplitFirst(s[0], Split(s[1..], sep), sep);
      hide Join, Free;
      assert s == [s[0]] + s[1..];
    }
  }

  lemma {:induction false} JoinAppends(a: seq<string>, b: seq<string>, sep: char)
    requires a != [] && b != []
    ensures Join(a + b, sep) == Join(a, sep) + [sep] + Join(b, sep)
  {
    if |a| == 1 {
      assert (a + b)[1..] == b;
    } else {
      assert (a + b)[1..] == a[1..] + b;
      JoinAppends(a[1..], b, sep);
    }
  }

  lemma {:induction false} JoinedChars(parts: seq<string>, sep: char, c: char)
    ensures c in Join(parts, sep) ==> c == sep || exists i :: 0 <= i < |parts| && c in parts[i]
  {
    if |parts| > 1 {
      JoinedChars(parts[1..], sep, c);
      if c in Join(parts[1..], sep) && c != sep {
        var i :| 0 <= i < |parts[1..]| && c in parts[1..][i];
        assert c in parts[i + 1];
      }
    }
  }

  // Both ends stripped of the characters to drop.
  function Trim(s: string, drop: char -> bool): string
    decreases |s|
  {
    if s == "" then s
    else if drop(s[0]) then Trim(s[1..], drop)
    else if drop(s[|s| - 1]) then Trim(s[..|s| - 1], drop)
    else s
  }

  // s[i..j] is what is left: only what is to be dropped lies outside it, and
  // neither of its ends is.
  ghost predicate TrimsTo(s: string, drop: char -> bool, i: nat, j: nat) {
    && i <= j <= |s|
    && (forall k :: 0 <= k < i || j <= k < |s| ==> drop(s[k]))
    && (i < j ==> !drop(s[i]) && !drop(s[j - 1]))
  }

  lemma TrimsFront(s: string, drop: char -> bool, i: nat, j: nat)
    requires s != "" && drop(s[0]) && TrimsTo(s[1..], drop, i, j)
    ensures TrimsTo(s, drop, i + 1, j + 1) && s[1..][i..j] == s[i + 1..j + 1]
  {
    assert forall k :: 1 <= k < |s| ==> s[k] == s[1..][k - 1];
  }

  lemma TrimsBack(s: string, drop: char -> bool, i: nat, j: nat)
    requires s != "" && drop(s[|s| - 1]) && TrimsTo(s[..|s| - 1], drop, i, j)
    ensures TrimsTo(s, drop, i, j) && s[..|s| - 1][i..j] == s[i..j]
  {
  }

  lemma {:induction false} TrimIs(s: string, drop: char -> bool) returns (i: nat, j: nat)
    ensures TrimsTo(s, drop, i, j) && Trim(s, drop) == s[i..j]
    decreases |s|
  {
    if s == "" {
      i, j := 0, 0;
    } else if drop(s[0]) {
      i, j := TrimIs(s[1..], drop);
      TrimsFront(s, drop, i, j);
      i, j := i + 1, j + 1;
    } else if drop(s[|s| - 1]) {
      i, j := TrimIs(s[..|s| - 1], drop);
      TrimsBack(s, drop, i, j);
    } else {
      i, j := 0, |s|;
    }
  }

  // -- UTF-8 -----------------------------------------------------------------

  // The bytes of a character, each as the character with that code.
  function Utf8Char(c: char): (r: string)
    ensures 1 <= |r| && (|r| == 1 <==> c as int < 0x80) && (|r| == 1 ==> r == [c])
    ensures |r| == Width(r[0]) && CodeOf(r) == c as int
    ensures Bytes(r)
  {
    var n := c as int;
    var low, a := n % 0x40, n / 0x40;
    var b := a / 0x40;
    if n < 0x80 then [c]
    else if n < 0x800 then [(0xC0 + a) as char, (0x80 + low) as char]
    else if n < 0x10000 then [(0xE0 + b) as char, (0x80 + a % 0x40) as char, (0x80 + low) as char]
    else [(0xF0 + b / 0x40) as char, (0x80 + b % 0x40) as char, (0x80 + a % 0x40) as char, (0x80 + low) as char]
  }

  // How many bytes the first one announces, and what they spell.
  function Width(lead: char): nat {
    if lead as int < 0x80 then 1 else if lead as int < 0xE0 then 2 else if lead as int < 0xF0 then 3 else 4
  }

  function CodeOf(r: string): int
    requires |r| >= 1
  {
    if |r| == 1 then r[0] as int
    else if |r| == 2 then (r[0] as int - 0xC0) * 0x40 + (r[1] as int - 0x80)
    else if |r| == 3 then ((r[0] as int - 0xE0) * 0x40 + (r[1] as int - 0x80)) * 0x40 + (r[2] as int - 0x80)
    else if |r| == 4 then
      (((r[0] as int - 0xF0) * 0x40 + (r[1] as int - 0x80)) * 0x40 + (r[2] as int - 0x80)) * 0x40 + (r[3] as int - 0x80)
    else 0
  }

  predicate Bytes(s: string) { forall i :: 0 <= i < |s| ==> s[i] as int < 0x100 }

  function Utf8(s: string): (r: string)
    ensures Bytes(r)
  {
    if s == "" then "" else Utf8Char(s[0]) + Utf8(s[1..])
  }

  predicate Ascii(s: string) { forall i :: 0 <= i < |s| ==> s[i] as int < 0x80 }

  // UTF-8 changes nothing exactly when there is nothing but ASCII.
  lemma {:induction false} Utf8IsAscii(s: string)
    ensures |Utf8(s)| >= |s| && (Utf8(s) == s <==> Ascii(s)) && (|Utf8(s)| == |s| ==> Ascii(s))
  {
    if s == "" {
    } else {
      Utf8IsAscii(s[1..]);
      assert s == [s[0]] + s[1..];
    }
  }

  // The bytes of two characters agree as far as they go only if they are one.
  lemma Utf8CharDecodes(c: char, d: char, x: string, y: string)
    requires Utf8Char(c) + x == Utf8Char(d) + y
    ensures c == d && x == y
  {
    hide Utf8Char, CodeOf;
    var u, v := Utf8Char(c), Utf8Char(d);
    assert (u + x)[0] == u[0] && (v + y)[0] == v[0];
    assert (u + x)[..|u|] == u && (v + y)[..|v|] == v;
    assert (u + x)[|u|..] == x && (v + y)[|v|..] == y;
  }

  lemma {:induction false} Utf8IsInjective(a: string, b: string)
    requires Utf8(a) == Utf8(b)
    ensures a == b
  {
    if a == "" || b == "" {
    } else {
      Utf8CharDecodes(a[0], b[0], Utf8(a[1..]), Utf8(b[1..]));
      Utf8IsInjective(a[1..], b[1..]);
      assert a == [a[0]] + a[1..] && b == [b[0]] + b[1..];
    }
  }

  predicate Scalar(n: int) { 0 <= n < 0xD800 || 0xE000 <= n <= 0x10FFFF }

  // bytes.decode: strict, so that only the one encoding of a character is read.
  function DecodeUtf8(s: string): Option<string> {
    if s == "" then Some("")
    else
      var w := Width(s[0]);
      if |s| < w || !Scalar(CodeOf(s[..w])) || Utf8Char(CodeOf(s[..w]) as char) != s[..w] then None
      else
        var rest := DecodeUtf8(s[w..]);
        if rest == None then None else Some([CodeOf(s[..w]) as char] + rest.value)
  }

  // What decodes encodes to the same bytes,
  lemma {:induction false} DecodedEncodes(s: string)
    ensures DecodeUtf8(s).Some? ==> Utf8(DecodeUtf8(s).value) == s
  {
    hide Utf8Char, CodeOf, Width, Scalar;
    if s != "" && DecodeUtf8(s).Some? {
      var w := Width(s[0]);
      DecodedEncodes(s[w..]);
      var t := DecodeUtf8(s).value;
      assert t[1..] == DecodeUtf8(s[w..]).value;
      assert s == s[..w] + s[w..];
    }
  }

  // and every encoded text decodes.
  lemma {:induction false} EncodedDecodes(t: string)
    ensures DecodeUtf8(Utf8(t)) == Some(t)
  {
    hide Utf8Char, CodeOf, Width;
    if t == "" {
    } else {
      EncodedDecodes(t[1..]);
      var u, s := Utf8Char(t[0]), Utf8(t);
      assert s == u + Utf8(t[1..]);
      assert s[0] == u[0] && s[..|u|] == u && s[|u|..] == Utf8(t[1..]);
      assert t == [t[0]] + t[1..];
    }
  }
}
