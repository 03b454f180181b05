// Small vocabulary shared by every module.
module Prelude {

  datatype Option<+T> = None | Some(value: T)

  datatype Result<+T> = Ok(value: T) | Err(message: string)

  lemma SeqSplits<T>(s: seq<T>, i: nat)
    requires i < |s|
    ensures s == s[..i] + [s[i]] + s[i + 1..]
  {
  }

  // The elements of a sequence that satisfy p, in order.
  function Keep<T>(p: T -> bool, s: seq<T>): (r: seq<T>)
  {
    if s == [] then [] else (if p(s[0]) then [s[0]] else []) + Keep(p, s[1..])
  }

  lemma KeepIs<T>(p: T -> bool, s: seq<T>)
    ensures Keep(p, s) == if s == [] then [] else (if p(s[0]) then [s[0]] else []) + Keep(p, s[1..])
  {
  }

  lemma {:induction false} KeepAppends<T>(p: T -> bool, a: seq<T>, b: seq<T>)
    ensures Keep(p, a + b) == Keep(p, a) + Keep(p, b)
  {
    hide Keep;
    KeepIs(p, a);
    if a == [] {
      assert a + b == b;
    } else {
      KeepIs(p, a + b);
      KeepAppends(p, a[1..], b);
      assert (a + b)[1..] == a[1..] + b;
    }
  }

  function Concat<T>(parts: seq<seq<T>>): (r: seq<T>)
  {
    if parts == [] then [] else parts[0] + Concat(parts[1..])
  }

  lemma ConcatIs<T>(parts: seq<seq<T>>)
    ensures Concat(parts) == if parts == [] then [] else parts[0] + Concat(parts[1..])
  {
  }

  lemma {:induction false} ConcatAppends<T>(a: seq<seq<T>>, b: seq<seq<T>>)
    ensures Concat(a + b) == Concat(a) + Concat(b)
  {
    hide Concat;
    ConcatIs(a);
    if a == [] {
      assert a + b == b;
    } else {
      ConcatIs(a + b);
      ConcatAppends(a[1..], b);
      assert (a + b)[1..] == a[1..] + b;
    }
  }
}
