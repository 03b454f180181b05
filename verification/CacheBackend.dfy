// The cache backend's values in Redis, and clearing a group of them.
module CacheBackends {
  import opened Prelude
  import opened Texts
  import opened CacheKey
  import opened EvictionGroup

  // A value as Redis keeps it, with the expiry it was written with, in seconds.
  datatype Stored = Stored(text: string, expires: Option<int>)

  // A TTL as a caller gives it: none, whole seconds, or a time span in
  // microseconds.
  datatype Ttl = Omitted | Seconds(n: int) | Span(micros: int)

  function SecondsOf(ttl: Ttl, default: int): int {
    match ttl
    case Omitted => default
    case Seconds(n) => n
    case Span(us) =>
      if 0 < us < 1_000_000 then 1 else if us >= 0 then us / 1_000_000 else -(-us / 1_000_000)
  }

  function Expiry(ttl: Ttl, default: int): Option<int> {
    if SecondsOf(ttl, default) > 0 then Some(SecondsOf(ttl, default)) else None
  }

  // A positive span always expires, however short, and no later than it says
  // unless it is shorter than a second.
  lemma PositiveSpansExpire(us: int, default: int)
    ensures Expiry(Span(us), default).Some? <==> us > 0
    ensures us > 0 ==> var n := Expiry(Span(us), default).value; n >= 1 && (n == 1 || 1_000_000 * n <= us) && us < 1_000_000 * (n + 1)
  {
    assert us < 0 ==> -us / 1_000_000 >= 0;
  }

  // Whole seconds expire as they say, as a span of so many seconds does, and
  // without a TTL the default does; one that is not positive never expires.
  lemma SecondsExpire(n: int, default: int)
    ensures Expiry(Seconds(n), default) == Expiry(Span(1_000_000 * n), default) == Expiry(Omitted, n)
    ensures Expiry(Seconds(n), default).Some? <==> n > 0
    ensures n > 0 ==> Expiry(Seconds(n), default) == Some(n)
  {
    assert n < 0 ==> -(1_000_000 * n) == 1_000_000 * -n;
  }

  // What one whole scan for a pattern reports while nothing else writes: every
  // key that matches, in any order, some perhaps more than once, and no other.
  ghost predicate IsScan(entries: map<string, Stored>, pattern: string, found: seq<string>) {
    && (forall k :: k in entries && Matches(pattern, k) ==> k in found)
    && (forall i :: 0 <= i < |found| ==> Matches(pattern, found[i]))
  }

  ghost function Remaining(entries: map<string, Stored>, pattern: string): map<string, Stored> {
    map k | k in entries && !Matches(pattern, k) :: entries[k]
  }

  // What is left once these keys are deleted.
  function Minus(entries: map<string, Stored>, ks: seq<string>): map<string, Stored> {
    map k | k in entries && k !in ks :: entries[k]
  }

  lemma MinusAppends(entries: map<string, Stored>, a: seq<string>, b: seq<string>)
    ensures Minus(Minus(entries, a), b) == Minus(entries, a + b)
  {
  }

  lemma MinusNone(entries: map<string, Stored>)
    ensures Minus(entries, []) == entries
  {
  }

  lemma MinusOne(entries: map<string, Stored>, k: string)
    ensures Minus(entries, [k]) == entries - {k}
    ensures |entries - {k}| + (if k in entries then 1 else 0) == |entries|
  {
    if k in entries {
      assert entries == (entries - {k})[k := entries[k]];
    } else {
      assert entries - {k} == entries;
    }
  }

  lemma ScanRemoves(entries: map<string, Stored>, pattern: string, found: seq<string>)
    requires IsScan(entries, pattern, found)
    ensures Minus(entries, found) == Remaining(entries, pattern)
  {
  }

  lemma ConcatSnoc(pages: seq<seq<string>>, c: nat)
    requires c < |pages|
    ensures Concat(pages[..c + 1]) == Concat(pages[..c]) + pages[c]
  {
    assert pages[..c + 1] == pages[..c] + [pages[c]];
    ConcatAppends(pages[..c], [pages[c]]);
    assert Concat([pages[c]]) == pages[c] + Concat([pages[c]][1..]);
  }

  lemma ConcatOfNone()
    ensures Concat<string>([]) == []
  {
  }

  class Store {
    var entries: map<string, Stored>

    constructor ()
      ensures entries == map[]
    {
      entries := map[];
    }

    // UNLINK or DEL: answers how many of the keys were there.
    method Unlink(ks: seq<string>) returns (n: nat)
      modifies this
      ensures entries == Minus(old(entries), ks)
      ensures n + |entries| == |old(entries)|
    {
      hide Minus;
      n := 0;
      MinusNone(entries);
      for i := 0 to |ks|
        invariant entries == Minus(old(entries), ks[..i])
        invariant n + |entries| == |old(entries)|
      {
        assert ks[..i + 1] == ks[..i] + [ks[i]];
        MinusAppends(old(entries), ks[..i], [ks[i]]);
        MinusOne(entries, ks[i]);
        if ks[i] in entries {
          n := n + 1;
        }
        entries := entries - {ks[i]};
      }
      assert ks[..|ks|] == ks;
    }
  }

  class CacheBackend {
    const store: Store
    const prefix: string
    const group: string

    constructor (store: Store, prefix: string, group: string)
      ensures this.store == store && this.prefix == prefix && this.group == group
    {
      this.store, this.prefix, this.group := store, prefix, group;
    }

    // A call may name a group of its own.
    function GroupOf(named: Option<string>): string { if named.Some? then named.value else group }

    // A write that fails is swallowed.
    method Set(key: string, encoded: string, ttl: Ttl, defaultTtl: int, named: Option<string>, reachable: bool)
      modifies store
      ensures reachable ==>
                store.entries == old(store.entries)[BuildKey(prefix, GroupOf(named), key) := Stored(encoded, Expiry(ttl, defaultTtl))]
      ensures !reachable ==> store.entries == old(store.entries)
    {
      if reachable {
        store.entries := store.entries[BuildKey(prefix, GroupOf(named), key) := Stored(encoded, Expiry(ttl, defaultTtl))];
      }
    }

    // The default stands in for a missing value, one that does not decode, and
    // a read that fails.
    method Get<V>(key: string, decode: string -> Option<V>, default: Option<V>, named: Option<string>, reachable: bool)
      returns (value: Option<V>)
      ensures var k := BuildKey(prefix, GroupOf(named), key);
              value == if reachable && k in store.entries && decode(store.entries[k].text).Some? then decode(store.entries[k].text)
                       else default
    {
      var k := BuildKey(prefix, GroupOf(named), key);
      if !reachable || k !in store.entries {
        return default;
      }
      value := decode(store.entries[k].text);
      if value == None {
        value := default;
      }
    }

    method Delete(key: string, named: Option<string>, reachable: bool) returns (existed: bool)
      modifies store
      ensures var k := BuildKey(prefix, GroupOf(named), key);
              if reachable then store.entries == old(store.entries) - {k} && existed == (k in old(store.entries))
              else store.entries == old(store.entries) && !existed
    {
      if !reachable {
        return false;
      }
      var k := BuildKey(prefix, GroupOf(named), key);
      existed := k in store.entries;
      MinusOne(store.entries, k);
      var n := store.Unlink([k]);
    }

    // The script: page by page, and within a page at most 1000 keys to a call.
    // It may fail, after so many calls or, its work done, with the reply lost.
    method EvalDelete(pattern: string, pages: seq<seq<string>>, fails: Option<nat>) returns (total: Option<nat>)
      requires IsScan(store.entries, pattern, Concat(pages))
      modifies store
      ensures total == None <==> fails.Some?
      ensures fails == None ==>
                store.entries == Remaining(old(store.entries), pattern) && total.value + |store.entries| == |old(store.entries)|
      ensures PartOf(old(store.entries), store.entries, pattern)
      ensures |store.entries| <= |old(store.entries)|
    {
      hide Minus, Remaining, IsScan, Concat, PartOf;
      ScanRemoves(store.entries, pattern, Concat(pages));
      MinusNone(store.entries);
      ConcatOfNone();
      var sum: nat, calls: nat := 0, 0;
      for c := 0 to |pages|
        invariant store.entries == Minus(old(store.entries), Concat(pages[..c]))
        invariant sum + |store.entries| == |old(store.entries)|
      {
        var keys := pages[c];
        ConcatSnoc(pages, c);
        ghost var was := store.entries;
        MinusNone(was);
        MinusAppends(old(store.entries), Concat(pages[..c]), keys);
        var i := 0;
        while i < |keys|
          invariant 0 <= i <= |keys|
          invariant store.entries == Minus(was, keys[..i])
          invariant sum + |store.entries| == |old(store.entries)|
        {
          if fails == Some(calls) {
            MinusAppends(old(store.entries), Concat(pages[..c]), keys[..i]);
            PrefixRemoves(old(store.entries), pattern, pages, c, i);
            return None;
          }
          var j := if i + 1000 < |keys| then i + 1000 else |keys|;
          var n := store.Unlink(keys[i..j]);
          MinusAppends(was, keys[..i], keys[i..j]);
          assert keys[..j] == keys[..i] + keys[i..j];
          sum, calls := sum + n, calls + 1;
          i := j;
        }
        assert keys[..|keys|] == keys;
      }
      assert pages[..|pages|] == pages;
      AllIsPart(old(store.entries), pattern);
      total := if fails == None then Some(sum) else None;
    }

    // Without scripting: one scan, deleted in batches of 1000.  An error ends
    // it after so many batches, and what was deleted by then is counted.
    method ScanDelete(pattern: string, found: seq<string>, through: Option<nat>) returns (deleted: nat)
      requires IsScan(store.entries, pattern, found)
      requires through.Some? ==> 1000 * through.value <= |found|
      modifies store
      ensures through == None ==> store.entries == Remaining(old(store.entries), pattern)
      ensures through.Some? ==> store.entries == Minus(old(store.entries), found[..1000 * through.value])
      ensures deleted + |store.entries| == |old(store.entries)|
    {
      hide Minus, Remaining, IsScan;
      ScanRemoves(store.entries, pattern, found);
      MinusNone(store.entries);
      deleted := 0;
      var batch: seq<string> := [];
      var done := 0;
      for i := 0 to |found|
        invariant i == 1000 * done + |batch| && |batch| < 1000 && batch == found[1000 * done..i]
        invariant through.Some? ==> done <= through.value
        invariant store.entries == Minus(old(store.entries), found[..1000 * done])
        invariant deleted + |store.entries| == |old(store.entries)|
      {
        batch := batch + [found[i]];
        if |batch| >= 1000 {
          if through == Some(done) {
            return;
          }
          var n := store.Unlink(batch);
          deleted := deleted + n;
          MinusAppends(old(store.entries), found[..1000 * done], batch);
          assert found[..i + 1] == found[..1000 * done] + batch;
          batch, done := [], done + 1;
        }
      }
      if through.Some? {
        return;
      }
      if batch != [] {
        var n := store.Unlink(batch);
        deleted := deleted + n;
        MinusAppends(old(store.entries), found[..1000 * done], batch);
        assert found == found[..1000 * done] + batch;
      } else {
        assert found[..|found|] == found;
      }
    }

    // Clears the group by the script or, when that fails, by a scan, and
    // answers how many keys went: all of them if the script did not fail, and
    // never more than went.
    method DeleteGroup(named: Option<string>, pages: seq<seq<string>>, fails: Option<nat>, found: seq<string>, through: Option<nat>)
      returns (count: nat)
      requires IsScan(store.entries, GroupPattern(prefix, GroupOf(named)), Concat(pages))
      requires IsScan(store.entries, GroupPattern(prefix, GroupOf(named)), found)
      requires through.Some? ==> 1000 * through.value <= |found|
      modifies store
      ensures var pattern := GroupPattern(prefix, GroupOf(named));
              && PartOf(old(store.entries), store.entries, pattern)
              && (fails == None || through == None ==> store.entries == Remaining(old(store.entries), pattern))
      ensures count + |store.entries| <= |old(store.entries)|
      ensures fails == None ==> count + |store.entries| == |old(store.entries)|
      // so of the keys there were, those under the group's prefix are gone, and
      // no others
      ensures GlobFree(prefix) ==>
                forall k :: k in old(store.entries) ==>
                  && (k !in store.entries ==> Starts(GroupPrefix(prefix, GroupOf(named)), k))
                  && (fails == None || through == None ==>
                        (k in store.entries <==> !Starts(GroupPrefix(prefix, GroupOf(named)), k)))
    {
      var pattern := GroupPattern(prefix, GroupOf(named));
      var total := EvalDelete(pattern, pages, fails);
      if total.Some? {
        count := total.value;
      } else {
        FewerIsScan(old(store.entries), store.entries, pattern, found);
        ghost var between := store.entries;
        count := ScanDelete(pattern, found, through);
        FallbackLeaves(old(store.entries), between, store.entries, pattern, found, through);
      }
      if GlobFree(prefix) {
        forall k ensures Matches(pattern, k) <==> Starts(GroupPrefix(prefix, GroupOf(named)), k) {
          PatternSelectsPrefix(prefix, GroupOf(named), k);
        }
      }
    }
  }

  // A call that names a group uses it, whatever the backend's own is, and one
  // that names none the backend's: so two backends meet in a group exactly
  // when one is named what the other is.
  lemma GroupsAreShared(a: CacheBackend, b: CacheBackend, name: string)
    ensures a.GroupOf(None) == b.GroupOf(Some(a.group))
    ensures a.GroupOf(None) == b.GroupOf(None) <==> a.group == b.group
    ensures a.GroupOf(Some(name)) == b.GroupOf(None) <==> name == b.group
  {
  }

  // Within a group two keys are two values.
  lemma KeysAreApart(prefix: string, group: string, a: string, b: string)
    ensures BuildKey(prefix, group, a) == BuildKey(prefix, group, b) <==> a == b
  {
    BuiltKeyIs(prefix, group, a);
    BuiltKeyIs(prefix, group, b);
    var front := GroupPrefix(prefix, group);
    hide BuildKey, GroupPrefix;
    assert (front + a)[|front|..] == a && (front + b)[|front|..] == b;
  }

  // Some of what matches is gone, and nothing else is.
  ghost predicate PartOf(before: map<string, Stored>, now: map<string, Stored>, pattern: string) {
    && (forall k :: k in now ==> k in before && now[k] == before[k])
    && (forall k :: k in before && k !in now ==> Matches(pattern, k))
  }

  lemma AllIsPart(entries: map<string, Stored>, pattern: string)
    ensures PartOf(entries, Remaining(entries, pattern), pattern)
  {
  }

  lemma PrefixRemoves(entries: map<string, Stored>, pattern: string, pages: seq<seq<string>>, c: nat, i: nat)
    requires c < |pages| && i <= |pages[c]| && IsScan(entries, pattern, Concat(pages))
    ensures PartOf(entries, Minus(entries, Concat(pages[..c]) + pages[c][..i]), pattern)
  {
    var removed := Concat(pages[..c]) + pages[c][..i];
    ConcatSnoc(pages, c);
    assert pages == pages[..c + 1] + pages[c + 1..];
    ConcatAppends(pages[..c + 1], pages[c + 1..]);
    assert forall n :: 0 <= n < |removed| ==> removed[n] == Concat(pages)[n];
  }

  lemma FewerIsScan(before: map<string, Stored>, now: map<string, Stored>, pattern: string, found: seq<string>)
    requires IsScan(before, pattern, found) && PartOf(before, now, pattern)
    ensures IsScan(now, pattern, found)
  {
  }

  lemma FallbackLeaves(before: map<string, Stored>, between: map<string, Stored>, now: map<string, Stored>, pattern: string,
                       found: seq<string>, through: Option<nat>)
    requires PartOf(before, between, pattern) && IsScan(between, pattern, found)
    requires through.Some? ==> 1000 * through.value <= |found|
    requires now == if through == None then Remaining(between, pattern) else Minus(between, found[..1000 * through.value])
    ensures PartOf(before, now, pattern)
    ensures through == None ==> now == Remaining(before, pattern)
  {
  }
}
