// A session store run one operation at a time is no more than its history: the
// two clocks in Redis decide exactly what a look at the past would.
module History {
  import opened Prelude
  import opened Payloads
  import opened SessionServer
  import opened Lifecycle
  import opened SessionOps
  import opened SessionStores

  datatype Op =
    | Create(id: Id, record: Record)
    | Load(id: Id, refresh: bool)
    | Save(id: Id, record: Record)
    | Touch(id: Id)
    | Delete(id: Id)
    | Wait(seconds: nat)

  // What an operation run to its end does to the server.
  function Apply(k: Clocks, op: Op, s: Server): Server {
    match op
    case Create(id, record) => ExecAll(CreateCmds(k, id, record), s)
    case Load(id, refresh) => ExecAll(LoadCmds(k, s, id, refresh), s)
    case Save(id, record) => ExecAll(SaveCmds(k, id, record), s)
    case Touch(id) => ExecAll([HExpire(id, k.idle)], s)
    case Delete(id) => ExecAll([Del(id)], s)
    case Wait(seconds) => Tick(s, seconds)
  }

  function After(k: Clocks, h: seq<Op>): Server {
    if h == [] then EMPTY_SERVER else Apply(k, h[|h| - 1], After(k, h[..|h| - 1]))
  }

  // Identifiers are created once, before anybody else uses them.
  ghost predicate WellFormed(h: seq<Op>) {
    forall i, j :: 0 <= i < j < |h| && h[j].Create? && !h[i].Wait? ==> h[i].id != h[j].id
  }

  // -- the specification: nothing but the past -------------------------------

  // The time at which operation i happens, and the time now for i == |h|.
  function At(h: seq<Op>, i: nat): nat
    requires i <= |h|
  {
    if i == 0 then 0 else At(h, i - 1) + (if h[i - 1].Wait? then h[i - 1].seconds else 0)
  }

  predicate Writes(op: Op, id: Id) { (op.Create? || op.Save?) && op.id == id }

  predicate Refreshes(op: Op, id: Id) {
    (op.Create? || op.Save? || op.Touch? || (op.Load? && op.refresh)) && op.id == id
  }

  // The idle clock restarted at i was restarted again, or read, in time.
  ghost predicate InTime(k: Clocks, h: seq<Op>, id: Id, i: nat)
    requires i < |h|
  {
    || At(h, |h|) < At(h, i) + k.idle
    || exists i' :: i < i' < |h| && Refreshes(h[i'], id) && At(h, i') < At(h, i) + k.idle
  }

  // Created at c and never deleted, younger than the absolute limit, and with
  // every gap between refreshes shorter than the idle limit.
  ghost predicate AliveSince(k: Clocks, h: seq<Op>, id: Id, c: nat)
    requires c < |h|
  {
    && h[c].Create? && h[c].id == id
    && (forall d :: c < d < |h| ==> h[d] != Delete(id))
    && At(h, |h|) < At(h, c) + k.absolute
    && forall i :: c <= i < |h| && Refreshes(h[i], id) ==> InTime(k, h, id, i)
  }

  ghost predicate Alive(k: Clocks, h: seq<Op>, id: Id) {
    exists c :: 0 <= c < |h| && AliveSince(k, h, id, c)
  }

  // The latest operation that restarted the idle clock.
  ghost predicate LastRefresh(h: seq<Op>, id: Id, r: nat) {
    r < |h| && Refreshes(h[r], id) && forall i :: r < i < |h| ==> !Refreshes(h[i], id)
  }

  ghost predicate LastWrite(h: seq<Op>, id: Id, w: nat) {
    w < |h| && Writes(h[w], id) && forall i :: w < i < |h| ==> !Writes(h[i], id)
  }

  // -- the server keeps the past ---------------------------------------------

  lemma {:induction false} AtPrefix(h: seq<Op>, n: nat, i: nat)
    requires i <= n <= |h|
    ensures At(h[..n], i) == At(h, i)
  {
    if i > 0 { AtPrefix(h, n, i - 1); }
  }

  lemma {:induction false} AtGrows(h: seq<Op>, i: nat, j: nat)
    requires i <= j <= |h|
    ensures At(h, i) <= At(h, j)
    decreases j
  {
    if i == j {
    } else {
      AtGrows(h, i, j - 1);
    }
  }

  lemma AtLast(h: seq<Op>)
    requires h != []
    ensures At(h, |h|) == At(h, |h| - 1) + (if h[|h| - 1].Wait? then h[|h| - 1].seconds else 0)
  {
  }

  // The life an id is in the middle of: its creation, its last refresh and its
  // last write.
  datatype Life = Over | Since(c: nat, r: nat, w: nat)

  function LifeOf(k: Clocks, h: seq<Op>, id: Id): (l: Life)
    ensures l.Since? ==> l.c < |h| && l.r < |h| && l.w < |h|
  {
    if h == [] then Over
    else
      var n := |h| - 1;
      var l := LifeOf(k, h[..n], id);
      Continue(k, h, id, l)
  }

  function Continue(k: Clocks, h: seq<Op>, id: Id, l: Life): (l': Life)
    requires h != []
    requires l.Since? ==> l.c < |h| - 1 && l.r < |h| - 1 && l.w < |h| - 1
    ensures l'.Since? ==> l'.c < |h| && l'.r < |h| && l'.w < |h|
  {
    var n := |h| - 1;
    match h[n]
    case Create(x, _) => if x == id then Since(n, n, n) else l
    case Delete(x) => if x == id then Over else l
    case Save(x, _) => if x == id && l.Since? then Since(l.c, n, n) else l
    case Touch(x) => if x == id && l.Since? then Since(l.c, n, l.w) else l
    case Load(x, refresh) => if x == id && refresh && l.Since? then Since(l.c, n, l.w) else l
    case Wait(_) =>
      if l.Since? && At(h, n + 1) < At(h, l.c) + k.absolute && At(h, n + 1) < At(h, l.r) + k.idle then l else Over
  }

  // -- the specification follows the life ------------------------------------

  ghost predicate SpecFollows(k: Clocks, h: seq<Op>, id: Id, l: Life)
    requires l.Since? ==> l.c < |h| && l.r < |h| && l.w < |h|
  {
    match l
    case Over => !Alive(k, h, id)
    case Since(c, r, w) => AliveSince(k, h, id, c) && LastRefresh(h, id, r) && LastWrite(h, id, w) && c <= r && c <= w
  }

  lemma PrefixAt(h: seq<Op>)
    requires h != []
    ensures forall i :: 0 <= i < |h| ==> At(h[..|h| - 1], i) == At(h, i)
    ensures forall i, j :: 0 <= i <= j <= |h| ==> At(h, i) <= At(h, j)
  {
    forall i | 0 <= i < |h| ensures At(h[..|h| - 1], i) == At(h, i) { AtPrefix(h, |h| - 1, i); }
    forall i, j | 0 <= i <= j <= |h| ensures At(h, i) <= At(h, j) { AtGrows(h, i, j); }
  }

  // What is alive after one more operation was alive before it, unless it was
  // created by it.
  lemma AliveBefore(k: Clocks, h: seq<Op>, id: Id, c: nat)
    requires h != [] && c < |h| - 1 && AliveSince(k, h, id, c)
    ensures AliveSince(k, h[..|h| - 1], id, c)
  {
    var n := |h| - 1;
    var f := h[..n];
    PrefixAt(h);
    assert At(f, n) == At(h, n) <= At(h, |h|);
    forall d | c < d < n ensures f[d] != Delete(id) { assert h[d] != Delete(id); }
    forall i | c <= i < n && Refreshes(f[i], id) ensures InTime(k, f, id, i) {
      assert InTime(k, h, id, i);
      if i' :| i < i' < |h| && Refreshes(h[i'], id) && At(h, i') < At(h, i) + k.idle {
        if i' < n { assert Refreshes(f[i'], id); }
      }
    }
  }

  // A life goes on through any operation but its deletion and a fatal wait.
  lemma {:induction false} AliveAfter(k: Clocks, h: seq<Op>, id: Id, c: nat, r: nat)
    requires h != [] && c <= r < |h| - 1 && k.Valid()
    requires AliveSince(k, h[..|h| - 1], id, c) && LastRefresh(h[..|h| - 1], id, r)
    requires h[|h| - 1] != Delete(id)
    requires At(h, |h|) < At(h, c) + k.absolute && At(h, |h|) < At(h, r) + k.idle
    ensures AliveSince(k, h, id, c)
  {
    hide At;
    var n := |h| - 1;
    var f := h[..n];
    PrefixAt(h);
    forall d | c < d < |h| ensures h[d] != Delete(id) { if d < n { assert f[d] != Delete(id); } }
    forall i | c <= i < |h| && Refreshes(h[i], id) ensures InTime(k, h, id, i) {
      if i < n {
        assert Refreshes(f[i], id) && InTime(k, f, id, i);
        if i < r {
          // the last refresh is itself in time, or another before it is
          AtGrows(f, r, n);
          assert Refreshes(f[r], id);
          var i' :| i < i' < n && Refreshes(f[i'], id) && At(f, i') < At(f, i) + k.idle;
          assert Refreshes(h[i'], id);
        }
      }
    }
  }

  lemma CreatedOnce(h: seq<Op>, id: Id, c: nat, c': nat)
    requires WellFormed(h) && c < |h| && c' < |h|
    requires h[c].Create? && h[c].id == id && h[c'].Create? && h[c'].id == id
    ensures c == c'
  {
  }

  lemma WaitKills(k: Clocks, h: seq<Op>, id: Id, c: nat, r: nat)
    requires h != [] && WellFormed(h) && c <= r < |h| - 1 && h[|h| - 1].Wait?
    requires h[c].Create? && h[c].id == id && LastRefresh(h[..|h| - 1], id, r)
    requires At(h, |h|) >= At(h, c) + k.absolute || At(h, |h|) >= At(h, r) + k.idle
    ensures !Alive(k, h, id)
  {
    var f := h[..|h| - 1];
    assert h[r] == f[r];
    forall i' | r < i' < |h| ensures !Refreshes(h[i'], id) { assert i' < |h| - 1 ==> h[i'] == f[i']; }
    AtGrows(h, c, r);
    forall c' | 0 <= c' < |h| ensures !AliveSince(k, h, id, c') {
      if h[c'].Create? && h[c'].id == id { CreatedOnce(h, id, c, c'); }
    }
  }

  lemma LastOnes(h: seq<Op>, id: Id, r: nat, w: nat)
    requires h != [] && LastRefresh(h[..|h| - 1], id, r) && LastWrite(h[..|h| - 1], id, w)
    ensures LastRefresh(h, id, if Refreshes(h[|h| - 1], id) then |h| - 1 else r)
    ensures LastWrite(h, id, if Writes(h[|h| - 1], id) then |h| - 1 else w)
  {
    var f := h[..|h| - 1];
    assert forall i :: 0 <= i < |f| ==> h[i] == f[i];
  }

  lemma StaysOver(k: Clocks, h: seq<Op>, id: Id)
    requires h != [] && !Alive(k, h[..|h| - 1], id) && !(h[|h| - 1].Create? && h[|h| - 1].id == id)
    ensures !Alive(k, h, id)
  {
    if c :| 0 <= c < |h| && AliveSince(k, h, id, c) { AliveBefore(k, h, id, c); }
  }

  lemma CreatedNow(k: Clocks, h: seq<Op>, id: Id)
    requires k.Valid() && h != [] && h[|h| - 1].Create? && h[|h| - 1].id == id
    ensures AliveSince(k, h, id, |h| - 1) && LastRefresh(h, id, |h| - 1) && LastWrite(h, id, |h| - 1)
  {
    hide At;
    AtLast(h);
  }

  lemma DeletedNow(k: Clocks, h: seq<Op>, id: Id)
    requires h != [] && h[|h| - 1] == Delete(id)
    ensures !Alive(k, h, id)
  {
    hide At, InTime;
  }

  lemma {:induction false} SpecFollowsLife(k: Clocks, h: seq<Op>, id: Id)
    requires k.Valid() && WellFormed(h)
    ensures SpecFollows(k, h, id, LifeOf(k, h, id))
  {
    if h == [] {
    } else {
      SpecFollowsLife(k, h[..|h| - 1], id);
      SpecFollowsOne(k, h, id, LifeOf(k, h[..|h| - 1], id));
    }
  }

  lemma SpecFollowsOne(k: Clocks, h: seq<Op>, id: Id, l: Life)
    requires k.Valid() && WellFormed(h) && h != []
    requires l.Since? ==> l.c < |h| - 1 && l.r < |h| - 1 && l.w < |h| - 1
    requires SpecFollows(k, h[..|h| - 1], id, l)
    ensures SpecFollows(k, h, id, Continue(k, h, id, l))
  {
    hide At, InTime, Alive, LastRefresh, LastWrite;
    var n := |h| - 1;
    PrefixAt(h);
    if h[n].Create? && h[n].id == id {
      CreatedNow(k, h, id);
    } else if l.Over? {
      StaysOver(k, h, id);
    } else {
      LastOnes(h, id, l.r, l.w);
      assert h[l.c] == h[..n][l.c];
      if h[n] == Delete(id) {
        DeletedNow(k, h, id);
      } else if h[n].Wait? && Continue(k, h, id, l).Over? {
        WaitKills(k, h, id, l.c, l.r);
      } else {
        LifeGoesOn(k, h, id, l);
      }
    }
  }

  lemma LifeGoesOn(k: Clocks, h: seq<Op>, id: Id, l: Life)
    requires k.Valid() && h != [] && l.Since? && l.c < |h| - 1 && l.r < |h| - 1 && l.w < |h| - 1
    requires SpecFollows(k, h[..|h| - 1], id, l) && h[|h| - 1] != Delete(id)
    requires h[|h| - 1].Wait? ==> Continue(k, h, id, l).Since?
    ensures AliveSince(k, h, id, l.c)
  {
    var n := |h| - 1;
    hide At, InTime, LastWrite;
    PrefixAt(h);
    AtLast(h);
    if !h[n].Wait? { LastIsRecent(k, h[..n], id, l.c, l.r); }
    AliveAfter(k, h, id, l.c, l.r);
  }

  // A life that is not over has its last refresh still in force.
  lemma LastIsRecent(k: Clocks, h: seq<Op>, id: Id, c: nat, r: nat)
    requires c <= r < |h| && AliveSince(k, h, id, c) && LastRefresh(h, id, r)
    ensures At(h, |h|) < At(h, r) + k.idle
  {
    assert InTime(k, h, id, r);
  }

  // -- the server follows the life -------------------------------------------

  function Key(s: Server, id: Id): Option<Hash> { if id in s.keys then Some(s.keys[id]) else None }

  // What one operation does to the key of one id.
  function Effect(k: Clocks, op: Op, id: Id, key: Option<Hash>, now: nat): Option<Hash> {
    if op.Wait? then
      if key.Some? && Expired(key.value, now + op.seconds) then None else key
    else if op.id != id then key
    else
      match op
      case Create(_, record) => Some(Hash(record, now + k.idle, Some(now + k.absolute)))
      case Save(_, record) => Some(Hash(record, now + k.idle, if key.Some? then key.value.deadline else None))
      case Touch(_) => if key.Some? then Some(key.value.(idleAt := now + k.idle)) else None
      case Delete(_) => None
      case Load(_, refresh) =>
        if key == None || key.value.deadline == None || key.value.deadline.value <= now then None
        else if refresh then Some(key.value.(idleAt := now + k.idle))
        else key
  }

  lemma EffectIs(k: Clocks, op: Op, s: Server, id: Id)
    ensures Key(Apply(k, op, s), id) == Effect(k, op, id, Key(s, id), s.now)
    ensures Apply(k, op, s).now == s.now + (if op.Wait? then op.seconds else 0)
  {
    match op {
      case Create(x, record) => ExecPair(HSetEx(x, record, k.idle), Expire(x, k.absolute), s);
      case Load(x, refresh) => LoadRuns(k, s, x, refresh);
      case Save(x, record) => ExecOne(HSetEx(x, record, k.idle), s);
      case Touch(x) => ExecOne(HExpire(x, k.idle), s);
      case Delete(x) => ExecOne(Del(x), s);
      case Wait(_) =>
    }
  }

  // The key a life leaves behind: none, or one without a deadline, when over.
  predicate KeyFollows(k: Clocks, h: seq<Op>, id: Id, l: Life, key: Option<Hash>)
    requires l.Since? ==> l.c < |h| && l.r < |h| && l.w < |h|
  {
    match l
    case Over => key.Some? ==> key.value.deadline == None
    case Since(c, r, w) =>
      Writes(h[w], id) && key == Some(Hash(h[w].record, At(h, r) + k.idle, Some(At(h, c) + k.absolute)))
  }

  predicate Current(key: Option<Hash>, now: nat) { key.Some? ==> !Expired(key.value, now) }

  predicate Mentioned(h: seq<Op>, id: Id) { exists i :: 0 <= i < |h| && !h[i].Wait? && h[i].id == id }

  ghost predicate ServerFollows(k: Clocks, h: seq<Op>, id: Id, l: Life)
    requires l.Since? ==> l.c < |h| && l.r < |h| && l.w < |h|
  {
    var s := After(k, h);
    && s.now == At(h, |h|)
    && Current(Key(s, id), s.now)
    && (Key(s, id).Some? ==> Mentioned(h, id))
    && KeyFollows(k, h, id, l, Key(s, id))
  }

  lemma KeyFollowsPrefix(k: Clocks, h: seq<Op>, id: Id, l: Life, key: Option<Hash>, n: nat)
    requires n <= |h| && (l.Since? ==> l.c < n && l.r < n && l.w < n)
    requires KeyFollows(k, h[..n], id, l, key)
    ensures KeyFollows(k, h, id, l, key)
  {
    if l.Since? {
      AtPrefix(h, n, l.c);
      AtPrefix(h, n, l.r);
      assert h[..n][l.w] == h[l.w];
    }
  }

  lemma KeyFollowsOne(k: Clocks, h: seq<Op>, id: Id, l: Life, key: Option<Hash>)
    requires k.Valid() && h != []
    requires l.Since? ==> l.c < |h| - 1 && l.r < |h| - 1 && l.w < |h| - 1
    requires KeyFollows(k, h, id, l, key) && Current(key, At(h, |h| - 1))
    ensures KeyFollows(k, h, id, Continue(k, h, id, l), Effect(k, h[|h| - 1], id, key, At(h, |h| - 1)))
    ensures Current(Effect(k, h[|h| - 1], id, key, At(h, |h| - 1)), At(h, |h|))
  {
    hide At;
    AtLast(h);
  }

  lemma {:induction false} ServerFollowsLife(k: Clocks, h: seq<Op>, id: Id)
    requires k.Valid() && WellFormed(h)
    ensures ServerFollows(k, h, id, LifeOf(k, h, id))
  {
    if h == [] {
    } else {
      var n := |h| - 1;
      ServerFollowsLife(k, h[..n], id);
      EffectIs(k, h[n], After(k, h[..n]), id);
      AtPrefix(h, n, n);
      MentionStays(h, id);
      KeyFollowsPrefix(k, h, id, LifeOf(k, h[..n], id), Key(After(k, h[..n]), id), n);
      KeyFollowsOne(k, h, id, LifeOf(k, h[..n], id), Key(After(k, h[..n]), id));
    }
  }

  lemma MentionStays(h: seq<Op>, id: Id)
    requires h != []
    ensures Mentioned(h[..|h| - 1], id) ==> Mentioned(h, id)
    ensures !h[|h| - 1].Wait? && h[|h| - 1].id == id ==> Mentioned(h, id)
    ensures WellFormed(h) && h[|h| - 1].Create? && h[|h| - 1].id == id ==> !Mentioned(h[..|h| - 1], id)
  {
    var f := h[..|h| - 1];
    if i :| 0 <= i < |f| && !f[i].Wait? && f[i].id == id { assert h[i] == f[i]; }
  }

  // -- the refinement ---------------------------------------------------------

  // After any history, a load finds a session exactly when the past says so:
  // created, never deleted, younger than the absolute limit, and refreshed in
  // time ever since; and what it finds is the last record written.
  lemma {:induction false} LoadableIsAlive(k: Clocks, h: seq<Op>, id: Id)
    requires k.Valid() && WellFormed(h)
    ensures Loadable(After(k, h), id) <==> Alive(k, h, id)
    ensures Alive(k, h, id) ==>
              exists w :: 0 <= w < |h| && LastWrite(h, id, w) && ReadData(After(k, h), id) == Some(h[w].record)
  {
    SpecFollowsLife(k, h, id);
    ServerFollowsLife(k, h, id);
    var l := LifeOf(k, h, id);
    if l.Since? { assert LastWrite(h, id, l.w); }
  }

  // With the idle clock disabled only the absolute limit and deletion count.
  lemma {:induction false} NoIdleClock(k: Clocks, h: seq<Op>, id: Id)
    requires k.Valid() && k.idle == k.absolute && WellFormed(h)
    ensures Loadable(After(k, h), id) <==>
            exists c :: 0 <= c < |h| && h[c].Create? && h[c].id == id && At(h, |h|) < At(h, c) + k.absolute
                        && forall d :: c < d < |h| ==> h[d] != Delete(id)
  {
    LoadableIsAlive(k, h, id);
    if c :| 0 <= c < |h| && h[c].Create? && h[c].id == id && At(h, |h|) < At(h, c) + k.absolute
            && forall d :: c < d < |h| ==> h[d] != Delete(id) {
      forall i | c <= i < |h| && Refreshes(h[i], id) ensures InTime(k, h, id, i) { AtGrows(h, c, i); }
      assert AliveSince(k, h, id, c);
    }
  }

  // What the settings mean to a session nobody uses: it lasts while neither
  // limit is reached, 0 meaning none, and where neither is set as long as Redis
  // keeps it for the browser.
  lemma {:induction false} UnusedLasts(idleTtl: nat, absoluteTtl: nat, gcTtl: nat, id: Id, record: Record, seconds: nat)
    requires gcTtl > 0
    ensures var k := ClocksOf(idleTtl, absoluteTtl, gcTtl);
            Loadable(After(k, [Create(id, record), Wait(seconds)]), id) <==>
              && (idleTtl > 0 ==> seconds < idleTtl)
              && (absoluteTtl > 0 ==> seconds < absoluteTtl)
              && (absoluteTtl == 0 ==> seconds < gcTtl)
  {
    var k := ClocksOf(idleTtl, absoluteTtl, gcTtl);
    var h := [Create(id, record), Wait(seconds)];
    assert h[..1] == [Create(id, record)] && h[..1][..0] == [];
    assert After(k, h[..1]) == Apply(k, h[0], EMPTY_SERVER);
    EffectIs(k, h[0], EMPTY_SERVER, id);
    EffectIs(k, h[1], After(k, h[..1]), id);
  }
}
