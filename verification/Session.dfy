// The mapping an application sees as request.session: an ordered dict that
// tracks whether it was read and whether it was changed.
module Sessions {
  import opened Prelude
  import opened Payloads

  datatype View = View(data: Dict, accessed: bool, modified: bool)

  // The top-level operations of the mapping.
  datatype Op =
    | MarkAccessed | MarkModified
    | GetItem(key: string) | Contains(key: string) | Get(key: string, default: Value)
    | Names                             // iter, keys, values and items
    | SetItem(key: string, value: Value) | DelItem(key: string)
    | Merge(pairs: seq<(string, Value)>)  // |= and update
    | Clear
    | SetDefault(key: string, default: Value)
    | Pop(key: string, fallback: Option<Value>)
    | PopItem

  datatype Reply = Nothing | Found(value: Value) | Has(b: bool) | Listing(names: seq<string>)
                 | Item(key: string, value: Value) | KeyError

  function Touched(v: View): View { v.(accessed := true) }

  function Changed(v: View, data: Dict): View { View(data, true, true) }

  function Apply(v: View, op: Op): (View, Reply) {
    match op
    case MarkAccessed => (Touched(v), Nothing)
    case MarkModified => (Changed(v, v.data), Nothing)
    case GetItem(key) => (Touched(v), if key in v.data.at then Found(v.data.at[key]) else KeyError)
    case Contains(key) => (Touched(v), Has(key in v.data.at))
    case Get(key, default) => (Touched(v), Found(if key in v.data.at then v.data.at[key] else default))
    case Names => (Touched(v), Listing(v.data.order))
    case SetItem(key, value) => (Changed(v, v.data.Put(key, value)), Nothing)
    case DelItem(key) =>
      // flagged before the lookup can fail
      if key in v.data.at then (Changed(v, v.data.Remove(key)), Nothing) else (Changed(v, v.data), KeyError)
    case Merge(pairs) => (Changed(v, v.data.PutAll(pairs)), Nothing)
    case Clear => (Changed(v, EMPTY), Nothing)
    case SetDefault(key, default) =>
      if key in v.data.at then (Touched(v), Found(v.data.at[key]))
      else (Changed(v, v.data.Put(key, default)), Found(default))
    case Pop(key, fallback) =>
      if key in v.data.at then (Changed(v, v.data.Remove(key)), Found(v.data.at[key]))
      else if fallback.Some? then (Touched(v), Found(fallback.value))
      else (v, KeyError)
    case PopItem =>
      if v.data.order == [] then (v, KeyError)
      else
        var key := v.data.order[|v.data.order| - 1];
        (Changed(v, v.data.Remove(key)), Item(key, v.data.Get(key)))
  }

  function ApplyAll(v: View, ops: seq<Op>): View
    decreases |ops|
  {
    if ops == [] then v else ApplyAll(Apply(v, ops[0]).0, ops[1..])
  }

  // One operation marks what it changes, and unmarks nothing.
  lemma MarksAreKept(v: View, op: Op)
    requires v.modified ==> v.accessed
    ensures var u := Apply(v, op).0;
            && (!u.modified ==> u.data == v.data)
            && (v.modified ==> u.modified) && (v.accessed ==> u.accessed) && (u.modified ==> u.accessed)
  {
  }

  // Whatever the application does to its session, an unset `modified` means
  // the contents are those it was loaded with, and a set one that it counts as
  // read too.
  lemma {:induction false} UnmodifiedMeansUnchanged(v: View, ops: seq<Op>)
    requires v.modified ==> v.accessed
    ensures !ApplyAll(v, ops).modified ==> ApplyAll(v, ops).data == v.data
    ensures v.modified ==> ApplyAll(v, ops).modified
    ensures v.accessed ==> ApplyAll(v, ops).accessed
    ensures ApplyAll(v, ops).modified ==> ApplyAll(v, ops).accessed
    decreases |ops|
  {
    hide Apply;
    if ops == [] {
    } else {
      MarksAreKept(v, ops[0]);
      UnmodifiedMeansUnchanged(Apply(v, ops[0]).0, ops[1..]);
    }
  }

  // A well-formed mapping stays one.
  lemma {:induction false} StaysValid(v: View, ops: seq<Op>)
    requires v.data.Valid()
    ensures ApplyAll(v, ops).data.Valid()
    decreases |ops|
  {
    if ops == [] {
    } else {
      assert EMPTY.Valid();
      StaysValid(Apply(v, ops[0]).0, ops[1..]);
    }
  }

  // -- what one operation means to the next ----------------------------------

  function Do(v: View, op: Op): View { Apply(v, op).0 }

  function Answer(v: View, op: Op): Reply { Apply(v, op).1 }

  // What was assigned is read back, nothing else reads differently, and a name
  // that was there keeps its place while a new one goes last.
  lemma AssignedIsRead(v: View, key: string, value: Value, other: string)
    ensures var w := Do(v, SetItem(key, value));
            && Answer(w, GetItem(key)) == Found(value)
            && (other != key ==> Answer(w, GetItem(other)) == Answer(v, GetItem(other)))
            && Answer(w, Op.Names) == Listing(if key in v.data.at then v.data.order else v.data.order + [key])
  {
  }

  // The readers agree with one another, and on a well-formed mapping with the
  // listing of the names.
  lemma ReadersAgree(v: View, key: string, default: Value)
    ensures Answer(v, Contains(key)) == Has(Answer(v, GetItem(key)) != KeyError)
    ensures Answer(v, Op.Get(key, default)) ==
            if Answer(v, GetItem(key)) != KeyError then Answer(v, GetItem(key)) else Found(default)
    ensures v.data.Valid() ==> (Answer(v, Contains(key)) == Has(true) <==> key in Answer(v, Op.Names).names)
    ensures v.data.Valid() ==> (v.data.Empty() <==> Answer(v, Op.Names) == Listing([]))
  {
    if v.data.Valid() && v.data.order != [] { assert v.data.order[0] in v.data.at; }
  }

  // Every operation counts as a use of the session, and one that writes as a
  // change to it, but for a removal that raises.
  lemma UseIsMarked(v: View, op: Op)
    ensures Do(v, op).accessed <==> v.accessed || !(op.Pop? || op.PopItem?) || Answer(v, op) != KeyError
    ensures Answer(v, op) == KeyError && (op.Pop? || op.PopItem?) ==> Do(v, op) == v
    ensures op.MarkModified? || op.SetItem? || op.DelItem? || op.Merge? || op.Clear? || (op.PopItem? && Answer(v, op) != KeyError) ==>
              Do(v, op).modified
    ensures op.MarkAccessed? || op.GetItem? || op.Contains? || op.Get? || op.Names? ==> Do(v, op) == v.(accessed := true)
  {
  }

  // A merge is its assignments one after the other.
  lemma MergeAssigns(v: View, pairs: seq<(string, Value)>, pair: (string, Value))
    ensures Do(v, Op.Merge([])) == Do(v, MarkModified)
    ensures Do(v, Op.Merge(pairs + [pair])) == Do(Do(v, Op.Merge(pairs)), SetItem(pair.0, pair.1))
  {
    hide Dict.PutAll, Dict.Put;
    v.data.PutAllIs(pairs, pair);
  }

  // So it leaves each name with the value of its last pair, or with what it
  // held when it has none, and lists new names after the old ones, in the order
  // in which they first appear.
  lemma MergedIsRead(v: View, pairs: seq<(string, Value)>, key: string)
    ensures var w := Do(v, Op.Merge(pairs));
            && ((forall i :: 0 <= i < |pairs| ==> pairs[i].0 != key) ==> Answer(w, GetItem(key)) == Answer(v, GetItem(key)))
            && (forall i :: 0 <= i < |pairs| && pairs[i].0 == key && (forall n :: i < n < |pairs| ==> pairs[n].0 != key) ==>
                  Answer(w, GetItem(key)) == Found(pairs[i].1))
            && v.data.order <= w.data.order
  {
    hide Apply;
    MergeData(v, pairs);
    v.data.PlacesStay(pairs);
    GetItemIs(v, key);
    GetItemIs(Do(v, Op.Merge(pairs)), key);
    if forall i :: 0 <= i < |pairs| ==> pairs[i].0 != key { v.data.OthersStay(pairs, key); }
    forall i | 0 <= i < |pairs| && pairs[i].0 == key && (forall n :: i < n < |pairs| ==> pairs[n].0 != key)
      ensures Answer(Do(v, Op.Merge(pairs)), GetItem(key)) == Found(pairs[i].1)
    {
      v.data.LastPairWins(pairs, i);
    }
  }

  lemma MergeData(v: View, pairs: seq<(string, Value)>)
    ensures Do(v, Op.Merge(pairs)).data == v.data.PutAll(pairs)
  {
  }

  lemma GetItemIs(v: View, key: string)
    ensures Answer(v, GetItem(key)) == if key in v.data.at then Found(v.data.Get(key)) else KeyError
  {
  }

  lemma NewNamesFollow(v: View, pairs: seq<(string, Value)>, i: nat, j: nat) returns (m: nat, n: nat)
    requires i < j < |pairs| && v.data.Adds(pairs, i) && v.data.Adds(pairs, j)
    ensures var names := Do(v, Op.Merge(pairs)).data.order;
            |v.data.order| <= m < n < |names| && names[m] == pairs[i].0 && names[n] == pairs[j].0
  {
    hide Apply;
    MergeData(v, pairs);
    m, n := v.data.NewNamesFollow(pairs, i, j);
  }

  // After a clear there is nothing to find.
  lemma ClearedIsEmpty(v: View, key: string)
    ensures var w := Do(v, Clear);
            && Answer(w, Contains(key)) == Has(false) && Answer(w, Op.Names) == Listing([])
            && Answer(w, PopItem) == KeyError && w.data.Empty()
  {
  }

  // A new name assigned and popped leaves the mapping as it was: the last one
  // in is the first one out.
  lemma LastInFirstOut(v: View, key: string, value: Value)
    requires v.data.Valid() && key !in v.data.at
    ensures var w := Do(v, SetItem(key, value));
            Answer(w, PopItem) == Item(key, value) && Do(w, PopItem).data == v.data
  {
    var order := v.data.order;
    assert forall i :: 0 <= i < |order| ==> order[i] in v.data.at;
    WithoutLast(order, key);
    assert v.data.at[key := value] - {key} == v.data.at;
  }

  lemma {:induction false} WithoutLast(names: seq<string>, key: string)
    requires key !in names
    ensures Without(names + [key], key) == names
  {
    if names == [] {
      assert names + [key] == [key] && [key][1..] == [];
    } else {
      assert (names + [key])[1..] == names[1..] + [key];
      WithoutLast(names[1..], key);
    }
  }

  // A default settles: once set, asking again finds the same value and changes
  // nothing, and only the asking that wrote counts as a change.
  lemma DefaultSettles(v: View, key: string, first: Value, second: Value)
    ensures var w := Do(v, SetDefault(key, first));
            && Answer(w, SetDefault(key, second)) == Answer(v, SetDefault(key, first)) == Answer(w, GetItem(key))
            && Do(w, SetDefault(key, second)) == w
            && (w.modified <==> v.modified || key !in v.data.at)
            && w.accessed
  {
  }

  // Popping a name answers what a lookup would and deletes what a deletion
  // would, once: after it the name is gone, and popping it again without a
  // fallback raises and leaves even the flags alone.
  lemma PopTakesOnce(v: View, key: string, fallback: Option<Value>)
    ensures var w := Do(v, Pop(key, fallback));
            && (key in v.data.at ==> Answer(v, Pop(key, fallback)) == Answer(v, GetItem(key)) && w == Do(v, DelItem(key)))
            && (key !in v.data.at ==> w.data == v.data && w.modified == v.modified)
            && Answer(w, Contains(key)) == Has(false)
            && Answer(w, Pop(key, None)) == KeyError && Do(w, Pop(key, None)) == w
  {
  }

  // A deletion marks the session changed even when the name is missing; the
  // mapping is then as it was.
  lemma MissingDeletionMarks(v: View, key: string)
    ensures var w := Do(v, DelItem(key));
            && w.modified && w.accessed
            && (Answer(v, DelItem(key)) == KeyError <==> key !in v.data.at)
            && (w.data == v.data <==> key !in v.data.at)
            && Answer(w, Contains(key)) == Has(false)
  {
  }

  // -- the object ------------------------------------------------------------

  class Session {
    var data: Dict
    var accessed: bool
    var modified: bool

    constructor (data: Dict)
      ensures Now() == View(data, false, false)
    {
      this.data, accessed, modified := data, false, false;
    }

    function Now(): View reads this { View(data, accessed, modified) }

    method MarkAccessed()
      modifies this`accessed
      ensures accessed
    {
      accessed := true;
    }

    method MarkModified()
      modifies this`accessed, this`modified
      ensures accessed && modified
    {
      accessed := true;
      modified := true;
    }

    // A copy that leaves the flags alone.
    method Raw() returns (d: Dict)
      ensures d == data
    {
      d := data;
    }

    method GetItem(key: string) returns (r: Reply)
      modifies this`accessed
      ensures accessed
      ensures if key in data.at then r == Found(data.at[key]) else r == KeyError
    {
      accessed := true;
      r := if key in data.at then Found(data.at[key]) else KeyError;
    }

    method Contains(key: string) returns (r: Reply)
      modifies this`accessed
      ensures accessed && r == Has(key in data.at)
    {
      accessed := true;
      r := Has(key in data.at);
    }

    method Get(key: string, default: Value) returns (r: Reply)
      modifies this`accessed
      ensures accessed && r == Found(if key in data.at then data.at[key] else default)
    {
      accessed := true;
      r := Found(if key in data.at then data.at[key] else default);
    }

    method Names() returns (r: Reply)
      modifies this`accessed
      ensures accessed && r == Listing(data.order)
    {
      accessed := true;
      r := Listing(data.order);
    }

    method SetItem(key: string, value: Value)
      modifies this
      ensures accessed && modified
      ensures data.at == old(data.at)[key := value]
      ensures data.order == old(data.order) + if key in old(data.at) then [] else [key]
    {
      MarkModified();
      data := data.Put(key, value);
    }

    method DelItem(key: string) returns (r: Reply)
      modifies this
      ensures accessed && modified
      ensures r == if key in old(data.at) then Nothing else KeyError
      ensures data.at == old(data.at) - {key}
      ensures data.order == if key in old(data.at) then Without(old(data.order), key) else old(data.order)
    {
      MarkModified();
      if key !in data.at {
        assert data.at - {key} == data.at;
        return KeyError;
      }
      data := data.Remove(key);
      r := Nothing;
    }

    // The pairs go in one at a time, later ones winning.
    method Merge(pairs: seq<(string, Value)>)
      modifies this
      ensures accessed && modified && data == old(data).PutAll(pairs)
    {
      MarkModified();
      for i := 0 to |pairs|
        invariant accessed && modified
        invariant data.PutAll(pairs[i..]) == old(data).PutAll(pairs)
      {
        assert pairs[i..][1..] == pairs[i + 1..];
        data := data.Put(pairs[i].0, pairs[i].1);
      }
    }

    method Clear()
      modifies this
      ensures accessed && modified && data == EMPTY
    {
      MarkModified();
      data := EMPTY;
    }

    method SetDefault(key: string, default: Value) returns (r: Reply)
      modifies this
      ensures accessed && modified == (old(modified) || key !in old(data.at))
      ensures key in data.at && r == Found(data.at[key])
      ensures data.at == if key in old(data.at) then old(data.at) else old(data.at)[key := default]
      ensures data.order == old(data.order) + if key in old(data.at) then [] else [key]
    {
      if key in data.at {
        accessed := true;
        return Found(data.at[key]);
      }
      MarkModified();
      data := data.Put(key, default);
      r := Found(default);
    }

    // With a missing name and no fallback this raises, and nothing is marked.
    method Pop(key: string, fallback: Option<Value>) returns (r: Reply)
      modifies this
      ensures key in old(data.at) ==>
                accessed && modified && r == Found(old(data.at)[key])
                && data.at == old(data.at) - {key} && data.order == Without(old(data.order), key)
      ensures key !in old(data.at) ==>
                data == old(data) && modified == old(modified)
                && if fallback.Some? then accessed && r == Found(fallback.value) else accessed == old(accessed) && r == KeyError
    {
      var had := key in data.at;
      if !had && fallback == None {
        return KeyError;
      }
      r := Found(if had then data.at[key] else fallback.value);
      if had {
        data := data.Remove(key);
        MarkModified();
      } else {
        accessed := true;
      }
    }

    method PopItem() returns (r: Reply)
      modifies this
      ensures old(data.order) == [] ==> r == KeyError && Now() == old(Now())
      ensures old(data.order) != [] ==>
                var key := old(data.order)[|old(data.order)| - 1];
                && accessed && modified && r == Item(key, old(data).Get(key))
                && data.at == old(data.at) - {key} && data.order == Without(old(data.order), key)
    {
      if data.order == [] {
        return KeyError;
      }
      var key := data.order[|data.order| - 1];
      r := Item(key, data.Get(key));
      data := data.Remove(key);
      MarkModified();
    }

    // Any one of them.
    method Perform(op: Op) returns (r: Reply)
      modifies this
      ensures (Now(), r) == Apply(old(Now()), op)
    {
      r := Nothing;
      assert data.order + [] == data.order;
      assert forall key :: key !in data.at ==> data.at - {key} == data.at;
      match op {
        case MarkAccessed => MarkAccessed();
        case MarkModified => MarkModified();
        case GetItem(key) => r := GetItem(key);
        case Contains(key) => r := Contains(key);
        case Get(key, default) => r := Get(key, default);
        case Names => r := Names();
        case SetItem(key, value) => SetItem(key, value);
        case DelItem(key) => r := DelItem(key);
        case Merge(pairs) => Merge(pairs);
        case Clear => Clear();
        case SetDefault(key, default) => r := SetDefault(key, default);
        case Pop(key, fallback) => r := Pop(key, fallback);
        case PopItem => r := PopItem();
      }
    }

    // A handler's calls, one after the other.  A session that comes out of them
    // unmarked holds what it held before, and one that was well formed still is.
    method PerformAll(ops: seq<Op>) returns (replies: seq<Reply>)
      requires modified ==> accessed
      modifies this
      ensures Now() == ApplyAll(old(Now()), ops) && |replies| == |ops|
      ensures !modified ==> !old(modified) && data == old(data)
      ensures modified ==> accessed
      ensures old(data.Valid()) ==> data.Valid()
    {
      UnmodifiedMeansUnchanged(Now(), ops);
      if data.Valid() { StaysValid(Now(), ops); }
      replies := [];
      for i := 0 to |ops|
        invariant ApplyAll(Now(), ops[i..]) == ApplyAll(old(Now()), ops)
        invariant |replies| == i
      {
        assert ops[i..][1..] == ops[i + 1..];
        var r := Perform(ops[i]);
        replies := replies + [r];
      }
    }
  }
}
