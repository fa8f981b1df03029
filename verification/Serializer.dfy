/** `safe_serialize` of `serializer.py` on arbitrary object graphs. */
module Serializer {

  /** The identity of an object. */
  type Id = nat

  datatype Scalar = Null | Boolean(b: bool) | Integer(i: int) | Number(r: real)

  /** An object as the serializer sees it. `Model` has a `model_dump` that gives another object, `Opaque`
      only a `repr`; `Raising` stands for objects whose items, dump or repr raise an exception. */
  datatype Obj =
    | Atom(s: Scalar)
    | Str(text: string)
    | Mapping(items: seq<(string, Id)>)   // keys already passed through str()
    | Sequence(elements: seq<Id>)
    | Model(dump: Id)
    | Opaque(repr: string)
    | Raising

  /** The object graph. It may be cyclic, and infinite where every dump is a new object. */
  type Graph = Id -> Obj

  datatype Config = Config(maxDepth: int, maxStringLength: int)

  /** A JSON-like result. */
  datatype Value = Leaf(s: Scalar) | Text(text: string) | Dict(items: seq<(string, Value)>) | List(elements: seq<Value>)

  datatype Outcome<T> = Done(value: T) | Raised

  const MAX_DEPTH_EXCEEDED: string := "<max_depth_exceeded>"
  const CIRCULAR_REFERENCE: string := "<circular_reference>"
  const TRUNCATED: string := "...<truncated>"
  const WIDTH: nat := 200

  /** Python's `s[:n]`; a negative n counts from the end. */
  function Slice(s: string, n: int): string {
    if n >= |s| then s else if n >= 0 then s[..n] else if |s| + n > 0 then s[..|s| + n] else ""
  }

  function Clip(s: string, n: int): string {
    if |s| > n then Slice(s, n) + TRUNCATED else s
  }

  function First<T>(s: seq<T>): (r: seq<T>)
    ensures |r| <= WIDTH && |r| <= |s|
  {
    if |s| <= WIDTH then s else s[..WIDTH]
  }

  /** `d[k] = v` for a dictionary in insertion order. */
  function DictSet(d: seq<(string, Value)>, k: string, v: Value): (r: seq<(string, Value)>)
    ensures |r| <= |d| + 1
    ensures forall i :: 0 <= i < |r| ==> r[i] == (k, v) || r[i] in d
  {
    if d == [] then [(k, v)]
    else if d[0].0 == k then [(k, v)] + d[1..]
    else [d[0]] + DictSet(d[1..], k, v)
  }

  /** How many more levels may be entered. */
  function Room(c: Config, depth: nat): nat {
    if depth > c.maxDepth then 0 else c.maxDepth - depth + 1
  }

  /** The walk over an object, given the containers on the path to it. */
  function Walk(g: Graph, c: Config, path: set<Id>, id: Id, depth: nat): Outcome<Value>
    decreases Room(c, depth), 0, 0
  {
    if depth > c.maxDepth then Done(Text(MAX_DEPTH_EXCEEDED))
    else if id in path then Done(Text(CIRCULAR_REFERENCE))
    else
      match g(id)
      case Atom(s) => Done(Leaf(s))
      case Str(t) => Done(Text(Clip(t, c.maxStringLength)))
      case Mapping(items) =>
        var r := WalkItems(g, c, path + {id}, First(items), depth + 1);
        if r.Raised? then Raised else Done(Dict(r.value))
      case Sequence(elements) =>
        var r := WalkAll(g, c, path + {id}, First(elements), depth + 1);
        if r.Raised? then Raised else Done(List(r.value))
      case Model(dump) => Walk(g, c, path + {id}, dump, depth + 1)
      case Opaque(repr) => Done(Text(Slice(repr, c.maxStringLength)))
      case Raising => Raised
  }

  /** The list comprehension. */
  function WalkAll(g: Graph, c: Config, path: set<Id>, ids: seq<Id>, depth: nat): (r: Outcome<seq<Value>>)
    ensures r.Done? ==> |r.value| == |ids|
    decreases Room(c, depth), 1, |ids|
  {
    if ids == [] then Done([])
    else
      var init := WalkAll(g, c, path, ids[..|ids| - 1], depth);
      if init.Raised? then Raised
      else
        var last := Walk(g, c, path, ids[|ids| - 1], depth);
        if last.Raised? then Raised else Done(init.value + [last.value])
  }

  /** The dict comprehension. */
  function WalkItems(g: Graph, c: Config, path: set<Id>, items: seq<(string, Id)>, depth: nat)
    : (r: Outcome<seq<(string, Value)>>)
    ensures r.Done? ==> |r.value| <= |items|
    decreases Room(c, depth), 1, |items|
  {
    if items == [] then Done([])
    else
      var init := WalkItems(g, c, path, items[..|items| - 1], depth);
      if init.Raised? then Raised
      else
        var last := Walk(g, c, path, items[|items| - 1].1, depth);
        if last.Raised? then Raised else Done(DictSet(init.value, items[|items| - 1].0, last.value))
  }

  // ---------------------------------------------------------------------------
  // What a result says about the object
  // ---------------------------------------------------------------------------

  /** The walk of an object that is neither too deep nor on the path, when it is no container. A string longer
      than the limit is cut there and marked; a `repr` is cut without a mark. */
  lemma LeafResults(g: Graph, c: Config, path: set<Id>, id: Id, depth: nat)
    requires depth <= c.maxDepth && id !in path && c.maxStringLength >= 0
    ensures g(id).Atom? ==> Walk(g, c, path, id, depth) == Done(Leaf(g(id).s))
    ensures g(id).Str? && |g(id).text| <= c.maxStringLength ==> Walk(g, c, path, id, depth) == Done(Text(g(id).text))
    ensures g(id).Str? && |g(id).text| > c.maxStringLength ==>
              Walk(g, c, path, id, depth) == Done(Text(g(id).text[..c.maxStringLength] + "...<truncated>"))
    ensures g(id).Opaque? && |g(id).repr| <= c.maxStringLength ==> Walk(g, c, path, id, depth) == Done(Text(g(id).repr))
    ensures g(id).Opaque? && |g(id).repr| > c.maxStringLength ==>
              Walk(g, c, path, id, depth) == Done(Text(g(id).repr[..c.maxStringLength]))
    ensures g(id).Raising? ==> Walk(g, c, path, id, depth) == Raised
    ensures g(id).Model? ==> Walk(g, c, path, id, depth) == Walk(g, c, path + {id}, g(id).dump, depth + 1)
  {}

  /** A negative limit cuts from the end, as slices do. */
  lemma NegativeLimit(t: string, n: int)
    requires n < 0
    ensures Clip(t, n) == (if |t| + n > 0 then t[..|t| + n] else "") + "...<truncated>"
    ensures Slice(t, n) == if |t| + n > 0 then t[..|t| + n] else ""
  {}

  /** The two markers: too deep comes first, whatever the object is. */
  lemma MarkerResults(g: Graph, c: Config, path: set<Id>, id: Id, depth: nat)
    ensures depth > c.maxDepth ==> Walk(g, c, path, id, depth) == Done(Text("<max_depth_exceeded>"))
    ensures depth <= c.maxDepth && id in path ==> Walk(g, c, path, id, depth) == Done(Text("<circular_reference>"))
  {}

  lemma {:induction false} WalkAllElements(g: Graph, c: Config, path: set<Id>, ids: seq<Id>, depth: nat)
    ensures WalkAll(g, c, path, ids, depth).Done? <==>
            forall i :: 0 <= i < |ids| ==> Walk(g, c, path, ids[i], depth).Done?
    ensures WalkAll(g, c, path, ids, depth).Done? ==>
            forall i :: 0 <= i < |ids| ==>
              Walk(g, c, path, ids[i], depth) == Done(WalkAll(g, c, path, ids, depth).value[i])
    decreases |ids|
  {
    if ids != [] {
      hide Walk;
      WalkAllElements(g, c, path, ids[..|ids| - 1], depth);
      var init, last := ids[..|ids| - 1], ids[|ids| - 1];
      assert ids == init + [last];
      assert forall i :: 0 <= i < |init| ==> ids[i] == init[i];
    }
  }

  /** A list is walked element by element, up to the first 200, and raises exactly when one of these does. */
  lemma ListResult(g: Graph, c: Config, path: set<Id>, id: Id, depth: nat)
    requires depth <= c.maxDepth && id !in path && g(id).Sequence?
    ensures var r, ids := Walk(g, c, path, id, depth), g(id).elements;
            var n := if |ids| < 200 then |ids| else 200;
            if forall i :: 0 <= i < n ==> Walk(g, c, path + {id}, ids[i], depth + 1).Done? then
              && r.Done? && r.value.List? && |r.value.elements| == n
              && forall i :: 0 <= i < n ==> Walk(g, c, path + {id}, ids[i], depth + 1) == Done(r.value.elements[i])
            else r == Raised
  {
    var ids := First(g(id).elements);
    WalkAllElements(g, c, path + {id}, ids, depth + 1);
    assert forall i :: 0 <= i < |ids| ==> ids[i] == g(id).elements[i];
    hide WalkAll;
  }

  lemma {:induction false} DictSetKeeps(d: seq<(string, Value)>, k: string, v: Value)
    ensures |d| <= |DictSet(d, k, v)| <= |d| + 1
    ensures forall i :: 0 <= i < |d| ==> DictSet(d, k, v)[i].0 == d[i].0
    ensures forall i :: 0 <= i < |d| && d[i].0 != k ==> DictSet(d, k, v)[i].1 == d[i].1
  {
    if d != [] && d[0].0 != k {
      DictSetKeeps(d[1..], k, v);
      assert forall i :: 0 <= i < |d[1..]| ==> d[1..][i] == d[i + 1];
    }
  }

  lemma {:induction false} DictSetGrows(d: seq<(string, Value)>, k: string, v: Value)
    ensures |DictSet(d, k, v)| > |d| <==> forall i :: 0 <= i < |d| ==> d[i].0 != k
  {
    if d != [] && d[0].0 != k {
      DictSetGrows(d[1..], k, v);
      assert forall i :: 0 <= i < |d[1..]| ==> d[1..][i] == d[i + 1];
      if forall i :: 0 <= i < |d[1..]| ==> d[1..][i].0 != k {
        assert forall i :: 0 < i < |d| ==> d[i] == d[1..][i - 1];
      }
    }
  }

  lemma {:induction false} DictSetEntry(d: seq<(string, Value)>, k: string, v: Value) returns (i: nat)
    ensures i < |DictSet(d, k, v)| && DictSet(d, k, v)[i] == (k, v) && (|DictSet(d, k, v)| > |d| ==> i == |d|)
  {
    i := 0;
    if d != [] && d[0].0 != k {
      var j := DictSetEntry(d[1..], k, v);
      i := j + 1;
    }
  }

  /** Setting a key replaces its value in place, or adds the key at the end. */
  lemma DictSetPlaces(d: seq<(string, Value)>, k: string, v: Value)
    ensures var r := DictSet(d, k, v);
            && |d| <= |r| <= |d| + 1
            && (forall i :: 0 <= i < |d| ==> r[i].0 == d[i].0 && (d[i].0 != k ==> r[i].1 == d[i].1))
            && (exists i :: 0 <= i < |r| && r[i] == (k, v))
            && (|r| > |d| <==> forall i :: 0 <= i < |d| ==> d[i].0 != k)
            && (|r| > |d| ==> r[|d|] == (k, v))
  {
    hide DictSet;
    DictSetKeeps(d, k, v);
    DictSetGrows(d, k, v);
    var i := DictSetEntry(d, k, v);
  }

  /** No later item has the key of item i. */
  ghost predicate LastOfKey(items: seq<(string, Id)>, i: nat)
    requires i < |items|
  {
    forall j :: i < j < |items| ==> items[j].0 != items[i].0
  }

  /** Key k comes up before key l does for the first time. */
  ghost predicate ComesUpBefore(items: seq<(string, Id)>, k: string, l: string) {
    exists i :: 0 <= i < |items| && items[i].0 == k && forall j :: 0 <= j <= i ==> items[j].0 != l
  }

  ghost predicate HasKey(d: seq<(string, Value)>, k: string) {
    exists a :: 0 <= a < |d| && d[a].0 == k
  }

  /** Item i is the last with the key of the entry, and its walk is the value. */
  ghost predicate ComesFrom(g: Graph, c: Config, path: set<Id>, items: seq<(string, Id)>, depth: nat,
                            entry: (string, Value), i: nat) {
    i < |items| && items[i].0 == entry.0 && LastOfKey(items, i) && Walk(g, c, path, items[i].1, depth) == Done(entry.1)
  }

  ghost predicate AllKeys(items: seq<(string, Id)>, d: seq<(string, Value)>) {
    forall i :: 0 <= i < |items| ==> HasKey(d, items[i].0)
  }

  ghost predicate ComesFromLast(g: Graph, c: Config, path: set<Id>, items: seq<(string, Id)>, depth: nat,
                                entry: (string, Value)) {
    exists i :: ComesFrom(g, c, path, items, depth, entry, i)
  }

  ghost predicate LastValues(g: Graph, c: Config, path: set<Id>, items: seq<(string, Id)>, depth: nat,
                             d: seq<(string, Value)>) {
    forall a :: 0 <= a < |d| ==> ComesFromLast(g, c, path, items, depth, d[a])
  }

  ghost predicate FirstOrder(items: seq<(string, Id)>, d: seq<(string, Value)>) {
    forall a, b :: 0 <= a < b < |d| ==> ComesUpBefore(items, d[a].0, d[b].0)
  }

  /** d has one entry for each key of the items, in the order in which keys first come up, and its value is the
      walk of the last item with that key. */
  ghost predicate DictOf(g: Graph, c: Config, path: set<Id>, items: seq<(string, Id)>, depth: nat,
                         d: seq<(string, Value)>) {
    DistinctKeys(d) && AllKeys(items, d) && LastValues(g, c, path, items, depth, d) && FirstOrder(items, d)
  }

  lemma AllKeysNext(items: seq<(string, Id)>, d: seq<(string, Value)>, item: (string, Id), v: Value)
    requires AllKeys(items, d)
    ensures AllKeys(items + [item], DictSet(d, item.0, v))
  {
    var r, all := DictSet(d, item.0, v), items + [item];
    DictSetPlaces(d, item.0, v);
    hide DictSet;
    forall i | 0 <= i < |all|
      ensures HasKey(r, all[i].0)
    {
      if i < |items| {
        assert HasKey(d, items[i].0);
        var a :| 0 <= a < |d| && d[a].0 == items[i].0;
        assert r[a].0 == all[i].0;
      }
    }
  }

  lemma StillComesFrom(g: Graph, c: Config, path: set<Id>, items: seq<(string, Id)>, depth: nat,
                       entry: (string, Value), i: nat, item: (string, Id))
    requires ComesFrom(g, c, path, items, depth, entry, i) && entry.0 != item.0
    ensures ComesFrom(g, c, path, items + [item], depth, entry, i)
  {
    var all := items + [item];
    assert forall j :: 0 <= j < |items| ==> all[j] == items[j];
    hide Walk;
  }

  lemma NowComesFrom(g: Graph, c: Config, path: set<Id>, items: seq<(string, Id)>, depth: nat,
                     item: (string, Id), v: Value)
    requires Walk(g, c, path, item.1, depth) == Done(v)
    ensures ComesFrom(g, c, path, items + [item], depth, (item.0, v), |items|)
  {
    hide Walk;
  }

  lemma LastValuesNext(g: Graph, c: Config, path: set<Id>, items: seq<(string, Id)>, depth: nat,
                       d: seq<(string, Value)>, item: (string, Id), v: Value)
    requires LastValues(g, c, path, items, depth, d) && Walk(g, c, path, item.1, depth) == Done(v)
    requires DistinctKeys(DictSet(d, item.0, v))
    ensures LastValues(g, c, path, items + [item], depth, DictSet(d, item.0, v))
  {
    var r := DictSet(d, item.0, v);
    DictSetPlaces(d, item.0, v);
    hide DictSet, Walk, ComesFrom;
    var at :| 0 <= at < |r| && r[at] == (item.0, v);
    NowComesFrom(g, c, path, items, depth, item, v);
    forall a | 0 <= a < |r|
      ensures ComesFromLast(g, c, path, items + [item], depth, r[a])
    {
      if a == at {
        assert ComesFrom(g, c, path, items + [item], depth, r[a], |items|);
      } else {
        assert r[a].0 != r[at].0;
        assert r[a] == d[a] && ComesFromLast(g, c, path, items, depth, d[a]);
        var i :| ComesFrom(g, c, path, items, depth, d[a], i);
        StillComesFrom(g, c, path, items, depth, d[a], i, item);
        assert ComesFrom(g, c, path, items + [item], depth, r[a], i);
      }
    }
  }

  lemma ComesUpStill(items: seq<(string, Id)>, item: (string, Id), k: string, l: string)
    requires ComesUpBefore(items, k, l)
    ensures ComesUpBefore(items + [item], k, l)
  {
    var i :| 0 <= i < |items| && items[i].0 == k && forall j :: 0 <= j <= i ==> items[j].0 != l;
    var all := items + [item];
    assert all[i] == items[i] && forall j :: 0 <= j <= i ==> all[j] == items[j];
  }

  lemma ComesUpFirst(items: seq<(string, Id)>, item: (string, Id), k: string)
    requires (exists i :: 0 <= i < |items| && items[i].0 == k) && forall i :: 0 <= i < |items| ==> items[i].0 != item.0
    ensures ComesUpBefore(items + [item], k, item.0)
  {
    var i :| 0 <= i < |items| && items[i].0 == k;
    var all := items + [item];
    assert all[i] == items[i] && forall j :: 0 <= j <= i ==> all[j] == items[j];
  }

  lemma FirstOrderNext(g: Graph, c: Config, path: set<Id>, items: seq<(string, Id)>, depth: nat,
                       d: seq<(string, Value)>, item: (string, Id), v: Value)
    requires AllKeys(items, d) && LastValues(g, c, path, items, depth, d) && FirstOrder(items, d)
    ensures FirstOrder(items + [item], DictSet(d, item.0, v))
  {
    var r := DictSet(d, item.0, v);
    DictSetPlaces(d, item.0, v);
    hide DictSet, Walk, ComesUpBefore;
    forall a, b | 0 <= a < b < |r|
      ensures ComesUpBefore(items + [item], r[a].0, r[b].0)
    {
      if b < |d| {
        ComesUpStill(items, item, d[a].0, d[b].0);
      } else {
        assert ComesFromLast(g, c, path, items, depth, d[a]);
        var i :| ComesFrom(g, c, path, items, depth, d[a], i);
        assert forall j :: 0 <= j < |items| ==> HasKey(d, items[j].0);
        ComesUpFirst(items, item, d[a].0);
      }
    }
  }

  lemma DictOfNext(g: Graph, c: Config, path: set<Id>, items: seq<(string, Id)>, depth: nat,
                   d: seq<(string, Value)>, item: (string, Id), v: Value)
    requires DictOf(g, c, path, items, depth, d) && Walk(g, c, path, item.1, depth) == Done(v)
    ensures DictOf(g, c, path, items + [item], depth, DictSet(d, item.0, v))
  {
    hide DictSet, Walk, DistinctKeys, AllKeys, LastValues, FirstOrder;
    DictSetDistinct(d, item.0, v);
    AllKeysNext(items, d, item, v);
    LastValuesNext(g, c, path, items, depth, d, item, v);
    FirstOrderNext(g, c, path, items, depth, d, item, v);
  }

  ghost predicate AllDone(g: Graph, c: Config, path: set<Id>, items: seq<(string, Id)>, depth: nat) {
    forall i :: 0 <= i < |items| ==> Walk(g, c, path, items[i].1, depth).Done?
  }

  lemma AllDoneNext(g: Graph, c: Config, path: set<Id>, items: seq<(string, Id)>, depth: nat, item: (string, Id))
    ensures AllDone(g, c, path, items + [item], depth) <==>
            AllDone(g, c, path, items, depth) && Walk(g, c, path, item.1, depth).Done?
  {
    var all := items + [item];
    assert all[|items|] == item && forall j :: 0 <= j < |items| ==> all[j] == items[j];
    hide Walk;
  }

  lemma {:induction false} WalkItemsDict(g: Graph, c: Config, path: set<Id>, items: seq<(string, Id)>, depth: nat)
    ensures var r := WalkItems(g, c, path, items, depth);
            && (r.Done? <==> AllDone(g, c, path, items, depth))
            && (r.Done? ==> DictOf(g, c, path, items, depth, r.value))
    decreases |items|
  {
    if items != [] {
      hide Walk, DictOf, AllDone, DictSet;
      var init, last := items[..|items| - 1], items[|items| - 1];
      assert items == init + [last];
      WalkItemsDict(g, c, path, init, depth);
      AllDoneNext(g, c, path, init, depth, last);
      var d, v := WalkItems(g, c, path, init, depth), Walk(g, c, path, last.1, depth);
      if d.Done? && v.Done? { DictOfNext(g, c, path, init, depth, d.value, last, v.value); }
    }
  }

  /** A mapping becomes a dictionary of the walks of its first 200 items: one entry per key, the last item of a
      key counts, and it raises exactly when one of these walks does. */
  lemma DictResult(g: Graph, c: Config, path: set<Id>, id: Id, depth: nat)
    requires depth <= c.maxDepth && id !in path && g(id).Mapping?
    ensures var r, all := Walk(g, c, path, id, depth), g(id).items;
            var items := if |all| <= 200 then all else all[..200];
            if AllDone(g, c, path + {id}, items, depth + 1) then
              r.Done? && r.value.Dict? && DictOf(g, c, path + {id}, items, depth + 1, r.value.items)
            else r == Raised
  {
    var items := First(g(id).items);
    assert items == if |g(id).items| <= 200 then g(id).items else g(id).items[..200];
    WalkItemsDict(g, c, path + {id}, items, depth + 1);
    hide WalkItems, DictOf, AllDone;
  }

  // ---------------------------------------------------------------------------
  // The shared set of containers
  // ---------------------------------------------------------------------------

  class Serializer {
    const graph: Graph
    const config: Config
    /** Ids of the containers being walked. */
    var seen: set<Id>

    constructor (g: Graph, c: Config)
      ensures graph == g && config == c && seen == {}
    {
      graph, config, seen := g, c, {};
    }

    /** `_walk`: `seen` holds exactly the containers on the path, and is restored even when it raises. */
    method WalkObject(id: Id, depth: nat) returns (r: Outcome<Value>)
      modifies this
      ensures seen == old(seen)
      ensures r == Walk(graph, config, old(seen), id, depth)
      decreases Room(config, depth), 0, 0
    {
      if depth > config.maxDepth {
        return Done(Text(MAX_DEPTH_EXCEEDED));
      }
      if id in seen {
        return Done(Text(CIRCULAR_REFERENCE));
      }
      var obj := graph(id);
      if obj.Atom? {
        return Done(Leaf(obj.s));
      }
      if obj.Str? {
        return Done(Text(Clip(obj.text, config.maxStringLength)));
      }
      seen := seen + {id};
      match obj {
        case Mapping(items) =>
          var d := WalkMapping(First(items), depth + 1);
          r := if d.Raised? then Raised else Done(Dict(d.value));
        case Sequence(elements) =>
          var l := WalkSequence(First(elements), depth + 1);
          r := if l.Raised? then Raised else Done(List(l.value));
        case Model(dump) =>
          r := WalkObject(dump, depth + 1);
        case Opaque(repr) =>
          r := Done(Text(Slice(repr, config.maxStringLength)));
        case Raising =>
          r := Raised;
      }
      assert seen - {id} == old(seen);
      seen := seen - {id};
    }

    method WalkSequence(ids: seq<Id>, depth: nat) returns (r: Outcome<seq<Value>>)
      modifies this
      ensures seen == old(seen)
      ensures r == WalkAll(graph, config, old(seen), ids, depth)
      decreases Room(config, depth), 1, 0
    {
      r := Done([]);
      for i := 0 to |ids|
        invariant seen == old(seen)
        invariant r == WalkAll(graph, config, seen, ids[..i], depth)
      {
        assert ids[..i + 1][..i] == ids[..i];
        if r.Done? {
          var v := WalkObject(ids[i], depth);
          r := if v.Raised? then Raised else Done(r.value + [v.value]);
        }
      }
      assert ids[..|ids|] == ids;
    }

    method WalkMapping(items: seq<(string, Id)>, depth: nat) returns (r: Outcome<seq<(string, Value)>>)
      modifies this
      ensures seen == old(seen)
      ensures r == WalkItems(graph, config, old(seen), items, depth)
      decreases Room(config, depth), 1, 0
    {
      r := Done([]);
      for i := 0 to |items|
        invariant seen == old(seen)
        invariant r == WalkItems(graph, config, seen, items[..i], depth)
      {
        assert items[..i + 1][..i] == items[..i];
        if r.Done? {
          var v := WalkObject(items[i].1, depth);
          r := if v.Raised? then Raised else Done(DictSet(r.value, items[i].0, v.value));
        }
      }
      assert items[..|items|] == items;
    }
  }

  method SafeSerialize(g: Graph, c: Config, value: Id) returns (r: Outcome<Value>)
    ensures r == Walk(g, c, {}, value, 0)
  {
    var serializer := new Serializer(g, c);
    r := serializer.WalkObject(value, 0);
  }

  // ---------------------------------------------------------------------------
  // Shared objects are not cycles
  // ---------------------------------------------------------------------------

  /** The objects the walk goes on to from an object. */
  ghost predicate Visits(g: Graph, a: Id, b: Id) {
    match g(a)
    case Mapping(items) => exists i :: 0 <= i < |First(items)| && First(items)[i].1 == b
    case Sequence(elements) => exists i :: 0 <= i < |First(elements)| && First(elements)[i] == b
    case Model(dump) => b == dump
    case _ => false
  }

  ghost predicate Chain(g: Graph, p: seq<Id>) {
    forall i :: 0 <= i < |p| - 1 ==> Visits(g, p[i], p[i + 1])
  }

  ghost predicate Distinct(p: seq<Id>) {
    forall i, j :: 0 <= i < j < |p| ==> p[i] != p[j]
  }

  /** No chain that goes on from p meets an object twice, as far as the depth limit lets the walk go.
      Sharing is allowed, and so are cycles elsewhere. */
  ghost predicate NoCycle(g: Graph, c: Config, p: seq<Id>) {
    forall q :: p <= q && Chain(g, q) && |q| <= c.maxDepth + 1 ==> Distinct(q)
  }

  function Elements(p: seq<Id>): set<Id> {
    set i | 0 <= i < |p| :: p[i]
  }

  /** The depth-limited unfolding of an object graph, without any check for cycles. */
  function Unfold(g: Graph, c: Config, id: Id, depth: nat): Outcome<Value>
    decreases Room(c, depth), 0, 0
  {
    if depth > c.maxDepth then Done(Text(MAX_DEPTH_EXCEEDED))
    else
      match g(id)
      case Atom(s) => Done(Leaf(s))
      case Str(t) => Done(Text(Clip(t, c.maxStringLength)))
      case Mapping(items) =>
        var r := UnfoldItems(g, c, First(items), depth + 1);
        if r.Raised? then Raised else Done(Dict(r.value))
      case Sequence(elements) =>
        var r := UnfoldAll(g, c, First(elements), depth + 1);
        if r.Raised? then Raised else Done(List(r.value))
      case Model(dump) => Unfold(g, c, dump, depth + 1)
      case Opaque(repr) => Done(Text(Slice(repr, c.maxStringLength)))
      case Raising => Raised
  }

  function UnfoldAll(g: Graph, c: Config, ids: seq<Id>, depth: nat): Outcome<seq<Value>>
    decreases Room(c, depth), 1, |ids|
  {
    if ids == [] then Done([])
    else
      var init := UnfoldAll(g, c, ids[..|ids| - 1], depth);
      if init.Raised? then Raised
      else
        var last := Unfold(g, c, ids[|ids| - 1], depth);
        if last.Raised? then Raised else Done(init.value + [last.value])
  }

  function UnfoldItems(g: Graph, c: Config, items: seq<(string, Id)>, depth: nat): Outcome<seq<(string, Value)>>
    decreases Room(c, depth), 1, |items|
  {
    if items == [] then Done([])
    else
      var init := UnfoldItems(g, c, items[..|items| - 1], depth);
      if init.Raised? then Raised
      else
        var last := Unfold(g, c, items[|items| - 1].1, depth);
        if last.Raised? then Raised else Done(DictSet(init.value, items[|items| - 1].0, last.value))
  }

  /** The path can be prolonged by an object without a cycle ahead. */
  ghost predicate Clear(g: Graph, c: Config, p: seq<Id>, id: Id) {
    Chain(g, p + [id]) && NoCycle(g, c, p + [id])
  }

  lemma ChainOn(g: Graph, c: Config, p: seq<Id>, id: Id, next: Id)
    requires Chain(g, p + [id]) && NoCycle(g, c, p + [id]) && Visits(g, id, next)
    ensures Chain(g, p + [id] + [next]) && NoCycle(g, c, p + [id] + [next])
  {
    hide Visits, Distinct;
    var q := p + [id] + [next];
    forall i | 0 <= i < |q| - 1
      ensures Visits(g, q[i], q[i + 1])
    {
      if i < |p| { assert q[i] == (p + [id])[i] && q[i + 1] == (p + [id])[i + 1]; }
    }
  }

  lemma ElementsAppend(p: seq<Id>, id: Id)
    ensures Elements(p + [id]) == Elements(p) + {id}
  {
    var q := p + [id];
    assert q[|p|] == id;
    assert forall i :: 0 <= i < |p| ==> p[i] == q[i];
  }

  lemma NotOnPath(g: Graph, c: Config, p: seq<Id>, id: Id)
    requires Clear(g, c, p, id) && |p| <= c.maxDepth
    ensures id !in Elements(p)
  {
    var q := p + [id];
    assert Distinct(q) && q[|p|] == id;
    assert forall i :: 0 <= i < |p| ==> p[i] == q[i];
  }

  lemma ItemsClear(g: Graph, c: Config, p: seq<Id>, id: Id)
    requires Clear(g, c, p, id) && g(id).Mapping?
    ensures forall i :: 0 <= i < |First(g(id).items)| ==> Clear(g, c, p + [id], First(g(id).items)[i].1)
  {
    forall i | 0 <= i < |First(g(id).items)|
      ensures Clear(g, c, p + [id], First(g(id).items)[i].1)
    {
      ChainOn(g, c, p, id, First(g(id).items)[i].1);
    }
  }

  lemma ElementsClear(g: Graph, c: Config, p: seq<Id>, id: Id)
    requires Clear(g, c, p, id) && g(id).Sequence?
    ensures forall i :: 0 <= i < |First(g(id).elements)| ==> Clear(g, c, p + [id], First(g(id).elements)[i])
  {
    forall i | 0 <= i < |First(g(id).elements)|
      ensures Clear(g, c, p + [id], First(g(id).elements)[i])
    {
      ChainOn(g, c, p, id, First(g(id).elements)[i]);
    }
  }

  lemma DumpClear(g: Graph, c: Config, p: seq<Id>, id: Id)
    requires Clear(g, c, p, id) && g(id).Model?
    ensures Clear(g, c, p + [id], g(id).dump)
  {
    ChainOn(g, c, p, id, g(id).dump);
  }

  /** Walk and unfolding agree on what an object refers to. */
  ghost predicate BelowAgrees(g: Graph, c: Config, path: set<Id>, id: Id, depth: nat) {
    match g(id)
    case Mapping(items) => WalkItems(g, c, path, First(items), depth) == UnfoldItems(g, c, First(items), depth)
    case Sequence(elements) => WalkAll(g, c, path, First(elements), depth) == UnfoldAll(g, c, First(elements), depth)
    case Model(dump) => Walk(g, c, path, dump, depth) == Unfold(g, c, dump, depth)
    case _ => true
  }

  lemma StepAgrees(g: Graph, c: Config, path: set<Id>, id: Id, depth: nat)
    requires depth <= c.maxDepth && id !in path && BelowAgrees(g, c, path + {id}, id, depth + 1)
    ensures Walk(g, c, path, id, depth) == Unfold(g, c, id, depth)
  {
    hide First, WalkItems, UnfoldItems, WalkAll, UnfoldAll;
  }

  /** Where the walk can meet no cycle the check never fires: shared objects are unfolded wherever they
      occur. The path leads from the root to the object, so its length is the depth. */
  lemma {:induction false} SharedIsNotCircular(g: Graph, c: Config, p: seq<Id>, id: Id)
    requires Clear(g, c, p, id)
    ensures Walk(g, c, Elements(p), id, |p|) == Unfold(g, c, id, |p|)
    decreases Room(c, |p|), 1, 0
  {
    hide Clear, Elements;
    if |p| <= c.maxDepth {
      hide Walk, Unfold, BelowAgrees;
      NotOnPath(g, c, p, id);
      ElementsAppend(p, id);
      SharedBelow(g, c, p, id);
      StepAgrees(g, c, Elements(p), id, |p|);
    }
  }

  lemma {:induction false} SharedBelow(g: Graph, c: Config, p: seq<Id>, id: Id)
    requires Clear(g, c, p, id) && |p| <= c.maxDepth
    ensures BelowAgrees(g, c, Elements(p + [id]), id, |p| + 1)
    decreases Room(c, |p|), 0, 0
  {
    hide Clear, Elements, Walk, WalkAll, WalkItems, Unfold, UnfoldAll, UnfoldItems;
    match g(id)
    case Mapping(items) =>
      ItemsClear(g, c, p, id);
      SharedItems(g, c, p + [id], First(items));
    case Sequence(elements) =>
      ElementsClear(g, c, p, id);
      SharedAll(g, c, p + [id], First(elements));
    case Model(dump) =>
      DumpClear(g, c, p, id);
      SharedIsNotCircular(g, c, p + [id], dump);
    case _ =>
  }

  lemma {:induction false} SharedAll(g: Graph, c: Config, p: seq<Id>, ids: seq<Id>)
    requires forall i :: 0 <= i < |ids| ==> Clear(g, c, p, ids[i])
    ensures WalkAll(g, c, Elements(p), ids, |p|) == UnfoldAll(g, c, ids, |p|)
    decreases Room(c, |p|), 2, |ids|
  {
    if ids != [] {
      hide Clear, Elements;
      SharedAll(g, c, p, ids[..|ids| - 1]);
      SharedIsNotCircular(g, c, p, ids[|ids| - 1]);
    }
  }

  lemma {:induction false} SharedItems(g: Graph, c: Config, p: seq<Id>, items: seq<(string, Id)>)
    requires forall i :: 0 <= i < |items| ==> Clear(g, c, p, items[i].1)
    ensures WalkItems(g, c, Elements(p), items, |p|) == UnfoldItems(g, c, items, |p|)
    decreases Room(c, |p|), 2, |items|
  {
    if items != [] {
      hide Clear, Elements;
      SharedItems(g, c, p, items[..|items| - 1]);
      SharedIsNotCircular(g, c, p, items[|items| - 1].1);
    }
  }

  /** From the top: when no chain from the value meets an object twice within the depth limit, the result
      is the plain unfolding. */
  lemma AcyclicIsUnfolded(g: Graph, c: Config, id: Id)
    requires NoCycle(g, c, [id])
    ensures Walk(g, c, {}, id, 0) == Unfold(g, c, id, 0)
  {
    var none: seq<Id> := [];
    assert none + [id] == [id] && Elements(none) == {};
    hide NoCycle, Walk, Unfold;
    SharedIsNotCircular(g, c, none, id);
  }

  // ---------------------------------------------------------------------------
  // Shape of results
  // ---------------------------------------------------------------------------

  ghost predicate DistinctKeys(d: seq<(string, Value)>) {
    forall i, j :: 0 <= i < j < |d| ==> d[i].0 != d[j].0
  }

  /** A result as it may stand at a given depth: only the marker below the depth limit, containers at most
      200 wide with distinct keys, and no string that clipping would change (where markers survive it). */
  ghost predicate Fits(c: Config, v: Value, depth: nat) {
    if depth > c.maxDepth then v == Text(MAX_DEPTH_EXCEEDED)
    else
      match v
      case Leaf(_) => true
      case Text(t) => c.maxStringLength >= 20 ==> Clip(t, c.maxStringLength) == t
      case List(elements) =>
        |elements| <= WIDTH && forall i :: 0 <= i < |elements| ==> Fits(c, elements[i], depth + 1)
      case Dict(items) =>
        |items| <= WIDTH && DistinctKeys(items) && forall i :: 0 <= i < |items| ==> Fits(c, items[i].1, depth + 1)
  }

  lemma {:induction false} DictSetDistinct(d: seq<(string, Value)>, k: string, v: Value)
    requires DistinctKeys(d)
    ensures DistinctKeys(DictSet(d, k, v))
    ensures forall i :: 0 <= i < |DictSet(d, k, v)| ==>
              DictSet(d, k, v)[i].0 == k || exists j :: 0 <= j < |d| && d[j].0 == DictSet(d, k, v)[i].0
  {
    if d != [] && d[0].0 != k {
      DictSetDistinct(d[1..], k, v);
      var r := DictSet(d[1..], k, v);
      forall i | 0 <= i < |r|
        ensures r[i].0 != d[0].0 && (r[i].0 == k || exists j :: 0 <= j < |d| && d[j].0 == r[i].0)
      {
        if r[i].0 != k {
          var j :| 0 <= j < |d[1..]| && d[1..][j].0 == r[i].0;
          assert d[j + 1].0 == r[i].0;
        }
      }
    }
  }

  /** Clipping twice is clipping once, and what `repr` is cut to needs no clipping. */
  lemma ClipTwice(t: string, n: int)
    requires n >= 0
    ensures Clip(Clip(t, n), n) == Clip(t, n) && Clip(Slice(t, n), n) == Slice(t, n)
  {
    if |t| > n {
      assert (t[..n] + TRUNCATED)[..n] == t[..n];
    }
  }

  /** A string as the walk gives it back fits: clipped, cut, or one of the markers. */
  lemma TextFits(c: Config, t: string, depth: nat)
    requires depth <= c.maxDepth
    ensures Fits(c, Text(Clip(t, c.maxStringLength)), depth) && Fits(c, Text(Slice(t, c.maxStringLength)), depth)
    ensures Fits(c, Text(CIRCULAR_REFERENCE), depth)
  {
    if c.maxStringLength >= 20 { ClipTwice(t, c.maxStringLength); }
  }

  ghost predicate AllFit(c: Config, elements: seq<Value>, depth: nat) {
    forall i :: 0 <= i < |elements| ==> Fits(c, elements[i], depth)
  }

  ghost predicate ItemsFit(c: Config, items: seq<(string, Value)>, depth: nat) {
    DistinctKeys(items) && forall i :: 0 <= i < |items| ==> Fits(c, items[i].1, depth)
  }

  lemma ListFits(c: Config, elements: seq<Value>, depth: nat)
    requires depth <= c.maxDepth && |elements| <= WIDTH && AllFit(c, elements, depth + 1)
    ensures Fits(c, List(elements), depth)
  {}

  lemma DictFits(c: Config, items: seq<(string, Value)>, depth: nat)
    requires depth <= c.maxDepth && |items| <= WIDTH && ItemsFit(c, items, depth + 1)
    ensures Fits(c, Dict(items), depth)
  {}

  /** Every result fits, and it still fits when it is placed higher up, as a dump's result is. */
  lemma {:induction false} FitsShallower(c: Config, v: Value, depth: nat)
    requires Fits(c, v, depth + 1)
    ensures Fits(c, v, depth)
    decreases v
  {
    if depth < c.maxDepth {
      match v
      case List(elements) =>
        forall i | 0 <= i < |elements|
          ensures Fits(c, elements[i], depth + 1)
        {
          FitsShallower(c, elements[i], depth + 1);
        }
      case Dict(items) =>
        forall i | 0 <= i < |items|
          ensures Fits(c, items[i].1, depth + 1)
        {
          FitsShallower(c, items[i].1, depth + 1);
        }
      case _ =>
    }
  }

  lemma {:induction false} WalkFits(g: Graph, c: Config, path: set<Id>, id: Id, depth: nat)
    ensures var r := Walk(g, c, path, id, depth); r.Done? ==> Fits(c, r.value, depth)
    decreases Room(c, depth), 0, 0
  {
    hide Clip, Slice, AllFit, ItemsFit;
    if depth <= c.maxDepth { TextFits(c, "", depth); }
    if depth <= c.maxDepth && id !in path {
      match g(id)
      case Str(t) => TextFits(c, t, depth);
      case Opaque(repr) => TextFits(c, repr, depth);
      case Mapping(items) =>
        WalkItemsFits(g, c, path + {id}, First(items), depth + 1);
        var r := WalkItems(g, c, path + {id}, First(items), depth + 1);
        if r.Done? { DictFits(c, r.value, depth); }
      case Sequence(elements) =>
        WalkAllFits(g, c, path + {id}, First(elements), depth + 1);
        var r := WalkAll(g, c, path + {id}, First(elements), depth + 1);
        if r.Done? { ListFits(c, r.value, depth); }
      case Model(dump) =>
        WalkFits(g, c, path + {id}, dump, depth + 1);
        var r := Walk(g, c, path + {id}, dump, depth + 1);
        if r.Done? { FitsShallower(c, r.value, depth); }
      case _ =>
    }
  }

  lemma {:induction false} WalkAllFits(g: Graph, c: Config, path: set<Id>, ids: seq<Id>, depth: nat)
    ensures var r := WalkAll(g, c, path, ids, depth); r.Done? ==> AllFit(c, r.value, depth)
    decreases Room(c, depth), 1, |ids|
  {
    if ids != [] {
      WalkAllFits(g, c, path, ids[..|ids| - 1], depth);
      WalkFits(g, c, path, ids[|ids| - 1], depth);
    }
  }

  lemma {:induction false} WalkItemsFits(g: Graph, c: Config, path: set<Id>, items: seq<(string, Id)>, depth: nat)
    ensures var r := WalkItems(g, c, path, items, depth); r.Done? ==> ItemsFit(c, r.value, depth)
    decreases Room(c, depth), 1, |items|
  {
    if items != [] {
      var init, last := items[..|items| - 1], items[|items| - 1];
      WalkItemsFits(g, c, path, init, depth);
      WalkFits(g, c, path, last.1, depth);
      var r, v := WalkItems(g, c, path, init, depth), Walk(g, c, path, last.1, depth);
      if r.Done? && v.Done? {
        DictSetDistinct(r.value, last.0, v.value);
        var d := DictSet(r.value, last.0, v.value);
        forall i | 0 <= i < |d|
          ensures Fits(c, d[i].1, depth)
        {
          if d[i] != (last.0, v.value) {
            var j :| 0 <= j < |r.value| && r.value[j] == d[i];
          }
        }
      }
    }
  }

  // ---------------------------------------------------------------------------
  // A second pass
  // ---------------------------------------------------------------------------

  /** In graph g the object id is a Python value equal to v: a tree, possibly with shared parts. */
  ghost predicate Represents(g: Graph, id: Id, v: Value)
    decreases v
  {
    match v
    case Leaf(s) => g(id) == Atom(s)
    case Text(t) => g(id) == Str(t)
    case List(elements) =>
      g(id).Sequence? && |g(id).elements| == |elements| &&
      forall i :: 0 <= i < |elements| ==> Represents(g, g(id).elements[i], elements[i])
    case Dict(items) =>
      g(id).Mapping? && |g(id).items| == |items| && DistinctKeys(items) &&
      forall i :: 0 <= i < |items| ==> g(id).items[i].0 == items[i].0 && Represents(g, g(id).items[i].1, items[i].1)
  }

  lemma {:induction false} RepresentsOne(g: Graph, id: Id, v: Value, w: Value)
    requires Represents(g, id, v) && Represents(g, id, w)
    ensures v == w
    decreases v
  {
    match v
    case List(elements) =>
      forall i | 0 <= i < |elements|
        ensures elements[i] == w.elements[i]
      {
        RepresentsOne(g, g(id).elements[i], elements[i], w.elements[i]);
      }
    case Dict(items) =>
      forall i | 0 <= i < |items|
        ensures items[i] == w.items[i]
      {
        RepresentsOne(g, g(id).items[i].1, items[i].1, w.items[i].1);
      }
    case _ =>
  }

  function Width(v: Value): nat {
    match v
    case List(elements) => |elements|
    case Dict(items) => |items|
    case _ => 0
  }

  function Child(v: Value, i: nat): Value
    requires i < Width(v)
  {
    if v.List? then v.elements[i] else v.items[i].1
  }

  /** The number of containers nested in v. */
  function Height(v: Value): nat
    decreases v, Width(v) + 1
  {
    HeightBelow(v, Width(v))
  }

  function HeightBelow(v: Value, n: nat): nat
    requires n <= Width(v)
    decreases v, n
  {
    if n == 0 then (if v.List? || v.Dict? then 1 else 0)
    else
      var a, b := HeightBelow(v, n - 1), 1 + Height(Child(v, n - 1));
      if a > b then a else b
  }

  lemma {:induction false} ChildLower(v: Value, i: nat, n: nat)
    requires i < n <= Width(v)
    ensures Height(Child(v, i)) < HeightBelow(v, n)
  {
    if i < n - 1 { ChildLower(v, i, n - 1); }
  }

  /** A result nests at most as deep as the limit allows. */
  lemma {:induction false} FitsHeight(c: Config, v: Value, depth: nat, n: nat)
    requires Fits(c, v, depth) && n <= Width(v)
    ensures HeightBelow(v, n) <= Room(c, depth)
    decreases v, n
  {
    if n > 0 {
      FitsHeight(c, v, depth, n - 1);
      FitsHeight(c, Child(v, n - 1), depth + 1, Width(Child(v, n - 1)));
    }
  }

  /** Every result is a finite tree, at most 200 wide and at most maxDepth + 1 containers deep. */
  lemma ResultIsBounded(g: Graph, c: Config, id: Id)
    requires Walk(g, c, {}, id, 0).Done?
    ensures Fits(c, Walk(g, c, {}, id, 0).value, 0)
    ensures Height(Walk(g, c, {}, id, 0).value) <= if c.maxDepth < 0 then 0 else c.maxDepth + 1
  {
    WalkFits(g, c, {}, id, 0);
    var v := Walk(g, c, {}, id, 0).value;
    FitsHeight(c, v, 0, Width(v));
  }

  /** The objects on the path represent nothing as small as v. */
  ghost predicate Above(g: Graph, path: set<Id>, v: Value) {
    forall a, w :: a in path && Represents(g, a, w) ==> Height(v) < Height(w)
  }

  lemma AboveChild(g: Graph, path: set<Id>, id: Id, v: Value, i: nat)
    requires Represents(g, id, v) && Above(g, path, v) && i < Width(v)
    ensures Above(g, path + {id}, Child(v, i))
  {
    ChildLower(v, i, Width(v));
    forall a, w | a in path + {id} && Represents(g, a, w)
      ensures Height(Child(v, i)) < Height(w)
    {
      if a == id { RepresentsOne(g, id, v, w); }
    }
  }

  /** A value that fits at this depth, as an object that is not on the path. */
  ghost predicate Ready(g: Graph, c: Config, path: set<Id>, id: Id, v: Value, depth: nat) {
    Fits(c, v, depth) && Represents(g, id, v) && Above(g, path, v)
  }

  lemma ChildReady(g: Graph, c: Config, path: set<Id>, id: Id, v: Value, i: nat, depth: nat)
    requires Ready(g, c, path, id, v, depth) && depth <= c.maxDepth && i < Width(v)
    ensures v.List? ==> g(id).Sequence? && |g(id).elements| == |v.elements|
    ensures v.List? ==> Ready(g, c, path + {id}, g(id).elements[i], v.elements[i], depth + 1)
    ensures v.Dict? ==> g(id).Mapping? && |g(id).items| == |v.items|
    ensures v.Dict? ==> Ready(g, c, path + {id}, g(id).items[i].1, v.items[i].1, depth + 1)
  {
    AboveChild(g, path, id, v, i);
    hide Above;
  }

  /** A value that fits is serialised to itself. */
  lemma {:induction false} FitsIsStable(g: Graph, c: Config, path: set<Id>, id: Id, v: Value, depth: nat)
    requires c.maxDepth < depth || c.maxStringLength >= 20
    requires Ready(g, c, path, id, v, depth)
    ensures Walk(g, c, path, id, depth) == Done(v)
    decreases v, 2
  {
    if depth <= c.maxDepth {
      assert id !in path;
      forall i | 0 <= i < Width(v)
        ensures v.List? ==> Ready(g, c, path + {id}, g(id).elements[i], v.elements[i], depth + 1)
        ensures v.Dict? ==> Ready(g, c, path + {id}, g(id).items[i].1, v.items[i].1, depth + 1)
      {
        ChildReady(g, c, path, id, v, i, depth);
      }
      hide Ready, Above;
      match v
      case List(elements) =>
        StableElements(g, c, path + {id}, g(id).elements, v, |elements|, depth + 1);
        assert elements[..|elements|] == elements && g(id).elements[..|elements|] == g(id).elements;
      case Dict(items) =>
        StableItems(g, c, path + {id}, g(id).items, v, |items|, depth + 1);
        assert items[..|items|] == items && g(id).items[..|items|] == g(id).items;
      case _ =>
    }
  }

  lemma {:induction false} StableElements(g: Graph, c: Config, path: set<Id>, ids: seq<Id>, v: Value, n: nat,
                                          depth: nat)
    requires c.maxStringLength >= 20 && v.List? && n <= |v.elements| == |ids|
    requires forall i :: 0 <= i < n ==> Ready(g, c, path, ids[i], v.elements[i], depth)
    ensures WalkAll(g, c, path, ids[..n], depth) == Done(v.elements[..n])
    decreases v, 1, n
  {
    if n > 0 {
      hide Ready, Walk;
      StableElements(g, c, path, ids, v, n - 1, depth);
      FitsIsStable(g, c, path, ids[n - 1], v.elements[n - 1], depth);
      assert ids[..n][..n - 1] == ids[..n - 1];
      assert v.elements[..n] == v.elements[..n - 1] + [v.elements[n - 1]];
    }
  }

  lemma {:induction false} DictSetNew(d: seq<(string, Value)>, k: string, v: Value)
    requires forall i :: 0 <= i < |d| ==> d[i].0 != k
    ensures DictSet(d, k, v) == d + [(k, v)]
  {
    if d != [] { DictSetNew(d[1..], k, v); }
  }

  lemma KeyIsNew(d: seq<(string, Value)>, n: nat)
    requires DistinctKeys(d) && n < |d|
    ensures forall i :: 0 <= i < |d[..n]| ==> d[..n][i].0 != d[n].0
  {}

  lemma WalkItemsNext(g: Graph, c: Config, path: set<Id>, items: seq<(string, Id)>, d: seq<(string, Value)>, n: nat,
                      depth: nat)
    requires n < |items| == |d| && DistinctKeys(d) && items[n].0 == d[n].0
    requires WalkItems(g, c, path, items[..n], depth) == Done(d[..n])
    requires Walk(g, c, path, items[n].1, depth) == Done(d[n].1)
    ensures WalkItems(g, c, path, items[..n + 1], depth) == Done(d[..n + 1])
  {
    hide Walk;
    assert items[..n + 1][..n] == items[..n];
    KeyIsNew(d, n);
    DictSetNew(d[..n], d[n].0, d[n].1);
    assert d[..n + 1] == d[..n] + [(d[n].0, d[n].1)];
  }

  lemma {:induction false} StableItems(g: Graph, c: Config, path: set<Id>, items: seq<(string, Id)>, v: Value, n: nat,
                                       depth: nat)
    requires c.maxStringLength >= 20 && v.Dict? && n <= |v.items| == |items| && DistinctKeys(v.items)
    requires forall i :: 0 <= i < n ==>
               items[i].0 == v.items[i].0 && Ready(g, c, path, items[i].1, v.items[i].1, depth)
    ensures WalkItems(g, c, path, items[..n], depth) == Done(v.items[..n])
    decreases v, 1, n
  {
    if n > 0 {
      hide Ready, Walk, WalkItems, DistinctKeys;
      StableItems(g, c, path, items, v, n - 1, depth);
      FitsIsStable(g, c, path, items[n - 1].1, v.items[n - 1].1, depth);
      WalkItemsNext(g, c, path, items, v.items, n - 1, depth);
    }
  }

  /** Serialising a result again, as an object graph of its own, gives the same result. */
  ghost predicate Idempotent(c: Config) {
    forall g, id, h, again, v ::
      Walk(g, c, {}, id, 0) == Done(v) && Represents(h, again, v) ==> Walk(h, c, {}, again, 0) == Done(v)
  }

  lemma SecondPass(c: Config, g: Graph, id: Id, h: Graph, again: Id, v: Value)
    requires c.maxDepth < 0 || c.maxStringLength >= 20
    requires Walk(g, c, {}, id, 0) == Done(v) && Represents(h, again, v)
    ensures Walk(h, c, {}, again, 0) == Done(v)
  {
    WalkFits(g, c, {}, id, 0);
    FitsIsStable(h, c, {}, again, v, 0);
  }

  /** A marker of 20 characters does not survive a shorter limit. */
  lemma MarkerClipped(t: string, n: int)
    requires t == MAX_DEPTH_EXCEEDED || t == CIRCULAR_REFERENCE
    requires n < 20
    ensures Clip(t, n) != t
  {
    assert |t| == 20 && t[6] != '.';
    if |Clip(t, n)| == 20 { assert Clip(t, n)[6] == '.'; }
  }

  /** An object whose dump is itself is marked at the top; a second pass clips the marker. */
  lemma MarkerLost(c: Config)
    requires c.maxDepth >= 0 && c.maxStringLength < 20
    ensures !Idempotent(c)
  {
    var t := if c.maxDepth == 0 then MAX_DEPTH_EXCEEDED else CIRCULAR_REFERENCE;
    var g: Graph := _ => Model(0);
    var h: Graph := _ => Str(t);
    assert Walk(g, c, {}, 0, 0) == Walk(g, c, {} + {0}, 0, 1);
    assert Walk(g, c, {}, 0, 0) == Done(Text(t));
    assert Represents(h, 0, Text(t));
    assert Walk(h, c, {}, 0, 0) == Done(Text(Clip(t, c.maxStringLength)));
    MarkerClipped(t, c.maxStringLength);
  }

  /** A second pass changes nothing, whatever the graph, exactly when the string limit leaves room for the
      markers, or nothing but the depth marker is ever produced. */
  lemma IdempotentIff(c: Config)
    ensures Idempotent(c) <==> c.maxDepth < 0 || c.maxStringLength >= 20
  {
    if c.maxDepth < 0 || c.maxStringLength >= 20 {
      forall g, id, h, again, v | Walk(g, c, {}, id, 0) == Done(v) && Represents(h, again, v)
        ensures Walk(h, c, {}, again, 0) == Done(v)
      {
        SecondPass(c, g, id, h, again, v);
      }
    } else {
      MarkerLost(c);
    }
  }
}
