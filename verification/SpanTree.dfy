/** `buildSpanTree` of `dashboard/src/lib/utils.ts`: a flat span list becomes a forest of nodes. */
module SpanTree {
  import opened Options

  datatype Id = Id(text: string)

  datatype Status = Success | Error

  datatype Span = Span(id: Id, parent: Option<Id>, name: string, status: Status)

  // ---------------------------------------------------------------------------
  // The entries of the map
  // ---------------------------------------------------------------------------

  /** The position of the span with an id, or -1. */
  function Position(entries: seq<Span>, id: Id): (p: int)
    ensures -1 <= p < |entries|
    ensures p >= 0 ==> entries[p].id == id
    ensures p < 0 ==> forall i :: 0 <= i < |entries| ==> entries[i].id != id
  {
    if entries == [] then -1
    else if entries[|entries| - 1].id == id then |entries| - 1
    else Position(entries[..|entries| - 1], id)
  }

  /** `map.set`: a new key goes to the end, a known one keeps its place and gets the new value. */
  function Upsert(entries: seq<Span>, s: Span): seq<Span> {
    var p := Position(entries, s.id);
    if p >= 0 then entries[p := s] else entries + [s]
  }

  /** The values of the map after all spans were set, in iteration order. */
  function Entries(spans: seq<Span>): seq<Span> {
    if spans == [] then [] else Upsert(Entries(spans[..|spans| - 1]), spans[|spans| - 1])
  }

  ghost predicate DistinctIds(s: seq<Span>) {
    forall i, j :: 0 <= i < j < |s| ==> s[i].id != s[j].id
  }

  lemma {:induction false} EntriesDistinct(spans: seq<Span>)
    ensures DistinctIds(Entries(spans))
  {
    if spans != [] { EntriesDistinct(spans[..|spans| - 1]); }
  }

  /** With distinct ids the map keeps exactly the spans, in order. */
  lemma {:induction false} EntriesOfDistinct(spans: seq<Span>)
    requires DistinctIds(spans)
    ensures Entries(spans) == spans
  {
    if spans != [] {
      EntriesOfDistinct(spans[..|spans| - 1]);
      assert spans == spans[..|spans| - 1] + [spans[|spans| - 1]];
    }
  }

  /** The place of the first span with an id. */
  function FirstIndex(spans: seq<Span>, id: Id): nat {
    if spans == [] || spans[0].id == id then 0 else 1 + FirstIndex(spans[1..], id)
  }

  lemma {:induction false} FirstIndexAppend(spans: seq<Span>, s: Span, id: Id)
    ensures (exists i :: 0 <= i < |spans| && spans[i].id == id) ==>
              FirstIndex(spans + [s], id) == FirstIndex(spans, id) < |spans|
    ensures (forall i :: 0 <= i < |spans| ==> spans[i].id != id) ==>
              FirstIndex(spans + [s], id) >= |spans| && (s.id == id ==> FirstIndex(spans + [s], id) == |spans|)
  {
    if spans != [] && spans[0].id != id {
      assert (spans + [s])[1..] == spans[1..] + [s];
      FirstIndexAppend(spans[1..], s, id);
      if i :| 0 <= i < |spans| && spans[i].id == id { assert spans[1..][i - 1].id == id; }
    }
  }

  /** No later span has the id of span i. */
  ghost predicate IsLast(spans: seq<Span>, i: nat)
    requires i < |spans|
  {
    forall j :: i < j < |spans| ==> spans[j].id != spans[i].id
  }

  ghost predicate KeepsLast(spans: seq<Span>, e: seq<Span>) {
    && (forall i :: 0 <= i < |spans| && IsLast(spans, i) ==> spans[i] in e)
    && (forall a :: 0 <= a < |e| ==> e[a] in spans)
  }

  ghost predicate InFirstOrder(spans: seq<Span>, e: seq<Span>) {
    forall a, b :: 0 <= a < b < |e| ==> FirstIndex(spans, e[a].id) < FirstIndex(spans, e[b].id)
  }

  /** With repeated ids the map keeps the last span of each, in the place of the first. */
  lemma {:induction false} EntriesKeepLast(spans: seq<Span>)
    ensures KeepsLast(spans, Entries(spans)) && InFirstOrder(spans, Entries(spans))
  {
    if spans != [] {
      var init, s := spans[..|spans| - 1], spans[|spans| - 1];
      assert spans == init + [s];
      EntriesKeepLast(init);
      EntriesNext(init, s);
      hide Entries, KeepsLast, InFirstOrder, Upsert;
      UpsertKeepsLast(init, Entries(init), s);
      UpsertOrder(init, Entries(init), s);
    }
  }

  lemma EntriesNext(spans: seq<Span>, s: Span)
    ensures Entries(spans + [s]) == Upsert(Entries(spans), s)
  {
    assert (spans + [s])[..|spans|] == spans;
  }

  lemma UpsertKeepsLast(spans: seq<Span>, e: seq<Span>, s: Span)
    requires KeepsLast(spans, e)
    ensures KeepsLast(spans + [s], Upsert(e, s))
  {
    var all, u := spans + [s], Upsert(e, s);
    assert u[if Position(e, s.id) >= 0 then Position(e, s.id) else |e|] == s && all[|spans|] == s;
    forall i | 0 <= i < |all| && IsLast(all, i)
      ensures all[i] in u
    {
      if i < |spans| {
        assert all[|spans|].id != all[i].id;
        assert IsLast(spans, i) by { assert forall j :: i < j < |spans| ==> all[j] == spans[j]; }
        var k :| 0 <= k < |e| && e[k] == spans[i];
        assert u[k] == e[k];
      }
    }
    forall a | 0 <= a < |u|
      ensures u[a] in all
    {
      if a < |e| && u[a] == e[a] {
        var i :| 0 <= i < |spans| && spans[i] == e[a];
        assert all[i] == e[a];
      }
    }
  }

  lemma UpsertOrder(spans: seq<Span>, e: seq<Span>, s: Span)
    requires KeepsLast(spans, e) && InFirstOrder(spans, e)
    ensures InFirstOrder(spans + [s], Upsert(e, s))
  {
    var u := Upsert(e, s);
    forall a | 0 <= a < |u|
      ensures a < |e| ==> u[a].id == e[a].id && FirstIndex(spans + [s], u[a].id) == FirstIndex(spans, e[a].id)
      ensures a < |e| ==> FirstIndex(spans, e[a].id) < |spans|
      ensures a == |e| ==> FirstIndex(spans + [s], u[a].id) == |spans|
    {
      if a < |e| { EntryIndex(spans, e, s, a); } else { NewIndex(spans, e, s); }
    }
    hide FirstIndex, KeepsLast, Upsert;
  }

  lemma EntryIndex(spans: seq<Span>, e: seq<Span>, s: Span, a: nat)
    requires KeepsLast(spans, e) && a < |e|
    ensures FirstIndex(spans + [s], e[a].id) == FirstIndex(spans, e[a].id) < |spans|
  {
    assert e[a] in spans;
    var i :| 0 <= i < |spans| && spans[i] == e[a];
    assert spans[i].id == e[a].id;
    hide FirstIndex, KeepsLast;
    FirstIndexAppend(spans, s, e[a].id);
  }

  lemma NewIndex(spans: seq<Span>, e: seq<Span>, s: Span)
    requires KeepsLast(spans, e) && forall a :: 0 <= a < |e| ==> e[a].id != s.id
    ensures FirstIndex(spans + [s], s.id) == |spans|
  {
    forall i | 0 <= i < |spans|
      ensures spans[i].id != s.id
    {
      var a := EntryFor(spans, e, i);
    }
    FirstIndexAppend(spans, s, s.id);
  }

  lemma EntryFor(spans: seq<Span>, e: seq<Span>, i: nat) returns (a: nat)
    requires KeepsLast(spans, e) && i < |spans|
    ensures a < |e| && e[a].id == spans[i].id
  {
    var k := LastWithId(spans, i);
    a :| 0 <= a < |e| && e[a] == spans[k];
  }

  lemma {:induction false} LastWithId(spans: seq<Span>, i: nat) returns (k: nat)
    requires i < |spans|
    ensures k < |spans| && spans[k].id == spans[i].id && IsLast(spans, k)
    decreases |spans| - i
  {
    if j :| i < j < |spans| && spans[j].id == spans[i].id {
      k := LastWithId(spans, j);
    } else {
      k := i;
    }
  }

  /** Where the parent of entry i stands, or -1 for a root: no parent id, an empty one, or an unknown one. */
  function Parent(e: seq<Span>, i: nat): (p: int)
    requires i < |e|
    ensures -1 <= p < |e|
  {
    if e[i].parent.Some? && e[i].parent.value != Id("") then Position(e, e[i].parent.value) else -1
  }

  /** Entry p is the parent of entry i exactly when i names its id and that id is not empty; a root names no
      parent, an empty one or an unknown one. */
  lemma ParentIs(e: seq<Span>, i: nat, p: nat)
    requires DistinctIds(e) && i < |e| && p < |e|
    ensures Parent(e, i) == p <==> e[i].parent == Some(e[p].id) && e[p].id != Id("")
    ensures Parent(e, i) == -1 <==>
              e[i].parent == None || e[i].parent == Some(Id("")) ||
              forall q :: 0 <= q < |e| ==> e[i].parent != Some(e[q].id)
  {}

  /** The entries below n with parent p, in order; p = -1 gives the roots. */
  function Listed(e: seq<Span>, p: int, n: nat): (c: seq<nat>)
    requires n <= |e|
    ensures forall k :: 0 <= k < |c| ==> c[k] < n
  {
    if n == 0 then [] else Listed(e, p, n - 1) + if Parent(e, n - 1) == p then [n - 1] else []
  }

  function Roots(e: seq<Span>): seq<nat> {
    Listed(e, -1, |e|)
  }

  function Children(e: seq<Span>, i: nat): seq<nat>
    requires i < |e|
  {
    Listed(e, i, |e|)
  }

  /** The recorded depth of entry i: a parent that comes later still has depth 0 when it is read. */
  function Depth(e: seq<Span>, i: nat): nat
    requires i < |e|
  {
    var p := Parent(e, i);
    if p < 0 then 0 else if p < i then Depth(e, p) + 1 else 1
  }

  // ---------------------------------------------------------------------------
  // Every span is listed exactly once
  // ---------------------------------------------------------------------------

  lemma {:induction false} ListedMembers(e: seq<Span>, p: int, n: nat)
    requires n <= |e|
    ensures forall i: nat :: i in Listed(e, p, n) <==> i < n && Parent(e, i) == p
    ensures forall j, k :: 0 <= j < k < |Listed(e, p, n)| ==> Listed(e, p, n)[j] < Listed(e, p, n)[k]
  {
    if n > 0 {
      ListedMembers(e, p, n - 1);
      var c := Listed(e, p, n - 1);
      forall i: nat
        ensures i in Listed(e, p, n) <==> i < n && Parent(e, i) == p
      {
        assert i in Listed(e, p, n) <==> i in c || (i == n - 1 && Parent(e, n - 1) == p);
      }
    }
  }

  lemma {:induction false} IncreasingOnce(c: seq<nat>, i: nat)
    requires forall j, k :: 0 <= j < k < |c| ==> c[j] < c[k]
    ensures multiset(c)[i] == if i in c then 1 else 0
  {
    if c != [] {
      var init := c[..|c| - 1];
      assert c == init + [c[|c| - 1]];
      IncreasingOnce(init, i);
      assert forall k :: 0 <= k < |init| ==> init[k] < c[|c| - 1];
    }
  }

  /** Entry i occurs once in the list of its parent (the roots, for -1) and in no other list. */
  lemma ListedOnce(e: seq<Span>, i: nat, p: int)
    requires i < |e| && -1 <= p < |e|
    ensures multiset(Listed(e, p, |e|))[i] == if Parent(e, i) == p then 1 else 0
  {
    ListedMembers(e, p, |e|);
    IncreasingOnce(Listed(e, p, |e|), i);
  }

  // ---------------------------------------------------------------------------
  // Reachability from the roots
  // ---------------------------------------------------------------------------

  /** The k-th entry up the parent chain of i, or -1 once the chain has ended. */
  function Ancestor(e: seq<Span>, i: nat, k: nat): (a: int)
    requires i < |e|
    ensures -1 <= a < |e|
  {
    if k == 0 then i
    else
      var a := Ancestor(e, i, k - 1);
      if a < 0 then -1 else Parent(e, a)
  }

  /** A way down from a root to entry i through children lists. */
  ghost predicate IsPath(e: seq<Span>, path: seq<nat>, i: nat)
    requires i < |e|
  {
    && path != [] && (forall k :: 0 <= k < |path| ==> path[k] < |e|)
    && path[0] in Roots(e) && path[|path| - 1] == i
    && forall k :: 0 <= k < |path| - 1 ==> path[k + 1] in Children(e, path[k])
  }

  ghost predicate Reachable(e: seq<Span>, i: nat)
    requires i < |e|
  {
    exists path :: IsPath(e, path, i)
  }

  /** The parent chain of i runs into a cycle: some entry comes up twice. */
  ghost predicate Cyclic(e: seq<Span>, i: nat)
    requires i < |e|
  {
    exists j, k :: 0 <= j < k && Ancestor(e, i, j) >= 0 && Ancestor(e, i, j) == Ancestor(e, i, k)
  }

  lemma {:induction false} AncestorSplit(e: seq<Span>, i: nat, j: nat, k: nat)
    requires i < |e| && Ancestor(e, i, j) >= 0
    ensures Ancestor(e, i, j + k) == Ancestor(e, Ancestor(e, i, j), k)
  {
    if k > 0 { AncestorSplit(e, i, j, k - 1); }
  }

  lemma {:induction false} AncestorEnded(e: seq<Span>, i: nat, j: nat, k: nat)
    requires i < |e| && j <= k && Ancestor(e, i, j) < 0
    ensures Ancestor(e, i, k) < 0
  {
    if j < k { AncestorEnded(e, i, j, k - 1); }
  }

  lemma {:induction false} AncestorOfPath(e: seq<Span>, path: seq<nat>, i: nat, k: nat)
    requires i < |e| && IsPath(e, path, i) && k < |path|
    ensures Ancestor(e, i, |path| - 1 - k) == path[k]
    decreases |path| - k
  {
    if k < |path| - 1 {
      AncestorOfPath(e, path, i, k + 1);
      assert path[k + 1] in Children(e, path[k]);
      ListedMembers(e, path[k], |e|);
    }
  }

  lemma PathEndsChain(e: seq<Span>, path: seq<nat>, i: nat)
    requires i < |e| && IsPath(e, path, i)
    ensures Ancestor(e, i, |path|) < 0
  {
    AncestorOfPath(e, path, i, 0);
    ListedMembers(e, -1, |e|);
  }

  /** Following a chain that ends, upside down, is a path from a root. */
  lemma {:induction false} ChainGivesPath(e: seq<Span>, i: nat, n: nat) returns (path: seq<nat>)
    requires i < |e| && Ancestor(e, i, n) < 0
    ensures IsPath(e, path, i)
    decreases n
  {
    var p := Parent(e, i);
    if p < 0 {
      path := [i];
      ListedMembers(e, -1, |e|);
    } else {
      assert n >= 1;
      assert Ancestor(e, i, 1) == p by { assert Ancestor(e, i, 0) == i; }
      AncestorSplit(e, i, 1, n - 1);
      var up := ChainGivesPath(e, p, n - 1);
      path := up + [i];
      ListedMembers(e, p, |e|);
      forall k | 0 <= k < |path| - 1
        ensures path[k + 1] in Children(e, path[k])
      {
        if k < |up| - 1 { assert path[k] == up[k] && path[k + 1] == up[k + 1]; }
      }
    }
  }

  /** Once an entry comes up twice the chain repeats forever. */
  lemma {:induction false} ChainRepeats(e: seq<Span>, i: nat, j: nat, k: nat, n: nat)
    requires i < |e| && j < k && Ancestor(e, i, j) >= 0 && Ancestor(e, i, j) == Ancestor(e, i, k)
    ensures Ancestor(e, i, n) >= 0
    decreases n
  {
    if n <= k {
      if Ancestor(e, i, n) < 0 { AncestorEnded(e, i, n, k); }
    } else {
      AncestorSplit(e, i, k, n - k);
      AncestorSplit(e, i, j, n - k);
      ChainRepeats(e, i, j, k, j + (n - k));
    }
  }

  lemma CyclicNeverEnds(e: seq<Span>, i: nat, n: nat)
    requires i < |e| && Cyclic(e, i)
    ensures Ancestor(e, i, n) >= 0
  {
    var j, k :| 0 <= j < k && Ancestor(e, i, j) >= 0 && Ancestor(e, i, j) == Ancestor(e, i, k);
    ChainRepeats(e, i, j, k, n);
  }

  /** The first n entries of a chain without repetition. */
  function ChainSet(e: seq<Span>, i: nat, n: nat): set<int>
    requires i < |e|
  {
    set k | 0 <= k < n :: Ancestor(e, i, k)
  }

  lemma {:induction false} ChainSetSize(e: seq<Span>, i: nat, n: nat)
    requires i < |e| && !Cyclic(e, i) && forall k: nat :: k < n ==> Ancestor(e, i, k) >= 0
    ensures |ChainSet(e, i, n)| == n
  {
    if n > 0 {
      ChainSetSize(e, i, n - 1);
      ChainSetNext(e, i, n - 1);
    } else {
      assert ChainSet(e, i, n) == {};
    }
  }

  lemma ChainSetNext(e: seq<Span>, i: nat, n: nat)
    requires i < |e| && !Cyclic(e, i) && forall k: nat :: k <= n ==> Ancestor(e, i, k) >= 0
    ensures ChainSet(e, i, n + 1) == ChainSet(e, i, n) + {Ancestor(e, i, n)}
    ensures Ancestor(e, i, n) !in ChainSet(e, i, n)
  {
    hide Ancestor;
  }

  lemma {:induction false} BoundedSet(s: set<int>, n: nat)
    requires forall x :: x in s ==> 0 <= x < n
    ensures |s| <= n
  {
    if n > 0 {
      BoundedSet(s - {n - 1}, n - 1);
    } else {
      forall x | x in s
        ensures false
      {}
      assert s == {};
    }
  }

  /** A chain without a cycle ends within as many steps as there are entries. */
  lemma AcyclicEnds(e: seq<Span>, i: nat)
    requires i < |e| && !Cyclic(e, i)
    ensures Ancestor(e, i, |e|) < 0
  {
    if Ancestor(e, i, |e|) >= 0 {
      forall k: nat | k < |e| + 1
        ensures Ancestor(e, i, k) >= 0
      {
        if Ancestor(e, i, k) < 0 { AncestorEnded(e, i, k, |e|); }
      }
      ChainSetSize(e, i, |e| + 1);
      BoundedSet(ChainSet(e, i, |e| + 1), |e|);
    }
  }

  /** A span is reachable from a root exactly when its parent chain has no cycle. */
  lemma ReachableIffAcyclic(e: seq<Span>, i: nat)
    requires i < |e|
    ensures Reachable(e, i) <==> !Cyclic(e, i)
  {
    if Cyclic(e, i) {
      forall path
        ensures !IsPath(e, path, i)
      {
        if IsPath(e, path, i) {
          PathEndsChain(e, path, i);
          CyclicNeverEnds(e, i, |path|);
        }
      }
    } else {
      AcyclicEnds(e, i);
      var path := ChainGivesPath(e, i, |e|);
    }
  }

  // ---------------------------------------------------------------------------
  // Depths
  // ---------------------------------------------------------------------------

  /** The true distance of entry i from its root is k. */
  ghost predicate Level(e: seq<Span>, i: nat, k: nat)
    requires i < |e|
  {
    Ancestor(e, i, k) >= 0 && Ancestor(e, i, k + 1) < 0
  }

  ghost predicate DepthsRight(e: seq<Span>) {
    forall i, k :: 0 <= i < |e| && 0 <= k && Level(e, i, k) ==> Depth(e, i) == k
  }

  /** No span precedes its parent, unless that parent is a root. */
  ghost predicate InnerParentsFirst(e: seq<Span>) {
    forall i, k :: 0 <= i < |e| && 0 <= k && Level(e, i, k) && Parent(e, i) >= 0 && Parent(e, Parent(e, i)) >= 0 ==>
      Parent(e, i) < i
  }

  lemma LevelOfParent(e: seq<Span>, i: nat, k: nat)
    requires i < |e| && Level(e, i, k)
    ensures Parent(e, i) < 0 <==> k == 0
    ensures Parent(e, i) >= 0 ==> Level(e, Parent(e, i), k - 1)
  {
    assert Ancestor(e, i, 0) == i;
    assert Ancestor(e, i, 1) == Parent(e, i);
    if Parent(e, i) < 0 {
      if k >= 1 { AncestorEnded(e, i, 1, k); }
    } else {
      AncestorSplit(e, i, 1, k);
      if k > 0 { AncestorSplit(e, i, 1, k - 1); }
    }
  }

  lemma {:induction false} DepthRight(e: seq<Span>, i: nat, k: nat)
    requires i < |e| && Level(e, i, k) && InnerParentsFirst(e)
    ensures Depth(e, i) == k
    decreases k
  {
    LevelOfParent(e, i, k);
    var p := Parent(e, i);
    if p >= 0 {
      LevelOfParent(e, p, k - 1);
      if p < i { DepthRight(e, p, k - 1); }
    }
  }

  /** d steps up the parent chain of i, each but perhaps the last to an earlier entry. */
  ghost predicate Climb(e: seq<Span>, i: nat, d: nat)
    requires i < |e|
  {
    && (forall j :: 0 <= j <= d ==> Ancestor(e, i, j) >= 0)
    && (forall j :: 0 <= j < d - 1 ==> Ancestor(e, i, j + 1) < Ancestor(e, i, j))
  }

  lemma ClimbFurther(e: seq<Span>, i: nat, d: nat)
    requires i < |e| && 0 <= Parent(e, i) < i && Climb(e, Parent(e, i), d)
    ensures Climb(e, i, d + 1)
    ensures forall j :: 0 <= j <= d + 1 ==> Ancestor(e, i, j + 1) == Ancestor(e, Parent(e, i), j)
  {
    var p := Parent(e, i);
    assert Ancestor(e, i, 0) == i;
    assert Ancestor(e, i, 1) == p;
    forall j | 0 <= j <= d + 1
      ensures Ancestor(e, i, j + 1) == Ancestor(e, p, j)
    {
      AncestorSplit(e, i, 1, j);
    }
    forall j | 0 <= j <= d + 1
      ensures Ancestor(e, i, j) >= 0
    {
      if j > 0 { assert Ancestor(e, i, (j - 1) + 1) == Ancestor(e, p, j - 1); }
    }
    forall j | 0 <= j < d
      ensures Ancestor(e, i, j + 1) < Ancestor(e, i, j)
    {
      if j > 0 {
        assert Ancestor(e, i, (j - 1) + 1) == Ancestor(e, p, j - 1);
        assert Ancestor(e, p, (j - 1) + 1) < Ancestor(e, p, j - 1);
      }
    }
  }

  /** The recorded depth counts steps up the parent chain: as long as each parent comes before its child, and
      one more step to a parent that does not. */
  lemma {:induction false} DepthCountsSteps(e: seq<Span>, i: nat)
    requires i < |e|
    ensures var d := Depth(e, i);
            && Climb(e, i, d)
            && (Ancestor(e, i, d + 1) < 0 || (d >= 1 && Ancestor(e, i, d) >= Ancestor(e, i, d - 1)))
  {
    var p := Parent(e, i);
    assert Ancestor(e, i, 0) == i;
    assert Ancestor(e, i, 1) == p;
    if 0 <= p < i {
      var d := Depth(e, p);
      DepthCountsSteps(e, p);
      ClimbFurther(e, i, d);
      hide Climb, Ancestor;
      assert Ancestor(e, i, (d + 1) + 1) == Ancestor(e, p, d + 1);
      assert Ancestor(e, i, d + 1) == Ancestor(e, p, d);
      if d >= 1 { assert Ancestor(e, i, (d - 1) + 1) == Ancestor(e, p, d - 1); }
    }
  }

  /** The recorded depths are the true distances exactly when every span comes after its parent, parents
      that are roots excepted. */
  lemma DepthsRightIff(e: seq<Span>)
    ensures DepthsRight(e) <==> InnerParentsFirst(e)
  {
    if InnerParentsFirst(e) {
      forall i, k | 0 <= i < |e| && 0 <= k && Level(e, i, k)
        ensures Depth(e, i) == k
      {
        DepthRight(e, i, k);
      }
    }
    if DepthsRight(e) {
      forall i, k | 0 <= i < |e| && 0 <= k && Level(e, i, k) && Parent(e, i) >= 0 && Parent(e, Parent(e, i)) >= 0
        ensures Parent(e, i) < i
      {
        LevelOfParent(e, i, k);
        LevelOfParent(e, Parent(e, i), k - 1);
      }
    }
  }

  // ---------------------------------------------------------------------------
  // Building the nodes
  // ---------------------------------------------------------------------------

  class SpanNode {
    const span: Span
    var children: seq<SpanNode>
    var depth: nat

    constructor (s: Span)
      ensures span == s && children == [] && depth == 0
    {
      span, children, depth := s, [], 0;
    }
  }

  /** The elements at the given positions. */
  function Pick<T>(s: seq<T>, c: seq<nat>): (r: seq<T>)
    requires forall k :: 0 <= k < |c| ==> c[k] < |s|
    ensures |r| == |c|
  {
    seq(|c|, k requires 0 <= k < |c| => s[c[k]])
  }

  /** Node i of the map carries entry i; distinct entries have distinct nodes. */
  ghost predicate Nodes(e: seq<Span>, nodes: seq<SpanNode>) {
    && |nodes| == |e|
    && (forall i :: 0 <= i < |e| ==> nodes[i].span == e[i])
    && (forall i, j :: 0 <= i < j < |e| ==> nodes[i] != nodes[j])
  }

  /** The nodes once the first n of them have been attached to their parents. */
  ghost predicate Attached(e: seq<Span>, nodes: seq<SpanNode>, n: nat)
    requires Nodes(e, nodes) && n <= |e|
    reads nodes
  {
    && (forall i :: 0 <= i < |e| ==> nodes[i].children == Pick(nodes, Listed(e, i, n)))
    && (forall i :: 0 <= i < |e| ==> nodes[i].depth == if i < n then Depth(e, i) else 0)
  }

  /** The map of the source: its keys in insertion order, with the node of each. */
  ghost predicate IsMap(e: seq<Span>, index: map<Id, nat>) {
    && (forall i :: 0 <= i < |e| ==> e[i].id in index && index[e[i].id] == i)
    && (forall id :: id in index ==> index[id] < |e| && e[index[id]].id == id)
  }

  lemma PositionInMap(e: seq<Span>, index: map<Id, nat>, id: Id)
    requires IsMap(e, index)
    ensures Position(e, id) == if id in index then index[id] else -1
  {}

  lemma EntriesStep(spans: seq<Span>, n: nat)
    requires n < |spans|
    ensures Entries(spans[..n + 1]) == Upsert(Entries(spans[..n]), spans[n])
  {
    assert spans[..n + 1][..n] == spans[..n];
  }

  lemma MapUpsert(e: seq<Span>, index: map<Id, nat>, s: Span)
    requires IsMap(e, index)
    ensures s.id in index ==> Upsert(e, s) == e[index[s.id] := s] && IsMap(Upsert(e, s), index)
    ensures s.id !in index ==> Upsert(e, s) == e + [s] && IsMap(Upsert(e, s), index[s.id := |e|])
  {
    PositionInMap(e, index, s.id);
  }

  lemma PickStep(nodes: seq<SpanNode>, e: seq<Span>, p: int, n: nat)
    requires |nodes| == |e| && n < |e|
    ensures Pick(nodes, Listed(e, p, n + 1)) ==
            Pick(nodes, Listed(e, p, n)) + if Parent(e, n) == p then [nodes[n]] else []
  {}

  /** The first loop: the map of nodes by id. */
  method FillMap(spans: seq<Span>) returns (nodes: seq<SpanNode>, index: map<Id, nat>)
    ensures Nodes(Entries(spans), nodes) && IsMap(Entries(spans), index)
    ensures forall i :: 0 <= i < |nodes| ==> fresh(nodes[i]) && nodes[i].children == [] && nodes[i].depth == 0
  {
    hide Entries, Position, Upsert, IsMap;
    nodes, index := [], map[];
    assert Entries([]) == [] && IsMap([], map[]) by { EntriesOfDistinct([]); EmptyMap(); }
    assert spans[..0] == [];
    for n := 0 to |spans|
      invariant Nodes(Entries(spans[..n]), nodes) && IsMap(Entries(spans[..n]), index)
      invariant forall i :: 0 <= i < |nodes| ==> fresh(nodes[i]) && nodes[i].children == [] && nodes[i].depth == 0
    {
      var s := spans[n];
      EntriesStep(spans, n);
      MapUpsert(Entries(spans[..n]), index, s);
      MapRange(Entries(spans[..n]), index, s.id);
      var node := new SpanNode(s);
      if s.id in index {
        nodes := nodes[index[s.id] := node];
      } else {
        index := index[s.id := |nodes|];
        nodes := nodes + [node];
      }
    }
    assert spans[..|spans|] == spans;
  }

  lemma EmptyMap()
    ensures IsMap([], map[])
  {}

  lemma MapRange(e: seq<Span>, index: map<Id, nat>, id: Id)
    requires IsMap(e, index)
    ensures id in index ==> index[id] < |e|
  {}

  /** The second loop: attach every node to its parent or to the roots. */
  method BuildSpanTree(spans: seq<Span>) returns (roots: seq<SpanNode>, ghost nodes: seq<SpanNode>)
    ensures Nodes(Entries(spans), nodes) && forall i :: 0 <= i < |nodes| ==> fresh(nodes[i])
    ensures Attached(Entries(spans), nodes, |nodes|)
    ensures roots == Pick(nodes, Roots(Entries(spans)))
  {
    hide Entries, Listed, Pick, Depth;
    var list, index := FillMap(spans);
    nodes := list;
    ghost var e := Entries(spans);
    roots := [];
    NothingListed(e, list);
    for n := 0 to |list|
      invariant forall i :: 0 <= i < |list| ==> fresh(list[i])
      invariant Attached(e, list, n)
      invariant roots == Pick(list, Listed(e, -1, n))
    {
      PickStep(list, e, -1, n);
      roots := Attach(e, list, index, n, roots);
    }
  }

  lemma NothingListed(e: seq<Span>, nodes: seq<SpanNode>)
    requires |nodes| == |e|
    ensures forall p :: Pick(nodes, Listed(e, p, 0)) == []
  {}

  /** One round of the second loop. */
  method Attach(ghost e: seq<Span>, list: seq<SpanNode>, index: map<Id, nat>, n: nat, roots: seq<SpanNode>)
    returns (roots': seq<SpanNode>)
    requires Nodes(e, list) && IsMap(e, index) && n < |e| && Attached(e, list, n)
    modifies list
    ensures Attached(e, list, n + 1)
    ensures roots' == roots + if Parent(e, n) < 0 then [list[n]] else []
  {
    hide Listed, Pick, Depth, Position;
    ghost var p := Parent(e, n);
    DepthOf(e, n);
    forall i ensures Pick(list, Listed(e, i, n + 1)) == Pick(list, Listed(e, i, n)) + if p == i then [list[n]] else [] {
      PickStep(list, e, i, n);
    }
    var node := list[n];
    roots' := roots;
    if node.span.parent.Some? && node.span.parent.value != Id("") && node.span.parent.value in index {
      PositionInMap(e, index, node.span.parent.value);
      var parent := list[index[node.span.parent.value]];
      assert parent == list[p];
      node.depth := parent.depth + 1;
      parent.children := parent.children + [node];
    } else {
      if node.span.parent.Some? { PositionInMap(e, index, node.span.parent.value); }
      roots' := roots + [node];
    }
  }

  lemma DepthOf(e: seq<Span>, n: nat)
    requires n < |e|
    ensures Depth(e, n) == var p := Parent(e, n); if p < 0 then 0 else if p < n then Depth(e, p) + 1 else 1
  {}
}
