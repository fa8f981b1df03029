/** The recorder of `sdk-node/src/tracer.ts`, and its round trip through `buildSpanTree`. */
module Tracer {
  import opened Options
  import opened SpanTree

  datatype Kind = Run | Llm | Tool

  /** One call of `run`, `llm` or `tool` as it happened: its span name, whether it returned normally, and
      the calls made and awaited, one after the other, by its callback. An inner call that throws may or
      may not have been caught; either way it is a call that happened. */
  datatype Call = Call(kind: Kind, name: string, ok: bool, body: seq<Call>)

  /** The async context: none outside `trace`, else the current parent span. */
  datatype Context = NoTrace | InTrace(parent: Option<Id>)

  /** `run` opens a new context for its callback, `llm` and `tool` do not. */
  function Inner(ctx: Context, kind: Kind, id: Id): Context {
    if ctx.NoTrace? || kind != Run then ctx else InTrace(Some(id))
  }

  function StatusOf(c: Call): Status {
    if c.ok then Success else Error
  }

  // ---------------------------------------------------------------------------
  // What is recorded
  // ---------------------------------------------------------------------------

  /** The number of calls, hence of span ids drawn. */
  function Count(calls: seq<Call>): nat {
    if calls == [] then 0 else Count(calls[..|calls| - 1]) + CountCall(calls[|calls| - 1])
  }

  function CountCall(c: Call): nat {
    1 + Count(c.body)
  }

  /** The spans pushed by calls whose ids are drawn from the n-th on. */
  function Record(uuid: nat -> Id, calls: seq<Call>, ctx: Context, n: nat): seq<Span> {
    if calls == [] then []
    else
      var init, c := calls[..|calls| - 1], calls[|calls| - 1];
      Record(uuid, init, ctx, n) + RecordCall(uuid, c, ctx, n + Count(init))
  }

  /** A span is pushed in the `finally` block, after the spans of the calls inside. */
  function RecordCall(uuid: nat -> Id, c: Call, ctx: Context, n: nat): seq<Span> {
    Record(uuid, c.body, Inner(ctx, c.kind, uuid(n)), n + 1) +
    if ctx.NoTrace? then [] else [Span(uuid(n), ctx.parent, c.name, StatusOf(c))]
  }

  /** A call sequence is recorded as its first part and then its last call. */
  lemma RecordLast(uuid: nat -> Id, calls: seq<Call>, ctx: Context, n: nat)
    requires calls != []
    ensures var init, c := calls[..|calls| - 1], calls[|calls| - 1];
            && Count(calls) == Count(init) + CountCall(c)
            && Record(uuid, calls, ctx, n) == Record(uuid, init, ctx, n) + RecordCall(uuid, c, ctx, n + Count(init))
  {}

  class Recorder {
    const uuid: nat -> Id
    /** How many ids were drawn. */
    var drawn: nat
    /** `graph.spans`. */
    var spans: seq<Span>

    constructor (ids: nat -> Id)
      ensures uuid == ids && drawn == 0 && spans == []
    {
      uuid, drawn, spans := ids, 0, [];
    }

    /** Await calls one after the other. */
    method PerformAll(calls: seq<Call>, ctx: Context)
      modifies this
      ensures drawn == old(drawn) + Count(calls)
      ensures spans == old(spans) + Record(uuid, calls, ctx, old(drawn))
      decreases calls, 0
    {
      for i := 0 to |calls|
        invariant drawn == old(drawn) + Count(calls[..i])
        invariant spans == old(spans) + Record(uuid, calls[..i], ctx, old(drawn))
      {
        assert calls[..i + 1][..i] == calls[..i];
        Perform(calls[i], ctx);
      }
      assert calls[..|calls|] == calls;
    }

    /** `run`, `llm` and `tool`: draw an id, await the callback, push the span whatever the outcome. */
    method Perform(c: Call, ctx: Context)
      modifies this
      ensures drawn == old(drawn) + CountCall(c)
      ensures spans == old(spans) + RecordCall(uuid, c, ctx, old(drawn))
      decreases c, 1
    {
      var spanId := uuid(drawn);
      drawn := drawn + 1;
      PerformAll(c.body, Inner(ctx, c.kind, spanId));
      if ctx.InTrace? {
        spans := spans + [Span(spanId, ctx.parent, c.name, StatusOf(c))];
      }
    }
  }

  /** `trace`: the graph is handed to the client only when the traced function returns normally. */
  method TraceCalls(uuid: nat -> Id, body: seq<Call>, completes: bool) returns (sent: Option<seq<Span>>)
    ensures sent == if completes then Some(Record(uuid, body, InTrace(None), 0)) else None
  {
    var recorder := new Recorder(uuid);
    recorder.PerformAll(body, InTrace(None));
    assert [] + Record(uuid, body, InTrace(None), 0) == Record(uuid, body, InTrace(None), 0);
    sent := if completes then Some(recorder.spans) else None;
  }

  // ---------------------------------------------------------------------------
  // Shape of a recording
  // ---------------------------------------------------------------------------

  /** Fresh, non-empty span ids. */
  ghost predicate FreshIds(uuid: nat -> Id) {
    && (forall i, j :: i != j ==> uuid(i) != uuid(j))
    && (forall i :: uuid(i) != Id(""))
  }

  /** The ids uuid(lo), ..., uuid(hi - 1). */
  ghost predicate Drawn(uuid: nat -> Id, lo: nat, hi: nat, id: Id) {
    exists k :: lo <= k < hi && id == uuid(k)
  }

  /** Every span carries an id drawn for it, and its parent is the outer parent or was drawn as well. */
  ghost predicate Ranged(uuid: nat -> Id, spans: seq<Span>, parent: Option<Id>, lo: nat, hi: nat) {
    forall i :: 0 <= i < |spans| ==>
      Drawn(uuid, lo, hi, spans[i].id) &&
      (spans[i].parent == parent || (spans[i].parent.Some? && Drawn(uuid, lo, hi, spans[i].parent.value)))
  }

  lemma {:induction false} RecordRanged(uuid: nat -> Id, calls: seq<Call>, parent: Option<Id>, n: nat)
    ensures Ranged(uuid, Record(uuid, calls, InTrace(parent), n), parent, n, n + Count(calls))
    decreases calls, 0
  {
    if calls != [] {
      var init, c := calls[..|calls| - 1], calls[|calls| - 1];
      RecordRanged(uuid, init, parent, n);
      RecordCallRanged(uuid, c, parent, n + Count(init));
    }
  }

  lemma {:induction false} RecordCallRanged(uuid: nat -> Id, c: Call, parent: Option<Id>, n: nat)
    ensures Ranged(uuid, RecordCall(uuid, c, InTrace(parent), n), parent, n, n + CountCall(c))
    decreases c, 1
  {
    assert Drawn(uuid, n, n + CountCall(c), uuid(n));
    RecordRanged(uuid, c.body, Inner(InTrace(parent), c.kind, uuid(n)).parent, n + 1);
  }

  lemma DrawnWider(uuid: nat -> Id, lo: nat, lo': nat, hi': nat, hi: nat, id: Id)
    requires lo <= lo' && hi' <= hi && Drawn(uuid, lo', hi', id)
    ensures Drawn(uuid, lo, hi, id)
  {}

  ghost predicate DisjointIds(a: seq<Span>, b: seq<Span>) {
    forall i, j :: 0 <= i < |a| && 0 <= j < |b| ==> a[i].id != b[j].id
  }

  lemma DistinctConcat(a: seq<Span>, b: seq<Span>)
    requires DistinctIds(a) && DistinctIds(b) && DisjointIds(a, b)
    ensures DistinctIds(a + b)
  {}

  lemma RangedDisjoint(uuid: nat -> Id, a: seq<Span>, b: seq<Span>, p: Option<Id>, q: Option<Id>,
                       lo: nat, mid: nat, hi: nat)
    requires FreshIds(uuid)
    requires (Ranged(uuid, a, p, lo, mid) && Ranged(uuid, b, q, mid, hi)) ||
             (Ranged(uuid, a, p, mid, hi) && Ranged(uuid, b, q, lo, mid))
    ensures DisjointIds(a, b)
  {}

  function Own(uuid: nat -> Id, c: Call, parent: Option<Id>, n: nat): Span {
    Span(uuid(n), parent, c.name, StatusOf(c))
  }

  lemma OwnRanged(uuid: nat -> Id, c: Call, parent: Option<Id>, n: nat)
    ensures Ranged(uuid, [Own(uuid, c, parent, n)], parent, n, n + 1)
  {
    assert Drawn(uuid, n, n + 1, uuid(n));
  }

  /** No two spans of a recording share an id. */
  lemma {:induction false} RecordDistinct(uuid: nat -> Id, calls: seq<Call>, parent: Option<Id>, n: nat)
    requires FreshIds(uuid)
    ensures DistinctIds(Record(uuid, calls, InTrace(parent), n))
    decreases calls, 0
  {
    if calls != [] {
      var init, c := calls[..|calls| - 1], calls[|calls| - 1];
      var m := n + Count(init);
      RecordDistinct(uuid, init, parent, n);
      RecordRanged(uuid, init, parent, n);
      RecordCallRanged(uuid, c, parent, m);
      RangedDisjoint(uuid, Record(uuid, init, InTrace(parent), n), RecordCall(uuid, c, InTrace(parent), m),
                     parent, parent, n, m, m + CountCall(c));
      RecordCallDistinct(uuid, c, parent, m);
      DistinctConcat(Record(uuid, init, InTrace(parent), n), RecordCall(uuid, c, InTrace(parent), m));
    }
  }

  lemma {:induction false} RecordCallDistinct(uuid: nat -> Id, c: Call, parent: Option<Id>, n: nat)
    requires FreshIds(uuid)
    ensures DistinctIds(RecordCall(uuid, c, InTrace(parent), n))
    decreases c, 1
  {
    var q := Inner(InTrace(parent), c.kind, uuid(n)).parent;
    var body := Record(uuid, c.body, InTrace(q), n + 1);
    RecordDistinct(uuid, c.body, q, n + 1);
    RecordRanged(uuid, c.body, q, n + 1);
    OwnRanged(uuid, c, parent, n);
    RangedDisjoint(uuid, body, [Own(uuid, c, parent, n)], q, parent, n, n + 1, n + 1 + Count(c.body));
    DistinctConcat(body, [Own(uuid, c, parent, n)]);
  }

  /** Outside `trace` nothing is recorded. */
  lemma {:induction false} OutsideTrace(uuid: nat -> Id, calls: seq<Call>, n: nat)
    ensures Record(uuid, calls, NoTrace, n) == []
    decreases calls, 0
  {
    if calls != [] {
      var init, c := calls[..|calls| - 1], calls[|calls| - 1];
      OutsideTrace(uuid, init, n);
      OutsideTrace(uuid, c.body, n + Count(init) + 1);
    }
  }

  // ---------------------------------------------------------------------------
  // Every call has its span, with its name and outcome
  // ---------------------------------------------------------------------------

  /** All calls in the order in which they draw their ids: a call, then the calls inside. */
  function Preorder(calls: seq<Call>): seq<Call> {
    if calls == [] then []
    else
      var c := calls[|calls| - 1];
      Preorder(calls[..|calls| - 1]) + [c] + Preorder(c.body)
  }

  /** What is recorded of a call: its id, its name and whether it threw. */
  datatype Fact = Fact(id: Id, name: string, threw: bool)

  function Facts(e: seq<Span>): (f: seq<Fact>)
    ensures |f| == |e|
  {
    seq(|e|, i requires 0 <= i < |e| => Fact(e[i].id, e[i].name, e[i].status == Error))
  }

  function CallFacts(uuid: nat -> Id, order: seq<Call>, n: nat): (f: seq<Fact>)
    ensures |f| == |order|
  {
    seq(|order|, k requires 0 <= k < |order| => Fact(uuid(n + k), order[k].name, !order[k].ok))
  }

  lemma FactsConcat(e: seq<Span>, f: seq<Span>)
    ensures Facts(e + f) == Facts(e) + Facts(f)
  {}

  lemma CallFactsConcat(uuid: nat -> Id, order: seq<Call>, more: seq<Call>, n: nat)
    ensures CallFacts(uuid, order + more, n) == CallFacts(uuid, order, n) + CallFacts(uuid, more, n + |order|)
  {
    var a, b := CallFacts(uuid, order + more, n), CallFacts(uuid, order, n) + CallFacts(uuid, more, n + |order|);
    forall k | 0 <= k < |a|
      ensures a[k] == b[k]
    {
      if k >= |order| { assert n + k == (n + |order|) + (k - |order|); }
    }
  }

  lemma {:induction false} PreorderCount(calls: seq<Call>)
    ensures |Preorder(calls)| == Count(calls)
    decreases calls
  {
    if calls != [] {
      PreorderCount(calls[..|calls| - 1]);
      PreorderCount(calls[|calls| - 1].body);
    }
  }

  /** A recording holds the facts of all calls, in another order. */
  ghost predicate Tells(uuid: nat -> Id, e: seq<Span>, order: seq<Call>, n: nat) {
    multiset(Facts(e)) == multiset(CallFacts(uuid, order, n))
  }

  lemma TellsConcat(uuid: nat -> Id, e: seq<Span>, order: seq<Call>, f: seq<Span>, more: seq<Call>, n: nat)
    requires Tells(uuid, e, order, n) && Tells(uuid, f, more, n + |order|)
    ensures Tells(uuid, e + f, order + more, n)
  {
    FactsConcat(e, f);
    CallFactsConcat(uuid, order, more, n);
    hide Facts, CallFacts;
  }

  lemma TellsSwap(uuid: nat -> Id, e: seq<Span>, f: seq<Span>, order: seq<Call>, n: nat)
    requires Tells(uuid, e + f, order, n)
    ensures Tells(uuid, f + e, order, n)
  {
    FactsConcat(e, f);
    FactsConcat(f, e);
    hide Facts, CallFacts;
  }

  lemma {:induction false} RecordTells(uuid: nat -> Id, calls: seq<Call>, parent: Option<Id>, n: nat)
    ensures Tells(uuid, Record(uuid, calls, InTrace(parent), n), Preorder(calls), n)
    decreases calls, 0
  {
    if calls == [] {
      NothingTells(uuid, parent, n);
    } else {
      var init, c := calls[..|calls| - 1], calls[|calls| - 1];
      RecordLast(uuid, calls, InTrace(parent), n);
      PreorderLast(calls);
      PreorderCount(init);
      hide *;
      var m := n + Count(init);
      var a, b := Record(uuid, init, InTrace(parent), n), RecordCall(uuid, c, InTrace(parent), m);
      var before, inside := Preorder(init), [c] + Preorder(c.body);
      RecordTells(uuid, init, parent, n);
      RecordCallTells(uuid, c, parent, m);
      assert m == n + |before|;
      TellsConcat(uuid, a, before, b, inside, n);
      assert Tells(uuid, a + b, before + inside, n);
    }
  }

  lemma NothingTells(uuid: nat -> Id, parent: Option<Id>, n: nat)
    ensures Tells(uuid, Record(uuid, [], InTrace(parent), n), Preorder([]), n)
  {
    assert Facts([]) == [] && CallFacts(uuid, [], n) == [];
  }

  lemma PreorderLast(calls: seq<Call>)
    requires calls != []
    ensures var init, c := calls[..|calls| - 1], calls[|calls| - 1];
            Preorder(calls) == Preorder(init) + ([c] + Preorder(c.body))
  {}

  lemma {:induction false} RecordCallTells(uuid: nat -> Id, c: Call, parent: Option<Id>, n: nat)
    ensures Tells(uuid, RecordCall(uuid, c, InTrace(parent), n), [c] + Preorder(c.body), n)
    decreases c, 1
  {
    var q := if c.kind == Run then Some(uuid(n)) else parent;
    var own, body := Own(uuid, c, parent, n), Record(uuid, c.body, InTrace(q), n + 1);
    OwnTells(uuid, c, parent, n);
    RecordCallParts(uuid, c, parent, n);
    hide Tells, Own, Record, RecordCall;
    RecordTells(uuid, c.body, q, n + 1);
    TellsConcat(uuid, [own], [c], body, Preorder(c.body), n);
    TellsSwap(uuid, [own], body, [c] + Preorder(c.body), n);
  }

  lemma OwnTells(uuid: nat -> Id, c: Call, parent: Option<Id>, n: nat)
    ensures Tells(uuid, [Own(uuid, c, parent, n)], [c], n)
  {
    assert Facts([Own(uuid, c, parent, n)]) == [Fact(uuid(n), c.name, !c.ok)];
    assert CallFacts(uuid, [c], n) == [Fact(uuid(n), c.name, !c.ok)] by { assert n + 0 == n; }
  }

  /** In a trace every call is recorded once, and the span with the k-th id has the name of the k-th call, and
      is an error exactly when that call threw. */
  lemma OutcomesRecorded(uuid: nat -> Id, calls: seq<Call>, i: nat, k: nat)
    requires FreshIds(uuid)
    requires i < |Record(uuid, calls, InTrace(None), 0)| && k < |Preorder(calls)|
    ensures var s, c := Record(uuid, calls, InTrace(None), 0)[i], Preorder(calls)[k];
            s.id == uuid(k) ==> s.name == c.name && (s.status == Error <==> !c.ok) && (s.status == Success <==> c.ok)
    ensures multiset(Facts(Record(uuid, calls, InTrace(None), 0))) == multiset(CallFacts(uuid, Preorder(calls), 0))
  {
    RecordTells(uuid, calls, None, 0);
    var e, order := Record(uuid, calls, InTrace(None), 0), Preorder(calls);
    hide Record, Preorder;
    assert Facts(e)[i] in multiset(Facts(e));
    var j :| 0 <= j < |order| && CallFacts(uuid, order, 0)[j] == Facts(e)[i];
  }

  // ---------------------------------------------------------------------------
  // Inner calls come first
  // ---------------------------------------------------------------------------

  ghost predicate ChildrenFirst(s: seq<Span>) {
    forall i, j :: 0 <= i < |s| && 0 <= j < |s| && s[i].parent == Some(s[j].id) ==> i < j
  }

  /** Spans of `b` do not have their parent in `a`. */
  ghost predicate NoParentIn(a: seq<Span>, b: seq<Span>) {
    forall i, j :: 0 <= i < |b| && 0 <= j < |a| ==> b[i].parent != Some(a[j].id)
  }

  lemma ChildrenFirstConcat(a: seq<Span>, b: seq<Span>)
    requires ChildrenFirst(a) && ChildrenFirst(b) && NoParentIn(a, b)
    ensures ChildrenFirst(a + b)
  {}

  ghost predicate Outside(uuid: nat -> Id, parent: Option<Id>, lo: nat, hi: nat) {
    parent.Some? ==> !Drawn(uuid, lo, hi, parent.value)
  }

  lemma RangedNoParent(uuid: nat -> Id, a: seq<Span>, b: seq<Span>, p: Option<Id>, q: Option<Id>,
                       lo: nat, mid: nat, hi: nat)
    requires FreshIds(uuid) && Outside(uuid, q, lo, hi)
    requires (Ranged(uuid, a, p, lo, mid) && Ranged(uuid, b, q, mid, hi)) ||
             (Ranged(uuid, a, p, mid, hi) && Ranged(uuid, b, q, lo, mid))
    ensures NoParentIn(a, b)
  {
    forall i, j | 0 <= i < |b| && 0 <= j < |a|
      ensures b[i].parent != Some(a[j].id)
    {
      if b[i].parent == q {
        if Drawn(uuid, lo, mid, a[j].id) { DrawnWider(uuid, lo, lo, mid, hi, a[j].id); }
        else { DrawnWider(uuid, lo, mid, hi, hi, a[j].id); }
      }
    }
  }

  lemma OneChildFirst(x: Span)
    requires x.parent != Some(x.id)
    ensures ChildrenFirst([x])
  {}

  /** The spans of inner calls stand before the span of the call that encloses them. */
  lemma {:induction false} RecordChildrenFirst(uuid: nat -> Id, calls: seq<Call>, parent: Option<Id>, n: nat)
    requires FreshIds(uuid) && Outside(uuid, parent, n, n + Count(calls))
    ensures ChildrenFirst(Record(uuid, calls, InTrace(parent), n))
    decreases calls, 0
  {
    if calls != [] {
      var init, c := calls[..|calls| - 1], calls[|calls| - 1];
      var m := n + Count(init);
      var a, b := Record(uuid, init, InTrace(parent), n), RecordCall(uuid, c, InTrace(parent), m);
      RecordLast(uuid, calls, InTrace(parent), n);
      OutsideNarrower(uuid, parent, n, n, m, n + Count(calls));
      OutsideNarrower(uuid, parent, n, m, m + CountCall(c), n + Count(calls));
      hide FreshIds, Outside, Ranged, Record, RecordCall, Count, CountCall;
      RecordRanged(uuid, init, parent, n);
      RecordCallRanged(uuid, c, parent, m);
      RangedNoParent(uuid, a, b, parent, parent, n, m, m + CountCall(c));
      RecordChildrenFirst(uuid, init, parent, n);
      RecordCallChildrenFirst(uuid, c, parent, m);
      ChildrenFirstConcat(a, b);
    }
  }

  lemma {:induction false} RecordCallChildrenFirst(uuid: nat -> Id, c: Call, parent: Option<Id>, n: nat)
    requires FreshIds(uuid) && Outside(uuid, parent, n, n + CountCall(c))
    ensures ChildrenFirst(RecordCall(uuid, c, InTrace(parent), n))
    decreases c, 1
  {
    hide FreshIds, Outside, Ranged, Record, RecordCall, Count, ChildrenFirst, NoParentIn;
    var hi, q := n + CountCall(c), if c.kind == Run then Some(uuid(n)) else parent;
    var a, b := Record(uuid, c.body, InTrace(q), n + 1), [Own(uuid, c, parent, n)];
    SelfOutside(uuid, n, hi);
    OutsideNotSelf(uuid, parent, n, hi, n);
    OutsideNarrower(uuid, parent, n, n + 1, hi, hi);
    RecordCallParts(uuid, c, parent, n);
    RecordRanged(uuid, c.body, q, n + 1);
    OwnRanged(uuid, c, parent, n);
    RangedNoParent(uuid, a, b, q, parent, n, n + 1, hi);
    RecordChildrenFirst(uuid, c.body, q, n + 1);
    OneChildFirst(b[0]);
    ChildrenFirstConcat(a, b);
  }

  // ---------------------------------------------------------------------------
  // The tree that was recorded
  // ---------------------------------------------------------------------------

  datatype Tree = Tree(span: Span, children: seq<Tree>)

  /** The spans as they should hang together: below a `run` hang the spans made in it; spans made in an
      `llm` or `tool` hang beside it, under the nearest enclosing `run`, and before it. */
  function Expected(uuid: nat -> Id, calls: seq<Call>, parent: Option<Id>, n: nat): seq<Tree>
    decreases calls, 0
  {
    if calls == [] then []
    else
      var init, c := calls[..|calls| - 1], calls[|calls| - 1];
      Expected(uuid, init, parent, n) + ExpectedCall(uuid, c, parent, n + Count(init))
  }

  function ExpectedCall(uuid: nat -> Id, c: Call, parent: Option<Id>, n: nat): seq<Tree>
    decreases c, 1
  {
    if c.kind == Run then [Tree(Own(uuid, c, parent, n), Expected(uuid, c.body, Some(uuid(n)), n + 1))]
    else Expected(uuid, c.body, parent, n + 1) + [Tree(Own(uuid, c, parent, n), [])]
  }

  function Tops(trees: seq<Tree>): (s: seq<Span>)
    ensures |s| == |trees|
  {
    seq(|trees|, i requires 0 <= i < |trees| => trees[i].span)
  }

  /** The spans with a given parent field, in order. */
  function Kids(s: seq<Span>, p: Option<Id>): seq<Span> {
    if s == [] then [] else Kids(s[..|s| - 1], p) + if s[|s| - 1].parent == p then [s[|s| - 1]] else []
  }

  lemma {:induction false} KidsConcat(a: seq<Span>, b: seq<Span>, p: Option<Id>)
    ensures Kids(a + b, p) == Kids(a, p) + Kids(b, p)
  {
    if b == [] {
      assert a + b == a;
    } else {
      assert (a + b)[..|a + b| - 1] == a + b[..|b| - 1];
      KidsConcat(a, b[..|b| - 1], p);
    }
  }

  lemma {:induction false} NoKids(s: seq<Span>, p: Option<Id>)
    requires forall i :: 0 <= i < |s| ==> s[i].parent != p
    ensures Kids(s, p) == []
  {
    if s != [] { NoKids(s[..|s| - 1], p); }
  }

  lemma TopsConcat(a: seq<Tree>, b: seq<Tree>)
    ensures Tops(a + b) == Tops(a) + Tops(b)
  {}

  lemma RangedNoKids(uuid: nat -> Id, s: seq<Span>, q: Option<Id>, lo: nat, hi: nat, p: Option<Id>)
    requires Ranged(uuid, s, q, lo, hi) && p != q && Outside(uuid, p, lo, hi)
    ensures Kids(s, p) == []
  {
    NoKids(s, p);
  }

  lemma OutsideNarrower(uuid: nat -> Id, p: Option<Id>, lo: nat, lo': nat, hi': nat, hi: nat)
    requires lo <= lo' && hi' <= hi && Outside(uuid, p, lo, hi)
    ensures Outside(uuid, p, lo', hi')
  {}

  lemma SelfOutside(uuid: nat -> Id, n: nat, hi: nat)
    requires FreshIds(uuid)
    ensures Outside(uuid, Some(uuid(n)), n + 1, hi)
  {}

  lemma ExpectedLast(uuid: nat -> Id, calls: seq<Call>, parent: Option<Id>, n: nat)
    requires calls != []
    ensures var init, c := calls[..|calls| - 1], calls[|calls| - 1];
            Expected(uuid, calls, parent, n) ==
            Expected(uuid, init, parent, n) + ExpectedCall(uuid, c, parent, n + Count(init))
  {}

  /** The spans that carry the outer parent are the tops of the expected trees, in order. */
  lemma {:induction false} RecordTops(uuid: nat -> Id, calls: seq<Call>, parent: Option<Id>, n: nat)
    requires FreshIds(uuid) && Outside(uuid, parent, n, n + Count(calls))
    ensures Kids(Record(uuid, calls, InTrace(parent), n), parent) == Tops(Expected(uuid, calls, parent, n))
    decreases calls, 0
  {
    if calls != [] {
      var init, c := calls[..|calls| - 1], calls[|calls| - 1];
      var m := n + Count(init);
      RecordLast(uuid, calls, InTrace(parent), n);
      ExpectedLast(uuid, calls, parent, n);
      hide FreshIds, Outside, Record, RecordCall, Expected, ExpectedCall, Count, CountCall, Kids, Tops;
      OutsideNarrower(uuid, parent, n, n, m, n + Count(calls));
      OutsideNarrower(uuid, parent, n, m, m + CountCall(c), n + Count(calls));
      RecordTops(uuid, init, parent, n);
      RecordCallTops(uuid, c, parent, m);
      KidsConcat(Record(uuid, init, InTrace(parent), n), RecordCall(uuid, c, InTrace(parent), m), parent);
      TopsConcat(Expected(uuid, init, parent, n), ExpectedCall(uuid, c, parent, m));
    }
  }

  lemma KidsAppend(s: seq<Span>, x: Span, p: Option<Id>)
    ensures Kids(s + [x], p) == Kids(s, p) + if x.parent == p then [x] else []
  {
    assert (s + [x])[..|s|] == s;
  }

  /** The recording of one call: that of its body, then its own span. */
  lemma RecordCallParts(uuid: nat -> Id, c: Call, parent: Option<Id>, n: nat)
    ensures RecordCall(uuid, c, InTrace(parent), n) ==
            Record(uuid, c.body, InTrace(if c.kind == Run then Some(uuid(n)) else parent), n + 1) +
            [Own(uuid, c, parent, n)]
  {}

  lemma OutsideNotSelf(uuid: nat -> Id, parent: Option<Id>, lo: nat, hi: nat, k: nat)
    requires Outside(uuid, parent, lo, hi) && lo <= k < hi
    ensures parent != Some(uuid(k))
  {
    assert Drawn(uuid, lo, hi, uuid(k));
  }

  lemma ExpectedCallParts(uuid: nat -> Id, c: Call, parent: Option<Id>, n: nat)
    ensures c.kind == Run ==> Tops(ExpectedCall(uuid, c, parent, n)) == [Own(uuid, c, parent, n)]
    ensures c.kind != Run ==> Tops(ExpectedCall(uuid, c, parent, n)) ==
                              Tops(Expected(uuid, c.body, parent, n + 1)) + [Own(uuid, c, parent, n)]
  {
    if c.kind != Run { TopsConcat(Expected(uuid, c.body, parent, n + 1), [Tree(Own(uuid, c, parent, n), [])]); }
  }

  lemma {:induction false} RecordCallTops(uuid: nat -> Id, c: Call, parent: Option<Id>, n: nat)
    requires FreshIds(uuid) && Outside(uuid, parent, n, n + CountCall(c))
    ensures Kids(RecordCall(uuid, c, InTrace(parent), n), parent) == Tops(ExpectedCall(uuid, c, parent, n))
    decreases c, 1
  {
    hide FreshIds, Outside, Ranged, Record, RecordCall, Expected, ExpectedCall, Kids, Tops, Count;
    var own, hi, q := Own(uuid, c, parent, n), n + CountCall(c), if c.kind == Run then Some(uuid(n)) else parent;
    var body := Record(uuid, c.body, InTrace(q), n + 1);
    RecordCallParts(uuid, c, parent, n);
    ExpectedCallParts(uuid, c, parent, n);
    KidsAppend(body, own, parent);
    OutsideNotSelf(uuid, parent, n, hi, n);
    OutsideNarrower(uuid, parent, n, n + 1, hi, hi);
    if c.kind == Run {
      RecordRanged(uuid, c.body, q, n + 1);
      RangedNoKids(uuid, body, q, n + 1, hi, parent);
    } else {
      RecordTops(uuid, c.body, parent, n + 1);
    }
  }

  /** Tree t is what the parent fields of e describe below its top. */
  ghost predicate Represents(e: seq<Span>, t: Tree) {
    && t.span in e
    && Kids(e, Some(t.span.id)) == Tops(t.children)
    && forall k :: 0 <= k < |t.children| ==> Represents(e, t.children[k])
  }

  ghost predicate AllRepresented(e: seq<Span>, trees: seq<Tree>) {
    forall k :: 0 <= k < |trees| ==> Represents(e, trees[k])
  }

  /** No span of s has a parent drawn from uuid(lo) to uuid(hi - 1). */
  ghost predicate NoneBelow(uuid: nat -> Id, s: seq<Span>, lo: nat, hi: nat) {
    forall i :: 0 <= i < |s| ==> Outside(uuid, s[i].parent, lo, hi)
  }

  lemma NoneBelowConcat(uuid: nat -> Id, a: seq<Span>, b: seq<Span>, lo: nat, hi: nat)
    requires NoneBelow(uuid, a, lo, hi) && NoneBelow(uuid, b, lo, hi)
    ensures NoneBelow(uuid, a + b, lo, hi)
  {}

  lemma NoneBelowNarrower(uuid: nat -> Id, s: seq<Span>, lo: nat, lo': nat, hi': nat, hi: nat)
    requires lo <= lo' && hi' <= hi && NoneBelow(uuid, s, lo, hi)
    ensures NoneBelow(uuid, s, lo', hi')
  {
    forall i | 0 <= i < |s|
      ensures Outside(uuid, s[i].parent, lo', hi')
    {
      OutsideNarrower(uuid, s[i].parent, lo, lo', hi', hi);
    }
  }

  lemma NoneBelowNoKids(uuid: nat -> Id, s: seq<Span>, lo: nat, hi: nat, k: nat)
    requires NoneBelow(uuid, s, lo, hi) && lo <= k < hi
    ensures Kids(s, Some(uuid(k))) == []
  {
    assert Drawn(uuid, lo, hi, uuid(k));
    assert forall i :: 0 <= i < |s| ==> Outside(uuid, s[i].parent, lo, hi);
    NoKids(s, Some(uuid(k)));
  }

  /** Spans recorded with ids from another range have no parent in this one. */
  lemma RangedNoneBelow(uuid: nat -> Id, s: seq<Span>, q: Option<Id>, lo: nat, hi: nat, lo': nat, hi': nat)
    requires FreshIds(uuid) && Ranged(uuid, s, q, lo, hi) && Outside(uuid, q, lo', hi') && (hi' <= lo || hi <= lo')
    ensures NoneBelow(uuid, s, lo', hi')
  {}

  lemma AllRepresentedConcat(e: seq<Span>, a: seq<Tree>, b: seq<Tree>)
    requires AllRepresented(e, a) && AllRepresented(e, b)
    ensures AllRepresented(e, a + b)
  {}

  /** The side conditions of the two halves of a call sequence. */
  lemma SplitNoneBelow(uuid: nat -> Id, init: seq<Call>, c: Call, parent: Option<Id>, n: nat,
                       pre: seq<Span>, post: seq<Span>)
    requires var hi := n + Count(init) + CountCall(c);
             && FreshIds(uuid) && Outside(uuid, parent, n, hi)
             && NoneBelow(uuid, pre, n, hi) && NoneBelow(uuid, post, n, hi)
    ensures var m, hi := n + Count(init), n + Count(init) + CountCall(c);
            && Outside(uuid, parent, n, m) && Outside(uuid, parent, m, hi)
            && NoneBelow(uuid, pre, n, m)
            && NoneBelow(uuid, RecordCall(uuid, c, InTrace(parent), m) + post, n, m)
            && NoneBelow(uuid, pre + Record(uuid, init, InTrace(parent), n), m, hi)
            && NoneBelow(uuid, post, m, hi)
  {
    var m, hi := n + Count(init), n + Count(init) + CountCall(c);
    hide FreshIds, Outside, NoneBelow, Ranged, Record, RecordCall, Count, CountCall;
    var a, b := Record(uuid, init, InTrace(parent), n), RecordCall(uuid, c, InTrace(parent), m);
    OutsideNarrower(uuid, parent, n, n, m, hi);
    OutsideNarrower(uuid, parent, n, m, hi, hi);
    RecordRanged(uuid, init, parent, n);
    RecordCallRanged(uuid, c, parent, m);
    RangedNoneBelow(uuid, a, parent, n, m, m, hi);
    RangedNoneBelow(uuid, b, parent, m, hi, n, m);
    NoneBelowNarrower(uuid, pre, n, n, m, hi);
    NoneBelowNarrower(uuid, pre, n, m, hi, hi);
    NoneBelowNarrower(uuid, post, n, n, m, hi);
    NoneBelowNarrower(uuid, post, n, m, hi, hi);
    NoneBelowConcat(uuid, b, post, n, m);
    NoneBelowConcat(uuid, pre, a, m, hi);
  }

  /** However a recording is embedded among spans that do not refer into it, it represents the tree. */
  lemma {:induction false} RecordRepresents(uuid: nat -> Id, calls: seq<Call>, parent: Option<Id>, n: nat,
                                            pre: seq<Span>, post: seq<Span>)
    requires FreshIds(uuid) && Outside(uuid, parent, n, n + Count(calls))
    requires NoneBelow(uuid, pre, n, n + Count(calls)) && NoneBelow(uuid, post, n, n + Count(calls))
    ensures AllRepresented(pre + Record(uuid, calls, InTrace(parent), n) + post, Expected(uuid, calls, parent, n))
    decreases calls, 0
  {
    hide FreshIds, Outside, NoneBelow, AllRepresented, RecordCall, ExpectedCall, CountCall;
    if calls == [] {
      assert AllRepresented(pre + [] + post, []) by { NoneRepresented(pre + [] + post); }
    } else {
      var init, c := calls[..|calls| - 1], calls[|calls| - 1];
      var m := n + Count(init);
      var a, b := Record(uuid, init, InTrace(parent), n), RecordCall(uuid, c, InTrace(parent), m);
      SplitNoneBelow(uuid, init, c, parent, n, pre, post);
      RecordRepresents(uuid, init, parent, n, pre, b + post);
      RecordCallRepresents(uuid, c, parent, m, pre + a, post);
      var e := pre + (a + b) + post;
      assert e == pre + a + (b + post);
      assert e == (pre + a) + b + post;
      AllRepresentedConcat(e, Expected(uuid, init, parent, n), ExpectedCall(uuid, c, parent, m));
    }
  }

  lemma NoneRepresented(e: seq<Span>)
    ensures AllRepresented(e, [])
  {}

  lemma KidsOfThree(pre: seq<Span>, mid: seq<Span>, x: Span, post: seq<Span>, p: Option<Id>)
    requires Kids(pre, p) == [] && Kids(post, p) == [] && x.parent != p
    ensures Kids(pre + (mid + [x]) + post, p) == Kids(mid, p)
  {
    KidsConcat(pre + (mid + [x]), post, p);
    KidsConcat(pre, mid + [x], p);
    KidsAppend(mid, x, p);
  }

  /** The side conditions of the body of a call. */
  lemma BodyNoneBelow(uuid: nat -> Id, c: Call, parent: Option<Id>, n: nat, pre: seq<Span>, post: seq<Span>)
    requires var hi := n + CountCall(c);
             && FreshIds(uuid) && Outside(uuid, parent, n, hi)
             && NoneBelow(uuid, pre, n, hi) && NoneBelow(uuid, post, n, hi)
    ensures var hi := n + CountCall(c);
            && Outside(uuid, if c.kind == Run then Some(uuid(n)) else parent, n + 1, hi)
            && NoneBelow(uuid, pre, n + 1, hi)
            && NoneBelow(uuid, [Own(uuid, c, parent, n)] + post, n + 1, hi)
  {
    var hi := n + CountCall(c);
    SelfOutside(uuid, n, hi);
    OutsideNarrower(uuid, parent, n, n + 1, hi, hi);
    NoneBelowNarrower(uuid, pre, n, n + 1, hi, hi);
    NoneBelowNarrower(uuid, post, n, n + 1, hi, hi);
    hide FreshIds, Outside;
    NoneBelowConcat(uuid, [Own(uuid, c, parent, n)], post, n + 1, hi);
  }

  lemma BodyKids(uuid: nat -> Id, c: Call, parent: Option<Id>, n: nat)
    requires FreshIds(uuid) && Outside(uuid, parent, n, n + CountCall(c))
    ensures var q := if c.kind == Run then Some(uuid(n)) else parent;
            Kids(Record(uuid, c.body, InTrace(q), n + 1), Some(uuid(n))) ==
            if c.kind == Run then Tops(Expected(uuid, c.body, Some(uuid(n)), n + 1)) else []
  {
    hide FreshIds, Outside, Ranged, Record, Expected;
    var hi := n + CountCall(c);
    SelfOutside(uuid, n, hi);
    if c.kind == Run {
      RecordTops(uuid, c.body, Some(uuid(n)), n + 1);
    } else {
      OutsideNotSelf(uuid, parent, n, hi, n);
      RecordRanged(uuid, c.body, parent, n + 1);
      RangedNoKids(uuid, Record(uuid, c.body, InTrace(parent), n + 1), parent, n + 1, hi, Some(uuid(n)));
    }
  }

  /** Below the span of a call hang the tops of its body, if it is a `run`, and nothing otherwise. */
  lemma CallKids(uuid: nat -> Id, c: Call, parent: Option<Id>, n: nat, pre: seq<Span>, post: seq<Span>)
    requires var hi := n + CountCall(c);
             && FreshIds(uuid) && Outside(uuid, parent, n, hi)
             && NoneBelow(uuid, pre, n, hi) && NoneBelow(uuid, post, n, hi)
    ensures Kids(pre + RecordCall(uuid, c, InTrace(parent), n) + post, Some(uuid(n))) ==
            if c.kind == Run then Tops(Expected(uuid, c.body, Some(uuid(n)), n + 1)) else []
  {
    hide FreshIds, Outside, NoneBelow, Record, RecordCall, Expected, Kids;
    var hi, own, q := n + CountCall(c), Own(uuid, c, parent, n), if c.kind == Run then Some(uuid(n)) else parent;
    RecordCallParts(uuid, c, parent, n);
    OutsideNotSelf(uuid, parent, n, hi, n);
    NoneBelowNoKids(uuid, pre, n, hi, n);
    NoneBelowNoKids(uuid, post, n, hi, n);
    KidsOfThree(pre, Record(uuid, c.body, InTrace(q), n + 1), own, post, Some(uuid(n)));
    BodyKids(uuid, c, parent, n);
  }

  lemma {:induction false} RecordCallRepresents(uuid: nat -> Id, c: Call, parent: Option<Id>, n: nat,
                                                pre: seq<Span>, post: seq<Span>)
    requires FreshIds(uuid) && Outside(uuid, parent, n, n + CountCall(c))
    requires NoneBelow(uuid, pre, n, n + CountCall(c)) && NoneBelow(uuid, post, n, n + CountCall(c))
    ensures AllRepresented(pre + RecordCall(uuid, c, InTrace(parent), n) + post, ExpectedCall(uuid, c, parent, n))
    decreases c, 1
  {
    hide FreshIds, Outside, NoneBelow, AllRepresented, Record, RecordCall, Expected, Kids;
    var own, q := Own(uuid, c, parent, n), if c.kind == Run then Some(uuid(n)) else parent;
    var body, inside := Record(uuid, c.body, InTrace(q), n + 1), Expected(uuid, c.body, q, n + 1);
    var e := pre + RecordCall(uuid, c, InTrace(parent), n) + post;
    RecordCallParts(uuid, c, parent, n);
    BodyNoneBelow(uuid, c, parent, n, pre, post);
    RecordRepresents(uuid, c.body, q, n + 1, pre, [own] + post);
    CallKids(uuid, c, parent, n, pre, post);
    assert e == pre + body + ([own] + post);
    assert e[|pre| + |body|] == own;
    if c.kind == Run {
      OneRepresented(e, own, inside);
    } else {
      NoneRepresented(e);
      OneRepresented(e, own, []);
      AllRepresentedConcat(e, inside, [Tree(own, [])]);
    }
  }

  lemma OneRepresented(e: seq<Span>, x: Span, children: seq<Tree>)
    requires x in e && Kids(e, Some(x.id)) == Tops(children) && AllRepresented(e, children)
    ensures AllRepresented(e, [Tree(x, children)])
  {}

  // ---------------------------------------------------------------------------
  // The round trip
  // ---------------------------------------------------------------------------

  ghost predicate HasId(s: seq<Span>, id: Id) {
    exists i :: 0 <= i < |s| && s[i].id == id
  }

  lemma HasIdConcat(a: seq<Span>, b: seq<Span>, id: Id)
    requires HasId(a, id) || HasId(b, id)
    ensures HasId(a + b, id)
  {
    if HasId(a, id) {
      var i :| 0 <= i < |a| && a[i].id == id;
      assert (a + b)[i].id == id;
    } else {
      var i :| 0 <= i < |b| && b[i].id == id;
      assert (a + b)[|a| + i].id == id;
    }
  }

  /** Every drawn id belongs to a recorded span. */
  lemma {:induction false} AllRecorded(uuid: nat -> Id, calls: seq<Call>, parent: Option<Id>, n: nat, k: nat)
    requires n <= k < n + Count(calls)
    ensures HasId(Record(uuid, calls, InTrace(parent), n), uuid(k))
    decreases calls, 0
  {
    hide HasId, RecordCall, CountCall;
    var init, c := calls[..|calls| - 1], calls[|calls| - 1];
    if k < n + Count(init) {
      AllRecorded(uuid, init, parent, n, k);
    } else {
      CallRecorded(uuid, c, parent, n + Count(init), k);
    }
    HasIdConcat(Record(uuid, init, InTrace(parent), n), RecordCall(uuid, c, InTrace(parent), n + Count(init)), uuid(k));
  }

  lemma {:induction false} CallRecorded(uuid: nat -> Id, c: Call, parent: Option<Id>, n: nat, k: nat)
    requires n <= k < n + CountCall(c)
    ensures HasId(RecordCall(uuid, c, InTrace(parent), n), uuid(k))
    decreases c, 1
  {
    var q := if c.kind == Run then Some(uuid(n)) else parent;
    RecordCallParts(uuid, c, parent, n);
    if k == n {
      assert [Own(uuid, c, parent, n)][0].id == uuid(k);
    } else {
      AllRecorded(uuid, c.body, q, n + 1, k);
    }
    HasIdConcat(Record(uuid, c.body, InTrace(q), n + 1), [Own(uuid, c, parent, n)], uuid(k));
  }

  /** The list is closed under parent ids, all of them non-empty. */
  ghost predicate Closed(e: seq<Span>) {
    forall i :: 0 <= i < |e| && e[i].parent.Some? ==> e[i].parent.value != Id("") && Position(e, e[i].parent.value) >= 0
  }

  /** What `trace` hands over: distinct ids, closed under parents, inner calls first. */
  lemma TraceShape(uuid: nat -> Id, calls: seq<Call>)
    requires FreshIds(uuid)
    ensures var e := Record(uuid, calls, InTrace(None), 0);
            DistinctIds(e) && Closed(e) && ChildrenFirst(e) && (forall i :: 0 <= i < |e| ==> e[i].id != Id(""))
  {
    var e := Record(uuid, calls, InTrace(None), 0);
    RecordDistinct(uuid, calls, None, 0);
    RecordChildrenFirst(uuid, calls, None, 0);
    RecordRanged(uuid, calls, None, 0);
    forall i | 0 <= i < |e| && e[i].parent.Some?
      ensures e[i].parent.value != Id("") && Position(e, e[i].parent.value) >= 0
    {
      assert Drawn(uuid, 0, Count(calls), e[i].parent.value);
      var k :| 0 <= k < Count(calls) && e[i].parent.value == uuid(k);
      AllRecorded(uuid, calls, None, 0, k);
    }
    forall i | 0 <= i < |e|
      ensures e[i].id != Id("")
    {
      assert Drawn(uuid, 0, Count(calls), e[i].id);
    }
  }

  lemma ParentIsKid(e: seq<Span>, p: int, id: Option<Id>, i: nat)
    requires DistinctIds(e) && Closed(e) && i < |e| && -1 <= p < |e|
    requires id == if p < 0 then None else Some(e[p].id)
    ensures Parent(e, i) == p <==> e[i].parent == id
  {}

  lemma PickAppend(e: seq<Span>, c: seq<nat>, i: nat)
    requires i < |e| && forall k :: 0 <= k < |c| ==> c[k] < |e|
    ensures Pick(e, c + [i]) == Pick(e, c) + [e[i]]
  {}

  lemma ListedLast(e: seq<Span>, p: int, n: nat)
    requires 0 < n <= |e|
    ensures Pick(e, Listed(e, p, n)) == Pick(e, Listed(e, p, n - 1)) + if Parent(e, n - 1) == p then [e[n - 1]] else []
  {
    if Parent(e, n - 1) == p {
      PickAppend(e, Listed(e, p, n - 1), n - 1);
    } else {
      assert Listed(e, p, n) == Listed(e, p, n - 1);
    }
  }

  lemma KidsLast(e: seq<Span>, id: Option<Id>, n: nat)
    requires 0 < n <= |e|
    ensures Kids(e[..n], id) == Kids(e[..n - 1], id) + if e[n - 1].parent == id then [e[n - 1]] else []
  {
    assert e[..n] == e[..n - 1] + [e[n - 1]];
    KidsAppend(e[..n - 1], e[n - 1], id);
  }

  /** In a closed list with distinct ids the lists of `buildSpanTree` are the spans with that parent field. */
  lemma {:induction false} ListedAreKids(e: seq<Span>, p: int, id: Option<Id>, n: nat)
    requires DistinctIds(e) && Closed(e) && n <= |e| && -1 <= p < |e|
    requires id == if p < 0 then None else Some(e[p].id)
    ensures Pick(e, Listed(e, p, n)) == Kids(e[..n], id)
  {
    if n > 0 {
      hide DistinctIds, Closed, Parent, Pick, Kids, Listed;
      ListedAreKids(e, p, id, n - 1);
      ParentIsKid(e, p, id, n - 1);
      ListedLast(e, p, n);
      KidsLast(e, id, n);
    }
  }

  ghost function NodeSet(nodes: seq<SpanNode>): set<SpanNode> {
    set x | x in nodes
  }

  /** The heap below a node has the shape and the spans of t. */
  ghost predicate Shows(nodes: set<SpanNode>, x: SpanNode, t: Tree)
    reads nodes
    decreases t
  {
    && x in nodes && x.span == t.span && |x.children| == |t.children|
    && forall k :: 0 <= k < |t.children| ==> Shows(nodes, x.children[k], t.children[k])
  }

  lemma {:induction false} AttachedShows(e: seq<Span>, nodes: seq<SpanNode>, i: nat, t: Tree)
    requires DistinctIds(e) && Closed(e) && Nodes(e, nodes) && Attached(e, nodes, |e|)
    requires i < |e| && e[i] == t.span && Represents(e, t)
    ensures Shows(NodeSet(nodes), nodes[i], t)
    decreases t
  {
    var c := Children(e, i);
    ListedAreKids(e, i, Some(e[i].id), |e|);
    assert e[..|e|] == e;
    assert Pick(e, c) == Tops(t.children);
    forall k | 0 <= k < |t.children|
      ensures Shows(NodeSet(nodes), nodes[i].children[k], t.children[k])
    {
      assert Pick(e, c)[k] == Tops(t.children)[k];
      AttachedShows(e, nodes, c[k], t.children[k]);
    }
  }

  /** The forest that was recorded, found again in the lists of the flat form. */
  lemma FlatForest(uuid: nat -> Id, calls: seq<Call>)
    requires FreshIds(uuid)
    ensures var e := Record(uuid, calls, InTrace(None), 0);
            Pick(e, Roots(e)) == Tops(Expected(uuid, calls, None, 0)) &&
            AllRepresented(e, Expected(uuid, calls, None, 0))
  {
    hide FreshIds, Record, Expected, Kids, Closed, DistinctIds, ChildrenFirst, AllRepresented, Tops, Pick, Roots;
    var e := Record(uuid, calls, InTrace(None), 0);
    TraceShape(uuid, calls);
    TraceTops(uuid, calls);
    TraceRepresents(uuid, calls);
    RootsAreKids(e);
  }

  lemma TraceTops(uuid: nat -> Id, calls: seq<Call>)
    requires FreshIds(uuid)
    ensures Kids(Record(uuid, calls, InTrace(None), 0), None) == Tops(Expected(uuid, calls, None, 0))
  {
    hide FreshIds, Record, Expected, Kids, Tops, Count;
    RecordTops(uuid, calls, None, 0);
  }

  lemma TraceRepresents(uuid: nat -> Id, calls: seq<Call>)
    requires FreshIds(uuid)
    ensures AllRepresented(Record(uuid, calls, InTrace(None), 0), Expected(uuid, calls, None, 0))
  {
    hide FreshIds, Record, Expected, AllRepresented, Count, Drawn;
    var none: seq<Span>, e := [], Record(uuid, calls, InTrace(None), 0);
    RecordRepresents(uuid, calls, None, 0, none, none);
    assert none + e + none == e;
  }

  lemma RootsAreKids(e: seq<Span>)
    requires DistinctIds(e) && Closed(e)
    ensures Pick(e, Roots(e)) == Kids(e, None)
  {
    hide DistinctIds, Closed, Kids, Listed, Pick;
    ListedAreKids(e, -1, None, |e|);
    assert e[..|e|] == e;
  }

  /** Recording a trace and rebuilding it: the forest has the recorded calls' spans with their siblings in
      order, below the nearest enclosing `run`. */
  method RoundTrip(uuid: nat -> Id, calls: seq<Call>) returns (roots: seq<SpanNode>, ghost nodes: seq<SpanNode>)
    requires FreshIds(uuid)
    ensures |roots| == |Expected(uuid, calls, None, 0)|
    ensures forall k :: 0 <= k < |roots| ==> Shows(NodeSet(nodes), roots[k], Expected(uuid, calls, None, 0)[k])
  {
    hide FreshIds, Record, Expected, Represents, Closed, DistinctIds;
    var sent := TraceCalls(uuid, calls, true);
    ghost var e, trees := sent.value, Expected(uuid, calls, None, 0);
    TraceShape(uuid, calls);
    EntriesOfDistinct(e);
    FlatForest(uuid, calls);
    roots, nodes := BuildSpanTree(sent.value);
    forall k | 0 <= k < |roots|
      ensures Shows(NodeSet(nodes), roots[k], trees[k])
    {
      assert Pick(e, Roots(e))[k] == Tops(trees)[k];
      AttachedShows(e, nodes, Roots(e)[k], trees[k]);
    }
  }

  // ---------------------------------------------------------------------------
  // Depths of recorded spans
  // ---------------------------------------------------------------------------

  lemma {:induction false} ChainRises(e: seq<Span>, i: nat, j: nat, k: nat)
    requires DistinctIds(e) && ChildrenFirst(e) && i < |e| && j < k && Ancestor(e, i, k) >= 0
    ensures Ancestor(e, i, j) >= 0 && Ancestor(e, i, j) < Ancestor(e, i, k)
    decreases k
  {
    var a := Ancestor(e, i, k - 1);
    assert a >= 0 && Ancestor(e, i, k) == Parent(e, a);
    assert e[a].parent == Some(e[Parent(e, a)].id);
    if j < k - 1 { ChainRises(e, i, j, k - 1); }
  }

  /** Since inner calls are recorded first, a recorded span gets depth 0 at the top and 1 everywhere else;
      the depths are right exactly when no span hangs below a span that itself has a parent. */
  lemma RecordedDepths(uuid: nat -> Id, calls: seq<Call>)
    requires FreshIds(uuid)
    ensures var e := Record(uuid, calls, InTrace(None), 0);
            && (forall i :: 0 <= i < |e| ==> Reachable(e, i) && Depth(e, i) == if Parent(e, i) < 0 then 0 else 1)
            && (DepthsRight(e) <==> forall i :: 0 <= i < |e| && Parent(e, i) >= 0 ==> Parent(e, Parent(e, i)) < 0)
  {
    var e := Record(uuid, calls, InTrace(None), 0);
    TraceShape(uuid, calls);
    forall i | 0 <= i < |e|
      ensures Reachable(e, i) && Depth(e, i) == if Parent(e, i) < 0 then 0 else 1
      ensures exists k :: 0 <= k && Level(e, i, k)
    {
      RecordedReachable(e, i);
    }
    DepthsRightIff(e);
  }

  function OneRun(name: string, body: seq<Call>): seq<Call> {
    [Call(Run, name, true, body)]
  }

  lemma RecordOneCall(uuid: nat -> Id, c: Call, ctx: Context, n: nat)
    ensures Record(uuid, [c], ctx, n) == RecordCall(uuid, c, ctx, n)
  {
    var none: seq<Call> := [];
    assert [c][..0] == none && Count(none) == 0 && Record(uuid, none, ctx, n) == [];
  }

  lemma RecordOneRun(uuid: nat -> Id, name: string, body: seq<Call>, parent: Option<Id>, n: nat)
    ensures Record(uuid, OneRun(name, body), InTrace(parent), n) ==
            Record(uuid, body, InTrace(Some(uuid(n))), n + 1) + [Span(uuid(n), parent, name, Success)]
  {
    RecordOneCall(uuid, Call(Run, name, true, body), InTrace(parent), n);
  }

  /** A run that calls a model whose callback calls a tool that throws: both spans hang below the run. */
  lemma MixedKinds(uuid: nat -> Id)
    ensures var tool := Call(Tool, "tool:t", false, []);
            Record(uuid, OneRun("r", [Call(Llm, "llm:m", true, [tool])]), InTrace(None), 0) ==
            [Span(uuid(2), Some(uuid(0)), "tool:t", Error), Span(uuid(1), Some(uuid(0)), "llm:m", Success),
             Span(uuid(0), None, "r", Success)]
  {
    var none: seq<Call> := [];
    var tool := Call(Tool, "tool:t", false, none);
    var llm := Call(Llm, "llm:m", true, [tool]);
    var ctx := InTrace(Some(uuid(0)));
    assert Record(uuid, none, ctx, 3) == [];
    RecordOneCall(uuid, tool, ctx, 2);
    assert RecordCall(uuid, tool, ctx, 2) == [Span(uuid(2), Some(uuid(0)), "tool:t", Error)];
    RecordOneCall(uuid, llm, ctx, 1);
    assert RecordCall(uuid, llm, ctx, 1) ==
           Record(uuid, [tool], ctx, 2) + [Span(uuid(1), Some(uuid(0)), "llm:m", Success)];
    RecordOneRun(uuid, "r", [llm], None, 0);
  }

  /** Three nested runs: the innermost span is two levels below its root, and its node says depth 1. */
  lemma ThreeRunsWrong(uuid: nat -> Id)
    requires FreshIds(uuid)
    ensures var e := Record(uuid, OneRun("a", OneRun("b", OneRun("c", []))), InTrace(None), 0);
            && e == [Span(uuid(2), Some(uuid(1)), "c", Success), Span(uuid(1), Some(uuid(0)), "b", Success),
                     Span(uuid(0), None, "a", Success)]
            && Level(e, 0, 2) && Depth(e, 0) == 1 && !DepthsRight(e)
  {
    var none: seq<Call> := [];
    assert Record(uuid, none, InTrace(Some(uuid(2))), 3) == [];
    hide Record, Level, Depth, DepthsRight, OneRun;
    RecordOneRun(uuid, "c", none, Some(uuid(1)), 2);
    RecordOneRun(uuid, "b", OneRun("c", none), Some(uuid(0)), 1);
    RecordOneRun(uuid, "a", OneRun("b", OneRun("c", none)), None, 0);
    ThreeLevels([Span(uuid(2), Some(uuid(1)), "c", Success), Span(uuid(1), Some(uuid(0)), "b", Success),
                 Span(uuid(0), None, "a", Success)]);
  }

  lemma ThreeLevels(e: seq<Span>)
    requires |e| == 3 && DistinctIds(e) && e[1].id != Id("") && e[2].id != Id("")
    requires e[0].parent == Some(e[1].id) && e[1].parent == Some(e[2].id) && e[2].parent == None
    ensures Level(e, 0, 2) && Depth(e, 0) == 1 && !DepthsRight(e)
  {
    assert Parent(e, 0) == 1 && Parent(e, 1) == 2 && Parent(e, 2) == -1;
    assert Ancestor(e, 0, 0) == 0;
    assert Ancestor(e, 0, 1) == 1;
    assert Ancestor(e, 0, 2) == 2;
    assert Ancestor(e, 0, 3) == -1;
    assert Level(e, 0, 2);
  }

  lemma RecordedReachable(e: seq<Span>, i: nat)
    requires DistinctIds(e) && ChildrenFirst(e) && i < |e|
    ensures Reachable(e, i) && Depth(e, i) == if Parent(e, i) < 0 then 0 else 1
    ensures exists k :: 0 <= k && Level(e, i, k)
  {
    if Cyclic(e, i) {
      var j, k :| 0 <= j < k && Ancestor(e, i, j) >= 0 && Ancestor(e, i, j) == Ancestor(e, i, k);
      ChainRises(e, i, j, k);
    }
    ReachableIffAcyclic(e, i);
    AcyclicEnds(e, i);
    var k := LastStep(e, i, |e|);
    if Parent(e, i) >= 0 {
      assert e[i].parent == Some(e[Parent(e, i)].id);
    }
  }

  lemma {:induction false} LastStep(e: seq<Span>, i: nat, n: nat) returns (k: nat)
    requires i < |e| && Ancestor(e, i, n) < 0
    ensures Level(e, i, k)
  {
    if Ancestor(e, i, n - 1) >= 0 {
      k := n - 1;
    } else {
      k := LastStep(e, i, n - 1);
    }
  }
}
