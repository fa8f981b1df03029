/** The batching, retrying and dropping of `sdk-node/src/client.ts`. */
module BatchClient {

  /** An execution graph: its identity, and whether it can be encoded as JSON. Span attributes hold any
      value, a cyclic object or a big integer among them, and such values cannot. */
  datatype Graph = Graph(id: nat, encodes: bool)

  datatype Config = Config(batchSize: int, maxRetries: int)

  /** A batch is `Unsent` when encoding the body of its first request throws: the batch is already off the
      queue then, and nothing refers to it any more. */
  datatype Fate = InFlight | Delivered | Dropped | Unsent

  /** A batch cut from the queue, with the number of requests made for it. */
  datatype Batch = Batch(graphs: seq<Graph>, attempts: nat, fate: Fate)

  /** What the client reacts to: calls of `enqueue`, `flush` and `shutdown`, the interval timer, and the
      outcome of the pending request of a batch. */
  datatype Event = Enqueue(graph: Graph) | FlushNow | Tick | Shutdown | Answer(batch: nat, ok: bool)

  datatype State = State(queue: seq<Graph>, timer: bool, batches: seq<Batch>)

  const INITIAL: State := State([], true, [])

  // ---------------------------------------------------------------------------
  // Steps as functions
  // ---------------------------------------------------------------------------

  /** The delete count of `splice(0, batchSize)`. */
  function Cut(c: Config, queue: seq<Graph>): (n: nat)
    ensures n <= |queue|
  {
    if c.batchSize <= 0 then 0 else if c.batchSize < |queue| then c.batchSize else |queue|
  }

  predicate Encodable(graphs: seq<Graph>) {
    forall g :: g in graphs ==> g.encodes
  }

  /** `_send` encodes the whole batch before it makes the first request. */
  function Sent(graphs: seq<Graph>): Batch {
    if Encodable(graphs) then Batch(graphs, 1, InFlight) else Batch(graphs, 0, Unsent)
  }

  function Flush(c: Config, s: State): State {
    if s.queue == [] then s
    else
      var n := Cut(c, s.queue);
      s.(queue := s.queue[n..], batches := s.batches + [Sent(s.queue[..n])])
  }

  /** The request of a batch ended: deliver, retry, or drop after the last attempt. */
  function Settle(c: Config, b: Batch, ok: bool): Batch {
    if ok then b.(fate := Delivered)
    else if b.attempts < c.maxRetries then b.(attempts := b.attempts + 1)
    else b.(fate := Dropped)
  }

  function Apply(c: Config, s: State, e: Event): State {
    match e
    case Enqueue(g) =>
      var t := s.(queue := s.queue + [g]);
      if |t.queue| >= c.batchSize then Flush(c, t) else t
    case FlushNow => Flush(c, s)
    case Tick => if s.timer then Flush(c, s) else s
    case Shutdown => Flush(c, s.(timer := false))
    case Answer(i, ok) =>
      if i < |s.batches| && s.batches[i].fate == InFlight
      then s.(batches := s.batches[i := Settle(c, s.batches[i], ok)]) else s
  }

  function Run(c: Config, events: seq<Event>): State {
    if events == [] then INITIAL else Apply(c, Run(c, events[..|events| - 1]), events[|events| - 1])
  }

  // ---------------------------------------------------------------------------
  // The client in place
  // ---------------------------------------------------------------------------

  class Client {
    const config: Config
    var queue: seq<Graph>
    var timer: bool
    /** One entry per call of `_send` made by `flush`. */
    var batches: seq<Batch>

    /** What happened so far. */
    ghost var events: seq<Event>

    function Snapshot(): State
      reads this
    {
      State(queue, timer, batches)
    }

    ghost predicate Valid()
      reads this
    {
      Snapshot() == Run(config, events)
    }

    constructor (c: Config)
      ensures Valid() && config == c && events == []
    {
      config, queue, timer, batches := c, [], true, [];
      events := [];
    }

    /** The body of `flush`. */
    method Splice()
      modifies this`queue, this`batches
      ensures Snapshot() == Flush(config, old(Snapshot()))
    {
      if |queue| == 0 { return; }
      var n := Cut(config, queue);
      var batch := queue[..n];
      queue := queue[n..];
      Send(batch);
    }

    /** `_send` up to its first request: `JSON.stringify` of the batch stands before the `try`. */
    method Send(graphs: seq<Graph>)
      modifies this`batches
      ensures batches == old(batches) + [Sent(graphs)]
    {
      for i := 0 to |graphs|
        invariant Encodable(graphs[..i])
        invariant batches == old(batches)
      {
        if !graphs[i].encodes {
          batches := batches + [Batch(graphs, 0, Unsent)];
          return;
        }
      }
      assert graphs[..|graphs|] == graphs;
      batches := batches + [Batch(graphs, 1, InFlight)];
    }

    ghost method Record(e: Event, before: State)
      requires before == Run(config, events) && Snapshot() == Apply(config, before, e)
      modifies this`events
      ensures Valid() && events == old(events) + [e]
    {
      assert (events + [e])[..|events|] == events;
      events := events + [e];
    }

    method DoEnqueue(graph: Graph)
      requires Valid()
      modifies this
      ensures Valid() && events == old(events) + [Enqueue(graph)]
    {
      queue := queue + [graph];
      if |queue| >= config.batchSize { Splice(); }
      Record(Enqueue(graph), old(Snapshot()));
    }

    method DoFlush()
      requires Valid()
      modifies this
      ensures Valid() && events == old(events) + [FlushNow]
    {
      Splice();
      Record(FlushNow, old(Snapshot()));
    }

    method OnTimer()
      requires Valid()
      modifies this
      ensures Valid() && events == old(events) + [Tick]
    {
      if timer { Splice(); }
      Record(Tick, old(Snapshot()));
    }

    /** Afterwards nothing is queued, if batches are not empty. */
    method DoShutdown()
      requires Valid()
      modifies this
      ensures Valid() && events == old(events) + [Shutdown]
      ensures config.batchSize >= 1 ==> queue == []
    {
      RunBounded(config, events);
      if timer { timer := false; }
      Splice();
      Record(Shutdown, old(Snapshot()));
    }

    /** `_send` of batch i resumes with the outcome of its request. */
    method OnAnswer(i: nat, ok: bool)
      requires Valid() && i < |batches| && batches[i].fate == InFlight
      modifies this
      ensures Valid() && events == old(events) + [Answer(i, ok)]
    {
      var b := batches[i];
      if ok {
        b := b.(fate := Delivered);
      } else if b.attempts < config.maxRetries {
        b := b.(attempts := b.attempts + 1);
      } else {
        b := b.(fate := Dropped);
      }
      batches := batches[i := b];
      Record(Answer(i, ok), old(Snapshot()));
    }
  }

  // ---------------------------------------------------------------------------
  // Order and accounting
  // ---------------------------------------------------------------------------

  /** The graphs handed to `enqueue`, in order. */
  function Enqueued(events: seq<Event>): seq<Graph> {
    if events == [] then []
    else
      var e := events[|events| - 1];
      Enqueued(events[..|events| - 1]) + if e.Enqueue? then [e.graph] else []
  }

  /** The graphs of all batches, in order. */
  function Taken(batches: seq<Batch>): seq<Graph> {
    if batches == [] then [] else Taken(batches[..|batches| - 1]) + batches[|batches| - 1].graphs
  }

  lemma {:induction false} TakenUpdate(batches: seq<Batch>, i: nat, b: Batch)
    requires i < |batches| && b.graphs == batches[i].graphs
    ensures Taken(batches[i := b]) == Taken(batches)
  {
    var n := |batches| - 1;
    if i < n {
      TakenUpdate(batches[..n], i, b);
      assert batches[i := b][..n] == batches[..n][i := b];
    } else {
      assert batches[i := b][..n] == batches[..n];
    }
  }

  lemma FlushAccounts(c: Config, s: State)
    ensures Taken(Flush(c, s).batches) + Flush(c, s).queue == Taken(s.batches) + s.queue
  {
    if s.queue != [] {
      var n := Cut(c, s.queue);
      var t := Flush(c, s);
      assert t.batches[..|t.batches| - 1] == s.batches;
      assert s.queue == s.queue[..n] + s.queue[n..];
    }
  }

  lemma OrderStep(c: Config, s: State, e: Event, order: seq<Graph>)
    requires Taken(s.batches) + s.queue == order
    ensures var t := Apply(c, s, e); Taken(t.batches) + t.queue == order + if e.Enqueue? then [e.graph] else []
  {
    hide Taken, Flush;
    match e
    case Enqueue(g) =>
      assert Taken(s.batches) + (s.queue + [g]) == order + [g];
      FlushAccounts(c, s.(queue := s.queue + [g]));
    case FlushNow => FlushAccounts(c, s);
    case Tick => FlushAccounts(c, s);
    case Shutdown => FlushAccounts(c, s.(timer := false));
    case Answer(i, ok) =>
      if i < |s.batches| { TakenUpdate(s.batches, i, Settle(c, s.batches[i], ok)); }
  }

  /** The batches one after the other, followed by the queue, are what was enqueued, in order. */
  lemma {:induction false} EnqueueOrder(c: Config, events: seq<Event>)
    ensures var s := Run(c, events); Taken(s.batches) + s.queue == Enqueued(events)
  {
    if events != [] {
      hide Apply, Taken;
      EnqueueOrder(c, events[..|events| - 1]);
      OrderStep(c, Run(c, events[..|events| - 1]), events[|events| - 1], Enqueued(events[..|events| - 1]));
    } else {
      assert Taken(INITIAL.batches) == [];
    }
  }

  /** The graphs of the batches with a given fate. */
  function WithFate(batches: seq<Batch>, f: Fate): multiset<Graph> {
    if batches == [] then multiset{}
    else WithFate(batches[..|batches| - 1], f) +
         if batches[|batches| - 1].fate == f then multiset(batches[|batches| - 1].graphs) else multiset{}
  }

  lemma {:induction false} FatesPartition(batches: seq<Batch>)
    ensures multiset(Taken(batches)) ==
            WithFate(batches, InFlight) + WithFate(batches, Delivered) + WithFate(batches, Dropped) +
            WithFate(batches, Unsent)
  {
    if batches != [] {
      FatesPartition(batches[..|batches| - 1]);
    }
  }

  /** Every enqueued graph is queued, in flight, delivered, dropped after its requests, or gone without a
      request, and only one of these. */
  lemma EveryGraphAccounted(c: Config, events: seq<Event>)
    ensures var s := Run(c, events);
            multiset(Enqueued(events)) ==
            multiset(s.queue) + WithFate(s.batches, InFlight) + WithFate(s.batches, Delivered) +
            WithFate(s.batches, Dropped) + WithFate(s.batches, Unsent)
  {
    EnqueueOrder(c, events);
    FatesPartition(Run(c, events).batches);
  }

  // ---------------------------------------------------------------------------
  // Sizes and attempts
  // ---------------------------------------------------------------------------

  /** The number of requests after which a batch is given up. */
  function Limit(c: Config): nat {
    if c.maxRetries < 1 then 1 else c.maxRetries
  }

  ghost predicate Bounded(c: Config, s: State) {
    && (c.batchSize >= 1 ==> |s.queue| < c.batchSize)
    && (forall i :: 0 <= i < |s.batches| ==> BatchBounded(c, s.batches[i]))
  }

  ghost predicate BatchBounded(c: Config, b: Batch) {
    && (c.batchSize >= 1 ==> 1 <= |b.graphs| <= c.batchSize)
    && b.attempts <= Limit(c) && (b.fate == Dropped ==> b.attempts == Limit(c))
    && (b.fate == Unsent <==> b.attempts == 0) && (b.fate == Unsent <==> !Encodable(b.graphs))
  }

  lemma FlushBounded(c: Config, s: State)
    requires Bounded(c, s.(queue := [])) && (c.batchSize >= 1 ==> |s.queue| <= c.batchSize)
    ensures Bounded(c, Flush(c, s))
    ensures c.batchSize >= 1 ==> Flush(c, s).queue == []
  {}

  /** Between calls the queue is shorter than a batch; a batch is neither empty nor too large; it gets at most
      max(1, maxRetries) requests, none at all exactly when one of its graphs cannot be encoded, and is
      dropped only after exactly that many. */
  lemma {:induction false} RunBounded(c: Config, events: seq<Event>)
    ensures Bounded(c, Run(c, events))
  {
    if events != [] {
      hide Bounded, Apply;
      RunBounded(c, events[..|events| - 1]);
      BoundedStep(c, Run(c, events[..|events| - 1]), events[|events| - 1]);
    }
  }

  /** The same bound on requests in plain numbers: never more than max(1, maxRetries), and a batch that is
      dropped has had exactly as many. */
  lemma RequestsBounded(c: Config, events: seq<Event>, i: nat)
    requires i < |Run(c, events).batches|
    ensures var b := Run(c, events).batches[i];
            && b.attempts <= (if c.maxRetries < 1 then 1 else c.maxRetries)
            && (b.fate == Dropped ==> b.attempts == if c.maxRetries < 1 then 1 else c.maxRetries)
  {
    RunBounded(c, events);
  }

  lemma BoundedStep(c: Config, s: State, e: Event)
    requires Bounded(c, s)
    ensures Bounded(c, Apply(c, s, e))
  {
    match e
    case Enqueue(g) => if |s.queue| + 1 >= c.batchSize { FlushBounded(c, s.(queue := s.queue + [g])); }
    case FlushNow => FlushBounded(c, s);
    case Tick => FlushBounded(c, s);
    case Shutdown => FlushBounded(c, s.(timer := false));
    case Answer(i, ok) => if i < |s.batches| && s.batches[i].fate == InFlight { SettleBounded(c, s, i, ok); }
  }

  lemma SettleBounded(c: Config, s: State, i: nat, ok: bool)
    requires Bounded(c, s) && i < |s.batches| && s.batches[i].fate == InFlight
    ensures Bounded(c, s.(batches := s.batches[i := Settle(c, s.batches[i], ok)]))
  {}

  // ---------------------------------------------------------------------------
  // The fate of one batch among all other events
  // ---------------------------------------------------------------------------

  /** The outcomes of the requests of batch i, in order. */
  function Outcomes(events: seq<Event>, i: nat): seq<bool> {
    if events == [] then []
    else
      var init, e := Outcomes(events[..|events| - 1], i), events[|events| - 1];
      if e.Answer? && e.batch == i then init + [e.ok] else init
  }

  /** A batch after outcomes of its requests; a settled batch has no request pending. */
  function SettleAll(c: Config, b: Batch, outcomes: seq<bool>): Batch {
    if outcomes == [] then b
    else
      var before := SettleAll(c, b, outcomes[..|outcomes| - 1]);
      if before.fate == InFlight then Settle(c, before, outcomes[|outcomes| - 1]) else before
  }

  lemma SettleNext(c: Config, b: Batch, outcomes: seq<bool>, ok: bool)
    ensures var r := SettleAll(c, b, outcomes);
            SettleAll(c, b, outcomes + [ok]) == if r.fate == InFlight then Settle(c, r, ok) else r
  {
    assert (outcomes + [ok])[..|outcomes|] == outcomes;
  }

  lemma BatchStep(c: Config, s: State, e: Event, i: nat)
    requires i < |s.batches|
    ensures var t := Apply(c, s, e);
            && i < |t.batches|
            && t.batches[i] == if e.Answer? && e.batch == i && s.batches[i].fate == InFlight
                               then Settle(c, s.batches[i], e.ok) else s.batches[i]
  {}

  /** Whatever else happens in between, what becomes of a batch depends on its own outcomes only. */
  lemma {:induction false} BatchesIndependent(c: Config, before: seq<Event>, after: seq<Event>, i: nat)
    requires i < |Run(c, before).batches|
    ensures i < |Run(c, before + after).batches|
    ensures Run(c, before + after).batches[i] == SettleAll(c, Run(c, before).batches[i], Outcomes(after, i))
  {
    if after == [] {
      assert before + after == before;
    } else {
      var n := |after| - 1;
      assert (before + after)[..|before + after| - 1] == before + after[..n];
      BatchesIndependent(c, before, after[..n], i);
      hide Apply, SettleAll;
      BatchStep(c, Run(c, before + after[..n]), after[n], i);
      if after[n].Answer? {
        SettleNext(c, Run(c, before).batches[i], Outcomes(after[..n], i), after[n].ok);
      }
    }
  }

  /** The requests a batch in flight has left, the pending one included. */
  function Left(c: Config, b: Batch): nat {
    if b.attempts <= Limit(c) then Limit(c) - b.attempts + 1 else 0
  }

  /** What becomes of a batch with k requests left: the first k outcomes count. */
  function FateOf(k: nat, outcomes: seq<bool>): Fate {
    if |outcomes| < k then (if true in outcomes then Delivered else InFlight)
    else if true in outcomes[..k] then Delivered else Dropped
  }

  lemma FateOfNext(k: nat, outcomes: seq<bool>, ok: bool)
    requires k >= 1
    ensures var f, next := FateOf(k, outcomes), FateOf(k, outcomes + [ok]);
            && (f == InFlight ==> |outcomes| < k)
            && next == if f != InFlight then f
                       else if ok then Delivered else if |outcomes| + 1 < k then InFlight else Dropped
  {
    var longer := outcomes + [ok];
    assert true in longer <==> true in outcomes || ok;
    if |outcomes| >= k {
      assert longer[..k] == outcomes[..k];
    } else if |longer| == k {
      assert longer[..k] == longer;
    }
  }

  lemma {:induction false} FateOfOutcomes(c: Config, b: Batch, outcomes: seq<bool>)
    requires b.fate == InFlight && 1 <= b.attempts <= Limit(c)
    ensures var r := SettleAll(c, b, outcomes);
            && r.fate == FateOf(Left(c, b), outcomes)
            && (r.fate == InFlight ==> r.attempts == b.attempts + |outcomes|)
  {
    if outcomes != [] {
      var init, last := outcomes[..|outcomes| - 1], outcomes[|outcomes| - 1];
      assert outcomes == init + [last];
      hide SettleAll, FateOf;
      FateOfOutcomes(c, b, init);
      SettleNext(c, b, init, last);
      FateOfNext(Left(c, b), init, last);
    }
  }

  /** Of the outcomes of a batch as many count as it has requests left, wherever they come in the run. The
      batch is delivered if one of these is a success, dropped if all of them are failures, and in flight
      while neither is so. */
  lemma DeliveredIffSomeSuccess(c: Config, before: seq<Event>, after: seq<Event>, i: nat)
    requires i < |Run(c, before).batches| && Run(c, before).batches[i].fate == InFlight
    ensures i < |Run(c, before + after).batches|
    ensures Run(c, before + after).batches[i].fate ==
            FateOf(Left(c, Run(c, before).batches[i]), Outcomes(after, i))
  {
    hide Run, SettleAll, Outcomes, FateOf;
    RunBounded(c, before);
    BatchesIndependent(c, before, after, i);
    FateOfOutcomes(c, Run(c, before).batches[i], Outcomes(after, i));
  }

  // ---------------------------------------------------------------------------
  // Graphs that get no request
  // ---------------------------------------------------------------------------

  /** In any run a batch gets a request exactly when all its graphs can be encoded, and otherwise it is
      gone for good, whatever happens next. */
  lemma RequestIffEncodable(c: Config, before: seq<Event>, after: seq<Event>, i: nat)
    requires i < |Run(c, before).batches|
    ensures var b := Run(c, before).batches[i];
            && (b.attempts >= 1 <==> Encodable(b.graphs))
            && (!Encodable(b.graphs) ==>
                  && i < |Run(c, before + after).batches|
                  && Run(c, before + after).batches[i] == Batch(b.graphs, 0, Unsent))
  {
    hide Run, SettleAll, Outcomes, Encodable;
    RunBounded(c, before);
    BatchesIndependent(c, before, after, i);
    SettledStays(c, Run(c, before).batches[i], Outcomes(after, i));
  }

  lemma {:induction false} SettledStays(c: Config, b: Batch, outcomes: seq<bool>)
    ensures b.fate != InFlight ==> SettleAll(c, b, outcomes) == b
  {
    if outcomes != [] { SettledStays(c, b, outcomes[..|outcomes| - 1]); }
  }

  ghost predicate EnqueuesFrom(events: seq<Event>, graphs: set<Graph>) {
    forall i :: 0 <= i < |events| && events[i].Enqueue? ==> events[i].graph in graphs
  }

  /** No run over these graphs loses one without a request for it. */
  ghost predicate AllRequested(c: Config, graphs: set<Graph>) {
    forall events :: EnqueuesFrom(events, graphs) ==> WithFate(Run(c, events).batches, Unsent) == multiset{}
  }

  lemma {:induction false} EnqueuedFrom(events: seq<Event>, graphs: set<Graph>)
    requires EnqueuesFrom(events, graphs)
    ensures forall g :: g in Enqueued(events) ==> g in graphs
  {
    if events != [] { EnqueuedFrom(events[..|events| - 1], graphs); }
  }

  lemma {:induction false} TakenGraphs(batches: seq<Batch>)
    ensures forall i, g :: 0 <= i < |batches| && g in batches[i].graphs ==> g in Taken(batches)
  {
    if batches != [] { TakenGraphs(batches[..|batches| - 1]); }
  }

  lemma {:induction false} NoneWithFate(batches: seq<Batch>, f: Fate)
    requires forall i :: 0 <= i < |batches| && batches[i].fate == f ==> batches[i].graphs == []
    ensures WithFate(batches, f) == multiset{}
  {
    if batches != [] { NoneWithFate(batches[..|batches| - 1], f); }
  }

  /** The graphs of a batch were enqueued. */
  lemma BatchEnqueued(c: Config, events: seq<Event>, graphs: set<Graph>, i: nat)
    requires EnqueuesFrom(events, graphs) && i < |Run(c, events).batches|
    ensures forall g :: g in Run(c, events).batches[i].graphs ==> g in graphs
  {
    hide Run, Taken, Enqueued;
    EnqueueOrder(c, events);
    EnqueuedFrom(events, graphs);
    TakenGraphs(Run(c, events).batches);
    var s := Run(c, events);
    forall g | g in s.batches[i].graphs
      ensures g in graphs
    {
      assert g in Taken(s.batches) + s.queue;
    }
  }

  lemma EncodableRequested(c: Config, events: seq<Event>, graphs: set<Graph>)
    requires EnqueuesFrom(events, graphs) && forall g :: g in graphs ==> g.encodes
    ensures WithFate(Run(c, events).batches, Unsent) == multiset{}
  {
    hide Run;
    RunBounded(c, events);
    var batches := Run(c, events).batches;
    forall i | 0 <= i < |batches|
      ensures batches[i].fate != Unsent
    {
      BatchEnqueued(c, events, graphs, i);
    }
    NoneWithFate(batches, Unsent);
  }

  lemma {:induction false} TakenNothing(batches: seq<Batch>)
    requires Taken(batches) == []
    ensures forall i :: 0 <= i < |batches| ==> batches[i].graphs == []
  {
    if batches != [] { TakenNothing(batches[..|batches| - 1]); }
  }

  /** A client that is given graphs of this set loses none of them without a request, in whatever run,
      exactly when they can all be encoded, or nothing is ever taken from the queue. */
  lemma AllRequestedIff(c: Config, graphs: set<Graph>)
    ensures AllRequested(c, graphs) <==> c.batchSize <= 0 || forall g :: g in graphs ==> g.encodes
  {
    hide Run, Taken, WithFate;
    if c.batchSize <= 0 {
      forall events
        ensures WithFate(Run(c, events).batches, Unsent) == multiset{}
      {
        NothingTaken(c, events);
        TakenNothing(Run(c, events).batches);
        NoneWithFate(Run(c, events).batches, Unsent);
      }
    } else if forall g :: g in graphs ==> g.encodes {
      forall events | EnqueuesFrom(events, graphs)
        ensures WithFate(Run(c, events).batches, Unsent) == multiset{}
      {
        EncodableRequested(c, events, graphs);
      }
    } else {
      var bad :| bad in graphs && !bad.encodes;
      OneBadGraph(c, bad);
      assert EnqueuesFrom([Enqueue(bad), FlushNow], graphs);
    }
  }

  lemma RunNext(c: Config, events: seq<Event>, e: Event)
    ensures Run(c, events + [e]) == Apply(c, Run(c, events), e)
  {
    assert (events + [e])[..|events|] == events;
  }

  lemma OneBadGraph(c: Config, bad: Graph)
    requires c.batchSize >= 1 && !bad.encodes
    ensures Run(c, [Enqueue(bad), FlushNow]) == State([], true, [Batch([bad], 0, Unsent)])
    ensures WithFate(Run(c, [Enqueue(bad), FlushNow]).batches, Unsent) == multiset{bad}
  {
    var none: seq<Event> := [];
    RunNext(c, none, Enqueue(bad));
    RunNext(c, none + [Enqueue(bad)], FlushNow);
    assert none + [Enqueue(bad)] + [FlushNow] == [Enqueue(bad), FlushNow];
    assert INITIAL.queue + [bad] == [bad] && [bad][..1] == [bad] && [bad][1..] == [];
    assert bad in [bad];
    assert WithFate([Batch([bad], 0, Unsent)], Unsent) == multiset([bad]);
  }

  /** n graphs of which only the first cannot be encoded, and the calls that enqueue them. */
  function OneBad(n: nat): seq<Graph> {
    seq(n, i requires 0 <= i < n => Graph(i, i != 0))
  }

  function EnqueueAll(graphs: seq<Graph>): seq<Event> {
    seq(|graphs|, i requires 0 <= i < |graphs| => Enqueue(graphs[i]))
  }

  lemma {:induction false} Collecting(c: Config, n: nat)
    requires n < c.batchSize
    ensures Run(c, EnqueueAll(OneBad(n))) == State(OneBad(n), true, [])
  {
    if n > 0 {
      Collecting(c, n - 1);
      OneBadNext(n - 1);
      RunNext(c, EnqueueAll(OneBad(n - 1)), Enqueue(Graph(n - 1, n - 1 != 0)));
    }
  }

  lemma OneBadNext(n: nat)
    ensures OneBad(n + 1) == OneBad(n) + [Graph(n, n != 0)]
    ensures EnqueueAll(OneBad(n + 1)) == EnqueueAll(OneBad(n)) + [Enqueue(Graph(n, n != 0))]
  {}

  /** For every batch size: one graph that cannot be encoded takes the rest of its batch with it. */
  lemma BadGraphTakesBatch(c: Config)
    requires c.batchSize >= 1
    ensures Run(c, EnqueueAll(OneBad(c.batchSize))) == State([], true, [Batch(OneBad(c.batchSize), 0, Unsent)])
    ensures forall i :: 0 <= i < c.batchSize ==> (OneBad(c.batchSize)[i].encodes <==> i >= 1)
  {
    var n := c.batchSize - 1;
    var graphs := OneBad(c.batchSize);
    Collecting(c, n);
    OneBadNext(n);
    RunNext(c, EnqueueAll(OneBad(n)), Enqueue(Graph(n, n != 0)));
    assert graphs[..c.batchSize] == graphs && graphs[c.batchSize..] == [];
    assert graphs[0] in graphs;
  }

  // ---------------------------------------------------------------------------
  // The timer
  // ---------------------------------------------------------------------------

  lemma {:induction false} TimerRuns(c: Config, events: seq<Event>)
    ensures Run(c, events).timer <==> Shutdown !in events
  {
    if events != [] {
      var init, e := events[..|events| - 1], events[|events| - 1];
      TimerRuns(c, init);
      assert events == init + [e];
    }
  }

  /** Every interval sends what is queued, until the client is shut down; after that the interval does
      nothing. */
  lemma TickSends(c: Config, events: seq<Event>)
    ensures c.batchSize >= 1 && Shutdown !in events ==> Run(c, events + [Tick]).queue == []
    ensures Shutdown in events ==> Run(c, events + [Tick]) == Run(c, events)
    ensures var s, t := Run(c, events), Run(c, events + [Tick]);
            c.batchSize >= 1 && Shutdown !in events && s.queue != [] ==>
              |t.batches| == |s.batches| + 1 && t.batches[|s.batches|].graphs == s.queue
  {
    TimerRuns(c, events);
    RunBounded(c, events);
    RunNext(c, events, Tick);
    hide Run, BatchBounded;
  }

  /** A flush by the caller sends what is queued, before and after the shutdown. */
  lemma FlushSends(c: Config, events: seq<Event>)
    requires c.batchSize >= 1
    ensures Run(c, events + [FlushNow]).queue == []
  {
    RunBounded(c, events);
    RunNext(c, events, FlushNow);
    hide Run, BatchBounded;
  }

  /** Below the batch size a graph is only queued: calls of `enqueue` alone send nothing early. */
  lemma EnqueueWaits(c: Config, events: seq<Event>, g: Graph)
    requires |Run(c, events).queue| + 1 < c.batchSize
    ensures Run(c, events + [Enqueue(g)]).queue == Run(c, events).queue + [g]
    ensures Run(c, events + [Enqueue(g)]).batches == Run(c, events).batches
  {
    RunNext(c, events, Enqueue(g));
    hide Run;
  }

  // ---------------------------------------------------------------------------
  // Shutdown
  // ---------------------------------------------------------------------------

  ghost predicate ShutdownDrains(c: Config) {
    forall events :: Run(c, events + [Shutdown]).queue == []
  }

  /** The single flush of `shutdown` takes everything left exactly when the batch size is positive. */
  lemma ShutdownDrainsIff(c: Config)
    ensures ShutdownDrains(c) <==> c.batchSize >= 1
  {
    if c.batchSize >= 1 {
      forall events
        ensures Run(c, events + [Shutdown]).queue == []
      {
        RunBounded(c, events);
        assert (events + [Shutdown])[..|events|] == events;
        FlushBounded(c, Run(c, events).(timer := false));
      }
    } else {
      var events := [Enqueue(Graph(7, true))];
      NothingTaken(c, events + [Shutdown]);
      assert (events + [Shutdown])[..1] == events;
      assert Enqueued(events + [Shutdown]) == [Graph(7, true)];
    }
  }

  /** With a batch size of zero or less nothing ever leaves the queue: every batch is empty. */
  lemma {:induction false} NothingTaken(c: Config, events: seq<Event>)
    requires c.batchSize <= 0
    ensures Run(c, events).queue == Enqueued(events) && Taken(Run(c, events).batches) == []
  {
    EnqueueOrder(c, events);
    if events != [] {
      NothingTaken(c, events[..|events| - 1]);
    }
  }
}
