/** The queue worker of `workers/ingest_worker.py`. Redis, ClickHouse and the clock are inputs. */
module IngestWorker {

  datatype Payload = Payload(json: string)

  /** Looking up the ClickHouse store reads the configuration and may raise; there may be no store; or there
      is one, and its bulk write succeeds or fails. */
  datatype Lookup = Broken | Absent | Present(writes: bool)

  /** What a call of `_process_batch` meets: which payloads decode, and the store. */
  datatype Env = Env(decodes: Payload -> bool, store: Lookup)

  // ---------------------------------------------------------------------------
  // One batch
  // ---------------------------------------------------------------------------

  function Decoded(env: Env, batch: seq<Payload>, good: bool): seq<Payload> {
    if batch == [] then []
    else
      var init, p := Decoded(env, batch[..|batch| - 1], good), batch[|batch| - 1];
      if env.decodes(p) == good then init + [p] else init
  }

  lemma DecodedNext(env: Env, batch: seq<Payload>, p: Payload, good: bool)
    ensures Decoded(env, batch + [p], good) ==
            if env.decodes(p) == good then Decoded(env, batch, good) + [p] else Decoded(env, batch, good)
  {
    assert (batch + [p])[..|batch|] == batch;
  }

  /** The store is looked up once something decodes, outside any `try`. */
  predicate Raises(env: Env, batch: seq<Payload>) {
    Decoded(env, batch, true) != [] && env.store.Broken?
  }

  /** The bulk write is attempted and fails. */
  predicate WriteFails(env: Env, batch: seq<Payload>) {
    Decoded(env, batch, true) != [] && env.store == Present(false)
  }

  /** What `_process_batch` returns, when it returns. */
  function Failed(env: Env, batch: seq<Payload>): seq<Payload> {
    if WriteFails(env, batch) then batch else Decoded(env, batch, false)
  }

  /** The payloads whose graphs reach ClickHouse. */
  function Written(env: Env, batch: seq<Payload>): seq<Payload> {
    if env.store == Present(true) then Decoded(env, batch, true) else []
  }

  /** Without a store decoded graphs only feed incident detection and are kept nowhere. */
  function Unstored(env: Env, batch: seq<Payload>): seq<Payload> {
    if env.store.Absent? then Decoded(env, batch, true) else []
  }

  lemma {:induction false} DecodedPartition(env: Env, batch: seq<Payload>)
    ensures multiset(batch) == multiset(Decoded(env, batch, true)) + multiset(Decoded(env, batch, false))
  {
    if batch != [] {
      var init, last := batch[..|batch| - 1], batch[|batch| - 1];
      assert batch == init + [last];
      hide Decoded;
      DecodedPartition(env, init);
      DecodedNext(env, init, last, true);
      DecodedNext(env, init, last, false);
      PartitionNext(init, Decoded(env, init, true), Decoded(env, init, false), last);
    }
  }

  lemma PartitionNext<T>(s: seq<T>, a: seq<T>, b: seq<T>, x: T)
    requires multiset(s) == multiset(a) + multiset(b)
    ensures multiset(s + [x]) == multiset(a + [x]) + multiset(b) == multiset(a) + multiset(b + [x])
  {}

  /** Every payload of a batch that is processed is written, unstored or returned as failed, and only one of
      these. */
  lemma BatchPartition(env: Env, batch: seq<Payload>)
    requires !Raises(env, batch)
    ensures multiset(batch) ==
            multiset(Written(env, batch)) + multiset(Unstored(env, batch)) + multiset(Failed(env, batch))
  {
    DecodedPartition(env, batch);
  }

  lemma {:induction false} DecodedMembers(env: Env, batch: seq<Payload>, good: bool)
    ensures forall p :: p in Decoded(env, batch, good) <==> p in batch && env.decodes(p) == good
  {
    if batch != [] {
      DecodedMembers(env, batch[..|batch| - 1], good);
      assert batch == batch[..|batch| - 1] + [batch[|batch| - 1]];
    }
  }

  /** Some payload decodes exactly when the list of decoded ones is not empty. */
  lemma SomeDecoded(env: Env, batch: seq<Payload>, good: bool)
    ensures Decoded(env, batch, good) != [] <==> exists p :: p in batch && env.decodes(p) == good
  {
    DecodedMembers(env, batch, good);
    var d := Decoded(env, batch, good);
    if d != [] { assert d[0] in batch && env.decodes(d[0]) == good; }
  }

  /** Exactly the undecodable payloads fail, unless the bulk write fails: then the whole batch does. The call
      raises exactly when something decodes and the store cannot be looked up. */
  lemma FailedMembers(env: Env, batch: seq<Payload>)
    ensures forall p :: p in Failed(env, batch) <==> p in batch && (WriteFails(env, batch) || !env.decodes(p))
    ensures WriteFails(env, batch) <==> env.store == Present(false) && exists p :: p in batch && env.decodes(p)
    ensures Raises(env, batch) <==> env.store == Broken && exists p :: p in batch && env.decodes(p)
  {
    DecodedMembers(env, batch, false);
    SomeDecoded(env, batch, true);
  }

  datatype Outcome = Returned(failed: seq<Payload>) | Raised

  function Processed(env: Env, batch: seq<Payload>): Outcome {
    if Raises(env, batch) then Raised else Returned(Failed(env, batch))
  }

  method ProcessBatch(env: Env, batch: seq<Payload>) returns (outcome: Outcome, written: seq<Payload>)
    ensures outcome == Processed(env, batch) && written == Written(env, batch)
  {
    if |batch| == 0 {
      return Returned([]), [];
    }
    var graphs: seq<Payload>, failed: seq<Payload> := [], [];
    for i := 0 to |batch|
      invariant graphs == Decoded(env, batch[..i], true)
      invariant failed == Decoded(env, batch[..i], false)
    {
      assert batch[..i + 1][..i] == batch[..i];
      if env.decodes(batch[i]) {
        graphs := graphs + [batch[i]];
      } else {
        failed := failed + [batch[i]];
      }
    }
    assert batch[..|batch|] == batch;
    written := [];
    if |graphs| == 0 {
      return Returned(failed), written;
    }
    if env.store.Broken? {
      return Raised, written;
    }
    if env.store.Present? {
      if !env.store.writes {
        return Returned(batch), written;
      }
      written := graphs;
    }
    outcome := Returned(failed);
  }

  // ---------------------------------------------------------------------------
  // The loop
  // ---------------------------------------------------------------------------

  /** The outcome of the blocking pop. */
  datatype Poll = RedisError | Timeout | Item(payload: Payload)

  /** One iteration: the pop, whether the flush interval has passed after it, what a flush would meet, and
      whether the dead-letter push would succeed. */
  datatype Round = Round(poll: Poll, due: bool, env: Env, pushes: bool)

  /** Where the payloads are. The loop is broken off when processing a batch raises. */
  datatype State = State(
    batch: seq<Payload>, broken: bool,
    popped: seq<Payload>, flushed: seq<Payload>,
    written: multiset<Payload>, unstored: multiset<Payload>,
    deadLettered: multiset<Payload>, lost: multiset<Payload>)

  const START: State := State([], false, [], [], multiset{}, multiset{}, multiset{}, multiset{})

  function Flushed(s: State, env: Env, pushes: bool): State {
    var f := multiset(Failed(env, s.batch));
    s.(batch := [], flushed := s.flushed + s.batch,
       written := s.written + multiset(Written(env, s.batch)),
       unstored := s.unstored + multiset(Unstored(env, s.batch)),
       deadLettered := s.deadLettered + if pushes then f else multiset{},
       lost := s.lost + if pushes then multiset{} else f)
  }

  /** A popped payload joins the batch. */
  function Received(s: State, r: Round): State {
    if r.poll.Item? then s.(batch := s.batch + [r.poll.payload], popped := s.popped + [r.poll.payload]) else s
  }

  /** The batch is processed after this pop. */
  predicate Flushes(batchSize: int, s: State, r: Round) {
    var batch := Received(s, r).batch;
    !s.broken && !r.poll.RedisError? && (|batch| >= batchSize || (batch != [] && r.due))
  }

  function Iterate(batchSize: int, s: State, r: Round): State {
    if s.broken || r.poll.RedisError? then s
    else
      var t := Received(s, r);
      if !Flushes(batchSize, s, r) then t
      else if Raises(r.env, t.batch) then t.(broken := true)
      else Flushed(t, r.env, r.pushes)
  }

  function Loop(batchSize: int, rounds: seq<Round>): State {
    if rounds == [] then START
    else Iterate(batchSize, Loop(batchSize, rounds[..|rounds| - 1]), rounds[|rounds| - 1])
  }

  /** The flush in the `finally` block ignores the returned failures, and raises like any other. */
  function Shut(s: State, env: Env): State {
    if s.batch == [] then s
    else if Raises(env, s.batch) then
      s.(batch := [], flushed := s.flushed + s.batch, lost := s.lost + multiset(s.batch))
    else Flushed(s, env, false)
  }

  /** No payload appears, disappears or is counted twice. */
  ghost predicate Accounted(s: State) {
    && s.popped == s.flushed + s.batch
    && multiset(s.flushed) == s.written + s.unstored + s.deadLettered + s.lost
  }

  lemma FlushedAccounted(s: State, env: Env, pushes: bool)
    requires Accounted(s) && !Raises(env, s.batch)
    ensures Accounted(Flushed(s, env, pushes))
  {
    BatchPartition(env, s.batch);
    assert s.flushed + s.batch + [] == s.flushed + s.batch;
  }

  lemma ReceivedAccounted(s: State, r: Round)
    requires Accounted(s)
    ensures Accounted(Received(s, r))
  {
    var t := Received(s, r);
    assert t.popped == t.flushed + t.batch;
  }

  lemma IterateAccounted(batchSize: int, s: State, r: Round)
    requires Accounted(s)
    ensures Accounted(Iterate(batchSize, s, r))
  {
    hide Accounted, Flushed, Raises;
    var t := Received(s, r);
    ReceivedAccounted(s, r);
    if !Raises(r.env, t.batch) { FlushedAccounted(t, r.env, r.pushes); }
    BreakAccounted(t);
  }

  lemma BreakAccounted(s: State)
    requires Accounted(s)
    ensures Accounted(s.(broken := true))
  {}

  /** At the top of every iteration the batch is short, payloads were flushed in the order they were popped,
      and each popped payload is in the batch, written, unstored, dead-lettered, or lost to a failed
      dead-letter push. */
  lemma {:induction false} LoopAccounts(batchSize: int, rounds: seq<Round>)
    ensures var s := Loop(batchSize, rounds);
            Accounted(s) && (!s.broken ==> |s.batch| < if batchSize < 1 then 1 else batchSize)
  {
    if rounds != [] {
      hide Accounted, Raises;
      var init, r := rounds[..|rounds| - 1], rounds[|rounds| - 1];
      LoopAccounts(batchSize, init);
      IterateAccounted(batchSize, Loop(batchSize, init), r);
    }
  }

  /** The payloads the rounds offer, in order. */
  function Offered(rounds: seq<Round>): seq<Payload> {
    if rounds == [] then []
    else
      var init, poll := Offered(rounds[..|rounds| - 1]), rounds[|rounds| - 1].poll;
      if poll.Item? then init + [poll.payload] else init
  }

  /** The worker pops everything it is offered, until the loop is broken off. */
  lemma {:induction false} EverythingPopped(batchSize: int, rounds: seq<Round>)
    ensures Loop(batchSize, rounds).popped <= Offered(rounds)
    ensures !Loop(batchSize, rounds).broken ==> Loop(batchSize, rounds).popped == Offered(rounds)
  {
    if rounds != [] {
      var init, r := rounds[..|rounds| - 1], rounds[|rounds| - 1];
      EverythingPopped(batchSize, init);
      PoppedStep(batchSize, Loop(batchSize, init), r);
      hide Iterate;
    }
  }

  lemma PoppedStep(batchSize: int, s: State, r: Round)
    ensures var t := Iterate(batchSize, s, r);
            && (s.broken ==> t == s)
            && (!s.broken ==> t.popped == if r.poll.Item? then s.popped + [r.poll.payload] else s.popped)
  {}

  /** When a batch is processed: after a pop that brings it to the batch size, or with something in it when
      the flush interval has passed; then it is empty, or the loop is broken off. Otherwise the payload, if
      any, waits in the batch. */
  lemma ProcessedIffDue(batchSize: int, rounds: seq<Round>, r: Round)
    requires !Loop(batchSize, rounds).broken
    ensures var s, t := Loop(batchSize, rounds), Loop(batchSize, rounds + [r]);
            var batch := if r.poll.Item? then s.batch + [r.poll.payload] else s.batch;
            if r.poll.RedisError? then t == s
            else if |batch| >= batchSize || (batch != [] && r.due) then
              && (t.broken <==> r.env.store.Broken? && exists p :: p in batch && r.env.decodes(p))
              && (if t.broken then t.batch == batch && t.flushed == s.flushed
                  else t.batch == [] && t.flushed == s.flushed + batch)
            else !t.broken && t.batch == batch && t.flushed == s.flushed
  {
    assert (rounds + [r])[..|rounds|] == rounds;
    SomeDecoded(r.env, Received(Loop(batchSize, rounds), r).batch, true);
    hide Loop, Decoded;
  }

  // ---------------------------------------------------------------------------
  // What is kept
  // ---------------------------------------------------------------------------

  /** Everything popped is still in the batch, in ClickHouse or in the dead-letter queue. */
  ghost predicate Kept(s: State) {
    multiset(s.popped) == multiset(s.batch) + s.written + s.deadLettered
  }

  /** If this iteration processes the batch, no decoded payload meets a missing store, and the payloads that
      fail reach the dead-letter queue. */
  ghost predicate Harmless(batchSize: int, s: State, r: Round) {
    var batch := Received(s, r).batch;
    Flushes(batchSize, s, r) && !Raises(r.env, batch) ==>
      && (r.env.store.Absent? ==> forall p :: p in batch ==> !r.env.decodes(p))
      && (r.pushes || (!WriteFails(r.env, batch) && forall p :: p in batch ==> r.env.decodes(p)))
  }

  lemma KeptMeansNothingGone(s: State)
    requires Accounted(s)
    ensures Kept(s) <==> s.unstored == multiset{} && s.lost == multiset{}
  {
    assert multiset(s.popped) == multiset(s.flushed) + multiset(s.batch);
    Remainder(multiset(s.popped), multiset(s.batch) + s.written + s.deadLettered, s.unstored, s.lost);
  }

  lemma Remainder<T>(all: multiset<T>, part: multiset<T>, a: multiset<T>, b: multiset<T>)
    requires all == part + a + b
    ensures all == part <==> a == multiset{} && b == multiset{}
  {
    assert |all| == |part| + |a| + |b|;
  }

  lemma SumEmpty<T>(a: multiset<T>, s: seq<T>)
    ensures a + multiset(s) == multiset{} <==> a == multiset{} && s == []
  {
    assert |a + multiset(s)| == |a| + |s|;
  }

  lemma FlushedGone(s: State, env: Env, pushes: bool)
    ensures Flushed(s, env, pushes).unstored == multiset{} <==> s.unstored == multiset{} && Unstored(env, s.batch) == []
    ensures Flushed(s, env, pushes).lost == multiset{} <==>
            s.lost == multiset{} && (pushes || Failed(env, s.batch) == [])
  {
    SumEmpty(s.unstored, Unstored(env, s.batch));
    SumEmpty(s.lost, Failed(env, s.batch));
  }

  /** Nothing of a processed batch goes unstored or unpushed. */
  lemma HarmlessFlush(env: Env, batch: seq<Payload>)
    ensures Unstored(env, batch) == [] <==> (env.store.Absent? ==> forall p :: p in batch ==> !env.decodes(p))
    ensures Failed(env, batch) == [] <==> !WriteFails(env, batch) && forall p :: p in batch ==> env.decodes(p)
  {
    SomeDecoded(env, batch, true);
    SomeDecoded(env, batch, false);
    if batch != [] { assert batch[0] in batch; }
  }

  /** An iteration keeps everything exactly when it is harmless. */
  lemma HarmlessStep(batchSize: int, s: State, r: Round)
    requires Accounted(s)
    ensures Kept(Iterate(batchSize, s, r)) <==> Kept(s) && Harmless(batchSize, s, r)
  {
    hide Accounted, Kept, Flushed, Unstored, Failed, WriteFails, Raises;
    var t := Received(s, r);
    ReceivedAccounted(s, r);
    IterateAccounted(batchSize, s, r);
    KeptMeansNothingGone(s);
    KeptMeansNothingGone(Iterate(batchSize, s, r));
    FlushedGone(t, r.env, r.pushes);
    HarmlessFlush(r.env, t.batch);
  }

  ghost predicate AllHarmless(batchSize: int, rounds: seq<Round>) {
    forall i :: 0 <= i < |rounds| ==> Harmless(batchSize, Loop(batchSize, rounds[..i]), rounds[i])
  }

  lemma AllHarmlessNext(batchSize: int, rounds: seq<Round>, r: Round)
    ensures AllHarmless(batchSize, rounds + [r]) <==>
            AllHarmless(batchSize, rounds) && Harmless(batchSize, Loop(batchSize, rounds), r)
  {
    hide Harmless, Loop;
    var longer := rounds + [r];
    forall i | 0 <= i <= |rounds|
      ensures longer[..i] == rounds[..i]
    {}
    assert rounds[..|rounds|] == rounds && longer[|rounds|] == r;
    assert forall i :: 0 <= i < |rounds| ==> longer[i] == rounds[i];
  }

  /** While the loop runs, everything popped is in the batch, in ClickHouse or in the dead-letter queue
      exactly when every iteration so far was harmless. */
  lemma {:induction false} KeptIff(batchSize: int, rounds: seq<Round>)
    ensures Kept(Loop(batchSize, rounds)) <==> AllHarmless(batchSize, rounds)
  {
    if rounds != [] {
      hide Kept, Harmless, AllHarmless, Accounted, Iterate;
      var init, r := rounds[..|rounds| - 1], rounds[|rounds| - 1];
      assert rounds == init + [r];
      LoopAccounts(batchSize, init);
      KeptIff(batchSize, init);
      HarmlessStep(batchSize, Loop(batchSize, init), r);
      AllHarmlessNext(batchSize, init, r);
    }
  }

  /** When the store lookup never comes back empty and dead-letter pushes work, nothing that was popped is
      anywhere else. */
  lemma NothingLostWhilePushing(batchSize: int, rounds: seq<Round>)
    requires forall i :: 0 <= i < |rounds| ==> rounds[i].pushes && !rounds[i].env.store.Absent?
    ensures Kept(Loop(batchSize, rounds))
  {
    KeptIff(batchSize, rounds);
  }

  // ---------------------------------------------------------------------------
  // Shutdown
  // ---------------------------------------------------------------------------

  /** What the flush at shutdown loses of the last batch: all of it if the store cannot be looked up, else
      its failures. */
  function LastLoss(env: Env, batch: seq<Payload>): seq<Payload> {
    if Raises(env, batch) then batch else Failed(env, batch)
  }

  /** Everything popped, once the worker has shut down. The last flush loses nothing exactly when all of the
      batch decodes and the store, if any, is found and writes. */
  lemma ShutdownAccounts(batchSize: int, rounds: seq<Round>, env: Env)
    ensures var s, t := Loop(batchSize, rounds), Shut(Loop(batchSize, rounds), env);
            && t.batch == [] && t.popped == s.popped
            && multiset(t.popped) == t.written + t.unstored + t.deadLettered + t.lost
            && t.lost == s.lost + multiset(LastLoss(env, s.batch))
            && (t.lost == s.lost <==>
                  forall p :: p in s.batch ==> env.decodes(p) && (env.store.Absent? || env.store == Present(true)))
  {
    LoopAccounts(batchSize, rounds);
    var s := Loop(batchSize, rounds);
    ShutAccounted(s, env);
    LastLossEmpty(env, s.batch);
    Remainder(s.lost + multiset(LastLoss(env, s.batch)), s.lost, multiset(LastLoss(env, s.batch)), multiset{});
    SumEmpty(multiset{}, LastLoss(env, s.batch));
  }

  lemma ShutAccounted(s: State, env: Env)
    requires Accounted(s)
    ensures var t := Shut(s, env);
            && t.batch == [] && t.popped == s.popped
            && multiset(t.popped) == t.written + t.unstored + t.deadLettered + t.lost
            && t.lost == s.lost + multiset(LastLoss(env, s.batch))
  {
    var t := Shut(s, env);
    if s.batch == [] {
      assert s.popped == s.flushed;
    } else if Raises(env, s.batch) {
      assert multiset(s.popped) == multiset(s.flushed) + multiset(s.batch);
    } else {
      FlushedAccounted(s, env, false);
      assert t.popped == t.flushed + [] == t.flushed;
    }
  }

  lemma LastLossEmpty(env: Env, batch: seq<Payload>)
    ensures LastLoss(env, batch) == [] <==>
            forall p :: p in batch ==> env.decodes(p) && (env.store.Absent? || env.store == Present(true))
  {
    SomeDecoded(env, batch, true);
    SomeDecoded(env, batch, false);
    if batch != [] { assert batch[0] in batch; }
  }

  // ---------------------------------------------------------------------------
  // The worker in place
  // ---------------------------------------------------------------------------

  /** The worker, with what it has put into ClickHouse and into the dead-letter queue. */
  class Worker {
    const batchSize: int
    var batch: seq<Payload>
    var stored: seq<Payload>
    var deadLetters: seq<Payload>

    ghost predicate Matches(s: State)
      reads this
    {
      batch == s.batch && multiset(stored) == s.written && multiset(deadLetters) == s.deadLettered
    }

    constructor (size: int)
      ensures batchSize == size && Matches(START)
    {
      batchSize, batch, stored, deadLetters := size, [], [], [];
    }

    /** Process the batch, push its failures to the dead-letter queue if that works, and clear it. An
        exception leaves the batch as it is. */
    method FlushBatch(env: Env, pushes: bool, ghost s: State) returns (raised: bool)
      requires Matches(s)
      modifies this
      ensures raised == Raises(env, s.batch)
      ensures Matches(if raised then s else Flushed(s, env, pushes))
    {
      var outcome, written := ProcessBatch(env, batch);
      if outcome.Raised? {
        return true;
      }
      stored := stored + written;
      if outcome.failed != [] && pushes {
        deadLetters := deadLetters + outcome.failed;
      }
      batch := [];
      raised := false;
    }

    /** The body of the loop. */
    method Step(r: Round, ghost s: State) returns (raised: bool)
      requires Matches(s) && !s.broken
      modifies this
      ensures Matches(Iterate(batchSize, s, r)) && raised == Iterate(batchSize, s, r).broken
    {
      if r.poll.RedisError? {
        return false;
      }
      ghost var t := Received(s, r);
      if r.poll.Item? {
        batch := batch + [r.poll.payload];
      }
      raised := false;
      if |batch| >= batchSize || (batch != [] && r.due) {
        raised := FlushBatch(r.env, r.pushes, t);
      }
    }

    /** `worker_loop`: iterate until asked to stop or an exception breaks the loop off, then flush what is
        left and drop its failures, or all of it if that raises again. */
    method WorkerLoop(rounds: seq<Round>, last: Env)
      requires Matches(START)
      modifies this
      ensures var t := Shut(Loop(batchSize, rounds), last);
              multiset(stored) == t.written && multiset(deadLetters) == t.deadLettered
    {
      var raised := false;
      for i := 0 to |rounds|
        invariant Matches(Loop(batchSize, rounds[..i])) && raised == Loop(batchSize, rounds[..i]).broken
      {
        assert rounds[..i + 1][..i] == rounds[..i];
        if !raised {
          raised := Step(rounds[i], Loop(batchSize, rounds[..i]));
        }
      }
      assert rounds[..|rounds|] == rounds;
      if batch != [] {
        raised := FlushBatch(last, false, Loop(batchSize, rounds));
      }
    }
  }
}
