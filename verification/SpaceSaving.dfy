/** The top-K tracker of `space_saving.cpp`. Weights are exact reals. */
module SpaceSaving {

  datatype Key = Key(text: string)

  datatype Counter = Counter(key: Key, count: real, error: real) {
    /** What the tracker can vouch for; `operator>` orders counters by it. */
    function Guaranteed(): real { count - error }
  }

  /** One element of the stream. */
  datatype Update = Update(key: Key, increment: real)

  // ---------------------------------------------------------------------------
  // Streams
  // ---------------------------------------------------------------------------

  /** The weight a key receives in a stream. */
  function Weight(stream: seq<Update>, k: Key): real {
    if stream == [] then 0.0
    else Weight(stream[..|stream| - 1], k) +
         if stream[|stream| - 1].key == k then stream[|stream| - 1].increment else 0.0
  }

  function KeysSeen(stream: seq<Update>): set<Key> {
    set i | 0 <= i < |stream| :: stream[i].key
  }

  ghost predicate NonNegative(stream: seq<Update>) {
    forall i :: 0 <= i < |stream| ==> stream[i].increment >= 0.0
  }

  lemma WeightStep(stream: seq<Update>, u: Update, k: Key)
    ensures Weight(stream + [u], k) == Weight(stream, k) + if u.key == k then u.increment else 0.0
  {
    assert (stream + [u])[..|stream|] == stream;
  }

  lemma {:induction false} WeightSplit(stream: seq<Update>, n: nat, k: Key)
    requires n <= |stream|
    ensures Weight(stream, k) == Weight(stream[..n], k) + Weight(stream[n..], k)
  {
    if n == |stream| {
      assert stream[..n] == stream;
    } else {
      var init := stream[..|stream| - 1];
      WeightSplit(init, n, k);
      assert init[..n] == stream[..n];
      assert stream[n..] == init[n..] + [stream[|stream| - 1]];
      WeightStep(init[n..], stream[|stream| - 1], k);
    }
  }

  lemma {:induction false} WeightNonNegative(stream: seq<Update>, k: Key)
    requires NonNegative(stream)
    ensures Weight(stream, k) >= 0.0
  {
    if stream != [] { WeightNonNegative(stream[..|stream| - 1], k); }
  }

  lemma {:induction false} WeightUnseen(stream: seq<Update>, k: Key)
    requires k !in KeysSeen(stream)
    ensures Weight(stream, k) == 0.0
  {
    if stream != [] {
      assert stream[|stream| - 1].key in KeysSeen(stream);
      assert KeysSeen(stream[..|stream| - 1]) <= KeysSeen(stream);
      WeightUnseen(stream[..|stream| - 1], k);
    }
  }

  lemma KeysSeenStep(stream: seq<Update>, u: Update)
    ensures KeysSeen(stream + [u]) == KeysSeen(stream) + {u.key}
  {
    var s := stream + [u];
    assert s[|stream|].key == u.key;
    forall k | k in KeysSeen(stream)
      ensures k in KeysSeen(s)
    {
      var i :| 0 <= i < |stream| && stream[i].key == k;
      assert s[i].key == k;
    }
  }

  // ---------------------------------------------------------------------------
  // Permutations of counters
  // ---------------------------------------------------------------------------

  function KeysOf(c: seq<Counter>): (s: seq<Key>)
    ensures |s| == |c|
  {
    seq(|c|, i requires 0 <= i < |c| => c[i].key)
  }

  /** Sum of the guaranteed weights. */
  function Total(c: seq<Counter>): real {
    if c == [] then 0.0 else Total(c[..|c| - 1]) + c[|c| - 1].Guaranteed()
  }

  ghost predicate DistinctKeys(c: seq<Counter>) {
    forall i, j :: 0 <= i < j < |c| ==> c[i].key != c[j].key
  }

  function Cut<T>(s: seq<T>, i: nat): seq<T>
    requires i < |s|
  {
    s[..i] + s[i + 1..]
  }

  lemma CutMultiset<T>(s: seq<T>, i: nat)
    requires i < |s|
    ensures multiset(Cut(s, i)) == multiset(s) - multiset{s[i]}
  {
    assert s == s[..i] + [s[i]] + s[i + 1..];
  }

  lemma CutDistinct(c: seq<Counter>, i: nat)
    requires DistinctKeys(c) && i < |c|
    ensures DistinctKeys(Cut(c, i))
    ensures forall x :: x in multiset(Cut(c, i)) ==> x.key != c[i].key
  {
    var r := Cut(c, i);
    forall a, b | 0 <= a < b < |r|
      ensures r[a].key != r[b].key
    {
      assert r[a] == c[if a < i then a else a + 1] && r[b] == c[if b < i then b else b + 1];
    }
    forall x | x in multiset(r)
      ensures x.key != c[i].key
    {
      assert x in r;
      var j :| 0 <= j < |r| && r[j] == x;
      assert x == c[if j < i then j else j + 1];
    }
  }

  lemma {:induction false} TotalCut(c: seq<Counter>, i: nat)
    requires i < |c|
    ensures Total(c) == Total(Cut(c, i)) + c[i].Guaranteed()
  {
    if i == |c| - 1 {
      assert Cut(c, i) == c[..i];
    } else {
      TotalCut(c[..|c| - 1], i);
      assert Cut(c, i)[..|c| - 2] == Cut(c[..|c| - 1], i);
    }
  }

  /** A permutation has the same total. */
  lemma {:induction false} TotalPermutation(a: seq<Counter>, b: seq<Counter>)
    requires multiset(a) == multiset(b)
    ensures Total(a) == Total(b)
  {
    if a == [] {
      assert |multiset(b)| == 0;
    } else {
      var x := a[|a| - 1];
      assert x in multiset(b);
      var i :| 0 <= i < |b| && b[i] == x;
      CutMultiset(a, |a| - 1);
      CutMultiset(b, i);
      assert Cut(a, |a| - 1) == a[..|a| - 1];
      TotalPermutation(a[..|a| - 1], Cut(b, i));
      TotalCut(b, i);
    }
  }

  lemma DistinctAppend(c: seq<Counter>, x: Counter)
    requires DistinctKeys(c) && forall y :: y in multiset(c) ==> y.key != x.key
    ensures DistinctKeys(c + [x])
  {
    forall i | 0 <= i < |c|
      ensures c[i].key != x.key
    {
      assert c[i] in multiset(c);
    }
  }

  /** A permutation of counters with distinct keys has distinct keys. */
  lemma {:induction false} DistinctPermutation(a: seq<Counter>, b: seq<Counter>)
    requires multiset(a) == multiset(b) && DistinctKeys(b)
    ensures DistinctKeys(a)
  {
    if a != [] {
      hide Cut;
      var init, x := a[..|a| - 1], a[|a| - 1];
      assert a == init + [x];
      assert x in multiset(b);
      var i :| 0 <= i < |b| && b[i] == x;
      CutMultiset(b, i);
      CutDistinct(b, i);
      hide DistinctKeys;
      DistinctPermutation(init, Cut(b, i));
      DistinctAppend(init, x);
    }
  }

  // ---------------------------------------------------------------------------
  // std::partial_sort
  // ---------------------------------------------------------------------------

  /** What the standard promises of `partial_sort` by descending guaranteed weight: a permutation whose
      first `mid` elements are sorted and not exceeded by any later element. */
  ghost predicate PartiallySorted(a: seq<Counter>, s: seq<Counter>, mid: nat) {
    && |a| == |s| && multiset(a) == multiset(s)
    && (forall i, j :: 0 <= i < j < |s| && i < mid ==> s[i].Guaranteed() >= s[j].Guaranteed())
  }

  lemma SwapMultiset<T>(s: seq<T>, i: nat, j: nat)
    requires i < |s| && j < |s|
    ensures multiset(s[i := s[j]][j := s[i]]) == multiset(s)
  {}

  /** Position of a counter of greatest guaranteed weight from `start` on. */
  method GreatestFrom(s: seq<Counter>, start: nat) returns (best: nat)
    requires start < |s|
    ensures start <= best < |s|
    ensures forall j :: start <= j < |s| ==> s[best].Guaranteed() >= s[j].Guaranteed()
  {
    best := start;
    for j := start + 1 to |s|
      invariant start <= best < |s|
      invariant forall t :: start <= t < j ==> s[best].Guaranteed() >= s[t].Guaranteed()
    {
      if s[j].Guaranteed() > s[best].Guaranteed() { best := j; }
    }
  }

  /** One way to meet the promise: select the greatest remaining element `mid` times. */
  method PartialSort(a: seq<Counter>, mid: nat) returns (s: seq<Counter>)
    requires mid <= |a|
    ensures PartiallySorted(a, s, mid)
  {
    s := a;
    for n := 0 to mid
      invariant |s| == |a| && PartiallySorted(a, s, n)
    {
      var best := GreatestFrom(s, n);
      SwapMultiset(s, n, best);
      assert forall i, j :: 0 <= i < n <= j < |s| ==> s[i].Guaranteed() >= s[j].Guaranteed();
      s := s[n := s[best]][best := s[n]];
    }
  }

  // ---------------------------------------------------------------------------
  // One insertion, and runs
  // ---------------------------------------------------------------------------

  /** The error recorded for a new key: the count of the last counter once `capacity` is reached. */
  function NewError(capacity: nat, c: seq<Counter>): real {
    if |c| >= capacity && c != [] then c[|c| - 1].count else 0.0
  }

  /** The counters after the key of `u` is appended. */
  function Pushed(capacity: nat, c: seq<Counter>, u: Update): seq<Counter> {
    var error := NewError(capacity, c);
    c + [Counter(u.key, u.increment + error, error)]
  }

  function Bumped(c: seq<Counter>, i: nat, u: Update): seq<Counter>
    requires i < |c|
  {
    c[i := c[i].(count := c[i].count + u.increment)]
  }

  /** Truncation keeps the first `capacity` counters of a partially sorted arrangement. */
  ghost predicate Truncated(capacity: nat, c: seq<Counter>, after: seq<Counter>) {
    exists s :: PartiallySorted(c, s, capacity) && capacity <= |s| && after == s[..capacity]
  }

  /** The effect of `insert` on the counters. Ties in the sort make it a relation. */
  ghost predicate InsertStep(capacity: nat, c: seq<Counter>, u: Update, after: seq<Counter>) {
    if u.key in KeysOf(c) then
      exists i :: 0 <= i < |c| && c[i].key == u.key && after == Bumped(c, i, u)
    else if |c| + 1 > 2 * capacity then Truncated(capacity, Pushed(capacity, c, u), after)
    else after == Pushed(capacity, c, u)
  }

  /** `states` are the counters before, between and after the elements of the stream. */
  ghost predicate IsRun(capacity: nat, stream: seq<Update>, states: seq<seq<Counter>>) {
    && |states| == |stream| + 1
    && states[0] == []
    && forall i :: 0 <= i < |stream| ==> InsertStep(capacity, states[i], stream[i], states[i + 1])
  }

  // ---------------------------------------------------------------------------
  // What one insertion keeps
  // ---------------------------------------------------------------------------

  lemma TruncatedElements(capacity: nat, c: seq<Counter>, after: seq<Counter>)
    requires Truncated(capacity, c, after) && DistinctKeys(c)
    ensures |after| == capacity && DistinctKeys(after)
    ensures forall x :: x in after ==> x in c
  {
    var s :| PartiallySorted(c, s, capacity) && capacity <= |s| && after == s[..capacity];
    DistinctPermutation(s, c);
    forall x | x in after
      ensures x in c
    {
      assert x in multiset(s);
    }
  }

  lemma PushedElements(capacity: nat, c: seq<Counter>, u: Update)
    requires DistinctKeys(c) && u.key !in KeysOf(c)
    ensures DistinctKeys(Pushed(capacity, c, u))
    ensures forall x :: x in Pushed(capacity, c, u) ==>
              x in c || (x.key == u.key && x.Guaranteed() == u.increment && x.error == NewError(capacity, c))
  {
    forall y | y in multiset(c)
      ensures y.key != u.key
    {
      assert y in c;
      var i :| 0 <= i < |c| && c[i] == y;
      assert KeysOf(c)[i] != u.key;
    }
    var error := NewError(capacity, c);
    DistinctAppend(c, Counter(u.key, u.increment + error, error));
  }

  /** Where a counter comes from: an untouched one, the incremented one, or a fresh one. */
  lemma StepElement(capacity: nat, c: seq<Counter>, u: Update, after: seq<Counter>, x: Counter)
    requires InsertStep(capacity, c, u, after) && DistinctKeys(c) && x in after
    ensures x.key != u.key ==> x in c
    ensures x.key == u.key && u.key in KeysOf(c) ==>
              exists y :: y in c && y.key == u.key && x.error == y.error &&
                          x.Guaranteed() == y.Guaranteed() + u.increment
    ensures x.key == u.key && u.key !in KeysOf(c) ==> x.Guaranteed() == u.increment && x.error == NewError(capacity, c)
  {
    if u.key in KeysOf(c) {
      var i :| 0 <= i < |c| && c[i].key == u.key && after == Bumped(c, i, u);
      var j :| 0 <= j < |after| && after[j] == x;
      assert c[j] in c;
      assert x.key == c[j].key;
    } else {
      PushedElements(capacity, c, u);
      if |c| + 1 > 2 * capacity { TruncatedElements(capacity, Pushed(capacity, c, u), after); }
      if x in c {
        var j :| 0 <= j < |c| && c[j] == x;
        assert KeysOf(c)[j] == x.key;
      }
    }
  }

  lemma StepDistinct(capacity: nat, c: seq<Counter>, u: Update, after: seq<Counter>)
    requires capacity >= 1 && InsertStep(capacity, c, u, after) && DistinctKeys(c) && |c| <= 2 * capacity
    ensures DistinctKeys(after) && |after| <= 2 * capacity
  {
    if u.key !in KeysOf(c) {
      PushedElements(capacity, c, u);
      if |c| + 1 > 2 * capacity { TruncatedElements(capacity, Pushed(capacity, c, u), after); }
    }
  }

  /** Short of truncation an insertion loses no key. */
  lemma StepKeepsKeys(capacity: nat, c: seq<Counter>, u: Update, after: seq<Counter>, k: Key)
    requires InsertStep(capacity, c, u, after)
    requires u.key in KeysOf(c) || |c| + 1 <= 2 * capacity
    requires k in KeysOf(c) || k == u.key
    ensures k in KeysOf(after)
  {
    if u.key in KeysOf(c) {
      assert KeysOf(after) == KeysOf(c);
    } else {
      assert KeysOf(after) == KeysOf(c) + [u.key];
    }
  }

  /** Short of truncation counters stay in their places and a new one goes to the end; truncation leaves the
      best first, so that the last counter is the worst of those kept. */
  lemma PlacesKept(capacity: nat, c: seq<Counter>, u: Update, after: seq<Counter>)
    requires capacity >= 1 && InsertStep(capacity, c, u, after)
    ensures u.key in KeysOf(c) ==>
              |after| == |c| && forall j :: 0 <= j < |c| ==> after[j].key == c[j].key && after[j].error == c[j].error
    ensures u.key !in KeysOf(c) && |c| < 2 * capacity ==>
              |after| == |c| + 1 && after[..|c|] == c && after[|c|].key == u.key
    ensures u.key !in KeysOf(c) && |c| >= 2 * capacity ==>
              |after| == capacity &&
              forall i, j :: 0 <= i < j < capacity ==> after[i].Guaranteed() >= after[j].Guaranteed()
  {}

  // ---------------------------------------------------------------------------
  // Every run
  // ---------------------------------------------------------------------------

  function Last(states: seq<seq<Counter>>): seq<Counter>
    requires states != []
  {
    states[|states| - 1]
  }

  lemma RunPrefix(capacity: nat, stream: seq<Update>, states: seq<seq<Counter>>)
    requires IsRun(capacity, stream, states) && stream != []
    ensures IsRun(capacity, stream[..|stream| - 1], states[..|states| - 1])
    ensures InsertStep(capacity, Last(states[..|states| - 1]), stream[|stream| - 1], Last(states))
  {
    var n := |stream| - 1;
    assert InsertStep(capacity, states[n], stream[n], states[n + 1]);
  }

  /** Keys stay distinct and there are never more than 2 * capacity counters. */
  lemma {:induction false} RunBounded(capacity: nat, stream: seq<Update>, states: seq<seq<Counter>>)
    requires capacity >= 1 && IsRun(capacity, stream, states)
    ensures DistinctKeys(Last(states)) && |Last(states)| <= 2 * capacity
  {
    if stream != [] {
      RunPrefix(capacity, stream, states);
      RunBounded(capacity, stream[..|stream| - 1], states[..|states| - 1]);
      StepDistinct(capacity, Last(states[..|states| - 1]), stream[|stream| - 1], Last(states));
    }
  }

  /** Element a of the stream admitted k, and k has been tracked ever since. */
  ghost predicate LatestAdmission(stream: seq<Update>, states: seq<seq<Counter>>, k: Key, a: nat)
    requires |states| == |stream| + 1
  {
    && a < |stream| && stream[a].key == k
    && k !in KeysOf(states[a])
    && forall t :: a < t < |states| ==> k in KeysOf(states[t])
  }

  lemma AdmissionExtends(stream: seq<Update>, states: seq<seq<Counter>>, k: Key, a: nat)
    requires |states| == |stream| + 1 && stream != [] && k in KeysOf(Last(states))
    requires LatestAdmission(stream[..|stream| - 1], states[..|stream|], k, a)
    ensures LatestAdmission(stream, states, k, a)
  {
    var before := states[..|stream|];
    assert before[a] == states[a];
    forall t | a < t < |states|
      ensures k in KeysOf(states[t])
    {
      if t < |stream| { assert before[t] == states[t]; }
    }
  }

  lemma WeightSinceStep(stream: seq<Update>, a: nat, k: Key)
    requires a < |stream|
    ensures var n := |stream| - 1;
            Weight(stream[a..], k) ==
            Weight(stream[..n][a..], k) + if stream[n].key == k then stream[n].increment else 0.0
  {
    var n := |stream| - 1;
    assert stream[a..] == stream[..n][a..] + [stream[n]];
    WeightStep(stream[..n][a..], stream[n], k);
  }

  /** The counter that x was before the last insertion. */
  lemma Origin(capacity: nat, c: seq<Counter>, u: Update, after: seq<Counter>, x: Counter)
    returns (y: Counter)
    requires InsertStep(capacity, c, u, after) && DistinctKeys(c) && x in after
    requires x.key == u.key ==> u.key in KeysOf(c)
    ensures y in c && y.key == x.key && y.error == x.error
    ensures x.Guaranteed() == y.Guaranteed() + if x.key == u.key then u.increment else 0.0
  {
    StepElement(capacity, c, u, after, x);
    y := x;
    if x.key == u.key {
      y :| y in c && y.key == u.key && x.error == y.error && x.Guaranteed() == y.Guaranteed() + u.increment;
    }
  }

  /** The guaranteed weight of every counter is the weight its key received since its latest admission. Its
      error was recorded then and never changes: the count of the last counter, once there were `capacity` of
      them. */
  lemma {:induction false} GuaranteedSinceAdmission(capacity: nat, stream: seq<Update>,
                                                    states: seq<seq<Counter>>, x: Counter)
    returns (a: nat)
    requires capacity >= 1 && IsRun(capacity, stream, states) && x in Last(states)
    ensures LatestAdmission(stream, states, x.key, a)
    ensures x.Guaranteed() == Weight(stream[a..], x.key)
    ensures x.error == NewError(capacity, states[a])
  {
    var n := |stream| - 1;
    assert n >= 0;
    var c := states[n];
    RunPrefix(capacity, stream, states);
    RunBounded(capacity, stream[..n], states[..n + 1]);
    KeyOfElement(Last(states), x);
    hide InsertStep, DistinctKeys, IsRun, Weight, NewError, KeysOf;
    if x.key == stream[n].key && x.key !in KeysOf(c) {
      a := n;
      StepElement(capacity, c, stream[n], Last(states), x);
      WeightSinceStep(stream, n, x.key);
      WeightUnseen(stream[..n][n..], x.key);
    } else {
      var y := Origin(capacity, c, stream[n], Last(states), x);
      a := GuaranteedSinceAdmission(capacity, stream[..n], states[..n + 1], y);
      AdmissionExtends(stream, states, x.key, a);
      WeightSinceStep(stream, a, x.key);
    }
  }

  lemma KeyOfElement(c: seq<Counter>, x: Counter)
    requires x in c
    ensures x.key in KeysOf(c)
  {
    var i :| 0 <= i < |c| && c[i] == x;
    assert KeysOf(c)[i] == x.key;
  }

  /** An admitted key gets the count of the last counter as its error, once there are `capacity` of them. */
  lemma ErrorOfAdmission(capacity: nat, stream: seq<Update>, states: seq<seq<Counter>>, x: Counter)
    returns (a: nat)
    requires capacity >= 1 && IsRun(capacity, stream, states) && x in Last(states)
    ensures LatestAdmission(stream, states, x.key, a)
    ensures x.error == if |states[a]| >= capacity then states[a][|states[a]| - 1].count else 0.0
    ensures x.count == x.error + Weight(stream[a..], x.key)
  {
    a := GuaranteedSinceAdmission(capacity, stream, states, x);
  }

  /** The tracker never vouches for more than a key received, and `count` misses the true weight by
      exactly what was lost before the latest admission, less the recorded error. */
  lemma NeverOverGuaranteed(capacity: nat, stream: seq<Update>, states: seq<seq<Counter>>, x: Counter)
    requires capacity >= 1 && IsRun(capacity, stream, states) && x in Last(states)
    ensures NonNegative(stream) ==> 0.0 <= x.Guaranteed() <= Weight(stream, x.key)
    ensures exists a: nat :: LatestAdmission(stream, states, x.key, a) &&
              x.Guaranteed() == Weight(stream[a..], x.key) &&
              Weight(stream, x.key) - x.count == Weight(stream[..a], x.key) - x.error
  {
    var a := GuaranteedSinceAdmission(capacity, stream, states, x);
    WeightSplit(stream, a, x.key);
    if NonNegative(stream) {
      WeightNonNegative(stream[..a], x.key);
      WeightNonNegative(stream[a..], x.key);
    }
  }

  lemma {:induction false} SeenAtLeast(c: seq<Counter>, keys: set<Key>)
    requires DistinctKeys(c) && forall x :: x in c ==> x.key in keys
    ensures |keys| >= |c|
  {
    if c != [] {
      var init, x := c[..|c| - 1], c[|c| - 1];
      assert x in c;
      forall y | y in init
        ensures y.key in keys - {x.key}
      {
        var i :| 0 <= i < |init| && init[i] == y;
        assert c[i] in c && c[i].key != c[|c| - 1].key;
      }
      SeenAtLeast(init, keys - {x.key});
    }
  }

  lemma {:induction false} TrackedWasSeen(capacity: nat, stream: seq<Update>, states: seq<seq<Counter>>)
    requires capacity >= 1 && IsRun(capacity, stream, states)
    ensures forall x :: x in Last(states) ==> x.key in KeysSeen(stream)
  {
    forall x | x in Last(states)
      ensures x.key in KeysSeen(stream)
    {
      var a := GuaranteedSinceAdmission(capacity, stream, states, x);
    }
  }

  ghost predicate Exact(stream: seq<Update>, c: seq<Counter>) {
    && (forall k :: k in KeysSeen(stream) ==> k in KeysOf(c))
    && (forall x :: x in c ==> x.Guaranteed() == Weight(stream, x.key))
  }

  lemma ExactStep(capacity: nat, stream: seq<Update>, u: Update, c: seq<Counter>, after: seq<Counter>)
    requires InsertStep(capacity, c, u, after) && DistinctKeys(c) && Exact(stream, c)
    requires u.key in KeysOf(c) || |c| + 1 <= 2 * capacity
    ensures Exact(stream + [u], after)
  {
    KeysSeenStep(stream, u);
    forall k | k in KeysSeen(stream + [u])
      ensures k in KeysOf(after)
    {
      StepKeepsKeys(capacity, c, u, after, k);
    }
    forall x | x in after
      ensures x.Guaranteed() == Weight(stream + [u], x.key)
    {
      StepElement(capacity, c, u, after, x);
      WeightStep(stream, u, x.key);
      if x.key == u.key && u.key !in KeysOf(c) { WeightUnseen(stream, u.key); }
    }
  }

  /** Room for a new key: the tracked keys and the new one have all been seen. */
  lemma RoomForNewKey(capacity: nat, stream: seq<Update>, u: Update, c: seq<Counter>)
    requires DistinctKeys(c) && u.key !in KeysOf(c) && |KeysSeen(stream + [u])| <= 2 * capacity
    requires forall x :: x in c ==> x.key in KeysSeen(stream)
    ensures |c| + 1 <= 2 * capacity
  {
    KeysSeenStep(stream, u);
    PushedElements(capacity, c, u);
    SeenAtLeast(Pushed(capacity, c, u), KeysSeen(stream + [u]));
  }

  /** While at most 2 * capacity distinct keys have been seen, every seen key is tracked, and every
      guaranteed weight is the true weight. */
  lemma {:induction false} ExactWhileFewKeys(capacity: nat, stream: seq<Update>, states: seq<seq<Counter>>)
    requires capacity >= 1 && IsRun(capacity, stream, states) && |KeysSeen(stream)| <= 2 * capacity
    ensures Exact(stream, Last(states))
  {
    if stream != [] {
      var n := |stream| - 1;
      var before, u, c := stream[..n], stream[n], states[n];
      assert stream == before + [u];
      KeysSeenStep(before, u);
      CardinalitySubset(KeysSeen(before), KeysSeen(stream));
      RunPrefix(capacity, stream, states);
      RunBounded(capacity, before, states[..n + 1]);
      TrackedWasSeen(capacity, before, states[..n + 1]);
      ExactWhileFewKeys(capacity, before, states[..n + 1]);
      if u.key !in KeysOf(c) { RoomForNewKey(capacity, before, u, c); }
      ExactStep(capacity, before, u, c, Last(states));
    }
  }

  ghost predicate NoErrors(c: seq<Counter>) {
    forall x :: x in c ==> x.error == 0.0
  }

  lemma NoErrorsStep(capacity: nat, c: seq<Counter>, u: Update, after: seq<Counter>)
    requires InsertStep(capacity, c, u, after) && NoErrors(c) && DistinctKeys(c)
    requires u.key in KeysOf(c) || |c| < capacity
    ensures NoErrors(after)
  {
    if u.key in KeysOf(c) {
      var i :| 0 <= i < |c| && c[i].key == u.key && after == Bumped(c, i, u);
      forall x | x in after
        ensures x.error == 0.0
      {
        var j :| 0 <= j < |after| && after[j] == x;
        assert c[j] in c;
      }
    }
  }

  /** With at most `capacity` keys seen, the new one among them, fewer are tracked. */
  lemma RoomWithoutError(capacity: nat, stream: seq<Update>, u: Update, c: seq<Counter>)
    requires DistinctKeys(c) && u.key !in KeysOf(c) && |KeysSeen(stream + [u])| <= capacity
    requires forall x :: x in c ==> x.key in KeysSeen(stream)
    ensures |c| < capacity
  {
    KeysSeenStep(stream, u);
    PushedElements(capacity, c, u);
    SeenAtLeast(Pushed(capacity, c, u), KeysSeen(stream + [u]));
  }

  lemma {:induction false} NoErrorsWhileRoom(capacity: nat, stream: seq<Update>, states: seq<seq<Counter>>)
    requires capacity >= 1 && IsRun(capacity, stream, states) && |KeysSeen(stream)| <= capacity
    ensures NoErrors(Last(states))
  {
    if stream != [] {
      var n := |stream| - 1;
      var before, u := stream[..n], stream[n];
      assert stream == before + [u];
      RunPrefix(capacity, stream, states);
      hide NoErrors, DistinctKeys, KeysSeen, KeysOf, IsRun, InsertStep;
      KeysSeenStep(before, u);
      CardinalitySubset(KeysSeen(before), KeysSeen(stream));
      var c := Last(states[..|states| - 1]);
      RunBounded(capacity, before, states[..|states| - 1]);
      TrackedWasSeen(capacity, before, states[..|states| - 1]);
      NoErrorsWhileRoom(capacity, before, states[..|states| - 1]);
      if u.key !in KeysOf(c) { RoomWithoutError(capacity, before, u, c); }
      NoErrorsStep(capacity, c, u, Last(states));
    }
  }

  /** While at most `capacity` distinct keys have been seen no error is recorded, so every reported count
      is the true weight. */
  lemma CountsExactWhileRoom(capacity: nat, stream: seq<Update>, states: seq<seq<Counter>>)
    requires capacity >= 1 && IsRun(capacity, stream, states) && |KeysSeen(stream)| <= capacity
    ensures NoErrors(Last(states))
    ensures forall x :: x in Last(states) ==> x.count == Weight(stream, x.key)
  {
    ExactWhileFewKeys(capacity, stream, states);
    NoErrorsWhileRoom(capacity, stream, states);
  }

  lemma CardinalitySubset<T>(a: set<T>, b: set<T>)
    requires a <= b
    ensures |a| <= |b|
  {
    assert b == a + (b - a);
  }

  // ---------------------------------------------------------------------------
  // Truncation keeps the heavy keys
  // ---------------------------------------------------------------------------

  lemma {:induction false} TotalAtLeast(c: seq<Counter>, n: nat, g: real)
    requires n <= |c| && forall i :: 0 <= i < |c| ==> c[i].Guaranteed() >= if i < n then g else 0.0
    ensures Total(c) >= n as real * g
  {
    if c != [] {
      if n == |c| {
        TotalAtLeast(c[..|c| - 1], n - 1, g);
        assert n as real * g == (n - 1) as real * g + g;
      } else {
        TotalAtLeast(c[..|c| - 1], n, g);
      }
    }
  }

  /** Nothing discarded is better than anything kept. */
  lemma TruncationKeepsBest(capacity: nat, c: seq<Counter>, after: seq<Counter>, kept: Counter, lost: Counter)
    requires Truncated(capacity, c, after) && kept in after && lost in c && lost !in after
    ensures kept.Guaranteed() >= lost.Guaranteed()
  {
    var s :| PartiallySorted(c, s, capacity) && capacity <= |s| && after == s[..capacity];
    assert lost in multiset(s);
    var i :| 0 <= i < |s| && s[i] == lost;
    assert i < capacity ==> after[i] == lost;
  }

  lemma NextMultiple(n: nat, g: real, rest: real, total: real)
    requires rest >= n as real * g && total == rest + g
    ensures (n + 1) as real * g <= total
  {
    assert (n + 1) as real * g == n as real * g + g;
  }

  lemma LostPosition(capacity: nat, c: seq<Counter>, after: seq<Counter>, x: Counter)
    returns (s: seq<Counter>, j: nat)
    requires Truncated(capacity, c, after) && x in c && x !in after
    ensures PartiallySorted(c, s, capacity) && capacity <= j < |s| && s[j] == x
  {
    s :| PartiallySorted(c, s, capacity) && capacity <= |s| && after == s[..capacity];
    assert x in multiset(s);
    j :| 0 <= j < |s| && s[j] == x;
    forall i | 0 <= i < capacity
      ensures s[i] != x
    {
      assert after[i] in after;
    }
  }

  /** Whatever truncation discards has at most 1/(capacity+1) of the total guaranteed weight. */
  lemma LostIsLight(capacity: nat, c: seq<Counter>, after: seq<Counter>, x: Counter)
    requires Truncated(capacity, c, after) && x in c && x !in after
    requires forall y :: y in c ==> y.Guaranteed() >= 0.0
    ensures (capacity + 1) as real * x.Guaranteed() <= Total(c)
  {
    hide Total, Cut, Truncated;
    var s, j := LostPosition(capacity, c, after, x);
    LostAmongRest(capacity, c, s, j);
    TotalPermutation(c, s);
    TotalCut(s, j);
    NextMultiple(capacity, x.Guaranteed(), Total(Cut(s, j)), Total(c));
  }

  /** A counter with more than 1/(capacity+1) of the total guaranteed weight survives truncation. */
  lemma TruncationKeepsHeavy(capacity: nat, c: seq<Counter>, after: seq<Counter>, x: Counter)
    requires Truncated(capacity, c, after) && x in c
    requires forall y :: y in c ==> y.Guaranteed() >= 0.0
    requires (capacity + 1) as real * x.Guaranteed() > Total(c)
    ensures x in after
  {
    if x !in after { LostIsLight(capacity, c, after, x); }
  }

  lemma LostAmongRest(capacity: nat, c: seq<Counter>, s: seq<Counter>, j: nat)
    requires PartiallySorted(c, s, capacity) && capacity <= j < |s|
    requires forall y :: y in c ==> y.Guaranteed() >= 0.0
    ensures Total(Cut(s, j)) >= capacity as real * s[j].Guaranteed()
  {
    var r := Cut(s, j);
    forall i | 0 <= i < |r|
      ensures r[i].Guaranteed() >= if i < capacity then s[j].Guaranteed() else 0.0
    {
      assert r[i] in multiset(s) by { assert r[i] == s[if i < j then i else i + 1]; }
      assert r[i] in c;
    }
    TotalAtLeast(r, capacity, s[j].Guaranteed());
  }

  /** In any run over non-negative increments, an insertion never loses a heavy key. */
  lemma HeavyKeySurvives(capacity: nat, stream: seq<Update>, states: seq<seq<Counter>>, x: Counter)
    requires capacity >= 1 && stream != [] && NonNegative(stream) && IsRun(capacity, stream, states)
    requires var c, u := states[|stream| - 1], stream[|stream| - 1];
             u.key !in KeysOf(c) && x in Pushed(capacity, c, u) &&
             (capacity + 1) as real * x.Guaranteed() > Total(Pushed(capacity, c, u))
    ensures x in Last(states)
  {
    var n := |stream| - 1;
    var c, u := states[n], stream[n];
    var p := Pushed(capacity, c, u);
    RunPrefix(capacity, stream, states);
    RunBounded(capacity, stream[..n], states[..n + 1]);
    if |c| + 1 > 2 * capacity {
      PushedElements(capacity, c, u);
      forall y | y in p
        ensures y.Guaranteed() >= 0.0
      {
        if y in c { NeverOverGuaranteed(capacity, stream[..n], states[..n + 1], y); }
      }
      TruncationKeepsHeavy(capacity, p, Last(states), x);
    }
  }

  const A: Key := Key("a")
  const B: Key := Key("b")
  const X: Key := Key("x")

  /** The error comes from the last counter, also where an earlier one counts more: with capacity 2, a key of
      weight 1 that follows weights 5 and 3 gets error 3 and count 4. */
  lemma LastCountIsError()
    ensures IsRun(2, [Update(A, 5.0), Update(B, 3.0), Update(X, 1.0)],
                  [[], [Counter(A, 5.0, 0.0)], [Counter(A, 5.0, 0.0), Counter(B, 3.0, 0.0)],
                   [Counter(A, 5.0, 0.0), Counter(B, 3.0, 0.0), Counter(X, 4.0, 3.0)]])
  {
    var none: seq<Counter> := [];
    var a, b, x := Counter(A, 5.0, 0.0), Counter(B, 3.0, 0.0), Counter(X, 4.0, 3.0);
    var stream, states := [Update(A, 5.0), Update(B, 3.0), Update(X, 1.0)], [none, [a], [a, b], [a, b, x]];
    assert InsertStep(2, none, stream[0], [a]) by { assert Pushed(2, none, stream[0]) == [a]; }
    assert InsertStep(2, [a], stream[1], [a, b]) by {
      assert KeysOf([a]) == [A];
      assert Pushed(2, [a], stream[1]) == [a, b];
    }
    assert InsertStep(2, [a, b], stream[2], [a, b, x]) by {
      assert KeysOf([a, b]) == [A, B];
      assert Pushed(2, [a, b], stream[2]) == [a, b, x];
    }
    hide InsertStep;
  }

  // ---------------------------------------------------------------------------
  // When `count` is an upper bound on the true weight
  // ---------------------------------------------------------------------------

  ghost predicate CountersNonNegative(c: seq<Counter>) {
    forall x :: x in c ==> x.count >= 0.0 && x.error >= 0.0
  }

  lemma PushedPositive(capacity: nat, c: seq<Counter>, u: Update)
    requires CountersNonNegative(c) && u.increment >= 0.0
    ensures CountersNonNegative(Pushed(capacity, c, u))
  {
    assert c != [] ==> c[|c| - 1] in c;
  }

  lemma PositiveStep(capacity: nat, c: seq<Counter>, u: Update, after: seq<Counter>)
    requires InsertStep(capacity, c, u, after) && DistinctKeys(c) && CountersNonNegative(c) && u.increment >= 0.0
    ensures CountersNonNegative(after)
  {
    if u.key in KeysOf(c) {
      var i :| 0 <= i < |c| && c[i].key == u.key && after == Bumped(c, i, u);
      assert c[i] in c;
    } else {
      PushedPositive(capacity, c, u);
      PushedElements(capacity, c, u);
      hide CountersNonNegative, DistinctKeys, Pushed;
      if |c| + 1 > 2 * capacity { TruncatedPositive(capacity, Pushed(capacity, c, u), after); }
    }
  }

  lemma TruncatedPositive(capacity: nat, c: seq<Counter>, after: seq<Counter>)
    requires Truncated(capacity, c, after) && DistinctKeys(c) && CountersNonNegative(c)
    ensures CountersNonNegative(after)
  {
    TruncatedElements(capacity, c, after);
  }

  lemma {:induction false} RunPositive(capacity: nat, stream: seq<Update>, states: seq<seq<Counter>>)
    requires capacity >= 1 && IsRun(capacity, stream, states) && NonNegative(stream)
    ensures CountersNonNegative(Last(states))
  {
    if stream != [] {
      var n := |stream| - 1;
      RunPrefix(capacity, stream, states);
      RunPositive(capacity, stream[..n], states[..|states| - 1]);
      RunBounded(capacity, stream[..n], states[..|states| - 1]);
      assert stream[n].increment >= 0.0;
      hide CountersNonNegative, InsertStep, DistinctKeys;
      PositiveStep(capacity, Last(states[..|states| - 1]), stream[n], Last(states));
    }
  }

  /** For streams of at most `distinct` keys no reported count is below the true weight. */
  ghost predicate CountsCover(capacity: nat, distinct: nat) {
    forall stream, states, x ::
      NonNegative(stream) && |KeysSeen(stream)| <= distinct && IsRun(capacity, stream, states) && x in Last(states) ==>
      x.count >= Weight(stream, x.key)
  }

  /** Some run over the stream ends with these counters. */
  ghost predicate Yields(capacity: nat, stream: seq<Update>, c: seq<Counter>) {
    exists states :: IsRun(capacity, stream, states) && Last(states) == c
  }

  lemma YieldsNext(capacity: nat, stream: seq<Update>, c: seq<Counter>, u: Update, after: seq<Counter>)
    requires Yields(capacity, stream, c) && InsertStep(capacity, c, u, after)
    ensures Yields(capacity, stream + [u], after)
  {
    hide InsertStep;
    var states :| IsRun(capacity, stream, states) && Last(states) == c;
    RunExtend(capacity, stream, states, u, after);
    assert Last(states + [after]) == after;
  }

  /** The i-th of a row of keys. */
  function Nth(i: nat): Key {
    Key(seq(i, _ => 'k'))
  }

  lemma NthDistinct(i: nat, j: nat)
    ensures Nth(i) == Nth(j) ==> i == j
  {
    assert |Nth(i).text| == i && |Nth(j).text| == j;
  }

  /** The first n keys with weight 5, and their counters. */
  function Heavy(n: nat): seq<Update> {
    seq(n, i requires 0 <= i < n => Update(Nth(i), 5.0))
  }

  function HeavyCounters(n: nat): seq<Counter> {
    seq(n, i requires 0 <= i < n => Counter(Nth(i), 5.0, 0.0))
  }

  /** n keys with weight 1, and their counters when the first of them finds count 9 in the last place. */
  function Light(capacity: nat, n: nat): seq<Update> {
    seq(n, i requires 0 <= i < n => Update(Nth(capacity + i), 1.0))
  }

  function LightCounters(capacity: nat, n: nat): seq<Counter> {
    seq(n, i requires 0 <= i < n => Counter(Nth(capacity + i), (10 + i) as real, (9 + i) as real))
  }

  /** The key that is lost, and its counter on admission after the heavy ones. */
  function Lost(capacity: nat): Key {
    Nth(2 * capacity)
  }

  function LostCounter(capacity: nat): Counter {
    Counter(Lost(capacity), 9.0, 5.0)
  }

  /** Full house: the heavy keys, the one to be lost, and n light ones. */
  function Crowd(capacity: nat, n: nat): seq<Counter> {
    HeavyCounters(capacity) + [LostCounter(capacity)] + LightCounters(capacity, n)
  }

  lemma CrowdKey(capacity: nat, n: nat, i: nat)
    requires i < |Crowd(capacity, n)| && n <= capacity
    ensures Crowd(capacity, n)[i].key ==
            Nth(if i < capacity then i else if i == capacity then 2 * capacity else i - 1)
  {
    var k := i - capacity - 1;
    assert i > capacity ==> Crowd(capacity, n)[i] == LightCounters(capacity, n)[k];
  }

  lemma HeavyFresh(n: nat)
    ensures Nth(n) !in KeysOf(HeavyCounters(n))
  {
    forall i | 0 <= i < n
      ensures KeysOf(HeavyCounters(n))[i] != Nth(n)
    {
      NthDistinct(i, n);
    }
  }

  lemma LostFresh(capacity: nat)
    requires capacity >= 1
    ensures Lost(capacity) !in KeysOf(HeavyCounters(capacity))
  {
    forall i | 0 <= i < capacity
      ensures KeysOf(HeavyCounters(capacity))[i] != Lost(capacity)
    {
      NthDistinct(i, 2 * capacity);
    }
  }

  lemma LightFresh(capacity: nat, n: nat)
    requires n < capacity
    ensures Nth(capacity + n) !in KeysOf(Crowd(capacity, n))
  {
    var c := Crowd(capacity, n);
    forall i | 0 <= i < |c|
      ensures KeysOf(c)[i] != Nth(capacity + n)
    {
      CrowdKey(capacity, n, i);
      var k := if i < capacity then i else if i == capacity then 2 * capacity else i - 1;
      NthDistinct(k, capacity + n);
    }
  }

  lemma {:induction false} HeavyRun(capacity: nat, n: nat)
    requires n <= capacity
    ensures Yields(capacity, Heavy(n), HeavyCounters(n))
  {
    if n == 0 {
      assert IsRun(capacity, [], [[]]) && Last([[]]) == HeavyCounters(0);
    } else {
      HeavyRun(capacity, n - 1);
      HeavyFresh(n - 1);
      assert Heavy(n) == Heavy(n - 1) + [Update(Nth(n - 1), 5.0)];
      assert HeavyCounters(n) == Pushed(capacity, HeavyCounters(n - 1), Update(Nth(n - 1), 5.0));
      YieldsNext(capacity, Heavy(n - 1), HeavyCounters(n - 1), Update(Nth(n - 1), 5.0), HeavyCounters(n));
    }
  }

  /** The key to be lost is admitted with the count of a heavy key as its error. */
  lemma LostAdmitted(capacity: nat, stream: seq<Update>, w: real)
    requires capacity >= 1 && Yields(capacity, stream, HeavyCounters(capacity))
    ensures Yields(capacity, stream + [Update(Lost(capacity), w)],
                   HeavyCounters(capacity) + [Counter(Lost(capacity), w + 5.0, 5.0)])
  {
    hide Yields;
    var c, u := HeavyCounters(capacity), Update(Lost(capacity), w);
    LostFresh(capacity);
    assert Pushed(capacity, c, u) == c + [Counter(Lost(capacity), w + 5.0, 5.0)];
    YieldsNext(capacity, stream, c, u, Pushed(capacity, c, u));
  }

  /** A light key joins the crowd. */
  lemma CrowdPushed(capacity: nat, n: nat)
    requires n < capacity
    ensures Pushed(capacity, Crowd(capacity, n), Update(Nth(capacity + n), 1.0)) == Crowd(capacity, n + 1)
  {
    var c := Crowd(capacity, n);
    assert c[|c| - 1].count == (9 + n) as real;
    assert LightCounters(capacity, n + 1) ==
           LightCounters(capacity, n) + [Counter(Nth(capacity + n), (10 + n) as real, (9 + n) as real)];
  }

  lemma {:induction false} CrowdRun(capacity: nat, stream: seq<Update>, n: nat)
    requires n < capacity && Yields(capacity, stream, Crowd(capacity, 0))
    ensures Yields(capacity, stream + Light(capacity, n), Crowd(capacity, n))
  {
    if n == 0 {
      assert stream + Light(capacity, 0) == stream;
    } else {
      CrowdRun(capacity, stream, n - 1);
      var u := Update(Nth(capacity + (n - 1)), 1.0);
      LightFresh(capacity, n - 1);
      CrowdPushed(capacity, n - 1);
      assert stream + Light(capacity, n) == (stream + Light(capacity, n - 1)) + [u];
      hide Yields, Crowd, KeysOf;
      CrowdSize(capacity, n - 1);
      YieldsNext(capacity, stream + Light(capacity, n - 1), Crowd(capacity, n - 1), u, Crowd(capacity, n));
    }
  }

  lemma CrowdSize(capacity: nat, n: nat)
    ensures |Crowd(capacity, n)| == capacity + 1 + n
  {}

  /** The last light key fills the house, and truncation leaves the heavy keys. */
  lemma CrowdTruncated(capacity: nat)
    requires capacity >= 1
    ensures Truncated(capacity, Crowd(capacity, capacity), HeavyCounters(capacity))
  {
    var c := Crowd(capacity, capacity);
    forall i, j | 0 <= i < j < |c| && i < capacity
      ensures c[i].Guaranteed() >= c[j].Guaranteed()
    {
      assert c[i].Guaranteed() == 5.0;
      if j > capacity { assert c[j] == LightCounters(capacity, capacity)[j - capacity - 1]; }
    }
    assert PartiallySorted(c, c, capacity) && c[..capacity] == HeavyCounters(capacity);
  }

  /** One round: weight 4 for the key to be lost, then all the light keys. */
  function Round(capacity: nat): seq<Update> {
    [Update(Lost(capacity), 4.0)] + Light(capacity, capacity)
  }

  lemma RoundRun(capacity: nat, stream: seq<Update>)
    requires capacity >= 1 && Yields(capacity, stream, HeavyCounters(capacity))
    ensures Yields(capacity, stream + Round(capacity), HeavyCounters(capacity))
  {
    var n := capacity - 1;
    var admitted := stream + [Update(Lost(capacity), 4.0)];
    var u := Update(Nth(capacity + n), 1.0);
    LostAdmitted(capacity, stream, 4.0);
    assert Crowd(capacity, 0) == HeavyCounters(capacity) + [LostCounter(capacity)];
    CrowdRun(capacity, admitted, n);
    LightFresh(capacity, n);
    CrowdPushed(capacity, n);
    CrowdTruncated(capacity);
    CrowdSize(capacity, n);
    assert stream + Round(capacity) == (admitted + Light(capacity, n)) + [u];
    hide Yields, Crowd, KeysOf, Truncated, HeavyCounters;
    YieldsNext(capacity, admitted + Light(capacity, n), Crowd(capacity, n), u, HeavyCounters(capacity));
  }

  /** The heavy keys, and two rounds in which the lost key gets weight 4 each and is dropped. */
  function Dropped(capacity: nat): seq<Update> {
    Heavy(capacity) + Round(capacity) + Round(capacity)
  }

  lemma DroppedRun(capacity: nat)
    requires capacity >= 1
    ensures Yields(capacity, Dropped(capacity), HeavyCounters(capacity))
  {
    hide Yields;
    HeavyRun(capacity, capacity);
    RoundRun(capacity, Heavy(capacity));
    RoundRun(capacity, Heavy(capacity) + Round(capacity));
  }

  /** And a last small weight. */
  function Undercounted(capacity: nat): seq<Update> {
    Dropped(capacity) + [Update(Lost(capacity), 1.0)]
  }

  lemma UndercountedRun(capacity: nat)
    requires capacity >= 1
    ensures Yields(capacity, Undercounted(capacity), HeavyCounters(capacity) + [Counter(Lost(capacity), 6.0, 5.0)])
  {
    hide Yields, Dropped;
    DroppedRun(capacity);
    LostAdmitted(capacity, Dropped(capacity), 1.0);
  }

  lemma WeightAppend(a: seq<Update>, b: seq<Update>, k: Key)
    ensures Weight(a + b, k) == Weight(a, k) + Weight(b, k)
  {
    WeightSplit(a + b, |a|, k);
    assert (a + b)[..|a|] == a && (a + b)[|a|..] == b;
  }

  lemma WeightOne(u: Update, k: Key)
    ensures Weight([u], k) == if u.key == k then u.increment else 0.0
  {
    WeightStep([], u, k);
  }

  lemma OthersWeightless(capacity: nat)
    requires capacity >= 1
    ensures Weight(Heavy(capacity), Lost(capacity)) == 0.0
    ensures Weight(Light(capacity, capacity), Lost(capacity)) == 0.0
  {
    forall i | 0 <= i < 2 * capacity
      ensures Nth(i) != Lost(capacity)
    {
      NthDistinct(i, 2 * capacity);
    }
    WeightUnseen(Heavy(capacity), Lost(capacity));
    WeightUnseen(Light(capacity, capacity), Lost(capacity));
  }

  lemma DroppedWeight(capacity: nat)
    requires capacity >= 1
    ensures Weight(Dropped(capacity), Lost(capacity)) == 8.0
  {
    hide Weight, Heavy, Light;
    var x := Lost(capacity);
    OthersWeightless(capacity);
    WeightOne(Update(x, 4.0), x);
    WeightAppend([Update(x, 4.0)], Light(capacity, capacity), x);
    WeightAppend(Heavy(capacity), Round(capacity), x);
    WeightAppend(Heavy(capacity) + Round(capacity), Round(capacity), x);
  }

  lemma UndercountedWeight(capacity: nat)
    requires capacity >= 1
    ensures Weight(Undercounted(capacity), Lost(capacity)) == 9.0
  {
    hide Weight, Dropped;
    DroppedWeight(capacity);
    WeightOne(Update(Lost(capacity), 1.0), Lost(capacity));
    WeightAppend(Dropped(capacity), [Update(Lost(capacity), 1.0)], Lost(capacity));
  }

  lemma {:induction false} RowSize(n: nat)
    ensures |set i | 0 <= i < n :: Nth(i)| <= n
  {
    if n > 0 {
      RowSize(n - 1);
      assert (set i | 0 <= i < n :: Nth(i)) == (set i | 0 <= i < n - 1 :: Nth(i)) + {Nth(n - 1)};
    }
  }

  /** Every element of the stream is non-negative and has one of the first 2 * capacity + 1 keys. */
  ghost predicate FromRow(capacity: nat, stream: seq<Update>) {
    forall i :: 0 <= i < |stream| ==>
      stream[i].increment >= 0.0 && exists j :: 0 <= j <= 2 * capacity && stream[i].key == Nth(j)
  }

  lemma FromRowAppend(capacity: nat, a: seq<Update>, b: seq<Update>)
    requires FromRow(capacity, a) && FromRow(capacity, b)
    ensures FromRow(capacity, a + b)
  {
    var s := a + b;
    forall i | 0 <= i < |s|
      ensures s[i].increment >= 0.0 && exists j :: 0 <= j <= 2 * capacity && s[i].key == Nth(j)
    {
      assert s[i] == if i < |a| then a[i] else b[i - |a|];
    }
  }

  lemma DroppedFromRow(capacity: nat)
    ensures FromRow(capacity, Dropped(capacity))
  {
    assert FromRow(capacity, [Update(Lost(capacity), 4.0)]);
    assert FromRow(capacity, Heavy(capacity)) && FromRow(capacity, Light(capacity, capacity));
    hide FromRow;
    FromRowAppend(capacity, [Update(Lost(capacity), 4.0)], Light(capacity, capacity));
    FromRowAppend(capacity, Heavy(capacity), Round(capacity));
    FromRowAppend(capacity, Heavy(capacity) + Round(capacity), Round(capacity));
  }

  lemma UndercountedFromRow(capacity: nat)
    ensures FromRow(capacity, Undercounted(capacity))
  {
    assert FromRow(capacity, [Update(Lost(capacity), 1.0)]);
    hide FromRow, Dropped;
    DroppedFromRow(capacity);
    FromRowAppend(capacity, Dropped(capacity), [Update(Lost(capacity), 1.0)]);
  }

  lemma RowKeys(capacity: nat, stream: seq<Update>)
    requires FromRow(capacity, stream)
    ensures NonNegative(stream) && |KeysSeen(stream)| <= 2 * capacity + 1
  {
    var row := set i | 0 <= i < 2 * capacity + 1 :: Nth(i);
    forall k | k in KeysSeen(stream)
      ensures k in row
    {
      var i :| 0 <= i < |stream| && stream[i].key == k;
      var j :| 0 <= j <= 2 * capacity && stream[i].key == Nth(j);
    }
    RowSize(2 * capacity + 1);
    CardinalitySubset(KeysSeen(stream), row);
  }

  /** For every capacity there is a run over 2 * capacity + 1 keys in which a key that received weight 9
      is reported with count 6: what truncation dropped is not covered by the error taken from the last
      counter. */
  lemma CountCanUndercount(capacity: nat) returns (states: seq<seq<Counter>>)
    requires capacity >= 1
    ensures NonNegative(Undercounted(capacity)) && |KeysSeen(Undercounted(capacity))| <= 2 * capacity + 1
    ensures IsRun(capacity, Undercounted(capacity), states)
    ensures Counter(Lost(capacity), 6.0, 5.0) in Last(states)
    ensures Weight(Undercounted(capacity), Lost(capacity)) == 9.0
  {
    hide Weight, Undercounted, InsertStep;
    UndercountedWeight(capacity);
    UndercountedFromRow(capacity);
    RowKeys(capacity, Undercounted(capacity));
    UndercountedRun(capacity);
    states :| IsRun(capacity, Undercounted(capacity), states) &&
              Last(states) == HeavyCounters(capacity) + [Counter(Lost(capacity), 6.0, 5.0)];
    assert Last(states)[capacity] == Counter(Lost(capacity), 6.0, 5.0);
  }

  /** Reported counts are upper bounds on the true weights, for all streams of so many distinct keys,
      exactly when the tracker never has to truncate for them. */
  lemma CountsCoverIff(capacity: nat, distinct: nat)
    requires capacity >= 1
    ensures CountsCover(capacity, distinct) <==> distinct <= 2 * capacity
  {
    hide Weight, InsertStep, KeysSeen, Undercounted;
    if distinct <= 2 * capacity {
      forall stream, states, x |
        NonNegative(stream) && |KeysSeen(stream)| <= distinct && IsRun(capacity, stream, states) && x in Last(states)
        ensures x.count >= Weight(stream, x.key)
      {
        ExactWhileFewKeys(capacity, stream, states);
        RunPositive(capacity, stream, states);
      }
    } else {
      var states := CountCanUndercount(capacity);
      assert Counter(Lost(capacity), 6.0, 5.0).count < Weight(Undercounted(capacity), Lost(capacity));
    }
  }

  // ---------------------------------------------------------------------------
  // When a key that is heavy in the whole stream is tracked
  // ---------------------------------------------------------------------------

  /** The weight of the whole stream. */
  function Volume(stream: seq<Update>): real {
    if stream == [] then 0.0 else Volume(stream[..|stream| - 1]) + stream[|stream| - 1].increment
  }

  lemma {:induction false} VolumeAppend(a: seq<Update>, b: seq<Update>)
    ensures Volume(a + b) == Volume(a) + Volume(b)
  {
    if b == [] {
      assert a + b == a;
    } else {
      var init := b[..|b| - 1];
      assert (a + b)[..|a + b| - 1] == a + init;
      VolumeAppend(a, init);
    }
  }

  lemma {:induction false} VolumeNonNegative(stream: seq<Update>)
    requires NonNegative(stream)
    ensures Volume(stream) >= 0.0
  {
    if stream != [] { VolumeNonNegative(stream[..|stream| - 1]); }
  }

  lemma {:induction false} VolumeConstant(stream: seq<Update>, w: real)
    requires forall i :: 0 <= i < |stream| ==> stream[i].increment == w
    ensures Volume(stream) == |stream| as real * w
  {
    if stream != [] {
      VolumeConstant(stream[..|stream| - 1], w);
      NextProduct(|stream| - 1, w);
    }
  }

  lemma NextProduct(n: nat, w: real)
    ensures (n + 1) as real * w == n as real * w + w
  {}

  /** k holds more than 1/(capacity+1) of the weight of the stream. */
  ghost predicate HeavyKey(capacity: nat, stream: seq<Update>, k: Key) {
    (capacity + 1) as real * Weight(stream, k) > Volume(stream)
  }

  /** For streams of at most `distinct` keys every heavy key is tracked in the end. */
  ghost predicate HeavyTracked(capacity: nat, distinct: nat) {
    forall stream, states, k ::
      NonNegative(stream) && |KeysSeen(stream)| <= distinct && IsRun(capacity, stream, states) &&
      HeavyKey(capacity, stream, k) ==>
      k in KeysOf(Last(states))
  }

  lemma HeavySeen(capacity: nat, stream: seq<Update>, k: Key)
    requires NonNegative(stream) && HeavyKey(capacity, stream, k)
    ensures k in KeysSeen(stream)
  {
    VolumeNonNegative(stream);
    if k !in KeysSeen(stream) { WeightUnseen(stream, k); }
  }

  lemma RoundVolume(capacity: nat)
    ensures Volume(Round(capacity)) == 4.0 + capacity as real
  {
    var first := [Update(Lost(capacity), 4.0)];
    VolumeAppend(first, Light(capacity, capacity));
    VolumeConstant(first, 4.0);
    VolumeConstant(Light(capacity, capacity), 1.0);
  }

  lemma DroppedVolume(capacity: nat)
    ensures Volume(Dropped(capacity)) == 7.0 * capacity as real + 8.0
  {
    hide Volume, Round, Heavy;
    HeavyVolume(capacity);
    RoundVolume(capacity);
    VolumeAppend(Heavy(capacity), Round(capacity));
    VolumeAppend(Heavy(capacity) + Round(capacity), Round(capacity));
  }

  lemma HeavyVolume(capacity: nat)
    ensures Volume(Heavy(capacity)) == capacity as real * 5.0
  {
    VolumeConstant(Heavy(capacity), 5.0);
  }

  lemma DroppedHeavy(capacity: nat)
    requires capacity >= 1
    ensures HeavyKey(capacity, Dropped(capacity), Lost(capacity))
  {
    hide Weight, Volume, Dropped;
    DroppedWeight(capacity);
    DroppedVolume(capacity);
  }

  /** For every capacity there is a run over 2 * capacity + 1 keys that ends without one of its heavy keys. */
  lemma HeavyCanBeLost(capacity: nat) returns (states: seq<seq<Counter>>)
    requires capacity >= 1
    ensures NonNegative(Dropped(capacity)) && |KeysSeen(Dropped(capacity))| <= 2 * capacity + 1
    ensures IsRun(capacity, Dropped(capacity), states) && HeavyKey(capacity, Dropped(capacity), Lost(capacity))
    ensures Lost(capacity) !in KeysOf(Last(states))
  {
    hide HeavyKey, InsertStep, FromRow, Dropped, KeysSeen;
    DroppedHeavy(capacity);
    DroppedFromRow(capacity);
    RowKeys(capacity, Dropped(capacity));
    DroppedRun(capacity);
    LostFresh(capacity);
    states :| IsRun(capacity, Dropped(capacity), states) && Last(states) == HeavyCounters(capacity);
  }

  /** A key with more than 1/(capacity+1) of the weight of the whole stream is tracked in the end, for all
      streams of so many distinct keys, exactly when the tracker never has to truncate for them. */
  lemma HeavyTrackedIff(capacity: nat, distinct: nat)
    requires capacity >= 1
    ensures HeavyTracked(capacity, distinct) <==> distinct <= 2 * capacity
  {
    hide HeavyKey, InsertStep, KeysSeen, KeysOf, Dropped;
    if distinct <= 2 * capacity {
      forall stream, states, k |
        NonNegative(stream) && |KeysSeen(stream)| <= distinct && IsRun(capacity, stream, states) &&
        HeavyKey(capacity, stream, k)
        ensures k in KeysOf(Last(states))
      {
        HeavySeen(capacity, stream, k);
        ExactWhileFewKeys(capacity, stream, states);
      }
    } else {
      var states := HeavyCanBeLost(capacity);
    }
  }

  // ---------------------------------------------------------------------------
  // When reported counts descend
  // ---------------------------------------------------------------------------

  /** For streams of at most `distinct` keys the counts of the best k keys descend, for every k and however
      ties are broken. */
  ghost predicate CountsDescend(capacity: nat, distinct: nat) {
    forall stream, states, s: seq<Counter>, k: nat, i, j ::
      NonNegative(stream) && |KeysSeen(stream)| <= distinct && IsRun(capacity, stream, states) &&
      PartiallySorted(Last(states), s, k) && 0 <= i < j < k <= |s| ==>
      s[i].count >= s[j].count
  }

  /** Without recorded errors the order by guaranteed weight is the order by count. */
  lemma DescendWithoutErrors(c: seq<Counter>, s: seq<Counter>, k: nat)
    requires PartiallySorted(c, s, k) && NoErrors(c) && k <= |s|
    ensures forall i, j :: 0 <= i < j < k ==> s[i].count >= s[j].count
  {
    forall i | 0 <= i < |s|
      ensures s[i].error == 0.0
    {
      assert s[i] in multiset(c);
    }
  }

  /** After the heavy keys the next one carries their count as its error, and is reported above them. */
  lemma CountsCanRise(capacity: nat) returns (states: seq<seq<Counter>>)
    requires capacity >= 1
    ensures var stream := Heavy(capacity) + [Update(Lost(capacity), 4.0)];
            && NonNegative(stream) && |KeysSeen(stream)| <= capacity + 1 && IsRun(capacity, stream, states)
            && Last(states) == HeavyCounters(capacity) + [LostCounter(capacity)]
    ensures var s := Last(states); PartiallySorted(s, s, |s|) && s[capacity - 1].count < s[capacity].count
  {
    var stream := Heavy(capacity) + [Update(Lost(capacity), 4.0)];
    HeavyKeysSeen(capacity);
    KeysSeenStep(Heavy(capacity), Update(Lost(capacity), 4.0));
    hide InsertStep, KeysSeen;
    HeavyRun(capacity, capacity);
    LostAdmitted(capacity, Heavy(capacity), 4.0);
    states :| IsRun(capacity, stream, states) &&
              Last(states) == HeavyCounters(capacity) + [Counter(Lost(capacity), 9.0, 5.0)];
  }

  lemma HeavyKeysSeen(capacity: nat)
    ensures |KeysSeen(Heavy(capacity))| <= capacity
  {
    var row := set i | 0 <= i < capacity :: Nth(i);
    forall k | k in KeysSeen(Heavy(capacity))
      ensures k in row
    {
      var i :| 0 <= i < capacity && Heavy(capacity)[i].key == k;
    }
    RowSize(capacity);
    CardinalitySubset(KeysSeen(Heavy(capacity)), row);
  }

  /** The reported counts descend, for all streams of so many distinct keys, exactly when every key finds
      room without an error. */
  lemma CountsDescendIff(capacity: nat, distinct: nat)
    requires capacity >= 1
    ensures CountsDescend(capacity, distinct) <==> distinct <= capacity
  {
    hide KeysSeen, InsertStep;
    if distinct <= capacity {
      forall stream, states, s: seq<Counter>, k: nat, i, j |
        NonNegative(stream) && |KeysSeen(stream)| <= distinct && IsRun(capacity, stream, states) &&
        PartiallySorted(Last(states), s, k) && 0 <= i < j < k <= |s|
        ensures s[i].count >= s[j].count
      {
        CountsExactWhileRoom(capacity, stream, states);
        DescendWithoutErrors(Last(states), s, k);
      }
    } else {
      var states := CountsCanRise(capacity);
      var s := Last(states);
      assert PartiallySorted(s, s, |s|) && 0 <= capacity - 1 < capacity < |s|;
    }
  }

  // ---------------------------------------------------------------------------
  // The tracker in place
  // ---------------------------------------------------------------------------

  /** The index map and the counter vector are inverse to each other. */
  ghost predicate Indexed(index: map<Key, nat>, c: seq<Counter>) {
    && (forall i :: 0 <= i < |c| ==> c[i].key in index && index[c[i].key] == i)
    && (forall k :: k in index ==> index[k] < |c| && c[index[k]].key == k)
  }

  lemma RunExtend(capacity: nat, stream: seq<Update>, states: seq<seq<Counter>>, u: Update, after: seq<Counter>)
    requires IsRun(capacity, stream, states) && InsertStep(capacity, Last(states), u, after)
    ensures IsRun(capacity, stream + [u], states + [after])
  {
    var t, s := states + [after], stream + [u];
    forall i | 0 <= i < |s|
      ensures InsertStep(capacity, t[i], s[i], t[i + 1])
    {
      if i < |stream| {
        assert t[i] == states[i] && s[i] == stream[i] && t[i + 1] == states[i + 1];
      }
    }
  }

  lemma IndexedKeys(index: map<Key, nat>, c: seq<Counter>)
    requires Indexed(index, c)
    ensures forall k :: k in KeysOf(c) <==> k in index
  {
    forall k | k in index
      ensures k in KeysOf(c)
    {
      assert KeysOf(c)[index[k]] == k;
    }
  }

  class Tracker {
    const capacity: nat
    var index: map<Key, nat>
    var counters: seq<Counter>

    /** The stream so far, and the counters after each of its elements. */
    ghost var stream: seq<Update>
    ghost var states: seq<seq<Counter>>

    ghost predicate Valid()
      reads this
    {
      && capacity >= 1
      && IsRun(capacity, stream, states) && Last(states) == counters
      && Indexed(index, counters)
    }

    constructor (size: nat)
      requires size >= 1
      ensures Valid() && capacity == size && stream == []
    {
      capacity := size;
      index, counters := map[], [];
      stream, states := [], [[]];
    }

    /** Keep the best `capacity` counters and rebuild the index. */
    method Truncate()
      requires DistinctKeys(counters) && Indexed(index, counters)
      modifies this`counters, this`index
      ensures Indexed(index, counters)
      ensures if |old(counters)| > 2 * capacity then Truncated(capacity, old(counters), counters)
              else counters == old(counters)
    {
      if |counters| > capacity * 2 {
        ghost var before := counters;
        var sorted := PartialSort(counters, capacity);
        counters := sorted[..capacity];
        assert Truncated(capacity, before, counters);
        TruncatedElements(capacity, before, counters);
        index := BuildIndex(counters);
      }
    }

    /** The branch of `insert` for a tracked key. */
    method Bump(key: Key, increment: real)
      requires Indexed(index, counters) && key in index
      modifies this`counters
      ensures Indexed(index, counters)
      ensures InsertStep(capacity, old(counters), Update(key, increment), counters)
    {
      ghost var before := counters;
      IndexedKeys(index, counters);
      var i := index[key];
      counters := counters[i := counters[i].(count := counters[i].count + increment)];
      assert counters == Bumped(before, i, Update(key, increment));
    }

    /** The branch of `insert` for a new key. */
    method Push(key: Key, increment: real)
      requires capacity >= 1 && Indexed(index, counters) && DistinctKeys(counters) && key !in index
      modifies this`counters, this`index
      ensures Indexed(index, counters)
      ensures InsertStep(capacity, old(counters), Update(key, increment), counters)
    {
      IndexedKeys(index, counters);
      PushedElements(capacity, counters, Update(key, increment));
      var error := 0.0;
      if |counters| >= capacity {
        error := counters[|counters| - 1].count;
      }
      counters := counters + [Counter(key, increment + error, error)];
      assert counters == Pushed(capacity, old(counters), Update(key, increment));
      index := index[key := |counters| - 1];
      Truncate();
    }

    method Insert(key: Key, increment: real)
      requires Valid()
      modifies this
      ensures Valid()
      ensures stream == old(stream) + [Update(key, increment)] && states == old(states) + [counters]
    {
      ghost var u := Update(key, increment);
      RunBounded(capacity, stream, states);
      hide InsertStep, Indexed, IsRun, DistinctKeys;
      if key in index {
        Bump(key, increment);
      } else {
        Push(key, increment);
      }
      RunExtend(capacity, stream, states, u, counters);
      stream := stream + [u];
      states := states + [counters];
    }

    /** The best k keys with their counts. No counter left out is better than a reported one, and the
        tracker is not changed. */
    method TopK(k: nat) returns (result: seq<(Key, real)>)
      requires Valid()
      ensures |result| == if |counters| < k then |counters| else k
      ensures forall i :: 0 <= i < |result| ==>
                result[i].0 in index && result[i].1 == counters[index[result[i].0]].count
      ensures forall i, j :: 0 <= i < j < |result| ==> result[i].0 != result[j].0
      ensures forall i, j :: 0 <= i < j < |result| ==>
                counters[index[result[i].0]].Guaranteed() >= counters[index[result[j].0]].Guaranteed()
      ensures forall c, i ::
                c in counters && 0 <= i < |result| && (forall j :: 0 <= j < |result| ==> result[j].0 != c.key) ==>
                counters[index[result[i].0]].Guaranteed() >= c.Guaranteed()
      ensures |KeysSeen(stream)| <= capacity ==>
                forall i, j :: 0 <= i < j < |result| ==> result[i].1 >= result[j].1
    {
      var size := if |counters| < k then |counters| else k;
      var sorted := PartialSort(counters, size);
      result := [];
      for n := 0 to size
        invariant |result| == n
        invariant forall i :: 0 <= i < n ==> result[i] == (sorted[i].key, sorted[i].count)
      {
        result := result + [(sorted[n].key, sorted[n].count)];
      }
      RunBounded(capacity, stream, states);
      DistinctPermutation(sorted, counters);
      SortedPlaces(index, counters, sorted, size);
      if |KeysSeen(stream)| <= capacity {
        CountsExactWhileRoom(capacity, stream, states);
        DescendWithoutErrors(counters, sorted, size);
      }
    }
  }

  method BuildIndex(c: seq<Counter>) returns (index: map<Key, nat>)
    requires DistinctKeys(c)
    ensures Indexed(index, c)
  {
    index := map[];
    for i := 0 to |c|
      invariant forall j :: 0 <= j < i ==> c[j].key in index && index[c[j].key] == j
      invariant forall k :: k in index ==> index[k] < i && c[index[k]].key == k
    {
      index := index[c[i].key := i];
    }
  }

  /** Through the index every element of a partially sorted copy is found again, and what is not among
      the first `mid` elements is no better than them. */
  lemma SortedPlaces(index: map<Key, nat>, c: seq<Counter>, s: seq<Counter>, mid: nat)
    requires Indexed(index, c) && PartiallySorted(c, s, mid) && mid <= |s|
    ensures forall i :: 0 <= i < |s| ==> s[i].key in index && c[index[s[i].key]] == s[i]
    ensures forall x, i :: x in c && 0 <= i < mid && (forall j :: 0 <= j < mid ==> s[j].key != x.key) ==>
              s[i].Guaranteed() >= x.Guaranteed()
  {
    forall i | 0 <= i < |s|
      ensures s[i].key in index && c[index[s[i].key]] == s[i]
    {
      assert s[i] in multiset(c);
      var j :| 0 <= j < |c| && c[j] == s[i];
    }
    forall x, i | x in c && 0 <= i < mid && (forall j :: 0 <= j < mid ==> s[j].key != x.key)
      ensures s[i].Guaranteed() >= x.Guaranteed()
    {
      assert x in multiset(s);
      var t :| 0 <= t < |s| && s[t] == x;
    }
  }
}
