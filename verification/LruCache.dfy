/** The bounded recency cache of `concurrent_lru.cpp`. Every operation holds the mutex, and releasing an
    object is taken to run no Python code, so calls are atomic; `CacheLocks` is about finalisers that do. */
module LruCache {
  import opened Options

  datatype Key = Key(text: string)
  /** The identity of a Python object. */
  type Obj = nat

  // ---------------------------------------------------------------------------
  // Sequences of keys
  // ---------------------------------------------------------------------------

  ghost predicate Distinct(s: seq<Key>) {
    forall i, j :: 0 <= i < j < |s| ==> s[i] != s[j]
  }

  /** The elements of s that lie in `keep`, in order. */
  function Keep(s: seq<Key>, keep: set<Key>): seq<Key> {
    if s == [] then []
    else Keep(s[..|s| - 1], keep) + if s[|s| - 1] in keep then [s[|s| - 1]] else []
  }

  /** The elements of s other than k, in order. */
  function Without(s: seq<Key>, k: Key): seq<Key> {
    if s == [] then []
    else Without(s[..|s| - 1], k) + if s[|s| - 1] != k then [s[|s| - 1]] else []
  }

  lemma {:induction false} WithoutMembers(s: seq<Key>, k: Key)
    ensures forall x :: x in Without(s, k) <==> x in s && x != k
  {
    if s != [] {
      WithoutMembers(s[..|s| - 1], k);
      assert s == s[..|s| - 1] + [s[|s| - 1]];
    }
  }

  lemma {:induction false} KeepMembers(s: seq<Key>, keep: set<Key>)
    ensures forall x :: x in Keep(s, keep) <==> x in s && x in keep
  {
    if s != [] {
      KeepMembers(s[..|s| - 1], keep);
      assert s == s[..|s| - 1] + [s[|s| - 1]];
    }
  }

  lemma {:induction false} KeepAll(s: seq<Key>, keep: set<Key>)
    requires forall k :: k in s ==> k in keep
    ensures Keep(s, keep) == s
  {
    if s != [] { KeepAll(s[..|s| - 1], keep); }
  }

  lemma {:induction false} KeepSame(s: seq<Key>, a: set<Key>, b: set<Key>)
    requires forall k :: k in s ==> (k in a <==> k in b)
    ensures Keep(s, a) == Keep(s, b)
  {
    if s != [] { KeepSame(s[..|s| - 1], a, b); }
  }

  lemma {:induction false} KeepAppend(s: seq<Key>, t: seq<Key>, keep: set<Key>)
    ensures Keep(s + t, keep) == Keep(s, keep) + Keep(t, keep)
  {
    if t == [] {
      assert s + t == s;
    } else {
      assert (s + t)[..|s + t| - 1] == s + t[..|t| - 1];
      KeepAppend(s, t[..|t| - 1], keep);
    }
  }

  lemma {:induction false} KeepWithout(s: seq<Key>, k: Key, keep: set<Key>)
    ensures Keep(Without(s, k), keep) == Without(Keep(s, keep), k)
  {
    if s != [] {
      var init, last := s[..|s| - 1], s[|s| - 1];
      KeepWithout(init, k, keep);
      KeepAppend(Without(init, k), if last != k then [last] else [], keep);
      WithoutAppend(Keep(init, keep), if last in keep then [last] else [], k);
    }
  }

  lemma {:induction false} WithoutAppend(s: seq<Key>, t: seq<Key>, k: Key)
    ensures Without(s + t, k) == Without(s, k) + Without(t, k)
  {
    if t == [] {
      assert s + t == s;
    } else {
      assert (s + t)[..|s + t| - 1] == s + t[..|t| - 1];
      WithoutAppend(s, t[..|t| - 1], k);
    }
  }

  lemma {:induction false} WithoutAbsent(s: seq<Key>, k: Key)
    requires k !in s
    ensures Without(s, k) == s
  {
    if s != [] { WithoutAbsent(s[..|s| - 1], k); }
  }

  lemma {:induction false} KeepKeep(s: seq<Key>, a: set<Key>, b: set<Key>)
    requires b <= a
    ensures Keep(Keep(s, a), b) == Keep(s, b)
  {
    if s != [] {
      KeepKeep(s[..|s| - 1], a, b);
      KeepAppend(Keep(s[..|s| - 1], a), if s[|s| - 1] in a then [s[|s| - 1]] else [], b);
    }
  }

  lemma DistinctAt(s: seq<Key>, i: nat)
    requires Distinct(s) && i < |s|
    ensures s[i] !in s[..i] && s[i] !in s[i + 1..]
  {}

  lemma WithoutOne(k: Key)
    ensures Without([k], k) == []
  {}

  /** In a sequence without repetitions, Without cuts out one position. */
  lemma WithoutAt(s: seq<Key>, i: nat)
    requires Distinct(s) && i < |s|
    ensures Without(s, s[i]) == s[..i] + s[i + 1..]
    ensures |Without(s, s[i])| == |s| - 1
  {
    hide Distinct, Without;
    DistinctAt(s, i);
    WithoutOne(s[i]);
    assert s == s[..i] + [s[i]] + s[i + 1..];
    WithoutAppend(s[..i] + [s[i]], s[i + 1..], s[i]);
    WithoutAppend(s[..i], [s[i]], s[i]);
    WithoutAbsent(s[..i], s[i]);
    WithoutAbsent(s[i + 1..], s[i]);
  }

  lemma {:induction false} DistinctWithout(s: seq<Key>, k: Key)
    requires Distinct(s)
    ensures Distinct(Without(s, k))
    ensures |Without(s, k)| == if k in s then |s| - 1 else |s|
  {
    if s != [] {
      var init, last := s[..|s| - 1], s[|s| - 1];
      DistinctWithout(init, k);
      WithoutMembers(init, k);
      assert last !in init;
      assert s == init + [last];
    }
  }

  lemma DistinctAppend(s: seq<Key>, k: Key)
    requires Distinct(s) && k !in s
    ensures Distinct(s + [k])
  {}

  lemma DistinctTouch(s: seq<Key>, k: Key)
    requires Distinct(s)
    ensures Distinct(Touch(s, k))
    ensures |Touch(s, k)| == if k in s then |s| else |s| + 1
  {
    DistinctWithout(s, k);
    WithoutMembers(s, k);
    DistinctAppend(Without(s, k), k);
  }

  /** Move k to the back, or add it there. */
  function Touch(order: seq<Key>, k: Key): seq<Key> {
    Without(order, k) + [k]
  }

  // ---------------------------------------------------------------------------
  // The cache as a value
  // ---------------------------------------------------------------------------

  /** Keys from least to most recently used, and the stored objects. */
  datatype Cache = Cache(order: seq<Key>, values: map<Key, Obj>)

  datatype Op = Get(key: Key) | Set(key: Key, val: Obj)

  ghost predicate WellFormed(capacity: nat, c: Cache) {
    && Distinct(c.order)
    && (forall k :: k in c.order <==> k in c.values)
    && |c.order| <= capacity
  }

  function Apply(capacity: nat, c: Cache, op: Op): Cache
    requires capacity >= 1 && WellFormed(capacity, c)
  {
    match op
    case Get(k) =>
      if k in c.values then Cache(Touch(c.order, k), c.values) else c
    case Set(k, v) =>
      if k in c.values || |c.order| < capacity then Cache(Touch(c.order, k), c.values[k := v])
      else Cache(c.order[1..] + [k], (c.values - {c.order[0]})[k := v])
  }

  lemma ApplyWellFormed(capacity: nat, c: Cache, op: Op)
    requires capacity >= 1 && WellFormed(capacity, c)
    ensures WellFormed(capacity, Apply(capacity, c, op))
  {
    DistinctTouch(c.order, op.key);
    WithoutMembers(c.order, op.key);
    if op.Set? && op.key !in c.values && |c.order| >= capacity {
      assert forall k :: k in c.order[1..] <==> k in c.order && k != c.order[0];
    }
  }

  /** The cache after a sequence of calls on an empty cache. */
  ghost function Run(capacity: nat, trace: seq<Op>): (c: Cache)
    requires capacity >= 1
    ensures WellFormed(capacity, c)
  {
    if trace == [] then Cache([], map[])
    else
      var before := Run(capacity, trace[..|trace| - 1]);
      ApplyWellFormed(capacity, before, trace[|trace| - 1]);
      Apply(capacity, before, trace[|trace| - 1])
  }

  lemma RunStep(capacity: nat, trace: seq<Op>, op: Op)
    requires capacity >= 1
    ensures Run(capacity, trace + [op]) == Apply(capacity, Run(capacity, trace), op)
  {
    assert (trace + [op])[..|trace|] == trace;
  }

  // ---------------------------------------------------------------------------
  // The queue is the recency order of the effective accesses
  // ---------------------------------------------------------------------------

  /** The keys touched by a run: every set, and every get that hits. */
  ghost function Accesses(capacity: nat, trace: seq<Op>): seq<Key>
    requires capacity >= 1
  {
    if trace == [] then []
    else
      var init, op := trace[..|trace| - 1], trace[|trace| - 1];
      Accesses(capacity, init) +
      if op.Set? || op.key in Run(capacity, init).values then [op.key] else []
  }

  /** The distinct keys of a history, in order of last touch. */
  function Recency(history: seq<Key>): seq<Key> {
    if history == [] then []
    else Touch(Recency(history[..|history| - 1]), history[|history| - 1])
  }

  function LastTouch(history: seq<Key>, k: Key): (i: int)
    ensures -1 <= i < |history|
    ensures i >= 0 <==> k in history
    ensures i >= 0 ==> history[i] == k && k !in history[i + 1..]
  {
    if history == [] then -1
    else if history[|history| - 1] == k then |history| - 1
    else LastTouch(history[..|history| - 1], k)
  }

  /** Recency lists exactly the touched keys, once each, sorted by the position of their last touch. */
  lemma {:induction false} RecencySorted(history: seq<Key>)
    ensures Distinct(Recency(history)) && SortedByTouch(history, Recency(history))
    ensures forall k :: k in Recency(history) <==> k in history
  {
    if history == [] {
      assert Recency(history) == [];
    } else {
      hide Distinct, SortedByTouch, Touch, Recency;
      var init, last := history[..|history| - 1], history[|history| - 1];
      assert history == init + [last];
      RecencyNext(init, last);
      RecencySorted(init);
      DistinctTouch(Recency(init), last);
      TouchSorted(init, Recency(init), last);
      TouchMembers(Recency(init), last);
    }
  }

  lemma RecencyNext(history: seq<Key>, k: Key)
    ensures Recency(history + [k]) == Touch(Recency(history), k)
  {
    assert (history + [k])[..|history|] == history;
  }

  lemma TouchMembers(s: seq<Key>, k: Key)
    ensures forall x :: x in Touch(s, k) <==> x in s || x == k
  {
    WithoutMembers(s, k);
  }

  lemma LastTouchStep(history: seq<Key>, k: Key, x: Key)
    ensures LastTouch(history + [k], x) == if x == k then |history| else LastTouch(history, x)
  {
    assert (history + [k])[..|history|] == history;
  }

  /** Touching a key puts it last and leaves the order of the others. */
  lemma TouchSorted(history: seq<Key>, s: seq<Key>, k: Key)
    requires SortedByTouch(history, s)
    ensures SortedByTouch(history + [k], Touch(s, k))
  {
    WithoutSorted(history, s, k);
    WithoutMembers(s, k);
    var w := Without(s, k);
    hide Without, LastTouch;
    forall i, j | 0 <= i < j < |w + [k]|
      ensures LastTouch(history + [k], (w + [k])[i]) < LastTouch(history + [k], (w + [k])[j])
    {
      assert w[i] in w;
      if j < |w| { assert w[j] in w; }
      LastTouchStep(history, k, (w + [k])[i]);
      LastTouchStep(history, k, (w + [k])[j]);
    }
  }

  /** Listed in order of last touch. */
  ghost predicate SortedByTouch(history: seq<Key>, s: seq<Key>) {
    forall i, j :: 0 <= i < j < |s| ==> LastTouch(history, s[i]) < LastTouch(history, s[j])
  }

  lemma {:induction false} WithoutSorted(history: seq<Key>, s: seq<Key>, k: Key)
    requires SortedByTouch(history, s)
    ensures SortedByTouch(history, Without(s, k))
  {
    if s != [] {
      var init, last := s[..|s| - 1], s[|s| - 1];
      WithoutSorted(history, init, k);
      forall x | x in init
        ensures LastTouch(history, x) < LastTouch(history, last)
      {
        var t :| 0 <= t < |init| && init[t] == x;
        assert s[t] == x;
      }
      var w := Without(init, k);
      WithoutMembers(init, k);
      assert forall i :: 0 <= i < |w| ==> w[i] in w;
    }
  }

  /** The last n elements, or all of them. */
  function Newest(s: seq<Key>, n: nat): seq<Key> {
    if |s| <= n then s else s[|s| - n..]
  }

  /** After any run the queue holds the most recently touched distinct keys, as many as fit. */
  lemma {:induction false} QueueIsRecency(capacity: nat, trace: seq<Op>)
    requires capacity >= 1
    ensures Run(capacity, trace).order == Newest(Recency(Accesses(capacity, trace)), capacity)
  {
    if trace != [] {
      var init, op := trace[..|trace| - 1], trace[|trace| - 1];
      QueueIsRecency(capacity, init);
      var c, history := Run(capacity, init), Accesses(capacity, init);
      if op.Set? || op.key in c.values {
        RecencyNext(history, op.key);
        RecencySorted(history);
        hide Recency, Touch, Distinct, SortedByTouch;
        TouchNewest(Recency(history), capacity, op.key);
      } else {
        assert history + [] == history;
      }
    }
  }

  lemma NewestSuffix(front: seq<Key>, back: seq<Key>, n: nat)
    ensures |back| == n ==> Newest(front + back, n) == back
    ensures |back| == n + 1 ==> Newest(front + back, n) == back[1..]
  {}

  lemma TouchResident(gone: seq<Key>, q: seq<Key>, k: Key)
    requires Distinct(gone + q) && k in q
    ensures Touch(gone + q, k) == gone + Touch(q, k)
    ensures |Touch(q, k)| == |q|
  {
    hide Distinct, Without;
    DistinctParts(gone, q);
    WithoutAppend(gone, q, k);
    WithoutAbsent(gone, k);
    DistinctTouch(q, k);
  }

  lemma DistinctParts(a: seq<Key>, b: seq<Key>)
    requires Distinct(a + b)
    ensures Distinct(b) && forall k :: k in b ==> k !in a
  {
    var s := a + b;
    forall i, j | 0 <= i < |a| && 0 <= j < |b|
      ensures a[i] != b[j]
    {
      assert s[i] != s[|a| + j];
    }
    forall i, j | 0 <= i < j < |b|
      ensures b[i] != b[j]
    {
      assert s[|a| + i] != s[|a| + j];
    }
  }

  lemma TouchForgotten(gone: seq<Key>, q: seq<Key>, k: Key)
    requires k !in q
    ensures Touch(gone + q, k) == Without(gone, k) + (q + [k])
  {
    WithoutAppend(gone, q, k);
    WithoutAbsent(q, k);
  }

  lemma TouchNewest(r: seq<Key>, n: nat, k: Key)
    requires Distinct(r) && n >= 1
    ensures Newest(Touch(r, k), n) ==
            var q := Newest(r, n);
            if k in q || |q| < n then Touch(q, k) else q[1..] + [k]
  {
    hide Touch, Distinct;
    var q := Newest(r, n);
    var gone := r[..|r| - |q|];
    assert r == gone + q;
    if k in q {
      TouchResident(gone, q, k);
      assert |r| <= n ==> gone == [] && gone + Touch(q, k) == Touch(q, k);
      if |r| > n { NewestSuffix(gone, Touch(q, k), n); }
    } else {
      TouchForgotten(gone, q, k);
      TouchForgotten([], q, k);
      assert [] + q == q && Without([], k) + (q + [k]) == q + [k];
      if |q| == n { NewestSuffix(Without(gone, k), q + [k], n); }
    }
  }

  // ---------------------------------------------------------------------------
  // Stored values
  // ---------------------------------------------------------------------------

  /** The object most recently set for a key. */
  ghost function LastSet(trace: seq<Op>, k: Key): Option<Obj> {
    if trace == [] then None
    else if trace[|trace| - 1].Set? && trace[|trace| - 1].key == k then Some(trace[|trace| - 1].val)
    else LastSet(trace[..|trace| - 1], k)
  }

  /** A resident key always carries the object last set for it. */
  lemma {:induction false} ResidentValue(capacity: nat, trace: seq<Op>, k: Key)
    requires capacity >= 1 && k in Run(capacity, trace).values
    ensures LastSet(trace, k) == Some(Run(capacity, trace).values[k])
  {
    var init, op := trace[..|trace| - 1], trace[|trace| - 1];
    if !(op.Set? && op.key == k) {
      ResidentValue(capacity, init, k);
    }
  }

  // ---------------------------------------------------------------------------
  // Inclusion: a larger cache holds everything a smaller one holds
  // ---------------------------------------------------------------------------

  /** The small queue is the large queue with some keys left out, the stored objects agree, and as
      long as the small cache has room the two are equal. */
  ghost predicate Included(small: Cache, large: Cache, m: nat) {
    && small.order == Keep(large.order, small.values.Keys)
    && (forall k :: k in small.values ==> k in large.values && large.values[k] == small.values[k])
    && (|small.order| < m ==> small == large)
  }

  lemma KeepTouch(s: seq<Key>, k: Key, keep: set<Key>)
    ensures Keep(Touch(s, k), keep) == if k in keep then Touch(Keep(s, keep), k) else Keep(s, keep)
  {
    KeepAppend(Without(s, k), [k], keep);
    KeepWithout(s, k, keep);
    KeepMembers(s, keep);
    if k !in keep { WithoutAbsent(Keep(s, keep), k); }
  }

  lemma KeepTail(s: seq<Key>, keep: set<Key>)
    requires Distinct(s) && s != [] && (forall k :: k in s ==> k in keep)
    ensures Keep(s, keep - {s[0]}) == s[1..]
  {
    assert s == [s[0]] + s[1..];
    KeepAppend([s[0]], s[1..], keep - {s[0]});
    KeepAll(s[1..], keep - {s[0]});
  }

  /** The front of the large queue, if the small cache holds it, is also the front of the small queue. */
  lemma FrontKept(s: seq<Key>, keep: set<Key>)
    requires s != [] && s[0] in keep
    ensures Keep(s, keep) != [] && Keep(s, keep)[0] == s[0]
  {
    assert s == [s[0]] + s[1..];
    KeepAppend([s[0]], s[1..], keep);
    KeepAll([s[0]], keep);
  }

  /** Evicting from the small queue: what stays is what the large queue keeps of the remaining keys. */
  lemma KeepAfterTouch(large: seq<Key>, s: seq<Key>, keys: set<Key>, k: Key)
    requires Distinct(s) && s != [] && s == Keep(large, keys) && k !in keys
    ensures Keep(Touch(large, k), keys - {s[0]} + {k}) == s[1..] + [k]
  {
    hide Distinct, Without;
    var rest := keys - {s[0]};
    KeepMembers(large, keys);
    KeepKeep(large, keys, rest);
    KeepTail(s, keys);
    KeepTouch(large, k, rest + {k});
    KeepSplit(large, rest, k);
  }

  lemma {:induction false} KeepSplit(s: seq<Key>, keep: set<Key>, k: Key)
    requires k !in keep
    ensures Without(Keep(s, keep + {k}), k) == Keep(s, keep)
  {
    if s != [] {
      var init, last := s[..|s| - 1], s[|s| - 1];
      KeepSplit(init, keep, k);
      var piece := if last in keep + {k} then [last] else [];
      WithoutAppend(Keep(init, keep + {k}), piece, k);
      assert Without(piece, k) == if last in keep then [last] else [];
    }
  }

  lemma KeepAfterEviction(large: seq<Key>, s: seq<Key>, keys: set<Key>, k: Key)
    requires Distinct(s) && s != [] && s == Keep(large, keys) && k !in keys
    requires large != [] && k !in large
    ensures Keep(large[1..] + [k], keys - {s[0]} + {k}) == s[1..] + [k]
    ensures large[0] in keys ==> large[0] == s[0]
  {
    hide Distinct, Keep;
    var rest := keys - {s[0]};
    KeepMembers(large, keys);
    KeepKeep(large, keys, rest);
    KeepTail(s, keys);
    if large[0] in keys { FrontKept(large, keys); }
    KeepPopped(large, rest);
    KeepPushed(large[1..], rest, k);
  }

  lemma KeepPopped(s: seq<Key>, keep: set<Key>)
    requires s != [] && s[0] !in keep
    ensures Keep(s[1..], keep) == Keep(s, keep)
  {
    assert s == [s[0]] + s[1..];
    KeepAppend([s[0]], s[1..], keep);
    assert Keep([s[0]], keep) == [];
  }

  lemma KeepPushed(s: seq<Key>, keep: set<Key>, k: Key)
    requires k !in s
    ensures Keep(s + [k], keep + {k}) == Keep(s, keep) + [k]
  {
    KeepAppend(s, [k], keep + {k});
    KeepSame(s, keep + {k}, keep);
    KeepAll([k], keep + {k});
  }

  lemma IncludedHit(m: nat, n: nat, small: Cache, large: Cache, op: Op)
    requires 1 <= m <= n && WellFormed(m, small) && WellFormed(n, large) && Included(small, large, m)
    requires op.key in small.values
    ensures Included(Apply(m, small, op), Apply(n, large, op), m)
  {
    hide Keep, Without;
    KeepTouch(large.order, op.key, small.values.Keys);
    DistinctTouch(small.order, op.key);
    hide Touch, Distinct;
    var a, b := Apply(m, small, op), Apply(n, large, op);
    assert a.values.Keys == small.values.Keys;
    assert |a.order| == |small.order|;
  }

  lemma IncludedMiss(m: nat, n: nat, small: Cache, large: Cache, k: Key)
    requires 1 <= m <= n && WellFormed(m, small) && WellFormed(n, large) && Included(small, large, m)
    requires k !in small.values
    ensures Included(Apply(m, small, Get(k)), Apply(n, large, Get(k)), m)
  {
    KeepTouch(large.order, k, small.values.Keys);
  }

  lemma IncludedFill(m: nat, n: nat, c: Cache, k: Key, v: Obj)
    requires 1 <= m <= n && WellFormed(m, c) && |c.order| < m && k !in c.values
    ensures Included(Apply(m, c, Set(k, v)), Apply(n, c, Set(k, v)), m)
  {
    hide Keep, Without, Distinct;
    ApplyWellFormed(m, c, Set(k, v));
    var a := Apply(m, c, Set(k, v));
    KeepAll(a.order, a.values.Keys);
  }

  lemma IncludedEvict(m: nat, n: nat, small: Cache, large: Cache, k: Key, v: Obj)
    requires 1 <= m <= n && WellFormed(m, small) && WellFormed(n, large) && Included(small, large, m)
    requires k !in small.values && |small.order| == m
    ensures Included(Apply(m, small, Set(k, v)), Apply(n, large, Set(k, v)), m)
  {
    hide Keep, Without, Touch, Distinct;
    var a, b := Apply(m, small, Set(k, v)), Apply(n, large, Set(k, v));
    var f := small.order[0];
    assert a == Cache(small.order[1..] + [k], (small.values - {f})[k := v]);
    assert a.values.Keys == small.values.Keys - {f} + {k};
    assert |a.order| == m;
    KeepAfterTouch(large.order, small.order, small.values.Keys, k);
    if k !in large.values && |large.order| >= n {
      KeepAfterEviction(large.order, small.order, small.values.Keys, k);
      var g := large.order[0];
      assert b == Cache(large.order[1..] + [k], (large.values - {g})[k := v]);
      assert g in small.values ==> g == f;
    } else {
      assert b == Cache(Touch(large.order, k), large.values[k := v]);
    }
  }

  /** Inclusion: on any sequence of calls, the smaller cache stays included in the larger one. */
  lemma {:induction false} Inclusion(m: nat, n: nat, trace: seq<Op>)
    requires 1 <= m <= n
    ensures Included(Run(m, trace), Run(n, trace), m)
  {
    if trace != [] {
      var init, op := trace[..|trace| - 1], trace[|trace| - 1];
      Inclusion(m, n, init);
      var small, large := Run(m, init), Run(n, init);
      if op.key in small.values {
        IncludedHit(m, n, small, large, op);
      } else if op.Get? {
        IncludedMiss(m, n, small, large, op.key);
      } else {
        if |small.order| < m { IncludedFill(m, n, small, op.key, op.val); }
        else { IncludedEvict(m, n, small, large, op.key, op.val); }
      }
    }
  }

  /** What a get returns after a run. */
  ghost function Lookup(capacity: nat, trace: seq<Op>, k: Key): Option<Obj>
    requires capacity >= 1
  {
    var c := Run(capacity, trace);
    if k in c.values then Some(c.values[k]) else None
  }

  /** A get hits exactly the keys among the `capacity` most recently touched ones, and returns the object
      last set. */
  lemma HitIffRecent(capacity: nat, trace: seq<Op>, k: Key)
    requires capacity >= 1
    ensures Lookup(capacity, trace, k) ==
            if k in Newest(Recency(Accesses(capacity, trace)), capacity) then LastSet(trace, k) else None
  {
    QueueIsRecency(capacity, trace);
    if k in Run(capacity, trace).values { ResidentValue(capacity, trace, k); }
    hide Recency, Newest, Accesses, LastSet;
  }

  /** Every hit in a smaller cache is a hit with the same object in a larger one, and every hit returns
      the object last set. */
  lemma HitsGrowWithCapacity(m: nat, n: nat, trace: seq<Op>, k: Key)
    requires 1 <= m <= n
    ensures Lookup(m, trace, k).Some? ==> Lookup(n, trace, k) == Lookup(m, trace, k) == LastSet(trace, k)
  {
    Inclusion(m, n, trace);
    if Lookup(m, trace, k).Some? { ResidentValue(m, trace, k); }
  }

  // ---------------------------------------------------------------------------
  // The cache in place
  // ---------------------------------------------------------------------------

  /** A node of the queue; its id plays the part of the list iterator. */
  datatype ListNode = ListNode(id: nat, key: Key)

  datatype Cell = Cell(value: Obj, node: nat)

  function KeysOf(queue: seq<ListNode>): (s: seq<Key>)
    ensures |s| == |queue|
    ensures forall i :: 0 <= i < |s| ==> s[i] == queue[i].key
  {
    seq(|queue|, i requires 0 <= i < |queue| => queue[i].key)
  }

  function ValuesOf(cells: map<Key, Cell>): map<Key, Obj> {
    map k | k in cells :: cells[k].value
  }

  /** Map and list describe the same keys, one node per cell and one cell per node. */
  ghost predicate Linked(cells: map<Key, Cell>, queue: seq<ListNode>) {
    && Distinct(KeysOf(queue))
    && (forall k :: k in KeysOf(queue) <==> k in cells)
    && |cells| == |queue|
    && Iterators(cells, queue)
  }

  /** Every cell's iterator refers to the node with the cell's key, and no two cells share a node. */
  ghost predicate Iterators(cells: map<Key, Cell>, queue: seq<ListNode>) {
    && (forall i :: 0 <= i < |queue| ==> queue[i].key in cells && cells[queue[i].key].node == queue[i].id)
    && (forall k, l :: k in cells && l in cells && k != l ==> cells[k].node != cells[l].node)
  }

  /** The position a list iterator refers to. */
  function NodeIndex(queue: seq<ListNode>, id: nat): (i: nat)
    requires exists i :: 0 <= i < |queue| && queue[i].id == id
    ensures i < |queue| && queue[i].id == id
  {
    if queue[0].id == id then 0 else
      assert exists i :: 0 <= i < |queue[1..]| && queue[1..][i].id == id by {
        var i :| 0 <= i < |queue| && queue[i].id == id;
        assert queue[1..][i - 1].id == id;
      }
      1 + NodeIndex(queue[1..], id)
  }

  /** `queue.splice(queue.end(), queue, iterator)`. */
  function Splice(queue: seq<ListNode>, i: nat): seq<ListNode>
    requires i < |queue|
  {
    queue[..i] + queue[i + 1..] + [queue[i]]
  }

  /** The keys whose cell holds object o; each of them accounts for one reference. */
  function Holders(cells: map<Key, Cell>, o: Obj): set<Key> {
    set k | k in cells && cells[k].value == o
  }

  lemma LinkedSize(cells: map<Key, Cell>, queue: seq<ListNode>)
    requires Linked(cells, queue)
    ensures |cells| == |queue| && forall k :: k in KeysOf(queue) <==> k in cells
  {}

  /** The iterator of a resident cell leads to the node that carries its key. */
  lemma FindNode(cells: map<Key, Cell>, queue: seq<ListNode>, k: Key)
    requires Linked(cells, queue) && k in cells
    ensures exists i :: 0 <= i < |queue| && queue[i].id == cells[k].node
    ensures forall i :: 0 <= i < |queue| && queue[i].id == cells[k].node ==> queue[i].key == k
  {
    assert k in KeysOf(queue);
    var i :| 0 <= i < |queue| && KeysOf(queue)[i] == k;
    assert queue[i].id == cells[k].node;
  }

  lemma SpliceLinked(cells: map<Key, Cell>, queue: seq<ListNode>, i: nat)
    requires Linked(cells, queue) && i < |queue|
    ensures Linked(cells, Splice(queue, i))
    ensures KeysOf(Splice(queue, i)) == Touch(KeysOf(queue), queue[i].key)
  {
    hide Iterators, Distinct, Without;
    var s, k := KeysOf(queue), queue[i].key;
    WithoutAt(s, i);
    SpliceKeys(queue, i);
    DistinctTouch(s, k);
    hide Touch;
    TouchMembers(s, k);
    assert s[i] in s;
    SpliceIterators(cells, queue, i);
  }

  lemma SpliceKeys(queue: seq<ListNode>, i: nat)
    requires i < |queue|
    ensures KeysOf(Splice(queue, i)) == KeysOf(queue)[..i] + KeysOf(queue)[i + 1..] + [queue[i].key]
  {}

  lemma SpliceIterators(cells: map<Key, Cell>, queue: seq<ListNode>, i: nat)
    requires Iterators(cells, queue) && i < |queue|
    ensures Iterators(cells, Splice(queue, i))
  {}

  lemma OverwriteLinked(cells: map<Key, Cell>, queue: seq<ListNode>, k: Key, v: Obj)
    requires Linked(cells, queue) && k in cells
    ensures Linked(cells[k := Cell(v, cells[k].node)], queue)
  {
    hide Distinct;
    SizeSet(cells, k, Cell(v, cells[k].node));
  }

  lemma ValuesKeys(cells: map<Key, Cell>)
    ensures ValuesOf(cells).Keys == cells.Keys
    ensures forall k :: k in cells ==> ValuesOf(cells)[k] == cells[k].value
  {}

  lemma ValuesRemove(cells: map<Key, Cell>, k: Key)
    ensures ValuesOf(cells - {k}) == ValuesOf(cells) - {k}
  {}

  lemma ValuesSet(cells: map<Key, Cell>, k: Key, c: Cell)
    ensures ValuesOf(cells[k := c]) == ValuesOf(cells)[k := c.value]
  {}

  lemma SizeRemove<K, V>(m: map<K, V>, k: K)
    requires k in m
    ensures |m - {k}| == |m| - 1
  {
    assert (m - {k}).Keys == m.Keys - {k};
    assert |m - {k}| == |(m - {k}).Keys| && |m| == |m.Keys|;
  }

  lemma SizeSet<K, V>(m: map<K, V>, k: K, v: V)
    ensures |m[k := v]| == |m| + if k in m then 0 else 1
  {
    assert m[k := v].Keys == m.Keys + {k};
    assert |m[k := v]| == |m[k := v].Keys| && |m| == |m.Keys|;
  }

  lemma PopLinked(cells: map<Key, Cell>, queue: seq<ListNode>)
    requires Linked(cells, queue) && queue != []
    ensures queue[0].key in cells
    ensures Linked(cells - {queue[0].key}, queue[1..])
    ensures KeysOf(queue[1..]) == KeysOf(queue)[1..]
  {
    var f, s := queue[0].key, KeysOf(queue);
    PopIterators(cells, queue);
    hide Iterators, Distinct;
    SizeRemove(cells, f);
    assert KeysOf(queue[1..]) == s[1..];
    TailMembers(s);
    assert s[0] in s;
  }

  lemma TailMembers(s: seq<Key>)
    requires Distinct(s) && s != []
    ensures Distinct(s[1..])
    ensures forall k :: k in s[1..] <==> k in s && k != s[0]
  {
    assert s == [s[0]] + s[1..];
    assert forall i :: 0 <= i < |s[1..]| ==> s[1..][i] == s[i + 1];
  }

  lemma PopIterators(cells: map<Key, Cell>, queue: seq<ListNode>)
    requires Iterators(cells, queue) && queue != [] && Distinct(KeysOf(queue))
    ensures Iterators(cells - {queue[0].key}, queue[1..])
  {
    forall i | 0 <= i < |queue[1..]|
      ensures queue[1..][i].key != queue[0].key && queue[1..][i].key in cells
    {
      assert KeysOf(queue)[0] != KeysOf(queue)[i + 1];
    }
  }

  lemma PushLinked(cells: map<Key, Cell>, queue: seq<ListNode>, id: nat, k: Key, v: Obj)
    requires Linked(cells, queue) && k !in cells
    requires forall x :: x in cells ==> cells[x].node != id
    ensures Linked(cells[k := Cell(v, id)], queue + [ListNode(id, k)])
    ensures KeysOf(queue + [ListNode(id, k)]) == Touch(KeysOf(queue), k)
  {
    var s := KeysOf(queue);
    PushIterators(cells, queue, id, k, v);
    hide Iterators;
    SizeSet(cells, k, Cell(v, id));
    WithoutAbsent(s, k);
    assert KeysOf(queue + [ListNode(id, k)]) == s + [k];
    DistinctAppend(s, k);
  }

  lemma PushIterators(cells: map<Key, Cell>, queue: seq<ListNode>, id: nat, k: Key, v: Obj)
    requires Iterators(cells, queue) && k !in cells
    requires forall x :: x in cells ==> cells[x].node != id
    ensures Iterators(cells[k := Cell(v, id)], queue + [ListNode(id, k)])
  {}

  /** References added by the cache are released, held by a cell, or handed out by a hit. */
  ghost predicate Conserved(added: multiset<Obj>, released: multiset<Obj>, handed: multiset<Obj>,
                            cells: map<Key, Cell>) {
    forall o :: added[o] == released[o] + |Holders(cells, o)| + handed[o]
  }

  lemma ConservedRemove(added: multiset<Obj>, released: multiset<Obj>, handed: multiset<Obj>,
                        cells: map<Key, Cell>, k: Key)
    requires Conserved(added, released, handed, cells) && k in cells
    ensures Conserved(added, released + multiset{cells[k].value}, handed, cells - {k})
    ensures released[cells[k].value] + handed[cells[k].value] < added[cells[k].value]
  {
    hide Holders;
    forall o
      ensures |Holders(cells, o)| == |Holders(cells - {k}, o)| + if o == cells[k].value then 1 else 0
    {
      HoldersRemove(cells, k, o);
    }
  }

  lemma HoldersRemove(cells: map<Key, Cell>, k: Key, o: Obj)
    requires k in cells
    ensures |Holders(cells, o)| == |Holders(cells - {k}, o)| + if o == cells[k].value then 1 else 0
  {
    assert Holders(cells, o) == Holders(cells - {k}, o) + if o == cells[k].value then {k} else {};
  }

  lemma HoldersAdd(cells: map<Key, Cell>, k: Key, c: Cell, o: Obj)
    requires k !in cells
    ensures |Holders(cells[k := c], o)| == |Holders(cells, o)| + if o == c.value then 1 else 0
  {
    assert Holders(cells[k := c], o) == Holders(cells, o) + if o == c.value then {k} else {};
  }

  lemma ConservedAdd(added: multiset<Obj>, released: multiset<Obj>, handed: multiset<Obj>,
                     cells: map<Key, Cell>, k: Key, c: Cell)
    requires Conserved(added, released, handed, cells) && k !in cells
    ensures Conserved(added + multiset{c.value}, released, handed, cells[k := c])
  {
    hide Holders;
    forall o
      ensures |Holders(cells[k := c], o)| == |Holders(cells, o)| + if o == c.value then 1 else 0
    {
      HoldersAdd(cells, k, c, o);
    }
  }

  /** What has been released once no cell is left. */
  lemma ReleasedAll(added: multiset<Obj>, before: multiset<Obj>, after: multiset<Obj>, handed: multiset<Obj>,
                    cells: map<Key, Cell>)
    requires Conserved(added, before, handed, cells) && Conserved(added, after, handed, map[])
    ensures forall o :: after[o] == before[o] + |Holders(cells, o)| && added[o] == after[o] + handed[o]
  {
    assert forall o :: Holders(map[], o) == {};
  }

  lemma ConservedHit(added: multiset<Obj>, released: multiset<Obj>, handed: multiset<Obj>,
                     cells: map<Key, Cell>, o: Obj)
    requires Conserved(added, released, handed, cells)
    ensures Conserved(added + multiset{o}, released, handed + multiset{o}, cells)
  {}

  lemma ConservedSwap(added: multiset<Obj>, released: multiset<Obj>, handed: multiset<Obj>,
                      cells: map<Key, Cell>, k: Key, c: Cell)
    requires Conserved(added, released, handed, cells) && k in cells
    ensures Conserved(added + multiset{c.value}, released + multiset{cells[k].value}, handed, cells[k := c])
  {
    hide Conserved;
    ConservedRemove(added, released, handed, cells, k);
    ConservedAdd(added, released + multiset{cells[k].value}, handed, cells - {k}, k, c);
    assert (cells - {k})[k := c] == cells[k := c];
  }

  /** What a hit must leave behind. */
  lemma HitRun(capacity: nat, trace: seq<Op>, cells: map<Key, Cell>, queue: seq<ListNode>, key: Key, i: nat)
    requires capacity >= 1 && Linked(cells, queue) && key in cells && i < |queue| && queue[i].key == key
    requires Cache(KeysOf(queue), ValuesOf(cells)) == Run(capacity, trace)
    ensures Linked(cells, Splice(queue, i))
    ensures Run(capacity, trace + [Get(key)]) == Cache(KeysOf(Splice(queue, i)), ValuesOf(cells))
    ensures Lookup(capacity, trace, key) == Some(cells[key].value)
  {
    hide Touch, Distinct, Linked, Run, Splice, ValuesOf, KeysOf, WellFormed;
    RunStep(capacity, trace, Get(key));
    ValuesKeys(cells);
    SpliceLinked(cells, queue, i);
  }

  lemma MissRun(capacity: nat, trace: seq<Op>, cells: map<Key, Cell>, queue: seq<ListNode>, key: Key)
    requires capacity >= 1 && key !in cells
    requires Cache(KeysOf(queue), ValuesOf(cells)) == Run(capacity, trace)
    ensures Run(capacity, trace + [Get(key)]) == Cache(KeysOf(queue), ValuesOf(cells))
    ensures Lookup(capacity, trace, key) == None
  {
    hide Run, ValuesOf, KeysOf, WellFormed;
    RunStep(capacity, trace, Get(key));
    ValuesKeys(cells);
  }

  /** What `set` of a resident key must leave behind. */
  lemma OverwriteRun(capacity: nat, trace: seq<Op>, cells: map<Key, Cell>, queue: seq<ListNode>,
                     key: Key, val: Obj, i: nat)
    requires capacity >= 1 && Linked(cells, queue) && key in cells && i < |queue| && queue[i].key == key
    requires Cache(KeysOf(queue), ValuesOf(cells)) == Run(capacity, trace)
    ensures Linked(cells[key := Cell(val, cells[key].node)], Splice(queue, i))
    ensures Run(capacity, trace + [Set(key, val)]) ==
            Cache(KeysOf(Splice(queue, i)), ValuesOf(cells[key := Cell(val, cells[key].node)]))
  {
    hide Touch, Distinct, Linked, Run, Splice, ValuesOf, KeysOf, WellFormed;
    RunStep(capacity, trace, Set(key, val));
    ValuesKeys(cells);
    ValuesSet(cells, key, Cell(val, cells[key].node));
    SpliceLinked(cells, queue, i);
    OverwriteLinked(cells, queue, key, val);
    SpliceLinked(cells[key := Cell(val, cells[key].node)], queue, i);
  }

  /** What `set` of an absent key must leave behind, in a full cache and in one with room. */
  lemma InsertFull(capacity: nat, trace: seq<Op>, cells: map<Key, Cell>, queue: seq<ListNode>,
                   key: Key, val: Obj, id: nat)
    requires capacity >= 1 && Linked(cells, queue) && key !in cells && |cells| >= capacity
    requires Cache(KeysOf(queue), ValuesOf(cells)) == Run(capacity, trace)
    ensures queue != []
    ensures Run(capacity, trace + [Set(key, val)]) ==
            Cache(KeysOf(queue[1..] + [ListNode(id, key)]), ValuesOf((cells - {queue[0].key})[key := Cell(val, id)]))
  {
    hide Touch, Distinct, Run, ValuesOf, WellFormed, Linked;
    LinkedSize(cells, queue);
    ValuesKeys(cells);
    RunStep(capacity, trace, Set(key, val));
    ValuesRemove(cells, queue[0].key);
    ValuesSet(cells - {queue[0].key}, key, Cell(val, id));
    assert KeysOf(queue[1..] + [ListNode(id, key)]) == KeysOf(queue)[1..] + [key];
  }

  lemma InsertRoom(capacity: nat, trace: seq<Op>, cells: map<Key, Cell>, queue: seq<ListNode>,
                   key: Key, val: Obj, id: nat)
    requires capacity >= 1 && Linked(cells, queue) && key !in cells && |cells| < capacity
    requires forall k :: k in cells ==> cells[k].node < id
    requires Cache(KeysOf(queue), ValuesOf(cells)) == Run(capacity, trace)
    ensures Run(capacity, trace + [Set(key, val)]) ==
            Cache(KeysOf(queue + [ListNode(id, key)]), ValuesOf(cells[key := Cell(val, id)]))
  {
    hide Touch, Distinct, Run, ValuesOf, WellFormed, Linked, KeysOf;
    LinkedSize(cells, queue);
    ValuesKeys(cells);
    RunStep(capacity, trace, Set(key, val));
    PushLinked(cells, queue, id, key, val);
    ValuesSet(cells, key, Cell(val, id));
  }

  class ConcurrentLRUCache {
    var cells: map<Key, Cell>
    var queue: seq<ListNode>
    const maxElementSize: nat
    /** The next list node to be allocated. */
    var nextNode: nat

    /** The calls made so far. */
    ghost var trace: seq<Op>
    /** Py_INCREFs and Py_DECREFs made by the cache, and the references its hits gave away. */
    ghost var added: multiset<Obj>
    ghost var released: multiset<Obj>
    ghost var handed: multiset<Obj>

    ghost function Contents(): Cache
      reads this
    {
      Cache(KeysOf(queue), ValuesOf(cells))
    }

    ghost predicate Valid()
      reads this
    {
      && Linked(cells, queue)
      && (forall k :: k in cells ==> cells[k].node < nextNode)
      && (if maxElementSize >= 1 then Contents() == Run(maxElementSize, trace) else cells == map[])
      && Conserved(added, released, handed, cells)
    }

    constructor (maxSize: nat)
      ensures Valid() && maxElementSize == maxSize && trace == []
      ensures added == released == handed == multiset{}
    {
      maxElementSize := maxSize;
      cells, queue, nextNode := map[], [], 0;
      trace, added, released, handed := [], multiset{}, multiset{}, multiset{};
    }

    method GetValue(key: Key) returns (r: Option<Obj>)
      requires Valid()
      modifies this
      ensures Valid() && trace == old(trace) + [Get(key)]
      ensures r == if maxElementSize >= 1 then Lookup(maxElementSize, old(trace), key) else None
      ensures handed == old(handed) + if r.Some? then multiset{r.value} else multiset{}
      ensures added == old(added) + (if r.Some? then multiset{r.value} else multiset{}) && released == old(released)
    {
      hide NodeIndex, Linked, Run, Lookup, Conserved, Splice, ValuesOf, KeysOf;
      if key !in cells {
        if maxElementSize >= 1 { MissRun(maxElementSize, trace, cells, queue, key); }
        trace := trace + [Get(key)];
        return None;
      }
      var c := cells[key];
      FindNode(cells, queue, key);
      var i := NodeIndex(queue, c.node);
      HitRun(maxElementSize, trace, cells, queue, key, i);
      trace := trace + [Get(key)];
      queue := Splice(queue, i);
      ConservedHit(added, released, handed, cells, c.value);
      added := added + multiset{c.value};
      handed := handed + multiset{c.value};
      r := Some(c.value);
    }

    /** The branch of `set` for a resident key: swap the object, then move the key to the back. */
    method Overwrite(key: Key, val: Obj)
      requires Valid() && maxElementSize >= 1 && key in cells
      modifies this
      ensures Valid() && trace == old(trace) + [Set(key, val)]
      ensures added == old(added) + multiset{val} && handed == old(handed)
    {
      hide Distinct, NodeIndex, Linked, Run, Conserved, Splice, ValuesOf, KeysOf;
      FindNode(cells, queue, key);
      var c, i := cells[key], NodeIndex(queue, cells[key].node);
      ConservedSwap(added, released, handed, cells, key, Cell(val, c.node));
      OverwriteRun(maxElementSize, trace, cells, queue, key, val, i);
      trace := trace + [Set(key, val)];
      released := released + multiset{c.value};
      cells := cells[key := Cell(val, c.node)];
      added := added + multiset{val};
      queue := Splice(queue, i);
    }

    /** Evict the front of the queue and release its object. */
    method Evict()
      requires Linked(cells, queue) && queue != []
      requires forall k :: k in cells ==> cells[k].node < nextNode
      requires Conserved(added, released, handed, cells)
      modifies this`cells, this`queue, this`released
      ensures Linked(cells, queue) && Conserved(added, released, handed, cells)
      ensures forall k :: k in cells ==> cells[k].node < nextNode
      ensures cells == old(cells) - {old(queue)[0].key} && queue == old(queue)[1..]
    {
      hide Distinct, Linked, Conserved;
      var oldest := queue[0].key;
      PopLinked(cells, queue);
      queue := queue[1..];
      if oldest in cells {
        ConservedRemove(added, released, handed, cells, oldest);
        released := released + multiset{cells[oldest].value};
        cells := cells - {oldest};
      }
    }

    /** Add a node and a cell for a key that is not resident. */
    method Insert(key: Key, val: Obj)
      requires Linked(cells, queue) && key !in cells
      requires forall k :: k in cells ==> cells[k].node < nextNode
      requires Conserved(added, released, handed, cells)
      modifies this`cells, this`queue, this`added, this`nextNode
      ensures Linked(cells, queue) && Conserved(added, released, handed, cells)
      ensures forall k :: k in cells ==> cells[k].node < nextNode
      ensures cells == old(cells)[key := Cell(val, old(nextNode))]
      ensures queue == old(queue) + [ListNode(old(nextNode), key)]
      ensures added == old(added) + multiset{val}
    {
      hide Linked, Conserved;
      ConservedAdd(added, released, handed, cells, key, Cell(val, nextNode));
      added := added + multiset{val};
      PushLinked(cells, queue, nextNode, key, val);
      queue := queue + [ListNode(nextNode, key)];
      cells := cells[key := Cell(val, nextNode)];
      nextNode := nextNode + 1;
    }

    /** A cache of size zero would have to evict from an empty queue. */
    method SetValue(key: Key, val: Obj)
      requires Valid() && maxElementSize >= 1
      modifies this
      ensures Valid() && trace == old(trace) + [Set(key, val)]
      ensures added == old(added) + multiset{val} && handed == old(handed)
    {
      hide Touch, Distinct, Linked, Run, Conserved, ValuesOf, KeysOf, WellFormed;
      if key in cells {
        Overwrite(key, val);
        return;
      }
      if |cells| >= maxElementSize {
        InsertFull(maxElementSize, trace, cells, queue, key, val, nextNode);
        Evict();
      } else {
        InsertRoom(maxElementSize, trace, cells, queue, key, val, nextNode);
      }
      Insert(key, val);
      trace := trace + [Set(key, val)];
    }

    /** The destructor releases exactly the references the cells hold. */
    method Destroy()
      requires Valid()
      modifies this`released
      ensures forall o :: released[o] == old(released)[o] + |Holders(cells, o)|
      ensures forall o :: added[o] == released[o] + handed[o]
    {
      hide Conserved;
      var rest := cells;
      while rest != map[]
        invariant Conserved(added, released, handed, rest)
        decreases |rest|
      {
        var k :| k in rest;
        ConservedRemove(added, released, handed, rest, k);
        SizeRemove(rest, k);
        released := released + multiset{rest[k].value};
        rest := rest - {k};
      }
      ReleasedAll(added, old(released), released, handed, cells);
    }
  }
}
