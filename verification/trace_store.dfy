/** The in-process trace store, a least-recently-used cache (backend/app/observability/in_memory.py). */
module TraceStore {
  import opened Common

  // ---- sequences of distinct keys ----

  /** The keys that belong to a set, in the same order. */
  function Only(s: seq<string>, keys: set<string>): seq<string>
  {
    if s == [] then []
    else
      var front, last := Only(s[..|s| - 1], keys), s[|s| - 1];
      if last in keys then front + [last] else front
  }

  // ---- the store ----

  /** An OrderedDict: its keys, least recently used first, and what each one holds. */
  datatype Cache<T> = Cache(order: seq<string>, traces: map<string, T>)

  predicate Valid<T>(c: Cache<T>)
  {
    Distinct(c.order) && KeysOf(c.order) == c.traces.Keys
  }

  function MoveToEnd(order: seq<string>, key: string): seq<string>
  {
    Only(order, KeysOf(order) - {key}) + [key]
  }

  function Evict<T>(c: Cache<T>, capacity: nat): Cache<T>
    decreases |c.order|
  {
    if |c.order| > capacity then Evict(Cache(c.order[1..], c.traces - {c.order[0]}), capacity) else c
  }

  function Saved<T>(c: Cache<T>, capacity: nat, key: string, trace: T): Cache<T>
  {
    Evict(Cache(MoveToEnd(c.order, key), c.traces[key := trace]), capacity)
  }

  function Got<T>(c: Cache<T>, key: string): (Cache<T>, Option<T>)
  {
    if key in c.traces then (c.(order := MoveToEnd(c.order, key)), Some(c.traces[key])) else (c, None)
  }

  class InMemoryTraceStore<T> {
    const maxTraces: nat
    var order: seq<string>
    var traces: map<string, T>

    ghost function View(): Cache<T>
      reads this
    {
      Cache(order, traces)
    }

    /** The program refuses a capacity below one. */
    constructor (maxTraces: nat)
      requires maxTraces >= 1
      ensures this.maxTraces == maxTraces && View() == Cache([], map[])
    {
      this.maxTraces := maxTraces;
      order, traces := [], map[];
    }

    method Save(key: string, trace: T)
      modifies this
      ensures View() == Saved(old(View()), maxTraces, key, trace)
    {
      traces := traces[key := trace];
      order := MoveToEnd(order, key);
      while |order| > maxTraces
        invariant Evict(View(), maxTraces) == Saved(old(View()), maxTraces, key, trace)
        decreases |order|
      {
        traces := traces - {order[0]};
        order := order[1..];
      }
    }

    method Get(key: string) returns (trace: Option<T>)
      modifies this
      ensures (View(), trace) == Got(old(View()), key)
    {
      if key in traces {
        order := MoveToEnd(order, key);
        return Some(traces[key]);
      }
      return None;
    }
  }

  // ---- whole histories ----

  datatype Op<T> = Save(key: string, trace: T) | Get(key: string)

  function Apply<T>(c: Cache<T>, capacity: nat, op: Op<T>): Cache<T>
  {
    match op case Save(key, trace) => Saved(c, capacity, key, trace) case Get(key) => Got(c, key).0
  }

  function Run<T>(ops: seq<Op<T>>, capacity: nat): Cache<T>
  {
    if ops == [] then Cache([], map[]) else Apply(Run(ops[..|ops| - 1], capacity), capacity, ops[|ops| - 1])
  }

  /** The keys touched: every save, and every get that found something. */
  function Touches<T>(ops: seq<Op<T>>, capacity: nat): seq<string>
  {
    if ops == [] then []
    else
      var n := |ops| - 1;
      var op := ops[n];
      Touches(ops[..n], capacity)
      + if op.Save? || op.key in Run(ops[..n], capacity).traces then [op.key] else []
  }

  /** The other keys touched since a key's own last touch. */
  function OthersSince(touches: seq<string>, key: string): set<string>
  {
    if touches == [] || touches[|touches| - 1] == key then {}
    else OthersSince(touches[..|touches| - 1], key) + {touches[|touches| - 1]}
  }

  function LastSaved<T>(ops: seq<Op<T>>, key: string): Option<T>
  {
    if ops == [] then None
    else if ops[|ops| - 1].Save? && ops[|ops| - 1].key == key then Some(ops[|ops| - 1].trace)
    else LastSaved(ops[..|ops| - 1], key)
  }

  // ---- lemmas on sequences of keys ----

  lemma Single(key: string, keys: set<string>)
    ensures KeysOf([key]) == {key} && Distinct([key])
    ensures Only([key], keys) == if key in keys then [key] else []
  {
    assert [key][0] == key && [key][..0] == [];
  }

  lemma KeysConcat(a: seq<string>, b: seq<string>)
    ensures KeysOf(a + b) == KeysOf(a) + KeysOf(b)
  {
    forall k | k in KeysOf(a) ensures k in KeysOf(a + b) {
      var i :| 0 <= i < |a| && a[i] == k;
      assert (a + b)[i] == k;
    }
    forall k | k in KeysOf(b) ensures k in KeysOf(a + b) {
      var i :| 0 <= i < |b| && b[i] == k;
      assert (a + b)[|a| + i] == k;
    }
  }

  lemma DistinctConcat(a: seq<string>, b: seq<string>)
    ensures Distinct(a + b) <==> Distinct(a) && Distinct(b) && KeysOf(a) !! KeysOf(b)
  {
    var c := a + b;
    if Distinct(c) {
      assert forall i, j :: 0 <= i < j < |a| ==> c[i] == a[i] && c[j] == a[j];
      assert forall i, j :: 0 <= i < j < |b| ==> c[|a| + i] == b[i] && c[|a| + j] == b[j];
      forall i, j | 0 <= i < |a| && 0 <= j < |b| ensures a[i] != b[j] {
        assert c[i] != c[|a| + j];
      }
    }
    if Distinct(a) && Distinct(b) && KeysOf(a) !! KeysOf(b) {
      forall i, j | 0 <= i < j < |c| ensures c[i] != c[j] {
        if i < |a| && j >= |a| {
          assert a[i] in KeysOf(a) && b[j - |a|] in KeysOf(b);
        }
      }
    }
  }

  lemma {:induction false} OnlyConcat(a: seq<string>, b: seq<string>, keys: set<string>)
    ensures Only(a + b, keys) == Only(a, keys) + Only(b, keys)
  {
    if b == [] {
      assert a + b == a;
    } else {
      var n := |b| - 1;
      assert (a + b)[..|a| + n] == a + b[..n];
      OnlyConcat(a, b[..n], keys);
    }
  }

  lemma {:induction false} OnlyMeaning(s: seq<string>, keys: set<string>)
    ensures KeysOf(Only(s, keys)) == KeysOf(s) * keys
    ensures Distinct(s) ==> Distinct(Only(s, keys))
  {
    if s != [] {
      var n := |s| - 1;
      var front := Only(s[..n], keys);
      OnlyMeaning(s[..n], keys);
      assert Only(s, keys) == if s[n] in keys then front + [s[n]] else front;
      hide KeysOf, Distinct, Only;
      assert s == s[..n] + [s[n]];
      Single(s[n], keys);
      KeysConcat(s[..n], [s[n]]);
      DistinctConcat(s[..n], [s[n]]);
      if s[n] in keys {
        KeysConcat(front, [s[n]]);
        DistinctConcat(front, [s[n]]);
      }
    }
  }

  /** Restricting twice is restricting to the common keys; only keys that occur matter. */
  lemma {:induction false} OnlyOnly(s: seq<string>, a: set<string>, b: set<string>)
    ensures Only(Only(s, a), b) == Only(s, a * b)
  {
    if s != [] {
      var n := |s| - 1;
      OnlyOnly(s[..n], a, b);
      if s[n] in a {
        Single(s[n], b);
        OnlyConcat(Only(s[..n], a), [s[n]], b);
      }
    }
  }

  lemma {:induction false} OnlySame(s: seq<string>, a: set<string>, b: set<string>)
    requires KeysOf(s) * a == KeysOf(s) * b
    ensures Only(s, a) == Only(s, b)
  {
    if s != [] {
      var n := |s| - 1;
      assert s == s[..n] + [s[n]];
      KeysConcat(s[..n], [s[n]]);
      Single(s[n], a);
      assert s[n] in KeysOf(s) && KeysOf(s[..n]) <= KeysOf(s);
      assert KeysOf(s[..n]) * a == KeysOf(s[..n]) * (KeysOf(s) * a);
      assert KeysOf(s[..n]) * b == KeysOf(s[..n]) * (KeysOf(s) * b);
      assert s[n] in KeysOf(s) * a <==> s[n] in KeysOf(s) * b;
      OnlySame(s[..n], a, b);
    }
  }

  lemma {:induction false} OnlyAll(s: seq<string>, keys: set<string>)
    requires KeysOf(s) <= keys
    ensures Only(s, keys) == s
  {
    if s != [] {
      var n := |s| - 1;
      assert s == s[..n] + [s[n]];
      KeysConcat(s[..n], [s[n]]);
      OnlyAll(s[..n], keys);
    }
  }

  lemma {:induction false} DistinctCount(s: seq<string>)
    requires Distinct(s)
    ensures |KeysOf(s)| == |s|
  {
    if s != [] {
      var n := |s| - 1;
      assert s == s[..n] + [s[n]];
      DistinctConcat(s[..n], [s[n]]);
      KeysConcat(s[..n], [s[n]]);
      DistinctCount(s[..n]);
      Single(s[n], {});
    }
  }

  /** Moving a key to the end keeps the keys distinct and adds it if it is new. */
  lemma MoveToEndMeaning(s: seq<string>, key: string)
    requires Distinct(s)
    ensures Distinct(MoveToEnd(s, key)) && KeysOf(MoveToEnd(s, key)) == KeysOf(s) + {key}
    ensures |MoveToEnd(s, key)| == |s| + if key in KeysOf(s) then 0 else 1
    ensures key !in KeysOf(s) ==> MoveToEnd(s, key) == s + [key]
  {
    var rest := Only(s, KeysOf(s) - {key});
    OnlyMeaning(s, KeysOf(s) - {key});
    Single(key, {});
    KeysConcat(rest, [key]);
    DistinctConcat(rest, [key]);
    DistinctCount(MoveToEnd(s, key));
    DistinctCount(s);
    if key !in KeysOf(s) {
      OnlyAll(s, KeysOf(s) - {key});
    }
  }

  lemma HeadMeaning(s: seq<string>)
    requires Distinct(s) && s != []
    ensures Distinct(s[1..]) && KeysOf(s[1..]) == KeysOf(s) - {s[0]}
    ensures Only(s, KeysOf(s) - {s[0]}) == s[1..]
  {
    assert s == [s[0]] + s[1..];
    Single(s[0], KeysOf(s) - {s[0]});
    KeysConcat([s[0]], s[1..]);
    DistinctConcat([s[0]], s[1..]);
    OnlyConcat([s[0]], s[1..], KeysOf(s) - {s[0]});
    OnlyAll(s[1..], KeysOf(s) - {s[0]});
  }

  // ---- the store stays well formed and within capacity ----

  /** Eviction removes at most one key after a save, the least recently used one. */
  lemma SavedMeaning<T>(c: Cache<T>, capacity: nat, key: string, trace: T)
    requires Valid(c) && |c.order| <= capacity && capacity >= 1
    ensures Valid(Saved(c, capacity, key, trace)) && |Saved(c, capacity, key, trace).order| <= capacity
    ensures var moved := MoveToEnd(c.order, key);
      Saved(c, capacity, key, trace).order == if |moved| > capacity then moved[1..] else moved
    ensures key in Saved(c, capacity, key, trace).traces
    ensures forall k :: k in Saved(c, capacity, key, trace).traces ==>
      && (k == key || k in c.traces)
      && Saved(c, capacity, key, trace).traces[k] == if k == key then trace else c.traces[k]
  {
    var moved := MoveToEnd(c.order, key);
    MoveToEndMeaning(c.order, key);
    var stored := Cache(moved, c.traces[key := trace]);
    assert Valid(stored);
    if |moved| > capacity {
      assert moved[|moved| - 1] == key != moved[0];
      EvictOne(stored, capacity);
    }
  }

  lemma EvictOne<T>(c: Cache<T>, capacity: nat)
    requires Valid(c) && |c.order| == capacity + 1
    ensures Evict(c, capacity) == Cache(c.order[1..], c.traces - {c.order[0]})
    ensures Valid(Evict(c, capacity))
  {
    HeadMeaning(c.order);
    var evicted := Cache(c.order[1..], c.traces - {c.order[0]});
    assert Evict(evicted, capacity) == evicted;
  }

  lemma {:induction false} RunValid<T>(ops: seq<Op<T>>, capacity: nat)
    requires capacity >= 1
    ensures Valid(Run(ops, capacity)) && |Run(ops, capacity).order| <= capacity
  {
    if ops != [] {
      var n := |ops| - 1;
      RunValid(ops[..n], capacity);
      var before := Run(ops[..n], capacity);
      match ops[n]
      case Save(key, trace) => SavedMeaning(before, capacity, key, trace);
      case Get(key) => MoveToEndMeaning(before.order, key);
    }
  }

  // ---- what is present, said without the store ----

  /** All keys ever touched, the most recently touched last. */
  function Recency(touches: seq<string>): seq<string>
  {
    if touches == [] then [] else MoveToEnd(Recency(touches[..|touches| - 1]), touches[|touches| - 1])
  }

  lemma {:induction false} RecencyMeaning(touches: seq<string>)
    ensures Distinct(Recency(touches)) && KeysOf(Recency(touches)) == KeysOf(touches)
  {
    if touches != [] {
      var n := |touches| - 1;
      RecencyMeaning(touches[..n]);
      MoveToEndMeaning(Recency(touches[..n]), touches[n]);
      assert touches == touches[..n] + [touches[n]];
      KeysConcat(touches[..n], [touches[n]]);
      Single(touches[n], {});
    }
  }

  /** The recency order splits at each key into what was touched before it and the others touched since. */
  lemma {:induction false} SplitAtKey(touches: seq<string>, key: string) returns (before: seq<string>, after: seq<string>)
    requires key in touches
    ensures Recency(touches) == before + [key] + after
    ensures KeysOf(after) == OthersSince(touches, key)
  {
    var n := |touches| - 1;
    var r, last := Recency(touches[..n]), touches[n];
    if last == key {
      before, after := Only(r, KeysOf(r) - {last}), [];
      assert Recency(touches) == before + [key] + after;
    } else {
      assert touches == touches[..n] + [last];
      var before', after' := SplitAtKey(touches[..n], key);
      var rest := KeysOf(r) - {last};
      before, after := Only(before', rest), Only(after', rest) + [last];
      KeysConcat(before' + [key], after');
      KeysConcat(before', [key]);
      Single(key, rest);
      OnlyConcat(before' + [key], after', rest);
      OnlyConcat(before', [key], rest);
      assert Recency(touches) == before + [key] + after;
      OnlyMeaning(after', rest);
      KeysConcat(Only(after', rest), [last]);
      Single(last, {});
    }
  }

  function LastFew(s: seq<string>, n: nat): seq<string>
  {
    if |s| <= n then s else s[|s| - n..]
  }

  /** The store's keys are the last `capacity` keys of the recency order. */
  lemma {:induction false} OrderIsRecent<T>(ops: seq<Op<T>>, capacity: nat)
    requires capacity >= 1
    ensures Run(ops, capacity).order == LastFew(Recency(Touches(ops, capacity)), capacity)
  {
    if ops != [] {
      var n := |ops| - 1;
      var before, touches, op := Run(ops[..n], capacity), Touches(ops[..n], capacity), ops[n];
      OrderIsRecent(ops[..n], capacity);
      RunValid(ops[..n], capacity);
      if op.Save? || op.key in before.traces {
        assert Touches(ops, capacity) == touches + [op.key];
        assert (touches + [op.key])[..|touches|] == touches;
        RecencyMeaning(touches);
        TouchRecent(Recency(touches), op.key, capacity);
        MoveToEndMeaning(before.order, op.key);
        if op.Save? {
          SavedMeaning(before, capacity, op.key, op.trace);
        }
      } else {
        assert Touches(ops, capacity) == touches;
      }
    }
  }

  /** Touching a key commutes with looking at only the last few keys. */
  lemma TouchRecent(r: seq<string>, key: string, capacity: nat)
    requires Distinct(r) && capacity >= 1
    ensures var moved := MoveToEnd(LastFew(r, capacity), key);
      LastFew(MoveToEnd(r, key), capacity) == if |moved| > capacity then moved[1..] else moved
  {
    hide KeysOf, Distinct, Only, MoveToEnd;
    MoveToEndMeaning(r, key);
    if |r| > capacity {
      var front, back := r[..|r| - capacity], r[|r| - capacity..];
      assert r == front + back;
      TouchSplit(front, back, key);
      DistinctConcat(front, back);
      MoveToEndMeaning(back, key);
      KeysConcat(front, back);
      LastFewOfJoin(Only(front, KeysOf(front) - {key}), MoveToEnd(back, key), capacity);
    }
  }

  lemma LastFewOfJoin(front: seq<string>, back: seq<string>, n: nat)
    requires |back| >= n
    ensures LastFew(front + back, n) == back[|back| - n..]
  {
    assert (front + back)[|front| + |back| - n..] == back[|back| - n..];
  }

  lemma TouchSplit(front: seq<string>, back: seq<string>, key: string)
    requires Distinct(front + back)
    ensures MoveToEnd(front + back, key) == Only(front, KeysOf(front) - {key}) + MoveToEnd(back, key)
    ensures |Only(front, KeysOf(front) - {key})| == |front| - if key in KeysOf(front) then 1 else 0
  {
    var keys := KeysOf(front + back) - {key};
    KeysConcat(front, back);
    DistinctConcat(front, back);
    OnlyConcat(front, back, keys);
    assert KeysOf(front) * keys == KeysOf(front) * (KeysOf(front) - {key});
    OnlySame(front, keys, KeysOf(front) - {key});
    assert KeysOf(back) * keys == KeysOf(back) * (KeysOf(back) - {key});
    OnlySame(back, keys, KeysOf(back) - {key});
    MoveToEndMeaning(front, key);
  }

  /**
   A trace is present exactly when it was touched at all and fewer than `capacity` other keys
   were touched since its last touch.
   */
  lemma PresentIff<T>(ops: seq<Op<T>>, capacity: nat, key: string)
    requires capacity >= 1
    ensures key in Run(ops, capacity).traces <==>
      key in Touches(ops, capacity) && |OthersSince(Touches(ops, capacity), key)| < capacity
  {
    var touches := Touches(ops, capacity);
    OrderIsRecent(ops, capacity);
    RunValid(ops, capacity);
    RecencyMeaning(touches);
    if key in touches {
      var before, after := SplitAtKey(touches, key);
      AmongLastFew(before, key, after, capacity);
      DistinctConcat(before + [key], after);
      DistinctCount(after);
    } else {
      var r := Recency(touches);
      var kept := LastFew(r, capacity);
      assert r == r[..|r| - |kept|] + kept;
      KeysConcat(r[..|r| - |kept|], kept);
    }
  }

  lemma AmongLastFew(before: seq<string>, key: string, after: seq<string>, n: nat)
    requires Distinct(before + [key] + after)
    ensures key in KeysOf(LastFew(before + [key] + after, n)) <==> |after| < n
  {
    var r := before + [key] + after;
    var kept := LastFew(r, n);
    assert r[|before|] == key;
    if |after| < n {
      assert kept[|kept| - |after| - 1] == key;
    } else {
      assert forall i :: 0 <= i < |kept| ==> kept[i] == r[|r| - |kept| + i];
    }
  }

  /** A key has been touched exactly when it has been saved, and a trace that is present is the last one saved. */
  lemma {:induction false} HoldsLastSaved<T>(ops: seq<Op<T>>, capacity: nat, key: string)
    requires capacity >= 1
    ensures key in Touches(ops, capacity) <==> LastSaved(ops, key).Some?
    ensures key in Run(ops, capacity).traces ==> LastSaved(ops, key) == Some(Run(ops, capacity).traces[key])
  {
    if ops != [] {
      var n := |ops| - 1;
      HoldsLastSaved(ops[..n], capacity, key);
      RunValid(ops[..n], capacity);
      if ops[n].Save? {
        SavedMeaning(Run(ops[..n], capacity), capacity, ops[n].key, ops[n].trace);
      }
    }
  }

  // ---- a larger store holds whatever a smaller one does ----

  /** How two stores fed the same operations compare: the smaller's order is the larger's, restricted. */
  ghost predicate Included(small: seq<string>, large: seq<string>, m: nat)
  {
    && KeysOf(small) <= KeysOf(large)
    && small == Only(large, KeysOf(small))
    && (|small| < m ==> small == large)
  }

  lemma IncludedTouch(small: seq<string>, large: seq<string>, m: nat, key: string)
    requires Distinct(small) && Distinct(large) && Included(small, large, m)
    ensures key in KeysOf(small) ==> Included(MoveToEnd(small, key), MoveToEnd(large, key), m)
    ensures key !in KeysOf(small) && |small| == m ==> Included(small, MoveToEnd(large, key), m)
  {
    MoveToEndMeaning(small, key);
    MoveToEndMeaning(large, key);
    RestrictMoved(large, KeysOf(small), key);
    if key in KeysOf(small) {
      assert KeysOf(MoveToEnd(small, key)) == KeysOf(small);
      OnlyOnly(large, KeysOf(small), KeysOf(small) - {key});
      assert KeysOf(small) * (KeysOf(small) - {key}) == KeysOf(small) - {key};
    } else {
      assert KeysOf(small) - {key} == KeysOf(small);
    }
  }

  /** What is left of a sequence, after a key moved to its end, when it is restricted. */
  lemma RestrictMoved(s: seq<string>, keys: set<string>, key: string)
    ensures Only(MoveToEnd(s, key), keys) == Only(s, keys - {key}) + if key in keys then [key] else []
  {
    var rest := Only(s, KeysOf(s) - {key});
    OnlyConcat(rest, [key], keys);
    Single(key, keys);
    OnlyOnly(s, KeysOf(s) - {key}, keys);
    OnlySame(s, (KeysOf(s) - {key}) * keys, keys - {key});
  }

  /** A save of a key the smaller store lacks. */
  lemma IncludedInsert(small: seq<string>, large: seq<string>, m: nat, n: nat, key: string)
    requires Distinct(small) && Distinct(large) && Included(small, large, m)
    requires 1 <= m <= n && |small| <= m && |large| <= n && key !in KeysOf(small)
    ensures var small', large' := MoveToEnd(small, key), MoveToEnd(large, key);
      Included(if |small'| > m then small'[1..] else small', if |large'| > n then large'[1..] else large', m)
  {
    var small', large' := MoveToEnd(small, key), MoveToEnd(large, key);
    MoveToEndMeaning(small, key);
    MoveToEndMeaning(large, key);
    RestrictMoved(large, KeysOf(small) + {key}, key);
    assert KeysOf(small) + {key} - {key} == KeysOf(small);
    if |small'| > m {
      IncludedTail(small', large', m);
      if |large'| > n {
        IncludedEvict(small', large', m);
      }
    }
  }

  lemma IncludedTail(small: seq<string>, large: seq<string>, m: nat)
    requires Distinct(small) && small == Only(large, KeysOf(small)) && KeysOf(small) <= KeysOf(large) && |small| == m + 1
    ensures Included(small[1..], large, m)
  {
    HeadMeaning(small);
    OnlyOnly(large, KeysOf(small), KeysOf(small[1..]));
    assert KeysOf(small) * KeysOf(small[1..]) == KeysOf(small[1..]);
  }

  /** The key the larger store evicts is not one the smaller store keeps. */
  lemma IncludedEvict(small: seq<string>, large: seq<string>, m: nat)
    requires Distinct(small) && Distinct(large) && small == Only(large, KeysOf(small)) && |small| == m + 1 && large != []
    requires Included(small[1..], large, m)
    ensures Included(small[1..], large[1..], m)
  {
    HeadMeaning(small);
    HeadMeaning(large);
    HeadNotKept(small, large);
    OnlyOfTail(large, KeysOf(small[1..]));
  }

  lemma HeadNotKept(small: seq<string>, large: seq<string>)
    requires Distinct(small) && small != [] && large != [] && small == Only(large, KeysOf(small))
    ensures large[0] !in KeysOf(small[1..])
  {
    HeadMeaning(small);
    assert large == [large[0]] + large[1..];
    OnlyConcat([large[0]], large[1..], KeysOf(small));
    Single(large[0], KeysOf(small));
  }

  lemma OnlyOfTail(s: seq<string>, keys: set<string>)
    requires s != [] && s[0] !in keys
    ensures Only(s[1..], keys) == Only(s, keys)
  {
    assert s == [s[0]] + s[1..];
    OnlyConcat([s[0]], s[1..], keys);
    Single(s[0], keys);
  }

  /** Fed the same operations, a store of smaller capacity never holds a trace a larger one lacks. */
  lemma {:induction false} SmallerIncluded<T>(ops: seq<Op<T>>, m: nat, n: nat)
    requires 1 <= m <= n
    ensures Included(Run(ops, m).order, Run(ops, n).order, m)
    ensures Run(ops, m).traces.Keys <= Run(ops, n).traces.Keys
  {
    RunValid(ops, m);
    RunValid(ops, n);
    if ops != [] {
      var last := |ops| - 1;
      SmallerIncluded(ops[..last], m, n);
      RunValid(ops[..last], m);
      RunValid(ops[..last], n);
      IncludedStep(Run(ops[..last], m), Run(ops[..last], n), m, n, ops[last]);
    }
  }

  lemma IncludedStep<T>(small: Cache<T>, large: Cache<T>, m: nat, n: nat, op: Op<T>)
    requires 1 <= m <= n && Valid(small) && Valid(large) && |small.order| <= m && |large.order| <= n
    requires Included(small.order, large.order, m)
    ensures Included(Apply(small, m, op).order, Apply(large, n, op).order, m)
  {
    var key := op.key;
    IncludedTouch(small.order, large.order, m, key);
    MoveToEndMeaning(small.order, key);
    MoveToEndMeaning(large.order, key);
    if op.Save? {
      SavedMeaning(small, m, key, op.trace);
      SavedMeaning(large, n, key, op.trace);
      if key !in small.traces {
        IncludedInsert(small.order, large.order, m, n, key);
      }
    }
  }

  /** And what both hold, they hold alike. */
  lemma SmallerAgrees<T>(ops: seq<Op<T>>, m: nat, n: nat, key: string)
    requires 1 <= m <= n && key in Run(ops, m).traces
    ensures key in Run(ops, n).traces && Run(ops, n).traces[key] == Run(ops, m).traces[key]
  {
    SmallerIncluded(ops, m, n);
    HoldsLastSaved(ops, m, key);
    HoldsLastSaved(ops, n, key);
  }
}
