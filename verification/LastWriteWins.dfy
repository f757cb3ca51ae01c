/** A `Map` filled in a loop: the last value of each key, in the order the keys first occurred. */
module LastWriteWins {
  import opened Base

  predicate Has<T>(ds: seq<T>, key: T -> string, k: string) {
    exists i :: 0 <= i < |ds| && key(ds[i]) == k
  }

  /** One more value: its key is there, and no other key comes or goes. */
  lemma HasStep<T>(ds: seq<T>, key: T -> string, k: string)
    requires ds != []
    ensures Has(ds, key, k) <==> Has(ds[..|ds| - 1], key, k) || key(ds[|ds| - 1]) == k
  {
    var n := |ds| - 1;
    if Has(ds, key, k) && key(ds[n]) != k {
      var i :| 0 <= i < |ds| && key(ds[i]) == k;
      assert ds[..n][i] == ds[i];
    }
    if Has(ds[..n], key, k) {
      var i :| 0 <= i < n && key(ds[..n][i]) == k;
      assert ds[i] == ds[..n][i];
    }
  }

  /** The keys in the order they were first written, as a `Map` iterates. */
  function KeyOrder<T>(ds: seq<T>, key: T -> string): (order: seq<string>)
    ensures forall k :: k in order <==> Has(ds, key, k)
    ensures Distinct(order)
  {
    if ds == [] then []
    else
      var front := KeyOrder(ds[..|ds| - 1], key);
      var k := key(ds[|ds| - 1]);
      assert forall x :: Has(ds, key, x) <==> Has(ds[..|ds| - 1], key, x) || k == x by {
        forall x ensures Has(ds, key, x) <==> Has(ds[..|ds| - 1], key, x) || k == x { HasStep(ds, key, x); }
      }
      if k in front then front else front + [k]
  }

  function LastWith<T>(ds: seq<T>, key: T -> string, k: string): (d: T)
    requires Has(ds, key, k)
    ensures d in ds && key(d) == k
  {
    HasStep(ds, key, k);
    if key(ds[|ds| - 1]) == k then ds[|ds| - 1] else LastWith(ds[..|ds| - 1], key, k)
  }

  function LastPerKey<T>(ds: seq<T>, key: T -> string, order: seq<string>): (r: seq<T>)
    requires forall k :: k in order ==> Has(ds, key, k)
    ensures |r| == |order|
    ensures forall i :: 0 <= i < |r| ==> Has(ds, key, order[i]) && r[i] == LastWith(ds, key, order[i])
  {
    if order == [] then []
    else LastPerKey(ds, key, order[..|order| - 1]) + [LastWith(ds, key, order[|order| - 1])]
  }

  function Deduped<T>(ds: seq<T>, key: T -> string): seq<T> {
    LastPerKey(ds, key, KeyOrder(ds, key))
  }

  // ---- What that means ----

  predicate IsLast<T>(ds: seq<T>, key: T -> string, p: int) {
    0 <= p < |ds| && forall q :: p < q < |ds| ==> key(ds[q]) != key(ds[p])
  }

  predicate IsFirst<T>(ds: seq<T>, key: T -> string, p: int) {
    0 <= p < |ds| && forall q :: 0 <= q < p ==> key(ds[q]) != key(ds[p])
  }

  lemma {:induction false} LastWithIsLast<T>(ds: seq<T>, key: T -> string, k: string) returns (p: nat)
    requires Has(ds, key, k)
    ensures IsLast(ds, key, p) && ds[p] == LastWith(ds, key, k)
  {
    p := |ds| - 1;
    if key(ds[p]) != k {
      HasStep(ds, key, k);
      p := LastWithIsLast(ds[..p], key, k);
    }
  }

  /** Every kept value is the last one written under its key. */
  lemma KeptIsLast<T>(ds: seq<T>, key: T -> string, i: nat) returns (p: nat)
    requires i < |Deduped(ds, key)|
    ensures IsLast(ds, key, p) && ds[p] == Deduped(ds, key)[i]
  {
    p := LastWithIsLast(ds, key, KeyOrder(ds, key)[i]);
  }

  /** Every key that was written is kept exactly once. */
  lemma KeptOnce<T>(ds: seq<T>, key: T -> string, p: nat) returns (i: nat)
    requires p < |ds|
    ensures i < |Deduped(ds, key)| && key(Deduped(ds, key)[i]) == key(ds[p])
    ensures forall j :: 0 <= j < |Deduped(ds, key)| && key(Deduped(ds, key)[j]) == key(ds[p]) ==> j == i
  {
    var order := KeyOrder(ds, key);
    assert Has(ds, key, key(ds[p])) && key(ds[p]) in order;
    i :| 0 <= i < |order| && order[i] == key(ds[p]);
    assert forall j :: 0 <= j < |order| ==> key(Deduped(ds, key)[j]) == order[j];
  }

  lemma {:induction false} FirstWith<T>(ds: seq<T>, key: T -> string, i: nat) returns (p: nat)
    requires i < |KeyOrder(ds, key)|
    ensures IsFirst(ds, key, p) && key(ds[p]) == KeyOrder(ds, key)[i]
    ensures forall j :: 0 <= j < i ==> Has(ds[..p], key, KeyOrder(ds, key)[j])
  {
    var n := |ds| - 1;
    var front := ds[..n];
    if i < |KeyOrder(front, key)| {
      p := FirstWith(front, key, i);
      assert front[..p] == ds[..p];
    } else {
      p := n;
      forall q | 0 <= q < n ensures key(ds[q]) != key(ds[n]) {
        assert front[q] == ds[q];
      }
      forall j | 0 <= j < i ensures Has(front, key, KeyOrder(ds, key)[j]) {
        assert KeyOrder(front, key)[j] in KeyOrder(front, key);
      }
    }
  }

  /** The kept values stand in the order their keys first occurred. */
  lemma KeptInFirstOrder<T>(ds: seq<T>, key: T -> string, i: nat, j: nat) returns (p: nat, q: nat)
    requires i < j < |Deduped(ds, key)|
    ensures IsFirst(ds, key, p) && key(ds[p]) == key(Deduped(ds, key)[i])
    ensures IsFirst(ds, key, q) && key(ds[q]) == key(Deduped(ds, key)[j])
    ensures p < q
  {
    p := FirstWith(ds, key, i);
    q := FirstWith(ds, key, j);
    var k := KeyOrder(ds, key)[i];
    assert Has(ds[..q], key, k);
    var x :| 0 <= x < q && key(ds[..q][x]) == k;
    assert ds[x] == ds[..q][x];
  }

  // ---- The loop ----

  /** The map holds the last value of every key, and iterates in first-occurrence order. */
  ghost predicate Filed<T>(ds: seq<T>, key: T -> string, order: seq<string>, byKey: map<string, T>) {
    && order == KeyOrder(ds, key)
    && (forall k :: k in order <==> k in byKey)
    && (forall k :: k in byKey ==> Has(ds, key, k) && byKey[k] == LastWith(ds, key, k))
  }

  lemma FiledStep<T>(ds: seq<T>, key: T -> string, d: T, all: seq<T>, order: seq<string>, byKey: map<string, T>)
    requires Filed(ds, key, order, byKey) && all == ds + [d]
    ensures var k := key(d);
            Filed(all, key, if k in byKey then order else order + [k], byKey[k := d])
  {
    assert all[..|all| - 1] == ds && all[|all| - 1] == d;
    forall k | k in byKey[key(d) := d]
      ensures Has(all, key, k) && byKey[key(d) := d][k] == LastWith(all, key, k)
    {
      HasStep(all, key, k);
    }
  }

  /** `byKey.set` for every value in turn; the result is the map and its iteration order. */
  method FileByKey<T>(ds: seq<T>, key: T -> string) returns (order: seq<string>, byKey: map<string, T>)
    ensures Filed(ds, key, order, byKey)
  {
    order, byKey := [], map[];
    for i := 0 to |ds|
      invariant Filed(ds[..i], key, order, byKey)
    {
      var k := key(ds[i]);
      assert ds[..i + 1] == ds[..i] + [ds[i]];
      FiledStep(ds[..i], key, ds[i], ds[..i + 1], order, byKey);
      if k !in byKey { order := order + [k]; }
      byKey := byKey[k := ds[i]];
    }
    assert ds[..|ds|] == ds;
  }

  // ---- A map over the values that leaves their keys alone ----

  lemma {:induction false} MappedOrder<T>(ds: seq<T>, es: seq<T>, key: T -> string)
    requires |ds| == |es| && forall i :: 0 <= i < |ds| ==> key(es[i]) == key(ds[i])
    ensures KeyOrder(es, key) == KeyOrder(ds, key)
  {
    if ds != [] { MappedOrder(ds[..|ds| - 1], es[..|ds| - 1], key); }
  }

  lemma {:induction false} MappedLast<T>(ds: seq<T>, es: seq<T>, f: T -> T, key: T -> string, k: string)
    requires |ds| == |es| && forall i :: 0 <= i < |ds| ==> es[i] == f(ds[i]) && key(es[i]) == key(ds[i])
    requires Has(ds, key, k) && Has(es, key, k)
    ensures LastWith(es, key, k) == f(LastWith(ds, key, k))
  {
    var n := |ds| - 1;
    HasStep(ds, key, k);
    HasStep(es, key, k);
    if key(ds[n]) != k { MappedLast(ds[..n], es[..n], f, key, k); }
  }
}
