/** Folds whose result does not depend on the order of the elements, or on repetitions. */
module Folds {
  import opened Wrappers

  function Fold<V, B>(step: (V, B) -> V, v: V, bs: seq<B>): V {
    if bs == [] then v else step(Fold(step, v, bs[..|bs| - 1]), bs[|bs| - 1])
  }

  lemma FrontAndLast<B>(bs: seq<B>) returns (front: seq<B>, b: B)
    requires bs != []
    ensures bs == front + [b] && |front| < |bs|
  {
    front, b := bs[..|bs| - 1], bs[|bs| - 1];
  }

  lemma FoldMore<V, B>(step: (V, B) -> V, v: V, bs: seq<B>, b: B)
    ensures Fold(step, v, bs + [b]) == step(Fold(step, v, bs), b)
  {
    assert (bs + [b])[..|bs|] == bs;
  }

  /** Any two different elements may be exchanged. */
  ghost predicate Commutes<V(!new), B>(step: (V, B) -> V, bs: seq<B>) {
    forall v: V, a: B, b: B | a in bs && b in bs && a != b :: step(step(v, a), b) == step(step(v, b), a)
  }

  ghost predicate Distinct<B>(bs: seq<B>) {
    forall i, j | 0 <= i < j < |bs| :: bs[i] != bs[j]
  }

  /** Any element may be taken last. */
  lemma {:induction false} TakeLast<V(!new), B>(step: (V, B) -> V, v: V, bs: seq<B>, j: nat)
    requires Commutes(step, bs) && Distinct(bs) && j < |bs|
    ensures Fold(step, v, bs) == step(Fold(step, v, bs[..j] + bs[j + 1..]), bs[j])
    decreases |bs|
  {
    var last := |bs| - 1;
    var rest := bs[..j] + bs[j + 1..];
    if j == last {
      assert rest == bs[..last];
    } else {
      var front := bs[..last];
      TakeLast(step, v, front, j);
      assert rest[..|rest| - 1] == front[..j] + front[j + 1..] && rest[|rest| - 1] == bs[last];
      assert bs[j] in bs && bs[last] in bs && bs[j] != bs[last];
    }
  }

  /** All elements but one. */
  function Drop<B>(bs: seq<B>, j: nat): (rest: seq<B>)
    requires j < |bs|
    ensures |rest| == |bs| - 1
  {
    bs[..j] + bs[j + 1..]
  }

  lemma DropLast<B>(bs: seq<B>)
    requires bs != []
    ensures Drop(bs, |bs| - 1) == bs[..|bs| - 1]
  {
  }

  lemma DropOne<B>(bs: seq<B>, j: nat)
    requires Distinct(bs) && j < |bs|
    ensures Distinct(Drop(bs, j))
    ensures forall x :: x in Drop(bs, j) <==> x in bs && x != bs[j]
  {
    var rest := Drop(bs, j);
    forall i | 0 <= i < |rest| ensures rest[i] == bs[if i < j then i else i + 1] {
    }
    forall x | x in bs && x != bs[j] ensures x in rest {
      var k :| 0 <= k < |bs| && bs[k] == x;
      assert rest[if k < j then k else k - 1] == x;
    }
  }

  lemma {:induction false} FoldIgnoresOrder<V(!new), B>(step: (V, B) -> V, v: V, bs: seq<B>, cs: seq<B>)
    requires Commutes(step, bs) && Distinct(bs) && Distinct(cs) && forall b :: b in bs <==> b in cs
    ensures Fold(step, v, bs) == Fold(step, v, cs)
    decreases |bs|
  {
    if bs == [] {
      assert forall i | 0 <= i < |cs| :: cs[i] in bs;
    } else {
      var last := |bs| - 1;
      assert bs[last] in cs;
      var j :| 0 <= j < |cs| && cs[j] == bs[last];
      DropOne(bs, last);
      DropLast(bs);
      DropOne(cs, j);
      TakeLast(step, v, cs, j);
      FoldIgnoresOrder(step, v, Drop(bs, last), Drop(cs, j));
    }
  }

  function Dedupe<B(==, !new)>(bs: seq<B>): (ds: seq<B>)
    ensures forall b :: b in ds <==> b in bs
    ensures forall i, j | 0 <= i < j < |ds| :: ds[i] != ds[j]
  {
    if bs == [] then []
    else
      var front, b := Dedupe(bs[..|bs| - 1]), bs[|bs| - 1];
      assert forall x :: x in bs <==> x in bs[..|bs| - 1] || x == b;
      if b in front then front else front + [b]
  }

  /** A fold that skips elements whose key it has seen. */
  function FoldOnce<V, B>(key: B -> string, step: (V, B) -> V, v: V, bs: seq<B>): (set<string>, V) {
    if bs == [] then ({}, v)
    else
      var g, b := FoldOnce(key, step, v, bs[..|bs| - 1]), bs[|bs| - 1];
      if key(b) in g.0 then g else (g.0 + {key(b)}, step(g.1, b))
  }

  /** The keys seen are those of the elements. */
  ghost predicate Keyed<B(!new)>(key: B -> string, bs: seq<B>, seen: set<string>) {
    && (forall b | b in bs :: key(b) in seen)
    && forall id | id in seen :: exists b :: b in bs && key(b) == id
  }

  ghost predicate Identifies<B(!new)>(key: B -> string, bs: seq<B>) {
    forall a, b | a in bs && b in bs && key(a) == key(b) :: a == b
  }

  lemma KeyedMore<B(!new)>(key: B -> string, bs: seq<B>, seen: set<string>, b: B)
    requires Keyed(key, bs, seen) && Identifies(key, bs + [b])
    ensures Keyed(key, bs + [b], seen + {key(b)})
    ensures key(b) in seen <==> b in bs
  {
    var more := bs + [b];
    assert forall x :: x in more <==> x in bs || x == b;
    if key(b) in seen {
      var a :| a in bs && key(a) == key(b);
      assert a in more && b in more;
    }
  }

  lemma OnceMore<V, B(!new)>(key: B -> string, step: (V, B) -> V, v: V, bs: seq<B>, b: B)
    requires FoldOnce(key, step, v, bs).1 == Fold(step, v, Dedupe(bs))
    requires Keyed(key, bs, FoldOnce(key, step, v, bs).0) && Identifies(key, bs + [b])
    ensures FoldOnce(key, step, v, bs + [b]).1 == Fold(step, v, Dedupe(bs + [b]))
    ensures Keyed(key, bs + [b], FoldOnce(key, step, v, bs + [b]).0)
  {
    var g := FoldOnce(key, step, v, bs);
    assert (bs + [b])[..|bs|] == bs;
    KeyedMore(key, bs, g.0, b);
    if b !in bs {
      assert (Dedupe(bs) + [b])[..|Dedupe(bs)|] == Dedupe(bs);
    } else {
      assert g.0 + {key(b)} == g.0;
    }
  }

  /** With keys that identify elements, it is the plain fold over the first occurrences. */
  lemma {:induction false} FoldOnceDedupes<V, B(!new)>(key: B -> string, step: (V, B) -> V, v: V, bs: seq<B>)
    requires Identifies(key, bs)
    ensures FoldOnce(key, step, v, bs).1 == Fold(step, v, Dedupe(bs))
    ensures Keyed(key, bs, FoldOnce(key, step, v, bs).0)
    decreases |bs|
  {
    if bs != [] {
      var front, b := bs[..|bs| - 1], bs[|bs| - 1];
      assert bs == front + [b];
      FoldOnceDedupes(key, step, v, front);
      OnceMore(key, step, v, front, b);
    }
  }

  /** What some of the elements yield, in order. */
  function Collect<B, R>(pick: B -> Option<R>, bs: seq<B>): seq<R> {
    if bs == [] then []
    else
      var last := pick(bs[|bs| - 1]);
      Collect(pick, bs[..|bs| - 1]) + if last.Some? then [last.value] else []
  }

  lemma {:induction false} CollectedFrom<B(!new), R(!new)>(pick: B -> Option<R>, bs: seq<B>)
    ensures forall r :: r in Collect(pick, bs) <==> exists b :: b in bs && pick(b) == Some(r)
  {
    if bs != [] {
      var front, b := bs[..|bs| - 1], bs[|bs| - 1];
      CollectedFrom(pick, front);
      assert forall x :: x in bs <==> x in front || x == b;
    }
  }

  lemma {:induction false} CollectFirst<B, R>(pick: B -> Option<R>, a: B, bs: seq<B>)
    requires pick(a).Some?
    ensures Collect(pick, [a] + bs) == [pick(a).value] + Collect(pick, bs)
  {
    if bs == [] {
      assert [a] + bs == [a] && [a][..0] == [];
    } else {
      CollectFirst(pick, a, bs[..|bs| - 1]);
      assert ([a] + bs)[..|bs|] == [a] + bs[..|bs| - 1];
    }
  }

  lemma CollectFromTo<B, R>(pick: B -> Option<R>, a: B, bs: seq<B>, b: B)
    requires pick(a).Some? && pick(b).Some?
    ensures Collect(pick, [a] + bs + [b]) == [pick(a).value] + Collect(pick, bs) + [pick(b).value]
  {
    CollectFirst(pick, a, bs);
    assert ([a] + bs + [b])[..|bs| + 1] == [a] + bs;
  }
}
