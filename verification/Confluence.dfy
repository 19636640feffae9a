/** Gateways that receive the same branches answer alike, in whatever order and however often the branches arrive. */
module Confluence {
  import opened Wrappers
  import Syntax
  import opened RouteTree
  import opened Factory
  import opened Gateways
  import opened Folds
  import opened Grafting

  // What the branches look like

  /** A branch as a manifest is exposed: one route of literal segments, nothing beside it. */
  ghost predicate FromManifest(b: Branch) {
    && |b.node.routes| == 1 && b.node.methods == []
    && forall i | 0 <= i < |b.node.routes[0].path| :: Parse(b.node.routes[0].path[i]).Literal?
  }

  function Path(b: Branch): seq<string> {
    if b.node.routes == [] then [] else b.node.routes[0].path
  }

  /** Branches as they are announced, identified by their versions. */
  ghost predicate Announced(bs: seq<Branch>) {
    && (forall b | b in bs :: FromManifest(b))
    && forall a, b | a in bs && b in bs && Id(a) == Id(b) :: a == b
  }

  /** The route that a branch adds to the trunk, if it can be loaded. */
  function Top(s: Settings, b: Branch): Option<Route> {
    var m := Load(s, b);
    if m.None? || m.value.routes == [] then None else Some(m.value.routes[0])
  }

  /** Two branches that meet on a route. */
  ghost predicate Shared(s: Settings, a: Branch, b: Branch) {
    a != b && Top(s, a).Some? && Top(s, b).Some? && Path(a) == Path(b)
  }

  /** Branches that share a route agree on everything below it, where merging replaces and nothing is annotated. */
  ghost predicate Agreeing(s: Settings, base: Node, bs: seq<Branch>) {
    && Announced(bs)
    && forall a, b | a in bs && b in bs && Shared(s, a, b) ::
         Top(s, a) == Top(s, b) && Open(Top(s, a).value.node) && !Has(base.routes, Top(s, a).value)
  }

  ghost predicate SameBranches(bs: seq<Branch>, cs: seq<Branch>) {
    forall b :: b in bs <==> b in cs
  }

  // From branches to routes

  lemma SortSingle(r: Route)
    ensures Sort([r]) == [r]
  {
    SortIsStable([r]);
  }

  /** The tree of such a branch is one route. */
  lemma TopOfBranch(s: Settings, b: Branch)
    requires FromManifest(b)
    ensures Load(s, b).Some? <==> Top(s, b).Some?
    ensures Top(s, b).Some? ==>
              var m, r := Load(s, b).value, Top(s, b).value;
              && m.routes == [r] && m.methods == map[]
              && AllLiteral(r) && r.segments == ParsePath(Path(b)) && Sorted(r.node.routes)
  {
    var stack := Pushed(b.node, s.root);
    var r := BuildRoute(b.node.routes[0], false, stack);
    assert BuildRoutes(b.node, false, stack) == [r];
    SortSingle(r);
    BuildIsSorted(b.node.routes[0].node, false, stack);
    assert Build(b.node, false, s.root).routes == [r];
  }

  lemma EqualTops(s: Settings, a: Branch, b: Branch)
    requires FromManifest(a) && FromManifest(b) && Top(s, a).Some? && Top(s, b).Some?
    ensures Equals(Top(s, a).value, Top(s, b).value) <==> Path(a) == Path(b)
    ensures Equals(Top(s, a).value, Top(s, b).value) <==> Top(s, a).value.segments == Top(s, b).value.segments
  {
    TopOfBranch(s, a);
    TopOfBranch(s, b);
    SamePaths(Top(s, a).value, Top(s, b).value, Path(a), Path(b));
  }

  lemma SamePaths(a: Route, b: Route, p: seq<string>, q: seq<string>)
    requires a.segments == ParsePath(p) && b.segments == ParsePath(q) && AllLiteral(a) && AllLiteral(b)
    ensures Equals(a, b) <==> p == q
    ensures a.segments == b.segments <==> p == q
  {
    forall i | 0 <= i < |p| ensures a.segments[i] == Literal(p[i]) {
      assert a.segments[i] == Parse(p[i]);
    }
    forall i | 0 <= i < |q| ensures b.segments[i] == Literal(q[i]) {
      assert b.segments[i] == Parse(q[i]);
    }
    if Equals(a, b) {
      forall i | 0 <= i < |p| ensures p[i] == q[i] {
        assert SameFragment(a.segments[i], b.segments[i]);
      }
    }
    if p == q {
      EqualsItself(a);
    }
  }

  /** The routes of these branches, in order. */
  function Tops(s: Settings, bs: seq<Branch>): seq<Route> {
    Collect(Topper(s), bs)
  }

  function Topper(s: Settings): Branch -> Option<Route> {
    b => Top(s, b)
  }

  lemma TopsFrom(s: Settings, bs: seq<Branch>)
    ensures forall r :: r in Tops(s, bs) <==> exists b :: b in bs && Top(s, b) == Some(r)
  {
    CollectedFrom(Topper(s), bs);
    assert forall b :: Topper(s)(b) == Top(s, b);
  }

  lemma AgreedMore(base: seq<Route>, rs: seq<Route>, r: Route)
    requires Agreed(base, rs) && AllLiteral(r)
    requires forall x | x in rs && (Equals(x, r) || Equals(r, x)) :: x == r && Open(r.node) && !Has(base, r)
    ensures Agreed(base, rs + [r])
  {
    var more := rs + [r];
    forall i, j | 0 <= i < |more| && 0 <= j < |more| && i != j && Equals(more[i], more[j])
      ensures more[i] == more[j] && Open(more[i].node) && !Has(base, more[i])
    {
      if i < |rs| && j < |rs| {
        assert rs[i] == more[i] && rs[j] == more[j];
      } else if i < |rs| {
        assert rs[i] in rs;
      } else {
        assert rs[j] in rs;
      }
    }
  }

  lemma AgreesWithFront(s: Settings, base: Node, bs: seq<Branch>, front: seq<Branch>, b: Branch, x: Route)
    requires Agreeing(s, base, bs) && bs == front + [b] && b !in front
    requires x in Tops(s, front) && Top(s, b).Some? && (Equals(x, Top(s, b).value) || Equals(Top(s, b).value, x))
    ensures x == Top(s, b).value && Open(x.node) && !Has(base.routes, x)
  {
    TopsFrom(s, front);
    var a :| a in front && Top(s, a) == Some(x);
    assert a in bs && b in bs;
    EqualTops(s, a, b);
    EqualTops(s, b, a);
    assert Shared(s, a, b);
  }

  /** Different branches that agree bring routes that agree. */
  lemma {:induction false} TopsAgree(s: Settings, base: Node, bs: seq<Branch>)
    requires Agreeing(s, base, bs) && Distinct(bs)
    ensures Agreed(base.routes, Tops(s, bs))
  {
    if bs != [] {
      var front, b := bs[..|bs| - 1], bs[|bs| - 1];
      assert bs == front + [b];
      TopsAgree(s, base, front);
      if Top(s, b).Some? {
        TopOfBranch(s, b);
        forall x | x in Tops(s, front) && (Equals(x, Top(s, b).value) || Equals(Top(s, b).value, x))
          ensures x == Top(s, b).value && Open(x.node) && !Has(base.routes, x)
        {
          AgreesWithFront(s, base, bs, front, b, x);
        }
        AgreedMore(base.routes, Tops(s, front), Top(s, b).value);
      } else {
        assert Tops(s, front) + [] == Tops(s, front);
      }
    }
  }

  // The trunk

  function Absorb(s: Settings): (Node, Branch) -> Node {
    (n, b) => match Load(s, b) { case Some(m) => Merge(n, m) case None => n }
  }

  lemma {:induction false} ReceiveIsOnce(s: Settings, base: Node, bs: seq<Branch>)
    ensures var g := FoldOnce(Id, Absorb(s), base, bs);
      ReceiveAll(s, State({}, base), bs) == State(g.0, g.1)
  {
    if bs != [] {
      ReceiveIsOnce(s, base, bs[..|bs| - 1]);
    }
  }

  /** What a trunk shows: nothing but its routes ever changes. */
  ghost predicate Grafted(base: Node, trunk: Node, routes: seq<Route>) {
    trunk.protected && trunk.forward == base.forward && trunk.methods == base.methods && trunk.routes == routes && Sorted(routes)
  }

  lemma AbsorbAdds(s: Settings, base: Node, trunk: Node, routes: seq<Route>, b: Branch)
    requires FromManifest(b) && Grafted(base, trunk, routes)
    ensures var top := Top(s, b);
      Grafted(base, Absorb(s)(trunk, b), if top.Some? then Add(routes, top.value) else routes)
  {
    TopOfBranch(s, b);
    if Top(s, b).Some? {
      MergeAdds(trunk, Load(s, b).value, Top(s, b).value);
    }
  }

  lemma {:induction false} AbsorbAllAdds(s: Settings, base: Node, bs: seq<Branch>)
    requires base.protected && Sorted(base.routes) && forall b | b in bs :: FromManifest(b)
    ensures Grafted(base, Fold(Absorb(s), base, bs), AddAll(base.routes, Tops(s, bs)))
  {
    if bs != [] {
      var front, b := bs[..|bs| - 1], bs[|bs| - 1];
      var rs := Tops(s, front);
      AbsorbAllAdds(s, base, front);
      AbsorbAdds(s, base, Fold(Absorb(s), base, front), AddAll(base.routes, rs), b);
      if Top(s, b).Some? {
        assert (rs + [Top(s, b).value])[..|rs|] == rs;
      } else {
        assert rs + [] == rs;
      }
    }
  }

  /** The routes of a gateway's branches, in the order of their first announcements. */
  function Arrived(s: Settings, bs: seq<Branch>): seq<Route> {
    Tops(s, Dedupe(bs))
  }

  lemma ReceivedTrunk(s: Settings, base: Node, bs: seq<Branch>)
    requires base.protected && Sorted(base.routes) && Announced(bs)
    ensures Grafted(base, ReceiveAll(s, State({}, base), bs).trunk, AddAll(base.routes, Arrived(s, bs)))
  {
    ReceiveIsOnce(s, base, bs);
    FoldOnceDedupes(Id, Absorb(s), base, bs);
    AbsorbAllAdds(s, base, Dedupe(bs));
  }

  // The theorem

  /** Same node and parameters; the root path answers with the trunk, of which only the order of routes may differ. */
  ghost predicate SameAnswer(a: Option<Match>, b: Option<Match>, fragments: seq<string>) {
    if fragments != [] then a == b
    else
      && a.Some? && b.Some? && a.value.parameters == b.value.parameters
      && a.value.node.methods == b.value.node.methods && a.value.node.forward == b.value.node.forward
  }

  /** The answer of a gateway that has received these branches. */
  function Answered(s: Settings, base: Node, bs: seq<Branch>, fragments: seq<string>): Option<Match> {
    Answer(ReceiveAll(s, State({}, base), bs).trunk, fragments)
  }

  lemma SameSetAgrees(s: Settings, base: Node, bs: seq<Branch>, cs: seq<Branch>)
    requires Agreeing(s, base, bs) && SameBranches(bs, cs)
    ensures Agreeing(s, base, Dedupe(cs)) && Agreed(base.routes, Arrived(s, cs))
    ensures forall r :: r in Arrived(s, bs) <==> r in Arrived(s, cs)
  {
    TopsAgree(s, base, Dedupe(cs));
    TopsFrom(s, Dedupe(bs));
    TopsFrom(s, Dedupe(cs));
  }

  lemma AnswersAgree(s: Settings, base: Node, bs: seq<Branch>, cs: seq<Branch>, fragments: seq<string>)
    requires base.protected && Sorted(base.routes) && Agreeing(s, base, bs) && SameBranches(bs, cs)
    ensures SameAnswer(Answered(s, base, bs, fragments), Answered(s, base, cs, fragments), fragments)
  {
    ReceivedTrunk(s, base, bs);
    ReceivedTrunk(s, base, cs);
    SameSetAgrees(s, base, bs, bs);
    SameSetAgrees(s, base, bs, cs);
    FirstOfTrunk(ReceiveAll(s, State({}, base), bs).trunk, fragments);
    FirstOfTrunk(ReceiveAll(s, State({}, base), cs).trunk, fragments);
    AgreedRoutesAgree(base.routes, Arrived(s, bs), Arrived(s, cs), fragments);
  }

  /**
   Confluence: two gateways with the same annotation that receive the same branches, in any order and with
   any duplicates, give every path the same answer, if branches that share a route agree.
   */
  lemma GatewaysAgree(annotation: Syntax.Node, families: set<string>, bs: seq<Branch>, cs: seq<Branch>, fragments: seq<string>)
    requires annotation.protected != Some(false)
    requires Agreeing(Settings(annotation.directives, families), Build(annotation, true, []), bs) && SameBranches(bs, cs)
    ensures var s, base := Settings(annotation.directives, families), Build(annotation, true, []);
      SameAnswer(Answered(s, base, bs, fragments), Answered(s, base, cs, fragments), fragments)
  {
    BuildIsSorted(annotation, true, []);
    AnswersAgree(Settings(annotation.directives, families), Build(annotation, true, []), bs, cs, fragments);
  }
}
