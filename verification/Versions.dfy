/** Branches that share a route, such as versions of one component, and when their order matters. */
module Versions {
  import opened Wrappers
  import Syntax
  import opened RouteTree
  import opened Factory
  import opened Gateways
  import opened Folds
  import opened Grafting
  import opened Confluence

  // One path of literals

  lemma {:induction false} NoVariablesIsLiteral(segments: seq<Segment>)
    requires Variables(segments) == 0
    ensures forall i | 0 <= i < |segments| :: segments[i].Literal?
  {
    if segments != [] {
      NoVariablesIsLiteral(segments[1..]);
      forall i | 0 <= i < |segments| ensures segments[i].Literal? {
        assert i > 0 ==> segments[i] == segments[1..][i - 1];
      }
    }
  }

  lemma {:induction false} LiteralsBindNothing(segments: seq<Segment>, f: seq<string>, n: nat)
    requires n <= |segments| && forall i | 0 <= i < |segments| :: segments[i].Literal?
    ensures Bound(segments, f, n) == []
  {
    if n > 0 {
      LiteralsBindNothing(segments, f, n - 1);
    }
  }

  /** A route of literals, and its path. */
  ghost predicate Spells(r: Route, path: seq<string>) {
    |r.segments| == |path| && forall i | 0 <= i < |path| :: r.segments[i] == Literal(path[i])
  }

  ghost predicate Begins(path: seq<string>, f: seq<string>) {
    |path| <= |f| && f[..|path|] == path
  }

  lemma LiteralsFit(segments: seq<Segment>, f: seq<string>)
    requires Fits(segments, f) && forall i | 0 <= i < |segments| :: segments[i].Literal?
    ensures |segments| <= |f| && forall i | 0 <= i < |segments| :: segments[i] == Literal(f[i])
  {
    if segments != [] {
      assert segments[|segments| - 1].Literal?;
    }
  }

  lemma SpellingFits(r: Route, path: seq<string>, f: seq<string>)
    requires Spells(r, path)
    ensures Fits(r.segments, f) <==> Begins(path, f)
  {
    if Fits(r.segments, f) {
      LiteralsFit(r.segments, f);
      assert f[..|path|] == path;
    }
    if Begins(path, f) {
      forall i | 0 <= i < |r.segments| && r.segments[i].Literal? ensures i < |f| && f[i] == r.segments[i].fragment {
        assert f[i] == f[..|path|][i];
      }
    }
  }

  /** What a node answers to the rest of a path. */
  function Own(n: Node, rest: seq<string>): Option<Match> {
    if rest == [] && !n.intermediate then Some(Match(n, [])) else MatchNode(n, rest, [])
  }

  lemma SpelledAnswer(r: Route, path: seq<string>, f: seq<string>)
    requires Spells(r, path)
    ensures MatchRoute(r, f, []) == if Begins(path, f) then Own(r.node, f[|path|..]) else None
  {
    SpellingFits(r, path, f);
    LiteralsBindNothing(r.segments, f, |r.segments|);
    var none: seq<Parameter> := [];
    assert none + Binding(r.segments, f) == none;
  }

  /** Only the path itself is as specific as its literal route. */
  lemma AsSpecificIsEqual(x: Route, r: Route, path: seq<string>)
    requires Spells(x, path) && !Before(x, r) && Fits(r.segments, path)
    ensures Equals(x, r)
  {
    LiteralsHaveNoVariables(x.segments);
    NoVariablesIsLiteral(r.segments);
    LiteralsFit(r.segments, path);
  }

  lemma {:induction false} FirstHitAt(rs: seq<Route>, k: nat, f: seq<string>)
    requires k < |rs| && Single(rs[k], f).Some? && forall j | 0 <= j < k :: Single(rs[j], f) == None
    ensures First(rs, f) == Single(rs[k], f)
  {
    var front := rs[..|rs| - 1];
    if k < |front| {
      FirstHitAt(front, k, f);
    } else {
      FirstIsNone(front, f);
    }
  }

  lemma {:induction false} FirstIsNone(rs: seq<Route>, f: seq<string>)
    requires forall j | 0 <= j < |rs| :: Single(rs[j], f) == None
    ensures First(rs, f) == None
  {
    if rs != [] {
      FirstIsNone(rs[..|rs| - 1], f);
    }
  }

  /** On its own path a literal route has precedence over all others. */
  lemma SpelledIsFirst(rs: seq<Route>, x: Route, path: seq<string>)
    requires Sorted(rs) && Spells(x, path) && Has(rs, x) && !rs[Slot(rs, x)].node.intermediate
    ensures Found(First(rs, path)) == Some(Match(rs[Slot(rs, x)].node, []))
  {
    var k := Slot(rs, x);
    SlotIsFirst(rs, x, k);
    EqualsLiteral(x, rs[k]);
    assert Spells(rs[k], path);
    SpelledAnswer(rs[k], path, path);
    forall j | 0 <= j < k ensures Single(rs[j], path) == None {
      if Fits(rs[j].segments, path) {
        BeforeBySegments(x, rs[k], rs[j]);
        AsSpecificIsEqual(x, rs[j], path);
        assert false;
      }
    }
    FirstHitAt(rs, k, path);
  }

  lemma BeforeBySegments(a: Route, b: Route, r: Route)
    requires a.segments == b.segments
    ensures Before(a, r) == Before(b, r)
  {
  }

  lemma EqualsLiteral(a: Route, b: Route)
    requires AllLiteral(a) && Equals(a, b)
    ensures a.segments == b.segments
  {
    forall i | 0 <= i < |a.segments| ensures a.segments[i] == b.segments[i] {
      assert SameFragment(a.segments[i], b.segments[i]);
    }
  }

  // Arrivals that share a route

  /** The arrivals on one route. */
  function Versions(rs: seq<Route>, segments: seq<Segment>): (vs: seq<Route>)
    ensures forall v | v in vs :: v in rs && v.segments == segments
  {
    CollectedFrom(On(segments), rs);
    Collect(On(segments), rs)
  }

  function On(segments: seq<Segment>): Route -> Option<Route> {
    (r: Route) => if r.segments == segments then Some(r) else None
  }

  /** What is left of open nodes that were merged in turn: the last one, but with the forward of the first. */
  function Survivor(vs: seq<Route>): Route
    requires vs != []
  {
    var first, last := vs[0], vs[|vs| - 1];
    last.(node := last.node.(forward := first.node.forward))
  }

  /** The route stands where `x` belongs. */
  ghost predicate Stands(rs: seq<Route>, x: Route, r: Route) {
    Has(rs, x) && rs[Slot(rs, x)] == r
  }

  lemma FirstVersionStands(rs: seq<Route>, x: Route, r: Route)
    requires !Has(rs, x) && Equals(x, r) && x.segments == r.segments
    ensures Stands(Add(rs, r), x, r)
  {
    SlotOfSegments(rs, x, r);
    SlotOfSame(rs, r, x);
    InsertSame(rs, r, r);
  }

  lemma SlotOfSegments(rs: seq<Route>, x: Route, r: Route)
    requires x.segments == r.segments
    ensures Slot(rs, x) == Slot(rs, r)
  {
    SlotIsFirst(rs, r, Slot(rs, r));
    SlotIsFirst(rs, x, Slot(rs, r));
  }

  lemma NextVersionStands(rs: seq<Route>, x: Route, was: Route, r: Route)
    requires Stands(rs, x, was) && x.segments == r.segments == was.segments && Open(was.node) && Open(r.node)
    ensures Stands(Add(rs, r), x, r.(node := r.node.(forward := was.node.forward)))
  {
    SlotOfSegments(rs, x, r);
    SlotBySegments(rs, Update(rs, r), x);
    ReplacesOpen(was.node, r.node);
  }

  lemma StandsAside(rs: seq<Route>, x: Route, was: Route, r: Route)
    requires Stands(rs, x, was) && !Equals(x, r)
    ensures Stands(Add(rs, r), x, was)
  {
    if Has(rs, r) {
      SlotBySegments(rs, Update(rs, r), x);
      if Slot(rs, r) == Slot(rs, x) {
        SlotIsFirst(rs, r, Slot(rs, r));
        SlotIsFirst(rs, x, Slot(rs, x));
        EqualsThrough(x, r, was);
      }
    } else {
      SlotInserted(rs, r, x);
      ReplaceInserted(rs, r, Slot(rs, x), was);
    }
  }

  lemma StillAbsent(rs: seq<Route>, x: Route, r: Route)
    requires !Has(rs, x) && !Equals(x, r)
    ensures !Has(Add(rs, r), x)
  {
    if Has(rs, r) {
      SlotBySegments(rs, Update(rs, r), x);
    } else {
      SlotInserted(rs, r, x);
    }
  }

  /** After any arrivals, the node on a shared route is that of the last of them with the forward of the first. */
  lemma {:induction false} SurvivorStands(base: seq<Route>, rs: seq<Route>, x: Route)
    requires AllLiteral(x) && !Has(base, x) && forall v | v in Versions(rs, x.segments) :: Open(v.node)
    ensures var vs := Versions(rs, x.segments);
      if vs == [] then !Has(AddAll(base, rs), x) else Stands(AddAll(base, rs), x, Survivor(vs))
  {
    if rs != [] {
      var front, r := rs[..|rs| - 1], rs[|rs| - 1];
      var vs := Versions(front, x.segments);
      SurvivorStands(base, front, x);
      if r.segments == x.segments {
        assert r in Versions(rs, x.segments);
        EqualsItself(x);
        if vs == [] {
          FirstVersionStands(AddAll(base, front), x, r);
        } else {
          NextVersionStands(AddAll(base, front), x, Survivor(vs), r);
        }
      } else {
        assert vs + [] == vs;
        if Equals(x, r) {
          EqualsLiteral(x, r);
        }
        if vs == [] {
          StillAbsent(AddAll(base, front), x, r);
        } else {
          StandsAside(AddAll(base, front), x, Survivor(vs), r);
        }
      }
    }
  }

  // What a gateway answers

  /** A plain node: merging replaces it, and it answers for itself. */
  ghost predicate Plain(n: Node) {
    Open(n) && !n.intermediate
  }

  /**
   Whatever else has arrived, on a path that the annotation leaves alone a gateway answers with the last of the
   plain branches that share it, and with the forward of the first.
   */
  lemma LastArrivalDecides(s: Settings, base: Node, bs: seq<Branch>, path: seq<string>, x: Route)
    requires base.protected && Sorted(base.routes) && Announced(bs)
    requires path != [] && Spells(x, path) && !Has(base.routes, x)
    requires Versions(Arrived(s, bs), x.segments) != []
    requires forall v | v in Versions(Arrived(s, bs), x.segments) :: Plain(v.node)
    ensures Answered(s, base, bs, path) == Some(Match(Survivor(Versions(Arrived(s, bs), x.segments)).node, []))
  {
    var trunk := ReceiveAll(s, State({}, base), bs).trunk;
    ReceivedTrunk(s, base, bs);
    SurvivorStands(base.routes, Arrived(s, bs), x);
    SpelledIsFirst(trunk.routes, x, path);
    FirstOfTrunk(trunk, path);
  }

  // Exactly when order does not matter

  /** Where branches meet, their nodes are plain and the annotation has nothing. */
  ghost predicate MeetPlainly(s: Settings, base: Node, bs: seq<Branch>) {
    && Announced(bs)
    && forall a, b | a in bs && b in bs && Shared(s, a, b) ::
         Path(a) != [] && Plain(Top(s, a).value.node) && !Has(base.routes, Top(s, a).value)
  }

  ghost predicate OrderIsImmaterial(s: Settings, base: Node, bs: seq<Branch>) {
    forall cs, ds, f | SameBranches(bs, cs) && SameBranches(bs, ds) ::
      SameAnswer(Answered(s, base, cs, f), Answered(s, base, ds, f), f)
  }

  function Without(bs: seq<Branch>, a: Branch, b: Branch): (cs: seq<Branch>)
    ensures forall c :: c in cs <==> c in bs && c != a && c != b
  {
    if bs == [] then []
    else
      var front, last := bs[..|bs| - 1], bs[|bs| - 1];
      assert forall c :: c in bs <==> c in front || c == last;
      Without(front, a, b) + if last == a || last == b then [] else [last]
  }

  lemma {:induction false} DedupeKeeps(bs: seq<Branch>)
    requires Distinct(bs)
    ensures Dedupe(bs) == bs
  {
    if bs != [] {
      DedupeKeeps(bs[..|bs| - 1]);
    }
  }

  /** All of these branches, one of them first and another one last. */
  function Between(a: Branch, bs: seq<Branch>, b: Branch): seq<Branch> {
    [a] + Without(Dedupe(bs), a, b) + [b]
  }

  lemma {:induction false} WithoutIsDistinct(bs: seq<Branch>, a: Branch, b: Branch)
    requires Distinct(bs)
    ensures Distinct(Without(bs, a, b))
  {
    if bs != [] {
      WithoutIsDistinct(bs[..|bs| - 1], a, b);
      assert bs[|bs| - 1] !in bs[..|bs| - 1];
    }
  }

  lemma BetweenIsAll(a: Branch, bs: seq<Branch>, b: Branch)
    requires a in bs && b in bs && a != b
    ensures SameBranches(bs, Between(a, bs, b)) && Distinct(Between(a, bs, b))
  {
    WithoutIsDistinct(Dedupe(bs), a, b);
  }

  lemma BetweenArrives(s: Settings, a: Branch, bs: seq<Branch>, b: Branch, x: Route, y: Route)
    requires a in bs && b in bs && a != b && Top(s, a) == Some(x) && Top(s, b) == Some(y)
    ensures Arrived(s, Between(a, bs, b)) == [x] + Tops(s, Without(Dedupe(bs), a, b)) + [y]
  {
    BetweenIsAll(a, bs, b);
    DedupeKeeps(Between(a, bs, b));
    CollectFromTo(Topper(s), a, Without(Dedupe(bs), a, b), b);
  }

  lemma FirstAndLastVersion(x: Route, rs: seq<Route>, y: Route)
    requires x.segments == y.segments
    ensures var vs := Versions([x] + rs + [y], x.segments); |vs| >= 2 && vs[0] == x && vs[|vs| - 1] == y
  {
    CollectFromTo(On(x.segments), x, rs, y);
  }

  lemma VersionsArePlain(s: Settings, base: Node, bs: seq<Branch>, cs: seq<Branch>, a: Branch, b: Branch, v: Route)
    requires MeetPlainly(s, base, bs) && SameBranches(bs, cs) && a in bs && b in bs && Shared(s, a, b)
    requires v in Arrived(s, cs) && v.segments == Top(s, a).value.segments
    ensures Plain(v.node)
  {
    TopsFrom(s, Dedupe(cs));
    var c :| c in Dedupe(cs) && Top(s, c) == Some(v);
    EqualTops(s, a, c);
    assert c in cs;
    assert c != a ==> Shared(s, c, a);
    assert Shared(s, a, b);
  }

  lemma SpelledByPath(s: Settings, b: Branch)
    requires FromManifest(b) && Top(s, b).Some?
    ensures Spells(Top(s, b).value, Path(b))
  {
    TopOfBranch(s, b);
    forall i | 0 <= i < |Path(b)| ensures Top(s, b).value.segments[i] == Literal(Path(b)[i]) {
      assert Top(s, b).value.segments[i] == Parse(Path(b)[i]);
    }
  }

  /** With `a` first and `b` last, the shared path is answered with the node of `b`. */
  lemma LastOfAllDecides(s: Settings, base: Node, bs: seq<Branch>, a: Branch, b: Branch)
    requires base.protected && Sorted(base.routes) && MeetPlainly(s, base, bs)
    requires a in bs && b in bs && Shared(s, a, b)
    ensures SameBranches(bs, Between(a, bs, b))
    ensures Answered(s, base, Between(a, bs, b), Path(a)) ==
            Some(Match(Top(s, b).value.node.(forward := Top(s, a).value.node.forward), []))
  {
    var x, y, cs := Top(s, a).value, Top(s, b).value, Between(a, bs, b);
    EqualTops(s, a, b);
    BetweenIsAll(a, bs, b);
    BetweenArrives(s, a, bs, b, x, y);
    FirstAndLastVersion(x, Tops(s, Without(Dedupe(bs), a, b)), y);
    SpelledByPath(s, a);
    forall v | v in Versions(Arrived(s, cs), x.segments) ensures Plain(v.node) {
      VersionsArePlain(s, base, bs, cs, a, b, v);
    }
    assert forall c | c in cs :: c in bs;
    LastArrivalDecides(s, base, cs, Path(a), x);
  }

  lemma SharedMustAgree(s: Settings, base: Node, bs: seq<Branch>, a: Branch, b: Branch)
    requires base.protected && Sorted(base.routes) && MeetPlainly(s, base, bs) && OrderIsImmaterial(s, base, bs)
    requires a in bs && b in bs && Shared(s, a, b)
    ensures Top(s, a) == Top(s, b)
  {
    var cs, ds, f := Between(a, bs, b), Between(b, bs, a), Path(a);
    assert Shared(s, b, a);
    LastOfAllDecides(s, base, bs, a, b);
    LastOfAllDecides(s, base, bs, b, a);
    assert SameAnswer(Answered(s, base, cs, f), Answered(s, base, ds, f), f);
    EqualTops(s, a, b);
  }

  /**
   A gateway's answers are independent of the order and the repetition of announcements exactly when the
   branches that meet on a route have the same node there; for branches that meet plainly.
   */
  lemma OrderIsImmaterialIff(annotation: Syntax.Node, families: set<string>, bs: seq<Branch>)
    requires annotation.protected != Some(false)
    requires MeetPlainly(Settings(annotation.directives, families), Build(annotation, true, []), bs)
    ensures var s, base := Settings(annotation.directives, families), Build(annotation, true, []);
      OrderIsImmaterial(s, base, bs) <==>
      forall a, b | a in bs && b in bs && Shared(s, a, b) :: Top(s, a).value.node == Top(s, b).value.node
  {
    var s, base := Settings(annotation.directives, families), Build(annotation, true, []);
    BuildIsSorted(annotation, true, []);
    if OrderIsImmaterial(s, base, bs) {
      forall a, b | a in bs && b in bs && Shared(s, a, b) ensures Top(s, a).value.node == Top(s, b).value.node {
        SharedMustAgree(s, base, bs, a, b);
      }
    }
    if forall a, b | a in bs && b in bs && Shared(s, a, b) :: Top(s, a).value.node == Top(s, b).value.node {
      forall a, b | a in bs && b in bs && Shared(s, a, b) ensures Top(s, a) == Top(s, b) {
        EqualTops(s, a, b);
      }
      forall cs, ds, f | SameBranches(bs, cs) && SameBranches(bs, ds)
        ensures SameAnswer(Answered(s, base, cs, f), Answered(s, base, ds, f), f)
      {
        SameSet(s, base, bs, cs);
        AnswersAgree(s, base, cs, ds, f);
      }
    }
  }

  lemma SameSet(s: Settings, base: Node, bs: seq<Branch>, cs: seq<Branch>)
    requires Agreeing(s, base, bs) && SameBranches(bs, cs)
    ensures Agreeing(s, base, cs)
  {
  }

  // Two branches, whatever their nodes are

  /** A gateway that has neither of two branches on one route is about to receive both. */
  ghost predicate TwoArrive(s: Settings, g: State, a: Branch, b: Branch) {
    && g.trunk.protected && Sorted(g.trunk.routes)
    && FromManifest(a) && FromManifest(b) && Id(a) != Id(b) && Id(a) !in g.merged && Id(b) !in g.merged
    && Shared(s, a, b) && Path(a) != [] && !Has(g.trunk.routes, Top(s, a).value)
  }

  ghost predicate EitherOrder(s: Settings, g: State, a: Branch, b: Branch) {
    forall f :: EitherOrderAt(s, g, a, b, f)
  }

  lemma AddedTwice(rs: seq<Route>, a: Route, b: Route)
    requires a.segments == b.segments && !Has(rs, a)
    ensures Add(Add(rs, a), b) == Insert(rs, Joined(a, b))
  {
    SlotOfSegments(rs, a, b);
    EqualsItself(a);
    SlotOfSame(rs, a, b);
    InsertSame(rs, a, Joined(a, b));
  }

  lemma ReceiveTwo(s: Settings, g: State, a: Branch, b: Branch)
    requires Id(a) != Id(b) && Id(a) !in g.merged && Id(b) !in g.merged
    ensures ReceiveAll(s, g, [a, b]).trunk == Absorb(s)(Absorb(s)(g.trunk, a), b)
  {
    assert [a, b][..1] == [a] && [a][..0] == [];
    var h := Receive(s, g, a);
    assert h == State(g.merged + {Id(a)}, Absorb(s)(g.trunk, a));
    assert ReceiveAll(s, g, []) == g && ReceiveAll(s, g, [a]) == h;
    assert ReceiveAll(s, g, [a, b]) == Receive(s, h, b);
  }

  lemma BothAreGrafted(s: Settings, g: State, a: Branch, b: Branch)
    requires TwoArrive(s, g, a, b)
    ensures Grafted(g.trunk, ReceiveAll(s, g, [a, b]).trunk,
                    Insert(g.trunk.routes, Joined(Top(s, a).value, Top(s, b).value)))
  {
    var trunk, x, y := g.trunk, Top(s, a).value, Top(s, b).value;
    ReceiveTwo(s, g, a, b);
    AbsorbAdds(s, trunk, trunk, trunk.routes, a);
    AbsorbAdds(s, trunk, Absorb(s)(trunk, a), Add(trunk.routes, x), b);
    EqualTops(s, a, b);
    AddedTwice(trunk.routes, x, y);
  }

  /** No route of the trunk has precedence over `x` on this path. */
  ghost predicate Yields(trunk: Node, x: Route, f: seq<string>) {
    First(trunk.routes, f).None? || Before(x, First(trunk.routes, f).value.route)
  }

  /** What a node on a route answers below it, or else what the trunk has anyway. */
  function Joint(trunk: Node, n: Node, path: seq<string>, rest: seq<string>): Option<Match> {
    if Own(n, rest).Some? then Own(n, rest) else MatchNode(trunk, path + rest, [])
  }

  lemma BeginsWith(path: seq<string>, rest: seq<string>)
    ensures Begins(path, path + rest) && (path + rest)[|path|..] == rest
  {
  }

  lemma InsertedAnswer(trunk: Node, after: Node, x: Route, f: seq<string>)
    requires Sorted(trunk.routes) && after.routes == Insert(trunk.routes, x)
    ensures MatchNode(after, f, []) ==
            if Yields(trunk, x, f) && MatchRoute(x, f, []).Some? then MatchRoute(x, f, []) else MatchNode(trunk, f, [])
  {
    FirstOfTrunk(trunk, f);
    FirstOfTrunk(after, f);
    FirstOfInserted(trunk.routes, x, f);
  }

  lemma JointAnswer(s: Settings, g: State, a: Branch, b: Branch, f: seq<string>)
    requires TwoArrive(s, g, a, b)
    ensures var x, y, path := Top(s, a).value, Top(s, b).value, Path(a);
      MatchNode(ReceiveAll(s, g, [a, b]).trunk, f, []) ==
      if Begins(path, f) && Yields(g.trunk, x, f) then Joint(g.trunk, Merge(x.node, y.node), path, f[|path|..])
      else MatchNode(g.trunk, f, [])
  {
    var x, y, path := Top(s, a).value, Top(s, b).value, Path(a);
    BothAreGrafted(s, g, a, b);
    SpelledByPath(s, a);
    InsertedAnswer(g.trunk, ReceiveAll(s, g, [a, b]).trunk, Joined(x, y), f);
    SpelledAnswer(Joined(x, y), path, f);
    YieldsBySegments(g.trunk, x, Joined(x, y), f);
    if Begins(path, f) {
      assert f == path + f[|path|..];
    }
  }

  lemma YieldsBySegments(trunk: Node, x: Route, y: Route, f: seq<string>)
    requires x.segments == y.segments
    ensures Yields(trunk, x, f) <==> Yields(trunk, y, f)
  {
  }

  /** Merged in either order, the nodes answer alike where the trunk lets them. */
  ghost predicate JoinAlikeAt(trunk: Node, x: Route, y: Route, path: seq<string>, rest: seq<string>) {
    Yields(trunk, x, path + rest) ==>
      Joint(trunk, Merge(x.node, y.node), path, rest) == Joint(trunk, Merge(y.node, x.node), path, rest)
  }

  ghost predicate JoinAlike(trunk: Node, x: Route, y: Route, path: seq<string>) {
    forall rest :: JoinAlikeAt(trunk, x, y, path, rest)
  }

  ghost predicate EitherOrderAt(s: Settings, g: State, a: Branch, b: Branch, f: seq<string>) {
    SameAnswer(Answer(ReceiveAll(s, g, [a, b]).trunk, f), Answer(ReceiveAll(s, g, [b, a]).trunk, f), f)
  }

  lemma TwoArriveConverse(s: Settings, g: State, a: Branch, b: Branch)
    requires TwoArrive(s, g, a, b)
    ensures TwoArrive(s, g, b, a) && Path(b) == Path(a) && Top(s, a).value.segments == Top(s, b).value.segments
  {
    EqualTops(s, a, b);
    SlotOfSegments(g.trunk.routes, Top(s, a).value, Top(s, b).value);
  }

  lemma EitherOrderOnPath(s: Settings, g: State, a: Branch, b: Branch, f: seq<string>, rest: seq<string>)
    requires TwoArrive(s, g, a, b) && f == Path(a) + rest
    ensures EitherOrderAt(s, g, a, b, f) <==> JoinAlikeAt(g.trunk, Top(s, a).value, Top(s, b).value, Path(a), rest)
  {
    TwoArriveConverse(s, g, a, b);
    JointAnswer(s, g, a, b, f);
    JointAnswer(s, g, b, a, f);
    YieldsBySegments(g.trunk, Top(s, a).value, Top(s, b).value, f);
    BeginsWith(Path(a), rest);
  }

  lemma EitherOrderOffPath(s: Settings, g: State, a: Branch, b: Branch, f: seq<string>)
    requires TwoArrive(s, g, a, b) && !Begins(Path(a), f)
    ensures EitherOrderAt(s, g, a, b, f)
  {
    TwoArriveConverse(s, g, a, b);
    JointAnswer(s, g, a, b, f);
    JointAnswer(s, g, b, a, f);
    BothAreGrafted(s, g, a, b);
    BothAreGrafted(s, g, b, a);
  }

  /** For any two branches on one route: their order does not matter exactly when their merged nodes answer alike. */
  lemma EitherOrderIff(s: Settings, g: State, a: Branch, b: Branch)
    requires TwoArrive(s, g, a, b)
    ensures EitherOrder(s, g, a, b) <==> JoinAlike(g.trunk, Top(s, a).value, Top(s, b).value, Path(a))
  {
    var x, y, path := Top(s, a).value, Top(s, b).value, Path(a);
    if EitherOrder(s, g, a, b) {
      forall rest ensures JoinAlikeAt(g.trunk, x, y, path, rest) {
        assert EitherOrderAt(s, g, a, b, path + rest);
        EitherOrderOnPath(s, g, a, b, path + rest, rest);
      }
    }
    if JoinAlike(g.trunk, x, y, path) {
      forall f ensures EitherOrderAt(s, g, a, b, f) {
        if Begins(path, f) {
          assert f == path + f[|path|..];
          assert JoinAlikeAt(g.trunk, x, y, path, f[|path|..]);
          EitherOrderOnPath(s, g, a, b, f, f[|path|..]);
        } else {
          EitherOrderOffPath(s, g, a, b, f);
        }
      }
    }
  }

  /** The trunk answers nothing at or below this path. */
  ghost predicate Uncovered(trunk: Node, path: seq<string>) {
    forall rest :: MatchNode(trunk, path + rest, []) == None
  }

  lemma UncoveredYields(trunk: Node, x: Route, y: Node, path: seq<string>, rest: seq<string>)
    requires Uncovered(trunk, path)
    ensures Yields(trunk, x, path + rest) && Joint(trunk, y, path, rest) == Own(y, rest)
  {
    assert MatchNode(trunk, path + rest, []) == None;
    FirstOfTrunk(trunk, path + rest);
  }

  ghost predicate OwnAlike(m: Node, n: Node) {
    forall rest :: Own(m, rest) == Own(n, rest)
  }

  lemma JoinUncovered(trunk: Node, x: Route, y: Route, path: seq<string>)
    requires Uncovered(trunk, path)
    ensures JoinAlike(trunk, x, y, path) <==> OwnAlike(Merge(x.node, y.node), Merge(y.node, x.node))
  {
    var m, n := Merge(x.node, y.node), Merge(y.node, x.node);
    if JoinAlike(trunk, x, y, path) {
      forall rest ensures Own(m, rest) == Own(n, rest) {
        UncoveredYields(trunk, x, m, path, rest);
        UncoveredYields(trunk, x, n, path, rest);
        assert JoinAlikeAt(trunk, x, y, path, rest);
      }
    }
    if OwnAlike(m, n) {
      forall rest ensures JoinAlikeAt(trunk, x, y, path, rest) {
        assert Own(m, rest) == Own(n, rest);
      }
    }
  }

  lemma MatchesByRoutes(n: Node, m: Node, f: seq<string>)
    requires n.routes == m.routes
    ensures MatchNode(n, f, []) == MatchNode(m, f, [])
  {
    FirstOfTrunk(n, f);
    FirstOfTrunk(m, f);
  }

  /** What an open node answers once it has replaced another one. */
  lemma OwnReplaced(a: Node, b: Node, rest: seq<string>)
    requires Open(a) && Open(b)
    ensures Own(Merge(a, b), rest) ==
            if rest == [] && !b.intermediate then Some(Match(b.(forward := a.forward), [])) else MatchNode(b, rest, [])
  {
    ReplacesOpen(a, b);
    MatchesByRoutes(b, Merge(a, b), rest);
  }

  /** Two nodes that answer for themselves: order does not matter exactly when they are the same. */
  lemma PlainOrderIff(s: Settings, g: State, a: Branch, b: Branch)
    requires TwoArrive(s, g, a, b) && Plain(Top(s, a).value.node) && Plain(Top(s, b).value.node)
    ensures EitherOrder(s, g, a, b) <==> Top(s, a).value.node == Top(s, b).value.node
  {
    var trunk, x, y, path := g.trunk, Top(s, a).value, Top(s, b).value, Path(a);
    EitherOrderIff(s, g, a, b);
    OwnReplaced(x.node, y.node, []);
    OwnReplaced(y.node, x.node, []);
    SpelledByPath(s, a);
    OwnPathYields(trunk, x, path);
    assert path + [] == path;
    if JoinAlike(trunk, x, y, path) {
      assert JoinAlikeAt(trunk, x, y, path, []);
    }
  }

  /** On its own path a literal route that the trunk does not have would have precedence. */
  lemma OwnPathYields(trunk: Node, x: Route, path: seq<string>)
    requires Spells(x, path) && !Has(trunk.routes, x)
    ensures Yields(trunk, x, path)
  {
    FirstIsHit(trunk.routes, path);
    if !Yields(trunk, x, path) {
      var r := First(trunk.routes, path).value.route;
      AsSpecificIsEqual(x, r, path);
      SlotIsFirst(trunk.routes, x, |trunk.routes|);
      assert false;
    }
  }

  lemma {:induction false} FirstIsHit(rs: seq<Route>, f: seq<string>)
    ensures First(rs, f).Some? ==> First(rs, f).value.route in rs && Fits(First(rs, f).value.route.segments, f)
  {
    if rs != [] {
      FirstIsHit(rs[..|rs| - 1], f);
    }
  }

  /**
   Two nodes with root routes, which answer only through their routes: where the trunk has nothing, order does not
   matter exactly when the nodes match everything alike.
   */
  lemma RootedOrderIff(s: Settings, g: State, a: Branch, b: Branch)
    requires TwoArrive(s, g, a, b) && Uncovered(g.trunk, Path(a))
    requires var m, n := Top(s, a).value.node, Top(s, b).value.node; Open(m) && Open(n) && m.intermediate && n.intermediate
    ensures var m, n := Top(s, a).value.node, Top(s, b).value.node;
      EitherOrder(s, g, a, b) <==> forall rest :: MatchAlike(m, n, rest)
  {
    var x, y := Top(s, a).value, Top(s, b).value;
    EitherOrderIff(s, g, a, b);
    JoinUncovered(g.trunk, x, y, Path(a));
    RootedAlike(x.node, y.node);
  }

  ghost predicate MatchAlike(m: Node, n: Node, rest: seq<string>) {
    MatchNode(m, rest, []) == MatchNode(n, rest, [])
  }

  lemma RootedOwn(m: Node, n: Node, rest: seq<string>)
    requires Open(m) && Open(n) && m.intermediate && n.intermediate
    ensures MatchAlike(m, n, rest) <==> Own(Merge(m, n), rest) == Own(Merge(n, m), rest)
  {
    OwnReplaced(m, n, rest);
    OwnReplaced(n, m, rest);
  }

  lemma RootedAlike(m: Node, n: Node)
    requires Open(m) && Open(n) && m.intermediate && n.intermediate
    ensures OwnAlike(Merge(m, n), Merge(n, m)) <==> forall rest :: MatchAlike(m, n, rest)
  {
    if OwnAlike(Merge(m, n), Merge(n, m)) {
      forall rest ensures MatchAlike(m, n, rest) {
        RootedOwn(m, n, rest);
        assert Own(Merge(m, n), rest) == Own(Merge(n, m), rest);
      }
    }
    if forall rest :: MatchAlike(m, n, rest) {
      forall rest ensures Own(Merge(m, n), rest) == Own(Merge(n, m), rest) {
        RootedOwn(m, n, rest);
      }
    }
  }

  /**
   A plain node and one with a root route: exactly when the root route leads to that very plain node, and
   everything else is matched alike.
   */
  lemma MixedOrderIff(s: Settings, g: State, a: Branch, b: Branch)
    requires TwoArrive(s, g, a, b) && Uncovered(g.trunk, Path(a))
    requires var m, n := Top(s, a).value.node, Top(s, b).value.node; Plain(m) && Open(n) && n.intermediate
    ensures var m, n := Top(s, a).value.node, Top(s, b).value.node;
      EitherOrder(s, g, a, b) <==> forall rest :: MixedAt(m, n, rest)
  {
    var x, y := Top(s, a).value, Top(s, b).value;
    EitherOrderIff(s, g, a, b);
    JoinUncovered(g.trunk, x, y, Path(a));
    MixedAlike(x.node, y.node);
  }

  /** What the two say to the rest of a path is the same. */
  ghost predicate MixedAt(m: Node, n: Node, rest: seq<string>) {
    MatchNode(n, rest, []) == if rest == [] then Some(Match(m.(forward := n.forward), [])) else MatchNode(m, rest, [])
  }

  lemma MixedOwn(m: Node, n: Node, rest: seq<string>)
    requires Plain(m) && Open(n) && n.intermediate
    ensures MixedAt(m, n, rest) <==> Own(Merge(m, n), rest) == Own(Merge(n, m), rest)
  {
    OwnReplaced(m, n, rest);
    OwnReplaced(n, m, rest);
  }

  lemma MixedAlike(m: Node, n: Node)
    requires Plain(m) && Open(n) && n.intermediate
    ensures OwnAlike(Merge(m, n), Merge(n, m)) <==> forall rest :: MixedAt(m, n, rest)
  {
    if OwnAlike(Merge(m, n), Merge(n, m)) {
      forall rest ensures MixedAt(m, n, rest) {
        MixedOwn(m, n, rest);
        assert Own(Merge(m, n), rest) == Own(Merge(n, m), rest);
      }
    }
    if forall rest :: MixedAt(m, n, rest) {
      forall rest ensures Own(Merge(m, n), rest) == Own(Merge(n, m), rest) {
        MixedOwn(m, n, rest);
      }
    }
  }

  // Where merging extends

  /** On a protected node, as annotated ones are, order does not matter for the methods exactly when shared verbs agree. */
  lemma ProtectedMethodsIff(n: Node, a: Node, b: Node)
    requires n.protected
    ensures Merge(Merge(n, a), b).methods == Merge(Merge(n, b), a).methods <==>
            forall verb | verb in a.methods && verb in b.methods :: a.methods[verb] == b.methods[verb]
  {
    MergeProtected(n, a);
    MergeProtected(n, b);
    MergeProtected(Merge(n, a), b);
    MergeProtected(Merge(n, b), a);
    UnionsAgreeIff(n.methods, a.methods, b.methods);
  }

  lemma UnionsAgreeIff(ns: Methods, ms: Methods, os: Methods)
    ensures (ns + ms) + os == (ns + os) + ms <==> forall verb | verb in ms && verb in os :: ms[verb] == os[verb]
  {
    var left, right := (ns + ms) + os, (ns + os) + ms;
    if left == right {
      forall verb | verb in ms && verb in os ensures ms[verb] == os[verb] {
        assert left[verb] == os[verb] && right[verb] == ms[verb];
      }
    }
  }

  // Two versions of one component

  const BARE := Syntax.Node(None, false, None, [], [], [])

  function Exposing(version: string, endpoint: string): Branch {
    var get := Syntax.Method("GET", Some(endpoint), []);
    Branch("default", "pots", version, BARE.(routes := [Syntax.Route(["pots"], BARE.(methods := [get]))]))
  }

  lemma LeafIsBuilt(get: Syntax.Method)
    ensures Build(BARE.(methods := [get]), false, []) ==
            Node(false, None, false, map[get.verb := Method(get.endpoint, get.directives)], [])
  {
    var leaf := BARE.(methods := [get]);
    var none: Directives := [];
    assert Pushed(leaf, none) == none && get.directives + none == get.directives;
    assert [get][..0] == [];
    assert BuildMethods([get], none) == BuildMethods([], none)[get.verb := Method(get.endpoint, get.directives)];
    assert BuildRoutes(leaf, false, none) == [];
  }

  lemma ExposingLoads(version: string, endpoint: string)
    ensures var s, b := Settings([], {}), Exposing(version, endpoint);
      && FromManifest(b) && Path(b) == ["pots"] && Top(s, b).Some?
      && Plain(Top(s, b).value.node) && Top(s, b).value.node.methods == map["GET" := Method(Some(endpoint), [])]
  {
    var s, b := Settings([], {}), Exposing(version, endpoint);
    var none: Directives := [];
    var r := BuildRoute(b.node.routes[0], false, none);
    LeafIsBuilt(Syntax.Method("GET", Some(endpoint), []));
    assert Pushed(b.node, none) == none;
    assert BuildRoutes(b.node, false, none) == [r];
    SortSingle(r);
    var m := Build(b.node, false, none);
    assert m.routes == [r] && m.methods == map[];
    assert KnownFamilies(b.node.routes[0].node, none, {});
  }

  lemma BetweenTwo(a: Branch, b: Branch)
    requires a != b
    ensures Between(a, [a, b], b) == [a, b]
  {
    assert [a][..0] == [] && [a, b][..1] == [a];
    assert Dedupe([a]) == [a] && Dedupe([a, b]) == [a, b];
    assert Without([a], a, b) == [];
  }

  lemma PairMeetsPlainly(s: Settings, base: Node, a: Branch, b: Branch)
    requires FromManifest(a) && FromManifest(b) && Id(a) != Id(b) && Top(s, a).Some? && Top(s, b).Some?
    requires Path(a) == Path(b) != [] && base.routes == []
    requires Plain(Top(s, a).value.node) && Plain(Top(s, b).value.node)
    ensures MeetPlainly(s, base, [a, b]) && Shared(s, a, b) && a in [a, b] && b in [a, b]
  {
    var bs := [a, b];
    assert bs[0] == a && bs[1] == b;
    assert forall c | c in bs :: c == a || c == b;
  }

  lemma PairDecides(s: Settings, base: Node, a: Branch, b: Branch)
    requires FromManifest(a) && FromManifest(b) && Id(a) != Id(b) && Top(s, a).Some? && Top(s, b).Some?
    requires Path(a) == Path(b) != [] && base.routes == [] && base.protected
    requires Plain(Top(s, a).value.node) && Plain(Top(s, b).value.node)
    ensures Answered(s, base, [a, b], Path(a)) ==
            Some(Match(Top(s, b).value.node.(forward := Top(s, a).value.node.forward), []))
  {
    PairMeetsPlainly(s, base, a, b);
    BetweenTwo(a, b);
    LastOfAllDecides(s, base, [a, b], a, b);
  }

  lemma IdsDiffer(v: string, w: string)
    requires v != w
    ensures Id(Exposing(v, "")) != Id(Exposing(w, ""))
  {
    var before := "default" + "." + "pots" + "@";
    assert (before + v)[|before|..] == v && (before + w)[|before|..] == w;
  }

  /** Two versions of a component that map one path to different endpoints: who came last answers. */
  lemma VersionsDisagree(v: string, w: string, list: string, find: string)
    requires v != w && list != find
    ensures var s, base := Settings([], {}), Build(BARE, true, []);
      Answered(s, base, [Exposing(v, list), Exposing(w, find)], ["pots"]) !=
      Answered(s, base, [Exposing(w, find), Exposing(v, list)], ["pots"])
  {
    var s, base, a, b := Settings([], {}), Build(BARE, true, []), Exposing(v, list), Exposing(w, find);
    ExposingLoads(v, list);
    ExposingLoads(w, find);
    IdsDiffer(v, w);
    assert base.routes == [] && base.protected;
    PairDecides(s, base, a, b);
    PairDecides(s, base, b, a);
    assert Top(s, a).value.node.methods["GET"] != Top(s, b).value.node.methods["GET"];
  }

  lemma TwoVersionsDisagree()
    ensures var s, base := Settings([], {}), Build(BARE, true, []);
      Answered(s, base, [Exposing("1", "list"), Exposing("2", "find")], ["pots"]) !=
      Answered(s, base, [Exposing("2", "find"), Exposing("1", "list")], ["pots"])
  {
    assert "1"[0] != "2"[0] && "list"[0] != "find"[0];
    VersionsDisagree("1", "2", "list", "find");
  }
}
