/** Adding routes to a sorted list one by one, and what a path is answered then. */
module Grafting {
  import opened Wrappers
  import opened RouteTree
  import opened Factory
  import opened Gateways
  import opened Folds

  predicate AllLiteral(r: Route) {
    forall i | 0 <= i < |r.segments| :: r.segments[i].Literal?
  }

  /** Pairwise different routes of literal segments. */
  ghost predicate Apart(rs: seq<Route>) {
    && (forall i | 0 <= i < |rs| :: AllLiteral(rs[i]))
    && forall i, j | 0 <= i < |rs| && 0 <= j < |rs| && i != j :: !Equals(rs[i], rs[j])
  }

  lemma {:induction false} LiteralsHaveNoVariables(segments: seq<Segment>)
    requires forall i | 0 <= i < |segments| :: segments[i].Literal?
    ensures Variables(segments) == 0
  {
    if segments != [] {
      LiteralsHaveNoVariables(segments[1..]);
    }
  }

  // One branch at a time

  /** Merging into the first equal route, if there is one. */
  function Update(rs: seq<Route>, r: Route): (u: seq<Route>)
    ensures |u| == |rs| && forall i | 0 <= i < |rs| :: u[i].segments == rs[i].segments
  {
    var k := Slot(rs, r);
    if k < |rs| then rs[k := Joined(rs[k], r)] else rs
  }

  function Joined(x: Route, r: Route): Route {
    x.(node := Merge(x.node, r.node))
  }

  predicate Has(rs: seq<Route>, r: Route) {
    Slot(rs, r) < |rs|
  }

  function Add(rs: seq<Route>, r: Route): seq<Route> {
    if Has(rs, r) then Update(rs, r) else Insert(rs, r)
  }

  lemma SortAdded(rs: seq<Route>, r: Route)
    requires Sorted(rs)
    ensures Sorted(Add(rs, r))
    ensures Sort(if Has(rs, r) then Update(rs, r) else rs + [r]) == Add(rs, r)
  {
    if Has(rs, r) {
      SortIsStable(Update(rs, r));
    } else {
      SortIsStable(rs);
      InsertSorts(rs, r);
      assert (rs + [r])[..|rs|] == rs;
    }
  }

  lemma AppendSingle(rs: seq<Route>, m: Node, r: Route)
    requires m.routes == [r]
    ensures Append(rs, m, 0) == if Has(rs, r) then Update(rs, r) else rs + [r]
  {
    var added := if Has(rs, r) then Update(rs, r) else rs + [r];
    assert Append(added, m, 1) == added;
  }

  lemma MergeProtected(n: Node, m: Node)
    requires n.protected
    ensures Merge(n, m) == Node(true, n.forward, m.intermediate, n.methods + m.methods, Sort(Append(n.routes, m, 0)))
  {
  }

  lemma SortAppended(rs: seq<Route>, m: Node, r: Route)
    requires Sorted(rs) && m.routes == [r]
    ensures Sort(Append(rs, m, 0)) == Add(rs, r) && Sorted(Add(rs, r))
  {
    AppendSingle(rs, m, r);
    SortAdded(rs, r);
  }

  lemma NothingAdded(ms: Methods, none: Methods)
    requires none == map[]
    ensures ms + none == ms
  {
  }

  /** On the trunk, merging a branch adds its one route and changes nothing else that is visible. */
  lemma MergeAdds(trunk: Node, m: Node, r: Route)
    requires trunk.protected && Sorted(trunk.routes) && m.routes == [r] && m.methods == map[]
    ensures Merge(trunk, m) == Node(true, trunk.forward, m.intermediate, trunk.methods, Add(trunk.routes, r))
    ensures Sorted(Add(trunk.routes, r))
  {
    NothingAdded(trunk.methods, m.methods);
    MergeProtected(trunk, m);
    SortAppended(trunk.routes, m, r);
  }

  // Separating the annotated routes from the ones the branches brought

  function InsertAll(annotated: seq<Route>, brought: seq<Route>): seq<Route> {
    if brought == [] then annotated else Insert(InsertAll(annotated, brought[..|brought| - 1]), brought[|brought| - 1])
  }

  function Position(rs: seq<Route>, x: Route): (p: nat)
    ensures p <= |rs|
  {
    if rs == [] || !Before(x, rs[|rs| - 1]) then |rs| else Position(rs[..|rs| - 1], x)
  }

  lemma {:induction false} InsertAtPosition(rs: seq<Route>, x: Route)
    ensures Insert(rs, x) == rs[..Position(rs, x)] + [x] + rs[Position(rs, x)..]
  {
    if rs != [] && Before(x, rs[|rs| - 1]) {
      InsertAtPosition(rs[..|rs| - 1], x);
    }
  }

  lemma {:induction false} PositionBySegments(rs: seq<Route>, us: seq<Route>, x: Route)
    requires |rs| == |us| && forall i | 0 <= i < |rs| :: rs[i].segments == us[i].segments
    ensures Position(rs, x) == Position(us, x)
  {
    if rs != [] {
      PositionBySegments(rs[..|rs| - 1], us[..|us| - 1], x);
    }
  }

  lemma SplicedAt(rs: seq<Route>, x: Route, p: nat, j: nat)
    requires p <= |rs| && j <= |rs|
    ensures (rs[..p] + [x] + rs[p..])[j] == if j < p then rs[j] else if j == p then x else rs[j - 1]
  {
  }

  lemma FirstInSpliced(rs: seq<Route>, x: Route, p: nat, r: Route)
    requires !Equals(r, x) && p <= |rs|
    ensures var k, s := Slot(rs, r), rs[..p] + [x] + rs[p..];
      Slot(s, r) == k + if k < p then 0 else 1
  {
    var k, s := Slot(rs, r), rs[..p] + [x] + rs[p..];
    var i := k + if k < p then 0 else 1;
    SlotIsFirst(rs, r, k);
    forall j | 0 <= j < i ensures !Equals(r, s[j]) {
      SplicedAt(rs, x, p, j);
    }
    if i < |s| {
      SplicedAt(rs, x, p, i);
    }
    SlotIsFirst(s, r, i);
  }

  lemma SlotInserted(rs: seq<Route>, x: Route, r: Route)
    requires !Equals(r, x)
    ensures Slot(Insert(rs, x), r) == Slot(rs, r) + if Slot(rs, r) < Position(rs, x) then 0 else 1
  {
    InsertAtPosition(rs, x);
    FirstInSpliced(rs, x, Position(rs, x), r);
  }

  lemma ReplaceInserted(rs: seq<Route>, x: Route, k: nat, y: Route)
    requires k < |rs| && y.segments == rs[k].segments
    ensures var at := k + if k < Position(rs, x) then 0 else 1;
      && Insert(rs, x)[at] == rs[k]
      && Insert(rs[k := y], x) == Insert(rs, x)[at := y]
  {
    var us, p, at := rs[k := y], Position(rs, x), k + if k < Position(rs, x) then 0 else 1;
    InsertAtPosition(rs, x);
    InsertAtPosition(us, x);
    PositionBySegments(rs, us, x);
    SplicedReplacement(rs, x, p, k, y);
  }

  lemma SplicedReplacement(rs: seq<Route>, x: Route, p: nat, k: nat, y: Route)
    requires k < |rs| && p <= |rs|
    ensures var at, spliced := k + (if k < p then 0 else 1), rs[..p] + [x] + rs[p..];
      spliced[at] == rs[k] && rs[k := y][..p] + [x] + rs[k := y][p..] == spliced[at := y]
  {
  }

  /** Updating and inserting different routes commute. */
  lemma UpdateInserted(rs: seq<Route>, x: Route, r: Route)
    requires !Equals(r, x)
    ensures Has(Insert(rs, x), r) == Has(rs, r)
    ensures Update(Insert(rs, x), r) == Insert(Update(rs, r), x)
  {
    SlotInserted(rs, x, r);
    if Has(rs, r) {
      var k, at := Slot(rs, r), Slot(Insert(rs, x), r);
      var y := Joined(rs[k], r);
      ReplaceInserted(rs, x, k, y);
      UpdatedAt(rs, r, k);
      UpdatedAt(Insert(rs, x), r, at);
    }
  }

  lemma UpdatedAt(rs: seq<Route>, r: Route, k: nat)
    requires k == Slot(rs, r) && k < |rs|
    ensures Update(rs, r) == rs[k := Joined(rs[k], r)]
  {
  }

  lemma {:induction false} AddAfterInserts(annotated: seq<Route>, brought: seq<Route>, r: Route)
    requires forall x <- brought :: !Equals(r, x)
    ensures Has(InsertAll(annotated, brought), r) == Has(annotated, r)
    ensures Has(annotated, r) ==> Add(InsertAll(annotated, brought), r) == InsertAll(Update(annotated, r), brought)
    ensures !Has(annotated, r) ==> Add(InsertAll(annotated, brought), r) == InsertAll(annotated, brought + [r])
  {
    if brought != [] {
      var front, last := brought[..|brought| - 1], brought[|brought| - 1];
      AddAfterInserts(annotated, front, r);
      UpdateInserted(InsertAll(annotated, front), last, r);
    }
    assert (brought + [r])[..|brought|] == brought;
  }

  // What a path is answered

  datatype Hit = Hit(route: Route, found: Match)

  function Single(r: Route, f: seq<string>): Option<Hit> {
    match MatchRoute(r, f, [])
    case None => None
    case Some(m) => Some(Hit(r, m))
  }

  /** The first route that matches. */
  function First(rs: seq<Route>, f: seq<string>): Option<Hit> {
    if rs == [] then None
    else
      var front := First(rs[..|rs| - 1], f);
      if front.Some? then front else Single(rs[|rs| - 1], f)
  }

  /** The later hit wins only if its route has precedence. */
  function Combine(a: Option<Hit>, b: Option<Hit>): Option<Hit> {
    if a.None? then b
    else if b.Some? && Before(b.value.route, a.value.route) then b
    else a
  }

  function Found(h: Option<Hit>): Option<Match> {
    if h.Some? then Some(h.value.found) else None
  }

  lemma {:induction false} FirstIsMatch(n: Node, k: nat, f: seq<string>)
    requires k <= |n.routes|
    ensures MatchNode(n, f, []) == if First(n.routes[..k], f).Some? then Found(First(n.routes[..k], f)) else MatchFrom(n, k, f, [])
  {
    if k > 0 {
      FirstIsMatch(n, k - 1, f);
      assert n.routes[..k][..k - 1] == n.routes[..k - 1];
    }
  }

  lemma {:induction false} FirstIsMember(rs: seq<Route>, f: seq<string>)
    ensures First(rs, f).Some? ==> First(rs, f).value.route in rs
  {
    if rs != [] {
      FirstIsMember(rs[..|rs| - 1], f);
    }
  }

  lemma FirstOfAppended(rs: seq<Route>, r: Route, f: seq<string>)
    ensures First(rs + [r], f) == if First(rs, f).Some? then First(rs, f) else Single(r, f)
  {
    assert (rs + [r])[..|rs|] == rs;
  }

  lemma NotBeforeAny(rs: seq<Route>, r: Route, x: Route)
    requires Sorted(rs) && rs != [] && !Before(r, rs[|rs| - 1]) && x in rs
    ensures !Before(r, x)
  {
  }

  lemma LastAfterInserted(front: seq<Route>, last: Route, r: Route, f: seq<string>)
    requires Before(r, last) && First(Insert(front, r), f) == Combine(First(front, f), Single(r, f))
    ensures First(Insert(front, r) + [last], f) == Combine(First(front + [last], f), Single(r, f))
  {
    FirstOfAppended(front, last, f);
    FirstOfAppended(Insert(front, r), last, f);
  }

  lemma {:induction false} FirstOfInserted(rs: seq<Route>, r: Route, f: seq<string>)
    requires Sorted(rs)
    ensures First(Insert(rs, r), f) == Combine(First(rs, f), Single(r, f))
  {
    if rs == [] || !Before(r, rs[|rs| - 1]) {
      FirstOfAppended(rs, r, f);
      FirstIsMember(rs, f);
      if First(rs, f).Some? {
        NotBeforeAny(rs, r, First(rs, f).value.route);
      }
    } else {
      var front, last := rs[..|rs| - 1], rs[|rs| - 1];
      FrontIsSorted(rs);
      FirstOfInserted(front, r, f);
      LastAfterInserted(front, last, r, f);
      assert rs == front + [last] && Insert(rs, r) == Insert(front, r) + [last];
    }
  }

  lemma CombineAssociates(a: Option<Hit>, b: Option<Hit>, c: Option<Hit>)
    ensures Combine(Combine(a, b), c) == Combine(a, Combine(b, c))
  {
  }

  /** The best of the routes that the branches brought. */
  function Best(brought: seq<Route>, f: seq<string>): Option<Hit> {
    if brought == [] then None
    else Combine(Best(brought[..|brought| - 1], f), Single(brought[|brought| - 1], f))
  }

  lemma {:induction false} InsertAllSorted(annotated: seq<Route>, brought: seq<Route>)
    requires Sorted(annotated)
    ensures Sorted(InsertAll(annotated, brought))
  {
    if brought != [] {
      InsertAllSorted(annotated, brought[..|brought| - 1]);
      InsertSorts(InsertAll(annotated, brought[..|brought| - 1]), brought[|brought| - 1]);
    }
  }

  lemma {:induction false} FirstOfAll(annotated: seq<Route>, brought: seq<Route>, f: seq<string>)
    requires Sorted(annotated)
    ensures First(InsertAll(annotated, brought), f) == Combine(First(annotated, f), Best(brought, f))
  {
    if brought != [] {
      var front, last := brought[..|brought| - 1], brought[|brought| - 1];
      FirstOfAll(annotated, front, f);
      InsertAllSorted(annotated, front);
      FirstOfInserted(InsertAll(annotated, front), last, f);
      CombineAssociates(First(annotated, f), Best(front, f), Single(last, f));
    }
  }

  // The routes after a list of arrivals

  /** The routes of a trunk to which others are added in turn. */
  function AddAll(base: seq<Route>, rs: seq<Route>): seq<Route> {
    if rs == [] then base else Add(AddAll(base, rs[..|rs| - 1]), rs[|rs| - 1])
  }

  /** The annotated routes, with every route that has a slot among them merged in. */
  function OldAfter(base: seq<Route>, rs: seq<Route>): (us: seq<Route>)
    ensures |us| == |base| && forall i | 0 <= i < |base| :: us[i].segments == base[i].segments
  {
    if rs == [] then base else Update(OldAfter(base, rs[..|rs| - 1]), rs[|rs| - 1])
  }

  /** The routes without a slot, in order of arrival. */
  function FreshAfter(base: seq<Route>, rs: seq<Route>): (us: seq<Route>)
    ensures forall r :: r in us <==> r in rs && !Has(base, r)
  {
    if rs == [] then []
    else
      var front, r := rs[..|rs| - 1], rs[|rs| - 1];
      assert forall x :: x in rs <==> x in front || x == r;
      FreshAfter(base, front) + if Has(base, r) then [] else [r]
  }

  lemma SlotBySegments(base: seq<Route>, rs: seq<Route>, r: Route)
    requires |rs| == |base| && forall i | 0 <= i < |base| :: rs[i].segments == base[i].segments
    ensures Slot(rs, r) == Slot(base, r)
  {
    SlotIsFirst(base, r, Slot(base, r));
    SlotIsFirst(rs, r, Slot(base, r));
  }

  lemma ApartFront(rs: seq<Route>)
    requires Apart(rs) && rs != []
    ensures var front, r := rs[..|rs| - 1], rs[|rs| - 1]; Apart(front) && forall x <- front :: !Equals(r, x)
  {
  }

  /** However many routes are added, these are the annotated ones with the new ones inserted one by one. */
  lemma {:induction false} AddAllSeparates(base: seq<Route>, rs: seq<Route>)
    requires Apart(rs)
    ensures AddAll(base, rs) == InsertAll(OldAfter(base, rs), FreshAfter(base, rs))
  {
    if rs != [] {
      var front, r := rs[..|rs| - 1], rs[|rs| - 1];
      ApartFront(rs);
      AddAllSeparates(base, front);
      AddAfterInserts(OldAfter(base, front), FreshAfter(base, front), r);
      SlotBySegments(base, OldAfter(base, front), r);
      assert FreshAfter(base, front) + [] == FreshAfter(base, front);
    }
  }

  lemma {:induction false} AddAllSorts(base: seq<Route>, rs: seq<Route>)
    requires Sorted(base)
    ensures Sorted(AddAll(base, rs))
  {
    if rs != [] {
      AddAllSorts(base, rs[..|rs| - 1]);
      SortAdded(AddAll(base, rs[..|rs| - 1]), rs[|rs| - 1]);
    }
  }

  // Order does not matter

  lemma OneOfTwoFits(a: Route, b: Route, f: seq<string>)
    requires AllLiteral(a) && AllLiteral(b) && !Equals(a, b)
    requires MatchRoute(a, f, []).Some? && MatchRoute(b, f, []).Some?
    ensures Before(a, b) || Before(b, a)
  {
    LiteralsHaveNoVariables(a.segments);
    LiteralsHaveNoVariables(b.segments);
  }

  lemma HitsCommute(h: Option<Hit>, a: Route, b: Route, f: seq<string>)
    requires AllLiteral(a) && AllLiteral(b) && !Equals(a, b)
    ensures Combine(Combine(h, Single(a, f)), Single(b, f)) == Combine(Combine(h, Single(b, f)), Single(a, f))
  {
    if Single(a, f).Some? && Single(b, f).Some? {
      OneOfTwoFits(a, b, f);
    }
  }

  lemma UpdatesCommute(rs: seq<Route>, a: Route, b: Route)
    requires !Equals(a, b)
    ensures Update(Update(rs, a), b) == Update(Update(rs, b), a)
  {
    SlotBySegments(rs, Update(rs, a), b);
    SlotBySegments(rs, Update(rs, b), a);
    if Has(rs, a) && Has(rs, b) && Slot(rs, a) == Slot(rs, b) {
      SlotIsFirst(rs, a, Slot(rs, a));
      SlotIsFirst(rs, b, Slot(rs, b));
      EqualsThrough(a, b, rs[Slot(rs, a)]);
    }
  }

  lemma EqualsThrough(a: Route, b: Route, c: Route)
    requires Equals(a, c) && Equals(b, c)
    ensures Equals(a, b)
  {
    forall i | 0 <= i < |a.segments| ensures SameFragment(a.segments[i], b.segments[i]) {
      assert SameFragment(a.segments[i], c.segments[i]) && SameFragment(b.segments[i], c.segments[i]);
    }
  }

  type View = (seq<Route>, Option<Hit>)

  /** What one more route does to the annotated routes and to the best of the others. */
  function Next(base: seq<Route>, f: seq<string>, v: View, r: Route): View {
    (Update(v.0, r), if Has(base, r) then v.1 else Combine(v.1, Single(r, f)))
  }

  function Step(base: seq<Route>, f: seq<string>): (View, Route) -> View {
    (v, r) => Next(base, f, v, r)
  }

  lemma BestMore(brought: seq<Route>, r: Route, f: seq<string>)
    ensures Best(brought + [r], f) == Combine(Best(brought, f), Single(r, f))
  {
    assert (brought + [r])[..|brought|] == brought;
  }

  lemma NextView(base: seq<Route>, f: seq<string>, front: seq<Route>, r: Route)
    ensures Next(base, f, (OldAfter(base, front), Best(FreshAfter(base, front), f)), r) ==
            (OldAfter(base, front + [r]), Best(FreshAfter(base, front + [r]), f))
  {
    var brought := FreshAfter(base, front);
    assert (front + [r])[..|front|] == front;
    if !Has(base, r) {
      BestMore(brought, r, f);
    } else {
      assert brought + [] == brought;
    }
  }

  ghost predicate Viewed(base: seq<Route>, f: seq<string>, rs: seq<Route>) {
    Fold(Step(base, f), (base, None), rs) == (OldAfter(base, rs), Best(FreshAfter(base, rs), f))
  }

  lemma ViewedMore(base: seq<Route>, f: seq<string>, front: seq<Route>, r: Route)
    requires Viewed(base, f, front)
    ensures Viewed(base, f, front + [r])
  {
    FoldMore(Step(base, f), (base, None), front, r);
    NextView(base, f, front, r);
  }

  lemma ViewedNone(base: seq<Route>, f: seq<string>)
    ensures Viewed(base, f, [])
  {
  }

  lemma {:induction false} ViewIsFold(base: seq<Route>, f: seq<string>, rs: seq<Route>)
    ensures Viewed(base, f, rs)
    decreases |rs|
  {
    if rs == [] {
      ViewedNone(base, f);
    } else {
      var front, r := FrontAndLast(rs);
      ViewIsFold(base, f, front);
      ViewedMore(base, f, front, r);
    }
  }

  lemma StepsCommute(base: seq<Route>, f: seq<string>, rs: seq<Route>)
    requires Apart(rs)
    ensures Commutes(Step(base, f), rs)
  {
    forall v: View, a: Route, b: Route | a in rs && b in rs && a != b
      ensures Step(base, f)(Step(base, f)(v, a), b) == Step(base, f)(Step(base, f)(v, b), a)
    {
      var i :| 0 <= i < |rs| && rs[i] == a;
      var j :| 0 <= j < |rs| && rs[j] == b;
      UpdatesCommute(v.0, a, b);
      HitsCommute(v.1, a, b, f);
    }
  }

  lemma EqualsItself(r: Route)
    ensures Equals(r, r)
  {
  }

  lemma ApartIsDistinct(rs: seq<Route>)
    requires Apart(rs)
    ensures Distinct(rs)
  {
    forall i, j | 0 <= i < j < |rs| ensures rs[i] != rs[j] {
      EqualsItself(rs[i]);
    }
  }

  lemma ViewIgnoresOrder(base: seq<Route>, f: seq<string>, rs: seq<Route>, us: seq<Route>)
    requires Apart(rs) && Apart(us) && forall r :: r in rs <==> r in us
    ensures OldAfter(base, rs) == OldAfter(base, us) && Best(FreshAfter(base, rs), f) == Best(FreshAfter(base, us), f)
  {
    ViewIsFold(base, f, rs);
    ViewIsFold(base, f, us);
    ApartIsDistinct(rs);
    ApartIsDistinct(us);
    StepsCommute(base, f, rs);
    FoldIgnoresOrder(Step(base, f), (base, None), rs, us);
  }

  lemma SortedBySegments(base: seq<Route>, rs: seq<Route>)
    requires Sorted(base) && |rs| == |base| && forall i | 0 <= i < |base| :: rs[i].segments == base[i].segments
    ensures Sorted(rs)
  {
  }

  lemma FirstAfter(base: seq<Route>, rs: seq<Route>, f: seq<string>)
    requires Sorted(base) && Apart(rs)
    ensures First(AddAll(base, rs), f) == Combine(First(OldAfter(base, rs), f), Best(FreshAfter(base, rs), f))
  {
    AddAllSeparates(base, rs);
    SortedBySegments(base, OldAfter(base, rs));
    FirstOfAll(OldAfter(base, rs), FreshAfter(base, rs), f);
  }

  /** Routes pairwise apart, added in two orders, answer every path alike. */
  lemma OrdersAgree(base: seq<Route>, rs: seq<Route>, us: seq<Route>, f: seq<string>)
    requires Sorted(base) && Apart(rs) && Apart(us) && forall r :: r in rs <==> r in us
    ensures First(AddAll(base, rs), f) == First(AddAll(base, us), f)
  {
    FirstAfter(base, rs, f);
    FirstAfter(base, us, f);
    ViewIgnoresOrder(base, f, rs, us);
  }

  lemma FirstOfTrunk(t: Node, f: seq<string>)
    ensures MatchNode(t, f, []) == Found(First(t.routes, f))
  {
    FirstIsMatch(t, |t.routes|, f);
    assert t.routes[..|t.routes|] == t.routes;
  }

  // Routes that arrive again

  lemma SlotOfSame(rs: seq<Route>, a: Route, b: Route)
    requires !Has(rs, b) && Equals(b, a)
    ensures Slot(Insert(rs, a), b) == Position(rs, a)
  {
    var p, s := Position(rs, a), Insert(rs, a);
    InsertAtPosition(rs, a);
    SlotIsFirst(rs, b, |rs|);
    forall j | 0 <= j < p ensures !Equals(b, s[j]) {
      assert s[j] == rs[j];
    }
    SlotIsFirst(s, b, p);
  }

  lemma InsertSame(rs: seq<Route>, a: Route, y: Route)
    requires a.segments == y.segments
    ensures Insert(rs, a)[Position(rs, a)] == a && Insert(rs, a)[Position(rs, a) := y] == Insert(rs, y)
  {
    InsertAtPosition(rs, a);
    InsertAtPosition(rs, y);
    SamePosition(rs, a, y);
    SplicedSame(rs, Position(rs, a), a, y);
  }

  lemma SplicedSame(rs: seq<Route>, p: nat, a: Route, y: Route)
    requires p <= |rs|
    ensures var spliced := rs[..p] + [a] + rs[p..];
      spliced[p] == a && spliced[p := y] == rs[..p] + [y] + rs[p..]
  {
  }

  lemma {:induction false} SamePosition(rs: seq<Route>, a: Route, b: Route)
    requires a.segments == b.segments
    ensures Position(rs, a) == Position(rs, b)
  {
    if rs != [] {
      SamePosition(rs[..|rs| - 1], a, b);
    }
  }

  /** A node that merging replaces. */
  ghost predicate Open(n: Node) {
    !n.protected && Sorted(n.routes)
  }

  /** Equal routes are the same, their node is open, and the annotation leaves them alone. */
  ghost predicate Agreed(base: seq<Route>, rs: seq<Route>) {
    && (forall i | 0 <= i < |rs| :: AllLiteral(rs[i]))
    && forall i, j | 0 <= i < |rs| && 0 <= j < |rs| && i != j && Equals(rs[i], rs[j]) ::
         rs[i] == rs[j] && Open(rs[i].node) && !Has(base, rs[i])
  }

  lemma ReplacesOpen(a: Node, b: Node)
    requires !a.protected && Sorted(b.routes)
    ensures Merge(a, b) == b.(protected := false, forward := a.forward)
  {
    SortIsStable(b.routes);
  }

  /** A new route is where it was put. */
  lemma {:induction false} SlotOfBrought(annotated: seq<Route>, brought: seq<Route>, r: Route)
    requires !Has(annotated, r) && Apart(brought) && r in brought
    ensures var rs := InsertAll(annotated, brought); Has(rs, r) && rs[Slot(rs, r)] == r
  {
    var front, last := brought[..|brought| - 1], brought[|brought| - 1];
    var rs := InsertAll(annotated, front);
    ApartFront(brought);
    if r == last {
      AddAfterInserts(annotated, front, r);
      EqualsItself(r);
      SlotOfSame(rs, r, r);
      InsertSame(rs, r, r);
    } else {
      SlotOfBrought(annotated, front, r);
      DifferentAreUnequal(brought, r, last);
      SlotInserted(rs, last, r);
      ReplaceInserted(rs, last, Slot(rs, r), r);
    }
  }

  lemma DifferentAreUnequal(rs: seq<Route>, a: Route, b: Route)
    requires Apart(rs) && a in rs && b in rs && a != b
    ensures !Equals(a, b)
  {
    var i :| 0 <= i < |rs| && rs[i] == a;
    var j :| 0 <= j < |rs| && rs[j] == b;
  }

  lemma {:induction false} FreshIsApart(base: seq<Route>, rs: seq<Route>)
    requires Apart(rs)
    ensures Apart(FreshAfter(base, rs))
  {
    if rs != [] {
      var front, r := rs[..|rs| - 1], rs[|rs| - 1];
      ApartFront(rs);
      FreshIsApart(base, front);
      forall x | x in front ensures !Equals(x, r) {
        EqualsItself(r);
        DifferentAreUnequal(rs, x, r);
      }
      ApartMore(FreshAfter(base, front), r);
      assert FreshAfter(base, front) + [] == FreshAfter(base, front);
    }
  }

  lemma ApartMore(rs: seq<Route>, r: Route)
    requires Apart(rs) && AllLiteral(r) && forall x | x in rs :: !Equals(x, r) && !Equals(r, x)
    ensures Apart(rs + [r])
  {
  }

  lemma UpdateItself(rs: seq<Route>, r: Route)
    requires Has(rs, r) && rs[Slot(rs, r)] == r && Open(r.node)
    ensures Update(rs, r) == rs
  {
    ReplacesOpen(r.node, r.node);
  }

  /** What has arrived already changes nothing. */
  lemma AddPresent(base: seq<Route>, rs: seq<Route>, r: Route)
    requires Apart(rs) && r in rs && Open(r.node) && !Has(base, r)
    ensures Add(AddAll(base, rs), r) == AddAll(base, rs)
  {
    AddAllSeparates(base, rs);
    SlotBySegments(base, OldAfter(base, rs), r);
    FreshIsApart(base, rs);
    SlotOfBrought(OldAfter(base, rs), FreshAfter(base, rs), r);
    UpdateItself(AddAll(base, rs), r);
  }

  lemma AgreedFront(base: seq<Route>, rs: seq<Route>)
    requires Agreed(base, rs) && rs != []
    ensures Agreed(base, rs[..|rs| - 1])
    ensures var r := rs[|rs| - 1];
      && AllLiteral(r)
      && forall x | x in rs[..|rs| - 1] && (Equals(x, r) || Equals(r, x)) :: x == r && Open(r.node) && !Has(base, r)
  {
  }

  /** Only first occurrences count. */
  lemma {:induction false} RepeatsAddNothing(base: seq<Route>, rs: seq<Route>)
    requires Agreed(base, rs)
    ensures Apart(Dedupe(rs)) && AddAll(base, rs) == AddAll(base, Dedupe(rs))
  {
    if rs != [] {
      var front, r := rs[..|rs| - 1], rs[|rs| - 1];
      AgreedFront(base, rs);
      RepeatsAddNothing(base, front);
      if r in front {
        EqualsItself(r);
        AddPresent(base, Dedupe(front), r);
      } else {
        ApartMore(Dedupe(front), r);
        assert (Dedupe(front) + [r])[..|Dedupe(front)|] == Dedupe(front);
      }
    }
  }

  /** Routes that agree where they are shared answer every path alike in whatever order, and however often, they are added. */
  lemma AgreedRoutesAgree(base: seq<Route>, rs: seq<Route>, us: seq<Route>, f: seq<string>)
    requires Sorted(base) && Agreed(base, rs) && Agreed(base, us) && forall r :: r in rs <==> r in us
    ensures First(AddAll(base, rs), f) == First(AddAll(base, us), f)
  {
    RepeatsAddNothing(base, rs);
    RepeatsAddNothing(base, us);
    OrdersAgree(base, Dedupe(rs), Dedupe(us), f);
  }
}
