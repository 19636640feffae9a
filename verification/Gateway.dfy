/** Merging announced branches into the routing tree. */
module Gateways {
  import opened Wrappers
  import Syntax
  import opened RouteTree
  import opened Factory

  /** Same fragments position by position; any two variables are alike. */
  predicate Equals(a: Route, b: Route) {
    |a.segments| == |b.segments| && forall i | 0 <= i < |a.segments| :: SameFragment(a.segments[i], b.segments[i])
  }

  predicate SameFragment(a: Segment, b: Segment) {
    if a.Literal? && b.Literal? then a.fragment == b.fragment else a.Variable? && b.Variable?
  }

  /** A path with the names of its variables left out. */
  function Unnamed(segments: seq<Segment>): (s: seq<Segment>)
    ensures |s| == |segments|
  {
    seq(|segments|, i requires 0 <= i < |segments| => if segments[i].Variable? then Variable(None) else segments[i])
  }

  /** Routes are equal exactly when their paths are, but for the names of variables. */
  lemma EqualsUnnamed(a: Route, b: Route)
    ensures Equals(a, b) <==> Unnamed(a.segments) == Unnamed(b.segments)
  {
    if Unnamed(a.segments) == Unnamed(b.segments) {
      forall i | 0 <= i < |a.segments| ensures SameFragment(a.segments[i], b.segments[i]) {
        assert Unnamed(a.segments)[i] == Unnamed(b.segments)[i];
      }
    }
  }

  /** The index of the first route that equals `r`, or the number of routes. */
  function Slot(rs: seq<Route>, r: Route): (i: nat)
    ensures i <= |rs|
  {
    if rs == [] then 0
    else
      var last := |rs| - 1;
      var i := Slot(rs[..last], r);
      if i < last then i else if Equals(r, rs[last]) then last else |rs|
  }

  /** Route `i` equals `r` and none before it does, or there are only `i` routes. */
  ghost predicate FirstAt(rs: seq<Route>, r: Route, i: nat) {
    i <= |rs| && (i < |rs| ==> Equals(r, rs[i])) && forall j | 0 <= j < i :: !Equals(r, rs[j])
  }

  lemma {:induction false} SlotIsFirst(rs: seq<Route>, r: Route, i: nat)
    ensures Slot(rs, r) == i <==> FirstAt(rs, r, i)
  {
    if rs != [] {
      SlotIsFirst(rs[..|rs| - 1], r, Slot(rs[..|rs| - 1], r));
      SlotIsFirst(rs[..|rs| - 1], r, i);
    }
  }

  /** Node.merge: a protected node is extended, any other is replaced; then the routes are sorted. */
  function Merge(n: Node, m: Node): Node
    decreases m, |m.routes| + 1
  {
    var merged := if n.protected then n.(routes := Append(n.routes, m, 0), methods := n.methods + m.methods)
                  else n.(routes := m.routes, methods := m.methods);
    merged.(intermediate := m.intermediate, routes := Sort(merged.routes))
  }

  /** Node.append and Node.route: merge into the first equal route, or push. */
  function Append(rs: seq<Route>, m: Node, i: nat): seq<Route>
    requires i <= |m.routes|
    decreases m, |m.routes| - i
  {
    if i == |m.routes| then rs
    else
      var candidate := m.routes[i];
      var k := Slot(rs, candidate);
      var next := if k < |rs| then rs[k := rs[k].(node := Merge(rs[k].node, candidate.node))] else rs + [candidate];
      Append(next, m, i + 1)
  }

  /** One route of the merged node. */
  lemma AppendOne(rs: seq<Route>, m: Node, i: nat, k: nat)
    requires i < |m.routes| && k == Slot(rs, m.routes[i])
    ensures var candidate := m.routes[i];
      Append(rs, m, i) ==
      Append(if k < |rs| then rs[k := rs[k].(node := Merge(rs[k].node, candidate.node))] else rs + [candidate], m, i + 1)
  {
  }

  /** The routes from `i` on that equal none of `rs`, in order. */
  function Unmatched(rs: seq<Route>, ms: seq<Route>, i: nat): seq<Route>
    requires i <= |ms|
    decreases |ms| - i
  {
    if i == |ms| then [] else (if Slot(rs, ms[i]) == |rs| then [ms[i]] else []) + Unmatched(rs, ms, i + 1)
  }

  ghost predicate Different(ms: seq<Route>) {
    forall a, b | 0 <= a < b < |ms| :: !Equals(ms[a], ms[b])
  }

  /** Each present route has the equal one of the others merged into it, if there is one; the rest follow in order. */
  ghost predicate Appended(rs: seq<Route>, ms: seq<Route>, i: nat, us: seq<Route>)
    requires i <= |ms|
  {
    && |us| >= |rs| && us[|rs|..] == Unmatched(rs, ms, i)
    && (forall a | i <= a < |ms| && Slot(rs, ms[a]) < |rs| ::
          us[Slot(rs, ms[a])] == rs[Slot(rs, ms[a])].(node := Merge(rs[Slot(rs, ms[a])].node, ms[a].node)))
    && (forall j | 0 <= j < |rs| && (forall a | i <= a < |ms| :: Slot(rs, ms[a]) != j) :: us[j] == rs[j])
  }

  lemma SlotAfterOne(rs: seq<Route>, next: seq<Route>, c: Route, r: Route, y: Route)
    requires !Equals(c, r) && var k := Slot(rs, c);
      next == if k < |rs| then rs[k := y] else rs + [c]
    requires y.segments == if Slot(rs, c) < |rs| then rs[Slot(rs, c)].segments else y.segments
    ensures Slot(next, r) == if Slot(rs, r) == |rs| then |next| else Slot(rs, r)
    ensures Slot(rs, r) < |rs| ==> Slot(rs, r) != Slot(rs, c)
  {
    var k, s := Slot(rs, c), Slot(rs, r);
    SlotIsFirst(rs, c, k);
    SlotIsFirst(rs, r, s);
    EqualsUnnamed(c, r);
    EqualsUnnamed(r, c);
    forall j | 0 <= j < |rs| ensures Equals(r, next[j]) <==> Equals(r, rs[j]) {
      EqualsUnnamed(r, next[j]);
      EqualsUnnamed(r, rs[j]);
    }
    if k < |rs| && s == k {
      EqualsUnnamed(c, rs[k]);
      EqualsUnnamed(r, rs[k]);
    }
    SlotIsFirst(next, r, if s == |rs| then |next| else s);
  }

  lemma {:induction false} UnmatchedAfterOne(rs: seq<Route>, next: seq<Route>, ms: seq<Route>, i: nat)
    requires i <= |ms|
    requires forall a | i <= a < |ms| :: Slot(next, ms[a]) == if Slot(rs, ms[a]) == |rs| then |next| else Slot(rs, ms[a])
    requires |next| >= |rs|
    ensures Unmatched(next, ms, i) == Unmatched(rs, ms, i)
    decreases |ms| - i
  {
    if i < |ms| {
      UnmatchedAfterOne(rs, next, ms, i + 1);
    }
  }

  /** What appending pairwise different routes leaves. */
  lemma {:induction false} AppendJoins(rs: seq<Route>, m: Node, i: nat)
    requires i <= |m.routes| && Different(m.routes)
    ensures Appended(rs, m.routes, i, Append(rs, m, i))
    decreases |m.routes| - i
  {
    if i < |m.routes| {
      var c := m.routes[i];
      var k := Slot(rs, c);
      var y := if k < |rs| then rs[k].(node := Merge(rs[k].node, c.node)) else c;
      var next := if k < |rs| then rs[k := y] else rs + [c];
      forall a | i < a < |m.routes|
        ensures Slot(next, m.routes[a]) == if Slot(rs, m.routes[a]) == |rs| then |next| else Slot(rs, m.routes[a])
        ensures Slot(rs, m.routes[a]) < |rs| ==> Slot(rs, m.routes[a]) != k
      {
        SlotAfterOne(rs, next, c, m.routes[a], y);
      }
      AppendJoins(next, m, i + 1);
      UnmatchedAfterOne(rs, next, m.routes, i + 1);
      var us := Append(next, m, i + 1);
      AppendOne(rs, m, i, k);
      AppendedOne(rs, next, m.routes, i, us);
    }
  }

  /** `next` is `rs` after one step, which concerns no other route of `ms` from `i` on. */
  ghost predicate OneAppended(rs: seq<Route>, next: seq<Route>, ms: seq<Route>, i: nat)
    requires i < |ms|
  {
    var k := Slot(rs, ms[i]);
    && next == (if k < |rs| then rs[k := rs[k].(node := Merge(rs[k].node, ms[i].node))] else rs + [ms[i]])
    && forall a | i < a < |ms| ::
         && Slot(next, ms[a]) == (if Slot(rs, ms[a]) == |rs| then |next| else Slot(rs, ms[a]))
         && (Slot(rs, ms[a]) < |rs| ==> Slot(rs, ms[a]) != k)
  }

  lemma UnmatchedOne(rs: seq<Route>, next: seq<Route>, ms: seq<Route>, i: nat, us: seq<Route>)
    requires i < |ms| && OneAppended(rs, next, ms, i) && Appended(next, ms, i + 1, us)
    requires Unmatched(next, ms, i + 1) == Unmatched(rs, ms, i + 1)
    ensures us[|rs|..] == Unmatched(rs, ms, i)
  {
    var k := Slot(rs, ms[i]);
    if k == |rs| {
      PushedStays(rs, next, ms, i, us);
      FirstAndRest(us, k);
    }
  }

  lemma PushedStays(rs: seq<Route>, next: seq<Route>, ms: seq<Route>, i: nat, us: seq<Route>)
    requires i < |ms| && OneAppended(rs, next, ms, i) && Appended(next, ms, i + 1, us) && Slot(rs, ms[i]) == |rs|
    ensures us[|rs|] == ms[i]
  {
    assert forall a | i + 1 <= a < |ms| :: Slot(next, ms[a]) != |rs|;
  }

  lemma FirstAndRest(us: seq<Route>, n: nat)
    requires n < |us|
    ensures us[n..] == [us[n]] + us[n + 1..]
  {
  }

  lemma MatchedOne(rs: seq<Route>, next: seq<Route>, ms: seq<Route>, i: nat, us: seq<Route>, a: nat)
    requires i <= a < |ms| && OneAppended(rs, next, ms, i) && Appended(next, ms, i + 1, us) && Slot(rs, ms[a]) < |rs|
    ensures us[Slot(rs, ms[a])] == rs[Slot(rs, ms[a])].(node := Merge(rs[Slot(rs, ms[a])].node, ms[a].node))
  {
    if a == i {
      assert forall b | i + 1 <= b < |ms| :: Slot(next, ms[b]) != Slot(rs, ms[i]);
    }
  }

  lemma UntouchedOne(rs: seq<Route>, next: seq<Route>, ms: seq<Route>, i: nat, us: seq<Route>, j: nat)
    requires i < |ms| && OneAppended(rs, next, ms, i) && Appended(next, ms, i + 1, us)
    requires j < |rs| && forall a | i <= a < |ms| :: Slot(rs, ms[a]) != j
    ensures us[j] == rs[j]
  {
    assert forall a | i + 1 <= a < |ms| :: Slot(next, ms[a]) != j;
  }

  lemma AppendedOne(rs: seq<Route>, next: seq<Route>, ms: seq<Route>, i: nat, us: seq<Route>)
    requires i < |ms| && OneAppended(rs, next, ms, i) && Appended(next, ms, i + 1, us)
    requires Unmatched(next, ms, i + 1) == Unmatched(rs, ms, i + 1)
    ensures Appended(rs, ms, i, us)
  {
    UnmatchedOne(rs, next, ms, i, us);
    forall a | i <= a < |ms| && Slot(rs, ms[a]) < |rs|
      ensures us[Slot(rs, ms[a])] == rs[Slot(rs, ms[a])].(node := Merge(rs[Slot(rs, ms[a])].node, ms[a].node))
    {
      MatchedOne(rs, next, ms, i, us, a);
    }
    forall j | 0 <= j < |rs| && (forall a | i <= a < |ms| :: Slot(rs, ms[a]) != j) ensures us[j] == rs[j] {
      UntouchedOne(rs, next, ms, i, us, j);
    }
  }

  /** The loop of Node.route. */
  method FindEqual(routes: seq<Route>, candidate: Route) returns (k: nat)
    ensures k == Slot(routes, candidate)
  {
    k := 0;
    while k < |routes| && !Equals(candidate, routes[k])
      invariant k <= |routes|
      invariant forall j | 0 <= j < k :: !Equals(candidate, routes[j])
    {
      k := k + 1;
    }
    SlotIsFirst(routes, candidate, k);
  }

  /** Node.append: each route in turn, merged into an equal one or pushed. */
  method AppendRoutes(present: seq<Route>, m: Node) returns (routes: seq<Route>)
    ensures routes == Append(present, m, 0)
    decreases m, 0
  {
    routes := present;
    for i := 0 to |m.routes|
      invariant Append(routes, m, i) == Append(present, m, 0)
    {
      var candidate := m.routes[i];
      var k := FindEqual(routes, candidate);
      AppendOne(routes, m, i, k);
      if k < |routes| {
        var node := MergeNodes(routes[k].node, candidate.node);
        routes := routes[k := routes[k].(node := node)];
      } else {
        routes := routes + [candidate];
      }
    }
  }

  method MergeNodes(n: Node, m: Node) returns (r: Node)
    ensures r == Merge(n, m)
    decreases m, 1
  {
    var routes, methods := m.routes, m.methods;
    if n.protected {
      routes := AppendRoutes(n.routes, m);
      methods := n.methods + m.methods;
    }
    r := Node(n.protected, n.forward, m.intermediate, methods, Sort(routes));
  }

  // The gateway

  lemma FirstOccurrence(a: string, x: string, c: char)
    requires c !in a
    ensures var s := a + [c] + x;
      s[|a|] == c && s[..|a|] == a && s[|a| + 1..] == x && forall i | 0 <= i < |a| :: s[i] != c
  {
  }

  lemma PartsAgree(a: string, x: string, b: string, y: string, c: char)
    requires a + [c] + x == b + [c] + y && c !in a && c !in b
    ensures a == b && x == y
  {
    FirstOccurrence(a, x, c);
    FirstOccurrence(b, y, c);
  }

  /** Namespaces without dots and components without at signs are told apart, and so are all versions. */
  lemma IdsIdentify(a: Branch, b: Branch)
    requires '.' !in a.namespace && '.' !in b.namespace && '@' !in a.component && '@' !in b.component
    ensures Id(a) == Id(b) <==> a.namespace == b.namespace && a.component == b.component && a.version == b.version
  {
    if Id(a) == Id(b) {
      var x, y := a.component + "@" + a.version, b.component + "@" + b.version;
      assert Id(a) == a.namespace + "." + x && Id(b) == b.namespace + "." + y;
      PartsAgree(a.namespace, x, b.namespace, y, '.');
      PartsAgree(a.component, a.version, b.component, b.version, '@');
    }
  }

  datatype Branch = Branch(namespace: string, component: string, version: string, node: Syntax.Node)

  function Id(b: Branch): string {
    b.namespace + "." + b.component + "@" + b.version
  }

  /** What never changes: the root directives of the annotation and the known directive families. */
  datatype Settings = Settings(root: Directives, families: set<string>)

  /** Every declared method, also one that a later declaration replaces, sees directives of known families only. */
  predicate KnownFamilies(node: Syntax.Node, stack: Directives, families: set<string>) {
    var inner := Pushed(node, stack);
    && (forall m | m in node.methods :: forall d | d in m.directives + inner :: d.family in families)
    && forall r | r in node.routes :: KnownFamilies(r.node, inner, families)
  }

  /** A method somewhere below sees this directive: its own, or one in scope. */
  ghost predicate Sees(root: Syntax.Node, outer: Directives, nodes: seq<Syntax.Node>, routes: seq<Syntax.Route>,
                       m: Syntax.Method, d: Syntax.Directive)
  {
    Descends(root, nodes, routes) && m in nodes[|routes|].methods && d in m.directives + StackAt(nodes, outer)
  }

  lemma SeesBelow(root: Syntax.Node, outer: Directives, r: Syntax.Route, nodes: seq<Syntax.Node>, routes: seq<Syntax.Route>,
                  m: Syntax.Method, d: Syntax.Directive)
    requires r in root.routes && Sees(r.node, Pushed(root, outer), nodes, routes, m, d)
    ensures Sees(root, outer, [root] + nodes, [r] + routes, m, d)
  {
    StackFromOutside([root] + nodes, outer);
    assert ([root] + nodes)[1..] == nodes;
  }

  lemma SeesFromBelow(root: Syntax.Node, outer: Directives, nodes: seq<Syntax.Node>, routes: seq<Syntax.Route>,
                      m: Syntax.Method, d: Syntax.Directive)
    requires routes != [] && Sees(root, outer, nodes, routes, m, d)
    ensures routes[0] in root.routes && Sees(routes[0].node, Pushed(root, outer), nodes[1..], routes[1..], m, d)
  {
    DescendsFrom(root, nodes, routes);
    StackFromOutside(nodes, outer);
  }

  lemma SeesHere(root: Syntax.Node, outer: Directives, m: Syntax.Method, d: Syntax.Directive)
    ensures Sees(root, outer, [root], [], m, d) <==> m in root.methods && d in m.directives + Pushed(root, outer)
  {
    assert [root][..0] == [];
    assert StackAt([root], outer) == Pushed(root, outer);
  }

  lemma {:induction false} SeenIsKnown(root: Syntax.Node, outer: Directives, families: set<string>,
                                       nodes: seq<Syntax.Node>, routes: seq<Syntax.Route>, m: Syntax.Method, d: Syntax.Directive)
    requires KnownFamilies(root, outer, families) && Sees(root, outer, nodes, routes, m, d)
    ensures d.family in families
    decreases |routes|
  {
    if routes == [] {
      assert nodes == [root];
      SeesHere(root, outer, m, d);
    } else {
      SeesFromBelow(root, outer, nodes, routes, m, d);
      SeenIsKnown(routes[0].node, Pushed(root, outer), families, nodes[1..], routes[1..], m, d);
    }
  }

  lemma {:induction false} UnknownIsSeen(root: Syntax.Node, outer: Directives, families: set<string>)
    returns (nodes: seq<Syntax.Node>, routes: seq<Syntax.Route>, m: Syntax.Method, d: Syntax.Directive)
    requires !KnownFamilies(root, outer, families)
    ensures Sees(root, outer, nodes, routes, m, d) && d.family !in families
  {
    var inner := Pushed(root, outer);
    if forall r | r in root.routes :: KnownFamilies(r.node, inner, families) {
      nodes, routes := [root], [];
      m :| m in root.methods && exists e :: e in m.directives + inner && e.family !in families;
      d :| d in m.directives + inner && d.family !in families;
      SeesHere(root, outer, m, d);
    } else {
      var r :| r in root.routes && !KnownFamilies(r.node, inner, families);
      nodes, routes, m, d := UnknownIsSeen(r.node, inner, families);
      SeesBelow(root, outer, r, nodes, routes, m, d);
      nodes, routes := [root] + nodes, [r] + routes;
    }
  }

  /** A branch fails to load exactly when some declared method sees a directive of a family that is not known. */
  lemma LoadsIff(s: Settings, b: Branch)
    ensures Load(s, b).None? <==>
            exists nodes, routes, m, d :: Sees(b.node, s.root, nodes, routes, m, d) && d.family !in s.families
  {
    if KnownFamilies(b.node, s.root, s.families) {
      forall nodes, routes, m, d | Sees(b.node, s.root, nodes, routes, m, d) ensures d.family in s.families {
        SeenIsKnown(b.node, s.root, s.families, nodes, routes, m, d);
      }
    } else {
      var nodes, routes, m, d := UnknownIsSeen(b.node, s.root, s.families);
    }
  }

  /** The tree of a branch; `None` when a directive family is not found, which is an exception. */
  function Load(s: Settings, b: Branch): Option<Node> {
    if KnownFamilies(b.node, s.root, s.families) then Some(Build(b.node, false, s.root)) else None
  }

  datatype State = State(merged: set<string>, trunk: Node)

  function Receive(s: Settings, g: State, b: Branch): State {
    if Id(b) in g.merged then g
    else
      var loaded := Load(s, b);
      State(g.merged + {Id(b)}, if loaded.Some? then Merge(g.trunk, loaded.value) else g.trunk)
  }

  function ReceiveAll(s: Settings, g: State, bs: seq<Branch>): State {
    if bs == [] then g else Receive(s, ReceiveAll(s, g, bs[..|bs| - 1]), bs[|bs| - 1])
  }

  class Gateway {
    const settings: Settings
    var merged: set<string>
    var trunk: Node

    ghost function Value(): State
      reads this
    {
      State(merged, trunk)
    }

    constructor (settings: Settings, trunk: Node)
      ensures this.settings == settings && Value() == State({}, trunk)
    {
      this.settings, merged, this.trunk := settings, {}, trunk;
    }

    /** `None` is the exception that an unknown directive family in the annotation raises. */
    static method Create(annotation: Syntax.Node, families: set<string>) returns (g: Option<Gateway>)
      ensures g.Some? <==> KnownFamilies(annotation, [], families)
      ensures g.Some? ==>
                && fresh(g.value) && g.value.settings == Settings(annotation.directives, families)
                && g.value.Value() == State({}, Build(annotation, true, []))
    {
      var context := new Context(true, []);
      var node := CreateNode(annotation, context);
      if !KnownFamilies(annotation, [], families) {
        return None;
      }
      var gateway := new Gateway(Settings(annotation.directives, families), node);
      g := Some(gateway);
    }

    method Merge(branch: Branch)
      modifies this
      ensures Value() == Receive(settings, old(Value()), branch)
    {
      var id := branch.namespace + "." + branch.component + "@" + branch.version;
      if id in merged {
        return;
      }
      merged := merged + {id};
      var context := new Context(false, settings.root);
      var node := CreateNode(branch.node, context);
      if KnownFamilies(branch.node, settings.root, settings.families) {
        trunk := MergeNodes(trunk, node);
      }
    }
  }

  /** Tree.match; the root path answers with the trunk itself. */
  function Answer(trunk: Node, fragments: seq<string>): Option<Match> {
    if fragments == [] then Some(Match(trunk, [])) else MatchNode(trunk, fragments, [])
  }

  // Merging keeps every level sorted

  lemma {:induction false} MergeKeepsSorted(n: Node, m: Node)
    requires SortedTree(n) && SortedTree(m)
    ensures SortedTree(Merge(n, m))
    decreases m, |m.routes| + 1
  {
    var rs := m.routes;
    if n.protected {
      AppendKeepsSorted(n.routes, m, 0);
      rs := Append(n.routes, m, 0);
    }
    SortSorts(rs);
    SortPermutes(rs);
    assert Merge(n, m).routes == Sort(rs);
  }

  lemma {:induction false} AppendKeepsSorted(rs: seq<Route>, m: Node, i: nat)
    requires i <= |m.routes| && SortedTree(m) && forall r | r in rs :: SortedTree(r.node)
    ensures forall r | r in Append(rs, m, i) :: SortedTree(r.node)
    decreases m, |m.routes| - i
  {
    if i < |m.routes| {
      var candidate := m.routes[i];
      var k := Slot(rs, candidate);
      assert candidate in m.routes;
      if k < |rs| {
        assert rs[k] in rs;
        MergeKeepsSorted(rs[k].node, candidate.node);
        AppendKeepsSorted(rs[k := rs[k].(node := Merge(rs[k].node, candidate.node))], m, i + 1);
      } else {
        AppendKeepsSorted(rs + [candidate], m, i + 1);
      }
    }
  }

  /** Whatever branches arrive, the trunk stays sorted at every level, so matching prefers the more specific routes. */
  lemma {:induction false} ReceivedIsSorted(s: Settings, g: State, bs: seq<Branch>)
    requires SortedTree(g.trunk)
    ensures SortedTree(ReceiveAll(s, g, bs).trunk)
  {
    if bs != [] {
      var b := bs[|bs| - 1];
      ReceivedIsSorted(s, g, bs[..|bs| - 1]);
      BuildIsSorted(b.node, false, s.root);
      MergeKeepsSorted(ReceiveAll(s, g, bs[..|bs| - 1]).trunk, Build(b.node, false, s.root));
    }
  }
}
