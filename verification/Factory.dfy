/** Building the routing tree from the declared one, with directives scoped by a mutable stack. */
module Factory {
  import opened Wrappers
  import Syntax
  import opened RouteTree

  type Directives = seq<Syntax.Directive>

  /** The stack while the inside of a node is being built. */
  function Pushed(node: Syntax.Node, stack: Directives): Directives {
    if node.isolated then node.directives else node.directives + stack
  }

  function ParsePath(path: seq<string>): (s: seq<Segment>)
    ensures |s| == |path|
  {
    seq(|path|, i requires 0 <= i < |path| => Parse(path[i]))
  }

  function Construct(routes: seq<Route>, methods: Methods, protected: bool, forward: Option<string>): Node {
    Node(protected, forward, exists r :: r in routes && r.segments == [], methods, Sort(routes))
  }

  /** The methods by verb; a later declaration replaces an earlier one. */
  function BuildMethods(methods: seq<Syntax.Method>, stack: Directives): Methods {
    if methods == [] then map[]
    else
      var m := methods[|methods| - 1];
      BuildMethods(methods[..|methods| - 1], stack)[m.verb := Method(m.endpoint, m.directives + stack)]
  }

  function Build(node: Syntax.Node, protected: bool, stack: Directives): Node
    decreases node, 1
  {
    var inner := Pushed(node, stack);
    Construct(BuildRoutes(node, protected, inner), BuildMethods(node.methods, inner),
              node.protected.GetOr(protected), node.forward)
  }

  function BuildRoute(route: Syntax.Route, protected: bool, stack: Directives): Route
    decreases route, 0
  {
    Route(ParsePath(route.path), Build(route.node, protected, stack))
  }

  function BuildRoutes(node: Syntax.Node, protected: bool, stack: Directives): (rs: seq<Route>)
    ensures |rs| == |node.routes|
    decreases node, 0
  {
    seq(|node.routes|, i requires 0 <= i < |node.routes| => BuildRoute(node.routes[i], protected, stack))
  }

  /** What the factory functions share and mutate. */
  class Context {
    const protected: bool
    var stack: Directives

    constructor (protected: bool, stack: Directives)
      ensures this.protected == protected && this.stack == stack
    {
      this.protected, this.stack := protected, stack;
    }
  }

  /** It leaves the stack as its own node sees it; restoring is up to the route that descended. */
  method CreateNode(node: Syntax.Node, context: Context) returns (n: Node)
    modifies context
    ensures n == Build(node, context.protected, old(context.stack))
    ensures context.stack == Pushed(node, old(context.stack))
    decreases node, 0
  {
    context.stack := if node.isolated then node.directives else node.directives + context.stack;
    var routes := [];
    for i := 0 to |node.routes|
      invariant context.stack == Pushed(node, old(context.stack))
      invariant routes == BuildRoutes(node, context.protected, context.stack)[..i]
    {
      var route := CreateRoute(node.routes[i], context);
      routes := routes + [route];
    }
    assert routes == BuildRoutes(node, context.protected, context.stack);
    var methods: Methods := map[];
    for i := 0 to |node.methods|
      invariant methods == BuildMethods(node.methods[..i], context.stack)
    {
      var m := node.methods[i];
      assert node.methods[..i + 1][..i] == node.methods[..i];
      methods := methods[m.verb := Method(m.endpoint, m.directives + context.stack)];
    }
    assert node.methods[..|node.methods|] == node.methods;
    n := Construct(routes, methods, node.protected.GetOr(context.protected), node.forward);
  }

  method CreateRoute(route: Syntax.Route, context: Context) returns (r: Route)
    modifies context
    ensures r == BuildRoute(route, context.protected, old(context.stack))
    ensures context.stack == old(context.stack)
    decreases route, 0
  {
    var stack := context.stack;
    var node := CreateNode(route.node, context);
    context.stack := stack;
    r := Route(ParsePath(route.path), node);
  }

  lemma {:induction false} MethodVerbs(methods: seq<Syntax.Method>, stack: Directives)
    ensures forall verb :: verb in BuildMethods(methods, stack) <==> exists i :: 0 <= i < |methods| && methods[i].verb == verb
  {
    if methods != [] {
      var front := methods[..|methods| - 1];
      MethodVerbs(front, stack);
      assert forall i | 0 <= i < |front| :: front[i] == methods[i];
      assert methods[|methods| - 1].verb in BuildMethods(methods, stack);
    }
  }

  /**
   A node as it is declared: its forward, the verbs of its methods, its routes and no others, protected as it says or
   else as its tree is, and answering through a root route exactly if it has one.
   */
  lemma NodeIsDeclared(node: Syntax.Node, protected: bool, stack: Directives)
    ensures var n := Build(node, protected, stack);
      && n.forward == node.forward && n.protected == (if node.protected.Some? then node.protected.value else protected)
      && (n.intermediate <==> exists i :: 0 <= i < |node.routes| && node.routes[i].path == [])
      && (forall verb :: verb in n.methods <==> exists i :: 0 <= i < |node.methods| && node.methods[i].verb == verb)
      && multiset(n.routes) == multiset(BuildRoutes(node, protected, Pushed(node, stack)))
  {
    var built := BuildRoutes(node, protected, Pushed(node, stack));
    SortPermutes(built);
    MethodVerbs(node.methods, Pushed(node, stack));
    forall i | 0 <= i < |built| ensures built[i] in built && (built[i].segments == [] <==> node.routes[i].path == []) {
      assert built[i] == BuildRoute(node.routes[i], protected, Pushed(node, stack));
    }
  }

  // The scoping rule, stated without a stack

  /** The directives of nested nodes, outermost first, read from the innermost outwards. */
  function InnermostFirst(nodes: seq<Syntax.Node>): Directives {
    if nodes == [] then [] else nodes[|nodes| - 1].directives + InnermostFirst(nodes[..|nodes| - 1])
  }

  /** What a method inside these nodes sees of them: up to and including the nearest isolated one. */
  ghost predicate InScope(nodes: seq<Syntax.Node>, outer: Directives, visible: Directives) {
    || (exists cut: nat :: CutAt(nodes, cut) && visible == InnermostFirst(nodes[cut..]))
    || ((forall n <- nodes :: !n.isolated) && visible == InnermostFirst(nodes) + outer)
  }

  /** The nodes on the way down, outermost first. */
  ghost predicate Descends(root: Syntax.Node, nodes: seq<Syntax.Node>, routes: seq<Syntax.Route>) {
    && |nodes| == |routes| + 1 && nodes[0] == root
    && forall i | 0 <= i < |routes| :: routes[i] in nodes[i].routes && nodes[i + 1] == routes[i].node
  }

  /** The built node that the same way leads to in the routing tree. */
  ghost predicate Leads(from: Node, routes: seq<Syntax.Route>, to: Node) {
    if routes == [] then to == from
    else exists r | r in from.routes :: r.segments == ParsePath(routes[0].path) && Leads(r.node, routes[1..], to)
  }

  function StackAt(nodes: seq<Syntax.Node>, outer: Directives): Directives {
    if nodes == [] then outer
    else Pushed(nodes[|nodes| - 1], StackAt(nodes[..|nodes| - 1], outer))
  }

  /** `cut` is the nearest isolated node. */
  ghost predicate CutAt(nodes: seq<Syntax.Node>, cut: nat) {
    cut < |nodes| && nodes[cut].isolated && forall i | cut < i < |nodes| :: !nodes[i].isolated
  }

  lemma ScopeFromHere(front: seq<Syntax.Node>, last: Syntax.Node, outer: Directives)
    requires last.isolated
    ensures InScope(front + [last], outer, last.directives)
  {
    var nodes, cut := front + [last], |front|;
    assert nodes[cut..] == [last];
    assert InnermostFirst([last]) == last.directives + InnermostFirst([]);
    assert CutAt(nodes, cut);
  }

  lemma InnermostNext(front: seq<Syntax.Node>, last: Syntax.Node)
    ensures InnermostFirst(front + [last]) == last.directives + InnermostFirst(front)
  {
    assert (front + [last])[..|front|] == front;
  }

  lemma ScopeFromCut(front: seq<Syntax.Node>, last: Syntax.Node, outer: Directives, visible: Directives, cut: nat)
    requires !last.isolated && CutAt(front, cut) && visible == InnermostFirst(front[cut..])
    ensures InScope(front + [last], outer, last.directives + visible)
  {
    var nodes := front + [last];
    InnermostNext(front[cut..], last);
    assert nodes[cut..] == front[cut..] + [last];
    assert CutAt(nodes, cut);
  }

  lemma ScopeFromOutside(front: seq<Syntax.Node>, last: Syntax.Node, outer: Directives)
    requires !last.isolated && forall n <- front :: !n.isolated
    ensures InScope(front + [last], outer, last.directives + (InnermostFirst(front) + outer))
  {
    InnermostNext(front, last);
    assert last.directives + (InnermostFirst(front) + outer) == InnermostFirst(front + [last]) + outer;
    assert forall n <- front + [last] :: n in front || n == last;
  }

  lemma {:induction false} StackIsScope(nodes: seq<Syntax.Node>, outer: Directives)
    ensures InScope(nodes, outer, StackAt(nodes, outer))
  {
    if nodes != [] {
      var front, last := nodes[..|nodes| - 1], nodes[|nodes| - 1];
      StackIsScope(front, outer);
      assert nodes == front + [last];
      if last.isolated {
        ScopeFromHere(front, last, outer);
      } else if cut: nat :| CutAt(front, cut) && StackAt(front, outer) == InnermostFirst(front[cut..]) {
        ScopeFromCut(front, last, outer, StackAt(front, outer), cut);
      } else {
        ScopeFromOutside(front, last, outer);
      }
    }
  }

  lemma {:induction false} StackFromOutside(nodes: seq<Syntax.Node>, outer: Directives)
    requires nodes != []
    ensures StackAt(nodes, outer) == StackAt(nodes[1..], Pushed(nodes[0], outer))
  {
    if |nodes| > 1 {
      StackFromOutside(nodes[..|nodes| - 1], outer);
      assert nodes[..|nodes| - 1][1..] == nodes[1..][..|nodes[1..]| - 1];
    }
  }

  /** Every declared route of a node is among the built ones. */
  lemma RouteIsBuilt(root: Syntax.Node, protected: bool, outer: Directives, route: Syntax.Route)
    requires route in root.routes
    ensures BuildRoute(route, protected, Pushed(root, outer)) in Build(root, protected, outer).routes
  {
    var inner := Pushed(root, outer);
    var built := BuildRoutes(root, protected, inner);
    var i :| 0 <= i < |root.routes| && root.routes[i] == route;
    assert built[i] == BuildRoute(route, protected, inner);
    SortPermutes(built);
  }

  lemma LeadsThrough(from: Node, r: Route, routes: seq<Syntax.Route>, to: Node)
    requires routes != [] && r in from.routes && r.segments == ParsePath(routes[0].path) && Leads(r.node, routes[1..], to)
    ensures Leads(from, routes, to)
  {
  }

  lemma DescendsFrom(root: Syntax.Node, nodes: seq<Syntax.Node>, routes: seq<Syntax.Route>)
    requires Descends(root, nodes, routes) && routes != []
    ensures Descends(routes[0].node, nodes[1..], routes[1..]) && routes[0] in root.routes
    ensures nodes[1..][|routes[1..]|] == nodes[|routes|]
  {
  }

  lemma StackBelow(nodes: seq<Syntax.Node>, outer: Directives, n: nat)
    requires 0 < n <= |nodes|
    ensures StackAt(nodes[..n], outer) == StackAt(nodes[1..][..n - 1], Pushed(nodes[0], outer))
  {
    StackFromOutside(nodes[..n], outer);
    assert nodes[..n][1..] == nodes[1..][..n - 1];
  }

  /** Every way down the declared tree leads to the node built with the stack of exactly that way. */
  lemma {:induction false} BuildFollowsTheWay(root: Syntax.Node, protected: bool, outer: Directives,
                                              nodes: seq<Syntax.Node>, routes: seq<Syntax.Route>)
    requires Descends(root, nodes, routes)
    ensures Leads(Build(root, protected, outer), routes,
                  Build(nodes[|routes|], protected, StackAt(nodes[..|routes|], outer)))
    decreases |routes|
  {
    if routes != [] {
      var inner := Pushed(root, outer);
      DescendsFrom(root, nodes, routes);
      BuildFollowsTheWay(routes[0].node, protected, inner, nodes[1..], routes[1..]);
      StackBelow(nodes, outer, |routes|);
      RouteIsBuilt(root, protected, outer, routes[0]);
      LeadsThrough(Build(root, protected, outer), BuildRoute(routes[0], protected, inner), routes,
                   Build(nodes[|routes|], protected, StackAt(nodes[..|routes|], outer)));
    }
  }

  /**
   Scoping: the method that a way down the declared tree leads to gets its own directives, then those of
   the enclosing nodes from the innermost outwards, cut at the nearest isolated node; nothing of any sibling.
   */
  lemma DirectivesAreScoped(root: Syntax.Node, protected: bool, outer: Directives,
                            nodes: seq<Syntax.Node>, routes: seq<Syntax.Route>, k: nat) returns (to: Node, visible: Directives)
    requires Descends(root, nodes, routes)
    requires k < |nodes[|routes|].methods|
    requires var ms := nodes[|routes|].methods; forall j | k < j < |ms| :: ms[j].verb != ms[k].verb
    ensures Leads(Build(root, protected, outer), routes, to)
    ensures InScope(nodes, outer, visible)
    ensures var m := nodes[|routes|].methods[k];
      m.verb in to.methods && to.methods[m.verb] == Method(m.endpoint, m.directives + visible)
  {
    var inmost := nodes[|routes|];
    visible := StackAt(nodes, outer);
    to := Build(inmost, protected, StackAt(nodes[..|routes|], outer));
    BuildFollowsTheWay(root, protected, outer, nodes, routes);
    StackIsScope(nodes, outer);
    LastMethodWins(inmost.methods, visible, k);
  }

  lemma {:induction false} LastMethodWins(methods: seq<Syntax.Method>, stack: Directives, k: nat)
    requires k < |methods| && forall j | k < j < |methods| :: methods[j].verb != methods[k].verb
    ensures var m := methods[k];
      m.verb in BuildMethods(methods, stack) && BuildMethods(methods, stack)[m.verb] == Method(m.endpoint, m.directives + stack)
  {
    if k < |methods| - 1 {
      LastMethodWins(methods[..|methods| - 1], stack, k);
    }
  }

  /** The constructor sorts, at every level. */
  lemma {:induction false} BuildIsSorted(node: Syntax.Node, protected: bool, stack: Directives)
    ensures SortedTree(Build(node, protected, stack))
    decreases node
  {
    var inner := Pushed(node, stack);
    forall i | 0 <= i < |node.routes| ensures SortedTree(BuildRoute(node.routes[i], protected, inner).node) {
      BuildIsSorted(node.routes[i].node, protected, inner);
    }
    SortKeepsSortedTrees(BuildRoutes(node, protected, inner));
  }

  lemma SortKeepsSortedTrees(rs: seq<Route>)
    requires forall i | 0 <= i < |rs| :: SortedTree(rs[i].node)
    ensures Sorted(Sort(rs)) && forall r | r in Sort(rs) :: SortedTree(r.node)
  {
    SortSorts(rs);
    SortPermutes(rs);
  }
}
