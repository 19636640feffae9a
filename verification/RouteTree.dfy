/** The declared resource tree, and the routing tree that is built from it. */
module Syntax {
  import opened Wrappers

  datatype Directive = Directive(family: string, name: string, value: string)

  datatype Method = Method(verb: string, endpoint: Option<string>, directives: seq<Directive>)

  /** A path is given by its fragments. */
  datatype Route = Route(path: seq<string>, node: Node)

  datatype Node = Node(protected: Option<bool>, isolated: bool, forward: Option<string>,
                       routes: seq<Route>, methods: seq<Method>, directives: seq<Directive>)
}

module RouteTree {
  import opened Wrappers
  import Syntax

  datatype Segment = Literal(fragment: string) | Variable(placeholder: Option<string>)

  datatype Method = Method(endpoint: Option<string>, directives: seq<Syntax.Directive>)

  type Methods = map<string, Method>

  datatype Route = Route(segments: seq<Segment>, node: Node)

  datatype Node = Node(protected: bool, forward: Option<string>, intermediate: bool, methods: Methods, routes: seq<Route>)

  /** The value is `None` for a segment past the end of the path. */
  datatype Parameter = Parameter(name: string, value: Option<string>)

  datatype Match = Match(node: Node, parameters: seq<Parameter>)

  function Parse(fragment: string): Segment {
    if fragment != "" && fragment[0] == ':' then Variable(Some(fragment[1..]))
    else if fragment == "*" then Variable(None)
    else Literal(fragment)
  }

  function Spelling(s: Segment): string {
    match s
    case Literal(fragment) => fragment
    case Variable(Some(name)) => ":" + name
    case Variable(None) => "*"
  }

  /** A segment is read as it is written: a colon names a variable, an asterisk is one without a name. */
  lemma ParsesSpelling(fragment: string)
    ensures Spelling(Parse(fragment)) == fragment
    ensures Parse(fragment).Variable? <==> fragment == "*" || (fragment != "" && fragment[0] == ':')
  {
  }

  // Order of routes

  function Variables(segments: seq<Segment>): nat {
    if segments == [] then 0 else (if segments[0].Variable? then 1 else 0) + Variables(segments[1..])
  }

  /** Each variable counts once, wherever it is. */
  lemma {:induction false} VariablesOfParts(a: seq<Segment>, b: seq<Segment>)
    ensures Variables(a + b) == Variables(a) + Variables(b)
    ensures forall s :: Variables([s]) == if s.Variable? then 1 else 0
  {
    if a == [] {
      assert a + b == b;
    } else {
      VariablesOfParts(a[1..], b);
      assert (a + b)[1..] == a[1..] + b;
    }
  }

  /** Fewer variables first; among equally many, more segments first. */
  predicate Before(a: Route, b: Route) {
    || Variables(a.segments) < Variables(b.segments)
    || (Variables(a.segments) == Variables(b.segments) && |a.segments| > |b.segments|)
  }

  ghost predicate Sorted(rs: seq<Route>) {
    forall i, j | 0 <= i < j < |rs| :: !Before(rs[j], rs[i])
  }

  /** After everything that does not have to come later: what a stable sort does with one more element. */
  function Insert(rs: seq<Route>, r: Route): (s: seq<Route>)
    ensures |s| == |rs| + 1
  {
    if rs == [] || !Before(r, rs[|rs| - 1]) then rs + [r]
    else
      Insert(rs[..|rs| - 1], r) + [rs[|rs| - 1]]
  }

  /** `Array.prototype.sort`, which is stable. */
  function Sort(rs: seq<Route>): (s: seq<Route>)
    ensures |s| == |rs|
  {
    if rs == [] then [] else Insert(Sort(rs[..|rs| - 1]), rs[|rs| - 1])
  }

  lemma {:induction false} InsertPermutes(rs: seq<Route>, r: Route)
    ensures multiset(Insert(rs, r)) == multiset(rs) + multiset{r}
  {
    if rs != [] && Before(r, rs[|rs| - 1]) {
      InsertPermutes(rs[..|rs| - 1], r);
      assert rs == rs[..|rs| - 1] + [rs[|rs| - 1]];
    }
  }

  /** Sorting loses no route and invents none. */
  lemma {:induction false} SortPermutes(rs: seq<Route>)
    ensures multiset(Sort(rs)) == multiset(rs)
    ensures forall r :: r in Sort(rs) <==> r in rs
  {
    if rs != [] {
      SortPermutes(rs[..|rs| - 1]);
      InsertPermutes(Sort(rs[..|rs| - 1]), rs[|rs| - 1]);
      assert rs == rs[..|rs| - 1] + [rs[|rs| - 1]];
    }
    assert forall r :: r in Sort(rs) <==> r in multiset(Sort(rs));
    assert forall r :: r in rs <==> r in multiset(rs);
  }

  lemma AppendSorts(rs: seq<Route>, last: Route)
    requires Sorted(rs) && forall i | 0 <= i < |rs| :: !Before(last, rs[i])
    ensures Sorted(rs + [last])
  {
  }

  lemma FrontIsSorted(rs: seq<Route>)
    requires Sorted(rs) && rs != []
    ensures Sorted(rs[..|rs| - 1]) && forall i | 0 <= i < |rs| :: !Before(rs[|rs| - 1], rs[i])
  {
  }

  lemma NoneBefore(rs: seq<Route>, r: Route, last: Route)
    requires !Before(last, r) && forall i | 0 <= i < |rs| :: !Before(last, rs[i])
    ensures forall i | 0 <= i < |Insert(rs, r)| :: !Before(last, Insert(rs, r)[i])
  {
    var s := Insert(rs, r);
    InsertPermutes(rs, r);
    forall i | 0 <= i < |s| ensures !Before(last, s[i]) {
      assert s[i] in multiset(rs) + multiset{r} by { assert s[i] in multiset(s); }
    }
  }

  lemma {:induction false} InsertSorts(rs: seq<Route>, r: Route)
    requires Sorted(rs)
    ensures Sorted(Insert(rs, r))
  {
    if rs == [] {
      AppendSorts(rs, r);
    } else {
      var front, last := rs[..|rs| - 1], rs[|rs| - 1];
      FrontIsSorted(rs);
      if Before(r, last) {
        InsertSorts(front, r);
        NoneBefore(front, r, last);
        AppendSorts(Insert(front, r), last);
      } else {
        AppendSorts(rs, r);
      }
    }
  }

  lemma {:induction false} SortSorts(rs: seq<Route>)
    ensures Sorted(Sort(rs))
  {
    if rs != [] {
      SortSorts(rs[..|rs| - 1]);
      InsertSorts(Sort(rs[..|rs| - 1]), rs[|rs| - 1]);
    }
  }

  lemma LastStaysLast(rs: seq<Route>)
    requires Sorted(rs) && rs != []
    ensures Sorted(rs[..|rs| - 1]) && Insert(rs[..|rs| - 1], rs[|rs| - 1]) == rs
  {
    var front, last := rs[..|rs| - 1], rs[|rs| - 1];
    FrontIsSorted(rs);
    assert front != [] ==> !Before(last, front[|front| - 1]);
    assert rs == front + [last];
  }

  /** Sorting what is sorted changes nothing: the sort is stable. */
  lemma {:induction false} SortIsStable(rs: seq<Route>)
    requires Sorted(rs)
    ensures Sort(rs) == rs
  {
    if rs != [] {
      LastStaysLast(rs);
      SortIsStable(rs[..|rs| - 1]);
    }
  }

  // Matching

  /** Every literal segment equals the fragment at its position. */
  predicate Fits(segments: seq<Segment>, fragments: seq<string>) {
    forall i | 0 <= i < |segments| && segments[i].Literal? :: i < |fragments| && fragments[i] == segments[i].fragment
  }

  /** The named variables among the first `n` segments, with the fragments at their positions. */
  function Bound(segments: seq<Segment>, fragments: seq<string>, n: nat): seq<Parameter>
    requires n <= |segments|
  {
    if n == 0 then []
    else
      Bound(segments, fragments, n - 1) +
      match segments[n - 1]
      case Variable(Some(name)) => [Parameter(name, if n <= |fragments| then Some(fragments[n - 1]) else None)]
      case _ => []
  }

  function Binding(segments: seq<Segment>, fragments: seq<string>): seq<Parameter> {
    Bound(segments, fragments, |segments|)
  }

  function Rest(fragments: seq<string>, n: nat): seq<string> {
    if n <= |fragments| then fragments[n..] else []
  }

  function MatchRoute(r: Route, fragments: seq<string>, parameters: seq<Parameter>): Option<Match>
    decreases r, 0
  {
    if !Fits(r.segments, fragments) then None
    else
      var ps := parameters + Binding(r.segments, fragments);
      if |r.segments| == |fragments| && !r.node.intermediate then Some(Match(r.node, ps))
      else MatchNode(r.node, Rest(fragments, |r.segments|), ps)
  }

  function MatchNode(n: Node, fragments: seq<string>, parameters: seq<Parameter>): Option<Match>
    decreases n, |n.routes| + 1
  {
    MatchFrom(n, 0, fragments, parameters)
  }

  function MatchFrom(n: Node, i: nat, fragments: seq<string>, parameters: seq<Parameter>): Option<Match>
    requires i <= |n.routes|
    decreases n, |n.routes| - i
  {
    if i == |n.routes| then None
    else
      var m := MatchRoute(n.routes[i], fragments, parameters);
      if m.Some? then m else MatchFrom(n, i + 1, fragments, parameters)
  }

  /** The array of parameters that the source passes around and pushes to. */
  class Parameters {
    var items: seq<Parameter>

    constructor (items: seq<Parameter>)
      ensures this.items == items
    {
      this.items := items;
    }

    method Push(p: Parameter)
      modifies this
      ensures items == old(items) + [p]
    {
      items := items + [p];
    }
  }

  /** Route.match: it pushes to the array it is given, also when it fails later on. */
  method RouteMatch(r: Route, fragments: seq<string>, parameters: Parameters) returns (m: Option<Match>)
    modifies parameters
    ensures m == MatchRoute(r, fragments, old(parameters.items))
    decreases r, 0
  {
    var i := 0;
    while i < |r.segments|
      invariant i <= |r.segments|
      invariant forall k | 0 <= k < i && r.segments[k].Literal? :: k < |fragments| && fragments[k] == r.segments[k].fragment
      invariant parameters.items == old(parameters.items) + Bound(r.segments, fragments, i)
    {
      var segment := r.segments[i];
      if segment.Literal? && !(i < |fragments| && segment.fragment == fragments[i]) {
        return None;
      }
      if segment.Variable? && segment.placeholder.Some? {
        parameters.Push(Parameter(segment.placeholder.value, if i < |fragments| then Some(fragments[i]) else None));
      }
      i := i + 1;
    }
    if |r.segments| == |fragments| && !r.node.intermediate {
      return Some(Match(r.node, parameters.items));
    }
    m := NodeMatch(r.node, Rest(fragments, |r.segments|), parameters);
  }

  /** Node.match: every route works on its own copy, so a failed branch leaves no parameters behind. */
  method NodeMatch(n: Node, fragments: seq<string>, parameters: Parameters) returns (m: Option<Match>)
    ensures m == MatchNode(n, fragments, parameters.items)
    decreases n, 1
  {
    var i := 0;
    while i < |n.routes|
      invariant i <= |n.routes|
      invariant MatchNode(n, fragments, parameters.items) == MatchFrom(n, i, fragments, parameters.items)
    {
      var params := new Parameters(parameters.items);
      m := RouteMatch(n.routes[i], fragments, params);
      if m.Some? {
        return;
      }
      i := i + 1;
    }
    m := None;
  }

  // What a match is

  /** A chain of routes from `n` downwards, each given by its index in the routes of the node before. */
  predicate IsChain(n: Node, chain: seq<nat>) {
    chain != [] ==> chain[0] < |n.routes| && IsChain(n.routes[chain[0]].node, chain[1..])
  }

  function RoutesOf(n: Node, chain: seq<nat>): (rs: seq<Route>)
    requires IsChain(n, chain)
    ensures |rs| == |chain|
  {
    if chain == [] then []
    else [n.routes[chain[0]]] + RoutesOf(n.routes[chain[0]].node, chain[1..])
  }

  /** The segments of all the routes, end to end. */
  function Segments(rs: seq<Route>): seq<Segment> {
    if rs == [] then [] else rs[0].segments + Segments(rs[1..])
  }

  /** After route `i` nothing of a path of length `n` is left, and its node answers for itself. */
  predicate Ends(rs: seq<Route>, n: nat, i: nat)
    requires i < |rs|
  {
    var before := |Segments(rs[..i])|;
    && !rs[i].node.intermediate
    && |rs[i].segments| == (if before <= n then n - before else 0)
  }

  /** The chain accounts for the whole path, position by position, and stops as soon as it can. */
  ghost predicate Accepts(rs: seq<Route>, fragments: seq<string>) {
    && rs != []
    && Fits(Segments(rs), fragments)
    && forall i | 0 <= i < |rs| :: Ends(rs, |fragments|, i) <==> i == |rs| - 1
  }

  ghost predicate Viable(n: Node, chain: seq<nat>, fragments: seq<string>) {
    IsChain(n, chain) && Accepts(RoutesOf(n, chain), fragments)
  }

  /** Depth-first order. */
  ghost predicate Earlier(a: seq<nat>, b: seq<nat>) {
    exists i | 0 <= i < |a| && i < |b| :: a[..i] == b[..i] && a[i] < b[i]
  }

  lemma FitsParts(a: seq<Segment>, b: seq<Segment>, fragments: seq<string>)
    ensures Fits(a + b, fragments) <==> Fits(a, fragments) && Fits(b, Rest(fragments, |a|))
  {
    var c, rest := a + b, Rest(fragments, |a|);
    forall i | 0 <= i < |c| ensures c[i] == if i < |a| then a[i] else b[i - |a|] {
    }
    if Fits(c, fragments) {
      forall i | 0 <= i < |a| && a[i].Literal? ensures i < |fragments| && fragments[i] == a[i].fragment {
        assert c[i] == a[i];
      }
      forall i | 0 <= i < |b| && b[i].Literal? ensures i < |rest| && rest[i] == b[i].fragment {
        assert c[|a| + i] == b[i];
      }
    }
    if Fits(a, fragments) && Fits(b, rest) {
      forall i | 0 <= i < |c| && c[i].Literal? ensures i < |fragments| && fragments[i] == c[i].fragment {
        if i >= |a| {
          assert rest[i - |a|] == fragments[i];
        }
      }
    }
  }

  lemma {:induction false} BoundParts(a: seq<Segment>, b: seq<Segment>, fragments: seq<string>, n: nat)
    requires n <= |a + b|
    ensures Bound(a + b, fragments, n) ==
            if n <= |a| then Bound(a, fragments, n)
            else Bound(a, fragments, |a|) + Bound(b, Rest(fragments, |a|), n - |a|)
  {
    if n > 0 {
      BoundParts(a, b, fragments, n - 1);
    }
  }

  lemma EndsLater(r: Route, rest: seq<Route>, n: nat, i: nat)
    requires i < |rest|
    ensures Ends([r] + rest, n, i + 1) <==> Ends(rest, if |r.segments| <= n then n - |r.segments| else 0, i)
  {
    assert ([r] + rest)[..i + 1] == [r] + rest[..i];
    assert ([r] + rest[..i])[1..] == rest[..i];
  }

  lemma AcceptsCons(r: Route, rest: seq<Route>, fragments: seq<string>)
    ensures Accepts([r] + rest, fragments) <==>
            && Fits(r.segments, fragments)
            && if |r.segments| == |fragments| && !r.node.intermediate then rest == []
               else Accepts(rest, Rest(fragments, |r.segments|))
  {
    var rs := [r] + rest;
    assert rs[1..] == rest;
    FitsParts(r.segments, Segments(rest), fragments);
    assert rs[..0] == [];
    assert Ends(rs, |fragments|, 0) <==> |r.segments| == |fragments| && !r.node.intermediate;
    forall i | 0 <= i < |rest|
      ensures Ends(rs, |fragments|, i + 1) <==> Ends(rest, |Rest(fragments, |r.segments|)|, i)
    {
      EndsLater(r, rest, |fragments|, i);
    }
    if Accepts(rs, fragments) && rest != [] {
      forall i | 0 <= i < |rest| ensures Ends(rest, |Rest(fragments, |r.segments|)|, i) <==> i == |rest| - 1 {
        assert Ends(rs, |fragments|, i + 1) <==> i + 1 == |rs| - 1;
      }
    }
    if rest != [] && Accepts(rest, Rest(fragments, |r.segments|)) {
      forall i | 0 < i < |rs| ensures Ends(rs, |fragments|, i) <==> i == |rs| - 1 {
        assert Ends(rest, |Rest(fragments, |r.segments|)|, i - 1) <==> i - 1 == |rest| - 1;
      }
    }
  }

  /** One step into a chain. */
  lemma ViableCons(n: Node, i: nat, chain: seq<nat>, fragments: seq<string>)
    requires i < |n.routes|
    ensures var r := n.routes[i];
      Viable(n, [i] + chain, fragments) <==>
      && Fits(r.segments, fragments)
      && if |r.segments| == |fragments| && !r.node.intermediate then chain == []
         else Viable(r.node, chain, Rest(fragments, |r.segments|))
  {
    var r := n.routes[i];
    assert ([i] + chain)[1..] == chain;
    if IsChain(r.node, chain) {
      AcceptsCons(r, RoutesOf(r.node, chain), fragments);
    }
  }

  /** The match that a chain stands for. */
  function Reached(n: Node, chain: seq<nat>, fragments: seq<string>, parameters: seq<Parameter>): Match
    requires IsChain(n, chain) && chain != []
  {
    var rs := RoutesOf(n, chain);
    Match(rs[|rs| - 1].node, parameters + Binding(Segments(rs), fragments))
  }

  // What a match says

  predicate Named(s: Segment) {
    s.Variable? && s.placeholder.Some?
  }

  /** The positions of all named variables, in order. */
  ghost predicate Names(segments: seq<Segment>, at: seq<nat>) {
    && (forall i, j | 0 <= i < j < |at| :: at[i] < at[j])
    && (forall j | 0 <= j < |at| :: at[j] < |segments| && Named(segments[at[j]]))
    && (forall i: nat | i < |segments| && Named(segments[i]) :: i in at)
  }

  /** One parameter for each of these variables, with the fragment at its own position, if the path is that long. */
  ghost predicate Takes(segments: seq<Segment>, fragments: seq<string>, at: seq<nat>, ps: seq<Parameter>)
    requires Names(segments, at)
  {
    && |ps| == |at|
    && forall j | 0 <= j < |at| ::
         && ps[j].name == segments[at[j]].placeholder.value
         && ps[j].value == if at[j] < |fragments| then Some(fragments[at[j]]) else None
  }

  lemma TakesNext(front: seq<Segment>, s: Segment, fragments: seq<string>, at: seq<nat>, ps: seq<Parameter>)
    returns (at': seq<nat>, ps': seq<Parameter>)
    requires Names(front, at) && Takes(front, fragments, at, ps)
    ensures Names(front + [s], at') && Takes(front + [s], fragments, at', ps')
    ensures ps' == ps + if Named(s) then [Parameter(s.placeholder.value, if |front| < |fragments| then Some(fragments[|front|]) else None)] else []
  {
    var n, all := |front|, front + [s];
    at', ps' := at, ps;
    if Named(s) {
      at', ps' := at + [n], ps + [Parameter(s.placeholder.value, if n < |fragments| then Some(fragments[n]) else None)];
      assert at'[|at|] == n;
    }
    forall i: nat | i < |all| && Named(all[i]) ensures i in at' {
      assert i < n ==> front[i] == all[i] && i in at;
    }
  }

  lemma {:induction false} BoundTakes(segments: seq<Segment>, fragments: seq<string>, n: nat) returns (at: seq<nat>)
    requires n <= |segments|
    ensures Names(segments[..n], at) && Takes(segments[..n], fragments, at, Bound(segments, fragments, n))
  {
    if n == 0 {
      at := [];
    } else {
      var front := BoundTakes(segments, fragments, n - 1);
      var ps;
      at, ps := TakesNext(segments[..n - 1], segments[n - 1], fragments, front, Bound(segments, fragments, n - 1));
      assert segments[..n] == segments[..n - 1] + [segments[n - 1]];
    }
  }

  /** The match is the node where the chain ends; to the parameters it adds one for each named variable of the chain. */
  ghost predicate Answers(n: Node, chain: seq<nat>, fragments: seq<string>, parameters: seq<Parameter>, m: Match)
    requires IsChain(n, chain)
  {
    var segments := Segments(RoutesOf(n, chain));
    && m.node == NodeAt(n, chain)
    && exists at :: Names(segments, at) && exists ps :: Takes(segments, fragments, at, ps) && m.parameters == parameters + ps
  }

  lemma {:induction false} LastIsNodeAt(n: Node, chain: seq<nat>)
    requires IsChain(n, chain) && chain != []
    ensures RoutesOf(n, chain)[|chain| - 1].node == NodeAt(n, chain)
  {
    if |chain| > 1 {
      LastIsNodeAt(n.routes[chain[0]].node, chain[1..]);
    }
  }

  lemma ReachedAnswers(n: Node, chain: seq<nat>, fragments: seq<string>, parameters: seq<Parameter>)
    requires IsChain(n, chain) && chain != []
    ensures Answers(n, chain, fragments, parameters, Reached(n, chain, fragments, parameters))
  {
    var segments := Segments(RoutesOf(n, chain));
    LastIsNodeAt(n, chain);
    var at := BoundTakes(segments, fragments, |segments|);
    assert segments[..|segments|] == segments;
    assert Takes(segments, fragments, at, Binding(segments, fragments));
  }

  /** Among the viable chains from route `k` on, `chain` is the first and yields `m`; without one there is no match. */
  ghost predicate FirstFrom(n: Node, k: nat, chain: seq<nat>, fragments: seq<string>, parameters: seq<Parameter>, m: Option<Match>) {
    if m.None? then forall c | Viable(n, c, fragments) :: c[0] < k
    else
      && Viable(n, chain, fragments) && chain[0] >= k && m.value == Reached(n, chain, fragments, parameters)
      && forall c | Viable(n, c, fragments) && c[0] >= k :: c == chain || Earlier(chain, c)
  }

  lemma EarlierCons(i: nat, a: seq<nat>, b: seq<nat>)
    requires Earlier(a, b)
    ensures Earlier([i] + a, [i] + b)
  {
    var j :| 0 <= j < |a| && j < |b| && a[..j] == b[..j] && a[j] < b[j];
    assert ([i] + a)[..j + 1] == [i] + a[..j] && ([i] + b)[..j + 1] == [i] + b[..j];
    assert ([i] + a)[j + 1] < ([i] + b)[j + 1];
  }

  lemma BindingParts(a: seq<Segment>, b: seq<Segment>, fragments: seq<string>)
    ensures Binding(a + b, fragments) == Binding(a, fragments) + Binding(b, Rest(fragments, |a|))
  {
    BoundParts(a, b, fragments, |a + b|);
    BoundParts(a, b, fragments, |a|);
  }

  lemma RoutesCons(n: Node, i: nat, tail: seq<nat>)
    requires i < |n.routes| && IsChain(n.routes[i].node, tail)
    ensures IsChain(n, [i] + tail)
    ensures var rs := RoutesOf(n.routes[i].node, tail);
      RoutesOf(n, [i] + tail) == [n.routes[i]] + rs && Segments([n.routes[i]] + rs) == n.routes[i].segments + Segments(rs)
  {
    var rs := RoutesOf(n.routes[i].node, tail);
    assert ([i] + tail)[1..] == tail;
    assert ([n.routes[i]] + rs)[1..] == rs;
  }

  /** A chain from a node, and the same chain with the route before it, stand for the same match. */
  lemma ReachedCons(n: Node, i: nat, tail: seq<nat>, fragments: seq<string>, parameters: seq<Parameter>)
    requires i < |n.routes| && IsChain(n.routes[i].node, tail)
    ensures IsChain(n, [i] + tail)
    ensures var r := n.routes[i];
      var bound := parameters + Binding(r.segments, fragments);
      Reached(n, [i] + tail, fragments, parameters) ==
      if tail == [] then Match(r.node, bound) else Reached(r.node, tail, Rest(fragments, |r.segments|), bound)
  {
    var r, rs := n.routes[i], RoutesOf(n.routes[i].node, tail);
    RoutesCons(n, i, tail);
    BindingParts(r.segments, Segments(rs), fragments);
    var own, below := Binding(r.segments, fragments), Binding(Segments(rs), Rest(fragments, |r.segments|));
    assert parameters + (own + below) == (parameters + own) + below;
  }

  /** If `tail` is the first viable chain of the route's node, it is also that of the route. */
  lemma FirstOfRoute(n: Node, i: nat, tail: seq<nat>, c: seq<nat>, fragments: seq<string>)
    requires i < |n.routes| && Viable(n, c, fragments) && c[0] == i
    requires var r := n.routes[i];
      if |r.segments| == |fragments| && !r.node.intermediate then tail == []
      else forall d | Viable(r.node, d, Rest(fragments, |r.segments|)) :: d == tail || Earlier(tail, d)
    ensures c == [i] + tail || Earlier([i] + tail, c)
  {
    assert c == [i] + c[1..];
    ViableCons(n, i, c[1..], fragments);
    if c[1..] != tail {
      EarlierCons(i, tail, c[1..]);
    }
  }

  lemma {:induction false} MatchRouteFinds(n: Node, i: nat, fragments: seq<string>, parameters: seq<Parameter>) returns (tail: seq<nat>)
    requires i < |n.routes|
    ensures var m := MatchRoute(n.routes[i], fragments, parameters);
      && (m.Some? ==> Viable(n, [i] + tail, fragments) && m.value == Reached(n, [i] + tail, fragments, parameters))
      && forall c | Viable(n, c, fragments) && c[0] == i :: m.Some? && (c == [i] + tail || Earlier([i] + tail, c))
    decreases n.routes[i], 0
  {
    var r := n.routes[i];
    var exact := |r.segments| == |fragments| && !r.node.intermediate;
    tail := [];
    if Fits(r.segments, fragments) && !exact {
      tail := MatchNodeFinds(r.node, Rest(fragments, |r.segments|), parameters + Binding(r.segments, fragments));
    }
    ViableCons(n, i, tail, fragments);
    if Viable(n, [i] + tail, fragments) {
      assert ([i] + tail)[1..] == tail;
      ReachedCons(n, i, tail, fragments, parameters);
    }
    forall c | Viable(n, c, fragments) && c[0] == i
      ensures MatchRoute(r, fragments, parameters).Some? && (c == [i] + tail || Earlier([i] + tail, c))
    {
      assert c == [i] + c[1..];
      ViableCons(n, i, c[1..], fragments);
      FirstOfRoute(n, i, tail, c, fragments);
    }
  }

  lemma {:induction false} MatchFromFinds(n: Node, k: nat, fragments: seq<string>, parameters: seq<Parameter>) returns (chain: seq<nat>)
    requires k <= |n.routes|
    ensures FirstFrom(n, k, chain, fragments, parameters, MatchFrom(n, k, fragments, parameters))
    decreases n, |n.routes| - k
  {
    if k == |n.routes| {
      chain := [];
    } else {
      var tail := MatchRouteFinds(n, k, fragments, parameters);
      if MatchRoute(n.routes[k], fragments, parameters).Some? {
        chain := [k] + tail;
        forall c | Viable(n, c, fragments) && c[0] > k ensures Earlier(chain, c) {
          assert chain[..0] == c[..0];
        }
      } else {
        chain := MatchFromFinds(n, k + 1, fragments, parameters);
      }
    }
  }

  /**
   Node.match is `null` exactly when no chain of routes is viable; otherwise it is the first viable
   chain in depth-first order, with the parameters of that chain and no others.
   */
  lemma {:induction false} MatchNodeFinds(n: Node, fragments: seq<string>, parameters: seq<Parameter>) returns (chain: seq<nat>)
    ensures var m := MatchNode(n, fragments, parameters);
      && (m.None? <==> forall c :: !Viable(n, c, fragments))
      && (m.Some? ==>
            && Viable(n, chain, fragments) && m.value == Reached(n, chain, fragments, parameters)
            && Answers(n, chain, fragments, parameters, m.value)
            && forall c | Viable(n, c, fragments) :: c == chain || Earlier(chain, c))
    decreases n, |n.routes| + 1
  {
    chain := MatchFromFinds(n, 0, fragments, parameters);
    if MatchNode(n, fragments, parameters).Some? {
      ReachedAnswers(n, chain, fragments, parameters);
    }
  }

  // Precedence

  /** What the Node constructor and merge leave behind, all the way down. */
  ghost predicate SortedTree(n: Node) {
    Sorted(n.routes) && forall r | r in n.routes :: SortedTree(r.node)
  }

  /** The node at which a chain prefix arrives. */
  function NodeAt(n: Node, chain: seq<nat>): Node
    requires IsChain(n, chain)
  {
    if chain == [] then n else NodeAt(n.routes[chain[0]].node, chain[1..])
  }

  lemma {:induction false} PrefixIsChain(n: Node, chain: seq<nat>, i: nat)
    requires IsChain(n, chain) && i < |chain|
    ensures IsChain(n, chain[..i]) && chain[i] < |NodeAt(n, chain[..i]).routes|
    ensures SortedTree(n) ==> SortedTree(NodeAt(n, chain[..i]))
  {
    if i > 0 {
      PrefixIsChain(n.routes[chain[0]].node, chain[1..], i - 1);
      assert chain[1..][..i - 1] == chain[..i][1..];
    }
  }

  /** At every node on the way, no viable sibling has fewer variables, or as many variables and more segments. */
  lemma MatchPrefersSpecific(n: Node, fragments: seq<string>, parameters: seq<Parameter>, chain: seq<nat>, other: seq<nat>, i: nat)
    requires SortedTree(n) && Viable(n, chain, fragments) && Viable(n, other, fragments)
    requires forall c | Viable(n, c, fragments) :: c == chain || Earlier(chain, c)
    requires i < |chain| && i < |other| && chain[..i] == other[..i]
    ensures IsChain(n, chain[..i])
    ensures var at := NodeAt(n, chain[..i]);
      chain[i] < |at.routes| && other[i] < |at.routes| && !Before(at.routes[other[i]], at.routes[chain[i]])
  {
    PrefixIsChain(n, chain, i);
    PrefixIsChain(n, other, i);
    assert forall t | 0 <= t < i :: chain[t] == chain[..i][t] == other[..i][t] == other[t];
    if chain != other {
      var j :| 0 <= j < |chain| && j < |other| && chain[..j] == other[..j] && chain[j] < other[j];
      if i < j {
        assert chain[..j][i] == chain[i] && other[..j][i] == other[i];
      }
    }
  }
}
