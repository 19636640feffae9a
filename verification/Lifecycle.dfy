/** A fixed graph of connectors, and every interleaving of connecting it. */
module Lifecycle {

  /** `deps[n]` are the dependencies of connector `n`, `links[n]` the dependants that it knows. */
  datatype Graph = Graph(deps: seq<set<nat>>, links: seq<set<nat>>, rank: seq<nat>)

  /** `n` depends on `d`. */
  predicate Edge(g: Graph, n: nat, d: nat) {
    n < |g.deps| && d in g.deps[n]
  }

  /** Acyclic, as the ranks witness; a link is always the back of a dependency. */
  ghost predicate WellFormed(g: Graph) {
    && |g.links| == |g.deps| == |g.rank|
    && (forall n: nat, d: nat | Edge(g, n, d) :: d < |g.deps| && g.rank[d] < g.rank[n])
    && (forall n, p | 0 <= n < |g.deps| && p in g.links[n] :: Edge(g, p, n))
  }

  /** `Off`: not connecting; `Opened`: the connecting promise has settled. */
  datatype Phase = Off | Waiting | Opening | Opened

  /** Calls are the connectors whose `connect` has been called but not entered; `opens` is the history of `open` calls. */
  datatype State = State(phase: seq<Phase>, connected: seq<bool>, calls: set<nat>, opens: seq<nat>)

  datatype Step = Enter(n: nat) | Open(n: nat) | OpenEnds(n: nat) | Settle(n: nat)

  ghost predicate Shape(g: Graph, s: State) {
    WellFormed(g) && |s.phase| == |s.connected| == |g.deps|
  }

  ghost predicate Can(g: Graph, s: State, e: Step) {
    && Shape(g, s) && e.n < |g.deps|
    && match e
       case Enter(n) => n in s.calls
       case Open(n) => s.phase[n] == Waiting && forall d: nat | Edge(g, n, d) :: s.phase[d] == Opened
       case OpenEnds(n) => s.phase[n] == Opening
       case Settle(n) => s.phase[n] == Opened && !s.connected[n]
  }

  function Take(g: Graph, s: State, e: Step): State
    requires e.n < |s.phase| == |s.connected| == |g.deps|
  {
    match e
    case Enter(n) =>
      if s.phase[n] == Off then s.(phase := s.phase[n := Waiting], calls := s.calls - {n} + g.deps[n])
      else s.(calls := s.calls - {n})
    case Open(n) => s.(phase := s.phase[n := Opening], opens := s.opens + [n])
    case OpenEnds(n) => s.(phase := s.phase[n := Opened])
    case Settle(n) => s.(connected := s.connected[n := true])
  }

  /** Between calls: some connectors are up, whatever their dependencies are, and nothing is under way. */
  ghost predicate AtRest(g: Graph, s: State) {
    && Shape(g, s)
    && (forall n | 0 <= n < |g.deps| :: s.phase[n] == (if s.connected[n] then Opened else Off))
  }

  /** Whatever is connected has all its dependencies connected. */
  ghost predicate Supported(g: Graph, s: State)
    requires Shape(g, s)
  {
    forall n: nat, d: nat | Edge(g, n, d) && s.connected[n] :: s.connected[d]
  }

  /** What happens after `connect` of one connector is called. */
  ghost predicate Run(g: Graph, root: nat, ss: seq<State>, es: seq<Step>) {
    && |ss| == |es| + 1 && root < |g.deps|
    && AtRest(g, ss[0]) && ss[0].calls == {root} && ss[0].opens == []
    && forall i | 0 <= i < |es| :: Can(g, ss[i], es[i]) && ss[i + 1] == Take(g, ss[i], es[i])
  }

  /** Reachable over dependencies, in at most `k` steps. */
  ghost predicate ReachableIn(g: Graph, root: nat, n: nat, k: nat)
    decreases k
  {
    n == root || (k > 0 && exists p: nat | p < |g.deps| :: Edge(g, p, n) && ReachableIn(g, root, p, k - 1))
  }

  ghost predicate Reachable(g: Graph, root: nat, n: nat) {
    exists k: nat :: ReachableIn(g, root, n, k)
  }

  /** Reachable from the root through connectors that are not connected, itself among them. */
  ghost predicate DownIn(g: Graph, s: State, root: nat, n: nat, k: nat)
    requires Shape(g, s)
    decreases k
  {
    && n < |g.deps| && !s.connected[n]
    && (n == root || (k > 0 && exists p: nat :: Edge(g, p, n) && DownIn(g, s, root, p, k - 1)))
  }

  ghost predicate Down(g: Graph, s: State, root: nat, n: nat)
    requires Shape(g, s)
  {
    exists k: nat :: DownIn(g, s, root, n, k)
  }

  // The invariant

  /** Called by the caller, or by a connector that connects. */
  ghost predicate Callable(g: Graph, root: nat, start: State, n: nat)
    requires Shape(g, start)
  {
    n < |g.deps| && (n == root || exists p: nat :: Edge(g, p, n) && Down(g, start, root, p))
  }

  /** Only what is reachable through unconnected connectors is called or moved; what was up stays up. */
  ghost predicate Contained(g: Graph, root: nat, start: State, s: State)
    requires Shape(g, s) && Shape(g, start)
  {
    && (forall n | n in s.calls :: Callable(g, root, start, n))
    && (forall n | 0 <= n < |g.deps| && s.phase[n] != Off && start.phase[n] == Off :: Down(g, start, root, n))
    && (forall n | 0 <= n < |g.deps| && start.phase[n] == Opened :: s.phase[n] == Opened && s.connected[n])
    && (forall n | 0 <= n < |g.deps| && s.connected[n] :: s.phase[n] == Opened)
  }

  /** What connects calls its dependencies first and opens after they have opened. */
  ghost predicate Ordered(g: Graph, root: nat, start: State, s: State)
    requires Shape(g, s) && Shape(g, start) && root < |g.deps|
  {
    && (s.phase[root] == Off ==> root in s.calls)
    && (forall n: nat, d: nat | Edge(g, n, d) && start.phase[n] == Off && s.phase[n] != Off ::
          d in s.calls || s.phase[d] != Off)
    && (forall n: nat, d: nat | Edge(g, n, d) && start.phase[n] == Off && (s.phase[n] == Opening || s.phase[n] == Opened) ::
          s.phase[d] == Opened)
  }

  /** The history lists exactly the connectors that have got as far as `open`, each once. */
  ghost predicate Recorded(g: Graph, start: State, s: State)
    requires Shape(g, s) && Shape(g, start)
  {
    && (forall i | 0 <= i < |s.opens| :: s.opens[i] < |g.deps|)
    && (forall i, j | 0 <= i < j < |s.opens| :: s.opens[i] != s.opens[j])
    && (forall n | 0 <= n < |g.deps| ::
          n in s.opens <==> start.phase[n] == Off && (s.phase[n] == Opening || s.phase[n] == Opened))
  }

  ghost predicate Inv(g: Graph, root: nat, start: State, s: State) {
    && root < |g.deps| && AtRest(g, start) && Shape(g, s)
    && Contained(g, root, start, s) && Ordered(g, root, start, s) && Recorded(g, start, s)
  }

  lemma CallableIsDown(g: Graph, root: nat, start: State, n: nat)
    requires Shape(g, start) && Callable(g, root, start, n) && !start.connected[n]
    ensures Down(g, start, root, n)
  {
    if n == root {
      assert DownIn(g, start, root, n, 0);
    } else {
      var p: nat :| Edge(g, p, n) && Down(g, start, root, p);
      var k: nat :| DownIn(g, start, root, p, k);
      assert DownIn(g, start, root, n, k + 1);
    }
  }

  lemma KeepsContained(g: Graph, root: nat, start: State, s: State, e: Step)
    requires AtRest(g, start) && Shape(g, s) && Contained(g, root, start, s) && Can(g, s, e)
    ensures Contained(g, root, start, Take(g, s, e))
  {
    if e.Enter? && s.phase[e.n] == Off {
      CallableIsDown(g, root, start, e.n);
      forall d: nat | Edge(g, e.n, d) ensures Callable(g, root, start, d) {
      }
    }
  }

  lemma KeepsOrdered(g: Graph, root: nat, start: State, s: State, e: Step)
    requires Shape(g, s) && Shape(g, start) && root < |g.deps| && Ordered(g, root, start, s) && Can(g, s, e)
    ensures Ordered(g, root, start, Take(g, s, e))
  {
  }

  lemma KeepsRecorded(g: Graph, root: nat, start: State, s: State, e: Step)
    requires AtRest(g, start) && Shape(g, s) && Contained(g, root, start, s) && Recorded(g, start, s) && Can(g, s, e)
    ensures Recorded(g, start, Take(g, s, e))
  {
    var t := Take(g, s, e);
    if e.Open? {
      assert e.n !in s.opens;
      assert forall n :: n in t.opens <==> n in s.opens || n == e.n;
    }
  }

  lemma {:induction false} RunsKeep(g: Graph, root: nat, ss: seq<State>, es: seq<Step>, i: nat)
    requires Run(g, root, ss, es) && i < |ss|
    ensures Inv(g, root, ss[0], ss[i])
  {
    if i > 0 {
      RunsKeep(g, root, ss, es, i - 1);
      KeepsContained(g, root, ss[0], ss[i - 1], es[i - 1]);
      KeepsOrdered(g, root, ss[0], ss[i - 1], es[i - 1]);
      KeepsRecorded(g, root, ss[0], ss[i - 1], es[i - 1]);
    }
  }

  lemma {:induction false} OpensGrow(g: Graph, root: nat, ss: seq<State>, es: seq<Step>, i: nat, j: nat)
    requires Run(g, root, ss, es) && i <= j < |ss|
    ensures ss[i].opens <= ss[j].opens
    decreases j
  {
    if i < j {
      OpensGrow(g, root, ss, es, i, j - 1);
    }
  }

  /**
   In every interleaving a connector is opened at most once, only if it is reachable through connectors that
   were not connected, and only after `open` of each of its dependencies has finished.
   */
  lemma OpensInOrder(g: Graph, root: nat, ss: seq<State>, es: seq<Step>, i: nat)
    requires Run(g, root, ss, es) && i < |es| && es[i].Open?
    ensures Down(g, ss[0], root, es[i].n)
    ensures forall d: nat | Edge(g, es[i].n, d) :: d < |ss[i].phase| && ss[i].phase[d] == Opened
    ensures forall j | 0 <= j < i :: es[j] != es[i]
  {
    RunsKeep(g, root, ss, es, i);
    forall j | 0 <= j < i && es[j].Open? ensures es[j].n in ss[i].opens {
      OpensGrow(g, root, ss, es, j + 1, i);
      assert ss[j + 1].opens == ss[j].opens + [es[j].n];
      assert ss[i].opens[|ss[j].opens|] == es[j].n;
    }
  }

  // The end of a run

  ghost predicate Done(g: Graph, s: State) {
    forall e :: !Can(g, s, e)
  }

  /** A connector of the lowest rank among those that wait can open. */
  lemma {:induction false} SomeoneMoves(g: Graph, root: nat, start: State, s: State, n: nat)
    requires Inv(g, root, start, s) && s.calls == {}
    requires n < |g.deps| && s.phase[n] == Waiting
    ensures exists e :: Can(g, s, e)
    decreases g.rank[n]
  {
    if forall d: nat | Edge(g, n, d) :: s.phase[d] == Opened {
      assert Can(g, s, Open(n));
    } else {
      var d: nat :| Edge(g, n, d) && s.phase[d] != Opened;
      if s.phase[d] == Waiting {
        SomeoneMoves(g, root, start, s, d);
      } else {
        assert Can(g, s, OpenEnds(d));
      }
    }
  }

  lemma {:induction false} DownIsUp(g: Graph, root: nat, start: State, s: State, n: nat, k: nat)
    requires Inv(g, root, start, s) && s.calls == {} && DownIn(g, start, root, n, k)
    ensures s.phase[n] != Off
    decreases k
  {
    if n != root {
      var p: nat :| Edge(g, p, n) && DownIn(g, start, root, p, k - 1);
      DownIsUp(g, root, start, s, p, k - 1);
    }
  }

  lemma DoneIsAtRest(g: Graph, root: nat, start: State, s: State)
    requires Inv(g, root, start, s) && Done(g, s)
    ensures s.calls == {} && AtRest(g, s)
  {
    if n :| n in s.calls {
      assert Can(g, s, Enter(n));
    }
    forall n | 0 <= n < |g.deps| ensures s.phase[n] == (if s.connected[n] then Opened else Off) {
      match s.phase[n]
      case Off =>
      case Waiting => SomeoneMoves(g, root, start, s, n);
      case Opening => assert Can(g, s, OpenEnds(n));
      case Opened => assert !Can(g, s, Settle(n));
    }
  }

  /**
   A run that cannot go on is at rest; it has opened and connected exactly what was reachable through connectors
   that were not connected, and what was connected still is.
   */
  lemma ConnectOpens(g: Graph, root: nat, ss: seq<State>, es: seq<Step>, n: nat)
    requires Run(g, root, ss, es) && Done(g, ss[|es|]) && n < |g.deps|
    ensures AtRest(g, ss[|es|])
    ensures n in ss[|es|].opens <==> Down(g, ss[0], root, n)
    ensures ss[|es|].connected[n] <==> ss[0].connected[n] || Down(g, ss[0], root, n)
  {
    var s := ss[|es|];
    RunsKeep(g, root, ss, es, |es|);
    DoneIsAtRest(g, root, ss[0], s);
    if Down(g, ss[0], root, n) {
      var k: nat :| DownIn(g, ss[0], root, n, k);
      DownIsUp(g, root, ss[0], s, n, k);
    }
  }

  /**
   Everything reachable ends up connected exactly when nothing unconnected is reachable through connected
   connectors alone.
   */
  lemma ConnectConnects(g: Graph, root: nat, ss: seq<State>, es: seq<Step>)
    requires Run(g, root, ss, es) && Done(g, ss[|es|])
    ensures |ss[0].connected| == |ss[|es|].connected| == |g.deps|
    ensures (forall n | 0 <= n < |g.deps| && Reachable(g, root, n) :: ss[|es|].connected[n]) <==>
            (forall n | 0 <= n < |g.deps| && Reachable(g, root, n) && !ss[0].connected[n] :: Down(g, ss[0], root, n))
  {
    RunsKeep(g, root, ss, es, |es|);
    forall n: nat | n < |g.deps|
      ensures ss[|es|].connected[n] <==> ss[0].connected[n] || Down(g, ss[0], root, n)
    {
      ConnectOpens(g, root, ss, es, n);
    }
  }

  lemma {:induction false} ReachableIsDown(g: Graph, s: State, root: nat, n: nat, k: nat)
    requires Shape(g, s) && Supported(g, s) && n < |g.deps| && !s.connected[n] && ReachableIn(g, root, n, k)
    ensures DownIn(g, s, root, n, k)
    decreases k
  {
    if n != root {
      var p: nat :| p < |g.deps| && Edge(g, p, n) && ReachableIn(g, root, p, k - 1);
      ReachableIsDown(g, s, root, p, k - 1);
    }
  }

  /** From a rest state in which the connected are supported, everything reachable is connected, and supported. */
  lemma SupportedConnects(g: Graph, root: nat, ss: seq<State>, es: seq<Step>)
    requires Run(g, root, ss, es) && Done(g, ss[|es|]) && Supported(g, ss[0])
    ensures Shape(g, ss[|es|]) && Supported(g, ss[|es|])
    ensures forall n | 0 <= n < |g.deps| && Reachable(g, root, n) :: ss[|es|].connected[n]
  {
    forall n | 0 <= n < |g.deps| && Reachable(g, root, n) && !ss[0].connected[n] ensures Down(g, ss[0], root, n) {
      var k: nat :| ReachableIn(g, root, n, k);
      ReachableIsDown(g, ss[0], root, n, k);
    }
    ConnectConnects(g, root, ss, es);
    RunsKeep(g, root, ss, es, |es|);
    DoneIsAtRest(g, root, ss[0], ss[|es|]);
  }

  // Runs end

  function Sum(ws: seq<nat>): nat {
    if ws == [] then 0 else Sum(ws[..|ws| - 1]) + ws[|ws| - 1]
  }

  lemma {:induction false} SumChanged(ws: seq<nat>, us: seq<nat>, n: nat)
    requires |ws| == |us| && n < |ws| && forall i | 0 <= i < |ws| && i != n :: ws[i] == us[i]
    ensures Sum(us) + ws[n] == Sum(ws) + us[n]
  {
    var last := |ws| - 1;
    if n < last {
      SumChanged(ws[..last], us[..last], n);
    } else {
      assert ws[..last] == us[..last];
    }
  }

  /** More than the steps that a connector has before it, together with the calls that it will make. */
  function Weight(g: Graph, s: State, n: nat): nat
    requires n < |g.deps| && n < |s.phase| && n < |s.connected|
  {
    match s.phase[n]
    case Off => 4 + |g.deps[n]|
    case Waiting => 3
    case Opening => 2
    case Opened => if s.connected[n] then 0 else 1
  }

  function Weights(g: Graph, s: State): (ws: seq<nat>)
    requires |s.phase| == |s.connected| == |g.deps|
    ensures |ws| == |g.deps| && forall n | 0 <= n < |g.deps| :: ws[n] == Weight(g, s, n)
  {
    seq(|g.deps|, n requires 0 <= n < |g.deps| => Weight(g, s, n))
  }

  /** A bound on the steps that are left. */
  function Ahead(g: Graph, s: State): nat
    requires |s.phase| == |s.connected| == |g.deps|
  {
    Sum(Weights(g, s)) + |s.calls|
  }

  lemma StepGoesAhead(g: Graph, s: State, e: Step)
    requires Can(g, s, e)
    ensures var t := Take(g, s, e); |t.phase| == |t.connected| == |g.deps| && Ahead(g, t) < Ahead(g, s)
  {
    var t := Take(g, s, e);
    SumChanged(Weights(g, s), Weights(g, t), e.n);
  }

  /** Every run is finite: it has no more steps than the graph and the state at its start allow. */
  lemma {:induction false} RunsEnd(g: Graph, root: nat, ss: seq<State>, es: seq<Step>, i: nat)
    requires Run(g, root, ss, es) && i < |ss|
    ensures Shape(g, ss[0]) && Shape(g, ss[i]) && i + Ahead(g, ss[i]) <= Ahead(g, ss[0])
  {
    if i > 0 {
      RunsEnd(g, root, ss, es, i - 1);
      StepGoesAhead(g, ss[i - 1], es[i - 1]);
    }
  }
}
