/** Every interleaving of disconnecting a fixed graph of connectors. */
module Teardown {
  import opened Lifecycle

  /** `Up`: not disconnecting; `Closed`: `close` has finished; `Disposed`: the disconnecting promise has settled. */
  datatype Stage = Up | Closing | Closed | Disposed

  /** A call (p, d) is p's call of d's `disconnect`: not entered, waiting for d's promise, or returned at once. */
  datatype Down = Down(stage: seq<Stage>, connected: seq<bool>,
                       pending: set<(nat, nat)>, joined: set<(nat, nat)>, returned: set<(nat, nat)>)

  datatype Move = Request(n: nat) | Invoke(p: nat, d: nat) | CloseEnds(n: nat) | Dispose(n: nat)

  ghost predicate Fits(g: Graph, s: Down) {
    WellFormed(g) && |s.stage| == |s.connected| == |g.deps|
  }

  /** Some dependant that this connector knows of is connected. */
  predicate Linked(g: Graph, s: Down, n: nat)
    requires n < |g.links|
  {
    exists l | l in g.links[n] :: l < |s.connected| && s.connected[l]
  }

  function Calls(g: Graph, p: nat): set<(nat, nat)>
    requires p < |g.deps|
  {
    set d | d in g.deps[p] :: (p, d)
  }

  ghost predicate CanMove(g: Graph, s: Down, m: Move) {
    && Fits(g, s)
    && match m
       case Request(n) => n < |g.deps|
       case Invoke(p, d) => d < |g.deps| && (p, d) in s.pending
       case CloseEnds(n) => n < |g.deps| && s.stage[n] == Closing
       case Dispose(n) =>
         && n < |g.deps| && s.stage[n] == Closed
         && forall d: nat | Edge(g, n, d) :: (n, d) in s.returned || ((n, d) in s.joined && s.stage[d] == Disposed)
  }

  /** The entry of `disconnect`: join the promise there is, yield to a connected dependant, or begin. */
  function Begin(g: Graph, s: Down, n: nat): Down
    requires n < |s.stage| == |s.connected| == |g.links|
  {
    if s.stage[n] != Up || Linked(g, s, n) then s
    else s.(stage := s.stage[n := Closing], connected := s.connected[n := false])
  }

  function Moved(g: Graph, s: Down, m: Move): Down
    requires |s.stage| == |s.connected| == |g.links| == |g.deps|
    requires if m.Invoke? then m.d < |g.deps| else m.n < |g.deps|
  {
    match m
    case Request(n) => Begin(g, s, n)
    case Invoke(p, d) =>
      var t := Begin(g, s, d);
      if t.stage[d] == Up then t.(pending := s.pending - {(p, d)}, returned := s.returned + {(p, d)})
      else t.(pending := s.pending - {(p, d)}, joined := s.joined + {(p, d)})
    case CloseEnds(n) => s.(stage := s.stage[n := Closed], pending := s.pending + Calls(g, n))
    case Dispose(n) => s.(stage := s.stage[n := Disposed])
  }

  /** A session of disconnects: it starts with none of them under way, whatever is connected. */
  ghost predicate Session(g: Graph, ss: seq<Down>, ms: seq<Move>) {
    && |ss| == |ms| + 1 && (forall i | 0 <= i < |ss| :: Fits(g, ss[i]))
    && (forall n | 0 <= n < |g.deps| :: ss[0].stage[n] == Up)
    && ss[0].pending == {} && ss[0].joined == {} && ss[0].returned == {}
    && forall i | 0 <= i < |ms| :: CanMove(g, ss[i], ms[i]) && ss[i + 1] == Moved(g, ss[i], ms[i])
  }

  // The invariant

  /** No connector closes while it, or a dependant that it knows of, is connected. */
  ghost predicate Guarded(g: Graph, s: Down)
    requires Fits(g, s)
  {
    && (forall n | 0 <= n < |g.deps| && s.stage[n] != Up :: !s.connected[n])
    && (forall n, l | 0 <= n < |g.deps| && l in g.links[n] && s.stage[n] != Up :: !s.connected[l])
  }

  function AllCalls(s: Down): set<(nat, nat)> {
    s.pending + s.joined + s.returned
  }

  /** Exactly the connectors whose `close` has finished call their dependencies, all of them. */
  ghost predicate CallsInOrder(g: Graph, s: Down)
    requires Fits(g, s)
  {
    && (forall p, d | (p, d) in AllCalls(s) :: Edge(g, p, d))
    && (forall p: nat, d: nat | Edge(g, p, d) ::
          (p, d) in AllCalls(s) <==> s.stage[p] == Closed || s.stage[p] == Disposed)
    && (forall p, d | (p, d) in s.joined :: s.stage[d] != Up)
  }

  /** Whoever is disposed has seen all its calls return. */
  ghost predicate DisposedLast(g: Graph, s: Down)
    requires Fits(g, s)
  {
    forall p: nat, d: nat | Edge(g, p, d) && s.stage[p] == Disposed ::
      (p, d) in s.returned || ((p, d) in s.joined && s.stage[d] == Disposed)
  }

  /** A connector that stays up has a dependant that is up or has yet to call it. */
  ghost predicate Held(g: Graph, s: Down, d: nat)
    requires Fits(g, s)
  {
    exists p: nat | Edge(g, p, d) :: s.stage[p] == Up || s.stage[p] == Closing || (p, d) in s.pending
  }

  ghost predicate UpIsHeld(g: Graph, s: Down)
    requires Fits(g, s)
  {
    forall p: nat, d: nat | Edge(g, p, d) && s.stage[d] == Up :: Held(g, s, d)
  }

  ghost predicate Sound(g: Graph, s: Down) {
    Fits(g, s) && Guarded(g, s) && CallsInOrder(g, s) && DisposedLast(g, s) && UpIsHeld(g, s)
  }

  lemma KeepsGuarded(g: Graph, s: Down, m: Move)
    requires Fits(g, s) && Guarded(g, s) && CanMove(g, s, m)
    ensures Guarded(g, Moved(g, s, m))
  {
  }

  lemma KeepsCalls(g: Graph, s: Down, m: Move)
    requires Fits(g, s) && CallsInOrder(g, s) && CanMove(g, s, m)
    ensures CallsInOrder(g, Moved(g, s, m))
  {
    if m.CloseEnds? {
      assert forall p, d :: (p, d) in AllCalls(Moved(g, s, m)) <==> (p, d) in AllCalls(s) || (p, d) in Calls(g, m.n);
      assert forall p: nat, d: nat :: (p, d) in Calls(g, m.n) <==> p == m.n && Edge(g, p, d);
    } else {
      assert AllCalls(Moved(g, s, m)) == AllCalls(s);
    }
  }

  lemma KeepsDisposed(g: Graph, s: Down, m: Move)
    requires Fits(g, s) && DisposedLast(g, s) && CanMove(g, s, m)
    ensures DisposedLast(g, Moved(g, s, m))
  {
  }

  lemma KeepsHeld(g: Graph, s: Down, m: Move)
    requires Fits(g, s) && Guarded(g, s) && UpIsHeld(g, s) && CanMove(g, s, m)
    ensures UpIsHeld(g, Moved(g, s, m))
  {
    var t := Moved(g, s, m);
    forall q: nat, d: nat | Edge(g, q, d) && t.stage[d] == Up ensures Held(g, t, d) {
      assert s.stage[d] == Up && Held(g, s, d);
      var p: nat :| Edge(g, p, d) && (s.stage[p] == Up || s.stage[p] == Closing || (p, d) in s.pending);
      if m == Invoke(p, d) {
        var l :| l in g.links[d] && l < |s.connected| && s.connected[l];
        assert Edge(g, l, d) && t.stage[l] == Up;
      } else if m == CloseEnds(p) {
        assert (p, d) in Calls(g, p);
      } else {
        assert t.stage[p] == Up || t.stage[p] == Closing || (p, d) in t.pending;
      }
    }
  }

  /** Every interleaving of every session keeps the invariant. */
  lemma {:induction false} SessionsAreSound(g: Graph, ss: seq<Down>, ms: seq<Move>, i: nat)
    requires Session(g, ss, ms) && i < |ss|
    ensures Sound(g, ss[i])
  {
    if i == 0 {
      assert forall p: nat, d: nat | Edge(g, p, d) :: ss[0].stage[p] == Up;
    } else {
      SessionsAreSound(g, ss, ms, i - 1);
      KeepsGuarded(g, ss[i - 1], ms[i - 1]);
      KeepsCalls(g, ss[i - 1], ms[i - 1]);
      KeepsDisposed(g, ss[i - 1], ms[i - 1]);
      KeepsHeld(g, ss[i - 1], ms[i - 1]);
    }
  }

  // Progress and the end of a session

  /** Nothing but new requests is possible. */
  ghost predicate Quiet(g: Graph, s: Down) {
    forall m | CanMove(g, s, m) :: m.Request?
  }

  lemma {:induction false} QuietIsDown(g: Graph, s: Down, n: nat, top: nat)
    requires Sound(g, s) && Quiet(g, s) && n < |g.deps|
    requires forall r | 0 <= r < |g.deps| && (forall p: nat :: !Edge(g, p, r)) :: s.stage[r] != Up
    requires forall r | 0 <= r < |g.rank| :: g.rank[r] <= top
    ensures s.stage[n] != Up
    decreases top - g.rank[n]
  {
    if s.stage[n] == Up {
      var q: nat :| Edge(g, q, n);
      assert Held(g, s, n);
      var p: nat :| Edge(g, p, n) && (s.stage[p] == Up || s.stage[p] == Closing || (p, n) in s.pending);
      assert (p, n) in s.pending ==> CanMove(g, s, Invoke(p, n));
      assert s.stage[p] == Closing ==> CanMove(g, s, CloseEnds(p));
      QuietIsDown(g, s, p, top);
    }
  }

  lemma {:induction false} QuietIsDisposed(g: Graph, s: Down, n: nat)
    requires Sound(g, s) && Quiet(g, s) && n < |g.deps| && s.stage[n] != Up
    ensures s.stage[n] == Disposed
    decreases g.rank[n]
  {
    assert !CanMove(g, s, CloseEnds(n));
    if s.stage[n] == Closed {
      forall d: nat | Edge(g, n, d) ensures (n, d) in s.returned || ((n, d) in s.joined && s.stage[d] == Disposed) {
        assert (n, d) in AllCalls(s);
        assert !CanMove(g, s, Invoke(n, d));
        if (n, d) in s.joined {
          QuietIsDisposed(g, s, d);
        }
      }
      assert CanMove(g, s, Dispose(n));
    }
  }

  function Highest(ranks: seq<nat>): (top: nat)
    ensures forall i | 0 <= i < |ranks| :: ranks[i] <= top
  {
    if ranks == [] then 0
    else
      var rest := Highest(ranks[..|ranks| - 1]);
      if ranks[|ranks| - 1] > rest then ranks[|ranks| - 1] else rest
  }

  /**
   The end of a session: once every connector without dependants has begun to disconnect, and nothing is
   left to happen, every connector has been closed and disposed of, and none is connected.
   */
  lemma NothingStaysConnected(g: Graph, ss: seq<Down>, ms: seq<Move>, n: nat)
    requires Session(g, ss, ms) && Quiet(g, ss[|ms|]) && n < |g.deps|
    requires forall r | 0 <= r < |g.deps| && (forall p: nat :: !Edge(g, p, r)) :: ss[|ms|].stage[r] != Up
    ensures ss[|ms|].stage[n] == Disposed && !ss[|ms|].connected[n]
  {
    SessionsAreSound(g, ss, ms, |ms|);
    QuietIsDown(g, ss[|ms|], n, Highest(g.rank));
    QuietIsDisposed(g, ss[|ms|], n);
  }

  function Age(stage: Stage): nat {
    match stage case Up => 0 case Closing => 1 case Closed => 2 case Disposed => 3
  }

  lemma {:induction false} StagesAdvance(g: Graph, ss: seq<Down>, ms: seq<Move>, i: nat, j: nat, n: nat)
    requires Session(g, ss, ms) && i <= j < |ss| && n < |g.deps|
    ensures |ss[i].stage| == |ss[j].stage| == |g.deps| && Age(ss[i].stage[n]) <= Age(ss[j].stage[n])
    decreases j
  {
    if i < j {
      StagesAdvance(g, ss, ms, i, j - 1, n);
    }
  }

  ghost predicate Closes(g: Graph, ss: seq<Down>, n: nat, i: nat) {
    i + 1 < |ss| && n < |ss[i].stage| && n < |ss[i + 1].stage| && ss[i].stage[n] == Up && ss[i + 1].stage[n] == Closing
  }

  /**
   Order: a connector begins to close at most once, when no dependant that it knows of is connected; its
   dependencies are called only after its `close` has finished, and it is disposed of after those calls.
   */
  lemma ClosesInOrder(g: Graph, ss: seq<Down>, ms: seq<Move>, n: nat, i: nat)
    requires Session(g, ss, ms) && Closes(g, ss, n, i)
    ensures n < |g.deps| && forall l | l in g.links[n] :: l < |ss[i].connected| && !ss[i].connected[l]
    ensures forall j | i < j < |ms| :: !Closes(g, ss, n, j)
    ensures forall j, d: nat | 0 <= j < |ss| && Edge(g, n, d) && n < |ss[j].stage| && (ss[j].stage[n] == Up || ss[j].stage[n] == Closing) ::
              (n, d) !in AllCalls(ss[j])
    ensures forall j, d: nat | i <= j < |ss| && Edge(g, n, d) && n < |ss[j].stage| && ss[j].stage[n] == Disposed ::
              d < |ss[j].stage| && ((n, d) in ss[j].returned || ss[j].stage[d] == Disposed)
  {
    SessionsAreSound(g, ss, ms, i);
    forall j | i < j < |ms| ensures !Closes(g, ss, n, j) {
      StagesAdvance(g, ss, ms, i + 1, j, n);
    }
    forall j | 0 <= j < |ss| ensures Sound(g, ss[j]) {
      SessionsAreSound(g, ss, ms, j);
    }
  }

  // Sessions come to an end

  /** More than the moves that a connector has before it, together with the calls that it will make. */
  function Weight(g: Graph, s: Down, n: nat): nat
    requires n < |g.deps| && n < |s.stage|
  {
    match s.stage[n]
    case Up => 3 + |Calls(g, n)|
    case Closing => 2 + |Calls(g, n)|
    case Closed => 1
    case Disposed => 0
  }

  function Weights(g: Graph, s: Down): (ws: seq<nat>)
    requires |s.stage| == |g.deps|
    ensures |ws| == |g.deps| && forall n | 0 <= n < |g.deps| :: ws[n] == Weight(g, s, n)
  {
    seq(|g.deps|, n requires 0 <= n < |g.deps| => Weight(g, s, n))
  }

  function Ahead(g: Graph, s: Down): nat
    requires |s.stage| == |g.deps|
  {
    Sum(Weights(g, s)) + |s.pending|
  }

  /** Moves that nobody asks for from outside. */
  function Own(ms: seq<Move>): nat {
    if ms == [] then 0 else Own(ms[..|ms| - 1]) + if ms[|ms| - 1].Request? then 0 else 1
  }

  lemma BeginGoesAhead(g: Graph, s: Down, n: nat)
    requires Fits(g, s) && n < |g.deps|
    ensures var t := Begin(g, s, n); |t.stage| == |g.deps| && t.pending == s.pending && Sum(Weights(g, t)) <= Sum(Weights(g, s))
  {
    SumChanged(Weights(g, s), Weights(g, Begin(g, s, n)), n);
  }

  lemma MoveGoesAhead(g: Graph, s: Down, m: Move)
    requires CanMove(g, s, m)
    ensures var t := Moved(g, s, m); |t.stage| == |g.deps| && Ahead(g, t) + (if m.Request? then 0 else 1) <= Ahead(g, s)
  {
    var t := Moved(g, s, m);
    match m
    case Request(n) =>
      BeginGoesAhead(g, s, n);
    case Invoke(p, d) =>
      BeginGoesAhead(g, s, d);
      assert Weights(g, t) == Weights(g, Begin(g, s, d));
      assert t.pending == s.pending - {(p, d)};
    case CloseEnds(n) =>
      SumChanged(Weights(g, s), Weights(g, t), n);
    case Dispose(n) =>
      SumChanged(Weights(g, s), Weights(g, t), n);
  }

  /** However often connectors are asked to disconnect, only so many other moves follow. */
  lemma {:induction false} SessionsEnd(g: Graph, ss: seq<Down>, ms: seq<Move>, i: nat)
    requires Session(g, ss, ms) && i < |ss|
    ensures Fits(g, ss[0]) && Fits(g, ss[i]) && Own(ms[..i]) + Ahead(g, ss[i]) <= Ahead(g, ss[0])
  {
    if i > 0 {
      SessionsEnd(g, ss, ms, i - 1);
      MoveGoesAhead(g, ss[i - 1], ms[i - 1]);
      assert ms[..i][..i - 1] == ms[..i - 1];
    }
  }
}
