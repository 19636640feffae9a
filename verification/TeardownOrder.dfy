/** Which connectors can begin to close before which others, in a session that starts with everything connected. */
module TeardownOrder {
  import opened Lifecycle
  import opened Teardown

  // What can begin to close, and when

  ghost predicate AllUp(g: Graph, s: Down) {
    Fits(g, s) && forall n | 0 <= n < |g.deps| :: s.stage[n] == Up && s.connected[n]
  }

  /** Nobody is asked to disconnect but these. */
  ghost predicate Asks(ms: seq<Move>, asked: set<nat>) {
    forall i | 0 <= i < |ms| && ms[i].Request? :: ms[i].n in asked
  }

  /** The ones have not begun to close, the others have not finished it. */
  ghost predicate Keeps(s: Down, up: set<nat>, closing: set<nat>) {
    && (forall n | n in up && n < |s.stage| :: s.stage[n] == Up)
    && (forall n | n in closing && n < |s.stage| :: s.stage[n] == Up || s.stage[n] == Closing)
  }

  /** A session that starts with everything connected and ends with `n` closing or closed, while the others wait. */
  ghost predicate Begins(g: Graph, asked: set<nat>, up: set<nat>, closing: set<nat>, n: nat, ss: seq<Down>, ms: seq<Move>) {
    && Session(g, ss, ms) && AllUp(g, ss[0]) && Asks(ms, asked)
    && n < |g.deps| && ss[|ms|].stage[n] != Up && Keeps(ss[|ms|], up, closing)
  }

  /**
   Seen from the graph alone: the known dependants can begin, and so can someone who closes before and calls it,
   unless it is asked itself.
   */
  ghost predicate CanBegin(g: Graph, asked: set<nat>, up: set<nat>, closing: set<nat>, n: nat)
    requires WellFormed(g) && n < |g.deps|
    decreases Highest(g.rank) - g.rank[n]
  {
    && n !in up
    && (forall l | l in g.links[n] :: assert Edge(g, l, n); CanBegin(g, asked, up, closing, l))
    && (n in asked || exists p: nat :: Edge(g, p, n) && p !in closing && CanBegin(g, asked, up, closing, p))
  }

  /** Whatever has begun could. */
  ghost predicate Foreseen(g: Graph, asked: set<nat>, up: set<nat>, closing: set<nat>, s: Down)
    requires Fits(g, s)
  {
    && (forall n | 0 <= n < |g.deps| :: s.connected[n] <==> s.stage[n] == Up)
    && (forall n: nat | n < |g.deps| && s.stage[n] != Up :: CanBegin(g, asked, up, closing, n))
  }

  lemma MoveIsForeseen(g: Graph, asked: set<nat>, up: set<nat>, closing: set<nat>, s: Down, m: Move)
    requires Sound(g, s) && CanMove(g, s, m) && Foreseen(g, asked, up, closing, s)
    requires (m.Request? ==> m.n in asked) && Keeps(Moved(g, s, m), up, closing) && Keeps(s, up, closing)
    ensures Foreseen(g, asked, up, closing, Moved(g, s, m))
  {
    var t := Moved(g, s, m);
    forall n: nat | n < |g.deps| && t.stage[n] != Up ensures CanBegin(g, asked, up, closing, n) {
      if s.stage[n] == Up {
        forall l | l in g.links[n] ensures Edge(g, l, n) && CanBegin(g, asked, up, closing, l) {
          assert !s.connected[l];
        }
        if m.Invoke? {
          assert (m.p, n) in AllCalls(s);
          assert Edge(g, m.p, n) && s.stage[m.p] != Up && m.p !in closing;
        }
      }
    }
  }

  lemma {:induction false} SessionIsForeseen(g: Graph, asked: set<nat>, up: set<nat>, closing: set<nat>,
                                             ss: seq<Down>, ms: seq<Move>, i: nat)
    requires Session(g, ss, ms) && AllUp(g, ss[0]) && Asks(ms, asked) && i < |ss|
    requires forall j | 0 <= j < |ss| :: Keeps(ss[j], up, closing)
    ensures Fits(g, ss[i]) && Foreseen(g, asked, up, closing, ss[i])
  {
    if i > 0 {
      SessionIsForeseen(g, asked, up, closing, ss, ms, i - 1);
      SessionsAreSound(g, ss, ms, i - 1);
      MoveIsForeseen(g, asked, up, closing, ss[i - 1], ms[i - 1]);
    }
  }

  lemma KeptThroughout(g: Graph, up: set<nat>, closing: set<nat>, ss: seq<Down>, ms: seq<Move>, i: nat)
    requires Session(g, ss, ms) && i < |ss| && Keeps(ss[|ms|], up, closing)
    ensures Keeps(ss[i], up, closing)
  {
    forall n: nat | n < |g.deps| ensures Age(ss[i].stage[n]) <= Age(ss[|ms|].stage[n]) {
      StagesAdvance(g, ss, ms, i, |ms|, n);
    }
  }

  // ... and all of it at once

  ghost predicate Begun(g: Graph, closing: set<nat>, begun: set<nat>, s: Down) {
    && Fits(g, s)
    && (forall n: nat | n < |g.deps| ::
          && s.connected[n] == (n !in begun)
          && s.stage[n] == if n !in begun then Up else if n in closing then Closing else Closed)
    && (forall p: nat, d: nat | Edge(g, p, d) && p in begun && p !in closing && d !in begun :: (p, d) in s.pending)
  }

  /** Whatever can begin and ranks higher than one of these is one of these. */
  ghost predicate FromAbove(g: Graph, asked: set<nat>, up: set<nat>, closing: set<nat>, begun: set<nat>)
    requires WellFormed(g)
  {
    && (forall n | n in begun :: n < |g.deps| && CanBegin(g, asked, up, closing, n))
    && (forall n: nat, m: nat | n in begun && n < |g.deps| && m < |g.deps| && g.rank[m] > g.rank[n] && CanBegin(g, asked, up, closing, m) ::
          m in begun)
  }

  lemma {:induction false} Lowest(g: Graph, ns: set<nat>) returns (low: nat)
    requires ns != {} && forall n | n in ns :: n < |g.rank|
    ensures low in ns && forall n | n in ns :: g.rank[low] <= g.rank[n]
    decreases ns
  {
    var first :| first in ns;
    var rest := ns - {first};
    assert forall n | n in ns :: n == first || n in rest;
    if rest == {} {
      low := first;
      assert forall n | n in ns :: n == first;
    } else {
      low := Lowest(g, rest);
      if g.rank[first] < g.rank[low] {
        low := first;
      }
    }
  }

  lemma Extend(g: Graph, ss: seq<Down>, ms: seq<Move>, m: Move)
    requires Session(g, ss, ms) && CanMove(g, ss[|ms|], m)
    ensures Session(g, ss + [Moved(g, ss[|ms|], m)], ms + [m])
  {
    var ss', ms' := ss + [Moved(g, ss[|ms|], m)], ms + [m];
    forall i | 0 <= i < |ms'| ensures CanMove(g, ss'[i], ms'[i]) && ss'[i + 1] == Moved(g, ss'[i], ms'[i]) {
      if i < |ms| {
        assert ss'[i] == ss[i] && ss'[i + 1] == ss[i + 1] && ms'[i] == ms[i];
      }
    }
  }

  /** One more begins, asked or called. */
  lemma OneBegins(g: Graph, asked: set<nat>, up: set<nat>, closing: set<nat>, begun: set<nat>, n: nat, s: Down) returns (m: Move)
    requires WellFormed(g) && Begun(g, closing, begun, s) && n !in begun && n < |g.deps|
    requires CanBegin(g, asked, up, closing, n)
    requires forall p: nat | p < |g.deps| && g.rank[p] > g.rank[n] && CanBegin(g, asked, up, closing, p) :: p in begun
    ensures CanMove(g, s, m) && (m.Request? ==> m.n in asked)
    ensures var t := Moved(g, s, m);
      && t.stage == s.stage[n := Closing] && t.connected == s.connected[n := false]
      && forall p: nat, d: nat | (p, d) in s.pending && d != n :: (p, d) in t.pending
  {
    forall l | l in g.links[n] ensures l < |s.connected| && !s.connected[l] {
      assert Edge(g, l, n);
    }
    if n in asked {
      m := Request(n);
    } else {
      var p: nat :| Edge(g, p, n) && p !in closing && CanBegin(g, asked, up, closing, p);
      m := Invoke(p, n);
    }
  }

  lemma CloseEndsToo(g: Graph, closing: set<nat>, begun: set<nat>, n: nat, s: Down, t: Down)
    requires Begun(g, closing, begun, s) && n !in begun && n < |g.deps| && n !in closing && Fits(g, t)
    requires t.stage == s.stage[n := Closing] && t.connected == s.connected[n := false]
    requires forall p: nat, d: nat | (p, d) in s.pending && d != n :: (p, d) in t.pending
    ensures CanMove(g, t, CloseEnds(n)) && Begun(g, closing, begun + {n}, Moved(g, t, CloseEnds(n)))
  {
    forall d: nat | Edge(g, n, d) ensures (n, d) in Calls(g, n) {
    }
  }

  /** A session that starts with everything connected and ends with these begun. */
  ghost predicate Brings(g: Graph, asked: set<nat>, closing: set<nat>, begun: set<nat>, ss: seq<Down>, ms: seq<Move>) {
    Session(g, ss, ms) && AllUp(g, ss[0]) && Asks(ms, asked) && Begun(g, closing, begun, ss[|ms|])
  }

  lemma BringsOneMore(g: Graph, asked: set<nat>, up: set<nat>, closing: set<nat>, begun: set<nat>, n: nat, ss: seq<Down>, ms: seq<Move>)
    returns (ss': seq<Down>, ms': seq<Move>)
    requires WellFormed(g) && Brings(g, asked, closing, begun, ss, ms) && n !in begun && n < |g.deps|
    requires CanBegin(g, asked, up, closing, n)
    requires forall p: nat | p < |g.deps| && g.rank[p] > g.rank[n] && CanBegin(g, asked, up, closing, p) :: p in begun
    ensures Brings(g, asked, closing, begun + {n}, ss', ms')
  {
    var s := ss[|ms|];
    var m := OneBegins(g, asked, up, closing, begun, n, s);
    Extend(g, ss, ms, m);
    ss', ms' := ss + [Moved(g, s, m)], ms + [m];
    if n !in closing {
      var t := ss'[|ms'|];
      CloseEndsToo(g, closing, begun, n, s, t);
      Extend(g, ss', ms', CloseEnds(n));
      ss', ms' := ss' + [Moved(g, t, CloseEnds(n))], ms' + [CloseEnds(n)];
    }
  }

  lemma WithoutLowest(g: Graph, asked: set<nat>, up: set<nat>, closing: set<nat>, begun: set<nat>) returns (n: nat)
    requires WellFormed(g) && FromAbove(g, asked, up, closing, begun) && begun != {}
    ensures n in begun && n < |g.deps| && CanBegin(g, asked, up, closing, n) && FromAbove(g, asked, up, closing, begun - {n})
    ensures forall p: nat | p < |g.deps| && g.rank[p] > g.rank[n] && CanBegin(g, asked, up, closing, p) :: p in begun - {n}
  {
    n := Lowest(g, begun);
  }

  lemma {:induction false} BeginAll(g: Graph, asked: set<nat>, up: set<nat>, closing: set<nat>, begun: set<nat>)
    returns (ss: seq<Down>, ms: seq<Move>)
    requires WellFormed(g) && FromAbove(g, asked, up, closing, begun)
    ensures Brings(g, asked, closing, begun, ss, ms)
    decreases begun
  {
    if begun == {} {
      ss := [Down(seq(|g.deps|, _ => Up), seq(|g.deps|, _ => true), {}, {}, {})];
      ms := [];
    } else {
      var n := WithoutLowest(g, asked, up, closing, begun);
      ss, ms := BeginAll(g, asked, up, closing, begun - {n});
      ss, ms := BringsOneMore(g, asked, up, closing, begun - {n}, n, ss, ms);
      assert begun - {n} + {n} == begun;
    }
  }

  /**
   For any graph and any set of connectors that may be asked to disconnect: starting from everything connected,
   `n` can begin to close while some are still up and some have not finished closing, exactly when the graph
   says so.
   */
  lemma BeginsIff(g: Graph, asked: set<nat>, up: set<nat>, closing: set<nat>, n: nat)
    requires WellFormed(g) && n < |g.deps|
    ensures (exists ss, ms :: Begins(g, asked, up, closing, n, ss, ms)) <==> CanBegin(g, asked, up, closing, n)
  {
    if ss, ms :| Begins(g, asked, up, closing, n, ss, ms) {
      forall i: nat | i < |ss| ensures Keeps(ss[i], up, closing) {
        KeptThroughout(g, up, closing, ss, ms, i);
      }
      SessionIsForeseen(g, asked, up, closing, ss, ms, |ms|);
    }
    if CanBegin(g, asked, up, closing, n) {
      var begun := set m: nat | m < |g.deps| && CanBegin(g, asked, up, closing, m);
      var ss, ms := BeginAll(g, asked, up, closing, begun);
      assert forall m: nat | m in up && m < |g.deps| :: m !in begun;
      assert Begins(g, asked, up, closing, n, ss, ms);
    }
  }

  // Closing under a connected dependant

  /** `p` is `n` or linked to it, directly or through others. */
  ghost predicate LinkedAbove(g: Graph, n: nat, p: nat)
    requires WellFormed(g) && n < |g.deps|
    decreases Highest(g.rank) - g.rank[n]
  {
    p == n || exists l | l in g.links[n] :: (assert Edge(g, l, n); LinkedAbove(g, l, p))
  }

  function UpTo(n: nat): (ns: set<nat>)
    ensures forall k :: k in ns <==> 0 <= k < n
  {
    if n == 0 then {} else UpTo(n - 1) + {n - 1}
  }

  function Everyone(g: Graph): set<nat> {
    UpTo(|g.deps|)
  }

  lemma {:induction false} FreeToBegin(g: Graph, p: nat, n: nat)
    requires WellFormed(g) && n < |g.deps|
    ensures CanBegin(g, Everyone(g), {p}, {}, n) <==> !LinkedAbove(g, n, p)
    decreases Highest(g.rank) - g.rank[n]
  {
    forall l | l in g.links[n] ensures Edge(g, l, n) && (CanBegin(g, Everyone(g), {p}, {}, l) <==> !LinkedAbove(g, l, p)) {
      assert Edge(g, l, n);
      FreeToBegin(g, p, l);
    }
  }

  /**
   A connector is protected from closing under `p`, whoever is asked to disconnect, exactly when `p` is linked to
   it. Dependants without a link, such as the ones of the items of an array, are not.
   */
  lemma LinksProtect(g: Graph, p: nat, n: nat)
    requires WellFormed(g) && n < |g.deps|
    ensures (exists ss, ms :: Begins(g, Everyone(g), {p}, {}, n, ss, ms)) <==> !LinkedAbove(g, n, p)
  {
    BeginsIff(g, Everyone(g), {p}, {}, n);
    FreeToBegin(g, p, n);
  }

  // Closing before a known dependant has closed

  /** `y` is `n` or depends on it, directly or through others. */
  ghost predicate Above(g: Graph, n: nat, y: nat)
    requires WellFormed(g) && n < |g.deps|
    decreases Highest(g.rank) - g.rank[n]
  {
    y == n || exists p: nat :: Edge(g, p, n) && Above(g, p, y)
  }

  ghost predicate Sole(g: Graph, l: nat, y: nat) {
    Edge(g, l, y) && forall p: nat | Edge(g, p, y) :: p == l
  }

  /** No array: every dependency is linked back. */
  ghost predicate AllLinked(g: Graph) {
    forall p: nat, n: nat | Edge(g, p, n) :: n < |g.links| && p in g.links[n]
  }

  ghost predicate IsRoot(g: Graph, n: nat) {
    forall p: nat :: !Edge(g, p, n)
  }

  ghost function Roots(g: Graph): set<nat> {
    set n | n in Everyone(g) && IsRoot(g, n)
  }

  lemma {:induction false} FreeToPrecede(g: Graph, l: nat, n: nat)
    requires WellFormed(g) && AllLinked(g) && n < |g.deps|
    ensures CanBegin(g, Roots(g), {}, {l}, n) <==> forall y | Above(g, n, y) :: !Sole(g, l, y)
    decreases Highest(g.rank) - g.rank[n]
  {
    forall p: nat | Edge(g, p, n)
      ensures p in g.links[n] && (CanBegin(g, Roots(g), {}, {l}, p) <==> forall y | Above(g, p, y) :: !Sole(g, l, y))
    {
      FreeToPrecede(g, l, p);
    }
    if CanBegin(g, Roots(g), {}, {l}, n) {
      forall y | Above(g, n, y) ensures !Sole(g, l, y) {
        if y != n {
          var p: nat :| Edge(g, p, n) && Above(g, p, y);
        }
      }
    }
    if forall y | Above(g, n, y) :: !Sole(g, l, y) {
      assert Above(g, n, n);
      forall p: nat, y | Edge(g, p, n) && Above(g, p, y) ensures !Sole(g, l, y) {
        assert Above(g, n, y);
      }
      if !IsRoot(g, n) {
        var q: nat :| Edge(g, q, n);
        var p: nat :| Edge(g, p, n) && p != l;
        assert CanBegin(g, Roots(g), {}, {l}, p);
      }
    }
  }

  /**
   When only roots are asked to disconnect and no arrays are involved, a connector begins to close after a
   dependant `l` has finished closing, in every session, exactly when `l` is the only dependant of that connector
   or of one above it.
   */
  lemma SoleDependantsCloseFirst(g: Graph, l: nat, n: nat)
    requires WellFormed(g) && AllLinked(g) && n < |g.deps|
    ensures (exists ss, ms :: Begins(g, Roots(g), {}, {l}, n, ss, ms)) <==> forall y | Above(g, n, y) :: !Sole(g, l, y)
  {
    BeginsIff(g, Roots(g), {}, {l}, n);
    FreeToPrecede(g, l, n);
  }

  lemma {:induction false} AskedCanBegin(g: Graph, closing: set<nat>, n: nat)
    requires WellFormed(g) && n < |g.deps|
    ensures CanBegin(g, Everyone(g), {}, closing, n)
    decreases Highest(g.rank) - g.rank[n]
  {
    forall l | l in g.links[n] ensures Edge(g, l, n) && CanBegin(g, Everyone(g), {}, closing, l) {
      assert Edge(g, l, n);
      AskedCanBegin(g, closing, l);
    }
  }

  /** When anyone may be asked, there is a session in which a connector begins to close while that dependant still closes. */
  lemma AskedMayPrecede(g: Graph, l: nat, n: nat) returns (ss: seq<Down>, ms: seq<Move>)
    requires WellFormed(g) && n < |g.deps| && l in g.links[n]
    ensures Begins(g, Everyone(g), {}, {l}, n, ss, ms) && l < |g.deps| && ss[|ms|].stage[l] == Closing
  {
    AskedCanBegin(g, {l}, n);
    BeginsIff(g, Everyone(g), {}, {l}, n);
    ss, ms :| Begins(g, Everyone(g), {}, {l}, n, ss, ms);
    SessionsAreSound(g, ss, ms, |ms|);
    forall i: nat | i < |ss| ensures Keeps(ss[i], {}, {l}) {
      KeptThroughout(g, {}, {l}, ss, ms, i);
    }
    SessionIsForeseen(g, Everyone(g), {}, {l}, ss, ms, |ms|);
  }

  // Runs

  const ITEMS := Graph([{1, 2, 3}, {3}, {3}, {}], [{}, {}, {}, {0, 1, 2}], [2, 1, 1, 0])

  const I0 := Down([Up, Up, Up, Up], [true, true, true, true], {}, {}, {})
  const I1 := Down([Up, Closing, Up, Up], [true, false, true, true], {}, {}, {})
  const I2 := Down([Up, Closed, Up, Up], [true, false, true, true], {(1, 3)}, {}, {})
  const I3 := Down([Up, Closed, Up, Up], [true, false, true, true], {}, {}, {(1, 3)})
  const I4 := Down([Up, Disposed, Up, Up], [true, false, true, true], {}, {}, {(1, 3)})

  ghost predicate Leads(g: Graph, s: Down, m: Move, t: Down) {
    CanMove(g, s, m) && t == Moved(g, s, m)
  }

  lemma ItemCloses()
    ensures Leads(ITEMS, I0, Request(1), I1) && Leads(ITEMS, I1, CloseEnds(1), I2)
  {
    assert Calls(ITEMS, 1) == {(1, 3)};
  }

  lemma ItemIsDisposed()
    ensures Leads(ITEMS, I2, Invoke(1, 3), I3) && Leads(ITEMS, I3, Dispose(1), I4) && Quiet(ITEMS, I4)
  {
    assert 0 in ITEMS.links[3];
  }

  /** The item of an array is taken down under the connector that depends on the array, which stays up. */
  lemma ItemsAreNotGuarded() returns (ss: seq<Down>, ms: seq<Move>)
    ensures Session(ITEMS, ss, ms) && AllUp(ITEMS, ss[0]) && Quiet(ITEMS, ss[|ms|]) && Edge(ITEMS, 0, 1)
    ensures ss[|ms|].connected == [true, false, true, true]
  {
    ItemCloses();
    ItemIsDisposed();
    ss, ms := [I0, I1, I2, I3, I4], [Request(1), CloseEnds(1), Invoke(1, 3), Dispose(1)];
    assert forall i | 0 <= i < |ms| :: Leads(ITEMS, ss[i], ms[i], ss[i + 1]);
  }

  /** From where that ends, `connect` of the root is over at once, and the item stays down. */
  lemma ItemStaysDown() returns (ss: seq<State>, es: seq<Step>)
    ensures Run(ITEMS, 0, ss, es) && ss[0].connected == [true, false, true, true] && Done(ITEMS, ss[|es|])
    ensures Reachable(ITEMS, 0, 1) && ss[|es|].connected == [true, false, true, true] && ss[|es|].opens == []
  {
    var s := State([Opened, Off, Opened, Opened], [true, false, true, true], {0}, []);
    ss, es := [s, Take(ITEMS, s, Enter(0))], [Enter(0)];
    assert Edge(ITEMS, 0, 1) && ReachableIn(ITEMS, 0, 0, 0);
    assert ReachableIn(ITEMS, 0, 1, 1);
  }

  const DIAMOND := Graph([{1, 2}, {3}, {3}, {}], [{}, {0}, {0}, {1, 2}], [2, 1, 1, 0])

  const D0 := Down([Up, Up, Up, Up], [true, true, true, true], {}, {}, {})
  const D1 := Down([Closing, Up, Up, Up], [false, true, true, true], {}, {}, {})
  const D2 := Down([Closed, Up, Up, Up], [false, true, true, true], {(0, 1), (0, 2)}, {}, {})
  const D3 := Down([Closed, Closing, Up, Up], [false, false, true, true], {(0, 2)}, {(0, 1)}, {})
  const D4 := Down([Closed, Closing, Closing, Up], [false, false, false, true], {}, {(0, 1), (0, 2)}, {})
  const D5 := Down([Closed, Closed, Closing, Up], [false, false, false, true], {(1, 3)}, {(0, 1), (0, 2)}, {})
  const D6 := Down([Closed, Closed, Closing, Closing], [false, false, false, false], {}, {(0, 1), (0, 2), (1, 3)}, {})

  lemma FirstHalf()
    ensures Leads(DIAMOND, D0, Request(0), D1) && Leads(DIAMOND, D1, CloseEnds(0), D2) && Leads(DIAMOND, D2, Invoke(0, 1), D3)
  {
    assert Calls(DIAMOND, 0) == {(0, 1), (0, 2)};
  }

  lemma SecondHalf()
    ensures Leads(DIAMOND, D3, Invoke(0, 2), D4) && Leads(DIAMOND, D4, CloseEnds(1), D5) && Leads(DIAMOND, D5, Invoke(1, 3), D6)
  {
    assert Calls(DIAMOND, 1) == {(1, 3)};
  }

  /** In a diamond the shared dependency may begin to close while one of its dependants is still closing. */
  lemma DependencyMayCloseFirst() returns (ss: seq<Down>, ms: seq<Move>)
    ensures Session(DIAMOND, ss, ms) && Edge(DIAMOND, 2, 3) && 2 in DIAMOND.links[3] && |ss[|ms|].stage| == 4
    ensures Asks(ms, {0}) && IsRoot(DIAMOND, 0) && ss[|ms|].stage[3] == Closing && ss[|ms|].stage[2] == Closing
  {
    FirstHalf();
    SecondHalf();
    ss := [D0, D1, D2, D3, D4, D5, D6];
    ms := [Request(0), CloseEnds(0), Invoke(0, 1), Invoke(0, 2), CloseEnds(1), Invoke(1, 3)];
    assert forall i | 0 <= i < |ms| :: Leads(DIAMOND, ss[i], ms[i], ss[i + 1]);
  }
}
