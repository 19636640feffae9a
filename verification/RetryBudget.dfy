/** How far 32 retries go: 33 contenders always fit, 34 need not. */
module RetryBudget {
  import opened Wrappers
  import opened Json
  import opened Records
  import opened Storages
  import opened Protocol
  import opened ProtocolInvariant
  import opened ProtocolTheorems

  /** Everyone runs one retrying transition on the same id. */
  ghost predicate Contenders(requests: seq<Request>, x: Id) {
    forall r <- requests :: Contender(r, x)
  }

  ghost predicate Contender(r: Request, x: Id) {
    r.Transit? && r.retry && r.query.Some? && r.query.value.id == Some(x)
  }

  // The log of such a run

  lemma ContenderWrites(p: Component, c: Collection, request: Request, w: Write, x: Id)
    requires WellFormed(c) && Lawful(p, c, request, w) && Contender(request, x)
    ensures w.after.id == x
  {
    var choice, now :| Alone(p, c, request, choice, now, w);
  }

  lemma {:induction false} AllWritesCount(log: seq<Write>, x: Id)
    requires forall w <- log :: w.after.id == x
    ensures Writes(log, x) == |log|
  {
    if log != [] {
      AllWritesCount(log[..|log| - 1], x);
    }
  }

  lemma ContendedVersion(p: Component, cs: seq<Config>, ls: seq<Label>, i: nat, x: Id)
    requires Run(p, cs, ls) && i < |cs| && Contenders(cs[i].requests, x)
    ensures Version(cs[i].store, x) == Version(cs[0].store, x) + |cs[i].log|
  {
    RunKeepsInv(p, cs, ls, i);
    forall j | 0 <= j < |cs[i].log| ensures cs[i].log[j].after.id == x {
      LogIsWellFormed(p, cs[0].store, cs[i].requests, cs[i].log, j);
      LawfulOf(p, cs[0].store, cs[i].requests, cs[i].log, j);
      ContenderWrites(p, Replay(cs[0].store, cs[i].log[..j]), cs[i].requests[cs[i].log[j].client], cs[i].log[j], x);
    }
    AllWritesCount(cs[i].log, x);
    VersionCountsWrites(p, cs, ls, i, x);
  }

  function Range(n: nat): (r: set<nat>)
    ensures |r| == n
    ensures forall k :: k in r <==> 0 <= k < n
  {
    if n == 0 then {} else Range(n - 1) + {n - 1}
  }

  function Authors(log: seq<Write>): set<nat> {
    set w | w in log :: w.client
  }

  lemma {:induction false} DistinctAuthors(clients: seq<Client>, log: seq<Write>)
    requires forall j | 0 <= j < |log| :: log[j].client < |clients| && clients[log[j].client].write == Some(j)
    ensures |Authors(log)| == |log|
    decreases |log|
  {
    if log != [] {
      var front, last := log[..|log| - 1], log[|log| - 1];
      DistinctAuthors(clients, front);
      assert log == front + [last];
      assert Authors(log) == Authors(front) + {last.client};
      assert last.client !in Authors(front);
    }
  }

  /** Whoever has not written yet is outnumbered by those who have at most by all the others. */
  lemma OthersWrote(clients: seq<Client>, log: seq<Write>, events: seq<Emission>, k: nat)
    requires Linked(clients, log, events) && k < |clients| && clients[k].write.None?
    ensures |log| < |clients|
  {
    DistinctAuthors(clients, log);
    Subsets(Authors(log), Range(|clients|) - {k});
  }

  lemma {:induction false} Subsets(a: set<nat>, b: set<nat>)
    requires a <= b
    ensures |a| <= |b|
  {
    if a != {} {
      var x :| x in a;
      Subsets(a - {x}, b - {x});
    }
  }

  // The budget

  /** A contender has failed no more often than others had written before its latest read. */
  ghost predicate Charged(me: Client, base: nat, x: Id, writes: nat) {
    match me.phase
    case Ready => me.attempt <= writes
    case Holding(scope) => scope.state.id == x && base + me.attempt <= scope.state.version
    case Failed(exception) => exception != RetryExhausted
    case _ => true
  }

  lemma ContenderStep(p: Component, start: Collection, c: Config, l: Label, c': Config, base: nat, x: Id)
    requires Inv(p, start, c) && Step(p, c, l, c') && Contender(c.requests[l.client], x)
    requires Version(c.store, x) == base + |c.log| && |c.clients| <= RETRIES + 1
    requires Charged(c.clients[l.client], base, x, |c.log|)
    ensures l.client < |c'.clients| && Charged(c'.clients[l.client], base, x, |c'.log|)
  {
    var k := l.client;
    var me, request := c.clients[k], c.requests[k];
    LocalFacts(p, start, c, k);
    match me.phase
    case Ready =>
      AcquireIsExact(p, c.store, request, l.choice);
    case Holding(scope) =>
      if Commit(c.store, request.algorithm, scope, l.choice.now).Conflict? {
        LosesToChange(c.store, request.algorithm, scope, l.choice.now);
        assert scope.state.version < Version(c.store, x);
        OthersWrote(c.clients, c.log, c.events, k);
      }
    case Emitting(_, _) =>
  }

  ghost predicate AllCharged(c: Config, base: nat, x: Id) {
    forall k: nat | k < |c.clients| :: Charged(c.clients[k], base, x, |c.log|)
  }

  /** What every contender keeps while the run goes on. */
  ghost predicate Contended(c: Config, n: nat, base: nat, x: Id) {
    && |c.clients| == n <= RETRIES + 1 && Contenders(c.requests, x)
    && Version(c.store, x) == base + |c.log| && AllCharged(c, base, x)
  }

  /** Those who do not move are charged as before: the log only grows. */
  lemma OthersStayCharged(p: Component, c: Config, l: Label, c': Config, base: nat, x: Id, k: nat)
    requires Step(p, c, l, c') && |c.log| <= |c'.log| && AllCharged(c, base, x)
    requires k < |c.clients| && k != l.client
    ensures k < |c'.clients| && Charged(c'.clients[k], base, x, |c'.log|)
  {
    OthersStayPut(p, c, l, c');
    assert Charged(c.clients[k], base, x, |c.log|);
  }

  lemma ContendersStep(p: Component, start: Collection, c: Config, l: Label, c': Config, n: nat, base: nat, x: Id)
    requires Inv(p, start, c) && Step(p, c, l, c') && LogsStep(c, l, c') && Contended(c, n, base, x)
    ensures AllCharged(c', base, x) && |c'.clients| == n
  {
    OthersStayPut(p, c, l, c');
    assert c.requests[l.client] in c.requests;
    assert Charged(c.clients[l.client], base, x, |c.log|);
    ContenderStep(p, start, c, l, c', base, x);
    forall k: nat | k < |c'.clients| ensures Charged(c'.clients[k], base, x, |c'.log|) {
      if k != l.client {
        OthersStayCharged(p, c, l, c', base, x, k);
      }
    }
  }

  lemma {:induction false} ContendersAreCharged(p: Component, cs: seq<Config>, ls: seq<Label>, i: nat, x: Id)
    requires Run(p, cs, ls) && i < |cs| && Contenders(cs[0].requests, x) && |cs[0].clients| <= 33
    ensures Contended(cs[i], |cs[0].clients|, Version(cs[0].store, x), x)
  {
    var n, base := |cs[0].clients|, Version(cs[0].store, x);
    if i > 0 {
      ContendersAreCharged(p, cs, ls, i - 1, x);
      RunKeepsInv(p, cs, ls, i - 1);
      RunIsLogged(p, cs, ls);
      assert LogsStep(cs[i - 1], ls[i - 1], cs[i]);
      StepOf(p, cs, ls, i - 1);
      ContendersStep(p, cs[0].store, cs[i - 1], ls[i - 1], cs[i], n, base, x);
    }
    RequestsStay(p, cs, ls, i);
    ContendedVersion(p, cs, ls, i, x);
  }

  lemma RequestsStay(p: Component, cs: seq<Config>, ls: seq<Label>, i: nat)
    requires Run(p, cs, ls) && i < |cs|
    ensures cs[i].requests == cs[0].requests
  {
    RunIsLogged(p, cs, ls);
    LogsExtend(cs, ls, 0, i);
  }

  /**
   The budget suffices: if at most 33 clients each run one retrying transition on the same id, and
   nobody else writes, none of them ever runs out of its 32 retries.
   */
  lemma NoneExhausts(p: Component, cs: seq<Config>, ls: seq<Label>, i: nat, k: nat, x: Id)
    requires Run(p, cs, ls) && i < |cs| && k < |cs[i].clients|
    requires Contenders(cs[0].requests, x) && |cs[0].clients| <= 33
    ensures cs[i].clients[k].phase != Failed(RetryExhausted)
  {
    ContendersAreCharged(p, cs, ls, i, x);
    assert Charged(cs[i].clients[k], Version(cs[0].store, x), x, |cs[i].log|);
  }

  // The budget is tight

  function Touch(r: Record): Outcome {
    Proceed(r.data, None, Null)
  }

  const TOUCH := Transit(Some(Query(Some("x"), None, None)), r => Touch(r), true)

  function Crowd(n: nat): (rs: seq<Request>)
    ensures |rs| == n && forall k | 0 <= k < n :: rs[k] == TOUCH
  {
    if n == 0 then [] else Crowd(n - 1) + [TOUCH]
  }

  const LONELY := Component(false, map[])

  const IDLE := Client(Ready, 0, 0, None, None)

  /** Client 0 has lost `i` times, once to each of the clients 1 to `i`. */
  ghost predicate Beaten0(c: Config, n: nat, i: nat) {
    && c.requests == Crowd(n) && |c.clients| == n > i
    && c.store.Keys == {"x"} && c.store["x"].id == "x" && c.store["x"].deleted.None? && c.store["x"].version == i + 1
    && c.clients[0] == Client(Ready, i, i, None, None)
    && forall k | i < k < n && 0 < k :: c.clients[k] == IDLE
  }

  ghost predicate Steps(c: Config, ls: seq<Label>, cs: seq<Config>) {
    && |cs| == |ls| + 1 && cs[0] == c && forall t: nat | t < |ls| :: StepAt(LONELY, cs, ls, t)
  }

  /** One more round: both read, the next client writes, client 0 loses. */
  lemma Round(c: Config, n: nat, i: nat) returns (ls: seq<Label>, cs: seq<Config>)
    requires Beaten0(c, n, i) && i + 1 < n && i <= RETRIES
    ensures Steps(c, ls, cs)
    ensures i < RETRIES ==> Beaten0(cs[|ls|], n, i + 1)
    ensures i == RETRIES ==> |cs[|ls|].clients| == n && cs[|ls|].clients[0].phase == Failed(RetryExhausted)
  {
    var choice := Choice("x", "", 0);
    var rival := i + 1;
    assert c.requests[0] == c.requests[rival] == TOUCH;
    assert c.store["x"] in c.store.Values && Selects(c.store, TOUCH.query.value, "x");
    ls := [Label(0, choice), Label(rival, choice), Label(rival, choice), Label(0, choice)];
    var r := c.store["x"];
    var c1 := Move(c, 0, c.clients[0].(phase := Holding(Snapshot(Some(r), r))));
    assert Step(LONELY, c, ls[0], c1);
    var c2 := Move(c1, rival, IDLE.(phase := Holding(Snapshot(Some(r), r))));
    assert Step(LONELY, c1, ls[1], c2);
    var c3 := Next(LONELY, c2, ls[2]);
    assert Step(LONELY, c2, ls[2], c3);
    assert c3.store == c.store["x" := Advance(Proposed(r, r.data, None), 0)];
    var c4 := Next(LONELY, c3, ls[3]);
    assert Step(LONELY, c3, ls[3], c4);
    assert c3.clients[0] == c1.clients[0];
    assert Commit(c3.store, TOUCH.algorithm, Snapshot(Some(r), r), 0).Conflict?;
    cs := [c, c1, c2, c3, c4];
  }

  lemma Join(ls0: seq<Label>, cs0: seq<Config>, ls1: seq<Label>, cs1: seq<Config>) returns (ls: seq<Label>, cs: seq<Config>)
    requires Run(LONELY, cs0, ls0) && Steps(cs0[|ls0|], ls1, cs1)
    ensures Run(LONELY, cs, ls) && cs[0] == cs0[0] && cs[|ls|] == cs1[|ls1|]
  {
    ls, cs := ls0 + ls1, cs0 + cs1[1..];
    forall t: nat | t < |ls| ensures StepAt(LONELY, cs, ls, t) {
      if t < |ls0| {
        assert StepAt(LONELY, cs0, ls0, t);
      } else {
        assert StepAt(LONELY, cs1, ls1, t - |ls0|);
      }
    }
  }

  lemma {:induction false} Rounds(n: nat, i: nat) returns (ls: seq<Label>, cs: seq<Config>)
    requires i < n && i <= RETRIES
    ensures Run(LONELY, cs, ls) && Beaten0(cs[|ls|], n, i) && |cs[0].clients| == n && cs[0].requests == Crowd(n)
  {
    if i == 0 {
      var c := Config(Crowd(n), map["x" := Record("x", 1, None, 0, 0, map[])], seq(n, _ => IDLE), [], []);
      ls, cs := [], [c];
    } else {
      var ls0, cs0 := Rounds(n, i - 1);
      var ls1, cs1 := Round(cs0[|ls0|], n, i - 1);
      ls, cs := Join(ls0, cs0, ls1, cs1);
    }
  }

  /** With any one client more, an unlucky schedule exhausts the retries of one of them. */
  lemma MoreCanExhaust(n: nat) returns (ls: seq<Label>, cs: seq<Config>)
    requires n > 33
    ensures Run(LONELY, cs, ls) && Contenders(cs[0].requests, "x") && |cs[0].clients| == n
    ensures |cs[|ls|].clients| == n && cs[|ls|].clients[0].phase == Failed(RetryExhausted)
  {
    var ls0, cs0 := Rounds(n, RETRIES);
    var ls1, cs1 := Round(cs0[|ls0|], n, RETRIES);
    ls, cs := Join(ls0, cs0, ls1, cs1);
    assert cs[0].requests == Crowd(n);
  }
}
