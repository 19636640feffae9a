/** What holds of every run of the persistence protocol. */
module ProtocolTheorems {
  import opened Wrappers
  import opened Json
  import opened Records
  import opened Storages
  import opened Protocol
  import opened ProtocolInvariant
  import Differences

  /** The stored version, 0 while there is no record. */
  function Version(c: Collection, id: Id): nat {
    if id in c then c[id].version else 0
  }

  function Writes(log: seq<Write>, id: Id): nat {
    if log == [] then 0 else Writes(log[..|log| - 1], id) + if log[|log| - 1].after.id == id then 1 else 0
  }

  /** A step moves no client but its own. */
  lemma OthersStayPut(p: Component, c: Config, l: Label, c': Config)
    requires Step(p, c, l, c')
    ensures |c'.clients| == |c.clients| && forall k | 0 <= k < |c.clients| && k != l.client :: c'.clients[k] == c.clients[k]
  {
  }

  // The log, read on its own

  lemma LawfulIsSuccessor(p: Component, c: Collection, request: Request, w: Write)
    requires WellFormed(c) && Lawful(p, c, request, w)
    ensures Successor(c, w.after) && w.after.version == Version(c, w.after.id) + 1
  {
    match request
    case Transit(_, _, _) =>
      var choice, now :| Alone(p, c, request, choice, now, w);
    case Assign(_, _) =>
      var choice :| AssignedBy(c, request, choice, w);
    case Ensure(_, _) =>
      var choice :| AddedBy(p, c, request, choice, w);
  }

  lemma {:induction false} LogIsWellFormed(p: Component, start: Collection, requests: seq<Request>, log: seq<Write>, j: nat)
    requires WellFormed(start) && LawfulLog(p, start, requests, log) && j <= |log|
    ensures WellFormed(Replay(start, log[..j]))
    ensures j < |log| ==> Replay(start, log[..j + 1]) == Replay(start, log[..j])[log[j].after.id := log[j].after]
    ensures j < |log| ==> Successor(Replay(start, log[..j]), log[j].after)
  {
    if j > 0 {
      LogIsWellFormed(p, start, requests, log, j - 1);
    }
    if j < |log| {
      assert log[..j + 1][..j] == log[..j];
      LawfulOf(p, start, requests, log, j);
      LawfulIsSuccessor(p, Replay(start, log[..j]), requests[log[j].client], log[j]);
    }
  }

  lemma WriteRaises(c: Collection, w: Record, id: Id)
    requires WellFormed(c) && Successor(c, w) && w.version == Version(c, w.id) + 1
    ensures Version(c[w.id := w], id) == Version(c, id) + if w.id == id then 1 else 0
    ensures Version(c[w.id := w], w.id) == w.version
  {
  }

  /** One write in the log raises the version of its id by one and no other. */
  lemma LogRaises(p: Component, start: Collection, requests: seq<Request>, log: seq<Write>, j: nat, id: Id)
    requires WellFormed(start) && LawfulLog(p, start, requests, log) && j < |log|
    ensures Version(Replay(start, log[..j + 1]), id) ==
            Version(Replay(start, log[..j]), id) + if log[j].after.id == id then 1 else 0
    ensures Version(Replay(start, log[..j + 1]), log[j].after.id) == log[j].after.version
  {
    LogIsWellFormed(p, start, requests, log, j);
    LawfulOf(p, start, requests, log, j);
    LawfulIsSuccessor(p, Replay(start, log[..j]), requests[log[j].client], log[j]);
    WriteRaises(Replay(start, log[..j]), log[j].after, id);
  }

  /** The version of an id after the first `k` writes of a log. */
  function Height(start: Collection, log: seq<Write>, id: Id, k: nat): nat
    requires k <= |log|
  {
    Version(Replay(start, log[..k]), id)
  }

  ghost predicate RisesAt(start: Collection, log: seq<Write>, id: Id, k: nat)
    requires k < |log|
  {
    && Height(start, log, id, k + 1) == Height(start, log, id, k) + (if log[k].after.id == id then 1 else 0)
    && (log[k].after.id == id ==> log[k].after.version == Height(start, log, id, k + 1))
  }

  ghost predicate Rises(start: Collection, log: seq<Write>, id: Id) {
    forall k: nat | k < |log| :: RisesAt(start, log, id, k)
  }

  lemma LawfulRises(p: Component, start: Collection, requests: seq<Request>, log: seq<Write>, id: Id)
    requires WellFormed(start) && LawfulLog(p, start, requests, log)
    ensures Rises(start, log, id)
  {
    forall k: nat | k < |log| ensures RisesAt(start, log, id, k) {
      LogRaises(p, start, requests, log, k, id);
    }
  }

  lemma {:induction false} HeightsClimb(start: Collection, log: seq<Write>, id: Id, i: nat, j: nat)
    requires Rises(start, log, id) && i <= j <= |log|
    ensures Height(start, log, id, i) <= Height(start, log, id, j)
    ensures Height(start, log, id, j) == Height(start, log, id, 0) + Writes(log[..j], id)
    decreases j
  {
    if j > 0 {
      HeightsClimb(start, log, id, if i < j then i else i - 1, j - 1);
      assert RisesAt(start, log, id, j - 1);
      assert log[..j][..j - 1] == log[..j - 1];
    }
  }

  /** Along the log no version ever goes down, and every write to an id raises it. */
  lemma VersionsRise(p: Component, start: Collection, requests: seq<Request>, log: seq<Write>, i: nat, j: nat, id: Id)
    requires WellFormed(start) && LawfulLog(p, start, requests, log) && i <= j <= |log|
    ensures Height(start, log, id, i) <= Height(start, log, id, j)
    ensures i < j && log[i].after.id == id ==> log[i].after.version <= Height(start, log, id, j)
  {
    LawfulRises(p, start, requests, log, id);
    HeightsClimb(start, log, id, i, j);
    if i < j {
      assert RisesAt(start, log, id, i);
      HeightsClimb(start, log, id, i + 1, j);
    }
  }

  // Serializability

  /** The log grows exactly when the store changes, by one entry, and nothing in it is ever revised. */
  ghost predicate LogsStep(c: Config, l: Label, c': Config) {
    && c'.requests == c.requests && c.events <= c'.events
    && if c'.log == c.log then c'.store == c.store
       else
         && |c'.log| == |c.log| + 1
         && var w := c'.log[|c.log|];
            c'.log == c.log + [w] && w.client == l.client && c'.store == c.store[w.after.id := w.after] && c'.store != c.store
  }

  lemma StepLogs(p: Component, start: Collection, c: Config, l: Label, c': Config)
    requires Inv(p, start, c) && Step(p, c, l, c')
    ensures LogsStep(c, l, c')
  {
    var k := l.client;
    LocalFacts(p, start, c, k);
    if !c.clients[k].phase.Emitting? {
      StepEffect(p, c, l, c');
      if me :| Moves(p, c, k, me) && c' == Move(c, k, me) {
      } else {
        var me, after, event, reply :| Lands(p, c, k, me, after, event, reply) && c' == Land(c, k, me, after, event, reply);
        assert after.id in c.store ==> c'.store[after.id].version != c.store[after.id].version;
      }
    }
  }

  /**
   No lost updates: at every point of every run the store is the fold, in commit order, of exactly the
   writes that succeeded, and each of them is what its request does alone to the store its predecessor left.
   */
  lemma NoLostUpdates(p: Component, cs: seq<Config>, ls: seq<Label>, i: nat)
    requires Run(p, cs, ls) && i < |cs|
    ensures cs[i].store == Replay(cs[0].store, cs[i].log)
    ensures LawfulLog(p, cs[0].store, cs[i].requests, cs[i].log)
    ensures i < |ls| ==> LogsStep(cs[i], ls[i], cs[i + 1])
  {
    RunKeepsInv(p, cs, ls, i);
    if i < |ls| {
      StepOf(p, cs, ls, i);
      StepLogs(p, cs[0].store, cs[i], ls[i], cs[i + 1]);
    }
  }

  /** `_version` is the number of writes to the id, on top of what was there; each write raised it by one. */
  lemma VersionCountsWrites(p: Component, cs: seq<Config>, ls: seq<Label>, i: nat, id: Id)
    requires Run(p, cs, ls) && i < |cs|
    ensures Version(cs[i].store, id) == Version(cs[0].store, id) + Writes(cs[i].log, id)
    ensures forall w <- cs[i].log :: w.after.version == 1 + if w.before.Some? then w.before.value.version else 0
  {
    RunKeepsInv(p, cs, ls, i);
    var start, log := cs[0].store, cs[i].log;
    LawfulRises(p, start, cs[i].requests, log, id);
    HeightsClimb(start, log, id, 0, |log|);
    assert log[..|log|] == log;
    forall j | 0 <= j < |log|
      ensures log[j].after.version == 1 + if log[j].before.Some? then log[j].before.value.version else 0
    {
      LogIsWellFormed(p, start, cs[i].requests, log, j);
      LawfulOf(p, start, cs[i].requests, log, j);
      LawfulIsSuccessor(p, Replay(start, log[..j]), cs[i].requests[log[j].client], log[j]);
    }
  }

  /** The run, as far as its log is concerned. */
  ghost predicate Logged(cs: seq<Config>, ls: seq<Label>) {
    |cs| == |ls| + 1 && forall t | 0 <= t < |ls| :: LogsStep(cs[t], ls[t], cs[t + 1])
  }

  lemma RunIsLogged(p: Component, cs: seq<Config>, ls: seq<Label>)
    requires Run(p, cs, ls)
    ensures Logged(cs, ls)
  {
    forall t | 0 <= t < |ls| ensures LogsStep(cs[t], ls[t], cs[t + 1]) {
      NoLostUpdates(p, cs, ls, t);
    }
  }

  lemma {:induction false} LogsExtend(cs: seq<Config>, ls: seq<Label>, i: nat, j: nat)
    requires Logged(cs, ls) && i <= j < |cs|
    ensures cs[j].requests == cs[i].requests && cs[i].log <= cs[j].log
    decreases j
  {
    if i < j {
      LogsExtend(cs, ls, i, j - 1);
      assert LogsStep(cs[j - 1], ls[j - 1], cs[j]);
    }
  }

  // Events

  ghost predicate Finished(me: Client) {
    me.phase.Done? || me.phase.Failed?
  }

  /** Client `k` has announced exactly one event, about write `w`. */
  ghost predicate AnnouncedOnce(c: Config, k: nat, w: Write) {
    k < |c.requests| && exists e :: AnnouncedAt(c, k, w, e)
  }

  ghost predicate AnnouncedAt(c: Config, k: nat, w: Write, e: nat)
    requires k < |c.requests|
  {
    && e < |c.events| && c.events[e].client == k && Announces(c.events[e].event, c.requests[k], w)
    && forall e' | 0 <= e' < |c.events| && c.events[e'].client == k :: e' == e
  }

  /**
   When a client with a write is finished it has announced that write exactly once, with a `null` origin
   exactly if the write inserted; the sole exception is a transition that took a field from an object to
   `null`: it has announced nothing and failed, although its write stands.
   */
  lemma OneEventPerWrite(p: Component, cs: seq<Config>, ls: seq<Label>, i: nat, j: nat, k: nat)
    requires Run(p, cs, ls) && i < |cs| && j < |cs[i].log| && cs[i].log[j].client == k
    requires k < |cs[i].clients| && Finished(cs[i].clients[k])
    ensures var w := cs[i].log[j];
      && |cs[i].clients| == |cs[i].requests|
      && (AnnouncedOnce(cs[i], k, w) <==> !ChangesetThrows(cs[i].requests[k], w))
      && (cs[i].clients[k].phase == Failed(System) <==> ChangesetThrows(cs[i].requests[k], w))
      && (ChangesetThrows(cs[i].requests[k], w) ==> forall e | 0 <= e < |cs[i].events| :: cs[i].events[e].client != k)
  {
    RunKeepsInv(p, cs, ls, i);
    FinishedAnnounced(p, cs[0].store, cs[i], k, j);
  }

  lemma FinishedAnnounced(p: Component, start: Collection, c: Config, k: nat, j: nat)
    requires Inv(p, start, c) && j < |c.log| && c.log[j].client == k && k < |c.clients| && Finished(c.clients[k])
    ensures |c.clients| == |c.requests|
    ensures AnnouncedOnce(c, k, c.log[j]) <==> !ChangesetThrows(c.requests[k], c.log[j])
    ensures c.clients[k].phase == Failed(System) <==> ChangesetThrows(c.requests[k], c.log[j])
    ensures ChangesetThrows(c.requests[k], c.log[j]) ==> forall e | 0 <= e < |c.events| :: c.events[e].client != k
  {
    assert ClientInv(c.requests[k], c.clients[k], c.log, c.events);
    if c.clients[k].phase.Done? {
      assert AnnouncedAt(c, k, c.log[j], c.clients[k].event.value);
    }
  }

  /** Outside `ensure`, an event always stands for a write. */
  lemma EventsStandForWrites(p: Component, cs: seq<Config>, ls: seq<Label>, i: nat, e: nat)
    requires Run(p, cs, ls) && i < |cs| && e < |cs[i].events|
    ensures var c := cs[i];
      var k := c.events[e].client;
      && k < |c.clients| == |c.requests|
      && (c.clients[k].write.Some? ==>
            c.clients[k].write.value < |c.log| && c.log[c.clients[k].write.value].client == k
            && Announces(c.events[e].event, c.requests[k], c.log[c.clients[k].write.value]))
      && (c.clients[k].write.None? ==> c.requests[k].Ensure?)
  {
    RunKeepsInv(p, cs, ls, i);
    var c := cs[i];
    assert ClientInv(c.requests[c.events[e].client], c.clients[c.events[e].client], c.log, c.events);
  }

  /** Patching a transition event's origin with its changeset gives the state that was written. */
  lemma ChangesetsPatch(p: Component, cs: seq<Config>, ls: seq<Label>, i: nat, e: nat)
    requires Run(p, cs, ls) && i < |cs| && e < |cs[i].events|
    requires var event := cs[i].events[e].event;
      event.origin.Of? && Plain(ToFields(event.origin.record)) && Plain(ToFields(event.state))
    requires cs[i].events[e].client < |cs[i].requests| ==> cs[i].requests[cs[i].events[e].client].Transit?
    ensures var event := cs[i].events[e].event;
      Differences.Patch(ToFields(event.origin.record), event.changeset) == ToFields(event.state)
  {
    EventsStandForWrites(p, cs, ls, i, e);
    var event := cs[i].events[e].event;
    Differences.PatchDifference(ToFields(event.origin.record), ToFields(event.state));
  }

  lemma OneInsertPerId(p: Component, start: Collection, requests: seq<Request>, log: seq<Write>, i: nat, j: nat)
    requires WellFormed(start) && LawfulLog(p, start, requests, log) && i < |log| && j < |log|
    requires log[i].after.id == log[j].after.id && log[i].before.None? && log[j].before.None?
    ensures i == j
  {
    LawfulOf(p, start, requests, log, i);
    LawfulOf(p, start, requests, log, j);
    if i < j {
      VersionsRise(p, start, requests, log, i, j, log[i].after.id);
      LogIsWellFormed(p, start, requests, log, i);
    } else if j < i {
      VersionsRise(p, start, requests, log, j, i, log[i].after.id);
      LogIsWellFormed(p, start, requests, log, j);
    }
  }

  // Conditional writes

  /** The request asks for version `v` of whatever it selects. */
  ghost predicate Conditional(request: Request, v: int) {
    match request
    case Transit(query, _, _) => query.Some? && query.value.version == Some(v)
    case Assign(query, _) => query.Some? && query.value.version == Some(v)
    case Ensure(_, _) => false
  }

  lemma ConditionalWrite(p: Component, c: Collection, request: Request, w: Write, v: int)
    requires WellFormed(c) && Lawful(p, c, request, w) && Conditional(request, v)
    ensures w.before.Some? && w.before.value.version == v && w.after.version == v + 1 && Version(c, w.after.id) == v
  {
    LawfulIsSuccessor(p, c, request, w);
    match request
    case Transit(_, _, _) =>
      var choice, now :| Alone(p, c, request, choice, now, w);
    case Assign(_, _) =>
      var choice :| AssignedBy(c, request, choice, w);
    case Ensure(_, _) =>
  }

  /**
   Of all the transitions and assignments that ask for the same version of the same id, at most one
   succeeds in a run; it replaces a record at that version and leaves the next one.
   */
  lemma AtMostOneConditionalWrite(p: Component, cs: seq<Config>, ls: seq<Label>, t: nat, i: nat, j: nat, v: int)
    requires Run(p, cs, ls) && t < |cs| && i < |cs[t].log| && j < |cs[t].log|
    requires forall w <- cs[t].log :: w.client < |cs[t].requests|
    requires Conditional(cs[t].requests[cs[t].log[i].client], v) && Conditional(cs[t].requests[cs[t].log[j].client], v)
    requires cs[t].log[i].after.id == cs[t].log[j].after.id
    ensures i == j
    ensures cs[t].log[i].before.Some? && cs[t].log[i].before.value.version == v && cs[t].log[i].after.version == v + 1
  {
    RunKeepsInv(p, cs, ls, t);
    var start, requests, log := cs[0].store, cs[t].requests, cs[t].log;
    var a, b := if i <= j then i else j, if i <= j then j else i;
    LogIsWellFormed(p, start, requests, log, a);
    LogIsWellFormed(p, start, requests, log, b);
    LawfulOf(p, start, requests, log, a);
    LawfulOf(p, start, requests, log, b);
    ConditionalWrite(p, Replay(start, log[..a]), requests[log[a].client], log[a], v);
    ConditionalWrite(p, Replay(start, log[..b]), requests[log[b].client], log[b], v);
    VersionsRise(p, start, requests, log, a, b, log[a].after.id);
  }

  // Soft deletion

  lemma DeletedIsAssigned(p: Component, c: Collection, request: Request, w: Write)
    requires WellFormed(c) && Lawful(p, c, request, w)
    ensures w.before.Some? && w.before.value.deleted.Some? ==> request.Assign?
  {
    LawfulIsSuccessor(p, c, request, w);
    match request
    case Transit(_, _, _) =>
      var choice, now :| Alone(p, c, request, choice, now, w);
    case Assign(_, _) =>
    case Ensure(_, _) =>
      var choice :| AddedBy(p, c, request, choice, w);
  }

  /** Whatever lands between its read and its write, no transition replaces a deleted record; only an assignment can. */
  lemma OnlyAssignmentsRevive(p: Component, cs: seq<Config>, ls: seq<Label>, i: nat, j: nat)
    requires Run(p, cs, ls) && i < |cs| && j < |cs[i].log|
    ensures var w := cs[i].log[j];
      && w.client < |cs[i].requests|
      && (w.before.Some? && w.before.value.deleted.Some? ==> cs[i].requests[w.client].Assign?)
  {
    RunKeepsInv(p, cs, ls, i);
    var w := cs[i].log[j];
    LogIsWellFormed(p, cs[0].store, cs[i].requests, cs[i].log, j);
    LawfulOf(p, cs[0].store, cs[i].requests, cs[i].log, j);
    DeletedIsAssigned(p, Replay(cs[0].store, cs[i].log[..j]), cs[i].requests[w.client], w);
  }

  // Retries

  /** One request runs its algorithm at most 33 times and answers from the attempt that wrote, or from a refusal. */
  lemma RepliesComeFromWinners(p: Component, cs: seq<Config>, ls: seq<Label>, i: nat, k: nat)
    requires Run(p, cs, ls) && i < |cs| && k < |cs[i].clients|
    ensures var me := cs[i].clients[k];
      && me.executions <= 33
      && (me.phase.Done? && me.phase.reply.Output? && k < |cs[i].requests| && !cs[i].requests[k].Ensure? ==>
            && me.write.Some? && me.write.value < |cs[i].log|
            && cs[i].log[me.write.value].client == k && cs[i].log[me.write.value].reply == me.phase.reply)
  {
    RunKeepsInv(p, cs, ls, i);
    LocalFacts(p, cs[0].store, cs[i], k);
  }

  ghost predicate Loses(c: Config, k: nat, now: Time) {
    && k < |c.clients| == |c.requests| && c.clients[k].phase.Holding? && c.requests[k].Transit?
    && Commit(c.store, c.requests[k].algorithm, c.clients[k].phase.scope, now).Conflict?
  }

  /** Between steps `a` and `f` only others move. */
  ghost predicate Waits(ls: seq<Label>, k: nat, a: nat, f: nat) {
    forall t | a < t < f && t < |ls| :: ls[t].client != k
  }

  lemma {:induction false} WaitingKeepsScope(p: Component, cs: seq<Config>, ls: seq<Label>, k: nat, a: nat, f: nat)
    requires Run(p, cs, ls) && a < f <= |ls| && Waits(ls, k, a, f)
    requires k < |cs[a + 1].clients|
    ensures k < |cs[f].clients| && cs[f].clients[k] == cs[a + 1].clients[k]
    decreases f
  {
    if f > a + 1 {
      WaitingKeepsScope(p, cs, ls, k, a, f - 1);
      StepOf(p, cs, ls, f - 1);
      OthersStayPut(p, cs[f - 1], ls[f - 1], cs[f]);
    }
  }

  /** The write that beat client `k` in the window between steps `a` and `f`. */
  ghost predicate BeatenBy(cs: seq<Config>, k: nat, a: nat, f: nat, id: Id, t: nat) {
    && a < t < f && t + 1 < |cs|
    && |cs[t + 1].log| == |cs[t].log| + 1
    && cs[t + 1].log[|cs[t].log|].after.id == id && cs[t + 1].log[|cs[t].log|].client != k
  }

  lemma ChangeIsLogged(c: Config, l: Label, c': Config, id: Id)
    requires LogsStep(c, l, c') && Find(c.store, id) != Find(c'.store, id)
    ensures |c'.log| == |c.log| + 1 && c'.log[|c.log|].after.id == id && c'.log[|c.log|].client == l.client
  {
  }

  lemma {:induction false} SomeoneWrote(cs: seq<Config>, ls: seq<Label>, k: nat, a: nat, f: nat, id: Id)
    requires Logged(cs, ls) && a < f <= |ls| && Waits(ls, k, a, f)
    requires Find(cs[a + 1].store, id) != Find(cs[f].store, id)
    ensures exists t :: BeatenBy(cs, k, a, f, id, t)
    decreases f
  {
    if Find(cs[a + 1].store, id) != Find(cs[f - 1].store, id) {
      SomeoneWrote(cs, ls, k, a, f - 1, id);
      var t :| BeatenBy(cs, k, a, f - 1, id, t);
      assert BeatenBy(cs, k, a, f, id, t);
    } else {
      assert LogsStep(cs[f - 1], ls[f - 1], cs[f]);
      ChangeIsLogged(cs[f - 1], ls[f - 1], cs[f], id);
      assert BeatenBy(cs, k, a, f, id, f - 1);
    }
  }

  /** What a read holds is exactly what the store has under that id. */
  lemma AcquireIsExact(p: Component, c: Collection, request: Request, choice: Choice)
    requires WellFormed(c) && request.Transit? && ValidChoice(c, request, choice)
    requires request.query.None? ==> choice.newid !in c
    ensures var read := Acquire(p, c, request.query, choice); read.Ok? ==> Find(c, read.value.state.id) == read.value.origin
  {
    if request.query.Some? && request.query.value.id.Some? {
      assert Selects(c, request.query.value, request.query.value.id.value)
             || request.query.value.id.value !in c || request.query.value.criteria.Some? || request.query.value.version.Some?;
    }
  }

  /** A commit can only lose to a store that is not what was read. */
  lemma LosesToChange(c: Collection, algorithm: Record -> Outcome, scope: Snapshot, now: Time)
    requires Commit(c, algorithm, scope, now).Conflict?
    requires if scope.origin.Some? then scope.origin.value == scope.state && scope.state.version >= 1 else scope.state.version == 0
    ensures Find(c, scope.state.id) != scope.origin
  {
  }

  /**
   Lock-freedom: a commit that loses (step `f`) was beaten, since its read (step `a`), by another client's
   successful write to the same id. A request without a query loses to nobody else only when the id it
   drew was taken from the start.
   */
  lemma LosersWereBeaten(p: Component, cs: seq<Config>, ls: seq<Label>, k: nat, a: nat, f: nat, scope: Snapshot)
    requires Run(p, cs, ls) && a < f < |ls| && Waits(ls, k, a, f)
    requires ls[a].client == k && k < |cs[a].clients| == |cs[a].requests| && cs[a].clients[k].phase.Ready?
    requires cs[a].requests[k].Transit? && (cs[a].requests[k].query.None? ==> ls[a].choice.newid !in cs[a].store)
    requires k < |cs[a + 1].clients| && cs[a + 1].clients[k].phase == Holding(scope)
    requires ls[f].client == k && Loses(cs[f], k, ls[f].choice.now)
    ensures exists t :: BeatenBy(cs, k, a, f, scope.state.id, t)
  {
    RunKeepsInv(p, cs, ls, a);
    RunKeepsInv(p, cs, ls, f);
    WaitingKeepsScope(p, cs, ls, k, a, f);
    LocalFacts(p, cs[0].store, cs[f], k);
    StepOf(p, cs, ls, a);
    StepOf(p, cs, ls, f);
    AcquireIsExact(p, cs[a].store, cs[a].requests[k], ls[a].choice);
    LosesToChange(cs[f].store, cs[f].requests[k].algorithm, scope, ls[f].choice.now);
    RunIsLogged(p, cs, ls);
    SomeoneWrote(cs, ls, k, a, f, scope.state.id);
  }
}
