/** What every step of the persistence protocol keeps. */
module ProtocolInvariant {
  import opened Wrappers
  import opened Json
  import opened Records
  import opened Storages
  import opened Protocol
  import Differences

  /** What a transition read, as far as later steps may rely on it. */
  ghost predicate Read(p: Component, request: Request, choice: Choice, scope: Snapshot) {
    && request.Transit?
    && match scope.origin
       case Some(r) =>
         && request.query.Some? && Matches(request.query.value, r)
         && r.deleted.None? && r.version >= 1 && scope.state == r && choice.picked == r.id
       case None =>
         (match request.query
          case None => scope.state == Blank(choice.newid, p.defaults, choice.now)
          case Some(q) =>
            && p.associated && q.id.Some? && q.criteria.None? && q.version.None?
            && scope.state == Blank(q.id.value, p.defaults, choice.now))
  }

  /** The record read is either still there or overtaken: no version ever returns. */
  ghost predicate Current(c: Collection, scope: Snapshot) {
    scope.origin.Some? ==>
      && var r := scope.origin.value;
      && r.id in c && c[r.id].version >= r.version && (c[r.id].version == r.version ==> c[r.id] == r)
  }

  ghost predicate ScopeInv(p: Component, c: Collection, request: Request, me: Client) {
    me.phase.Holding? ==>
      Current(c, me.phase.scope) && exists choice :: Read(p, request, choice, me.phase.scope)
  }

  ghost predicate AttemptInv(me: Client) {
    && me.attempt <= RETRIES
    && (if me.phase.Ready? || me.phase.Holding? then me.executions == me.attempt else me.executions <= me.attempt + 1)
  }

  /**
   The origin an event carries tells how its write came about; a transition's changeset is the difference it made,
   that of an insertion is the whole state, and that of an assignment what was set.
   */
  ghost predicate Announces(event: Event, request: Request, w: Write) {
    && event.state == w.after
    && (if request.Assign? then event.origin.NoOrigin?
        else event.origin == if w.before.Some? then Of(w.before.value) else NullOrigin)
    && (request.Transit? && w.before.Some? ==>
          Differences.Difference(ToFields(w.before.value), ToFields(w.after)) == Some(event.changeset))
    && (!request.Assign? && w.before.None? ==> event.changeset == ToFields(w.after))
    && (request.Assign? ==>
          && request.amendment.Amend?
          && event.changeset == ChangesToFields(Restoring(Sealed(request.amendment.changes, w.after.updated))))
  }

  /** The write took a field from an object to `null`, which `difference` cannot express. */
  ghost predicate ChangesetThrows(request: Request, w: Write) {
    request.Transit? && w.before.Some? && Differences.ObjectToNull(ToFields(w.before.value), ToFields(w.after))
  }

  /** A client without a write: only `ensure` can announce or output anything. */
  ghost predicate IdleInv(request: Request, me: Client) {
    && (me.event.Some? ==> me.phase.Done? && request.Ensure?)
    && (me.phase.Emitting? ==> request.Ensure? && me.phase.pending.Some?)
    && (me.phase.Done? && !request.Ensure? ==> me.phase.reply.Fault?)
  }

  /** A client with write `w`: the event is pending, sent, or lost because its changeset throws. */
  ghost predicate WriterInv(request: Request, me: Client, w: Write, events: seq<Emission>) {
    match me.phase
    case Emitting(pending, reply) =>
      && me.event.None? && w.reply == reply
      && (pending.None? <==> ChangesetThrows(request, w))
      && (pending.Some? ==> Announces(pending.value, request, w))
    case Done(reply) =>
      && w.reply == reply && !ChangesetThrows(request, w)
      && me.event.Some? && me.event.value < |events| && Announces(events[me.event.value].event, request, w)
    case Failed(exception) => exception == System && me.event.None? && ChangesetThrows(request, w)
    case _ => false
  }

  ghost predicate ClientInv(request: Request, me: Client, log: seq<Write>, events: seq<Emission>) {
    if me.write.None? then IdleInv(request, me)
    else me.write.value < |log| && WriterInv(request, me, log[me.write.value], events)
  }

  /** Clients and log entries point at each other, so no client has two writes or two events. */
  ghost predicate Linked(clients: seq<Client>, log: seq<Write>, events: seq<Emission>) {
    && (forall j | 0 <= j < |log| :: log[j].client < |clients| && clients[log[j].client].write == Some(j))
    && (forall e | 0 <= e < |events| :: events[e].client < |clients| && clients[events[e].client].event == Some(e))
    && (forall k | 0 <= k < |clients| && clients[k].write.Some? ::
          clients[k].write.value < |log| && log[clients[k].write.value].client == k)
    && (forall k | 0 <= k < |clients| && clients[k].event.Some? ::
          clients[k].event.value < |events| && events[clients[k].event.value].client == k)
  }

  ghost predicate StoreInv(p: Component, start: Collection, c: Config) {
    && WellFormed(start) && WellFormed(c.store)
    && c.store == Replay(start, c.log)
    && LawfulLog(p, start, c.requests, c.log)
  }

  ghost predicate ScopesInv(p: Component, c: Config) {
    && |c.requests| == |c.clients|
    && forall k | 0 <= k < |c.clients| :: ScopeInv(p, c.store, c.requests[k], c.clients[k])
  }

  ghost predicate ClientsInv(c: Config) {
    && |c.requests| == |c.clients|
    && forall k | 0 <= k < |c.clients| ::
         AttemptInv(c.clients[k]) && ClientInv(c.requests[k], c.clients[k], c.log, c.events)
  }

  ghost predicate Inv(p: Component, start: Collection, c: Config) {
    && |c.requests| == |c.clients|
    && StoreInv(p, start, c) && ScopesInv(p, c) && ClientsInv(c) && Linked(c.clients, c.log, c.events)
  }

  // What one write does

  /** A landed record either replaces its predecessor version or takes a free id at version 1. */
  ghost predicate Successor(c: Collection, after: Record) {
    if after.id in c then after.version == c[after.id].version + 1 else after.version == 1
  }

  lemma ReadBackIsCurrent(p: Component, c: Collection, request: Request, choice: Choice, scope: Snapshot, now: Time)
    requires WellFormed(c) && Current(c, scope) && Read(p, request, choice, scope)
    requires Commit(c, request.algorithm, scope, now).Stored?
    ensures var r := Commit(c, request.algorithm, scope, now);
      && Alone(p, c, request, choice, now, Write(0, Find(c, r.scope.state.id), r.scope.state, r.reply))
      && Successor(c, r.scope.state)
      && r.scope.origin == Find(c, r.scope.state.id)
  {
  }

  lemma WriteKeepsCurrent(c: Collection, after: Record, scope: Snapshot)
    requires Current(c, scope) && Successor(c, after)
    ensures Current(c[after.id := after], scope)
  {
  }

  lemma LandKeepsStore(p: Component, start: Collection, c: Config, c': Config, w: Write)
    requires StoreInv(p, start, c)
    requires c'.log == c.log + [w] && c'.store == c.store[w.after.id := w.after] && c'.requests == c.requests
    requires w.client < |c.requests| && Lawful(p, c.store, c.requests[w.client], w) && Successor(c.store, w.after)
    ensures StoreInv(p, start, c')
  {
    assert c'.log[..|c.log|] == c.log;
    LandKeepsLawful(p, start, c.requests, c.log, w);
  }

  lemma LandKeepsLawful(p: Component, start: Collection, requests: seq<Request>, log: seq<Write>, w: Write)
    requires LawfulLog(p, start, requests, log)
    requires w.client < |requests| && Lawful(p, Replay(start, log), requests[w.client], w)
    ensures LawfulLog(p, start, requests, log + [w])
  {
    var log' := log + [w];
    forall j: nat | j < |log'| ensures LawfulAt(p, start, requests, log', j) {
      if j < |log| {
        assert LawfulAt(p, start, requests, log, j);
        assert log'[..j] == log[..j] && log'[j] == log[j];
      } else {
        assert log'[..j] == log;
      }
    }
  }

  lemma LandKeepsScopes(p: Component, c: Config, k: nat, me: Client, after: Record, event: Option<Event>, reply: Reply)
    requires ScopesInv(p, c) && k < |c.clients| && Successor(c.store, after)
    ensures ScopesInv(p, Land(c, k, me, after, event, reply))
  {
    forall i | 0 <= i < |c.clients| && i != k && c.clients[i].phase.Holding?
      ensures Current(c.store[after.id := after], c.clients[i].phase.scope)
    {
      WriteKeepsCurrent(c.store, after, c.clients[i].phase.scope);
    }
  }

  lemma MoreHistoryKeepsClient(request: Request, me: Client, log: seq<Write>, log': seq<Write>, events: seq<Emission>, events': seq<Emission>)
    requires ClientInv(request, me, log, events) && log <= log' && events <= events'
    ensures ClientInv(request, me, log', events')
  {
  }

  // The two kinds of steps before an event goes out

  /** What the invariant says of client `k` alone. */
  ghost predicate LocalInv(p: Component, c: Config, k: nat)
    requires k < |c.clients| == |c.requests|
  {
    && WellFormed(c.store) && AttemptInv(c.clients[k]) && ScopeInv(p, c.store, c.requests[k], c.clients[k])
    && ClientInv(c.requests[k], c.clients[k], c.log, c.events)
  }

  ghost predicate Moves(p: Component, c: Config, k: nat, me: Client)
    requires k < |c.clients| == |c.requests|
  {
    && me.write == c.clients[k].write && me.event == c.clients[k].event
    && ScopeInv(p, c.store, c.requests[k], me) && AttemptInv(me) && ClientInv(c.requests[k], me, c.log, c.events)
  }

  ghost predicate Lands(p: Component, c: Config, k: nat, me: Client, after: Record, event: Option<Event>, reply: Reply)
    requires k < |c.clients| == |c.requests|
  {
    var w := Write(k, Find(c.store, after.id), after, reply);
    && (c.clients[k].phase.Ready? || c.clients[k].phase.Holding?)
    && me == c.clients[k].(executions := me.executions) && me.executions <= me.attempt + 1
    && Successor(c.store, after) && Lawful(p, c.store, c.requests[k], w)
    && (event.None? <==> ChangesetThrows(c.requests[k], w))
    && (event.Some? ==> Announces(event.value, c.requests[k], w))
  }

  ghost predicate MovesOrLands(p: Component, c: Config, k: nat, c': Config)
    requires k < |c.clients| == |c.requests|
  {
    || (exists me :: Moves(p, c, k, me) && c' == Move(c, k, me))
    || (exists me, after, event, reply :: Lands(p, c, k, me, after, event, reply) && c' == Land(c, k, me, after, event, reply))
  }

  lemma QuietKeepsLinked(clients: seq<Client>, k: nat, me: Client, log: seq<Write>, events: seq<Emission>)
    requires Linked(clients, log, events) && k < |clients|
    requires me.write == clients[k].write && me.event == clients[k].event
    ensures Linked(clients[k := me], log, events)
  {
  }

  lemma QuietKeepsScopes(p: Component, c: Config, k: nat, me: Client)
    requires ScopesInv(p, c) && k < |c.clients| && ScopeInv(p, c.store, c.requests[k], me)
    ensures ScopesInv(p, Move(c, k, me))
  {
    var c' := Move(c, k, me);
    assert forall i | 0 <= i < |c.clients| && i != k :: c'.clients[i] == c.clients[i];
  }

  lemma QuietKeepsClients(c: Config, k: nat, me: Client)
    requires ClientsInv(c) && k < |c.clients| && AttemptInv(me) && ClientInv(c.requests[k], me, c.log, c.events)
    ensures ClientsInv(Move(c, k, me))
  {
    var c' := Move(c, k, me);
    assert forall i | 0 <= i < |c.clients| && i != k :: c'.clients[i] == c.clients[i];
  }

  lemma MoveKeepsInv(p: Component, start: Collection, c: Config, k: nat, me: Client)
    requires Inv(p, start, c) && k < |c.clients| && Moves(p, c, k, me)
    ensures Inv(p, start, Move(c, k, me))
  {
    QuietKeepsLinked(c.clients, k, me, c.log, c.events);
    QuietKeepsScopes(p, c, k, me);
    QuietKeepsClients(c, k, me);
    assert StoreInv(p, start, Move(c, k, me));
  }

  lemma LandKeepsClients(c: Config, k: nat, me: Client, after: Record, event: Option<Event>, reply: Reply)
    requires ClientsInv(c) && k < |c.clients| && me.event.None?
    requires me.attempt <= RETRIES && me.executions <= me.attempt + 1
    requires var w := Write(k, Find(c.store, after.id), after, reply);
      && (event.None? <==> ChangesetThrows(c.requests[k], w))
      && (event.Some? ==> Announces(event.value, c.requests[k], w))
    ensures ClientsInv(Land(c, k, me, after, event, reply))
  {
    var c' := Land(c, k, me, after, event, reply);
    forall i | 0 <= i < |c.clients| && i != k
      ensures ClientInv(c.requests[i], c.clients[i], c'.log, c'.events)
    {
      MoreHistoryKeepsClient(c.requests[i], c.clients[i], c.log, c'.log, c.events, c'.events);
    }
  }

  lemma LandKeepsLinked(clients: seq<Client>, k: nat, me: Client, log: seq<Write>, events: seq<Emission>, w: Write)
    requires Linked(clients, log, events) && k < |clients| && clients[k].write.None? && w.client == k
    requires me.write == Some(|log|) && me.event == clients[k].event
    ensures Linked(clients[k := me], log + [w], events)
  {
  }

  lemma LandKeepsInv(p: Component, start: Collection, c: Config, k: nat, me: Client, after: Record, event: Option<Event>, reply: Reply)
    requires Inv(p, start, c) && k < |c.clients|
    requires Lands(p, c, k, me, after, event, reply)
    ensures Inv(p, start, Land(c, k, me, after, event, reply))
  {
    var c' := Land(c, k, me, after, event, reply);
    var w := Write(k, Find(c.store, after.id), after, reply);
    assert AttemptInv(c.clients[k]) && ClientInv(c.requests[k], c.clients[k], c.log, c.events);
    LandKeepsStore(p, start, c, c', w);
    LandKeepsScopes(p, c, k, me, after, event, reply);
    LandKeepsClients(c, k, me, after, event, reply);
    LandKeepsLinked(c.clients, k, c'.clients[k], c.log, c.events, w);
  }

  lemma EmitKeepsLinked(clients: seq<Client>, k: nat, me: Client, log: seq<Write>, events: seq<Emission>, event: Event)
    requires Linked(clients, log, events) && k < |clients| && clients[k].event.None?
    requires me.write == clients[k].write && me.event == Some(|events|)
    ensures Linked(clients[k := me], log, events + [Emission(k, event)])
  {
  }

  lemma EmitKeepsClients(c: Config, k: nat)
    requires ClientsInv(c) && k < |c.clients| && c.clients[k].phase.Emitting? && c.clients[k].phase.pending.Some?
    ensures ClientsInv(EmitStep(c, k))
  {
    var c' := EmitStep(c, k);
    forall i | 0 <= i < |c.clients| && i != k
      ensures ClientInv(c'.requests[i], c'.clients[i], c'.log, c'.events)
    {
      MoreHistoryKeepsClient(c.requests[i], c.clients[i], c.log, c'.log, c.events, c'.events);
    }
    assert AttemptInv(c.clients[k]) && ClientInv(c.requests[k], c.clients[k], c.log, c.events);
  }

  lemma EmitKeepsInv(p: Component, start: Collection, c: Config, k: nat)
    requires Inv(p, start, c) && k < |c.clients| && c.clients[k].phase.Emitting?
    ensures Inv(p, start, EmitStep(c, k))
  {
    var me := c.clients[k];
    assert AttemptInv(me) && ClientInv(c.requests[k], me, c.log, c.events);
    match me.phase.pending
    case None =>
      MoveKeepsInv(p, start, c, k, me.(phase := Failed(System)));
    case Some(event) =>
      var me' := me.(phase := Done(me.phase.reply), event := Some(|c.events|));
      EmitKeepsClients(c, k);
      QuietKeepsScopes(p, c, k, me');
      EmitKeepsLinked(c.clients, k, me', c.log, c.events, event);
      assert StoreInv(p, start, EmitStep(c, k));
  }

  /** A commit that succeeds is what the request would have done alone, and announces it or throws. */
  lemma StoredIsLawful(p: Component, c: Collection, request: Request, me: Client, k: nat, now: Time)
    requires WellFormed(c) && request.Transit? && me.phase.Holding? && ScopeInv(p, c, request, me)
    requires Commit(c, request.algorithm, me.phase.scope, now).Stored?
    ensures var r := Commit(c, request.algorithm, me.phase.scope, now);
      var w := Write(k, Find(c, r.scope.state.id), r.scope.state, r.reply);
      var event := EntityEvent(r.scope);
      && Successor(c, r.scope.state) && Lawful(p, c, request, w)
      && (event.None? <==> ChangesetThrows(request, w))
      && (event.Some? ==> Announces(event.value, request, w))
  {
    var r := Commit(c, request.algorithm, me.phase.scope, now);
    var choice :| Read(p, request, choice, me.phase.scope);
    ReadBackIsCurrent(p, c, request, choice, me.phase.scope, now);
    assert Alone(p, c, request, choice, now, Write(k, Find(c, r.scope.state.id), r.scope.state, r.reply));
    if r.scope.origin.Some? {
      Differences.DifferenceThrowsIff(ToFields(r.scope.origin.value), ToFields(r.scope.state));
    }
  }

  lemma BeatenMoves(p: Component, c: Config, k: nat)
    requires k < |c.clients| == |c.requests| && LocalInv(p, c, k)
    requires c.clients[k].phase.Holding? && c.requests[k].Transit?
    ensures Moves(p, c, k, Beaten(c.clients[k].(executions := c.clients[k].executions + 1), c.requests[k].retry))
  {
  }

  lemma CommitEffect(p: Component, c: Config, k: nat, now: Time)
    requires k < |c.clients| == |c.requests| && LocalInv(p, c, k)
    requires c.clients[k].phase.Holding? && c.requests[k].Transit?
    ensures MovesOrLands(p, c, k, CommitStep(c, k, now))
  {
    var me := c.clients[k].(executions := c.clients[k].executions + 1);
    match Commit(c.store, c.requests[k].algorithm, me.phase.scope, now)
    case Refused(error) =>
      assert Moves(p, c, k, me.(phase := Done(Fault(error))));
    case Conflict =>
      BeatenMoves(p, c, k);
    case Stored(scope, reply) =>
      StoredIsLawful(p, c.store, c.requests[k], c.clients[k], k, now);
      assert Lands(p, c, k, me, scope.state, EntityEvent(scope), reply);
  }

  lemma TransitEffect(p: Component, c: Config, k: nat, choice: Choice)
    requires k < |c.clients| == |c.requests| && LocalInv(p, c, k)
    requires c.clients[k].phase.Ready? && c.requests[k].Transit?
    ensures MovesOrLands(p, c, k, StartStep(p, c, k, choice))
  {
    var me := c.clients[k];
    match Acquire(p, c.store, c.requests[k].query, choice)
    case Ok(scope) =>
      assert Read(p, c.requests[k], choice, scope);
      assert Moves(p, c, k, me.(phase := Holding(scope)));
    case Err(exception) =>
      assert Moves(p, c, k, me.(phase := Failed(exception)));
  }

  lemma AssignEffect(p: Component, c: Config, k: nat, choice: Choice)
    requires k < |c.clients| == |c.requests| && LocalInv(p, c, k)
    requires c.clients[k].phase.Ready? && c.requests[k].Assign? && ValidChoice(c.store, c.requests[k], choice)
    ensures MovesOrLands(p, c, k, StartStep(p, c, k, choice))
  {
    var me := c.clients[k];
    match Apply(c.store, c.requests[k].target, c.requests[k].amendment, choice)
    case Declined(error) =>
      assert Moves(p, c, k, me.(phase := Done(Fault(error))));
    case Missed(exception) =>
      assert Moves(p, c, k, me.(phase := Failed(exception)));
    case Updated(state, event, reply) =>
      assert AssignedBy(c.store, c.requests[k], choice, Write(k, Find(c.store, state.id), state, reply));
      assert Lands(p, c, k, me, state, Some(event), reply);
  }

  lemma EnsureEffect(p: Component, c: Config, k: nat, choice: Choice)
    requires k < |c.clients| == |c.requests| && LocalInv(p, c, k)
    requires c.clients[k].phase.Ready? && c.requests[k].Ensure? && ValidChoice(c.store, c.requests[k], choice)
    ensures MovesOrLands(p, c, k, StartStep(p, c, k, choice))
  {
    var me := c.clients[k];
    match EnsureStep(p, c.store, c.requests[k].query, c.requests[k].properties, choice)
    case Kept(record) =>
      assert Moves(p, c, k, me.(phase := Done(Output(Object(ToFields(record))))));
    case Reannounced(state) =>
      assert Moves(p, c, k, me.(phase := Emitting(EntityEvent(Snapshot(None, state)), Output(Object(ToFields(state))))));
    case Added(state) =>
      var reply := Output(Object(ToFields(state)));
      assert AddedBy(p, c.store, c.requests[k], choice, Write(k, Find(c.store, state.id), state, reply));
      assert Lands(p, c, k, me, state, EntityEvent(Snapshot(None, state)), reply);
    case Crashed =>
      assert Moves(p, c, k, me.(phase := Failed(System)));
  }

  lemma StepEffect(p: Component, c: Config, l: Label, c': Config)
    requires l.client < |c.clients| == |c.requests| && LocalInv(p, c, l.client) && Step(p, c, l, c')
    requires !c.clients[l.client].phase.Emitting?
    ensures MovesOrLands(p, c, l.client, c')
  {
    match c.clients[l.client].phase
    case Ready =>
      match c.requests[l.client] {
        case Transit(_, _, _) => TransitEffect(p, c, l.client, l.choice);
        case Assign(_, _) => AssignEffect(p, c, l.client, l.choice);
        case Ensure(_, _) => EnsureEffect(p, c, l.client, l.choice);
      }
    case Holding(_) => CommitEffect(p, c, l.client, l.choice.now);
  }

  lemma LocalFacts(p: Component, start: Collection, c: Config, k: nat)
    requires Inv(p, start, c) && k < |c.clients|
    ensures LocalInv(p, c, k)
  {
  }

  lemma StepKeepsInv(p: Component, start: Collection, c: Config, l: Label, c': Config)
    requires Inv(p, start, c) && Step(p, c, l, c')
    ensures Inv(p, start, c')
  {
    var k := l.client;
    LocalFacts(p, start, c, k);
    if c.clients[k].phase.Emitting? {
      EmitKeepsInv(p, start, c, k);
    } else {
      StepEffect(p, c, l, c');
      if me :| Moves(p, c, k, me) && c' == Move(c, k, me) {
        MoveKeepsInv(p, start, c, k, me);
      } else {
        var me, after, event, reply :| Lands(p, c, k, me, after, event, reply) && c' == Land(c, k, me, after, event, reply);
        LandKeepsInv(p, start, c, k, me, after, event, reply);
      }
    }
  }

  /** Every configuration of every run satisfies the invariant. */
  lemma {:induction false} RunKeepsInv(p: Component, cs: seq<Config>, ls: seq<Label>, i: nat)
    requires Run(p, cs, ls) && i < |cs|
    ensures Inv(p, cs[0].store, cs[i])
  {
    if i > 0 {
      RunKeepsInv(p, cs, ls, i - 1);
      StepOf(p, cs, ls, i - 1);
      StepKeepsInv(p, cs[0].store, cs[i - 1], ls[i - 1], cs[i]);
    }
  }
}
