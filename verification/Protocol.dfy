/**
 The persistence protocol as a step system: any number of clients, each with one request,
 over one collection. Every storage call is one atomic step and any interleaving is a run.
 An algorithm reads nothing but its snapshot, so running it belongs to the step that commits.
 */
module Protocol {
  import opened Wrappers
  import opened Json
  import opened Records
  import opened Storages

  const RETRIES := 32

  /** What a component fixes for all its operations. */
  datatype Component = Component(associated: bool, defaults: Fields)

  datatype Request =
    | Transit(query: Option<Query>, algorithm: Record -> Outcome, retry: bool)
    | Assign(target: Option<Query>, amendment: Amendment)
    | Ensure(query: Option<Query>, properties: Properties)

  /** `Emitting(None, _)` is a write whose changeset cannot be computed. */
  datatype Phase =
    | Ready
    | Holding(scope: Snapshot)
    | Emitting(pending: Option<Event>, reply: Reply)
    | Done(reply: Reply)
    | Failed(exception: Exception)

  /** `write` and `event` are the positions of the client's entries in the two logs. */
  datatype Client = Client(phase: Phase, attempt: nat, executions: nat, write: Option<nat>, event: Option<nat>)

  datatype Write = Write(client: nat, before: Option<Record>, after: Record, reply: Reply)

  datatype Emission = Emission(client: nat, event: Event)

  /** The log and the events are history: no step reads them. */
  datatype Config = Config(requests: seq<Request>, store: Collection, clients: seq<Client>,
                           log: seq<Write>, events: seq<Emission>)

  /** What a step cannot foresee: the match `findOne` picks, the id `newid` draws, the clock. */
  datatype Choice = Choice(picked: Id, newid: Id, now: Time)

  datatype Label = Label(client: nat, choice: Choice)

  // The operations' own steps

  /** Transition.acquire */
  function Acquire(p: Component, c: Collection, query: Option<Query>, choice: Choice): Result<Snapshot, Exception> {
    match query
    case None => Ok(Snapshot(None, Blank(choice.newid, p.defaults, choice.now)))
    case Some(q) =>
      if Selects(c, q, choice.picked) then
        if c[choice.picked].deleted.Some? then Err(NotFound) else Ok(Snapshot(Some(c[choice.picked]), c[choice.picked]))
      else if p.associated && q.id.Some? && q.criteria.None? && q.version.None? then
        Ok(Snapshot(None, Blank(q.id.value, p.defaults, choice.now)))
      else if q.version.Some? then Err(Precondition)
      else Err(NotFound)
  }

  datatype Committed = Refused(error: string) | Conflict | Stored(scope: Snapshot, reply: Reply)

  /** Running the algorithm, then Transition.commit */
  function Commit(c: Collection, algorithm: Record -> Outcome, scope: Snapshot, now: Time): Committed {
    match algorithm(scope.state)
    case Refuse(error) => Refused(error)
    case Proceed(data, deleted, output) =>
      var state := Advance(Proposed(scope.state, data, deleted), now);
      if Storable(c, state) then Stored(scope.(state := state), Output(output)) else Conflict
  }

  datatype Applied = Declined(error: string) | Missed(exception: Exception) | Updated(state: Record, event: Event, reply: Reply)

  /** Nothing to update; reading the version of a missing query throws. */
  function Missing(query: Option<Query>): Exception {
    match query
    case None => System
    case Some(q) => if q.version.Some? then Precondition else NotFound
  }

  /** Assignment.commit over State.apply */
  function Apply(c: Collection, query: Option<Query>, amendment: Amendment, choice: Choice): Applied {
    match amendment
    case Decline(error) => Declined(error)
    case Amend(changes, output) =>
      var changeset := Sealed(changes, choice.now);
      if Selects(c, UpsertQuery(query, changeset), choice.picked) then
        var exported := Restoring(changeset);
        var state := Amended(c[choice.picked], exported);
        Updated(state, AssignmentEvent(exported, state), Output(output.GetOr(Object(ToFields(state)))))
      else Missed(Missing(query))
  }

  /** The entity `ensure` would insert. */
  function Candidate(p: Component, properties: Properties, choice: Choice): Record {
    var blank := Blank(choice.newid, p.defaults, choice.now);
    Advance(blank.(id := properties.id.GetOr(choice.newid), data := blank.data + properties.data), choice.now)
  }

  datatype Ensuring = Kept(record: Record) | Reannounced(state: Record) | Added(state: Record) | Crashed

  /** State.ensure; a match that is deleted, or a key conflict, ends in an exception. */
  function EnsureStep(p: Component, c: Collection, query: Option<Query>, properties: Properties, choice: Choice): Ensuring {
    var state := Candidate(p, properties, choice);
    if EnsureSelects(c, query, properties, choice.picked) then
      if c[choice.picked].deleted.Some? then Crashed
      else if c[choice.picked].id != state.id then Kept(c[choice.picked])
      else Reannounced(state)
    else if Insertable(c, query, state) then Added(state)
    else Crashed
  }

  // Steps and runs

  /** The choice obeys `findOne`: when something matches, something matching is picked. */
  ghost predicate ValidChoice(c: Collection, request: Request, choice: Choice) {
    match request
    case Transit(None, _, _) => true
    case Transit(Some(q), _, _) => (exists id :: Selects(c, q, id)) ==> Selects(c, q, choice.picked)
    case Assign(_, Decline(_)) => true
    case Assign(q, Amend(changes, _)) =>
      var target := UpsertQuery(q, Sealed(changes, choice.now));
      (exists id :: Selects(c, target, id)) ==> Selects(c, target, choice.picked)
    case Ensure(query, properties) =>
      (exists id :: EnsureSelects(c, query, properties, id)) ==> EnsureSelects(c, query, properties, choice.picked)
  }

  ghost predicate Enabled(c: Config, l: Label) {
    && l.client < |c.clients| == |c.requests|
    && var me := c.clients[l.client];
      && !me.phase.Done? && !me.phase.Failed?
      && (me.phase.Ready? ==> ValidChoice(c.store, c.requests[l.client], l.choice))
  }

  /** Client `k` moves; nothing else does. */
  function Move(c: Config, k: nat, me: Client): Config
    requires k < |c.clients| == |c.requests|
  {
    c.(clients := c.clients[k := me])
  }

  /** A write lands: the store, the log and the writer change together. */
  function Land(c: Config, k: nat, me: Client, after: Record, event: Option<Event>, reply: Reply): Config
    requires k < |c.clients| == |c.requests|
  {
    c.(store := c.store[after.id := after],
       clients := c.clients[k := me.(phase := Emitting(event, reply), write := Some(|c.log|))],
       log := c.log + [Write(k, Find(c.store, after.id), after, reply)])
  }

  /** A client that lost its race: give up, or go back and read again. */
  function Beaten(me: Client, retry: bool): Client {
    if !retry then me.(phase := Failed(Concurrency))
    else if me.attempt == RETRIES then me.(phase := Failed(RetryExhausted))
    else me.(phase := Ready, attempt := me.attempt + 1)
  }

  /** The commit of a transition, with the retry rule. */
  function CommitStep(c: Config, k: nat, now: Time): Config
    requires k < |c.clients| == |c.requests| && c.clients[k].phase.Holding? && c.requests[k].Transit?
  {
    var me := c.clients[k].(executions := c.clients[k].executions + 1);
    match Commit(c.store, c.requests[k].algorithm, me.phase.scope, now)
    case Refused(error) => Move(c, k, me.(phase := Done(Fault(error))))
    case Stored(scope, reply) => Land(c, k, me, scope.state, EntityEvent(scope), reply)
    case Conflict => Move(c, k, Beaten(me, c.requests[k].retry))
  }

  function EmitStep(c: Config, k: nat): Config
    requires k < |c.clients| == |c.requests| && c.clients[k].phase.Emitting?
  {
    var me := c.clients[k];
    match me.phase.pending
    case None => Move(c, k, me.(phase := Failed(System)))
    case Some(event) =>
      c.(clients := c.clients[k := me.(phase := Done(me.phase.reply), event := Some(|c.events|))],
         events := c.events + [Emission(k, event)])
  }

  function StartStep(p: Component, c: Config, k: nat, choice: Choice): Config
    requires k < |c.clients| == |c.requests|
  {
    var me := c.clients[k];
    match c.requests[k]
    case Transit(query, _, _) =>
      (match Acquire(p, c.store, query, choice)
       case Ok(scope) => Move(c, k, me.(phase := Holding(scope)))
       case Err(exception) => Move(c, k, me.(phase := Failed(exception))))
    case Assign(query, amendment) =>
      (match Apply(c.store, query, amendment, choice)
       case Declined(error) => Move(c, k, me.(phase := Done(Fault(error))))
       case Missed(exception) => Move(c, k, me.(phase := Failed(exception)))
       case Updated(state, event, reply) => Land(c, k, me, state, Some(event), reply))
    case Ensure(query, properties) =>
      (match EnsureStep(p, c.store, query, properties, choice)
       case Kept(record) => Move(c, k, me.(phase := Done(Output(Object(ToFields(record))))))
       case Reannounced(state) => Move(c, k, me.(phase := Emitting(EntityEvent(Snapshot(None, state)), Output(Object(ToFields(state))))))
       case Added(state) => Land(c, k, me, state, EntityEvent(Snapshot(None, state)), Output(Object(ToFields(state))))
       case Crashed => Move(c, k, me.(phase := Failed(System))))
  }

  function Next(p: Component, c: Config, l: Label): Config
    requires l.client < |c.clients| == |c.requests|
  {
    match c.clients[l.client].phase
    case Ready => StartStep(p, c, l.client, l.choice)
    case Holding(_) =>
      if c.requests[l.client].Transit? then CommitStep(c, l.client, l.choice.now) else c
    case Emitting(_, _) => EmitStep(c, l.client)
    case _ => c
  }

  ghost predicate Step(p: Component, c: Config, l: Label, c': Config) {
    Enabled(c, l) && c' == Next(p, c, l)
  }

  /** Nothing has started; the collection may hold any records. */
  ghost predicate Initial(c: Config) {
    && WellFormed(c.store) && c.log == [] && c.events == [] && |c.clients| == |c.requests|
    && forall k | 0 <= k < |c.clients| :: c.clients[k] == Client(Ready, 0, 0, None, None)
  }

  ghost predicate Run(p: Component, cs: seq<Config>, ls: seq<Label>) {
    && |cs| == |ls| + 1 && Initial(cs[0])
    && forall i: nat | i < |ls| :: StepAt(p, cs, ls, i)
  }

  ghost predicate StepAt(p: Component, cs: seq<Config>, ls: seq<Label>, i: nat)
    requires i < |ls| && |cs| == |ls| + 1
  {
    Step(p, cs[i], ls[i], cs[i + 1])
  }

  lemma StepOf(p: Component, cs: seq<Config>, ls: seq<Label>, i: nat)
    requires Run(p, cs, ls) && i < |ls|
    ensures Step(p, cs[i], ls[i], cs[i + 1])
  {
    assert StepAt(p, cs, ls, i);
  }

  // The sequential meaning of a log

  function Replay(start: Collection, log: seq<Write>): Collection {
    if log == [] then start
    else var w := log[|log| - 1]; Replay(start, log[..|log| - 1])[w.after.id := w.after]
  }

  /** A transition that runs from its read to its write with nothing in between, on collection `c`. */
  ghost predicate Alone(p: Component, c: Collection, request: Request, choice: Choice, now: Time, w: Write) {
    && request.Transit? && ValidChoice(c, request, choice)
    && var read := Acquire(p, c, request.query, choice);
      && read.Ok?
      && var result := Commit(c, request.algorithm, read.value, now);
        && result.Stored? && result.reply == w.reply && result.scope == Snapshot(w.before, w.after)
  }

  ghost predicate AssignedBy(c: Collection, request: Request, choice: Choice, w: Write) {
    && request.Assign? && ValidChoice(c, request, choice)
    && var result := Apply(c, request.target, request.amendment, choice);
      && result.Updated? && result.state == w.after && result.reply == w.reply
  }

  ghost predicate AddedBy(p: Component, c: Collection, request: Request, choice: Choice, w: Write) {
    && request.Ensure? && ValidChoice(c, request, choice)
    && EnsureStep(p, c, request.query, request.properties, choice) == Added(w.after)
  }

  /** The write is what the request does, undisturbed, to the collection its predecessor left. */
  ghost predicate Lawful(p: Component, c: Collection, request: Request, w: Write) {
    && w.before == Find(c, w.after.id)
    && match request
       case Transit(_, _, _) => exists choice, now :: Alone(p, c, request, choice, now, w)
       case Assign(_, _) => exists choice :: AssignedBy(c, request, choice, w)
       case Ensure(_, _) => exists choice :: AddedBy(p, c, request, choice, w)
  }

  ghost predicate LawfulAt(p: Component, start: Collection, requests: seq<Request>, log: seq<Write>, j: nat)
    requires j < |log|
  {
    log[j].client < |requests| && Lawful(p, Replay(start, log[..j]), requests[log[j].client], log[j])
  }

  ghost predicate LawfulLog(p: Component, start: Collection, requests: seq<Request>, log: seq<Write>) {
    forall j: nat | j < |log| :: LawfulAt(p, start, requests, log, j)
  }

  lemma LawfulOf(p: Component, start: Collection, requests: seq<Request>, log: seq<Write>, j: nat)
    requires LawfulLog(p, start, requests, log) && j < |log|
    ensures log[j].client < |requests| && Lawful(p, Replay(start, log[..j]), requests[log[j].client], log[j])
  {
    assert LawfulAt(p, start, requests, log, j);
  }
}
