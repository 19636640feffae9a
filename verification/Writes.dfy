/** What the writes of the protocol hold, field by field, and what their events and replies say. */
module Writes {
  import opened Wrappers
  import opened Json
  import opened Records
  import opened Storages
  import opened Protocol
  import opened ProtocolInvariant
  import opened ProtocolTheorems

  const SYSTEM := {"id", "_version", "_deleted", "_created", "_updated"}

  /** The record as a plain object: its system fields, and its data beside them. */
  lemma RecordFields(r: Record)
    requires r.data.Keys !! SYSTEM
    ensures var o := ToFields(r);
      && o.Keys == SYSTEM + r.data.Keys
      && o["id"] == Text(r.id) && o["_version"] == Number(r.version)
      && o["_deleted"] == (if r.deleted.Some? then Number(r.deleted.value) else Null)
      && o["_created"] == Number(r.created) && o["_updated"] == Number(r.updated)
      && forall k | k in r.data :: o[k] == r.data[k]
  {
  }

  /** `b` is written over `a`: it has the keys of both, and its own values. */
  ghost predicate WrittenOver(a: Fields, b: Fields, result: Fields) {
    && (forall k :: k in result <==> k in a || k in b)
    && (forall k | k in b :: result[k] == b[k])
    && (forall k | k in a && k !in b :: result[k] == a[k])
  }

  // Assignments

  /** Deletion as an assignment leaves it: given, or else undone. */
  ghost predicate DeletedBy(changes: Changes, deleted: Option<Time>) {
    match changes.deleted
    case Some(Some(time)) => deleted == Some(time)
    case _ => deleted.None?
  }

  /** The changed record: assigned fields have their new values, all others stay; one version further. */
  ghost predicate Assigned(stored: Record, changes: Changes, now: Time, state: Record) {
    && state.id == stored.id && state.created == stored.created
    && state.version == stored.version + 1 && state.updated == now
    && WrittenOver(stored.data, changes.data, state.data) && DeletedBy(changes, state.deleted)
  }

  /** The event: no origin, the new state, and in the changeset exactly what was written, but not the version. */
  ghost predicate AssignmentTold(changes: Changes, now: Time, state: Record, event: Event) {
    && event.origin.NoOrigin? && event.state == state
    && event.changeset.Keys == changes.data.Keys + {"_deleted", "_updated"}
    && event.changeset["_updated"] == Number(now)
    && event.changeset["_deleted"] == (if state.deleted.Some? then Number(state.deleted.value) else Null)
    && forall k | k in changes.data && k !in {"_deleted", "_updated"} :: event.changeset[k] == changes.data[k]
  }

  /** What an assignment's query may select: deletion is no obstacle to an assignment that restores. */
  ghost predicate Targeted(query: Option<Query>, changes: Changes, r: Record) {
    match query
    case None => true
    case Some(q) =>
      && (q.id.Some? ==> r.id == q.id.value) && (q.version.Some? ==> r.version == q.version.value)
      && (q.criteria.Some? ==>
            || (q.criteria.value.top == OnDeleted && (changes.deleted.None? || changes.deleted.value.None?))
            || (q.criteria.value.top == OnId && q.id.Some?) || (q.criteria.value.top == OnVersion && q.version.Some?)
            || q.criteria.value.holds(r))
  }

  lemma TargetedIsSelected(c: Collection, query: Option<Query>, changes: Changes, now: Time, id: Id)
    ensures Selects(c, UpsertQuery(query, Sealed(changes, now)), id) <==> id in c && Targeted(query, changes, c[id])
  {
  }

  lemma AmendedIsAssigned(stored: Record, changes: Changes, now: Time)
    ensures Assigned(stored, changes, now, Amended(stored, Restoring(Sealed(changes, now))))
  {
  }

  lemma ExportIsTold(changes: Changes, now: Time, state: Record, event: Event)
    requires event.origin.NoOrigin? && event.state == state && DeletedBy(changes, state.deleted)
    requires event.changeset == ChangesToFields(Restoring(Sealed(changes, now)))
    ensures AssignmentTold(changes, now, state, event)
  {
  }

  /** What an assignment does, from its query to its event and its reply. */
  lemma AssignmentWrites(c: Collection, query: Option<Query>, amendment: Amendment, choice: Choice)
    requires ValidChoice(c, Assign(query, amendment), choice)
    ensures match Apply(c, query, amendment, choice)
            case Declined(error) => amendment == Decline(error)
            case Missed(exception) =>
              && amendment.Amend? && (forall id | id in c :: !Targeted(query, amendment.changes, c[id]))
              && exception == (if query.None? then System else if query.value.version.Some? then Precondition else NotFound)
            case Updated(state, event, reply) =>
              && amendment.Amend? && var changes := amendment.changes;
              && choice.picked in c && Targeted(query, changes, c[choice.picked])
              && Assigned(c[choice.picked], changes, choice.now, state)
              && AssignmentTold(changes, choice.now, state, event)
              && reply == Output(if amendment.output.Some? then amendment.output.value else Object(ToFields(state)))
  {
    if amendment.Amend? {
      forall id ensures Selects(c, UpsertQuery(query, Sealed(amendment.changes, choice.now)), id) <==>
                        id in c && Targeted(query, amendment.changes, c[id])
      {
        TargetedIsSelected(c, query, amendment.changes, choice.now, id);
      }
      if choice.picked in c {
        var stored, exported := c[choice.picked], Restoring(Sealed(amendment.changes, choice.now));
        var state := Amended(stored, exported);
        AmendedIsAssigned(stored, amendment.changes, choice.now);
        ExportIsTold(amendment.changes, choice.now, state, AssignmentEvent(exported, state));
      }
    }
  }

  // Transitions

  /** A record that is not stored yet. */
  ghost predicate New(p: Component, r: Record, now: Time) {
    r.version == 0 && r.deleted.None? && r.created == now && r.updated == now && r.data == p.defaults
  }

  ghost predicate NothingFound(c: Collection, q: Query) {
    forall id | id in c :: !Matches(q, c[id])
  }

  /** Queries by id alone make new entities, if the component is associated. */
  ghost predicate Creates(p: Component, q: Query) {
    p.associated && q.id.Some? && q.criteria.None? && q.version.None?
  }

  /** Where a transition starts. */
  lemma TransitionReads(p: Component, c: Collection, query: Option<Query>, algorithm: Record -> Outcome, retry: bool, choice: Choice)
    requires ValidChoice(c, Transit(query, algorithm, retry), choice)
    ensures match Acquire(p, c, query, choice)
            case Ok(Snapshot(Some(origin), state)) =>
              && query.Some? && choice.picked in c && Matches(query.value, origin)
              && origin == state == c[choice.picked] && state.deleted.None?
            case Ok(Snapshot(None, state)) =>
              && New(p, state, choice.now)
              && if query.None? then state.id == choice.newid
                 else Creates(p, query.value) && state.id == query.value.id.value && NothingFound(c, query.value)
            case Err(Precondition) => query.Some? && query.value.version.Some? && NothingFound(c, query.value)
            case Err(NotFound) =>
              && query.Some?
              && if NothingFound(c, query.value) then query.value.version.None? && !Creates(p, query.value)
                 else choice.picked in c && Matches(query.value, c[choice.picked]) && c[choice.picked].deleted.Some?
            case Err(_) => false
  {
    if query.Some? {
      forall id ensures Selects(c, query.value, id) <==> id in c && Matches(query.value, c[id]) {
      }
    }
  }

  /** The proposed record: what the algorithm made of the state, one version further. */
  ghost predicate Transited(state: Record, data: Fields, deleted: Option<Time>, now: Time, after: Record) {
    && after.id == state.id && after.created == state.created
    && after.version == state.version + 1 && after.updated == now
    && after.data == data && after.deleted == deleted
  }

  /** How an attempt ends: refused by the algorithm, stored over the record of the preceding version, or lost. */
  lemma TransitionWrites(c: Collection, algorithm: Record -> Outcome, scope: Snapshot, now: Time)
    ensures match Commit(c, algorithm, scope, now)
            case Refused(error) => algorithm(scope.state) == Refuse(error)
            case Stored(Snapshot(origin, after), reply) =>
              && origin == scope.origin
              && (match algorithm(scope.state)
                  case Refuse(_) => false
                  case Proceed(data, deleted, output) =>
                    Transited(scope.state, data, deleted, now, after) && reply == Output(output))
              && if scope.state.version == 0 then scope.state.id !in c
                 else scope.state.id in c && c[scope.state.id].version == scope.state.version
            case Conflict =>
              && algorithm(scope.state).Proceed?
              && if scope.state.version == 0 then scope.state.id in c
                 else scope.state.id !in c || c[scope.state.id].version != scope.state.version
  {
  }

  /** A lost attempt: an exception at once without retries, and after the 32nd one; otherwise the client reads again. */
  lemma LosersRetry(c: Config, k: nat, now: Time)
    requires k < |c.clients| == |c.requests| && c.clients[k].phase.Holding? && c.requests[k].Transit?
    requires Commit(c.store, c.requests[k].algorithm, c.clients[k].phase.scope, now).Conflict?
    ensures var me, c' := c.clients[k], CommitStep(c, k, now);
      && c'.store == c.store && c'.log == c.log && c'.events == c.events && |c'.clients| == |c.clients|
      && (forall i | 0 <= i < |c.clients| && i != k :: c'.clients[i] == c.clients[i])
      && c'.clients[k].executions == me.executions + 1
      && if !c.requests[k].retry then c'.clients[k].phase == Failed(Concurrency)
         else if me.attempt == 32 then c'.clients[k].phase == Failed(RetryExhausted)
         else c'.clients[k].phase == Ready && c'.clients[k].attempt == me.attempt + 1
  {
  }

  // Insertions

  /** What `ensure` inserts: the given properties over the defaults, at version 1. */
  ghost predicate Proper(p: Component, properties: Properties, newid: Id, now: Time, state: Record) {
    && state.id == (if properties.id.Some? then properties.id.value else newid)
    && state.version == 1 && state.deleted.None? && state.created == now && state.updated == now
    && WrittenOver(p.defaults, properties.data, state.data)
  }

  /** The records that `ensure` accepts in place of an insertion. */
  ghost predicate Accepted(query: Option<Query>, properties: Properties, r: Record) {
    match query
    case Some(q) => Matches(q, r)
    case None => properties.id.None? && WrittenOver(r.data, properties.data, r.data)
  }

  lemma AcceptedIsSelected(c: Collection, query: Option<Query>, properties: Properties, id: Id)
    ensures EnsureSelects(c, query, properties, id) <==> id in c && Accepted(query, properties, c[id])
  {
  }

  lemma EnsureWrites(p: Component, c: Collection, query: Option<Query>, properties: Properties, choice: Choice)
    requires ValidChoice(c, Ensure(query, properties), choice)
    ensures var id := if properties.id.Some? then properties.id.value else choice.newid;
      match EnsureStep(p, c, query, properties, choice)
      case Kept(record) =>
        choice.picked in c && record == c[choice.picked] && Accepted(query, properties, record)
        && record.deleted.None? && record.id != id
      case Reannounced(state) =>
        && choice.picked in c && Accepted(query, properties, c[choice.picked])
        && c[choice.picked].deleted.None? && c[choice.picked].id == id
        && Proper(p, properties, choice.newid, choice.now, state)
      case Added(state) =>
        && (forall other | other in c :: !Accepted(query, properties, c[other]))
        && id !in c && (query.Some? && query.value.id.Some? ==> query.value.id.value == id)
        && Proper(p, properties, choice.newid, choice.now, state)
      case Crashed =>
        || (choice.picked in c && Accepted(query, properties, c[choice.picked]) && c[choice.picked].deleted.Some?)
        || id in c || (query.Some? && query.value.id.Some? && query.value.id.value != id)
  {
    forall other ensures EnsureSelects(c, query, properties, other) <==> other in c && Accepted(query, properties, c[other]) {
      AcceptedIsSelected(c, query, properties, other);
    }
  }

  /** Where the first step of a transition or an assignment leaves its client and the store. */
  lemma StartAnswers(p: Component, c: Config, k: nat, choice: Choice)
    requires k < |c.clients| == |c.requests| && !c.requests[k].Ensure?
    ensures var c' := StartStep(p, c, k, choice);
      && |c'.clients| == |c.clients|
      && match c.requests[k]
         case Transit(query, _, _) =>
           && c'.store == c.store
           && c'.clients[k].phase == (match Acquire(p, c.store, query, choice)
                                      case Ok(scope) => Holding(scope)
                                      case Err(exception) => Failed(exception))
         case Assign(query, amendment) =>
           match Apply(c.store, query, amendment, choice)
           case Declined(error) => c'.clients[k].phase == Done(Fault(error)) && c'.store == c.store
           case Missed(exception) => c'.clients[k].phase == Failed(exception) && c'.store == c.store
           case Updated(state, event, reply) =>
             c'.clients[k].phase == Emitting(Some(event), reply) && c'.store == c.store[state.id := state]
  {
  }

  /** Where a commit that is not lost leaves them. */
  lemma CommitAnswers(c: Config, k: nat, now: Time)
    requires k < |c.clients| == |c.requests| && c.clients[k].phase.Holding? && c.requests[k].Transit?
    ensures var c' := CommitStep(c, k, now);
      && |c'.clients| == |c.clients|
      && match Commit(c.store, c.requests[k].algorithm, c.clients[k].phase.scope, now)
         case Refused(error) => c'.clients[k].phase == Done(Fault(error)) && c'.store == c.store
         case Stored(scope, reply) =>
           c'.clients[k].phase == Emitting(EntityEvent(scope), reply) && c'.store == c.store[scope.state.id := scope.state]
         case Conflict => c'.store == c.store
  {
  }

  /** What `ensure` answers and announces: what is there, or the new record, whose event carries its whole state. */
  lemma EnsureAnswers(p: Component, c: Config, k: nat, choice: Choice)
    requires k < |c.clients| == |c.requests| && c.requests[k].Ensure?
    ensures var c' := StartStep(p, c, k, choice);
      && |c'.clients| == |c.clients|
      && match EnsureStep(p, c.store, c.requests[k].query, c.requests[k].properties, choice)
         case Kept(record) => c'.clients[k].phase == Done(Output(Object(ToFields(record)))) && c'.store == c.store
         case Reannounced(state) => Announcing(c'.clients[k].phase, state) && c'.store == c.store
         case Added(state) => Announcing(c'.clients[k].phase, state) && c'.store == c.store[state.id := state]
         case Crashed => c'.clients[k].phase == Failed(System) && c'.store == c.store
  {
  }

  ghost predicate Announcing(phase: Phase, state: Record) {
    && phase.Emitting? && phase.reply == Output(Object(ToFields(state)))
    && phase.pending == Some(Event(NullOrigin, state, ToFields(state)))
  }

  // Whole runs

  /** A transition starts from the record that it replaces, or from a new one. */
  ghost predicate Origin(p: Component, before: Option<Record>, state: Record) {
    if before.Some? then state == before.value && state.deleted.None? else exists time :: New(p, state, time)
  }

  /** What a write holds, by its request. */
  ghost predicate Holds(p: Component, request: Request, w: Write) {
    match request
    case Transit(_, algorithm, _) =>
      exists state, now ::
        && Origin(p, w.before, state)
        && algorithm(state).Proceed?
        && Transited(state, algorithm(state).data, algorithm(state).deleted, now, w.after)
        && w.reply == Output(algorithm(state).output)
    case Assign(_, amendment) =>
      && amendment.Amend? && w.before.Some?
      && (exists now :: Assigned(w.before.value, amendment.changes, now, w.after))
      && w.reply == Output(if amendment.output.Some? then amendment.output.value else Object(ToFields(w.after)))
    case Ensure(_, properties) =>
      w.before.None? && exists newid, now :: Proper(p, properties, newid, now, w.after)
  }

  lemma LawfulHolds(p: Component, c: Collection, request: Request, w: Write)
    requires WellFormed(c) && Lawful(p, c, request, w)
    ensures Holds(p, request, w)
  {
    match request
    case Transit(query, algorithm, retry) =>
      var choice, now :| Alone(p, c, request, choice, now, w);
      var scope := Acquire(p, c, query, choice).value;
      TransitionReads(p, c, query, algorithm, retry, choice);
      TransitionWrites(c, algorithm, scope, now);
      assert w.before.None? ==> New(p, scope.state, choice.now);
    case Assign(query, amendment) =>
      var choice :| AssignedBy(c, request, choice, w);
      AssignmentWrites(c, query, amendment, choice);
      assert Assigned(c[choice.picked], amendment.changes, choice.now, w.after);
    case Ensure(query, properties) =>
      var choice :| AddedBy(p, c, request, choice, w);
      EnsureWrites(p, c, query, properties, choice);
      assert Proper(p, properties, choice.newid, choice.now, w.after);
  }

  /** Every write of every run holds what its request asked for, applied to the record that it replaced, and nothing else. */
  lemma WritesHold(p: Component, cs: seq<Config>, ls: seq<Label>, i: nat, j: nat)
    requires Run(p, cs, ls) && i < |cs| && j < |cs[i].log|
    ensures cs[i].log[j].client < |cs[i].requests| && Holds(p, cs[i].requests[cs[i].log[j].client], cs[i].log[j])
  {
    RunKeepsInv(p, cs, ls, i);
    LogIsWellFormed(p, cs[0].store, cs[i].requests, cs[i].log, j);
    LawfulOf(p, cs[0].store, cs[i].requests, cs[i].log, j);
    LawfulHolds(p, Replay(cs[0].store, cs[i].log[..j]), cs[i].requests[cs[i].log[j].client], cs[i].log[j]);
  }

  lemma AssignedIsTold(p: Component, request: Request, w: Write, event: Event)
    requires request.Assign? && Holds(p, request, w) && Announces(event, request, w)
    ensures AssignmentTold(request.amendment.changes, w.after.updated, w.after, event)
  {
    ExportIsTold(request.amendment.changes, w.after.updated, w.after, event);
  }

  /** The event of every assignment in a run says what was set, and nothing else. */
  lemma AssignmentsAreTold(p: Component, cs: seq<Config>, ls: seq<Label>, i: nat, e: nat)
    requires Run(p, cs, ls) && i < |cs| && e < |cs[i].events|
    ensures var c := cs[i];
      var k := c.events[e].client;
      && k < |c.requests| == |c.clients|
      && (c.requests[k].Assign? ==>
            && c.requests[k].amendment.Amend? && c.clients[k].write.Some? && c.clients[k].write.value < |c.log|
            && var after := c.log[c.clients[k].write.value].after;
               AssignmentTold(c.requests[k].amendment.changes, after.updated, after, c.events[e].event))
  {
    var c := cs[i];
    var k := c.events[e].client;
    EventsStandForWrites(p, cs, ls, i, e);
    if c.requests[k].Assign? {
      var w := c.log[c.clients[k].write.value];
      WritesHold(p, cs, ls, i, c.clients[k].write.value);
      AssignedIsTold(p, c.requests[k], w, c.events[e].event);
    }
  }
}
