/** The objects that carry a request through the component: Entity, Changeset, State, Transition, Assignment. */
module Operations {
  import opened Wrappers
  import opened Json
  import opened Records
  import opened Storages
  import opened Protocol
  import opened ProtocolTheorems
  import Differences

  class Entity {
    var deleted: bool
    var origin: Option<Record>
    var state: Record

    ghost function Value(): Snapshot
      reads this
    {
      Snapshot(origin, state)
    }

    constructor Load(record: Record)
      ensures Value() == Snapshot(Some(record), record) && deleted == record.deleted.Some?
    {
      deleted, origin, state := record.deleted.Some?, Some(record), record;
    }

    constructor Init(id: Id, defaults: Fields, now: Time)
      ensures Value() == Snapshot(None, Blank(id, defaults, now)) && !deleted
    {
      deleted, origin, state := false, None, Blank(id, defaults, now);
    }

    method Set(value: Record, now: Time)
      modifies this
      ensures Value() == old(Value()).(state := Advance(value, now))
      ensures deleted == (old(deleted) || value.deleted.Some?)
    {
      if value.deleted.Some? {
        deleted := true;
      }
      state := value.(updated := now, version := value.version + 1);
    }

    method Event() returns (event: Option<Event>)
      ensures event == EntityEvent(Value())
    {
      if origin.None? {
        event := Some(Records.Event(NullOrigin, state, ToFields(state)));
      } else {
        var changeset := Differences.ComputeDifference(ToFields(origin.value), ToFields(state));
        event := if changeset.None? then None else Some(Records.Event(Of(origin.value), state, changeset.value));
      }
    }
  }

  class Changeset {
    const query: Option<Query>
    var state: Changes

    constructor (query: Option<Query>)
      ensures this.query == query && state == Changes(map[], None, None, None)
    {
      this.query, state := query, Changes(map[], None, None, None);
    }

    method Set(value: Changes, now: Time)
      modifies this
      ensures state == Sealed(value, now)
    {
      var stripped := value.(version := None);
      state := stripped.(updated := Some(now));
    }
  }

  class State {
    const storage: Storage
    const component: Component
    var emitted: seq<Event>

    constructor (storage: Storage, component: Component)
      ensures this.storage == storage && this.component == component && emitted == []
    {
      this.storage, this.component, emitted := storage, component, [];
    }

    /** `Ok(None)` is the source's `null`. */
    method Object(query: Query, now: Time) returns (r: Result<Option<Entity>, Exception>, ghost choice: Choice)
      requires WellFormed(storage.collection)
      ensures choice.now == now
      ensures (exists id :: Selects(storage.collection, query, id)) ==> Selects(storage.collection, query, choice.picked)
      ensures match r
              case Err(exception) =>
                exception == Precondition && Acquire(component, storage.collection, Some(query), choice) == Err(Precondition)
              case Ok(None) => Acquire(component, storage.collection, Some(query), choice) == Err(NotFound)
              case Ok(Some(entity)) =>
                && fresh(entity) && entity.deleted == entity.state.deleted.Some?
                && Acquire(component, storage.collection, Some(query), choice)
                   == if entity.deleted then Err(NotFound) else Ok(entity.Value())
    {
      var record := storage.Get(query);
      if record.None? {
        choice := Choice("", "", now);
        if component.associated && query.id.Some? && query.criteria.None? && query.version.None? {
          var entity := new Entity.Init(query.id.value, component.defaults, now);
          r := Ok(Some(entity));
        } else if query.version.Some? {
          r := Err(Precondition);
        } else {
          r := Ok(None);
        }
      } else {
        choice := Choice(record.value.id, "", now);
        var entity := new Entity.Load(record.value);
        r := Ok(Some(entity));
      }
    }

    /** The storage decides; only then, and only if it agrees, the event goes out. `None` is a TypeError after the write. */
    method Commit(entity: Entity) returns (ok: Option<bool>)
      modifies this, storage
      ensures var stored := Storable(old(storage.collection), entity.state);
        && (stored ==> storage.collection == old(storage.collection)[entity.state.id := entity.state])
        && (!stored ==> storage.collection == old(storage.collection) && emitted == old(emitted) && ok == Some(false))
        && (stored ==> match EntityEvent(entity.Value())
                       case Some(event) => emitted == old(emitted) + [event] && ok == Some(true)
                       case None => emitted == old(emitted) && ok == None)
    {
      var stored := storage.Store(entity.state);
      ok := Some(stored);
      if stored {
        var event := entity.Event();
        if event.None? {
          return None;
        }
        emitted := emitted + [event.value];
      }
    }

    method Apply(changeset: Changeset, ghost now: Time) returns (r: Result<Record, Exception>, ghost choice: Choice)
      requires WellFormed(storage.collection) && changeset.state.version.None?
      modifies this, storage, changeset
      ensures choice.now == now
      ensures var target := UpsertQuery(changeset.query, old(changeset.state));
        && ((exists id :: Selects(old(storage.collection), target, id)) ==> Selects(old(storage.collection), target, choice.picked))
        && match r
           case Ok(state) =>
             && Selects(old(storage.collection), target, choice.picked)
             && state == Amended(old(storage.collection)[choice.picked], Restoring(old(changeset.state)))
             && storage.collection == old(storage.collection)[state.id := state]
             && emitted == old(emitted) + [AssignmentEvent(Restoring(old(changeset.state)), state)]
           case Err(exception) =>
             && !Selects(old(storage.collection), target, choice.picked)
             && exception == Missing(changeset.query)
             && storage.collection == old(storage.collection) && emitted == old(emitted)
    {
      var result, exported := storage.Upsert(changeset.query, changeset.state);
      changeset.state := exported;
      if result.None? {
        choice := Choice("", "", now);
        if changeset.query.None? {
          return Err(System), choice;
        }
        r := Err(if changeset.query.value.version.Some? then Precondition else NotFound);
      } else {
        choice := Choice(result.value.id, "", now);
        emitted := emitted + [AssignmentEvent(exported, result.value)];
        r := Ok(result.value);
      }
    }

    method Ensure(query: Option<Query>, properties: Properties, newid: Id, now: Time)
      returns (r: Result<Entity, Exception>, ghost choice: Choice)
      requires WellFormed(storage.collection)
      modifies this, storage
      ensures choice.newid == newid && choice.now == now
      ensures (exists id :: EnsureSelects(old(storage.collection), query, properties, id)) ==>
                EnsureSelects(old(storage.collection), query, properties, choice.picked)
      ensures match EnsureStep(component, old(storage.collection), query, properties, choice)
              case Kept(record) =>
                && r.Ok? && r.value.Value() == Snapshot(Some(record), record)
                && storage.collection == old(storage.collection) && emitted == old(emitted)
              case Reannounced(state) =>
                && r.Ok? && r.value.Value() == Snapshot(None, state) && storage.collection == old(storage.collection)
                && emitted == old(emitted) + [EntityEvent(Snapshot(None, state)).value]
              case Added(state) =>
                && r.Ok? && r.value.Value() == Snapshot(None, state)
                && storage.collection == old(storage.collection)[state.id := state]
                && emitted == old(emitted) + [EntityEvent(Snapshot(None, state)).value]
              case Crashed =>
                r == Err(System) && storage.collection == old(storage.collection) && emitted == old(emitted)
    {
      var candidate := new Entity.Init(newid, component.defaults, now);
      var blank := candidate.state;
      blank := blank.(id := properties.id.GetOr(blank.id), data := blank.data + properties.data);
      candidate.Set(blank, now);
      ghost var e;
      var record;
      record, e := storage.Ensure(query, properties, candidate.state);
      choice := Choice(if e.Existing? then e.record.id else "", newid, now);
      if record.None? || record.value.None? {
        return Err(System), choice;
      }
      if record.value.value.id != candidate.state.id {
        var existing := new Entity.Load(record.value.value);
        return Ok(existing), choice;
      }
      var event := candidate.Event();
      emitted := emitted + [event.value];
      r := Ok(candidate);
    }
  }

  /** The `store` object an operation passes between its phases. */
  class Exchange {
    var scope: Entity?
    var state: Option<Record>
    var reply: Option<Reply>

    constructor ()
      ensures scope == null && state.None? && reply.None?
    {
      scope, state, reply := null, None, None;
    }
  }

  /** How a commit ends: normally, by calling `retry`, or with an exception. */
  datatype Ending = Finished | Retrying | Raised(exception: Exception)

  class Transition {
    const scope: State
    const retrying: bool

    constructor (scope: State, retrying: bool)
      ensures this.scope == scope && this.retrying == retrying
    {
      this.scope, this.retrying := scope, retrying;
    }

    method Acquire(x: Exchange, query: Option<Query>, newid: Id, now: Time) returns (e: Option<Exception>, ghost choice: Choice)
      requires WellFormed(scope.storage.collection)
      modifies x
      ensures choice.now == now && (query.None? ==> choice.newid == newid)
      ensures query.Some? ==> ((exists id :: Selects(scope.storage.collection, query.value, id)) ==>
                                 Selects(scope.storage.collection, query.value, choice.picked))
      ensures match Protocol.Acquire(scope.component, scope.storage.collection, query, choice)
              case Ok(snapshot) =>
                e.None? && x.scope != null && fresh(x.scope) && x.scope.Value() == snapshot && x.state == Some(snapshot.state)
              case Err(exception) => e == Some(exception)
    {
      if query.None? {
        choice := Choice("", newid, now);
        x.scope := new Entity.Init(newid, scope.component.defaults, now);
      } else {
        var found;
        found, choice := scope.Object(query.value, now);
        if found.Err? {
          return Some(found.error), choice;
        }
        if found.value.None? || found.value.value.deleted {
          return Some(NotFound), choice;
        }
        x.scope := found.value.value;
      }
      x.state := Some(x.scope.state);
      e := None;
    }

    method Run(x: Exchange, algorithm: Record -> Outcome)
      requires x.state.Some?
      modifies x
      ensures x.scope == old(x.scope)
      ensures match algorithm(old(x.state).value)
              case Refuse(error) => x.reply == Some(Fault(error)) && x.state == old(x.state)
              case Proceed(data, deleted, output) =>
                x.reply == Some(Output(output)) && x.state == Some(Proposed(old(x.state).value, data, deleted))
    {
      match algorithm(x.state.value)
      case Refuse(error) =>
        x.reply := Some(Fault(error));
      case Proceed(data, deleted, output) =>
        x.state, x.reply := Some(x.state.value.(data := data, deleted := deleted)), Some(Output(output));
    }

    /** Succeeds exactly when the stored record is the predecessor of the proposed one. */
    method Commit(x: Exchange, now: Time) returns (ending: Ending)
      requires x.scope != null && x.state.Some? && x.reply.Some?
      modifies scope, scope.storage, x.scope
      ensures x.reply.value.Output? ==> x.scope.Value() == Snapshot(old(x.scope.origin), Advance(x.state.value, now))
      ensures var c, state := old(scope.storage.collection), Advance(x.state.value, now);
        if x.reply.value.Fault? then
          ending == Finished && scope.storage.collection == c && scope.emitted == old(scope.emitted)
        else if !Storable(c, state) then
          && scope.storage.collection == c && scope.emitted == old(scope.emitted)
          && ending == if retrying then Retrying else Raised(Concurrency)
        else
          && scope.storage.collection == c[state.id := state]
          && match EntityEvent(Snapshot(old(x.scope.origin), state))
             case Some(event) => ending == Finished && scope.emitted == old(scope.emitted) + [event]
             case None => ending == Raised(System) && scope.emitted == old(scope.emitted)
    {
      if x.reply.value.Fault? {
        return Finished;
      }
      x.scope.Set(x.state.value, now);
      var result := scope.Commit(x.scope);
      ending := if result.None? then Raised(System)
                else if result.value then Finished
                else if retrying then Retrying
                else Raised(Concurrency);
    }

    /**
     One attempt with nobody in between is one `Alone` write of the protocol, a refusal, or an exception;
     it can lose only when the id drawn for a new entity is taken.
     */
    method Attempt(x: Exchange, query: Option<Query>, algorithm: Record -> Outcome, newid: Id, now: Time)
      returns (ending: Ending, ghost choice: Choice)
      requires WellFormed(scope.storage.collection)
      modifies x, scope, scope.storage
      ensures var c, request := old(scope.storage.collection), Transit(query, algorithm, retrying);
        && ValidChoice(c, request, choice)
        && (scope.storage.collection != c ==>
              && x.scope != null && x.reply.Some?
              && var w := Write(0, x.scope.origin, x.scope.state, x.reply.value);
                 && scope.storage.collection == c[w.after.id := w.after]
                 && Alone(scope.component, c, request, choice, now, w))
        && (scope.storage.collection == c ==> scope.emitted == old(scope.emitted))
        && (ending == Retrying || ending == Raised(Concurrency) ==> query.None? && newid in c)
    {
      var e;
      e, choice := Acquire(x, query, newid, now);
      if e.Some? {
        return Raised(e.value), choice;
      }
      ghost var snapshot := x.scope.Value();
      if query.Some? || newid !in scope.storage.collection {
        AcquireIsExact(scope.component, scope.storage.collection, Transit(query, algorithm, retrying), choice);
      }
      Run(x, algorithm);
      ending := Commit(x, now);
    }
  }

  class Assignment {
    const scope: State

    constructor (scope: State)
      ensures this.scope == scope
    {
      this.scope := scope;
    }

    /** The whole operation: a blank changeset, the algorithm, one atomic update; the new state is the default output. */
    method Process(query: Option<Query>, algorithm: Changes -> Amendment, now: Time)
      returns (r: Result<Reply, Exception>, ghost choice: Choice)
      requires WellFormed(scope.storage.collection)
      modifies scope, scope.storage
      ensures var c, amendment := old(scope.storage.collection), algorithm(Changes(map[], None, None, None));
        && ValidChoice(c, Assign(query, amendment), choice)
        && match Apply(c, query, amendment, choice)
           case Declined(error) => r == Ok(Fault(error)) && scope.storage.collection == c && scope.emitted == old(scope.emitted)
           case Missed(exception) => r == Err(exception) && scope.storage.collection == c && scope.emitted == old(scope.emitted)
           case Updated(state, event, reply) =>
             r == Ok(reply) && scope.storage.collection == c[state.id := state] && scope.emitted == old(scope.emitted) + [event]
    {
      var changeset := new Changeset(query);
      match algorithm(changeset.state)
      case Decline(error) =>
        r, choice := Ok(Fault(error)), Choice("", "", now);
      case Amend(changes, output) =>
        changeset.Set(changes, now);
        var result;
        result, choice := scope.Apply(changeset, now);
        match result
        case Err(exception) =>
          r := Err(exception);
        case Ok(state) =>
          r := Ok(Output(if output.Some? then output.value else Object(ToFields(state))));
    }
  }
}
