/**
 The values the persistence layer exchanges: records, queries, changesets, events,
 and the pure meaning of the entity and changeset operations.
 */
module Records {
  import opened Wrappers
  import opened Json
  import Differences

  type Id = string
  type Time = int

  datatype Record = Record(id: Id, version: nat, deleted: Option<Time>, created: Time, updated: Time, data: Fields)

  function Timestamp(t: Option<Time>): Json {
    match t
    case None => Null
    case Some(time) => Number(time)
  }

  /** A record as the plain object that events carry. */
  function ToFields(r: Record): Fields {
    map["id" := Text(r.id), "_version" := Number(r.version), "_deleted" := Timestamp(r.deleted),
        "_created" := Number(r.created), "_updated" := Number(r.updated)] + r.data
  }

  /** A new entity: version 0, not deleted, schema defaults filled in. */
  function Blank(id: Id, defaults: Fields, now: Time): Record {
    Record(id, 0, None, now, now, defaults)
  }

  /** The stamp a new state gets when it replaces the one the entity holds. */
  function Advance(value: Record, now: Time): Record {
    value.(version := value.version + 1, updated := now)
  }

  /** An entity between its read and its write; `origin` is what was read, if anything. */
  datatype Snapshot = Snapshot(origin: Option<Record>, state: Record)

  // Queries

  /** The property that the topmost node of the criteria compares, if it is a comparison. */
  datatype Top = OnId | OnVersion | OnDeleted | Other

  datatype Criteria = Criteria(holds: Record -> bool, top: Top)

  datatype Query = Query(id: Option<Id>, version: Option<int>, criteria: Option<Criteria>)

  /** What a missing query translates to. */
  const ANYTHING := Query(None, None, None)

  /** The query's own id or version replaces a topmost comparison on the same field. */
  predicate Overridden(q: Query)
    requires q.criteria.Some?
  {
    || (q.criteria.value.top == OnId && q.id.Some?)
    || (q.criteria.value.top == OnVersion && q.version.Some?)
  }

  predicate Matches(q: Query, r: Record) {
    && (q.id.Some? ==> r.id == q.id.value)
    && (q.version.Some? ==> r.version == q.version.value)
    && (q.criteria.Some? && !Overridden(q) ==> q.criteria.value.holds(r))
  }

  // Changesets

  /** `deleted` is `None` when the key is absent and `Some(None)` when it is `null`. */
  datatype Changes = Changes(data: Fields, deleted: Option<Option<Time>>, version: Option<int>, updated: Option<Time>)

  /** A changeset as `Changeset.set` leaves it: never with a version, always with an update time. */
  function Sealed(c: Changes, now: Time): Changes {
    c.(version := None, updated := Some(now))
  }

  predicate Deletes(c: Changes) {
    c.deleted.Some? && c.deleted.value.Some?
  }

  /** A changeset that does not delete restores. */
  function Restoring(c: Changes): Changes {
    if Deletes(c) then c else c.(deleted := Some(None))
  }

  /** ... and, with that, loses a topmost criterion on `_deleted`. */
  function UpsertQuery(q: Option<Query>, c: Changes): Query {
    var target := q.GetOr(ANYTHING);
    if target.criteria.Some? && target.criteria.value.top == OnDeleted && !Deletes(c) then target.(criteria := None) else target
  }

  /** `$set` the changeset, `$inc` the version. */
  function Amended(r: Record, c: Changes): Record {
    r.(data := r.data + c.data,
       deleted := if c.deleted.Some? then c.deleted.value else r.deleted,
       updated := c.updated.GetOr(r.updated),
       version := r.version + 1)
  }

  function ChangesToFields(c: Changes): Fields {
    c.data
    + (if c.deleted.Some? then map["_deleted" := Timestamp(c.deleted.value)] else map[])
    + (if c.updated.Some? then map["_updated" := Number(c.updated.value)] else map[])
  }

  // Events

  /** Assignment events have no origin at all, which is not the same as a `null` one. */
  datatype Origin = NoOrigin | NullOrigin | Of(record: Record)

  datatype Event = Event(origin: Origin, state: Record, changeset: Fields)

  /** `Entity.event`; `None` when computing the changeset throws. */
  function EntityEvent(s: Snapshot): Option<Event> {
    match s.origin
    case None => Some(Event(NullOrigin, s.state, ToFields(s.state)))
    case Some(origin) =>
      match Differences.Difference(ToFields(origin), ToFields(s.state))
      case None => None
      case Some(changeset) => Some(Event(Of(origin), s.state, changeset))
  }

  /** The condition of the prototype's `created` event. */
  predicate Created(e: Event) {
    e.origin.NullOrigin?
  }

  function AssignmentEvent(changes: Changes, state: Record): Event {
    Event(NoOrigin, state, ChangesToFields(changes))
  }

  // Requests and replies

  datatype Reply = Output(value: Json) | Fault(error: string)

  datatype Exception = NotFound | Precondition | Concurrency | RetryExhausted | System

  /** What a transition's algorithm makes of the state; id and version are out of its reach. */
  datatype Outcome = Refuse(error: string) | Proceed(data: Fields, deleted: Option<Time>, output: Json)

  function Proposed(r: Record, data: Fields, deleted: Option<Time>): Record {
    r.(data := data, deleted := deleted)
  }

  /** What an assignment's algorithm makes of the empty changeset it is given. */
  datatype Amendment = Decline(error: string) | Amend(changes: Changes, output: Option<Json>)

  datatype Properties = Properties(id: Option<Id>, data: Fields)

  /** The properties used as criteria, when `ensure` comes without a query. */
  predicate HasProperties(r: Record, p: Properties) {
    p.id.None? && forall k | k in p.data :: k in r.data && r.data[k] == p.data[k]
  }
}
