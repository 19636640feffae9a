/** The atomic storage steps over one collection with a unique `_id`. */
module Storages {
  import opened Wrappers
  import opened Json
  import opened Records

  type Collection = map<Id, Record>

  ghost predicate WellFormed(c: Collection) {
    forall id | id in c :: c[id].id == id && c[id].version >= 1
  }

  predicate Selects(c: Collection, q: Query, id: Id) {
    id in c && Matches(q, c[id])
  }

  function Find(c: Collection, id: Id): Option<Record> {
    if id in c then Some(c[id]) else None
  }

  /** Whether `store` succeeds: an insert needs a free id, a replacement the preceding version. */
  predicate Storable(c: Collection, e: Record) {
    if e.version == 1 then e.id !in c else e.id in c && c[e.id].version == e.version - 1
  }

  predicate EnsureSelects(c: Collection, q: Option<Query>, p: Properties, id: Id) {
    if q.Some? then Selects(c, q.value, id) else id in c && HasProperties(c[id], p)
  }

  /** An upsert that selects nothing inserts, unless its id is taken or differs from the query's. */
  predicate Insertable(c: Collection, q: Option<Query>, state: Record) {
    state.id !in c && (q.Some? && q.value.id.Some? ==> q.value.id.value == state.id)
  }

  /** What `findOneAndUpdate` with `upsert` answers. */
  datatype Ensured = Existing(record: Record) | Inserted | Duplicate

  class Storage {
    var collection: Collection

    constructor ()
      ensures collection == map[]
    {
      collection := map[];
    }

    method Get(q: Query) returns (r: Option<Record>)
      requires WellFormed(collection)
      ensures r.Some? ==> Find(collection, r.value.id) == r && Matches(q, r.value)
      ensures r.None? ==> forall id :: !Selects(collection, q, id)
    {
      if id :| id in collection && Selects(collection, q, id) {
        r := Some(collection[id]);
      } else {
        r := None;
      }
    }

    method Add(e: Record) returns (acknowledged: bool)
      modifies this
      ensures acknowledged == (e.id !in old(collection))
      ensures collection == if acknowledged then old(collection)[e.id := e] else old(collection)
    {
      acknowledged := e.id !in collection;
      if acknowledged {
        collection := collection[e.id := e];
      }
    }

    method Set(e: Record) returns (replaced: bool)
      modifies this
      ensures replaced == (e.id in old(collection) && old(collection)[e.id].version == e.version - 1)
      ensures collection == if replaced then old(collection)[e.id := e] else old(collection)
    {
      replaced := e.id in collection && collection[e.id].version == e.version - 1;
      if replaced {
        collection := collection[e.id := e];
      }
    }

    /** A duplicate id counts as a lost race. */
    method Store(e: Record) returns (ok: bool)
      modifies this
      ensures ok == Storable(old(collection), e)
      ensures collection == if ok then old(collection)[e.id := e] else old(collection)
    {
      if e.version == 1 {
        ok := Add(e);
      } else {
        ok := Set(e);
      }
    }

    method Upsert(q: Option<Query>, changeset: Changes) returns (r: Option<Record>, exported: Changes)
      requires WellFormed(collection)
      requires changeset.version.None?
      modifies this
      ensures exported == Restoring(changeset)
      ensures r.None? ==> collection == old(collection)
                          && forall id :: !Selects(collection, UpsertQuery(q, changeset), id)
      ensures r.Some? ==>
                && Selects(old(collection), UpsertQuery(q, changeset), r.value.id)
                && r.value == Amended(old(collection)[r.value.id], exported)
                && collection == old(collection)[r.value.id := r.value]
    {
      var criteria := q.GetOr(ANYTHING);
      exported := changeset;
      if changeset.deleted.None? || changeset.deleted.value.None? {
        if criteria.criteria.Some? && criteria.criteria.value.top == OnDeleted {
          criteria := criteria.(criteria := None);
        }
        exported := exported.(deleted := Some(None));
      }
      if id :| id in collection && Selects(collection, criteria, id) {
        var record := Amended(collection[id], exported);
        collection := collection[id := record];
        r := Some(record);
      } else {
        r := None;
      }
    }

    /** A match that is deleted comes back as `null`, here `Some(None)`; `None` stands for a duplicate key error. */
    method Ensure(q: Option<Query>, p: Properties, state: Record) returns (r: Option<Option<Record>>, ghost e: Ensured)
      requires WellFormed(collection)
      modifies this
      ensures match e
              case Existing(record) =>
                && collection == old(collection)
                && Find(collection, record.id) == Some(record) && EnsureSelects(collection, q, p, record.id)
                && r == Some(if record.deleted.Some? then None else Some(record))
              case Inserted =>
                && collection == old(collection)[state.id := state] && Insertable(old(collection), q, state)
                && (forall id :: !EnsureSelects(old(collection), q, p, id))
                && r == Some(if state.deleted.Some? then None else Some(state))
              case Duplicate =>
                && collection == old(collection) && !Insertable(collection, q, state) && r == None
                && forall id :: !EnsureSelects(collection, q, p, id)
    {
      if id :| id in collection && EnsureSelects(collection, q, p, id) {
        var record := collection[id];
        r, e := Some(if record.deleted.Some? then None else Some(record)), Existing(record);
      } else if Insertable(collection, q, state) {
        collection := collection[state.id := state];
        r, e := Some(if state.deleted.Some? then None else Some(state)), Inserted;
      } else {
        r, e := None, Duplicate;
      }
    }
  }
}
