/** The queries of the persistence protocol are the ones that the translation compiles. */
module Querying {
  import opened Wrappers
  import opened Json
  import Records
  import Criteria

  /** Equality, at least, is the equality of values. */
  ghost predicate Equates(related: Criteria.Relations<Json>) {
    forall x, v :: related(Criteria.Equal, x, v) <==> x == v
  }

  /** A record as the database has it: under `_id`. */
  function Stored(r: Records.Record): Fields {
    Criteria.To(Records.ToFields(r))
  }

  function TopOf(node: Criteria.Node<Json>): Records.Top {
    match node
    case Comparison(_, selector, _) =>
      (match Criteria.Rename(selector)
       case "_id" => Records.OnId
       case "_version" => Records.OnVersion
       case "_deleted" => Records.OnDeleted
       case _ => Records.Other)
    case _ => Records.Other
  }

  /** A query of the protocol, for the operands of the database. */
  function Plain(q: Records.Query, criteria: Option<Criteria.Node<Json>>): Criteria.Query<Json> {
    Criteria.Query(criteria, if q.id.Some? then Some(Text(q.id.value)) else None,
                   if q.version.Some? then Some(Number(q.version.value)) else None)
  }

  /** The protocol's criteria mean what the compiled criteria select. */
  ghost predicate Means(q: Records.Query, criteria: Option<Criteria.Node<Json>>, related: Criteria.Relations<Json>) {
    match criteria
    case None => q.criteria.None?
    case Some(node) =>
      && q.criteria.Some? && Criteria.Compile(node).Ok? && q.criteria.value.top == TopOf(node)
      && forall r :: q.criteria.value.holds(r) <==> Criteria.Selects(Criteria.Compile(node).value, Stored(r), related)
  }

  /** The system fields are not among the data. */
  predicate Clean(r: Records.Record) {
    "id" !in r.data && "_id" !in r.data && "_version" !in r.data
  }

  /** What the protocol takes a query to match is what the translated query selects. */
  lemma MatchesIsSelects(q: Records.Query, criteria: Option<Criteria.Node<Json>>, related: Criteria.Relations<Json>, r: Records.Record)
    requires Equates(related) && Means(q, criteria, related) && Clean(r)
    ensures Criteria.Translated(Plain(q, criteria)).Ok?
    ensures Records.Matches(q, r) <==> Criteria.Selects(Criteria.Translated(Plain(q, criteria)).value, Stored(r), related)
  {
    var query := Plain(q, criteria);
    assert At(Stored(r), "_id") == Text(r.id) && At(Stored(r), "_version") == Number(r.version);
    if criteria.Some? && Criteria.Clashes(query) {
      Criteria.ClashIsDropped(query);
      Criteria.TranslateConjoins(query.(criteria := None), Stored(r), related);
    } else {
      Criteria.TranslateConjoins(query, Stored(r), related);
    }
  }
}
