/** Query criteria: the filters they compile to, and the records those filters select. */
module Criteria {
  import opened Wrappers
  import opened Json
  import opened Paths

  /** A parsed query; `V` is what properties are compared with. `Other` has a type that is not known. */
  datatype Node<V> =
    | Logic(operator: string, left: Node<V>, right: Node<V>)
    | Comparison(operator: string, selector: string, value: V)
    | Other(kind: string)

  /** A filter of the database: a document whose fields are all to hold. */
  datatype Filter<V> = Filter(clauses: map<string, Clause<V>>)

  datatype Clause<V> = Filters(filters: seq<Filter<V>>) | Condition(operator: string, value: V) | Exactly(equal: V)

  datatype SyntaxError = UnknownType(kind: string) | UnknownOperator(operator: string)

  datatype Query<V> = Query(criteria: Option<Node<V>>, id: Option<V>, version: Option<V>)

  function Rename(name: string): string {
    if name == "id" then "_id" else name
  }

  /** An unknown operator becomes the key `undefined`. */
  function LogicKey(operator: string): string {
    if operator == "and" || operator == ";" then "$and"
    else if operator == "or" || operator == "," then "$or"
    else "undefined"
  }

  function ComparisonKey(operator: string): Option<string> {
    if operator == "==" then Some("$eq")
    else if operator == ">" then Some("$gt")
    else if operator == ">=" then Some("$gte")
    else if operator == "=in=" then Some("$in")
    else if operator == "<" then Some("$lt")
    else if operator == "<=" then Some("$lte")
    else if operator == "!=" then Some("$ne")
    else if operator == "=out=" then Some("$nin")
    else None
  }

  function Compile<V>(node: Node<V>): Result<Filter<V>, SyntaxError> {
    match node
    case Logic(operator, left, right) => (
      match Compile(left)
      case Err(e) => Err(e)
      case Ok(l) =>
        match Compile(right)
        case Err(e) => Err(e)
        case Ok(r) => Ok(Filter(map[LogicKey(operator) := Filters([l, r])]))
    )
    case Comparison(operator, selector, value) => (
      match ComparisonKey(operator)
      case None => Err(UnknownOperator(operator))
      case Some(key) => Ok(Filter(map[Rename(selector) := Condition(key, value)]))
    )
    case Other(kind) => Err(UnknownType(kind))
  }

  /** The filter of a whole query. */
  function Translated<V>(query: Query<V>): Result<Filter<V>, SyntaxError> {
    match if query.criteria == None then Ok(Filter(map[])) else Compile(query.criteria.value)
    case Err(e) => Err(e)
    case Ok(f) => Ok(Filter(WithVersion(WithId(f.clauses, query.id), query.version)))
  }

  function WithId<V>(clauses: map<string, Clause<V>>, id: Option<V>): map<string, Clause<V>> {
    if id.Some? then clauses["_id" := Exactly(id.value)] else clauses
  }

  function WithVersion<V>(clauses: map<string, Clause<V>>, version: Option<V>): map<string, Clause<V>> {
    if version.Some? then clauses["_version" := Exactly(version.value)] else clauses
  }

  method Translate<V(==)>(query: Query<V>) returns (r: Result<Filter<V>, SyntaxError>)
    ensures r == Translated(query)
  {
    var clauses: map<string, Clause<V>> := map[];
    if query.criteria != None {
      var compiled := Compile(query.criteria.value);
      if compiled.Err? {
        return Err(compiled.error);
      }
      clauses := compiled.value.clauses;
    }
    if query.id != None {
      clauses := clauses["_id" := Exactly(query.id.value)];
    }
    if query.version != None {
      clauses := clauses["_version" := Exactly(query.version.value)];
    }
    r := Ok(Filter(clauses));
  }

  // What criteria and filters mean

  datatype Relation = Equal | Greater | GreaterOrEqual | Among | Less | LessOrEqual | Different | NotAmong

  /** Whatever the relations are taken to mean, between the value of a property and an operand. */
  type Relations<!V> = (Relation, Json, V) -> bool

  function Spoken(operator: string): Option<Relation> {
    match operator
    case "==" => Some(Equal)
    case "!=" => Some(Different)
    case ">" => Some(Greater)
    case ">=" => Some(GreaterOrEqual)
    case "<" => Some(Less)
    case "<=" => Some(LessOrEqual)
    case "=in=" => Some(Among)
    case "=out=" => Some(NotAmong)
    case _ => None
  }

  function Stored(operator: string): Option<Relation> {
    match operator
    case "$eq" => Some(Equal)
    case "$ne" => Some(Different)
    case "$gt" => Some(Greater)
    case "$gte" => Some(GreaterOrEqual)
    case "$lt" => Some(Less)
    case "$lte" => Some(LessOrEqual)
    case "$in" => Some(Among)
    case "$nin" => Some(NotAmong)
    case _ => None
  }

  /** The property a selector names, through dots into nested objects. */
  function Property(o: Fields, selector: string): Json {
    Lookup(o, Split(selector))
  }

  /** Selectors of properties that entities have: not `_id`, nor a part of `id`. */
  ghost predicate Faithful(selector: string) {
    && (selector == "" || selector[0] != '$')
    && (selector == "id" || Split(selector)[0] !in {"id", "_id"})
  }

  /** Operators that exist, and selectors that mean the same to the database. */
  ghost predicate WellFormed<V>(node: Node<V>) {
    match node
    case Logic(operator, left, right) =>
      operator in {"and", ";", "or", ","} && WellFormed(left) && WellFormed(right)
    case Comparison(operator, selector, _) =>
      Spoken(operator).Some? && Faithful(selector)
    case Other(_) => false
  }

  predicate Satisfies<V>(node: Node<V>, entity: Fields, related: Relations<V>) {
    match node
    case Logic(operator, left, right) =>
      if operator == "and" || operator == ";"
      then Satisfies(left, entity, related) && Satisfies(right, entity, related)
      else Satisfies(left, entity, related) || Satisfies(right, entity, related)
    case Comparison(operator, selector, value) =>
      Spoken(operator).Some? && related(Spoken(operator).value, Property(entity, selector), value)
    case Other(_) => false
  }

  predicate Selects<V>(filter: Filter<V>, record: Fields, related: Relations<V>)
    decreases filter
  {
    forall k | k in filter.clauses :: Meets(k, filter.clauses[k], record, related)
  }

  /** A clause the database does not know selects nothing. */
  predicate Meets<V>(key: string, clause: Clause<V>, record: Fields, related: Relations<V>)
    decreases clause
  {
    match clause
    case Filters(filters) =>
      if key == "$and" then forall i | 0 <= i < |filters| :: Selects(filters[i], record, related)
      else key == "$or" && exists i | 0 <= i < |filters| :: Selects(filters[i], record, related)
    case Condition(operator, value) =>
      (key == "" || key[0] != '$') && Stored(operator).Some? &&
      related(Stored(operator).value, Property(record, key), value)
    case Exactly(value) =>
      (key == "" || key[0] != '$') && related(Equal, Property(record, key), value)
  }

  // Records

  function To(entity: Fields): Fields {
    map["_id" := At(entity, "id")] + (entity - {"id"})
  }

  function From(record: Option<Fields>): Option<Fields> {
    if record == None then None
    else Some(map["id" := At(record.value, "_id")] + (record.value - {"_id"}))
  }

  /** An entity survives being stored and read exactly when it has an id and no property named `_id`. */
  lemma FromTo(entity: Fields)
    ensures From(Some(To(entity))) == Some(entity) <==> "id" in entity && "_id" !in entity
  {
    var back := From(Some(To(entity))).value;
    if "id" in entity && "_id" !in entity {
      assert back == entity;
    } else {
      assert "id" in back && "_id" !in back;
    }
  }

  /** A record survives being read and stored exactly when it has an `_id` and no field named `id`. */
  lemma ToFrom(record: Fields)
    ensures To(From(Some(record)).value) == record <==> "_id" in record && "id" !in record
  {
    var back := To(From(Some(record)).value);
    if "_id" in record && "id" !in record {
      assert back == record;
    } else {
      assert "_id" in back && "id" !in back;
    }
  }

  // Compilation keeps the meaning

  lemma SplitSingle(s: string)
    requires '.' !in s
    ensures Split(s) == [s]
  {
    assert Join([s]) == s;
    SplitJoin([s]);
  }

  lemma PropertyOfRecord(entity: Fields, selector: string)
    requires "_id" !in entity
    requires selector == "id" || Split(selector)[0] !in {"id", "_id"}
    ensures Property(To(entity), Rename(selector)) == Property(entity, selector)
  {
    SplitSingle("id");
    SplitSingle("_id");
    var path := Split(selector);
    assert selector != "id" ==> At(To(entity), path[0]) == At(entity, path[0]);
  }

  lemma OperatorsCorrespond(operator: string)
    ensures ComparisonKey(operator).Some? <==> Spoken(operator).Some?
    ensures ComparisonKey(operator).Some? ==> Stored(ComparisonKey(operator).value) == Spoken(operator)
  {
  }

  lemma SingleClause<V>(key: string, clause: Clause<V>, record: Fields, related: Relations<V>)
    ensures Selects(Filter(map[key := clause]), record, related) <==> Meets(key, clause, record, related)
  {
    assert map[key := clause][key] == clause;
  }

  lemma PairOfFilters<V>(key: string, l: Filter<V>, r: Filter<V>, record: Fields, related: Relations<V>)
    requires key == "$and" || key == "$or"
    ensures Meets(key, Filters([l, r]), record, related) <==>
            if key == "$and" then Selects(l, record, related) && Selects(r, record, related)
            else Selects(l, record, related) || Selects(r, record, related)
  {
    var fs := [l, r];
    assert fs[0] == l && fs[1] == r;
  }

  /** The compiled filter selects the stored form of exactly the entities that satisfy the criteria. */
  lemma {:induction false} CompileKeepsMeaning<V>(node: Node<V>, entity: Fields, related: Relations<V>)
    requires WellFormed(node) && "_id" !in entity
    ensures Compile(node).Ok?
    ensures Selects(Compile(node).value, To(entity), related) <==> Satisfies(node, entity, related)
  {
    match node
    case Logic(operator, left, right) =>
      CompileKeepsMeaning(left, entity, related);
      CompileKeepsMeaning(right, entity, related);
      var l, r := Compile(left).value, Compile(right).value;
      SingleClause(LogicKey(operator), Filters([l, r]), To(entity), related);
      PairOfFilters(LogicKey(operator), l, r, To(entity), related);
    case Comparison(operator, selector, value) =>
      OperatorsCorrespond(operator);
      PropertyOfRecord(entity, selector);
      SingleClause(Rename(selector), Condition(ComparisonKey(operator).value, value), To(entity), related);
  }

  /** Criteria over `_id` are not about a property of the entity: they select by its id. */
  lemma UnderscoreIdReadsId<V>(value: V, entity: Fields, related: Relations<V>)
    requires "_id" !in entity
    ensures var node := Comparison("==", "_id", value);
            && (Satisfies(node, entity, related) <==> related(Equal, Undefined, value))
            && Compile(node).Ok?
            && (Selects(Compile(node).value, To(entity), related) <==> related(Equal, At(entity, "id"), value))
  {
    SplitSingle("_id");
    SingleClause("_id", Condition("$eq", value), To(entity), related);
  }

  /** A single comparison compiles to what it means. */
  ghost predicate KeepsMeaning<V>(node: Node<V>, entity: Fields, related: Relations<V>)
    requires Compile(node).Ok?
  {
    Selects(Compile(node).value, To(entity), related) <==> Satisfies(node, entity, related)
  }

  /** `null` at the end of a path. */
  function Nested(path: seq<string>): Json {
    if path == [] then Null else Object(map[path[0] := Nested(path[1..])])
  }

  lemma {:induction false} NestedIsFound(key: string, rest: seq<string>)
    ensures Lookup(map[key := Nested(rest)], [key] + rest) == Null
    decreases rest
  {
    var path := [key] + rest;
    if rest != [] {
      NestedIsFound(rest[0], rest[1..]);
      assert path[1..] == rest == [rest[0]] + rest[1..];
    }
  }

  /** An entity of which the selector and its stored form give different properties. */
  lemma PropertyLost(selector: string) returns (entity: Fields)
    requires selector != "id" && Split(selector)[0] in {"id", "_id"}
    ensures "_id" !in entity
    ensures (Property(entity, selector) == Null) != (Property(To(entity), Rename(selector)) == Null)
  {
    var path := Split(selector);
    var rest := path[1..];
    entity := map["id" := Nested(rest)];
    var stored := To(entity);
    assert path == [path[0]] + rest;
    NestedIsFound(path[0], rest);
    assert stored == map["_id" := Nested(rest)];
    if path[0] == "_id" {
      assert Property(entity, selector) == Undefined;
    } else {
      assert rest != [] by { assert Join([path[0]]) == "id"; }
      assert Property(stored, selector) == Undefined;
    }
  }

  lemma MeaningShown<V>(operator: string, selector: string, value: V) returns (entity: Fields, related: Relations<V>)
    requires Spoken(operator).Some? && !Faithful(selector)
    ensures var node := Comparison(operator, selector, value);
      "_id" !in entity && Compile(node).Ok? && !KeepsMeaning(node, entity, related)
  {
    OperatorsCorrespond(operator);
    var clause := Condition(ComparisonKey(operator).value, value);
    if selector != "" && selector[0] == '$' {
      entity, related := map[], (relation, property, operand) => true;
      SingleClause(Rename(selector), clause, To(entity), related);
    } else {
      entity := PropertyLost(selector);
      related := (relation, property, operand) => property == Null;
      SingleClause(Rename(selector), clause, To(entity), related);
    }
  }

  /**
   One comparison selects the stored form of exactly the entities that satisfy it, for every entity and every
   meaning of the relations, exactly when its selector is `id` or begins with neither `id` nor `_id` nor a dollar.
   */
  lemma SelectorKeepsMeaningIff<V(!new)>(operator: string, selector: string, value: V)
    requires Spoken(operator).Some?
    ensures var node := Comparison(operator, selector, value);
      && Compile(node).Ok?
      && ((forall entity, related: Relations<V> | "_id" !in entity :: KeepsMeaning(node, entity, related)) <==> Faithful(selector))
  {
    var node := Comparison(operator, selector, value);
    OperatorsCorrespond(operator);
    if Faithful(selector) {
      forall entity, related: Relations<V> | "_id" !in entity ensures KeepsMeaning(node, entity, related) {
        CompileKeepsMeaning(node, entity, related);
      }
    } else {
      var entity, related := MeaningShown(operator, selector, value);
    }
  }

  ghost predicate Known<V>(node: Node<V>) {
    match node
    case Logic(_, left, right) => Known(left) && Known(right)
    case Comparison(operator, _, _) => Spoken(operator).Some?
    case Other(_) => false
  }

  /** An error is thrown exactly when a node type or a comparison operator is not known; unknown logic goes through. */
  lemma {:induction false} CompilesKnown<V>(node: Node<V>)
    ensures Compile(node).Ok? <==> Known(node)
  {
    match node
    case Logic(_, left, right) =>
      CompilesKnown(left);
      CompilesKnown(right);
    case Comparison(operator, _, _) =>
      OperatorsCorrespond(operator);
    case Other(_) =>
  }

  /** The comparisons and unknown nodes, from left to right. */
  function Leaves<V>(node: Node<V>): seq<Node<V>> {
    match node
    case Logic(_, left, right) => Leaves(left) + Leaves(right)
    case _ => [node]
  }

  ghost predicate Blames<V>(e: SyntaxError, leaf: Node<V>) {
    match leaf
    case Comparison(operator, _, _) => e == UnknownOperator(operator) && Spoken(operator).None?
    case Other(kind) => e == UnknownType(kind)
    case Logic(_, _, _) => false
  }

  /** The error is that of the first leaf that is not known. */
  lemma {:induction false} FirstIsBlamed<V>(node: Node<V>) returns (i: nat)
    requires Compile(node).Err?
    ensures i < |Leaves(node)| && Blames(Compile(node).error, Leaves(node)[i])
    ensures forall j | 0 <= j < i :: Known(Leaves(node)[j])
  {
    match node
    case Logic(_, left, right) =>
      if Compile(left).Err? {
        i := FirstIsBlamed(left);
      } else {
        var k := FirstIsBlamed(right);
        i := |Leaves(left)| + k;
        CompilesKnown(left);
        LeavesKnown(left);
      }
    case Comparison(operator, _, _) =>
      OperatorsCorrespond(operator);
      i := 0;
    case Other(_) =>
      i := 0;
  }

  lemma {:induction false} LeavesKnown<V>(node: Node<V>)
    requires Known(node)
    ensures forall i | 0 <= i < |Leaves(node)| :: Known(Leaves(node)[i])
  {
    match node
    case Logic(_, left, right) =>
      LeavesKnown(left);
      LeavesKnown(right);
    case _ =>
  }

  /** An unknown logical operator is no error, but nothing is selected. */
  lemma UnknownLogicSelectsNothing<V>(node: Node<V>, record: Fields, related: Relations<V>)
    requires node.Logic? && node.operator !in {"and", ";", "or", ","} && Compile(node).Ok?
    ensures !Selects(Compile(node).value, record, related)
  {
    SingleClause(LogicKey(node.operator), Filters([Compile(node.left).value, Compile(node.right).value]), record, related);
  }

  /** A query translates exactly when its criteria compile; otherwise the compiler's error is passed on. */
  lemma TranslatesIff<V>(query: Query<V>)
    ensures match Translated(query)
            case Ok(_) => query.criteria.Some? ==> Known(query.criteria.value)
            case Err(e) => query.criteria.Some? && Compile(query.criteria.value) == Err(e)
  {
    if query.criteria.Some? {
      CompilesKnown(query.criteria.value);
    }
  }

  // Identity and version

  /** The criteria are one comparison of the very field the query restricts anyway. */
  predicate Clashes<V>(query: Query<V>) {
    && query.criteria.Some? && query.criteria.value.Comparison?
    && var field := Rename(query.criteria.value.selector);
       (query.id.Some? && field == "_id") || (query.version.Some? && field == "_version")
  }

  ghost predicate Required<V>(value: Option<V>, property: Json, related: Relations<V>) {
    value.Some? ==> related(Equal, property, value.value)
  }

  lemma MoreClauses<V>(clauses: map<string, Clause<V>>, key: string, clause: Clause<V>, record: Fields, related: Relations<V>)
    requires key !in clauses
    ensures Selects(Filter(clauses[key := clause]), record, related) <==>
            Selects(Filter(clauses), record, related) && Meets(key, clause, record, related)
  {
    var more := Filter(clauses[key := clause]);
    assert more.clauses[key] == clause;
    assert forall k | k in clauses :: k in more.clauses && more.clauses[k] == clauses[k];
  }

  lemma AddedClause<V>(clauses: map<string, Clause<V>>, key: string, value: V, record: Fields, related: Relations<V>)
    requires key !in clauses && (key == "_id" || key == "_version")
    ensures Selects(Filter(clauses[key := Exactly(value)]), record, related) <==>
            Selects(Filter(clauses), record, related) && related(Equal, At(record, key), value)
  {
    MoreClauses(clauses, key, Exactly(value), record, related);
    SplitSingle(key);
    assert Property(record, key) == At(record, key);
  }

  lemma TopKey<V>(node: Node<V>)
    requires Compile(node).Ok?
    ensures Compile(node).value.clauses.Keys ==
            {match node case Logic(operator, _, _) => LogicKey(operator) case Comparison(_, selector, _) => Rename(selector) case _ => ""}
  {
  }

  /** Unless they clash, criteria, id and version are all required, and nothing else is. */
  lemma TranslateConjoins<V>(query: Query<V>, record: Fields, related: Relations<V>)
    requires query.criteria.Some? ==> Compile(query.criteria.value).Ok?
    requires !Clashes(query)
    ensures Translated(query).Ok?
    ensures Selects(Translated(query).value, record, related) <==>
            && (query.criteria.Some? ==> Selects(Compile(query.criteria.value).value, record, related))
            && Required(query.id, At(record, "_id"), related)
            && Required(query.version, At(record, "_version"), related)
  {
    var clauses := if query.criteria == None then map[] else Compile(query.criteria.value).value.clauses;
    if query.criteria.Some? {
      TopKey(query.criteria.value);
      assert Filter(clauses) == Compile(query.criteria.value).value;
    }
    if query.id.Some? {
      AddedClause(clauses, "_id", query.id.value, record, related);
    }
    if query.version.Some? {
      AddedClause(WithId(clauses, query.id), "_version", query.version.value, record, related);
    }
  }

  /** A clashing comparison is dropped. */
  lemma ClashIsDropped<V>(query: Query<V>)
    requires Clashes(query) && Compile(query.criteria.value).Ok?
    ensures Translated(query) == Translated(query.(criteria := None))
  {
    TopKey(query.criteria.value);
    var with := Translated(query).value.clauses;
    var without := Translated(query.(criteria := None)).value.clauses;
    assert with.Keys == without.Keys;
    assert with == without;
  }

  /** Criteria, id and version are all required, and nothing else is. */
  ghost predicate Conjoins<V>(query: Query<V>, record: Fields, related: Relations<V>)
    requires query.criteria.Some? ==> Compile(query.criteria.value).Ok?
  {
    && Translated(query).Ok?
    && (Selects(Translated(query).value, record, related) <==>
        && (query.criteria.Some? ==> Selects(Compile(query.criteria.value).value, record, related))
        && Required(query.id, At(record, "_id"), related)
        && Required(query.version, At(record, "_version"), related))
  }

  /** The comparison that clashes is not just the restriction itself. */
  ghost predicate Loses<V>(query: Query<V>) {
    Clashes(query) && !(query.criteria.value.operator == "==" && query.criteria.value.value == Restriction(query))
  }

  /** What the query requires of the field that the comparison is about. */
  function Restriction<V>(query: Query<V>): V
    requires Clashes(query)
  {
    if Rename(query.criteria.value.selector) == "_id" then query.id.value else query.version.value
  }

  lemma KeySelects<V>(key: string, operator: string, value: V, record: Fields, related: Relations<V>)
    requires key in {"_id", "_version"} && Stored(operator).Some?
    ensures Selects(Filter(map[key := Condition(operator, value)]), record, related) <==>
            related(Stored(operator).value, At(record, key), value)
  {
    SplitSingle(key);
    assert Property(record, key) == At(record, key);
    SingleClause(key, Condition(operator, value), record, related);
  }

  lemma SelectsComparison<V>(node: Node<V>, record: Fields, related: Relations<V>)
    requires node.Comparison? && Compile(node).Ok? && Rename(node.selector) in {"_id", "_version"}
    ensures Spoken(node.operator).Some?
    ensures Selects(Compile(node).value, record, related) <==>
            related(Spoken(node.operator).value, At(record, Rename(node.selector)), node.value)
  {
    OperatorsCorrespond(node.operator);
    KeySelects(Rename(node.selector), ComparisonKey(node.operator).value, node.value, record, related);
  }

  /** What is left of the conjunction when the comparison is dropped. */
  lemma ClashMeans<V>(query: Query<V>, record: Fields, related: Relations<V>)
    requires Clashes(query) && Compile(query.criteria.value).Ok?
    ensures var node := query.criteria.value;
      && Spoken(node.operator).Some?
      && (Conjoins(query, record, related) <==>
          (Required(query.id, At(record, "_id"), related) && Required(query.version, At(record, "_version"), related) ==>
             related(Spoken(node.operator).value, At(record, Rename(node.selector)), node.value)))
  {
    ClashIsDropped(query);
    TranslateConjoins(query.(criteria := None), record, related);
    SelectsComparison(query.criteria.value, record, related);
  }

  lemma ClashConjoins<V>(query: Query<V>, record: Fields, related: Relations<V>)
    requires Clashes(query) && Compile(query.criteria.value).Ok? && !Loses(query)
    ensures Conjoins(query, record, related)
  {
    ClashMeans(query, record, related);
  }

  /** A record and relations for which the dropped comparison would have made a difference. */
  lemma LossShows<V>(query: Query<V>) returns (record: Fields, related: Relations<V>)
    requires Clashes(query) && Compile(query.criteria.value).Ok? && Loses(query)
    ensures !Conjoins(query, record, related)
  {
    var node := query.criteria.value;
    OperatorsCorrespond(node.operator);
    var relation, value := Spoken(node.operator).value, node.value;
    record := map["_id" := Text("id"), "_version" := Number(1)];
    var x := At(record, Rename(node.selector));
    related := (r, y, v) => !(r == relation && y == x && v == value);
    ClashMeans(query, record, related);
  }

  /** A translated query means the conjunction, of all records, exactly unless it loses a comparison. */
  lemma ConjoinsIff<V(!new)>(query: Query<V>)
    requires query.criteria.Some? ==> Compile(query.criteria.value).Ok?
    ensures (forall record, related :: Conjoins(query, record, related)) <==> !Loses(query)
  {
    if Loses(query) {
      var record, related := LossShows(query);
    } else {
      forall record, related ensures Conjoins(query, record, related) {
        if Clashes(query) {
          ClashConjoins(query, record, related);
        } else {
          TranslateConjoins(query, record, related);
        }
      }
    }
  }

  /** A query by criteria, id and version finds exactly the entities that satisfy all three, unless it loses one. */
  lemma QueryKeepsMeaning<V>(query: Query<V>, entity: Fields, related: Relations<V>)
    requires query.criteria.Some? ==> WellFormed(query.criteria.value)
    requires "_id" !in entity
    ensures query.criteria.Some? ==> Compile(query.criteria.value).Ok?
    ensures Translated(query).Ok?
    ensures !Loses(query) ==>
              (Selects(Translated(query).value, To(entity), related) <==>
               && (query.criteria.Some? ==> Satisfies(query.criteria.value, entity, related))
               && Required(query.id, At(entity, "id"), related)
               && Required(query.version, At(entity, "_version"), related))
  {
    if query.criteria.Some? {
      CompileKeepsMeaning(query.criteria.value, entity, related);
    }
    if Clashes(query) {
      if !Loses(query) {
        ClashConjoins(query, To(entity), related);
      }
    } else {
      TranslateConjoins(query, To(entity), related);
    }
  }
}
