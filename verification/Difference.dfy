/** Object trees as the runtime stores them, and the changeset of two such trees. */
module Json {

  type Fields = map<string, Json>

  /** `Undefined` is the value a changeset carries for a field that disappeared. */
  datatype Json =
    | Undefined
    | Null
    | Boolean(b: bool)
    | Number(n: int)
    | Text(s: string)
    | Object(fields: Fields)

  /** The results of JavaScript's `typeof`; `null` is an 'object'. */
  datatype Kind = UndefinedKind | BooleanKind | NumberKind | StringKind | ObjectKind

  function TypeOf(j: Json): Kind {
    match j
    case Undefined => UndefinedKind
    case Null => ObjectKind
    case Boolean(_) => BooleanKind
    case Number(_) => NumberKind
    case Text(_) => StringKind
    case Object(_) => ObjectKind
  }

  function At(o: Fields, key: string): Json {
    if key in o then o[key] else Undefined
  }

  /** No field holds an explicit `undefined`, at any depth. */
  ghost predicate Plain(o: Fields)
    decreases Object(o)
  {
    forall k | k in o :: o[k] != Undefined && (o[k].Object? ==> Plain(o[k].fields))
  }

  /** The value at a path; `Undefined` when some step is missing or is not an object. */
  function Lookup(o: Fields, path: seq<string>): Json
    decreases |path|
  {
    if path == [] then Object(o)
    else if |path| == 1 then At(o, path[0])
    else match At(o, path[0])
      case Object(inner) => Lookup(inner, path[1..])
      case _ => Undefined
  }
}

module Differences {
  import opened Wrappers
  import opened Json

  /** What one key contributes to a changeset. `Throws` stands for the TypeError of reading the keys of `null`. */
  datatype Slot = Throws | Same | Put(value: Json)

  function SlotOf(a: Fields, b: Fields, key: string): Slot
    decreases Object(a), 0
  {
    if TypeOf(At(a, key)) != TypeOf(At(b, key)) then Put(At(b, key))
    else if At(a, key).Object? then
      assert key in a;
      if At(b, key) == Null then Throws
      else assert a[key] == Object(a[key].fields); match Difference(a[key].fields, At(b, key).fields)
        case None => Throws
        case Some(d) => Put(Object(d))
    else if At(a, key) != At(b, key) then Put(At(b, key))
    else Same
  }

  function Difference(a: Fields, b: Fields): Option<Fields>
    decreases Object(a), 1
  {
    if exists k | k in a.Keys + b.Keys :: SlotOf(a, b, k).Throws? then None
    else Some(map k | k in a.Keys + b.Keys && SlotOf(a, b, k).Put? :: SlotOf(a, b, k).value)
  }

  /** Applies a changeset: recurse where both sides are objects, drop what is undefined, replace the rest. */
  function Patch(a: Fields, d: Fields): Fields
    decreases Object(d)
  {
    map k | k in a.Keys + d.Keys && (k in d ==> d[k] != Undefined) ::
      if k !in d then a[k]
      else if d[k].Object? && At(a, k).Object? then
        assert d[k] == Object(d[k].fields); Object(Patch(a[k].fields, d[k].fields))
      else d[k]
  }

  /** Some field holds an object in `a` and `null` in `b`, with objects on both sides above it. */
  ghost predicate ObjectToNull(a: Fields, b: Fields) {
    exists path: seq<string> :: path != [] && Lookup(a, path).Object? && Lookup(b, path) == Null
  }

  /** `difference` throws exactly on the trees in which some field goes from an object to `null`. */
  lemma {:induction false} DifferenceThrowsIff(a: Fields, b: Fields)
    ensures Difference(a, b).None? <==> ObjectToNull(a, b)
    decreases Object(a)
  {
    if Difference(a, b).None? {
      var k :| k in a.Keys + b.Keys && SlotOf(a, b, k).Throws?;
      assert a[k] == Object(a[k].fields);
      if b[k] == Null {
        assert Lookup(a, [k]).Object? && Lookup(b, [k]) == Null;
      } else {
        DifferenceThrowsIff(a[k].fields, b[k].fields);
        var path: seq<string> :| path != [] && Lookup(a[k].fields, path).Object? && Lookup(b[k].fields, path) == Null;
        assert ([k] + path)[1..] == path;
        assert Lookup(a, [k] + path).Object? && Lookup(b, [k] + path) == Null;
      }
    }
    if ObjectToNull(a, b) {
      var path: seq<string> :| path != [] && Lookup(a, path).Object? && Lookup(b, path) == Null;
      var k := path[0];
      if |path| > 1 {
        assert a[k] == Object(a[k].fields);
        assert Lookup(a[k].fields, path[1..]).Object? && Lookup(b[k].fields, path[1..]) == Null;
        DifferenceThrowsIff(a[k].fields, b[k].fields);
      }
      assert SlotOf(a, b, k).Throws?;
    }
  }

  /** Something is held at a path, `undefined` included. */
  ghost predicate Present(o: Fields, path: seq<string>)
    decreases |path|
  {
    && path != [] && path[0] in o
    && (|path| > 1 ==> o[path[0]].Object? && Present(o[path[0]].fields, path[1..]))
  }

  /** Exactly which keys a changeset has, and what it has there. */
  lemma DifferenceIsExact(a: Fields, b: Fields, k: string)
    requires Difference(a, b).Some?
    ensures var d := Difference(a, b).value;
      if At(a, k).Object? && At(b, k).Object? then
        var nested := Difference(At(a, k).fields, At(b, k).fields); nested.Some? && k in d && d[k] == Object(nested.value)
      else
        (k in d <==> At(a, k) != At(b, k)) && (k in d ==> d[k] == At(b, k))
  {
    assert k in a.Keys + b.Keys ==> !SlotOf(a, b, k).Throws?;
    if At(a, k).Object? && At(b, k).Object? {
      assert a[k] == Object(a[k].fields) && b[k] == Object(b[k].fields);
    }
  }

  lemma {:induction false} PlainPresent(o: Fields, path: seq<string>)
    requires Plain(o) && Present(o, path)
    ensures Lookup(o, path) != Undefined
    decreases |path|
  {
    if |path| > 1 {
      PlainPresent(o[path[0]].fields, path[1..]);
    }
  }

  /** A changeset holds only changes: wherever it holds a value, the trees differ there, and the value is the new one. */
  lemma {:induction false} ChangesOnly(a: Fields, b: Fields, path: seq<string>)
    requires Difference(a, b).Some? && Plain(b)
    requires Present(Difference(a, b).value, path) && !Lookup(Difference(a, b).value, path).Object?
    ensures Lookup(a, path) != Lookup(b, path) && Lookup(Difference(a, b).value, path) == Lookup(b, path)
    decreases |path|
  {
    var d, k := Difference(a, b).value, path[0];
    DifferenceIsExact(a, b, k);
    if |path| > 1 {
      if At(a, k).Object? && At(b, k).Object? {
        ChangesOnly(a[k].fields, b[k].fields, path[1..]);
      } else {
        PlainPresent(b, path);
      }
    }
  }

  /** Above `path` there are objects on both sides. */
  ghost predicate Together(a: Fields, b: Fields, path: seq<string>)
    decreases |path|
  {
    path != [] && (|path| > 1 ==> At(a, path[0]).Object? && At(b, path[0]).Object? &&
                                  Together(At(a, path[0]).fields, At(b, path[0]).fields, path[1..]))
  }

  /** ... and all of them: below objects on both sides it holds exactly the values that differ. */
  lemma {:induction false} ChangesAll(a: Fields, b: Fields, path: seq<string>)
    requires Difference(a, b).Some? && Together(a, b, path) && !(Lookup(a, path).Object? && Lookup(b, path).Object?)
    ensures Present(Difference(a, b).value, path) <==> Lookup(a, path) != Lookup(b, path)
    decreases |path|
  {
    DifferenceIsExact(a, b, path[0]);
    if |path| > 1 {
      ChangesAll(At(a, path[0]).fields, At(b, path[0]).fields, path[1..]);
    }
  }

  /** Patching the origin with the changeset yields the state. */
  lemma {:induction false} PatchDifference(a: Fields, b: Fields)
    requires Plain(a) && Plain(b)
    requires Difference(a, b).Some?
    ensures Patch(a, Difference(a, b).value) == b
    decreases Object(a)
  {
    var d := Difference(a, b).value;
    forall k | k in a && k in b && a[k].Object? && b[k].Object?
      ensures Difference(a[k].fields, b[k].fields).Some?
      ensures Patch(a[k].fields, Difference(a[k].fields, b[k].fields).value) == b[k].fields
    {
      assert a[k] == Object(a[k].fields);
      assert !SlotOf(a, b, k).Throws?;
      PatchDifference(a[k].fields, b[k].fields);
    }
    forall k ensures k in Patch(a, d) <==> k in b
             ensures k in b ==> Patch(a, d)[k] == b[k]
    {
      PatchKey(a, b, k);
    }
    assert Patch(a, d) == b;
  }

  /** One key of the patched tree, once the nested trees under it are known to come out right. */
  lemma PatchKey(a: Fields, b: Fields, k: string)
    requires Plain(a) && Plain(b) && Difference(a, b).Some?
    requires k in a && k in b && a[k].Object? && b[k].Object? ==>
               && Difference(a[k].fields, b[k].fields).Some?
               && Patch(a[k].fields, Difference(a[k].fields, b[k].fields).value) == b[k].fields
    ensures var patched := Patch(a, Difference(a, b).value); (k in patched <==> k in b) && (k in b ==> patched[k] == b[k])
  {
    assert k in a.Keys + b.Keys ==> !SlotOf(a, b, k).Throws?;
  }

  /** The changesets of a history, one per transition, oldest first. */
  function Changesets(history: seq<Fields>): seq<Option<Fields>> {
    if |history| < 2 then [] else [Difference(history[0], history[1])] + Changesets(history[1..])
  }

  function Replay(origin: Fields, changesets: seq<Option<Fields>>): Fields
    requires forall c <- changesets :: c.Some?
    decreases |changesets|
  {
    if changesets == [] then origin else Replay(Patch(origin, changesets[0].value), changesets[1..])
  }

  /** Folding a record's changesets in version order over its first state reconstructs its last state. */
  lemma {:induction false} ReplayReconstructs(history: seq<Fields>)
    requires history != []
    requires forall s <- history :: Plain(s)
    requires forall i | 0 < i < |history| :: !ObjectToNull(history[i - 1], history[i])
    ensures forall c <- Changesets(history) :: c.Some?
    ensures Replay(history[0], Changesets(history)) == history[|history| - 1]
  {
    if |history| > 1 {
      DifferenceThrowsIff(history[0], history[1]);
      PatchDifference(history[0], history[1]);
      ReplayReconstructs(history[1..]);
    }
  }

  /** `diff` holds the slots of exactly the keys that are no longer pending, none of which throws. */
  ghost predicate Collected(a: Fields, b: Fields, pending: set<string>, diff: Fields) {
    && pending <= a.Keys + b.Keys
    && diff.Keys <= a.Keys + b.Keys
    && forall k | k in a.Keys + b.Keys ::
         if k in pending then k !in diff
         else match SlotOf(a, b, k)
           case Throws => false
           case Same => k !in diff
           case Put(value) => k in diff && diff[k] == value
  }

  lemma CollectedNext(a: Fields, b: Fields, pending: set<string>, diff: Fields, key: string)
    requires Collected(a, b, pending, diff) && key in pending
    requires !SlotOf(a, b, key).Throws?
    ensures Collected(a, b, pending - {key},
                      if SlotOf(a, b, key).Put? then diff[key := SlotOf(a, b, key).value] else diff)
  {
  }

  lemma CollectedAll(a: Fields, b: Fields, diff: Fields)
    requires Collected(a, b, {}, diff)
    ensures Difference(a, b) == Some(diff)
  {
    assert forall k | k in a.Keys + b.Keys :: !SlotOf(a, b, k).Throws?;
    var d := Difference(a, b).value;
    assert forall k | k in a.Keys + b.Keys :: k in d <==> k in diff;
    assert d.Keys == diff.Keys;
    assert d == diff;
  }

  /** The body of the loop, for one key. */
  method ComputeSlot(a: Fields, b: Fields, key: string) returns (slot: Slot)
    ensures slot == SlotOf(a, b, key)
    decreases Object(a), 0
  {
    if TypeOf(At(a, key)) != TypeOf(At(b, key)) {
      slot := Put(At(b, key));
    } else if At(a, key).Object? {
      if At(b, key) == Null {
        return Throws;
      }
      assert a[key] == Object(a[key].fields);
      var nested := ComputeDifference(a[key].fields, b[key].fields);
      slot := if nested == None then Throws else Put(Object(nested.value));
    } else if At(a, key) != At(b, key) {
      slot := Put(At(b, key));
    } else {
      slot := Same;
    }
  }

  /** The loop over the union of the keys, which a TypeError leaves at once. */
  method ComputeDifference(a: Fields, b: Fields) returns (r: Option<Fields>)
    ensures r == Difference(a, b)
    decreases Object(a), 1
  {
    var diff: Fields := map[];
    var keys := a.Keys + b.Keys;
    while keys != {}
      invariant Collected(a, b, keys, diff)
      decreases |keys|
    {
      var key :| key in keys;
      var slot := ComputeSlot(a, b, key);
      if slot.Throws? {
        return None;
      }
      CollectedNext(a, b, keys, diff, key);
      if slot.Put? {
        diff := diff[key := slot.value];
      }
      keys := keys - {key};
    }
    CollectedAll(a, b, diff);
    r := Some(diff);
  }
}
