/** The recursive merge of two trees in its three modes. */
module Merging {
  import opened Wrappers

  datatype Tree =
    | Undefined
    | Null
    | Boolean(b: bool)
    | Number(n: int)
    | Text(s: string)
    | Array(items: seq<Tree>)
    | Object(fields: map<string, Tree>)
  {
    predicate Nested() {
      Array? || Object?
    }

    predicate Primitive() {
      Boolean? || Number? || Text?
    }
  }

  /** The results of JavaScript's `typeof`; `null` and arrays are objects. */
  datatype Kind = UndefinedKind | BooleanKind | NumberKind | StringKind | ObjectKind

  function TypeOf(t: Tree): Kind {
    match t
    case Undefined => UndefinedKind
    case Boolean(_) => BooleanKind
    case Number(_) => NumberKind
    case Text(_) => StringKind
    case _ => ObjectKind
  }

  /** `merge` with no options, with `overwrite`, with `ignore`. */
  datatype Mode = Strict | Overwrite | Ignore

  function At(o: map<string, Tree>, key: string): Tree {
    if key in o then o[key] else Undefined
  }

  function Given(t: Tree): Tree {
    if t == Undefined then Object(map[]) else t
  }

  /** No array meets an object at a common path: JavaScript would merge the two by keys. */
  predicate Unmixed(t: Tree, s: Tree)
    decreases s
  {
    && !(t.Array? && s.Object?) && !(t.Object? && s.Array?)
    && (t.Object? && s.Object? ==> forall k | k in s.fields :: Unmixed(At(t.fields, k), s.fields[k]))
  }

  /** The target after the merge; `None` is an exception. */
  function Merge(mode: Mode, target: Tree, source: Tree): Option<Tree>
    requires Unmixed(Given(target), Given(source))
    decreases source, 1
  {
    var t, s := Given(target), Given(source);
    if TypeOf(t) != TypeOf(s) then (if mode.Overwrite? then Some(s) else None)
    else if t.Array? && s.Array? then
      Some(match mode case Overwrite => s case Ignore => t case Strict => Array(t.items + s.items))
    else if t.Object? && source.Object? then MergeFields(mode, t, source)
    else if t.Object? && source == Undefined then Some(t)
    else if t == Null && (s == Object(map[]) || s == Array([])) then Some(Null)
    else None
  }

  function MergeFields(mode: Mode, t: Tree, s: Tree): Option<Tree>
    requires t.Object? && s.Object? && Unmixed(t, s)
    decreases s, 0
  {
    if exists k | k in s.fields :: MergeValue(mode, At(t.fields, k), s.fields[k]).None? then None
    else
      Some(Object(map k | k in t.fields.Keys + s.fields.Keys && (k in t.fields || s.fields[k] != Undefined) ::
                    if k in s.fields then MergeValue(mode, At(t.fields, k), s.fields[k]).value else t.fields[k]))
  }

  /** One key: the target holds `x` there, the source `value`. */
  function MergeValue(mode: Mode, x: Tree, value: Tree): Option<Tree>
    requires Unmixed(x, value)
    decreases value, 2
  {
    if value == Undefined then Some(x)
    else if x == Undefined then Some(value)
    else if value.Nested() then Merge(mode, x, value)
    else if x == value then Some(x)
    else match mode case Overwrite => Some(value) case Ignore => Some(x) case Strict => None
  }

  lemma ObjectsMergeByFields(mode: Mode, t: Tree, s: Tree)
    requires t.Object? && s.Object? && Unmixed(t, s)
    ensures MergeValue(mode, t, s) == Merge(mode, t, s) == MergeFields(mode, t, s)
    ensures MergeFields(mode, t, s).Some? <==>
            forall k | k in s.fields :: MergeValue(mode, At(t.fields, k), s.fields[k]).Some?
  {
  }

  // The loop

  /** `fields` are those of `t` with the keys of `s` that are no longer pending merged in. */
  ghost predicate Collected(mode: Mode, t: Tree, s: Tree, pending: set<string>, fields: map<string, Tree>)
    requires t.Object? && s.Object? && Unmixed(t, s)
  {
    && pending <= s.fields.Keys
    && (forall k | k in s.fields && k !in pending :: MergeValue(mode, At(t.fields, k), s.fields[k]).Some?)
    && forall k ::
         if k in s.fields && k !in pending then
           && (k in fields <==> k in t.fields || s.fields[k] != Undefined)
           && (k in fields ==> fields[k] == MergeValue(mode, At(t.fields, k), s.fields[k]).value)
         else
           && (k in fields <==> k in t.fields)
           && (k in fields ==> fields[k] == t.fields[k])
  }

  lemma CollectedAll(mode: Mode, t: Tree, s: Tree, fields: map<string, Tree>)
    requires t.Object? && s.Object? && Unmixed(t, s)
    requires Collected(mode, t, s, {}, fields)
    ensures MergeFields(mode, t, s) == Some(Object(fields))
  {
    var r := MergeFields(mode, t, s).value.fields;
    assert forall k :: k in r <==> k in fields;
    assert r == fields;
  }

  lemma CollectedNext(mode: Mode, t: Tree, s: Tree, pending: set<string>, fields: map<string, Tree>, key: string)
    requires t.Object? && s.Object? && Unmixed(t, s)
    requires Collected(mode, t, s, pending, fields) && key in pending
    requires MergeValue(mode, At(t.fields, key), s.fields[key]).Some?
    ensures At(fields, key) == At(t.fields, key)
    ensures var merged := MergeValue(mode, At(t.fields, key), s.fields[key]).value;
            Collected(mode, t, s, pending - {key},
                      if s.fields[key] == Undefined then fields else fields[key := merged])
  {
  }

  /** The body of the loop, for one key. */
  method ComputeValue(mode: Mode, x: Tree, value: Tree) returns (r: Option<Tree>)
    requires Unmixed(x, value)
    ensures r == MergeValue(mode, x, value)
    decreases value, 2
  {
    r := Some(x);
    if value != Undefined {
      if x == Undefined {
        r := Some(value);
      } else if value.Nested() {
        r := ComputeMerge(mode, x, value);
      } else if x != value {
        if mode.Overwrite? {
          r := Some(value);
        } else if !mode.Ignore? {
          r := None;
        }
      }
    }
  }

  /** The loop over the keys of the source, in any order. */
  method ComputeFields(mode: Mode, t: Tree, s: Tree) returns (r: Option<Tree>)
    requires t.Object? && s.Object? && Unmixed(t, s)
    ensures r == MergeFields(mode, t, s)
    decreases s, 0
  {
    var fields := t.fields;
    var keys := s.fields.Keys;
    while keys != {}
      invariant Collected(mode, t, s, keys, fields)
      decreases |keys|
    {
      var key :| key in keys;
      var merged := ComputeValue(mode, At(fields, key), s.fields[key]);
      if merged == None {
        return None;
      }
      CollectedNext(mode, t, s, keys, fields, key);
      if s.fields[key] != Undefined {
        fields := fields[key := merged.value];
      }
      keys := keys - {key};
    }
    CollectedAll(mode, t, s, fields);
    r := Some(Object(fields));
  }

  method ComputeMerge(mode: Mode, target: Tree, source: Tree) returns (r: Option<Tree>)
    requires Unmixed(Given(target), Given(source))
    ensures r == Merge(mode, target, source)
    decreases source, 1
  {
    var t, s := Given(target), Given(source);
    if TypeOf(t) != TypeOf(s) {
      return if mode.Overwrite? then Some(s) else None;
    }
    if s.Array? && t.Array? {
      var items := t.items;
      if mode.Overwrite? {
        items := [];
        items := items + s.items;
        assert items == s.items;
      } else if !mode.Ignore? {
        items := items + s.items;
      }
      return Some(Array(items));
    }
    if source.Object? && t.Object? {
      r := ComputeFields(mode, t, source);
    } else if t.Object? && source == Undefined {
      r := Some(t);
    } else if t == Null && (s == Object(map[]) || s == Array([])) {
      r := Some(Null);
    } else {
      r := None;
    }
  }

  // Adding is overwriting the other way round

  /** No field holds an explicit `undefined`. */
  ghost predicate Plain(t: Tree) {
    t != Undefined && (t.Object? ==> forall k | k in t.fields :: Plain(t.fields[k]))
  }

  /**
    * Where `s` nests, `t` nests as well (or is `null` against an empty value); where `s` is `null`, `t` does not nest.
    */
  predicate NoClash(t: Tree, s: Tree)
    decreases s
  {
    if s.Nested() then
      if t.Object? && s.Object? then forall k | k in s.fields && k in t.fields :: NoClash(t.fields[k], s.fields[k])
      else t.Array? || t.Object? || (t == Null && (s == Object(map[]) || s == Array([])))
    else s == Null ==> !t.Nested()
  }

  lemma ValuesAgree(t: Tree, s: Tree, k: string)
    requires t.Object? && s.Object? && Plain(t) && Plain(s) && Unmixed(t, s) && Unmixed(s, t)
    requires k in t.fields && k in s.fields ==>
               var x, v := t.fields[k], s.fields[k];
               MergeValue(Ignore, x, v).Some? && MergeValue(Ignore, x, v) == MergeValue(Overwrite, v, x)
    ensures k in s.fields ==> MergeValue(Ignore, At(t.fields, k), s.fields[k]).Some?
    ensures k in t.fields ==> MergeValue(Overwrite, At(s.fields, k), t.fields[k]).Some?
    ensures k in s.fields ==>
              MergeValue(Ignore, At(t.fields, k), s.fields[k]).value ==
              if k in t.fields then MergeValue(Overwrite, s.fields[k], t.fields[k]).value else s.fields[k]
    ensures k in t.fields && k !in s.fields ==>
              MergeValue(Overwrite, At(s.fields, k), t.fields[k]).value == t.fields[k]
  {
    assert k !in t.fields ==> At(t.fields, k) == Undefined;
    assert k !in s.fields ==> At(s.fields, k) == Undefined;
  }

  /** What the merged object holds at one key. */
  lemma MergedField(mode: Mode, t: Tree, s: Tree, k: string)
    requires t.Object? && s.Object? && Plain(t) && Plain(s) && Unmixed(t, s) && MergeFields(mode, t, s).Some?
    ensures var fields := MergeFields(mode, t, s).value.fields;
      && (k in fields <==> k in t.fields || k in s.fields)
      && (k in s.fields ==> MergeValue(mode, At(t.fields, k), s.fields[k]) == Some(fields[k]))
      && (k in t.fields && k !in s.fields ==> fields[k] == t.fields[k])
  {
  }

  ghost predicate FieldAgrees(t: Tree, s: Tree, k: string)
    requires t.Object? && s.Object? && Unmixed(t, s) && Unmixed(s, t)
  {
    && (k in s.fields ==> MergeValue(Ignore, At(t.fields, k), s.fields[k]).Some?)
    && (k in t.fields ==> MergeValue(Overwrite, At(s.fields, k), t.fields[k]).Some?)
    && (k in s.fields ==>
          MergeValue(Ignore, At(t.fields, k), s.fields[k]).value ==
          if k in t.fields then MergeValue(Overwrite, At(s.fields, k), t.fields[k]).value else s.fields[k])
    && (k in t.fields && k !in s.fields ==> MergeValue(Overwrite, At(s.fields, k), t.fields[k]).value == t.fields[k])
  }

  lemma AllFieldsAgree(t: Tree, s: Tree)
    requires t.Object? && s.Object? && Plain(t) && Plain(s) && Unmixed(t, s) && Unmixed(s, t)
    requires forall k :: FieldAgrees(t, s, k)
    ensures MergeFields(Ignore, t, s).Some? && MergeFields(Ignore, t, s) == MergeFields(Overwrite, s, t)
  {
    assert forall k | k in s.fields :: FieldAgrees(t, s, k);
    assert forall k | k in t.fields :: FieldAgrees(t, s, k);
    ObjectsMergeByFields(Ignore, t, s);
    ObjectsMergeByFields(Overwrite, s, t);
    var added, overwritten := MergeFields(Ignore, t, s).value.fields, MergeFields(Overwrite, s, t).value.fields;
    forall k ensures At(added, k) == At(overwritten, k) && (k in added <==> k in overwritten) {
      assert FieldAgrees(t, s, k);
      MergedField(Ignore, t, s, k);
      MergedField(Overwrite, s, t, k);
    }
    SameFieldsAreEqual(added, overwritten);
  }

  lemma FieldsAgree(t: Tree, s: Tree)
    requires t.Object? && s.Object? && Plain(t) && Plain(s) && Unmixed(t, s) && Unmixed(s, t)
    requires forall k | k in t.fields && k in s.fields ::
               var x, v := t.fields[k], s.fields[k];
               MergeValue(Ignore, x, v).Some? && MergeValue(Ignore, x, v) == MergeValue(Overwrite, v, x)
    ensures MergeFields(Ignore, t, s).Some? && MergeFields(Ignore, t, s) == MergeFields(Overwrite, s, t)
  {
    forall k ensures FieldAgrees(t, s, k) {
      ValuesAgree(t, s, k);
    }
    AllFieldsAgree(t, s);
  }

  lemma AgreeOnFields(t: Tree, s: Tree, k: string)
    requires t.Object? && s.Object? && Plain(t) && Plain(s) && Unmixed(t, s) && Unmixed(s, t)
    requires MergeFields(Ignore, t, s).Some? && MergeFields(Ignore, t, s) == MergeFields(Overwrite, s, t)
    requires k in t.fields && k in s.fields
    ensures var x, v := t.fields[k], s.fields[k];
            MergeValue(Ignore, x, v).Some? && MergeValue(Ignore, x, v) == MergeValue(Overwrite, v, x)
  {
    assert At(t.fields, k) == t.fields[k] && At(s.fields, k) == s.fields[k];
    var r := MergeFields(Ignore, t, s).value.fields[k];
    assert MergeValue(Ignore, t.fields[k], s.fields[k]) == Some(r);
    assert MergeValue(Overwrite, s.fields[k], t.fields[k]) == Some(r);
  }

  /** `add(t, s)` succeeds with the result of `overwrite(s, t)` exactly when nothing clashes. */
  lemma {:induction false} AddIsOverwrite(t: Tree, s: Tree)
    requires Plain(t) && Plain(s) && Unmixed(t, s) && Unmixed(s, t)
    ensures var added, overwritten := MergeValue(Ignore, t, s), MergeValue(Overwrite, s, t);
            added.Some? && added == overwritten <==> NoClash(t, s)
    ensures (t.Object? && s.Object?) || (t.Array? && s.Array?) ==>
              var added, overwritten := Merge(Ignore, t, s), Merge(Overwrite, s, t);
              added.Some? && added == overwritten <==> NoClash(t, s)
    decreases s
  {
    if t.Object? && s.Object? {
      forall k | k in t.fields && k in s.fields
        ensures var x, v := t.fields[k], s.fields[k];
                MergeValue(Ignore, x, v).Some? && MergeValue(Ignore, x, v) == MergeValue(Overwrite, v, x) <==>
                NoClash(x, v)
      {
        assert At(t.fields, k) == t.fields[k] && At(s.fields, k) == s.fields[k];
        AddIsOverwrite(t.fields[k], s.fields[k]);
      }
      if NoClash(t, s) {
        FieldsAgree(t, s);
      } else {
        var k :| k in s.fields && k in t.fields && !NoClash(t.fields[k], s.fields[k]);
        if MergeFields(Ignore, t, s).Some? && MergeFields(Ignore, t, s) == MergeFields(Overwrite, s, t) {
          AgreeOnFields(t, s, k);
          assert false;
        }
      }
    }
  }

  lemma SingleKey(mode: Mode, k: string, x: Tree, v: Tree)
    requires v != Undefined && Unmixed(x, v) && Unmixed(One(k, x), One(k, v))
    ensures var r := MergeValue(mode, x, v);
      Merge(mode, One(k, x), One(k, v)) == if r.None? then None else Some(One(k, r.value))
  {
    var t, s := One(k, x), One(k, v);
    assert At(t.fields, k) == x && s.fields[k] == v;
    ObjectsMergeByFields(mode, t, s);
    if MergeValue(mode, x, v).Some? {
      assert MergeFields(mode, t, s).value.fields == map[k := MergeValue(mode, x, v).value];
    }
  }

  lemma NumberAgainstObject(k: string, n: Tree, o: Tree)
    requires n.Number? && o.Object?
    ensures Unmixed(One(k, n), One(k, o)) && Merge(Ignore, One(k, n), One(k, o)) == None
    ensures Unmixed(One(k, o), One(k, n)) && Merge(Overwrite, One(k, o), One(k, n)) == Some(One(k, n))
  {
    assert Unmixed(n, o) && Unmixed(o, n);
    SingleKey(Ignore, k, n, o);
    SingleKey(Overwrite, k, o, n);
  }

  /** `add({k: 1}, {k: {}})` throws, `overwrite({k: {}}, {k: 1})` does not. */
  lemma AddMayThrow()
    ensures var t, s := One("k", Number(1)), One("k", Object(map[]));
      && Unmixed(t, s) && Unmixed(s, t)
      && Merge(Ignore, t, s) == None && Merge(Overwrite, s, t) == Some(t)
  {
    NumberAgainstObject("k", Number(1), Object(map[]));
  }

  // Overwriting

  /** At no common path does an array meet an object, or an object or array overwrite `null`. */
  ghost predicate Overwritable(t: Tree, s: Tree)
    decreases s
  {
    && !(t == Null && s.Nested()) && !(t.Array? && s.Object?) && !(t.Object? && s.Array?)
    && (t.Object? && s.Object? ==> forall k | k in t.fields && k in s.fields :: Overwritable(t.fields[k], s.fields[k]))
  }

  lemma {:induction false} OverwritableIsUnmixed(t: Tree, s: Tree)
    requires Overwritable(t, s)
    ensures Unmixed(t, s)
    decreases s
  {
    if t.Object? && s.Object? {
      forall k | k in s.fields ensures Unmixed(At(t.fields, k), s.fields[k]) {
        if k in t.fields {
          OverwritableIsUnmixed(t.fields[k], s.fields[k]);
        }
      }
    }
  }

  /** What overwriting leaves: objects are joined key by key, anything else is replaced. */
  ghost function Over(t: Tree, s: Tree): Tree
    decreases s
  {
    if t.Object? && s.Object? then
      Object(map k | k in t.fields.Keys + s.fields.Keys ::
               if k !in s.fields then t.fields[k]
               else if k !in t.fields then s.fields[k]
               else Over(t.fields[k], s.fields[k]))
    else s
  }

  /** On plain trees that are overwritable, overwriting never fails, and it is `Over`. */
  lemma {:induction false} OverwriteIsOver(t: Tree, s: Tree)
    requires Plain(t) && Plain(s) && Overwritable(t, s)
    ensures Unmixed(t, s) && MergeValue(Overwrite, t, s) == Some(Over(t, s))
    decreases s
  {
    OverwritableIsUnmixed(t, s);
    if t.Object? && s.Object? {
      forall k | k in s.fields
        ensures MergeValue(Overwrite, At(t.fields, k), s.fields[k]) ==
                Some(if k in t.fields then Over(t.fields[k], s.fields[k]) else s.fields[k])
      {
        if k in t.fields {
          OverwriteIsOver(t.fields[k], s.fields[k]);
        } else {
          assert At(t.fields, k) == Undefined;
        }
      }
      ObjectsMergeByFields(Overwrite, t, s);
      assert MergeFields(Overwrite, t, s).value.fields == Over(t, s).fields;
    }
  }

  lemma {:induction false} OverIsOverwritable(a: Tree, b: Tree, c: Tree)
    requires Overwritable(a, b) && Overwritable(a, c) && Overwritable(b, c)
    ensures Overwritable(Over(a, b), c)
    decreases b
  {
    if a.Object? && b.Object? && c.Object? {
      forall k | k in a.fields && k in b.fields && k in c.fields
        ensures Overwritable(Over(a.fields[k], b.fields[k]), c.fields[k])
      {
        OverIsOverwritable(a.fields[k], b.fields[k], c.fields[k]);
      }
    }
  }

  lemma {:induction false} OverwritableByOver(a: Tree, b: Tree, c: Tree)
    requires Overwritable(a, b) && Overwritable(a, c) && Overwritable(b, c)
    ensures Overwritable(a, Over(b, c))
    decreases c
  {
    if a.Object? && b.Object? && c.Object? {
      forall k | k in a.fields && k in b.fields && k in c.fields
        ensures Overwritable(a.fields[k], Over(b.fields[k], c.fields[k]))
      {
        OverwritableByOver(a.fields[k], b.fields[k], c.fields[k]);
      }
    }
  }

  lemma {:induction false} OverIsPlain(a: Tree, b: Tree)
    requires Plain(a) && Plain(b)
    ensures Plain(Over(a, b))
    decreases b
  {
    if a.Object? && b.Object? {
      forall k | k in a.fields && k in b.fields ensures Plain(Over(a.fields[k], b.fields[k])) {
        OverIsPlain(a.fields[k], b.fields[k]);
      }
    }
  }

  // When overwriting is associative

  /** Every key of `x` is a key of `y`, and so on where both hold objects. */
  ghost predicate Covered(x: Tree, y: Tree)
    requires x.Object? && y.Object?
  {
    forall k | k in x.fields :: k in y.fields && (x.fields[k].Object? && y.fields[k].Object? ==> Covered(x.fields[k], y.fields[k]))
  }

  /** At some common path a value that is no object stands between two objects, the first with keys the last lacks. */
  ghost predicate Between(a: Tree, b: Tree, c: Tree) {
    a.Object? && c.Object? &&
    if b.Object?
    then exists k | k in a.fields && k in b.fields && k in c.fields :: Between(a.fields[k], b.fields[k], c.fields[k])
    else !Covered(a, c)
  }

  lemma {:induction false} CoveredIsOverwritten(x: Tree, y: Tree)
    requires x.Object? && y.Object?
    ensures Over(x, y) == y <==> Covered(x, y)
    decreases y
  {
    forall k | k in x.fields && k in y.fields && x.fields[k].Object? && y.fields[k].Object?
      ensures Over(x.fields[k], y.fields[k]) == y.fields[k] <==> Covered(x.fields[k], y.fields[k])
    {
      CoveredIsOverwritten(x.fields[k], y.fields[k]);
    }
    var over := Over(x, y);
    if Covered(x, y) {
      forall k ensures k in over.fields <==> k in y.fields
               ensures k in y.fields ==> over.fields[k] == y.fields[k]
      {
        FieldOver(x, y, k);
      }
      assert over.fields == y.fields;
    }
    if over == y {
      assert forall k | k in x.fields :: k in over.fields;
      assert forall k | k in x.fields && k in y.fields :: over.fields[k] == Over(x.fields[k], y.fields[k]);
    }
  }

  lemma {:induction false} OverAssociates(a: Tree, b: Tree, c: Tree)
    requires Overwritable(a, b) && Overwritable(a, c) && Overwritable(b, c)
    ensures Over(Over(a, b), c) == Over(a, Over(b, c)) <==> !Between(a, b, c)
    decreases c
  {
    if a.Object? && c.Object? && !b.Object? {
      CoveredIsOverwritten(a, c);
    } else if a.Object? && b.Object? && c.Object? {
      forall k | k in a.fields && k in b.fields && k in c.fields
        ensures Over(Over(a.fields[k], b.fields[k]), c.fields[k]) == Over(a.fields[k], Over(b.fields[k], c.fields[k])) <==>
                !Between(a.fields[k], b.fields[k], c.fields[k])
      {
        OverAssociates(a.fields[k], b.fields[k], c.fields[k]);
      }
      forall k ensures SameAt(a, b, c, k) <==>
                       (k in a.fields && k in b.fields && k in c.fields ==> !Between(a.fields[k], b.fields[k], c.fields[k]))
      {
        FieldAssociates(a, b, c, k);
      }
      FieldsAssociate(a, b, c);
    }
  }

  lemma FieldOver(t: Tree, s: Tree, k: string)
    requires t.Object? && s.Object?
    ensures Over(t, s).Object?
    ensures k in Over(t, s).fields <==> k in t.fields || k in s.fields
    ensures k in t.fields && k in s.fields ==> Over(t, s).fields[k] == Over(t.fields[k], s.fields[k])
    ensures k in t.fields && k !in s.fields ==> Over(t, s).fields[k] == t.fields[k]
    ensures k !in t.fields && k in s.fields ==> Over(t, s).fields[k] == s.fields[k]
  {
  }

  /** Both orders give key `k` the same value, or leave it out. */
  ghost predicate SameAt(a: Tree, b: Tree, c: Tree, k: string) {
    var left, right := Over(Over(a, b), c), Over(a, Over(b, c));
    left.Object? && right.Object? && At(left.fields, k) == At(right.fields, k) && (k in left.fields <==> k in right.fields)
  }

  lemma FieldAssociates(a: Tree, b: Tree, c: Tree, k: string)
    requires a.Object? && b.Object? && c.Object?
    ensures SameAt(a, b, c, k) <==>
            (k in a.fields && k in b.fields && k in c.fields ==>
               Over(Over(a.fields[k], b.fields[k]), c.fields[k]) == Over(a.fields[k], Over(b.fields[k], c.fields[k])))
  {
    FieldOver(a, b, k);
    FieldOver(b, c, k);
    FieldOver(Over(a, b), c, k);
    FieldOver(a, Over(b, c), k);
  }

  lemma SameFieldsAreEqual(left: map<string, Tree>, right: map<string, Tree>)
    requires forall k :: At(left, k) == At(right, k) && (k in left <==> k in right)
    ensures left == right
  {
    forall k | k in left ensures left[k] == right[k] {
      assert At(left, k) == At(right, k);
    }
  }

  lemma FieldsAssociate(a: Tree, b: Tree, c: Tree)
    requires a.Object? && b.Object? && c.Object?
    ensures Over(Over(a, b), c) == Over(a, Over(b, c)) <==> forall k :: SameAt(a, b, c, k)
  {
    var left, right := Over(Over(a, b), c), Over(a, Over(b, c));
    assert left.Object? && right.Object?;
    if forall k :: SameAt(a, b, c, k) {
      forall k ensures At(left.fields, k) == At(right.fields, k) && (k in left.fields <==> k in right.fields) {
        assert SameAt(a, b, c, k);
      }
      SameFieldsAreEqual(left.fields, right.fields);
    }
  }

  /** The top of a merge: two objects or two arrays. */
  ghost predicate Pair(t: Tree, s: Tree) {
    t.Nested() && s.Nested() && Plain(t) && Plain(s) && Overwritable(t, s)
  }

  lemma OverwritePair(t: Tree, s: Tree)
    requires Pair(t, s)
    ensures Unmixed(Given(t), Given(s)) && Merge(Overwrite, t, s) == Some(Over(t, s))
  {
    OverwriteIsOver(t, s);
  }

  /**
    * Overwriting `a` with `b` and then with `c` is overwriting `a` with what `c` makes of `b`, exactly when no value
    * of `b` cuts off, at some path, keys of an object in `a` that an object in `c` does not restore.
    */
  lemma OverwriteAssociates(a: Tree, b: Tree, c: Tree)
    requires Pair(a, b) && Pair(a, c) && Pair(b, c)
    ensures Unmixed(a, b) && Merge(Overwrite, a, b).Some?
    ensures Unmixed(b, c) && Merge(Overwrite, b, c).Some?
    ensures var ab, bc := Merge(Overwrite, a, b).value, Merge(Overwrite, b, c).value;
      && Unmixed(Given(ab), c) && Unmixed(a, Given(bc))
      && Merge(Overwrite, ab, c).Some? && Merge(Overwrite, a, bc).Some?
      && (Merge(Overwrite, ab, c) == Merge(Overwrite, a, bc) <==> !Between(a, b, c))
  {
    OverIsOverwritable(a, b, c);
    OverwritableByOver(a, b, c);
    OverIsPlain(a, b);
    OverIsPlain(b, c);
    OverwritePair(a, b);
    OverwritePair(b, c);
    OverwritePair(Over(a, b), c);
    OverwritePair(a, Over(b, c));
    OverAssociates(a, b, c);
  }

  function One(k: string, v: Tree): Tree {
    Object(map[k := v])
  }

  const FIRST := One("k", One("p", Number(1)))
  const SECOND := One("k", Number(5))
  const THIRD := One("k", One("q", Number(2)))

  lemma ExamplePairs()
    ensures Pair(FIRST, SECOND) && Pair(FIRST, THIRD) && Pair(SECOND, THIRD)
  {
    assert forall t | t == One("p", Number(1)) || t == One("q", Number(2)) :: Plain(t);
  }

  lemma ExampleBetween()
    ensures Between(FIRST, SECOND, THIRD)
  {
    var p, q := One("p", Number(1)), One("q", Number(2));
    assert "p" in p.fields && "p" !in q.fields;
    assert FIRST.fields["k"] == p && SECOND.fields["k"] == Number(5) && THIRD.fields["k"] == q;
  }

  /** `{k: {p: 1}}`, `{k: 5}` and `{k: {q: 2}}`: the number cuts off `p`, or does not. */
  lemma OverwriteMayNotAssociate()
    ensures Unmixed(FIRST, SECOND) && Merge(Overwrite, FIRST, SECOND).Some?
    ensures Unmixed(SECOND, THIRD) && Merge(Overwrite, SECOND, THIRD).Some?
    ensures var ab, bc := Merge(Overwrite, FIRST, SECOND).value, Merge(Overwrite, SECOND, THIRD).value;
      Unmixed(Given(ab), THIRD) && Unmixed(FIRST, Given(bc)) && Merge(Overwrite, ab, THIRD) != Merge(Overwrite, FIRST, bc)
  {
    ExamplePairs();
    ExampleBetween();
    OverwriteAssociates(FIRST, SECOND, THIRD);
  }

  lemma {:induction false} OverItself(t: Tree)
    ensures Over(t, t) == t
  {
    if t.Object? {
      forall k | k in t.fields ensures Over(t.fields[k], t.fields[k]) == t.fields[k] {
        OverItself(t.fields[k]);
      }
      assert Over(t, t).fields == t.fields;
    }
  }

  lemma {:induction false} OverwritableByItself(t: Tree)
    ensures Overwritable(t, t)
  {
    if t.Object? {
      forall k | k in t.fields ensures Overwritable(t.fields[k], t.fields[k]) {
        OverwritableByItself(t.fields[k]);
      }
    }
  }

  /** Overwriting any object or array with itself changes nothing. */
  lemma OverwriteIsIdempotent(t: Tree)
    requires t.Nested() && Plain(t)
    ensures Unmixed(t, t) && Merge(Overwrite, t, t) == Some(t)
  {
    OverwritableByItself(t);
    OverwritePair(t, t);
    OverItself(t);
  }

  // Strict merge

  function Lookup(t: Tree, path: seq<string>): Tree
    decreases |path|
  {
    if path == [] then t
    else if t.Object? then Lookup(At(t.fields, path[0]), path[1..])
    else Undefined
  }

  predicate Leaf(t: Tree) {
    t == Null || t.Primitive()
  }

  /** Two different values at a common path, one of them a leaf; `null` takes an empty object or array. */
  ghost predicate ConflictAt(t: Tree, s: Tree, path: seq<string>) {
    Differ(Lookup(t, path), Lookup(s, path))
  }

  predicate Differ(x: Tree, v: Tree) {
    && x != Undefined && v != Undefined && (Leaf(x) || Leaf(v)) && x != v
    && !(x == Null && (v == Object(map[]) || v == Array([])))
  }

  /** Two arrays at a common path, with an item in one of them. */
  ghost predicate ItemsAt(t: Tree, s: Tree, path: seq<string>) {
    && Lookup(t, path).Array? && Lookup(s, path).Array?
    && (Lookup(t, path).items != [] || Lookup(s, path).items != [])
  }

  lemma InField(t: Tree, k: string, path: seq<string>)
    requires t.Object? && k in t.fields
    ensures Lookup(t, [k] + path) == Lookup(t.fields[k], path)
  {
    assert ([k] + path)[1..] == path;
  }

  lemma InNoField(t: Tree, path: seq<string>)
    requires t.Object? && path != [] && path[0] !in t.fields
    ensures Lookup(t, path) == Undefined
  {
    assert At(t.fields, path[0]) == Undefined;
  }

  /** Strict merge succeeds exactly when nothing conflicts. */
  lemma {:induction false} StrictValue(t: Tree, s: Tree)
    requires Plain(t) && Plain(s) && Unmixed(t, s)
    ensures MergeValue(Strict, t, s).Some? <==> forall path :: !ConflictAt(t, s, path)
    decreases s
  {
    if t.Object? && s.Object? {
      forall k | k in t.fields && k in s.fields
        ensures Unmixed(t.fields[k], s.fields[k])
        ensures MergeValue(Strict, t.fields[k], s.fields[k]).Some? <==>
                forall path :: !ConflictAt(t.fields[k], s.fields[k], path)
      {
        assert At(t.fields, k) == t.fields[k];
        StrictValue(t.fields[k], s.fields[k]);
      }
      ObjectsMergeByFields(Strict, t, s);
      if MergeValue(Strict, t, s).Some? {
        forall path ensures !ConflictAt(t, s, path) {
          if path != [] && path[0] in t.fields && path[0] in s.fields {
            var k := path[0];
            assert MergeValue(Strict, At(t.fields, k), s.fields[k]).Some?;
            assert !ConflictAt(t.fields[k], s.fields[k], path[1..]);
          } else if path != [] && path[0] in t.fields {
            InNoField(s, path);
          } else if path != [] {
            InNoField(t, path);
          }
        }
      } else {
        var k :| k in s.fields && MergeValue(Strict, At(t.fields, k), s.fields[k]).None?;
        assert At(t.fields, k) != Undefined;
        var path :| ConflictAt(t.fields[k], s.fields[k], path);
        InField(t, k, path);
        InField(s, k, path);
        assert ConflictAt(t, s, [k] + path);
      }
    } else {
      assert forall path | path != [] :: Lookup(t, path) == Undefined || Lookup(s, path) == Undefined;
      assert ConflictAt(t, s, []) <==> Differ(t, s);
    }
  }

  /** All three modes give the same result. */
  ghost predicate Agree(t: Tree, s: Tree)
    requires Unmixed(t, s)
  {
    MergeValue(Strict, t, s).Some? && MergeValue(Strict, t, s) == MergeValue(Overwrite, t, s) == MergeValue(Ignore, t, s)
  }

  lemma FieldsOfAgreeing(t: Tree, s: Tree, k: string)
    requires t.Object? && s.Object? && Unmixed(t, s) && Agree(t, s)
    requires k in t.fields && k in s.fields && s.fields[k] != Undefined
    ensures Unmixed(t.fields[k], s.fields[k]) && Agree(t.fields[k], s.fields[k])
  {
    ObjectsMergeByFields(Strict, t, s);
    ObjectsMergeByFields(Overwrite, t, s);
    ObjectsMergeByFields(Ignore, t, s);
    assert At(t.fields, k) == t.fields[k];
    var r := MergeFields(Strict, t, s).value.fields[k];
    assert MergeFields(Overwrite, t, s).value.fields[k] == r;
    assert MergeFields(Ignore, t, s).value.fields[k] == r;
  }

  /** Both modes give the same at every key of the source. */
  ghost predicate SameValues(mode: Mode, t: Tree, s: Tree)
    requires t.Object? && s.Object? && Unmixed(t, s)
  {
    forall k | k in s.fields ::
      && MergeValue(mode, At(t.fields, k), s.fields[k]).Some?
      && MergeValue(mode, At(t.fields, k), s.fields[k]) == MergeValue(Strict, At(t.fields, k), s.fields[k])
  }

  lemma SameFields(mode: Mode, t: Tree, s: Tree)
    requires t.Object? && s.Object? && Unmixed(t, s) && SameValues(mode, t, s)
    ensures MergeValue(mode, t, s).Some? && MergeValue(mode, t, s) == MergeValue(Strict, t, s)
  {
    ObjectsMergeByFields(Strict, t, s);
    ObjectsMergeByFields(mode, t, s);
    assert MergeFields(mode, t, s).value.fields == MergeFields(Strict, t, s).value.fields;
  }

  ghost predicate AgreeAt(t: Tree, s: Tree, k: string)
    requires t.Object? && s.Object?
  {
    k in t.fields && k in s.fields ==> Unmixed(t.fields[k], s.fields[k]) && Agree(t.fields[k], s.fields[k])
  }

  lemma AgreeingValue(mode: Mode, t: Tree, s: Tree, k: string)
    requires t.Object? && s.Object? && Unmixed(t, s) && AgreeAt(t, s, k) && k in s.fields
    ensures MergeValue(mode, At(t.fields, k), s.fields[k]).Some?
    ensures MergeValue(mode, At(t.fields, k), s.fields[k]) == MergeValue(Strict, At(t.fields, k), s.fields[k])
  {
    if k in t.fields {
      assert mode.Strict? || mode.Overwrite? || mode.Ignore?;
    } else {
      assert At(t.fields, k) == Undefined;
    }
  }

  lemma AgreeingFields(t: Tree, s: Tree)
    requires t.Object? && s.Object? && Unmixed(t, s) && forall k :: AgreeAt(t, s, k)
    ensures Agree(t, s)
  {
    forall mode ensures SameValues(mode, t, s) {
      forall k | k in s.fields
        ensures MergeValue(mode, At(t.fields, k), s.fields[k]).Some?
        ensures MergeValue(mode, At(t.fields, k), s.fields[k]) == MergeValue(Strict, At(t.fields, k), s.fields[k])
      {
        AgreeingValue(mode, t, s, k);
      }
    }
    SameFields(Strict, t, s);
    SameFields(Overwrite, t, s);
    SameFields(Ignore, t, s);
  }

  lemma ItemsInFields(t: Tree, s: Tree)
    requires t.Object? && s.Object?
    ensures (forall path :: !ItemsAt(t, s, path)) <==>
            forall k, path | k in t.fields && k in s.fields :: !ItemsAt(t.fields[k], s.fields[k], path)
  {
    forall k, path | k in t.fields && k in s.fields && ItemsAt(t.fields[k], s.fields[k], path)
      ensures exists path :: ItemsAt(t, s, path)
    {
      InField(t, k, path);
      InField(s, k, path);
      assert ItemsAt(t, s, [k] + path);
    }
    forall path | ItemsAt(t, s, path)
      ensures exists k, path :: k in t.fields && k in s.fields && ItemsAt(t.fields[k], s.fields[k], path)
    {
      assert path != [];
      if path[0] !in t.fields {
        InNoField(t, path);
      }
      if path[0] !in s.fields {
        InNoField(s, path);
      }
      assert ItemsAt(t.fields[path[0]], s.fields[path[0]], path[1..]);
    }
  }

  lemma ArraysAgree(t: Tree, s: Tree)
    requires t.Array? && s.Array?
    ensures Agree(t, s) <==> t.items == [] && s.items == []
  {
    assert t.items + s.items == s.items ==> |t.items| == 0;
    assert t.items + s.items == t.items ==> |s.items| == 0;
    assert MergeValue(Strict, t, s) == Merge(Strict, t, s) == Some(Array(t.items + s.items));
    assert MergeValue(Overwrite, t, s) == Merge(Overwrite, t, s) == Some(s);
    assert MergeValue(Ignore, t, s) == Merge(Ignore, t, s) == Some(t);
  }

  /** A strict merge that succeeds agrees with `overwrite` and with `add` exactly when no shared array has items. */
  lemma {:induction false} StrictAgrees(t: Tree, s: Tree)
    requires Plain(t) && Plain(s) && Unmixed(t, s) && MergeValue(Strict, t, s).Some?
    ensures Agree(t, s) <==> forall path :: !ItemsAt(t, s, path)
    decreases s
  {
    if t.Object? && s.Object? {
      ObjectsMergeByFields(Strict, t, s);
      forall k | k in t.fields && k in s.fields
        ensures Unmixed(t.fields[k], s.fields[k])
        ensures Agree(t.fields[k], s.fields[k]) <==> forall path :: !ItemsAt(t.fields[k], s.fields[k], path)
      {
        assert MergeValue(Strict, At(t.fields, k), s.fields[k]).Some?;
        StrictAgrees(t.fields[k], s.fields[k]);
      }
      ItemsInFields(t, s);
      if Agree(t, s) {
        forall k | k in t.fields && k in s.fields ensures Agree(t.fields[k], s.fields[k]) {
          FieldsOfAgreeing(t, s, k);
        }
      }
      if forall path :: !ItemsAt(t, s, path) {
        assert forall k :: AgreeAt(t, s, k);
        AgreeingFields(t, s);
      }
    } else if t.Array? && s.Array? {
      assert forall path | path != [] :: !ItemsAt(t, s, path);
      assert ItemsAt(t, s, []) <==> t.items != [] || s.items != [];
      ArraysAgree(t, s);
    } else {
      assert forall path :: !ItemsAt(t, s, path);
    }
  }

  /**
    * Strict merge succeeds exactly when no leaf meets a different value at a common path, and then it agrees with
    * `overwrite` and `add` exactly when no array with items in it is shared.
    */
  lemma StrictMerge(t: Tree, s: Tree)
    requires t.Nested() && s.Nested() && Plain(t) && Plain(s) && Unmixed(t, s)
    ensures Merge(Strict, t, s).Some? <==> forall path :: !ConflictAt(t, s, path)
    ensures Merge(Strict, t, s).Some? ==>
              (Merge(Strict, t, s) == Merge(Overwrite, t, s) == Merge(Ignore, t, s) <==>
               forall path :: !ItemsAt(t, s, path))
  {
    StrictValue(t, s);
    if Merge(Strict, t, s).Some? {
      StrictAgrees(t, s);
    }
  }

  /** What a strict merge leaves: objects are joined key by key, arrays end to end, and what is equal stays. */
  ghost function Joined(t: Tree, s: Tree): Tree
    decreases s
  {
    if t.Object? && s.Object? then
      Object(map k | k in t.fields.Keys + s.fields.Keys ::
               if k !in s.fields then t.fields[k]
               else if k !in t.fields then s.fields[k]
               else Joined(t.fields[k], s.fields[k]))
    else if t.Array? && s.Array? then Array(t.items + s.items)
    else t
  }

  lemma {:induction false} StrictIsJoined(t: Tree, s: Tree)
    requires Plain(t) && Plain(s) && Unmixed(t, s) && MergeValue(Strict, t, s).Some?
    ensures MergeValue(Strict, t, s).value == Joined(t, s)
    decreases s
  {
    if t.Object? && s.Object? {
      ObjectsMergeByFields(Strict, t, s);
      forall k | k in s.fields
        ensures MergeValue(Strict, At(t.fields, k), s.fields[k]) ==
                Some(if k in t.fields then Joined(t.fields[k], s.fields[k]) else s.fields[k])
      {
        if k in t.fields {
          StrictIsJoined(t.fields[k], s.fields[k]);
        } else {
          assert At(t.fields, k) == Undefined;
        }
      }
      assert MergeFields(Strict, t, s).value.fields == Joined(t, s).fields;
    }
  }

  /** What adding leaves: objects are joined key by key, and anything else that is there stays. */
  ghost function Under(t: Tree, s: Tree): Tree
    decreases s
  {
    if t.Object? && s.Object? then
      Object(map k | k in t.fields.Keys + s.fields.Keys ::
               if k !in s.fields then t.fields[k]
               else if k !in t.fields then s.fields[k]
               else Under(t.fields[k], s.fields[k]))
    else t
  }

  /** At common paths an object or array meets its like, or else an empty one meets `null`. */
  ghost predicate Addable(t: Tree, s: Tree)
    decreases s
  {
    s.Nested() ==>
      if t.Object? && s.Object? then forall k | k in s.fields && k in t.fields :: Addable(t.fields[k], s.fields[k])
      else (t.Array? && s.Array?) || (t == Null && (s == Object(map[]) || s == Array([])))
  }

  lemma {:induction false} AddIsUnder(t: Tree, s: Tree)
    requires Plain(t) && Plain(s) && Unmixed(t, s)
    ensures MergeValue(Ignore, t, s) == if Addable(t, s) then Some(Under(t, s)) else None
    decreases s
  {
    if t.Object? && s.Object? {
      ObjectsMergeByFields(Ignore, t, s);
      forall k | k in s.fields
        ensures MergeValue(Ignore, At(t.fields, k), s.fields[k]) ==
                if k !in t.fields then Some(s.fields[k])
                else if Addable(t.fields[k], s.fields[k]) then Some(Under(t.fields[k], s.fields[k]))
                else None
      {
        if k in t.fields {
          AddIsUnder(t.fields[k], s.fields[k]);
        } else {
          assert At(t.fields, k) == Undefined;
        }
      }
      if Addable(t, s) {
        assert MergeFields(Ignore, t, s).value.fields == Under(t, s).fields;
      }
    }
  }

  /** A missing target or source counts as an empty object. */
  lemma MergeWithNothing(mode: Mode, o: Tree)
    requires o.Object? && Plain(o)
    ensures Merge(mode, o, Undefined) == Some(o)
    ensures Unmixed(Object(map[]), o) && Merge(mode, Undefined, o) == Some(o)
    ensures Merge(mode, Undefined, Undefined) == Some(Object(map[]))
  {
    var none := Object(map[]);
    assert Given(Undefined) == none;
    ObjectsMergeByFields(mode, none, o);
    assert MergeFields(mode, none, o).value.fields == o.fields;
  }
}
