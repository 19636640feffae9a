/** Grouping the directives in force on a method by family. */
module DirectiveSets {
  import opened Wrappers
  import opened Syntax

  datatype DirectiveSet = DirectiveSet(family: string, directives: seq<Directive>)

  /** The directives of one family, in order. */
  function OfFamily(ds: seq<Directive>, family: string): seq<Directive> {
    if ds == [] then []
    else OfFamily(ds[..|ds| - 1], family) + if ds[|ds| - 1].family == family then [ds[|ds| - 1]] else []
  }

  /** Those whose family is among the given ones, or those whose family is not. */
  function Side(ds: seq<Directive>, families: seq<string>, inside: bool): seq<Directive> {
    if ds == [] then []
    else Side(ds[..|ds| - 1], families, inside) + if (ds[|ds| - 1].family in families) == inside then [ds[|ds| - 1]] else []
  }

  /** A stable sort by a two-valued key: first the mandatory families, then the others. */
  function MandatoryFirst(ds: seq<Directive>, mandatory: seq<string>): seq<Directive> {
    Side(ds, mandatory, true) + Side(ds, mandatory, false)
  }

  ghost predicate Used(ds: seq<Directive>, family: string) {
    exists i :: 0 <= i < |ds| && ds[i].family == family
  }

  lemma UsedMore(ds: seq<Directive>, d: Directive, family: string)
    ensures Used(ds + [d], family) <==> Used(ds, family) || d.family == family
  {
    if Used(ds, family) {
      var i :| 0 <= i < |ds| && ds[i].family == family;
      assert (ds + [d])[i].family == family;
    }
    assert (ds + [d])[|ds|] == d;
  }

  lemma {:induction false} UnusedIsEmpty(ds: seq<Directive>, family: string)
    ensures Used(ds, family) <==> OfFamily(ds, family) != []
  {
    if ds != [] {
      UnusedIsEmpty(ds[..|ds| - 1], family);
      assert ds == ds[..|ds| - 1] + [ds[|ds| - 1]];
      UsedMore(ds[..|ds| - 1], ds[|ds| - 1], family);
    }
  }

  lemma FamilyOfOne(ds: seq<Directive>, d: Directive, family: string)
    ensures OfFamily(ds + [d], family) == OfFamily(ds, family) + if d.family == family then [d] else []
  {
    assert (ds + [d])[..|ds|] == ds;
  }

  lemma {:induction false} FamilyOfParts(a: seq<Directive>, b: seq<Directive>, family: string)
    ensures OfFamily(a + b, family) == OfFamily(a, family) + OfFamily(b, family)
  {
    if b == [] {
      assert a + b == a;
    } else {
      var front, last := b[..|b| - 1], b[|b| - 1];
      FamilyOfParts(a, front, family);
      assert a + b == (a + front) + [last] && b == front + [last];
      FamilyOfOne(a + front, last, family);
    }
  }

  lemma {:induction false} FamilyOfSide(ds: seq<Directive>, mandatory: seq<string>, inside: bool, family: string)
    ensures OfFamily(Side(ds, mandatory, inside), family) == if (family in mandatory) == inside then OfFamily(ds, family) else []
  {
    if ds != [] {
      var front, last := Side(ds[..|ds| - 1], mandatory, inside), ds[|ds| - 1];
      FamilyOfSide(ds[..|ds| - 1], mandatory, inside, family);
      FamilyOfOne(front, last, family);
      assert front + [] == front;
    }
  }

  /** Sorting moves families past each other, never the directives of one family. */
  lemma SortKeepsFamilies(ds: seq<Directive>, mandatory: seq<string>, family: string)
    ensures OfFamily(MandatoryFirst(ds, mandatory), family) == OfFamily(ds, family)
  {
    FamilyOfParts(Side(ds, mandatory, true), Side(ds, mandatory, false), family);
    FamilyOfSide(ds, mandatory, true, family);
    FamilyOfSide(ds, mandatory, false, family);
  }

  lemma SortKeepsUse(ds: seq<Directive>, mandatory: seq<string>, family: string)
    ensures Used(MandatoryFirst(ds, mandatory), family) <==> Used(ds, family)
  {
    SortKeepsFamilies(ds, mandatory, family);
    UnusedIsEmpty(ds, family);
    UnusedIsEmpty(MandatoryFirst(ds, mandatory), family);
  }

  lemma {:induction false} SideIsSide(ds: seq<Directive>, mandatory: seq<string>, inside: bool)
    ensures forall i | 0 <= i < |Side(ds, mandatory, inside)| :: (Side(ds, mandatory, inside)[i].family in mandatory) == inside
  {
    if ds != [] {
      SideIsSide(ds[..|ds| - 1], mandatory, inside);
    }
  }

  ghost predicate Fronted(sorted: seq<Directive>, mandatory: seq<string>) {
    forall i, j | 0 <= i < j < |sorted| && sorted[j].family in mandatory :: sorted[i].family in mandatory
  }

  /** After a declaration of an optional family there are no more of mandatory ones. */
  lemma MandatoryComeFirst(ds: seq<Directive>, mandatory: seq<string>)
    ensures Fronted(MandatoryFirst(ds, mandatory), mandatory)
  {
    SideIsSide(ds, mandatory, true);
    SideIsSide(ds, mandatory, false);
  }

  /** Which side a directive is on depends on nothing else, so both sides keep the declared order. */
  lemma SideOfOne(ds: seq<Directive>, d: Directive, families: seq<string>, inside: bool)
    ensures Side(ds + [d], families, inside) == Side(ds, families, inside) + if (d.family in families) == inside then [d] else []
  {
    assert (ds + [d])[..|ds|] == ds;
  }

  lemma {:induction false} SideOfParts(a: seq<Directive>, b: seq<Directive>, families: seq<string>, inside: bool)
    ensures Side(a + b, families, inside) == Side(a, families, inside) + Side(b, families, inside)
  {
    if b == [] {
      assert a + b == a;
    } else {
      var front, last := b[..|b| - 1], b[|b| - 1];
      SideOfParts(a, front, families, inside);
      SideOfOne(a + front, last, families, inside);
      assert a + b == (a + front) + [last];
    }
  }

  /** `f` is used before `g` is, if `g` is used at all. */
  ghost predicate Sooner(ds: seq<Directive>, f: string, g: string) {
    exists p | 0 <= p < |ds| :: ds[p].family == f && forall q | 0 <= q <= p :: ds[q].family != g
  }

  lemma SoonerMore(ds: seq<Directive>, d: Directive, f: string, g: string)
    requires Sooner(ds, f, g) || (Used(ds, f) && !Used(ds, g))
    ensures Sooner(ds + [d], f, g)
  {
    var p :| 0 <= p < |ds| && ds[p].family == f && (Sooner(ds, f, g) ==> forall q | 0 <= q <= p :: ds[q].family != g);
    assert (ds + [d])[p].family == f;
  }

  ghost predicate NoRepeats(names: seq<string>) {
    forall i, j | 0 <= i < j < |names| :: names[i] != names[j]
  }

  ghost predicate MandatoryLead(names: seq<string>, mandatory: seq<string>) {
    forall i, j | 0 <= i < j < |names| && names[j] in mandatory :: names[i] in mandatory
  }

  /** Families are in the order of their first use. */
  ghost predicate FirstUses(order: seq<string>, done: seq<Directive>) {
    forall i, j | 0 <= i < j < |order| :: Sooner(done, order[i], order[j])
  }

  /** The groups after the declarations `done`: families in order of first use. */
  ghost predicate Grouped(order: seq<string>, groups: map<string, seq<Directive>>, done: seq<Directive>) {
    && NoRepeats(order) && FirstUses(order, done)
    && (forall f :: f in order <==> f in groups)
    && (forall f :: f in groups <==> Used(done, f))
    && (forall f | f in groups :: groups[f] == OfFamily(done, f))
  }

  /** The mandatory names not yet deleted from the set. */
  ghost predicate Pending(rest: seq<string>, mandatory: seq<string>, done: seq<Directive>) {
    NoRepeats(rest) && forall f :: f in rest <==> f in mandatory && !Used(done, f)
  }

  function Remove(names: seq<string>, name: string): seq<string> {
    if names == [] then []
    else if names[|names| - 1] == name then Remove(names[..|names| - 1], name)
    else Remove(names[..|names| - 1], name) + [names[|names| - 1]]
  }

  lemma {:induction false} RemoveRemoves(names: seq<string>, name: string)
    ensures forall f :: f in Remove(names, name) <==> f in names && f != name
    ensures NoRepeats(names) ==> NoRepeats(Remove(names, name))
  {
    if names != [] {
      var front, last := names[..|names| - 1], names[|names| - 1];
      RemoveRemoves(front, name);
      assert forall f :: f in names <==> f in front || f == last;
      if NoRepeats(names) && last != name {
        assert last !in Remove(front, name);
      }
    }
  }

  lemma UsesNext(order: seq<string>, groups: map<string, seq<Directive>>, d: Directive, done: seq<Directive>)
    requires Grouped(order, groups, done)
    ensures FirstUses(if d.family in order then order else order + [d.family], done + [d])
  {
    forall i, j | 0 <= i < j < |order| ensures Sooner(done + [d], order[i], order[j]) {
      SoonerMore(done, d, order[i], order[j]);
    }
    if d.family !in order {
      forall i | 0 <= i < |order| ensures Sooner(done + [d], order[i], d.family) {
        assert order[i] in order;
        SoonerMore(done, d, order[i], d.family);
      }
    }
  }

  /** The body of the loop over the declarations. */
  method Group(order: seq<string>, groups: map<string, seq<Directive>>, d: Directive, ghost done: seq<Directive>)
    returns (order': seq<string>, groups': map<string, seq<Directive>>)
    requires Grouped(order, groups, done)
    ensures Grouped(order', groups', done + [d])
    ensures order' == if d.family in order then order else order + [d.family]
  {
    order', groups' := order, groups;
    if d.family !in groups {
      order', groups' := order + [d.family], groups[d.family := []];
    }
    groups' := groups'[d.family := groups'[d.family] + [d]];
    UsesNext(order, groups, d, done);
    UnusedIsEmpty(done, d.family);
    forall f ensures Used(done + [d], f) <==> Used(done, f) || d.family == f {
      UsedMore(done, d, f);
    }
    forall f ensures OfFamily(done + [d], f) == OfFamily(done, f) + if d.family == f then [d] else [] {
      FamilyOfOne(done, d, f);
    }
  }

  /** An unknown family is an exception; the one reported is the first in sorted order. */
  ghost predicate FirstUnknown(ds: seq<Directive>, families: set<string>, i: nat) {
    i < |ds| && ds[i].family !in families && forall j | 0 <= j < i :: ds[j].family in families
  }

  function Families(sets: seq<DirectiveSet>): seq<string> {
    seq(|sets|, i requires 0 <= i < |sets| => sets[i].family)
  }

  /** The loops over the mandatory families that are left and over the groups. */
  method List(rest: seq<string>, order: seq<string>, groups: map<string, seq<Directive>>) returns (sets: seq<DirectiveSet>)
    requires forall i | 0 <= i < |order| :: order[i] in groups
    ensures |sets| == |rest| + |order|
    ensures forall j | 0 <= j < |rest| :: sets[j] == DirectiveSet(rest[j], [])
    ensures forall j | 0 <= j < |order| :: sets[|rest| + j] == DirectiveSet(order[j], groups[order[j]])
  {
    sets := [];
    for i := 0 to |rest|
      invariant |sets| == i && forall j | 0 <= j < i :: sets[j] == DirectiveSet(rest[j], [])
    {
      sets := sets + [DirectiveSet(rest[i], [])];
    }
    for i := 0 to |order|
      invariant |sets| == |rest| + i
      invariant forall j | 0 <= j < |rest| :: sets[j] == DirectiveSet(rest[j], [])
      invariant forall j | 0 <= j < i :: sets[|rest| + j] == DirectiveSet(order[j], groups[order[j]])
    {
      sets := sets + [DirectiveSet(order[i], groups[order[i]])];
    }
  }

  /**
   Families once each, mandatory ones first, none missing, each with its directives in declared order; those without
   directives first, the others in the order of first use.
   */
  ghost predicate Listing(sets: seq<DirectiveSet>, mandatory: seq<string>, ds: seq<Directive>) {
    && NoRepeats(Families(sets)) && MandatoryLead(Families(sets), mandatory)
    && (forall f :: f in Families(sets) <==> f in mandatory || Used(ds, f))
    && (forall i | 0 <= i < |sets| :: sets[i].directives == OfFamily(ds, sets[i].family))
    && (forall i, j | 0 <= i < j < |sets| && Used(ds, sets[i].family) ::
          Used(ds, sets[j].family) && Sooner(MandatoryFirst(ds, mandatory), sets[i].family, sets[j].family))
  }

  ghost predicate Familiar(ds: seq<Directive>, families: set<string>) {
    forall j | 0 <= j < |ds| :: ds[j].family in families
  }

  /** The first `n` of the sorted declarations have been grouped. */
  ghost predicate Underway(sorted: seq<Directive>, families: set<string>, mandatory: seq<string>, n: nat,
                           order: seq<string>, groups: map<string, seq<Directive>>, rest: seq<string>) {
    n <= |sorted| && Progress(sorted[..n], families, mandatory, order, groups, rest)
  }

  ghost predicate Progress(done: seq<Directive>, families: set<string>, mandatory: seq<string>,
                           order: seq<string>, groups: map<string, seq<Directive>>, rest: seq<string>) {
    && Familiar(done, families) && Grouped(order, groups, done)
    && Pending(rest, mandatory, done) && MandatoryLead(order, mandatory)
  }

  lemma FamiliarNext(done: seq<Directive>, d: Directive, families: set<string>)
    requires Familiar(done, families) && d.family in families
    ensures Familiar(done + [d], families)
  {
  }

  lemma NothingYet(sorted: seq<Directive>, families: set<string>, mandatory: seq<string>)
    requires NoRepeats(mandatory)
    ensures Underway(sorted, families, mandatory, 0, [], map[], mandatory)
  {
  }

  /** The loop over the sorted declarations; it stops at the first unknown family. */
  method GroupAll(families: set<string>, mandatory: seq<string>, sorted: seq<Directive>)
    returns (n: nat, order: seq<string>, groups: map<string, seq<Directive>>, rest: seq<string>)
    requires NoRepeats(mandatory) && Fronted(sorted, mandatory)
    ensures Underway(sorted, families, mandatory, n, order, groups, rest)
    ensures n < |sorted| ==> sorted[n].family !in families
  {
    n, order, groups, rest := 0, [], map[], mandatory;
    NothingYet(sorted, families, mandatory);
    while n < |sorted| && sorted[n].family in families
      invariant Underway(sorted, families, mandatory, n, order, groups, rest)
      decreases |sorted| - n
    {
      var d := sorted[n];
      ghost var before, known := order, groups;
      order, groups := Group(order, groups, d, sorted[..n]);
      UnderwayNext(sorted, families, mandatory, n, before, known, rest, order, groups);
      rest := Remove(rest, d.family);
      n := n + 1;
    }
  }

  /** DirectivesFactory.create; `mandatory` holds the names of the mandatory families, each once. */
  method Create(families: set<string>, mandatory: seq<string>, declarations: seq<Directive>) returns (r: Result<seq<DirectiveSet>, string>)
    requires NoRepeats(mandatory)
    ensures r.Err? <==> exists f :: Used(declarations, f) && f !in families
    ensures r.Err? ==> exists i: nat ::
              FirstUnknown(MandatoryFirst(declarations, mandatory), families, i) && r.error == MandatoryFirst(declarations, mandatory)[i].family
    ensures r.Ok? ==> Listing(r.value, mandatory, declarations)
  {
    MandatoryComeFirst(declarations, mandatory);
    var sorted := MandatoryFirst(declarations, mandatory);
    var n, order, groups, rest := GroupAll(families, mandatory, sorted);
    if n < |sorted| {
      UnknownIsUsed(declarations, mandatory, families, n);
      return Err(sorted[n].family);
    }
    AllGrouped(declarations, mandatory, families, order, groups, rest);
    var sets := List(rest, order, groups);
    Complete(mandatory, declarations, order, groups, rest, sets);
    r := Ok(sets);
  }

  lemma AllGrouped(ds: seq<Directive>, mandatory: seq<string>, families: set<string>,
                   order: seq<string>, groups: map<string, seq<Directive>>, rest: seq<string>)
    requires var sorted := MandatoryFirst(ds, mandatory); Underway(sorted, families, mandatory, |sorted|, order, groups, rest)
    ensures forall f | Used(ds, f) :: f in families
    ensures var sorted := MandatoryFirst(ds, mandatory); Grouped(order, groups, sorted) && Pending(rest, mandatory, sorted)
    ensures MandatoryLead(order, mandatory) && forall i | 0 <= i < |order| :: order[i] in groups
  {
    var sorted := MandatoryFirst(ds, mandatory);
    assert sorted[..|sorted|] == sorted;
    AllKnown(ds, mandatory, families);
    OrderIsGrouped(order, groups, sorted);
  }

  lemma UnderwayNext(sorted: seq<Directive>, families: set<string>, mandatory: seq<string>, n: nat,
                     order: seq<string>, groups: map<string, seq<Directive>>, rest: seq<string>,
                     order': seq<string>, groups': map<string, seq<Directive>>)
    requires n < |sorted| && sorted[n].family in families && Fronted(sorted, mandatory)
    requires Underway(sorted, families, mandatory, n, order, groups, rest)
    requires Grouped(order', groups', sorted[..n] + [sorted[n]])
    requires order' == if sorted[n].family in order then order else order + [sorted[n].family]
    ensures Underway(sorted, families, mandatory, n + 1, order', groups', Remove(rest, sorted[n].family))
  {
    ProgressNext(sorted[..n], sorted[n], families, mandatory, order, groups, rest, order', groups', sorted);
    OneFurther(sorted, n);
  }

  lemma OneFurther(sorted: seq<Directive>, n: nat)
    requires n < |sorted|
    ensures sorted[..n + 1] == sorted[..n] + [sorted[n]]
  {
  }

  lemma ProgressNext(done: seq<Directive>, d: Directive, families: set<string>, mandatory: seq<string>,
                     order: seq<string>, groups: map<string, seq<Directive>>, rest: seq<string>,
                     order': seq<string>, groups': map<string, seq<Directive>>, sorted: seq<Directive>)
    requires Progress(done, families, mandatory, order, groups, rest) && d.family in families
    requires Grouped(order', groups', done + [d]) && order' == if d.family in order then order else order + [d.family]
    requires Fronted(sorted, mandatory) && |done| < |sorted| && done == sorted[..|done|] && d == sorted[|done|]
    ensures Progress(done + [d], families, mandatory, order', groups', Remove(rest, d.family))
  {
    FamiliarNext(done, d, families);
    LeadNext(order, groups, sorted, mandatory, done, d);
    PendingNext(rest, mandatory, done, d);
  }

  lemma OrderIsGrouped(order: seq<string>, groups: map<string, seq<Directive>>, done: seq<Directive>)
    requires Grouped(order, groups, done)
    ensures forall i | 0 <= i < |order| :: order[i] in groups
  {
    assert forall i | 0 <= i < |order| :: order[i] in order;
  }

  lemma UnknownIsUsed(ds: seq<Directive>, mandatory: seq<string>, families: set<string>, n: nat)
    requires n < |MandatoryFirst(ds, mandatory)| && MandatoryFirst(ds, mandatory)[n].family !in families
    requires Familiar(MandatoryFirst(ds, mandatory)[..n], families)
    ensures FirstUnknown(MandatoryFirst(ds, mandatory), families, n)
    ensures exists f :: Used(ds, f) && f !in families
  {
    var sorted := MandatoryFirst(ds, mandatory);
    assert forall j | 0 <= j < n :: sorted[..n][j] == sorted[j];
    SortKeepsUse(ds, mandatory, sorted[n].family);
  }

  lemma AllKnown(ds: seq<Directive>, mandatory: seq<string>, families: set<string>)
    requires Familiar(MandatoryFirst(ds, mandatory), families)
    ensures forall f | Used(ds, f) :: f in families
  {
    forall f | Used(ds, f) ensures f in families {
      SortKeepsUse(ds, mandatory, f);
    }
  }

  lemma LeadNext(order: seq<string>, groups: map<string, seq<Directive>>, sorted: seq<Directive>, mandatory: seq<string>,
                 done: seq<Directive>, d: Directive)
    requires Grouped(order, groups, done) && MandatoryLead(order, mandatory)
    requires Fronted(sorted, mandatory) && |done| < |sorted| && done == sorted[..|done|] && d == sorted[|done|]
    ensures MandatoryLead(order + [d.family], mandatory)
  {
    if d.family in mandatory {
      forall i | 0 <= i < |order| ensures order[i] in mandatory {
        assert order[i] in order && Used(done, order[i]);
        var j :| 0 <= j < |done| && done[j].family == order[i];
        assert sorted[j] == done[j];
      }
    }
  }

  lemma PendingNext(rest: seq<string>, mandatory: seq<string>, done: seq<Directive>, d: Directive)
    requires Pending(rest, mandatory, done)
    ensures Pending(Remove(rest, d.family), mandatory, done + [d])
  {
    RemoveRemoves(rest, d.family);
    forall f ensures Used(done + [d], f) <==> Used(done, f) || d.family == f {
      UsedMore(done, d, f);
    }
  }

  lemma NamesComplete(mandatory: seq<string>, sorted: seq<Directive>, order: seq<string>, groups: map<string, seq<Directive>>,
                      rest: seq<string>)
    requires Grouped(order, groups, sorted) && Pending(rest, mandatory, sorted) && MandatoryLead(order, mandatory)
    ensures NoRepeats(rest + order) && MandatoryLead(rest + order, mandatory)
    ensures forall f :: f in rest + order <==> f in mandatory || Used(sorted, f)
  {
    assert forall i | 0 <= i < |rest| :: rest[i] in rest;
    assert forall i | 0 <= i < |order| :: order[i] in order;
  }

  /** A family with a group lists it; a family without one has no directives. */
  lemma SetComplete(ds: seq<Directive>, mandatory: seq<string>, order: seq<string>, groups: map<string, seq<Directive>>,
                    rest: seq<string>, family: string)
    requires var sorted := MandatoryFirst(ds, mandatory); Grouped(order, groups, sorted) && Pending(rest, mandatory, sorted)
    ensures family in order ==> family in groups && groups[family] == OfFamily(ds, family)
    ensures family in rest ==> OfFamily(ds, family) == []
  {
    SortKeepsFamilies(ds, mandatory, family);
    UnusedIsEmpty(MandatoryFirst(ds, mandatory), family);
  }

  lemma Complete(mandatory: seq<string>, ds: seq<Directive>, order: seq<string>, groups: map<string, seq<Directive>>,
                 rest: seq<string>, sets: seq<DirectiveSet>)
    requires var sorted := MandatoryFirst(ds, mandatory);
      Grouped(order, groups, sorted) && Pending(rest, mandatory, sorted) && MandatoryLead(order, mandatory)
    requires |sets| == |rest| + |order|
    requires forall j | 0 <= j < |rest| :: sets[j] == DirectiveSet(rest[j], [])
    requires forall j | 0 <= j < |order| :: order[j] in groups && sets[|rest| + j] == DirectiveSet(order[j], groups[order[j]])
    ensures Listing(sets, mandatory, ds)
  {
    assert Families(sets) == rest + order;
    NamesComplete(mandatory, MandatoryFirst(ds, mandatory), order, groups, rest);
    forall f ensures Used(MandatoryFirst(ds, mandatory), f) <==> Used(ds, f) {
      SortKeepsUse(ds, mandatory, f);
    }
    forall i | 0 <= i < |sets| ensures sets[i].directives == OfFamily(ds, sets[i].family) {
      SetComplete(ds, mandatory, order, groups, rest, sets[i].family);
      if i < |rest| {
        assert rest[i] in rest;
      } else {
        var j := i - |rest|;
        assert order[j] in order && sets[|rest| + j] == DirectiveSet(order[j], groups[order[j]]);
      }
    }
    forall k | 0 <= k < |rest| ensures !Used(ds, rest[k]) {
      assert rest[k] in rest;
    }
    forall i, j | 0 <= i < j < |sets| && Used(ds, sets[i].family)
      ensures Used(ds, sets[j].family) && Sooner(MandatoryFirst(ds, mandatory), sets[i].family, sets[j].family)
    {
      assert order[j - |rest|] in order;
      assert sets[i].family == order[i - |rest|] && sets[j].family == order[j - |rest|];
    }
  }
}
