/** How the hierarchy of connectors is wired. */
module Connectors {
  import opened Wrappers

  class Connector {
    var dependencies: seq<Connector>
    var links: seq<Connector>

    constructor ()
      ensures dependencies == [] && links == []
    {
      dependencies, links := [], [];
    }

    method Link(connector: Connector)
      modifies this
      ensures links == old(links) + [connector] && dependencies == old(dependencies)
    {
      links := links + [connector];
    }

    method Depends(next: Connector)
      modifies this, next
      ensures dependencies == old(dependencies) + [next] && next.links == old(next.links) + [this]
      ensures next != this ==> links == old(links) && next.dependencies == old(next.dependencies)
    {
      dependencies := dependencies + [next];
      next.Link(this);
    }

    /**
     An array of one is that one. Otherwise the connector depends on the items and on a new barrier, the
     items depend on the barrier, and the only backlinks made are the barrier's: none to the items.
     An empty array is an error, here `None`, and changes nothing.
     */
    method DependsAll(items: seq<Connector>) returns (r: Option<Connector>)
      modifies this, items
      ensures items == [] ==> r == None && links == old(links) && dependencies == old(dependencies)
      ensures |items| == 1 ==>
                && r.Some? && var next := r.value;
                && next == items[0] && dependencies == old(dependencies) + [next] && next.links == old(next.links) + [this]
                && (next != this ==> links == old(links) && next.dependencies == old(next.dependencies))
      ensures |items| > 1 ==>
                && r.Some? && var next := r.value;
                && fresh(next) && next.dependencies == [] && next.links == items + [this]
                && dependencies == old(dependencies) + Wired(this, items, next) + [next] && links == old(links)
                && forall c | c in items && c != this ::
                     c.links == old(c.links) && c.dependencies == old(c.dependencies) + Copies(next, Occurrences(items, c))
    {
      if |items| == 0 {
        return None;
      }
      var next;
      if |items| == 1 {
        next := items[0];
      } else {
        next := new Connector();
        for i := 0 to |items|
          invariant fresh(next) && next.dependencies == [] && next.links == items[..i]
          invariant dependencies == old(dependencies) + Wired(this, items[..i], next) && links == old(links)
          invariant forall c | c in items && c != this ::
                      c.links == old(c.links) && c.dependencies == old(c.dependencies) + Copies(next, Occurrences(items[..i], c))
        {
          assert items[..i + 1][..i] == items[..i];
          dependencies := dependencies + [items[i]];
          items[i].Depends(next);
          OccurrencesNext(items, i);
        }
        assert items[..|items|] == items;
      }
      dependencies := dependencies + [next];
      next.Link(this);
      r := Some(next);
    }
  }

  /** The items, each occurrence of the connector itself followed by the barrier it comes to depend on. */
  function Wired(self: Connector, items: seq<Connector>, barrier: Connector): seq<Connector> {
    if items == [] then []
    else
      var last := items[|items| - 1];
      Wired(self, items[..|items| - 1], barrier) + [last] + if last == self then [barrier] else []
  }

  function Copies(c: Connector, n: nat): (s: seq<Connector>)
    ensures |s| == n
  {
    if n == 0 then [] else Copies(c, n - 1) + [c]
  }

  function Occurrences(items: seq<Connector>, c: Connector): nat {
    if items == [] then 0 else Occurrences(items[..|items| - 1], c) + if items[|items| - 1] == c then 1 else 0
  }

  lemma OccurrencesNext(items: seq<Connector>, i: nat)
    requires i < |items|
    ensures forall c :: Occurrences(items[..i + 1], c) == Occurrences(items[..i], c) + if items[i] == c then 1 else 0
  {
    assert items[..i + 1][..i] == items[..i];
  }

  lemma {:induction false} WiredParts(self: Connector, a: seq<Connector>, b: seq<Connector>, barrier: Connector)
    ensures Wired(self, a + b, barrier) == Wired(self, a, barrier) + Wired(self, b, barrier)
  {
    if b == [] {
      assert a + b == a;
    } else {
      WiredParts(self, a, b[..|b| - 1], barrier);
      assert (a + b)[..|a + b| - 1] == a + b[..|b| - 1];
    }
  }

  /** A connector among its own items gets them all, and the barrier at once behind itself. */
  lemma WiredSelf(self: Connector, before: seq<Connector>, after: seq<Connector>, barrier: Connector)
    requires self !in before && self !in after
    ensures Wired(self, before + [self] + after, barrier) == before + [self, barrier] + after
  {
    WiredParts(self, before + [self], after, barrier);
    WiredParts(self, before, [self], barrier);
    WiredOthers(self, before, barrier);
    WiredOthers(self, after, barrier);
    assert [self][..0] == [];
  }

  lemma {:induction false} WiredOthers(self: Connector, items: seq<Connector>, barrier: Connector)
    requires self !in items
    ensures Wired(self, items, barrier) == items
  {
    if items != [] {
      WiredOthers(self, items[..|items| - 1], barrier);
    }
  }
}
