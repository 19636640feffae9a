/** The history of one record in a run, and the changesets that tell it. */
module History {
  import opened Wrappers
  import opened Json
  import opened Records
  import opened Storages
  import opened Protocol
  import opened ProtocolInvariant
  import opened ProtocolTheorems
  import Differences

  /** The writes to one id, in order. */
  function WritesTo(log: seq<Write>, x: Id): (ws: seq<Write>)
    ensures forall k | 0 <= k < |ws| :: ws[k] in log && ws[k].after.id == x
  {
    if log == [] then []
    else
      var front, last := WritesTo(log[..|log| - 1], x), log[|log| - 1];
      if last.after.id == x then front + [last] else front
  }

  /** What is stored after these writes to an id. */
  function Latest(start: Option<Record>, ws: seq<Write>): Option<Record> {
    if ws == [] then start else Some(ws[|ws| - 1].after)
  }

  ghost predicate Chained(start: Option<Record>, ws: seq<Write>) {
    forall k | 0 <= k < |ws| :: ws[k].before == Latest(start, ws[..k])
  }

  lemma ChainedNext(start: Option<Record>, ws: seq<Write>, w: Write)
    requires Chained(start, ws) && w.before == Latest(start, ws)
    ensures Chained(start, ws + [w]) && Latest(start, ws + [w]) == Some(w.after)
  {
    forall k | 0 <= k < |ws + [w]| ensures (ws + [w])[k].before == Latest(start, (ws + [w])[..k]) {
      assert (ws + [w])[..k] == ws[..k];
      assert k == |ws| ==> ws[..k] == ws;
    }
  }

  ghost predicate ChainedTo(start: Collection, log: seq<Write>, x: Id) {
    Chained(Find(start, x), WritesTo(log, x)) && Find(Replay(start, log), x) == Latest(Find(start, x), WritesTo(log, x))
  }

  lemma ChainedOneMore(start: Collection, front: seq<Write>, w: Write, log: seq<Write>, x: Id)
    requires log == front + [w]
    requires ChainedTo(start, front, x) && w.before == Find(Replay(start, front), w.after.id)
    ensures ChainedTo(start, log, x)
  {
    assert log[..|log| - 1] == front;
    if w.after.id == x {
      ChainedNext(Find(start, x), WritesTo(front, x), w);
    }
  }

  lemma Split(log: seq<Write>) returns (front: seq<Write>, w: Write)
    requires log != []
    ensures log == front + [w] && |front| < |log|
  {
    front, w := log[..|log| - 1], log[|log| - 1];
  }

  /** Every write to an id starts from what the one before it left, and the last of them is what is stored. */
  lemma {:induction false} WritesAreChained(p: Component, start: Collection, requests: seq<Request>, log: seq<Write>, x: Id)
    requires LawfulLog(p, start, requests, log)
    ensures ChainedTo(start, log, x)
    decreases |log|
  {
    if log != [] {
      var front, w := Split(log);
      FrontIsLawful(p, start, requests, front, w, log);
      WritesAreChained(p, start, requests, front, x);
      ChainedOneMore(start, front, w, log, x);
    }
  }

  lemma FrontIsLawful(p: Component, start: Collection, requests: seq<Request>, front: seq<Write>, w: Write, log: seq<Write>)
    requires LawfulLog(p, start, requests, log) && log == front + [w]
    ensures LawfulLog(p, start, requests, front)
    ensures w.before == Find(Replay(start, front), w.after.id)
  {
    forall j: nat | j < |front| ensures LawfulAt(p, start, requests, front, j) {
      assert LawfulAt(p, start, requests, log, j);
      assert front[..j] == log[..j];
    }
    LawfulOf(p, start, requests, log, |front|);
    assert log[..|front|] == front;
  }

  /** The states of a record that was `first` before these writes, as plain objects. */
  function States(first: Record, ws: seq<Write>): (states: seq<Fields>)
    ensures |states| == |ws| + 1 && states[0] == ToFields(first)
    ensures forall k | 0 <= k < |ws| :: states[k + 1] == ToFields(ws[k].after)
  {
    [ToFields(first)] + seq(|ws|, k requires 0 <= k < |ws| => ToFields(ws[k].after))
  }

  lemma StatesAreChained(first: Record, ws: seq<Write>, k: nat)
    requires Chained(Some(first), ws) && k < |ws|
    ensures ws[k].before.Some? && States(first, ws)[k] == ToFields(ws[k].before.value)
  {
    assert ws[k].before == Latest(Some(first), ws[..k]);
  }

  lemma {:induction false} ChangesetAt(states: seq<Fields>, k: nat)
    requires k + 1 < |states|
    ensures k < |Differences.Changesets(states)|
    ensures Differences.Changesets(states)[k] == Differences.Difference(states[k], states[k + 1])
  {
    if k > 0 {
      ChangesetAt(states[1..], k - 1);
    }
  }

  // A record's history begins with the record that is there at the start of the run, or with its insertion

  /** The first state of the record in the run. */
  function Opening(start: Option<Record>, ws: seq<Write>): Option<Record> {
    if start.Some? || ws == [] then start else Some(ws[0].after)
  }

  /** How many of the writes it takes to get there. */
  function Inserting(start: Option<Record>, ws: seq<Write>): nat {
    if start.Some? || ws == [] then 0 else 1
  }

  lemma LaterAreChained(start: Option<Record>, ws: seq<Write>)
    requires Chained(start, ws) && Opening(start, ws).Some?
    ensures Inserting(start, ws) <= |ws|
    ensures var first, later := Opening(start, ws), ws[Inserting(start, ws)..];
      Chained(first, later) && Latest(first, later) == Latest(start, ws)
  {
    var n, first, later := Inserting(start, ws), Opening(start, ws), ws[Inserting(start, ws)..];
    forall k | 0 <= k < |later| ensures later[k].before == Latest(first, later[..k]) {
      assert later[k] == ws[n + k];
      assert k > 0 ==> later[..k][k - 1] == ws[..n + k][n + k - 1];
    }
    assert later != [] ==> later[|later| - 1] == ws[|ws| - 1];
  }

  /** A transition that can be announced. */
  ghost predicate Announced(requests: seq<Request>, w: Write) {
    w.client < |requests| && requests[w.client].Transit? && !ChangesetThrows(requests[w.client], w)
  }

  /**
   The record is there at the start or is inserted in the run, by whatever request; all further writes to it are
   transitions that can be announced, and its states are without `undefined`.
   */
  ghost predicate Tellable(requests: seq<Request>, start: Option<Record>, ws: seq<Write>) {
    && Opening(start, ws).Some?
    && (forall k | Inserting(start, ws) <= k < |ws| :: Announced(requests, ws[k]))
    && forall s <- States(Opening(start, ws).value, ws[Inserting(start, ws)..]) :: Plain(s)
  }

  /** The changesets of the writes that follow the first state. */
  function Told(start: Option<Record>, ws: seq<Write>): seq<Option<Fields>>
    requires Opening(start, ws).Some?
  {
    Differences.Changesets(States(Opening(start, ws).value, ws[Inserting(start, ws)..]))
  }

  lemma TellableReplays(requests: seq<Request>, start: Option<Record>, ws: seq<Write>)
    requires Tellable(requests, start, ws) && Chained(start, ws)
    ensures forall c <- Told(start, ws) :: c.Some?
    ensures Latest(start, ws).Some?
    ensures Differences.Replay(ToFields(Opening(start, ws).value), Told(start, ws)) == ToFields(Latest(start, ws).value)
  {
    var n, first, later := Inserting(start, ws), Opening(start, ws).value, ws[Inserting(start, ws)..];
    var states := States(first, later);
    LaterAreChained(start, ws);
    forall k | 0 < k < |states| ensures !Differences.ObjectToNull(states[k - 1], states[k]) {
      StatesAreChained(first, later, k - 1);
      assert Announced(requests, ws[n + k - 1]) && later[k - 1] == ws[n + k - 1];
    }
    Differences.ReplayReconstructs(states);
  }

  /**
   Folding the changesets over the first state, in version order, gives the stored record. The first state is that
   at the start of the run, or what the insertion announced as its changeset.
   */
  lemma FoldingGivesRecord(p: Component, cs: seq<Config>, ls: seq<Label>, i: nat, x: Id)
    requires Run(p, cs, ls) && i < |cs|
    requires Tellable(cs[i].requests, Find(cs[0].store, x), WritesTo(cs[i].log, x))
    ensures var start, ws := Find(cs[0].store, x), WritesTo(cs[i].log, x);
      && (forall c <- Told(start, ws) :: c.Some?)
      && x in cs[i].store
      && Differences.Replay(ToFields(Opening(start, ws).value), Told(start, ws)) == ToFields(cs[i].store[x])
  {
    var start, ws := Find(cs[0].store, x), WritesTo(cs[i].log, x);
    RunKeepsInv(p, cs, ls, i);
    WritesAreChained(p, cs[0].store, cs[i].requests, cs[i].log, x);
    TellableReplays(cs[i].requests, start, ws);
    assert Latest(start, ws) == Find(cs[i].store, x);
  }

  lemma WriteIsAnnounced(p: Component, cs: seq<Config>, ls: seq<Label>, i: nat, w: Write, e: nat)
    requires Run(p, cs, ls) && i < |cs| && w in cs[i].log && e < |cs[i].events| && cs[i].events[e].client == w.client
    ensures w.client < |cs[i].requests| && Announces(cs[i].events[e].event, cs[i].requests[w.client], w)
  {
    var c := cs[i];
    RunKeepsInv(p, cs, ls, i);
    EventsStandForWrites(p, cs, ls, i, e);
    var j: nat :| j < |c.log| && c.log[j] == w;
    assert c.clients[w.client].write == Some(j);
  }

  lemma InsertionIsNoAssignment(p: Component, start: Collection, requests: seq<Request>, log: seq<Write>, w: Write)
    requires WellFormed(start) && LawfulLog(p, start, requests, log) && w in log && w.before.None?
    ensures w.client < |requests| && !requests[w.client].Assign?
  {
    var j: nat :| j < |log| && log[j] == w;
    LawfulOf(p, start, requests, log, j);
    LogIsWellFormed(p, start, requests, log, j);
  }

  lemma ToldAt(start: Option<Record>, ws: seq<Write>, k: nat)
    requires Chained(start, ws) && Opening(start, ws).Some? && Inserting(start, ws) <= k < |ws|
    ensures var at := k - Inserting(start, ws);
      && ws[k].before.Some? && at < |Told(start, ws)|
      && Told(start, ws)[at] == Differences.Difference(ToFields(ws[k].before.value), ToFields(ws[k].after))
  {
    var n, first, later := Inserting(start, ws), Opening(start, ws).value, ws[Inserting(start, ws)..];
    LaterAreChained(start, ws);
    StatesAreChained(first, later, k - n);
    ChangesetAt(States(first, later), k - n);
    assert later[k - n] == ws[k];
  }

  /** What the event of a write to the record carries: the next changeset, or the first state. */
  ghost predicate Carries(start: Option<Record>, ws: seq<Write>, k: nat, changeset: Fields)
    requires Opening(start, ws).Some?
  {
    var n := Inserting(start, ws);
    if k < n then changeset == ToFields(Opening(start, ws).value)
    else k - n < |Told(start, ws)| && Told(start, ws)[k - n] == Some(changeset)
  }

  lemma InsertionCarries(requests: seq<Request>, start: Option<Record>, ws: seq<Write>, k: nat, event: Event)
    requires Chained(start, ws) && Opening(start, ws).Some? && k < Inserting(start, ws) && k < |ws|
    requires ws[k].before.None? ==> ws[k].client < |requests| && !requests[ws[k].client].Assign?
    requires ws[k].client < |requests| && Announces(event, requests[ws[k].client], ws[k])
    ensures Carries(start, ws, k, event.changeset)
  {
    assert ws[k].before == Latest(start, ws[..k]);
  }

  lemma TransitionCarries(requests: seq<Request>, start: Option<Record>, ws: seq<Write>, k: nat, event: Event)
    requires Chained(start, ws) && Opening(start, ws).Some? && Inserting(start, ws) <= k < |ws|
    requires Announced(requests, ws[k]) && Announces(event, requests[ws[k].client], ws[k])
    ensures Carries(start, ws, k, event.changeset)
  {
    ToldAt(start, ws, k);
  }

  /** These are the changesets that the events of the writes carry; that of an insertion is the first state. */
  lemma EventsCarryChangesets(p: Component, cs: seq<Config>, ls: seq<Label>, i: nat, x: Id, k: nat, e: nat)
    requires Run(p, cs, ls) && i < |cs|
    requires Tellable(cs[i].requests, Find(cs[0].store, x), WritesTo(cs[i].log, x))
    requires k < |WritesTo(cs[i].log, x)| && e < |cs[i].events|
    requires cs[i].events[e].client == WritesTo(cs[i].log, x)[k].client
    ensures Carries(Find(cs[0].store, x), WritesTo(cs[i].log, x), k, cs[i].events[e].event.changeset)
  {
    var c, start, ws, event := cs[i], Find(cs[0].store, x), WritesTo(cs[i].log, x), cs[i].events[e].event;
    RunKeepsInv(p, cs, ls, i);
    WritesAreChained(p, cs[0].store, c.requests, c.log, x);
    WriteIsAnnounced(p, cs, ls, i, ws[k], e);
    if k < Inserting(start, ws) {
      if ws[k].before.None? {
        InsertionIsNoAssignment(p, cs[0].store, c.requests, c.log, ws[k]);
      }
      InsertionCarries(c.requests, start, ws, k, event);
    } else {
      TransitionCarries(c.requests, start, ws, k, event);
    }
  }
}
