/** When an event announces a creation, and when two of them announce the same one. */
module Creation {
  import opened Wrappers
  import opened Json
  import opened Records
  import opened Storages
  import opened Protocol
  import opened ProtocolInvariant
  import opened ProtocolTheorems

  /** The guard that fails: the undeleted record that `ensure` selects has the id of the entity it would insert. */
  ghost predicate Echoes(p: Component, c: Collection, request: Request, choice: Choice, x: Id) {
    && request.Ensure? && EnsureSelects(c, request.query, request.properties, choice.picked)
    && c[choice.picked].deleted.None? && c[choice.picked].id == x && Candidate(p, request.properties, choice).id == x
  }

  /** At step `t` of a run client `k` meets that guard. */
  ghost predicate EchoAt(p: Component, cs: seq<Config>, ls: seq<Label>, t: nat, k: nat, x: Id) {
    && t < |ls| && t < |cs| && ls[t].client == k && k < |cs[t].clients| == |cs[t].requests|
    && cs[t].clients[k].phase.Ready? && Echoes(p, cs[t].store, cs[t].requests[k], ls[t].choice, x)
  }

  ghost predicate Echoed(p: Component, cs: seq<Config>, ls: seq<Label>, i: nat, k: nat, x: Id) {
    exists t: nat | t < i :: EchoAt(p, cs, ls, t, k, x)
  }

  /** Client `k` is about to announce the creation of `x`, or has done so, without a write of its own. */
  ghost predicate Echoing(c: Config, k: nat, x: Id) {
    && k < |c.clients| == |c.requests| && c.requests[k].Ensure? && c.clients[k].write.None?
    && match c.clients[k].phase
       case Emitting(pending, _) => pending.Some? && Created(pending.value) && pending.value.state.id == x
       case Done(_) =>
         && c.clients[k].event.Some? && c.clients[k].event.value < |c.events|
         && CreatedEvent(c, c.clients[k].event.value, x) && c.events[c.clients[k].event.value].client == k
       case _ => false
  }

  ghost predicate CreatedEvent(c: Config, e: nat, x: Id) {
    e < |c.events| && Created(c.events[e].event) && c.events[e].event.state.id == x
  }

  lemma OthersKeepEchoing(p: Component, c: Config, l: Label, c': Config, k: nat, x: Id)
    requires Step(p, c, l, c') && l.client != k && c.events <= c'.events && c'.requests == c.requests
    requires k < |c.clients| && c.clients[k].event.Some? ==> c.clients[k].event.value < |c.events|
    ensures Echoing(c', k, x) <==> Echoing(c, k, x)
  {
    OthersStayPut(p, c, l, c');
  }

  lemma StartEchoes(p: Component, c: Config, k: nat, choice: Choice, x: Id)
    requires k < |c.clients| == |c.requests| && c.clients[k].phase.Ready?
    requires c.clients[k].write.None? && c.clients[k].event.None?
    ensures Echoing(StartStep(p, c, k, choice), k, x) <==> Echoes(p, c.store, c.requests[k], choice, x)
  {
    if c.requests[k].Ensure? {
      match EnsureStep(p, c.store, c.requests[k].query, c.requests[k].properties, choice)
      case Kept(_) =>
      case Reannounced(_) =>
      case Added(_) =>
      case Crashed =>
    }
  }

  lemma EmitKeepsEchoing(c: Config, k: nat, x: Id)
    requires k < |c.clients| == |c.requests| && c.clients[k].phase.Emitting?
    ensures Echoing(EmitStep(c, k), k, x) <==> Echoing(c, k, x)
  {
    if c.clients[k].phase.pending.Some? {
      assert EmitStep(c, k).events[|c.events|] == Emission(k, c.clients[k].phase.pending.value);
    }
  }

  lemma EchoingStep(p: Component, start: Collection, c: Config, l: Label, c': Config, k: nat, x: Id)
    requires Inv(p, start, c) && Step(p, c, l, c') && LogsStep(c, l, c')
    ensures Echoing(c', k, x) <==>
            Echoing(c, k, x) ||
            (l.client == k && c.clients[k].phase.Ready? && Echoes(p, c.store, c.requests[k], l.choice, x))
  {
    if l.client != k {
      EventKnown(p, start, c, k);
      OthersKeepEchoing(p, c, l, c', k, x);
    } else {
      LocalFacts(p, start, c, k);
      match c.clients[k].phase
      case Ready => StartEchoes(p, c, k, l.choice, x);
      case Emitting(_, _) => EmitKeepsEchoing(c, k, x);
      case Holding(_) =>
    }
  }

  lemma EventKnown(p: Component, start: Collection, c: Config, k: nat)
    requires Inv(p, start, c)
    ensures k < |c.clients| && c.clients[k].event.Some? ==> c.clients[k].event.value < |c.events|
  {
  }

  lemma EchoingNext(p: Component, cs: seq<Config>, ls: seq<Label>, i: nat, k: nat, x: Id)
    requires Run(p, cs, ls) && i < |ls| && (Echoing(cs[i], k, x) <==> Echoed(p, cs, ls, i, k, x))
    ensures Echoing(cs[i + 1], k, x) <==> Echoed(p, cs, ls, i + 1, k, x)
  {
    RunKeepsInv(p, cs, ls, i);
    RunIsLogged(p, cs, ls);
    StepOf(p, cs, ls, i);
    assert LogsStep(cs[i], ls[i], cs[i + 1]);
    EchoingStep(p, cs[0].store, cs[i], ls[i], cs[i + 1], k, x);
    EchoedMore(p, cs, ls, i, k, x);
  }

  /** A client announces a creation without a write exactly when it has met the guard. */
  lemma {:induction false} EchoingIff(p: Component, cs: seq<Config>, ls: seq<Label>, i: nat, k: nat, x: Id)
    requires Run(p, cs, ls) && i < |cs|
    ensures Echoing(cs[i], k, x) <==> Echoed(p, cs, ls, i, k, x)
  {
    if i > 0 {
      EchoingIff(p, cs, ls, i - 1, k, x);
      EchoingNext(p, cs, ls, i - 1, k, x);
    } else {
      NotEchoedYet(p, cs, ls, k, x);
    }
  }

  lemma EchoedMore(p: Component, cs: seq<Config>, ls: seq<Label>, t: nat, k: nat, x: Id)
    ensures Echoed(p, cs, ls, t + 1, k, x) <==> Echoed(p, cs, ls, t, k, x) || EchoAt(p, cs, ls, t, k, x)
  {
  }

  lemma NotEchoedYet(p: Component, cs: seq<Config>, ls: seq<Label>, k: nat, x: Id)
    requires Run(p, cs, ls)
    ensures !Echoing(cs[0], k, x) && !Echoed(p, cs, ls, 0, k, x)
  {
  }

  // Who creates

  ghost predicate Inserted(c: Config, k: nat, x: Id) {
    && k < |c.clients| && c.clients[k].write.Some? && c.clients[k].write.value < |c.log|
    && var w := c.log[c.clients[k].write.value]; w.client == k && w.before.None? && w.after.id == x
  }

  ghost predicate Creator(p: Component, cs: seq<Config>, ls: seq<Label>, i: nat, k: nat, x: Id)
    requires i < |cs|
  {
    k < |cs[i].clients| && cs[i].clients[k].phase.Done? && (Inserted(cs[i], k, x) || Echoed(p, cs, ls, i, k, x))
  }

  lemma AssignmentsDoNotInsert(p: Component, start: Collection, c: Config, k: nat, x: Id)
    requires Inv(p, start, c) && Inserted(c, k, x)
    ensures !c.requests[k].Assign?
  {
    var j := c.clients[k].write.value;
    LogIsWellFormed(p, start, c.requests, c.log, j);
    LawfulOf(p, start, c.requests, c.log, j);
  }

  lemma WriterCreates(p: Component, start: Collection, c: Config, k: nat, x: Id)
    requires Inv(p, start, c) && k < |c.clients| && c.clients[k].write.Some?
    ensures c.clients[k].phase.Done? && Inserted(c, k, x) <==>
            c.clients[k].event.Some? && CreatedEvent(c, c.clients[k].event.value, x)
  {
    assert ClientInv(c.requests[k], c.clients[k], c.log, c.events);
    if Inserted(c, k, x) {
      AssignmentsDoNotInsert(p, start, c, k, x);
    }
  }

  lemma IdleCreates(p: Component, start: Collection, c: Config, k: nat, x: Id)
    requires Inv(p, start, c) && k < |c.clients| && c.clients[k].write.None?
    ensures c.clients[k].phase.Done? && Echoing(c, k, x) <==>
            c.clients[k].event.Some? && CreatedEvent(c, c.clients[k].event.value, x)
  {
    assert ClientInv(c.requests[k], c.clients[k], c.log, c.events);
  }

  /** Client `k` has announced the creation of `x` exactly when it is done and has inserted `x` or met the guard. */
  lemma CreationsComeFrom(p: Component, cs: seq<Config>, ls: seq<Label>, i: nat, k: nat, x: Id)
    requires Run(p, cs, ls) && i < |cs|
    ensures (exists e: nat :: CreatedEvent(cs[i], e, x) && cs[i].events[e].client == k) <==> Creator(p, cs, ls, i, k, x)
  {
    var c := cs[i];
    RunKeepsInv(p, cs, ls, i);
    EchoingIff(p, cs, ls, i, k, x);
    if k < |c.clients| {
      if c.clients[k].write.Some? {
        WriterCreates(p, cs[0].store, c, k, x);
      } else {
        IdleCreates(p, cs[0].store, c, k, x);
      }
    }
    if e: nat :| CreatedEvent(c, e, x) && c.events[e].client == k {
      assert c.clients[k].event == Some(e);
    }
    if Creator(p, cs, ls, i, k, x) {
      assert CreatedEvent(c, c.clients[k].event.value, x) && c.events[c.clients[k].event.value].client == k;
    }
  }

  /** Two events announce the creation of the same record. */
  ghost predicate CreatedTwice(c: Config, x: Id) {
    exists e1: nat, e2: nat :: e1 != e2 && CreatedEvent(c, e1, x) && CreatedEvent(c, e2, x)
  }

  lemma OneInserts(p: Component, start: Collection, c: Config, k1: nat, k2: nat, x: Id)
    requires Inv(p, start, c) && Inserted(c, k1, x) && Inserted(c, k2, x)
    ensures k1 == k2
  {
    OneInsertPerId(p, start, c.requests, c.log, c.clients[k1].write.value, c.clients[k2].write.value);
  }

  /** That is so exactly when a client has met the guard, and another one has, too, or has inserted the record. */
  lemma CreatedTwiceIff(p: Component, cs: seq<Config>, ls: seq<Label>, i: nat, x: Id)
    requires Run(p, cs, ls) && i < |cs|
    ensures CreatedTwice(cs[i], x) <==>
            exists k1: nat, k2: nat :: k1 != k2 && Creator(p, cs, ls, i, k1, x) && Echoed(p, cs, ls, i, k1, x) && Creator(p, cs, ls, i, k2, x)
  {
    var c := cs[i];
    RunKeepsInv(p, cs, ls, i);
    forall k: nat
      ensures (exists e: nat :: CreatedEvent(c, e, x) && c.events[e].client == k) <==> Creator(p, cs, ls, i, k, x)
    {
      CreationsComeFrom(p, cs, ls, i, k, x);
    }
    if e1: nat, e2: nat :| e1 != e2 && CreatedEvent(c, e1, x) && CreatedEvent(c, e2, x) {
      var k1, k2 := c.events[e1].client, c.events[e2].client;
      assert c.clients[k1].event == Some(e1) && c.clients[k2].event == Some(e2);
      assert Creator(p, cs, ls, i, k1, x) && Creator(p, cs, ls, i, k2, x);
      if Inserted(c, k1, x) && Inserted(c, k2, x) {
        OneInserts(p, cs[0].store, c, k1, k2, x);
      }
    }
    if k1: nat, k2: nat :| k1 != k2 && Creator(p, cs, ls, i, k1, x) && Creator(p, cs, ls, i, k2, x) {
      var e1: nat :| CreatedEvent(c, e1, x) && c.events[e1].client == k1;
      var e2: nat :| CreatedEvent(c, e2, x) && c.events[e2].client == k2;
      assert e1 != e2;
    }
  }

  // Conditions on requests

  /** With a fresh drawn id, the guard is met exactly by an `ensure` that is given the id of the record it selects. */
  lemma EchoNeedsId(p: Component, c: Collection, request: Request, choice: Choice, x: Id)
    requires WellFormed(c) && request.Ensure? && choice.newid !in c
    ensures Echoes(p, c, request, choice, x) <==>
            && request.properties.id == Some(x) && choice.picked == x && EnsureSelects(c, request.query, request.properties, x)
            && c[x].deleted.None?
  {
  }

  /** No `ensure` is given the id of an undeleted record that it selects, and ids are drawn fresh. */
  ghost predicate Discreet(c: Config, l: Label) {
    l.client < |c.requests| == |c.clients| && c.requests[l.client].Ensure? && c.clients[l.client].phase.Ready? ==>
      && l.choice.newid !in c.store
      && match c.requests[l.client].properties.id
         case None => true
         case Some(x) =>
           !(l.choice.picked == x && EnsureSelects(c.store, c.requests[l.client].query, c.requests[l.client].properties, x)
             && c.store[x].deleted.None?)
  }

  /** `created` holds at most once per id in any run in which no `ensure` is given the id of a record it selects. */
  lemma CreatedAtMostOnce(p: Component, cs: seq<Config>, ls: seq<Label>, i: nat, x: Id)
    requires Run(p, cs, ls) && i < |cs| && forall t | 0 <= t < |ls| :: Discreet(cs[t], ls[t])
    ensures !CreatedTwice(cs[i], x)
  {
    forall t: nat, k: nat | t < i ensures !EchoAt(p, cs, ls, t, k, x) {
      if EchoAt(p, cs, ls, t, k, x) {
        RunKeepsInv(p, cs, ls, t);
        assert Discreet(cs[t], ls[t]);
        EchoNeedsId(p, cs[t].store, cs[t].requests[k], ls[t].choice, x);
      }
    }
    CreatedTwiceIff(p, cs, ls, i, x);
  }

  /** In particular when the properties of `ensure` carry no id. */
  lemma CreatedOnceWithoutIds(p: Component, cs: seq<Config>, ls: seq<Label>, i: nat, x: Id)
    requires Run(p, cs, ls) && i < |cs|
    requires forall t, k | 0 <= t < |ls| && 0 <= k < |cs[t].requests| && cs[t].requests[k].Ensure? ::
               cs[t].requests[k].properties.id.None?
    requires forall t | 0 <= t < |ls| :: ls[t].choice.newid !in cs[t].store
    ensures !CreatedTwice(cs[i], x)
  {
    CreatedAtMostOnce(p, cs, ls, i, x);
  }
}
