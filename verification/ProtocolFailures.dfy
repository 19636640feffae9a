/** Runs that show why two of the protocol's promises carry conditions. */
module ProtocolFailures {
  import opened Wrappers
  import opened Json
  import opened Records
  import opened Storages
  import opened Protocol
  import opened ProtocolInvariant
  import Differences

  /** Two `ensure` requests that carry the same id announce its creation twice, whatever the id. */
  lemma CreatedTwice(p: Component, x: Id) returns (ls: seq<Label>, cs: seq<Config>)
    ensures Run(p, cs, ls) && |cs[|ls|].events| == 2 && |cs[|ls|].log| == 1
    ensures forall e <- cs[|ls|].events :: Created(e.event) && e.event.state.id == x
  {
    var request := Ensure(Some(Query(Some(x), None, None)), Properties(Some(x), map[]));
    var idle := Client(Ready, 0, 0, None, None);
    var choice := Choice(x, x, 0);
    var c0 := Config([request, request], map[], [idle, idle], [], []);
    var c1 := StartStep(p, c0, 0, choice);
    var c2 := EmitStep(c1, 0);
    assert EnsureSelects(c2.store, request.query, request.properties, x);
    var c3 := StartStep(p, c2, 1, choice);
    var c4 := EmitStep(c3, 1);
    ls := [Label(0, choice), Label(0, choice), Label(1, choice), Label(1, choice)];
    cs := [c0, c1, c2, c3, c4];
    assert Step(p, c0, ls[0], c1) && Step(p, c1, ls[1], c2) && Step(p, c2, ls[2], c3) && Step(p, c3, ls[3], c4);
  }

  function Forget(r: Record): Outcome {
    Proceed(map["a" := Null], None, Null)
  }

  const BEFORE := Record("x", 1, None, 0, 0, map["a" := Object(map[])])

  const AFTER := Advance(Proposed(BEFORE, map["a" := Null], None), 0)

  lemma ForgettingThrows()
    ensures EntityEvent(Snapshot(Some(BEFORE), AFTER)) == None
  {
    var a, b := ToFields(BEFORE), ToFields(AFTER);
    assert a["a"] == Object(map[]) && b["a"] == Null;
    assert Differences.SlotOf(a, b, "a").Throws?;
  }

  const FORGETFUL := Transit(Some(Query(Some("x"), None, None)), r => Forget(r), true)

  const NOW := Choice("x", "", 0)

  lemma ForgetfulReads(p: Component, c: Config)
    requires c == Config([FORGETFUL], map["x" := BEFORE], [Client(Ready, 0, 0, None, None)], [], [])
    ensures Step(p, c, Label(0, NOW), Move(c, 0, c.clients[0].(phase := Holding(Snapshot(Some(BEFORE), BEFORE)))))
  {
    assert Selects(c.store, FORGETFUL.query.value, "x");
  }

  lemma ForgetfulWrites(p: Component, c: Config)
    requires c == Config([FORGETFUL], map["x" := BEFORE], [Client(Holding(Snapshot(Some(BEFORE), BEFORE)), 0, 0, None, None)], [], [])
    ensures Step(p, c, Label(0, NOW), Land(c, 0, c.clients[0].(executions := 1), AFTER, None, Output(Null)))
  {
    ForgettingThrows();
    assert Commit(c.store, FORGETFUL.algorithm, Snapshot(Some(BEFORE), BEFORE), 0)
        == Stored(Snapshot(Some(BEFORE), AFTER), Output(Null));
  }

  /** A transition that replaces an object by `null` writes, announces nothing and fails. */
  lemma WriteWithoutEvent(p: Component) returns (ls: seq<Label>, cs: seq<Config>)
    ensures Run(p, cs, ls) && |cs[|ls|].log| == 1 && cs[|ls|].events == []
    ensures |cs[|ls|].clients| == 1 && cs[|ls|].clients[0].phase == Failed(System)
  {
    var c0 := Config([FORGETFUL], map["x" := BEFORE], [Client(Ready, 0, 0, None, None)], [], []);
    var c1 := c0.(clients := [c0.clients[0].(phase := Holding(Snapshot(Some(BEFORE), BEFORE)))]);
    assert c1 == Move(c0, 0, c1.clients[0]);
    ForgetfulReads(p, c0);
    var c2 := Land(c1, 0, c1.clients[0].(executions := 1), AFTER, None, Output(Null));
    ForgetfulWrites(p, c1);
    var c3 := EmitStep(c2, 0);
    var l := Label(0, NOW);
    assert Step(p, c2, l, c3);
    ls, cs := [l, l, l], [c0, c1, c2, c3];
  }
}
