/** The batching conveyor: units are collected while the processor works on the batch before. */
module Conveyors {
  import opened Wrappers

  /** What the awaited processor comes back with; `Broken` is a rejection, or a null result, which throws. */
  datatype Results<R> = Each(values: seq<R>) | Common(value: R) | Broken

  datatype Settlement<R> = Resolved(value: R) | Mismatch

  /** A suspended run of the processing loop: the units it handed over, and their promises. */
  datatype Flight<U> = Flight(units: seq<U>, promises: seq<nat>)

  datatype Call<U, R> = Call(units: seq<U>, results: Results<R>)

  /** Promises are numbered by submission. `submitted`, `done` and `lost` are history. */
  datatype State<U, R> = State(batch: seq<U>, promises: seq<nat>, busy: bool, flight: Option<Flight<U>>,
                               settled: map<nat, Settlement<R>>,
                               submitted: seq<U>, done: seq<Call<U, R>>, lost: seq<U>)

  // What the results of a call mean

  function Settle<R>(results: Results<R>, n: nat, i: nat): Settlement<R>
    requires !results.Broken? && i < n
  {
    match results
    case Common(value) => Resolved(value)
    case Each(values) => if |values| == n then Resolved(values[i]) else Mismatch
  }

  /**
   What a promise gets by the results of its batch of `n` units: the result at its own position, or the common one;
   a mismatch exactly when there are more results than units, or fewer.
   */
  ghost predicate Got<R>(results: Results<R>, n: nat, i: nat, s: Settlement<R>)
    requires i < n
  {
    && (results.Each? && |results.values| == n ==> s == Resolved(results.values[i]))
    && (results.Common? ==> s == Resolved(results.value))
    && (s == Mismatch <==> results.Each? && |results.values| != n)
  }

  lemma SettleGets<R>(results: Results<R>, n: nat, i: nat, s: Settlement<R>)
    requires !results.Broken? && i < n
    ensures Got(results, n, i, s) <==> s == Settle(results, n, i)
  {
  }

  function Flat<U, R>(done: seq<Call<U, R>>): seq<U> {
    if done == [] then [] else Flat(done[..|done| - 1]) + done[|done| - 1].units
  }

  /** Promise `k` got what its own position in its own call says. */
  ghost predicate SettledBy<U, R>(done: seq<Call<U, R>>, settled: map<nat, Settlement<R>>, k: nat) {
    exists c, i: nat ::
      && 0 <= c < |done| && i < |done[c].units| && !done[c].results.Broken?
      && k == |Flat(done[..c])| + i
      && k in settled && Got(done[c].results, |done[c].units|, i, settled[k])
  }

  // Steps

  function Range(lo: nat, hi: nat): (r: seq<nat>)
    requires lo <= hi
    ensures |r| == hi - lo && forall i | 0 <= i < |r| :: r[i] == lo + i
  {
    seq(hi - lo, i requires 0 <= i => lo + i)
  }

  /** Up to the call of the processor. */
  function Start<U, R>(s: State<U, R>): State<U, R> {
    s.(batch := [], promises := [], busy := true, flight := Some(Flight(s.batch, s.promises)))
  }

  function Submit<U, R>(s: State<U, R>, unit: U): State<U, R> {
    var t := s.(batch := s.batch + [unit], promises := s.promises + [|s.submitted|], submitted := s.submitted + [unit]);
    if t.busy then t else Start(t)
  }

  function SettleAll<U, R>(settled: map<nat, Settlement<R>>, f: Flight<U>, results: Results<R>, n: nat): map<nat, Settlement<R>>
    requires !results.Broken? && n <= |f.promises|
  {
    if n == 0 then settled
    else SettleAll(settled, f, results, n - 1)[f.promises[n - 1] := Settle(results, |f.promises|, n - 1)]
  }

  /** From the return of the processor on. */
  function Complete<U, R>(s: State<U, R>, results: Results<R>): State<U, R>
    requires s.flight.Some?
  {
    var f := s.flight.value;
    if results.Broken? then s.(flight := None, lost := f.units)
    else
      var t := s.(flight := None, busy := false, settled := SettleAll(s.settled, f, results, |f.promises|),
                  done := s.done + [Call(f.units, results)]);
      if t.batch == [] then t else Start(t)
  }

  /** The processor cannot come back twice; a completion with nothing in flight is no step. */
  datatype Event<U, R> = Arrival(unit: U) | Return(results: Results<R>)

  function Initial<U, R>(): State<U, R> {
    State([], [], false, None, map[], [], [], [])
  }

  function After<U, R>(events: seq<Event<U, R>>): State<U, R> {
    if events == [] then Initial() else Step(After(events[..|events| - 1]), events[|events| - 1])
  }

  function Step<U, R>(s: State<U, R>, e: Event<U, R>): State<U, R> {
    match e
    case Arrival(unit) => Submit(s, unit)
    case Return(results) => if s.flight.Some? then Complete(s, results) else s
  }

  // The invariant

  function InFlight<U, R>(s: State<U, R>): seq<U> {
    if s.flight.Some? then s.flight.value.units else []
  }

  /** Every unit is accounted for, in order of submission, and promises travel with their units. */
  ghost predicate Accounted<U, R>(s: State<U, R>) {
    var settled, taken := |Flat(s.done)|, |Flat(s.done)| + |InFlight(s)| + |s.lost|;
    && Flat(s.done) + InFlight(s) + s.lost + s.batch == s.submitted
    && s.promises == Range(taken, |s.submitted|)
    && (s.flight.Some? ==>
          s.lost == [] && s.flight.value.units != [] && s.flight.value.promises == Range(settled, settled + |InFlight(s)|))
  }

  /** Exactly the promises of finished calls are settled, each by its own result. */
  ghost predicate SettledRight<U, R>(done: seq<Call<U, R>>, settled: map<nat, Settlement<R>>) {
    && (forall k :: k in settled <==> 0 <= k < |Flat(done)|)
    && (forall k | 0 <= k < |Flat(done)| :: SettledBy(done, settled, k))
  }

  ghost predicate Valid<U, R>(s: State<U, R>) {
    && Accounted(s) && SettledRight(s.done, s.settled)
    && (s.busy <==> s.flight.Some? || s.lost != [])
    && (s.batch != [] ==> s.busy)
  }

  lemma {:induction false} SettleAllSettles<U, R>(settled: map<nat, Settlement<R>>, f: Flight<U>, results: Results<R>, n: nat, lo: nat)
    requires !results.Broken? && n <= |f.promises| && f.promises == Range(lo, lo + |f.promises|)
    ensures var after := SettleAll(settled, f, results, n);
      && (forall k :: k in after <==> k in settled || lo <= k < lo + n)
      && (forall k | k in settled && !(lo <= k < lo + n) :: after[k] == settled[k])
      && forall i | 0 <= i < n :: after[lo + i] == Settle(results, |f.promises|, i)
  {
    if n > 0 {
      SettleAllSettles(settled, f, results, n - 1, lo);
    }
  }

  lemma StartKeepsAccounts<U, R>(s: State<U, R>)
    requires Accounted(s) && s.flight.None? && s.lost == [] && s.batch != []
    ensures Accounted(Start(s))
  {
  }

  lemma SubmitKeepsValid<U, R>(s: State<U, R>, unit: U)
    requires Valid(s)
    ensures Valid(Submit(s, unit))
  {
    var t := s.(batch := s.batch + [unit], promises := s.promises + [|s.submitted|], submitted := s.submitted + [unit]);
    assert Flat(t.done) + InFlight(t) + t.lost + t.batch == t.submitted;
    assert Accounted(t);
    if !t.busy {
      StartKeepsAccounts(t);
    }
  }

  lemma FlatMore<U, R>(done: seq<Call<U, R>>, call: Call<U, R>)
    ensures Flat(done + [call]) == Flat(done) + call.units
  {
    assert (done + [call])[..|done|] == done;
  }

  lemma OldStaysSettled<U, R>(done: seq<Call<U, R>>, settled: map<nat, Settlement<R>>, call: Call<U, R>, after: map<nat, Settlement<R>>, k: nat)
    requires SettledBy(done, settled, k) && k in after && after[k] == settled[k]
    ensures SettledBy(done + [call], after, k)
  {
    var done' := done + [call];
    var c, i: nat :|
      && 0 <= c < |done| && i < |done[c].units| && !done[c].results.Broken?
      && k == |Flat(done[..c])| + i && k in settled && Got(done[c].results, |done[c].units|, i, settled[k]);
    assert done'[..c] == done[..c] && done'[c] == done[c];
  }

  lemma NewIsSettled<U, R>(done: seq<Call<U, R>>, call: Call<U, R>, after: map<nat, Settlement<R>>, i: nat)
    requires !call.results.Broken? && i < |call.units|
    requires var k := |Flat(done)| + i; k in after && Got(call.results, |call.units|, i, after[k])
    ensures SettledBy(done + [call], after, |Flat(done)| + i)
  {
    var done' := done + [call];
    assert done'[..|done|] == done && done'[|done|] == call;
  }

  lemma CallSettles<U, R>(done: seq<Call<U, R>>, settled: map<nat, Settlement<R>>, f: Flight<U>, results: Results<R>)
    requires SettledRight(done, settled) && !results.Broken?
    requires f.promises == Range(|Flat(done)|, |Flat(done)| + |f.units|)
    ensures SettledRight(done + [Call(f.units, results)], SettleAll(settled, f, results, |f.promises|))
  {
    var call, after := Call(f.units, results), SettleAll(settled, f, results, |f.promises|);
    FlatMore(done, call);
    SettleAllSettles(settled, f, results, |f.promises|, |Flat(done)|);
    forall k | 0 <= k < |Flat(done + [call])| ensures SettledBy(done + [call], after, k) {
      if k < |Flat(done)| {
        OldStaysSettled(done, settled, call, after, k);
      } else {
        var i := k - |Flat(done)|;
        SettleGets(results, |f.promises|, i, after[|Flat(done)| + i]);
        NewIsSettled(done, call, after, i);
      }
    }
  }

  lemma CompleteKeepsValid<U, R>(s: State<U, R>, results: Results<R>)
    requires Valid(s) && s.flight.Some?
    ensures Valid(Complete(s, results))
  {
    var f := s.flight.value;
    if !results.Broken? {
      CallSettles(s.done, s.settled, f, results);
      FlatMore(s.done, Call(f.units, results));
      var t := s.(flight := None, busy := false, settled := SettleAll(s.settled, f, results, |f.promises|),
                  done := s.done + [Call(f.units, results)]);
      assert Accounted(t);
      if t.batch != [] {
        StartKeepsAccounts(t);
      }
    }
  }

  /**
   After any interleaving of arrivals and returns: the batches handed over followed by the pending batch are
   the submissions in order, one batch at most is in flight, a pending batch means that the conveyor is busy,
   and exactly the units of finished calls are settled, each by the result at its own position.
   */
  lemma {:induction false} RunsAreValid<U, R>(events: seq<Event<U, R>>)
    ensures Valid(After(events))
  {
    if events != [] {
      RunsAreValid(events[..|events| - 1]);
      var s := After(events[..|events| - 1]);
      match events[|events| - 1]
      case Arrival(unit) => SubmitKeepsValid(s, unit);
      case Return(results) => if s.flight.Some? { CompleteKeepsValid(s, results); }
    }
  }

  /** A promise that is settled stays as it is: nothing settles twice. */
  lemma SettledForGood<U, R>(events: seq<Event<U, R>>, e: Event<U, R>, k: nat)
    requires k in After(events).settled
    ensures k in After(events + [e]).settled && After(events + [e]).settled[k] == After(events).settled[k]
  {
    RunsAreValid(events);
    assert (events + [e])[..|events|] == events;
    var s := After(events);
    if e.Return? && s.flight.Some? && !e.results.Broken? {
      SettleAllSettles(s.settled, s.flight.value, e.results, |s.flight.value.promises|, |Flat(s.done)|);
    }
  }

  /** Everything submitted before a successful return is settled by it, or in flight after it. */
  lemma ReturnTakesAll<U, R>(s: State<U, R>, results: Results<R>)
    requires Valid(s) && s.flight.Some? && !results.Broken?
    ensures var t := Complete(s, results);
      && |Flat(t.done)| == |Flat(s.done)| + |InFlight(s)|
      && |Flat(t.done)| + |InFlight(t)| == |s.submitted| && t.batch == [] && t.lost == []
  {
    FlatMore(s.done, Call(s.flight.value.units, results));
  }

  ghost predicate Returned<U, R>(events: seq<Event<U, R>>, i: nat) {
    i < |events| && events[i].Return? && !events[i].results.Broken? && After(events[..i]).flight.Some?
  }

  /**
   A successful return settles the `j`-th unit that is in flight by the `j`-th result, and its promise is the one
   that the unit got when it was submitted.
   */
  lemma ReturnSettles<U, R>(events: seq<Event<U, R>>, i: nat, j: nat)
    requires Returned(events, i) && j < |InFlight(After(events[..i]))|
    ensures var s, t := After(events[..i]), After(events[..i + 1]);
      var units, promise := InFlight(s), |Flat(s.done)| + j;
      && promise < |s.submitted| && s.submitted[promise] == units[j] && promise !in s.settled
      && promise in t.settled && Got(events[i].results, |units|, j, t.settled[promise])
      && t.done == s.done + [Call(units, events[i].results)]
  {
    var s := After(events[..i]);
    RunsAreValid(events[..i]);
    AfterNext(events, i);
    var f, results := s.flight.value, events[i].results;
    SettleAllSettles(s.settled, f, results, |f.promises|, |Flat(s.done)|);
    SettleGets(results, |f.promises|, j, Settle(results, |f.promises|, j));
    assert (Flat(s.done) + InFlight(s) + s.lost + s.batch)[|Flat(s.done)| + j] == InFlight(s)[j];
  }

  /** How many units have left the queue. */
  function Taken<U, R>(s: State<U, R>): nat {
    |Flat(s.done)| + |InFlight(s)| + |s.lost|
  }

  lemma StepTakes<U, R>(s: State<U, R>, e: Event<U, R>)
    requires Valid(s)
    ensures Taken(s) <= Taken(Step(s, e))
  {
    if e.Return? && s.flight.Some? && !e.results.Broken? {
      ReturnTakesAll(s, e.results);
    }
  }

  lemma {:induction false} TakenIsKept<U, R>(events: seq<Event<U, R>>, i: nat, j: nat)
    requires i <= j <= |events|
    ensures Taken(After(events[..i])) <= Taken(After(events[..j]))
    decreases j
  {
    if i < j {
      TakenIsKept(events, i, j - 1);
      RunsAreValid(events[..j - 1]);
      assert events[..j][..j - 1] == events[..j - 1];
      StepTakes(After(events[..j - 1]), events[j - 1]);
    }
  }

  lemma AfterNext<U, R>(events: seq<Event<U, R>>, i: nat)
    requires i < |events|
    ensures After(events[..i + 1]) == Step(After(events[..i]), events[i])
  {
    assert events[..i + 1][..i] == events[..i];
  }

  /** A unit waits for at most two successful returns: the one it may be behind, and its own. */
  lemma TwoReturnsSettle<U, R>(events: seq<Event<U, R>>, i: nat, j: nat, k: nat)
    requires Returned(events, i) && Returned(events, j) && i < j
    requires k < |After(events[..i]).submitted|
    ensures k in After(events[..j + 1]).settled
  {
    RunsAreValid(events[..i]);
    RunsAreValid(events[..j]);
    RunsAreValid(events[..j + 1]);
    AfterNext(events, i);
    AfterNext(events, j);
    ReturnTakesAll(After(events[..i]), events[i].results);
    TakenIsKept(events, i + 1, j);
    ReturnTakesAll(After(events[..j]), events[j].results);
  }

  /** A processor that rejects, or returns null, stops the conveyor for good: nothing is handed over or settled again. */
  lemma BrokenIsForever<U, R>(s: State<U, R>, e: Event<U, R>)
    requires Valid(s) && s.lost != []
    ensures Step(s, e).lost == s.lost && Step(s, e).settled == s.settled && Step(s, e).flight.None? && Step(s, e).busy
  {
  }

  ghost predicate BrokenAt<U, R>(events: seq<Event<U, R>>, i: nat) {
    i < |events| && events[i] == Return(Broken) && After(events[..i]).flight.Some?
  }

  lemma BrokenMore<U, R>(front: seq<Event<U, R>>, e: Event<U, R>)
    ensures (exists i: nat :: BrokenAt(front + [e], i)) <==>
            (exists i: nat :: BrokenAt(front, i)) || (e == Return(Broken) && After(front).flight.Some?)
  {
    var events := front + [e];
    assert events[..|front|] == front;
    forall i: nat | i < |front| ensures BrokenAt(events, i) <==> BrokenAt(front, i) {
      assert events[..i] == front[..i];
    }
    if e == Return(Broken) && After(front).flight.Some? {
      assert BrokenAt(events, |front|);
    }
    if i: nat :| BrokenAt(events, i) {
      assert i < |front| ==> BrokenAt(front, i);
    }
    if i: nat :| BrokenAt(front, i) {
      assert BrokenAt(events, i);
    }
  }

  lemma StuckStep<U, R>(s: State<U, R>, e: Event<U, R>)
    requires Valid(s)
    ensures var t := Step(s, e);
      t.busy && t.flight.None? <==> (s.busy && s.flight.None?) || (e == Return(Broken) && s.flight.Some?)
  {
  }

  /** ... and that is the only way to be busy with nothing in flight. */
  lemma {:induction false} StuckOnlyWhenBroken<U, R>(events: seq<Event<U, R>>)
    ensures var s := After(events); s.busy && s.flight.None? <==> exists i: nat :: BrokenAt(events, i)
    decreases |events|
  {
    if events != [] {
      var front, e := events[..|events| - 1], events[|events| - 1];
      StuckOnlyWhenBroken(front);
      RunsAreValid(front);
      StuckStep(After(front), e);
      BrokenMore(front, e);
      assert events == front + [e];
    }
  }

  // The class

  class Conveyor<U, R> {
    var batch: seq<U>
    var promises: seq<nat>
    var busy: bool
    var flight: Option<Flight<U>>
    var settled: map<nat, Settlement<R>>
    ghost var submitted: seq<U>
    ghost var done: seq<Call<U, R>>
    ghost var lost: seq<U>
    var count: nat

    ghost function Value(): State<U, R>
      reads this
    {
      State(batch, promises, busy, flight, settled, submitted, done, lost)
    }

    constructor ()
      ensures Value() == Initial() && count == 0
    {
      batch, promises, busy, flight, settled := [], [], false, None, map[];
      submitted, done, lost, count := [], [], [], 0;
    }

    method Process(unit: U) returns (promise: nat)
      requires count == |submitted|
      modifies this
      ensures Value() == Submit(old(Value()), unit) && promise == old(count) && count == |submitted|
    {
      promise := count;
      promises, batch, count := promises + [promise], batch + [unit], count + 1;
      submitted := submitted + [unit];
      if !busy {
        Begin();
      }
    }

    /** The loop up to the call of the processor, which gets the units in flight. */
    method Begin()
      modifies this
      ensures Value() == Start(old(Value())) && count == old(count)
    {
      var units, taken := batch, promises;
      batch, promises := [], [];
      busy := true;
      flight := Some(Flight(units, taken));
    }

    /** The loop from there on. */
    method Return(results: Results<R>)
      requires flight.Some?
      modifies this
      ensures Value() == Complete(old(Value()), results) && count == old(count)
    {
      var units, taken := flight.value.units, flight.value.promises;
      flight := None;
      if results.Broken? {
        lost := units;
        return;
      }
      ghost var before, f := settled, Flight(units, taken);
      if results.Each? && |results.values| != |taken| {
        for i := 0 to |taken|
          invariant settled == SettleAll(before, f, results, i)
          invariant batch == old(batch) && promises == old(promises) && busy == old(busy) && flight.None? && count == old(count)
          invariant submitted == old(submitted) && done == old(done) && lost == old(lost)
        {
          settled := settled[taken[i] := Mismatch];
        }
      } else {
        for i := 0 to |taken|
          invariant settled == SettleAll(before, f, results, i)
          invariant batch == old(batch) && promises == old(promises) && busy == old(busy) && flight.None? && count == old(count)
          invariant submitted == old(submitted) && done == old(done) && lost == old(lost)
        {
          var value := if results.Common? then results.value else results.values[i];
          settled := settled[taken[i] := Resolved(value)];
        }
      }
      done := done + [Call(units, results)];
      busy := false;
      if batch != [] {
        Begin();
      }
    }
  }
}
