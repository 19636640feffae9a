/** The execution of a workflow: units one after another, the steps of a unit concurrently, one stream of reports. */
module Workflows {
  import opened Wrappers

  datatype Status = Completed | Exceptional

  datatype Report<V> = Entry(step: string, status: Option<Status>, output: Option<V>, error: Option<V>)
  {
    predicate Bad() {
      error.Some? || status == Some(Exceptional)
    }
  }

  /** What a step returns or streams: nothing, a value or an error. */
  datatype Yield<V> = Nothing | Value(value: V) | Failure(failure: V)

  /** What is pushed to the stream: the report of a step of some unit, or the end. */
  datatype Push<V> = Sent(unit: nat, report: Report<V>) | End

  datatype Phase = Running | Streaming | Done

  /** Units are sets of steps; `phases` are those of the steps of unit `current`. */
  datatype State<V> = State(current: nat, phases: map<string, Phase>, interrupted: bool, pushed: seq<Push<V>>)

  /** The steps of the current unit make progress in any order; `Proceed` is what follows once all have settled. */
  datatype Label<V> =
    | Return(step: string, result: Yield<V>)
    | Open(step: string)
    | Chunk(step: string, result: Yield<V>)
    | Close(step: string)
    | Throw(step: string)
    | Proceed

  type Units = seq<set<string>>

  function Reported<V>(step: string, result: Yield<V>, completed: bool): Report<V> {
    Entry(step,
           if completed then Some(Completed) else None,
           if result.Value? then Some(result.value) else None,
           if result.Failure? then Some(result.failure) else None)
  }

  function Excepted<V>(step: string): Report<V> {
    Entry(step, Some(Exceptional), None, None)
  }

  function Sending<V>(s: State<V>, r: Report<V>): State<V> {
    s.(pushed := s.pushed + [Sent(s.current, r)], interrupted := s.interrupted || r.Bad())
  }

  /** The object whose methods the concurrent steps call. */
  class Execution<V> {
    var current: nat
    var interrupted: bool
    var pushed: seq<Push<V>>

    function Seen(phases: map<string, Phase>): State<V>
      reads this
    {
      State(current, phases, interrupted, pushed)
    }

    constructor ()
      ensures Seen(map[]) == State(0, map[], false, [])
    {
      current, interrupted, pushed := 0, false, [];
    }

    method Push(r: Report<V>)
      modifies this`pushed
      ensures pushed == old(pushed) + [Sent(current, r)]
    {
      pushed := pushed + [Sent(current, r)];
    }

    method Report(step: string, result: Yield<V>, completed: bool)
      modifies this
      ensures forall phases :: Seen(phases) == Sending(old(Seen(phases)), Reported(step, result, completed))
    {
      var r: Report<V> := Entry(step, None, None, None);
      if completed {
        r := r.(status := Some(Completed));
      }
      if result.Failure? {
        r := r.(error := Some(result.failure));
        interrupted := true;
      } else if !result.Nothing? {
        r := r.(output := Some(result.value));
      }
      Push(r);
    }

    method Exception(step: string)
      modifies this
      ensures forall phases :: Seen(phases) == Sending(old(Seen(phases)), Excepted(step))
    {
      Push(Entry(step, Some(Exceptional), None, None));
      interrupted := true;
    }
  }

  // The step system

  function Started(steps: set<string>): map<string, Phase> {
    map s | s in steps :: Running
  }

  ghost predicate Initial<V>(units: Units, s: State<V>) {
    s == State(0, if units == [] then map[] else Started(units[0]), false, [])
  }

  predicate Ended<V>(s: State<V>) {
    s.pushed != [] && s.pushed[|s.pushed| - 1] == End
  }

  predicate Settled<V>(s: State<V>) {
    forall k | k in s.phases :: s.phases[k] == Done
  }

  predicate Enabled<V>(units: Units, s: State<V>, l: Label<V>) {
    match l
    case Return(step, _) => step in s.phases && s.phases[step] == Running
    case Open(step) => step in s.phases && s.phases[step] == Running
    case Chunk(step, _) => step in s.phases && s.phases[step] == Streaming
    case Close(step) => step in s.phases && s.phases[step] == Streaming
    case Throw(step) => step in s.phases && s.phases[step] != Done
    case Proceed => Settled(s) && !Ended(s)
  }

  function Apply<V>(units: Units, s: State<V>, l: Label<V>): State<V>
    requires Enabled(units, s, l)
  {
    match l
    case Return(step, result) => Sending(s, Reported(step, result, true)).(phases := s.phases[step := Done])
    case Open(step) => s.(phases := s.phases[step := Streaming])
    case Chunk(step, result) => Sending(s, Reported(step, result, false))
    case Close(step) => Sending(s, Reported(step, Nothing, true)).(phases := s.phases[step := Done])
    case Throw(step) => Sending(s, Excepted(step)).(phases := s.phases[step := Done])
    case Proceed =>
      if s.interrupted || s.current + 1 >= |units| then s.(pushed := s.pushed + [End])
      else s.(current := s.current + 1, phases := Started(units[s.current + 1]))
  }

  ghost predicate Run<V>(units: Units, ss: seq<State<V>>, ls: seq<Label<V>>) {
    && |ss| == |ls| + 1
    && Initial(units, ss[0])
    && forall i | 0 <= i < |ls| :: Enabled(units, ss[i], ls[i]) && ss[i + 1] == Apply(units, ss[i], ls[i])
  }

  // What a run keeps

  /** The reports of one step of one unit, in order. */
  function Story<V>(pushed: seq<Push<V>>, unit: nat, step: string): seq<Report<V>> {
    if pushed == [] then []
    else
      var last := pushed[|pushed| - 1];
      Story(pushed[..|pushed| - 1], unit, step) +
      if last.Sent? && last.unit == unit && last.report.step == step then [last.report] else []
  }

  /** Reports without a status, and, if `finished`, one with a status after them. */
  ghost predicate Told<V>(story: seq<Report<V>>, finished: bool) {
    var chunks := if finished then |story| - 1 else |story|;
    && chunks >= 0
    && (forall i | 0 <= i < chunks :: story[i].status == None)
    && (finished ==> story[chunks].status.Some?)
  }

  ghost predicate OrderKept<V>(units: Units, s: State<V>) {
    && (forall i | 0 <= i < |s.pushed| && s.pushed[i].Sent? ::
          && s.pushed[i].unit <= s.current && s.pushed[i].unit < |units|
          && s.pushed[i].report.step in units[s.pushed[i].unit])
    && (forall i, j | 0 <= i < j < |s.pushed| && s.pushed[i].Sent? && s.pushed[j].Sent? ::
          s.pushed[i].unit <= s.pushed[j].unit)
    && (forall i | 0 <= i < |s.pushed| - 1 :: s.pushed[i].Sent?)
  }

  ghost predicate InterruptsKept<V>(s: State<V>) {
    && (s.interrupted <==> exists i | 0 <= i < |s.pushed| :: s.pushed[i].Sent? && s.pushed[i].report.Bad())
    && (forall i | 0 <= i < |s.pushed| && s.pushed[i].Sent? && s.pushed[i].report.Bad() :: s.pushed[i].unit == s.current)
  }

  ghost predicate StoriesKept<V>(units: Units, s: State<V>) {
    && (forall unit: nat, step | unit < s.current && unit < |units| && step in units[unit] ::
          Told(Story(s.pushed, unit, step), true))
    && (forall step | step in s.phases :: Told(Story(s.pushed, s.current, step), s.phases[step] == Done))
    && (forall step | step in s.phases && s.phases[step] == Running :: Story(s.pushed, s.current, step) == [])
    && (forall unit: nat, step | unit > s.current :: Story(s.pushed, unit, step) == [])
  }

  ghost predicate Here<V>(units: Units, s: State<V>) {
    && (s.current < |units| || (units == [] && s.current == 0))
    && s.phases.Keys == (if units == [] then {} else units[s.current])
    && (Ended(s) ==> Settled(s) && (s.interrupted || s.current + 1 >= |units|))
  }

  ghost predicate Inv<V>(units: Units, s: State<V>) {
    Here(units, s) && OrderKept(units, s) && InterruptsKept(s) && StoriesKept(units, s)
  }

  lemma StoryStep<V>(pushed: seq<Push<V>>, last: Push<V>, unit: nat, step: string)
    ensures Story(pushed + [last], unit, step) ==
            Story(pushed, unit, step) +
            if last.Sent? && last.unit == unit && last.report.step == step then [last.report] else []
  {
    assert (pushed + [last])[..|pushed|] == pushed;
  }

  lemma NotEndedWhile<V>(units: Units, s: State<V>, step: string)
    requires Here(units, s) && step in s.phases && s.phases[step] != Done
    ensures !Ended(s)
  {
  }

  lemma KeepsHere<V>(units: Units, s: State<V>, l: Label<V>)
    requires Here(units, s) && Enabled(units, s, l)
    ensures Here(units, Apply(units, s, l))
  {
    if !l.Proceed? {
      NotEndedWhile(units, s, l.step);
    }
  }

  lemma SendKeepsOrder<V>(units: Units, s: State<V>, r: Report<V>)
    requires Here(units, s) && OrderKept(units, s) && !Ended(s) && r.step in s.phases
    ensures OrderKept(units, Sending(s, r))
  {
  }

  lemma KeepsOrder<V>(units: Units, s: State<V>, l: Label<V>)
    requires Here(units, s) && OrderKept(units, s) && Enabled(units, s, l)
    ensures OrderKept(units, Apply(units, s, l))
  {
    match l
    case Return(step, result) =>
      NotEndedWhile(units, s, step);
      SendKeepsOrder(units, s, Reported(step, result, true));
    case Open(_) =>
    case Chunk(step, result) =>
      NotEndedWhile(units, s, step);
      SendKeepsOrder(units, s, Reported(step, result, false));
    case Close(step) =>
      NotEndedWhile(units, s, step);
      SendKeepsOrder(units, s, Reported(step, Nothing, true));
    case Throw(step) =>
      NotEndedWhile(units, s, step);
      SendKeepsOrder(units, s, Excepted(step));
    case Proceed =>
  }

  lemma KeepsInterrupts<V>(units: Units, s: State<V>, l: Label<V>)
    requires Inv(units, s) && Enabled(units, s, l)
    ensures InterruptsKept(Apply(units, s, l))
  {
    var t := Apply(units, s, l);
    assert forall i | 0 <= i < |s.pushed| :: t.pushed[i] == s.pushed[i];
    if |t.pushed| > |s.pushed| && t.pushed[|s.pushed|].Sent? && t.pushed[|s.pushed|].report.Bad() {
      assert t.interrupted;
    }
  }

  lemma ToldMore<V>(story: seq<Report<V>>, r: Report<V>)
    requires Told(story, false)
    ensures Told(story + [r], r.status.Some?)
  {
  }

  lemma SendKeepsStories<V>(units: Units, s: State<V>, r: Report<V>, phases: map<string, Phase>)
    requires Inv(units, s) && r.step in s.phases && s.phases[r.step] != Done
    requires phases == (if r.status.Some? then s.phases[r.step := Done] else s.phases)
    requires r.status.Some? || s.phases[r.step] == Streaming
    ensures StoriesKept(units, Sending(s, r).(phases := phases))
  {
    var pushed := s.pushed + [Sent(s.current, r)];
    forall unit: nat, step
      ensures Story(pushed, unit, step) ==
              Story(s.pushed, unit, step) + if unit == s.current && step == r.step then [r] else []
    {
      StoryStep(s.pushed, Sent(s.current, r), unit, step);
    }
    ToldMore(Story(s.pushed, s.current, r.step), r);
    assert forall unit: nat, step | unit != s.current || step != r.step ::
        Story(pushed, unit, step) == Story(s.pushed, unit, step);
  }

  lemma EndKeepsStories<V>(units: Units, s: State<V>)
    requires StoriesKept(units, s)
    ensures StoriesKept(units, s.(pushed := s.pushed + [End]))
  {
    var pushed := s.pushed + [End];
    forall unit: nat, step ensures Story(pushed, unit, step) == Story(s.pushed, unit, step) {
      StoryStep(s.pushed, End, unit, step);
    }
  }

  lemma NextUnitKeepsStories<V>(units: Units, s: State<V>, t: State<V>)
    requires Here(units, s) && StoriesKept(units, s) && Settled(s) && s.current + 1 < |units|
    requires t == s.(current := s.current + 1, phases := Started(units[s.current + 1]))
    ensures StoriesKept(units, t)
  {
    forall unit: nat, step | unit < t.current && unit < |units| && step in units[unit]
      ensures Told(Story(t.pushed, unit, step), true)
    {
      assert unit == s.current ==> step in s.phases && s.phases[step] == Done;
    }
    forall step | step in t.phases
      ensures t.phases[step] == Running && Story(t.pushed, t.current, step) == []
    {
    }
  }

  lemma KeepsStories<V>(units: Units, s: State<V>, l: Label<V>)
    requires Inv(units, s) && Enabled(units, s, l)
    ensures StoriesKept(units, Apply(units, s, l))
  {
    match l
    case Return(step, result) =>
      SendKeepsStories(units, s, Reported(step, result, true), s.phases[step := Done]);
    case Open(_) =>
    case Chunk(step, result) =>
      SendKeepsStories(units, s, Reported(step, result, false), s.phases);
    case Close(step) =>
      SendKeepsStories(units, s, Reported(step, Nothing, true), s.phases[step := Done]);
    case Throw(step) =>
      SendKeepsStories(units, s, Excepted(step), s.phases[step := Done]);
    case Proceed =>
      if s.interrupted || s.current + 1 >= |units| {
        EndKeepsStories(units, s);
      } else {
        NextUnitKeepsStories(units, s, Apply(units, s, l));
      }
  }

  lemma {:induction false} RunsKeep<V>(units: Units, ss: seq<State<V>>, ls: seq<Label<V>>, i: nat)
    requires Run(units, ss, ls) && i < |ss|
    ensures Inv(units, ss[i])
  {
    if i > 0 {
      RunsKeep(units, ss, ls, i - 1);
      var s, l := ss[i - 1], ls[i - 1];
      KeepsHere(units, s, l);
      KeepsOrder(units, s, l);
      KeepsInterrupts(units, s, l);
      KeepsStories(units, s, l);
    }
  }

  // Theorems

  /** All reports of a unit precede those of the next one. */
  lemma UnitsReportInOrder<V>(units: Units, ss: seq<State<V>>, ls: seq<Label<V>>, i: nat, a: nat, b: nat)
    requires Run(units, ss, ls) && i < |ss|
    requires a < |ss[i].pushed| && b < |ss[i].pushed| && ss[i].pushed[a].Sent? && ss[i].pushed[b].Sent?
    ensures ss[i].pushed[a].unit < ss[i].pushed[b].unit ==> a < b
    ensures ss[i].pushed[a].unit < |units| && ss[i].pushed[a].report.step in units[ss[i].pushed[a].unit]
  {
    RunsKeep(units, ss, ls, i);
  }

  /** After a unit that reported an error or an exception no other unit starts. */
  lemma NothingStartsAfterBad<V>(units: Units, ss: seq<State<V>>, ls: seq<Label<V>>, i: nat, j: nat, a: nat)
    requires Run(units, ss, ls) && i <= j < |ss|
    requires a < |ss[i].pushed| && ss[i].pushed[a].Sent? && ss[i].pushed[a].report.Bad()
    ensures ss[j].current == ss[i].pushed[a].unit
  {
    PushesStay(units, ss, ls, i, j);
    RunsKeep(units, ss, ls, j);
    assert ss[j].pushed[a] == ss[i].pushed[a];
  }

  lemma {:induction false} PushesStay<V>(units: Units, ss: seq<State<V>>, ls: seq<Label<V>>, i: nat, j: nat)
    requires Run(units, ss, ls) && i <= j < |ss|
    ensures ss[i].pushed <= ss[j].pushed
    decreases j
  {
    if i < j {
      PushesStay(units, ss, ls, i, j - 1);
    }
  }

  /**
    * Once the stream has ended, every step of every unit that was started has given exactly one report with a status,
    * after all its chunks; no other unit has reported; and units are left out only after an error or an exception.
    */
  lemma EveryStepConcludes<V>(units: Units, ss: seq<State<V>>, ls: seq<Label<V>>, i: nat)
    requires Run(units, ss, ls) && i < |ss| && Ended(ss[i])
    ensures forall unit: nat, step | unit <= ss[i].current && unit < |units| && step in units[unit] ::
              Told(Story(ss[i].pushed, unit, step), true)
    ensures forall unit: nat, step | unit > ss[i].current :: Story(ss[i].pushed, unit, step) == []
    ensures ss[i].current + 1 < |units| ==>
              exists a: nat :: a < |ss[i].pushed| && ss[i].pushed[a].Sent? && ss[i].pushed[a].report.Bad()
  {
    RunsKeep(units, ss, ls, i);
    if ss[i].current + 1 < |units| {
      var a :| 0 <= a < |ss[i].pushed| && ss[i].pushed[a].Sent? && ss[i].pushed[a].report.Bad();
    }
  }

  lemma NothingFollowsEnd<V>(units: Units, s: State<V>)
    requires Inv(units, s) && Ended(s)
    ensures forall l :: !Enabled(units, s, l)
  {
  }

  // Errors and exceptions

  /** A step returns or streams an error, or throws. */
  predicate Fails<V>(l: Label<V>) {
    match l
    case Return(_, result) => result.Failure?
    case Chunk(_, result) => result.Failure?
    case Throw(_) => true
    case _ => false
  }

  function Yielded<V>(l: Label<V>): Yield<V> {
    match l
    case Return(_, result) => result
    case Chunk(_, result) => result
    case _ => Nothing
  }

  /** The report tells of this progress: its status, its output, its error. */
  ghost predicate Tells<V>(l: Label<V>, r: Report<V>)
    requires !l.Proceed?
  {
    && r.step == l.step
    && (r.status == Some(Completed) <==> l.Return? || l.Close?)
    && (r.status == Some(Exceptional) <==> l.Throw?)
    && r.output == (match Yielded(l) case Value(value) => Some(value) case _ => None)
    && r.error == (match Yielded(l) case Failure(failure) => Some(failure) case _ => None)
  }

  /** One report for each return, chunk, end and exception; an error or an exception interrupts, and nothing else does. */
  lemma StepsAreTold<V>(units: Units, s: State<V>, l: Label<V>) returns (r: Report<V>)
    requires Enabled(units, s, l) && !l.Proceed?
    ensures var t := Apply(units, s, l);
      && t.current == s.current && (t.interrupted <==> s.interrupted || Fails(l))
      && if l.Open? then t.pushed == s.pushed else Tells(l, r) && t.pushed == s.pushed + [Sent(s.current, r)]
  {
    r := Excepted(l.step);
    if !l.Open? {
      var pushed := Apply(units, s, l).pushed;
      r := pushed[|pushed| - 1].report;
    }
  }

  lemma {:induction false} InterruptedByFailure<V>(units: Units, ss: seq<State<V>>, ls: seq<Label<V>>, j: nat)
    requires Run(units, ss, ls) && j < |ss|
    ensures ss[j].interrupted <==> exists i: nat :: i < j && Fails(ls[i])
    ensures forall i: nat | i < j && Fails(ls[i]) :: ss[i].current == ss[j].current
    decreases j
  {
    if j > 0 {
      InterruptedByFailure(units, ss, ls, j - 1);
      var s, l := ss[j - 1], ls[j - 1];
      assert Enabled(units, s, l) && ss[j] == Apply(units, s, l);
      if Fails(l) {
        assert ss[j].interrupted && j - 1 < j;
      }
    }
  }

  /** Once a step has returned or streamed an error, or has thrown, no other unit starts. */
  lemma FailureStops<V>(units: Units, ss: seq<State<V>>, ls: seq<Label<V>>, i: nat, j: nat)
    requires Run(units, ss, ls) && i < j < |ss| && Fails(ls[i])
    ensures ss[j].current == ss[i].current
  {
    InterruptedByFailure(units, ss, ls, j);
  }

  /** When all steps of a unit are through, the execution ends exactly if this is the last unit or one of its steps has failed. */
  lemma ProceedsUnlessFailed<V>(units: Units, ss: seq<State<V>>, ls: seq<Label<V>>, j: nat)
    requires Run(units, ss, ls) && j < |ls| && ls[j].Proceed?
    ensures Ended(ss[j + 1]) <==> ss[j].current + 1 >= |units| || exists i: nat :: i < j && Fails(ls[i]) && ss[i].current == ss[j].current
    ensures !Ended(ss[j + 1]) ==> ss[j + 1].current == ss[j].current + 1
  {
    InterruptedByFailure(units, ss, ls, j);
    assert Enabled(units, ss[j], ls[j]) && ss[j + 1] == Apply(units, ss[j], ls[j]);
    if ss[j].interrupted {
      var i: nat :| i < j && Fails(ls[i]);
    }
  }

  // What the reports say

  /** What a step's progress is reported as. */
  function Said<V>(l: Label<V>): seq<Report<V>> {
    match l
    case Return(step, result) => [Reported(step, result, true)]
    case Chunk(step, result) => [Reported(step, result, false)]
    case Close(step) => [Reported(step, Nothing, true)]
    case Throw(step) => [Excepted(step)]
    case Open(_) => []
    case Proceed => []
  }

  /** What one step of one unit did in the first `n` steps of a run. */
  function Deeds<V>(ss: seq<State<V>>, ls: seq<Label<V>>, unit: nat, step: string, n: nat): seq<Report<V>>
    requires |ss| == |ls| + 1 && n <= |ls|
  {
    if n == 0 then []
    else
      Deeds(ss, ls, unit, step, n - 1) +
      if ss[n - 1].current == unit && !ls[n - 1].Proceed? && ls[n - 1].step == step then Said(ls[n - 1]) else []
  }

  lemma SendingSays<V>(s: State<V>, r: Report<V>, unit: nat, step: string)
    ensures Story(Sending(s, r).pushed, unit, step) ==
            Story(s.pushed, unit, step) + if s.current == unit && r.step == step then [r] else []
  {
    StoryStep(s.pushed, Sent(s.current, r), unit, step);
  }

  lemma ApplySays<V>(units: Units, s: State<V>, l: Label<V>, unit: nat, step: string)
    requires Enabled(units, s, l)
    ensures Story(Apply(units, s, l).pushed, unit, step) ==
            Story(s.pushed, unit, step) + if s.current == unit && !l.Proceed? && l.step == step then Said(l) else []
  {
    match l
    case Return(name, result) => SendingSays(s, Reported(name, result, true), unit, step);
    case Open(_) =>
    case Chunk(name, result) => SendingSays(s, Reported(name, result, false), unit, step);
    case Close(name) => SendingSays(s, Reported(name, Nothing, true), unit, step);
    case Throw(name) => SendingSays(s, Excepted(name), unit, step);
    case Proceed => StoryStep(s.pushed, End, unit, step);
  }

  /** The reports of every step are exactly what it returned, streamed and threw, in that order. */
  lemma {:induction false} StoriesAreDeeds<V>(units: Units, ss: seq<State<V>>, ls: seq<Label<V>>, i: nat, unit: nat, step: string)
    requires Run(units, ss, ls) && i < |ss|
    ensures Story(ss[i].pushed, unit, step) == Deeds(ss, ls, unit, step, i)
  {
    if i > 0 {
      StoriesAreDeeds(units, ss, ls, i - 1, unit, step);
      ApplySays(units, ss[i - 1], ls[i - 1], unit, step);
    }
  }

  /** The stream ends once: nothing is pushed before or after in place of the end, and nothing happens any more. */
  lemma EndsOnce<V>(units: Units, ss: seq<State<V>>, ls: seq<Label<V>>, i: nat, a: nat)
    requires Run(units, ss, ls) && i < |ss| && a < |ss[i].pushed| && ss[i].pushed[a] == End
    ensures a == |ss[i].pushed| - 1 && i == |ss| - 1
  {
    RunsKeep(units, ss, ls, i);
    assert i < |ls| ==> Enabled(units, ss[i], ls[i]);
    NothingFollowsEnd(units, ss[i]);
  }

  /** Until then some step can go on, or the execution proceeds. */
  lemma NeverStuck<V>(units: Units, ss: seq<State<V>>, ls: seq<Label<V>>, i: nat) returns (l: Label<V>)
    requires Run(units, ss, ls) && i < |ss|
    ensures Ended(ss[i]) || Enabled(units, ss[i], l)
  {
    l := Proceed;
    if !Settled(ss[i]) {
      var step :| step in ss[i].phases && ss[i].phases[step] != Done;
      l := Throw(step);
    }
  }
}
