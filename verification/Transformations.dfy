/** How the extensions of a path choose among the image transformations a storage declares. */
module Transformations {
  import opened Wrappers
  import opened Paths

  /** `matches` holds the strings that the regular expression matches. */
  datatype Transformation = Transformation(matches: iset<string>, optional: bool, options: Options)

  /** Declared options are any value. */
  type Options = int

  /** Declared options, to be completed from the extension that matched. */
  datatype Made = Made(options: Options, extension: string)

  datatype Target = Refused | Target(base: string, transformations: Option<seq<Made>>)

  /** The first transformation from `t` on that matches, with only optional ones before it. */
  function Next(ts: seq<Transformation>, extension: string, t: nat): (n: Option<nat>)
    requires t <= |ts|
    ensures n.Some? ==> t <= n.value < |ts| && extension in ts[n.value].matches
    ensures n.Some? ==> forall k | t <= k < n.value :: ts[k].optional && extension !in ts[k].matches
    ensures n.None? && (forall k | t <= k < |ts| :: ts[k].optional) ==> forall k | t <= k < |ts| :: extension !in ts[k].matches
    decreases |ts| - t
  {
    if t == |ts| then None
    else if extension in ts[t].matches then Some(t)
    else if ts[t].optional then Next(ts, extension, t + 1)
    else None
  }

  /** Each extension takes the next transformation; the ones left over must be optional. */
  function Choose(ts: seq<Transformation>, extensions: seq<string>, t: nat): (a: Option<seq<nat>>)
    requires t <= |ts|
    ensures a.Some? ==> |a.value| == |extensions|
  {
    if extensions == [] then
      if forall k | t <= k < |ts| :: ts[k].optional then Some([]) else None
    else match Next(ts, extensions[0], t)
      case None => None
      case Some(n) =>
        match Choose(ts, extensions[1..], n + 1)
        case None => None
        case Some(rest) => Some([n] + rest)
  }

  lemma {:induction false} ChosenExist(ts: seq<Transformation>, extensions: seq<string>, t: nat)
    requires t <= |ts| && Choose(ts, extensions, t).Some?
    ensures forall i | 0 <= i < |extensions| :: Choose(ts, extensions, t).value[i] < |ts|
    decreases |extensions|
  {
    if extensions != [] {
      ChosenExist(ts, extensions[1..], Next(ts, extensions[0], t).value + 1);
    }
  }

  function Applied(ts: seq<Transformation>, extensions: seq<string>, a: seq<nat>): seq<Made>
    requires |a| == |extensions| && forall i | 0 <= i < |a| :: a[i] < |ts|
  {
    seq(|a|, i requires 0 <= i < |a| => Made(ts[a[i]].options, extensions[i]))
  }

  function Targeted(ts: seq<Transformation>, path: string): Target {
    if ts == [] then Target(path, None)
    else
      var parts := Split(path);
      match Choose(ts, parts[1..], 0)
      case None => Refused
      case Some(a) => ChosenExist(ts, parts[1..], 0); Target(parts[0], Some(Applied(ts, parts[1..], a)))
  }

  // What an assignment is

  /** Extension `i` goes to the matching transformation `a[i]`, in order, and every other transformation is optional. */
  ghost predicate Assigns(ts: seq<Transformation>, extensions: seq<string>, t: nat, a: seq<nat>) {
    && |a| == |extensions|
    && (forall i | 0 <= i < |a| :: t <= a[i] < |ts| && extensions[i] in ts[a[i]].matches)
    && (forall i, j | 0 <= i < j < |a| :: a[i] < a[j])
    && (forall k: nat | t <= k < |ts| && k !in a :: ts[k].optional)
  }

  /** No extension passes over a transformation it matches. */
  ghost predicate Eager(ts: seq<Transformation>, extensions: seq<string>, t: nat, a: seq<nat>) {
    forall i: nat, k: nat :: !PassesOver(ts, extensions, t, a, i, k)
  }

  /** The assignment that the loops look for. */
  ghost predicate Eagerly(ts: seq<Transformation>, extensions: seq<string>, t: nat, a: seq<nat>) {
    Assigns(ts, extensions, t, a) && Eager(ts, extensions, t, a)
  }

  ghost predicate PassesOver(ts: seq<Transformation>, extensions: seq<string>, t: nat, a: seq<nat>, i: nat, k: nat) {
    && i < |a| && i < |extensions| && k < |ts|
    && (if i == 0 then t else a[i - 1] + 1) <= k < a[i] && extensions[i] in ts[k].matches
  }

  /** The extension matches an optional transformation and the next required one. */
  ghost predicate Trap(ts: seq<Transformation>, extension: string, o: nat, p: nat) {
    && o < p < |ts| && extension in ts[o].matches && extension in ts[p].matches
    && !ts[p].optional && forall k | o <= k < p :: ts[k].optional
  }

  ghost predicate Untrapped(ts: seq<Transformation>, extensions: seq<string>) {
    forall i, o, p | 0 <= i < |extensions| && 0 <= o < p < |ts| :: !Trap(ts, extensions[i], o, p)
  }

  ghost predicate MatchesOne(ts: seq<Transformation>, extension: string) {
    forall o, p | 0 <= o < |ts| && 0 <= p < |ts| && extension in ts[o].matches && extension in ts[p].matches :: o == p
  }

  lemma ConsAssigns(ts: seq<Transformation>, extensions: seq<string>, t: nat, n: nat, rest: seq<nat>)
    requires extensions != [] && t <= n < |ts| && extensions[0] in ts[n].matches
    requires forall k | t <= k < n :: ts[k].optional
    requires Assigns(ts, extensions[1..], n + 1, rest)
    ensures Assigns(ts, extensions, t, [n] + rest)
  {
    var a := [n] + rest;
    forall k: nat | t <= k < |ts| && k !in a ensures ts[k].optional {
      assert k != n by {
        assert a[0] == n;
      }
      assert forall i | 0 <= i < |rest| :: rest[i] == a[i + 1];
    }
  }

  lemma TailAssigns(ts: seq<Transformation>, extensions: seq<string>, t: nat, a: seq<nat>)
    requires extensions != [] && Assigns(ts, extensions, t, a)
    ensures Assigns(ts, extensions[1..], a[0] + 1, a[1..])
    ensures forall k | t <= k < a[0] :: ts[k].optional
  {
    forall k: nat | t <= k < a[0] ensures k !in a {
    }
    forall k: nat | a[0] < k < |ts| && k !in a[1..] ensures k !in a {
      assert a == [a[0]] + a[1..];
    }
  }

  lemma TailIsEager(ts: seq<Transformation>, extensions: seq<string>, t: nat, a: seq<nat>)
    requires extensions != [] && Eagerly(ts, extensions, t, a)
    requires Assigns(ts, extensions[1..], a[0] + 1, a[1..])
    ensures Eager(ts, extensions[1..], a[0] + 1, a[1..])
    ensures forall k: nat | t <= k < a[0] :: extensions[0] !in ts[k].matches
  {
    var rest, from, others := a[1..], a[0] + 1, extensions[1..];
    forall i: nat, k: nat ensures !PassesOver(ts, others, from, rest, i, k) {
      assert !PassesOver(ts, extensions, t, a, i + 1, k);
    }
    forall k: nat | t <= k < a[0] ensures extensions[0] !in ts[k].matches {
      assert !PassesOver(ts, extensions, t, a, 0, k);
    }
  }

  lemma ConsIsEager(ts: seq<Transformation>, extensions: seq<string>, t: nat, n: nat, rest: seq<nat>)
    requires extensions != [] && t <= n < |ts| && extensions[0] in ts[n].matches
    requires forall k | t <= k < n :: ts[k].optional && extensions[0] !in ts[k].matches
    requires Eagerly(ts, extensions[1..], n + 1, rest)
    ensures Eagerly(ts, extensions, t, [n] + rest)
  {
    ConsAssigns(ts, extensions, t, n, rest);
    var a := [n] + rest;
    forall i: nat, k: nat ensures !PassesOver(ts, extensions, t, a, i, k) {
      if i > 0 {
        assert !PassesOver(ts, extensions[1..], n + 1, rest, i - 1, k);
      }
    }
  }

  ghost predicate ChosenEagerly(ts: seq<Transformation>, extensions: seq<string>, t: nat) {
    t <= |ts| && Choose(ts, extensions, t).Some? && Eagerly(ts, extensions, t, Choose(ts, extensions, t).value)
  }

  lemma ChosenRest(ts: seq<Transformation>, extensions: seq<string>, t: nat)
    requires t <= |ts| && extensions != [] && Choose(ts, extensions, t).Some?
    ensures Next(ts, extensions[0], t).Some? && Choose(ts, extensions[1..], Next(ts, extensions[0], t).value + 1).Some?
  {
  }

  lemma ChosenCons(ts: seq<Transformation>, extensions: seq<string>, t: nat, n: nat)
    requires t <= |ts| && extensions != [] && Next(ts, extensions[0], t) == Some(n)
    requires ChosenEagerly(ts, extensions[1..], n + 1)
    ensures ChosenEagerly(ts, extensions, t)
  {
    ConsIsEager(ts, extensions, t, n, Choose(ts, extensions[1..], n + 1).value);
  }

  lemma {:induction false} ChosenIsEager(ts: seq<Transformation>, extensions: seq<string>, t: nat)
    requires t <= |ts| && Choose(ts, extensions, t).Some?
    ensures ChosenEagerly(ts, extensions, t)
    decreases |extensions|
  {
    if extensions != [] {
      ChosenRest(ts, extensions, t);
      var n := Next(ts, extensions[0], t).value;
      ChosenIsEager(ts, extensions[1..], n + 1);
      ChosenCons(ts, extensions, t, n);
    }
  }

  lemma EagerTail(ts: seq<Transformation>, extensions: seq<string>, t: nat, a: seq<nat>)
    requires t <= |ts| && extensions != [] && Eagerly(ts, extensions, t, a)
    ensures Next(ts, extensions[0], t) == Some(a[0])
    ensures Eagerly(ts, extensions[1..], a[0] + 1, a[1..])
  {
    TailAssigns(ts, extensions, t, a);
    TailIsEager(ts, extensions, t, a);
    NextIsFirst(ts, extensions[0], t, a[0]);
  }

  ghost predicate Chooses(ts: seq<Transformation>, extensions: seq<string>, t: nat, a: seq<nat>) {
    t <= |ts| && Choose(ts, extensions, t) == Some(a)
  }

  lemma EagerCons(ts: seq<Transformation>, extensions: seq<string>, t: nat, n: nat, a: seq<nat>)
    requires t <= |ts| && extensions != [] && a != [] && n == a[0] && Next(ts, extensions[0], t) == Some(n)
    requires Chooses(ts, extensions[1..], n + 1, a[1..])
    ensures Chooses(ts, extensions, t, a)
  {
    assert a == [a[0]] + a[1..];
  }

  lemma NothingToChoose(ts: seq<Transformation>, t: nat, a: seq<nat>)
    requires t <= |ts| && Assigns(ts, [], t, a)
    ensures Chooses(ts, [], t, a)
  {
  }

  lemma {:induction false} EagerIsChosen(ts: seq<Transformation>, extensions: seq<string>, t: nat, a: seq<nat>)
    requires t <= |ts| && Eagerly(ts, extensions, t, a)
    ensures Chooses(ts, extensions, t, a)
    decreases |extensions|
  {
    if extensions == [] {
      NothingToChoose(ts, t, a);
    } else {
      EagerTail(ts, extensions, t, a);
      var n := a[0];
      EagerIsChosen(ts, extensions[1..], n + 1, a[1..]);
      EagerCons(ts, extensions, t, n, a);
    }
  }

  /** The loop finds an assignment exactly when it is the one assignment in which no extension passes over a match. */
  lemma ChoosesEagerly(ts: seq<Transformation>, extensions: seq<string>, a: seq<nat>)
    ensures Choose(ts, extensions, 0) == Some(a) <==> Eagerly(ts, extensions, 0, a)
  {
    if Choose(ts, extensions, 0) == Some(a) {
      ChosenIsEager(ts, extensions, 0);
    }
    if Eagerly(ts, extensions, 0, a) {
      EagerIsChosen(ts, extensions, 0, a);
    }
  }

  /**
   What a path is taken for: its first part is the base, and every other part completes the options of the transformation
   that it is assigned to, in order. It is refused exactly when there is no such assignment. Without transformations any
   path is the base as it is.
   */
  lemma TargetIsAssigned(ts: seq<Transformation>, path: string) returns (a: seq<nat>)
    ensures var parts := Split(path);
      match Targeted(ts, path)
      case Refused => ts != [] && forall b :: !Eagerly(ts, parts[1..], 0, b)
      case Target(base, None) => ts == [] && base == path
      case Target(base, Some(made)) =>
        && ts != [] && base == parts[0] && |made| == |parts| - 1 && Eagerly(ts, parts[1..], 0, a)
        && forall i | 0 <= i < |made| :: made[i].extension == parts[i + 1] && made[i].options == ts[a[i]].options
  {
    var extensions := Split(path)[1..];
    a := Choose(ts, extensions, 0).GetOr([]);
    forall b ensures Choose(ts, extensions, 0) == Some(b) <==> Eagerly(ts, extensions, 0, b) {
      ChoosesEagerly(ts, extensions, b);
    }
  }

  lemma {:induction false} NextIsFirst(ts: seq<Transformation>, extension: string, t: nat, n: nat)
    requires t <= n < |ts| && extension in ts[n].matches
    requires forall k | t <= k < n :: ts[k].optional && extension !in ts[k].matches
    ensures Next(ts, extension, t) == Some(n)
    decreases n - t
  {
    if t < n {
      NextIsFirst(ts, extension, t + 1, n);
    }
  }

  /** Any assignment can be made eager in its first extension. */
  lemma {:induction false} NextWithin(ts: seq<Transformation>, extension: string, t: nat, n: nat)
    requires t <= n < |ts| && extension in ts[n].matches
    requires forall k | t <= k < n :: ts[k].optional
    ensures Next(ts, extension, t).Some? && Next(ts, extension, t).value <= n
    decreases n - t
  {
    if t < n && extension !in ts[t].matches {
      NextWithin(ts, extension, t + 1, n);
    }
  }

  lemma EagerExchange(ts: seq<Transformation>, extensions: seq<string>, t: nat, a: seq<nat>)
    requires extensions != [] && Assigns(ts, extensions, t, a) && Untrapped(ts, extensions)
    ensures Next(ts, extensions[0], t).Some?
    ensures Assigns(ts, extensions[1..], Next(ts, extensions[0], t).value + 1, a[1..])
  {
    TailAssigns(ts, extensions, t, a);
    NextWithin(ts, extensions[0], t, a[0]);
    var n := Next(ts, extensions[0], t).value;
    forall k: nat | n < k < |ts| && k !in a[1..] ensures ts[k].optional {
      if k < a[0] {
      } else if k == a[0] {
        assert !Trap(ts, extensions[0], n, k);
      } else {
        assert a == [a[0]] + a[1..];
      }
    }
  }

  lemma {:induction false} ChoosesIfPossible(ts: seq<Transformation>, extensions: seq<string>, t: nat, a: seq<nat>)
    requires t <= |ts| && Untrapped(ts, extensions) && Assigns(ts, extensions, t, a)
    ensures Choose(ts, extensions, t).Some?
    decreases |extensions|
  {
    if extensions == [] {
      assert a == [];
    } else {
      EagerExchange(ts, extensions, t, a);
      forall i, o, p | 0 <= i < |extensions[1..]| && 0 <= o < p < |ts| ensures !Trap(ts, extensions[1..][i], o, p) {
        assert !Trap(ts, extensions[i + 1], o, p);
      }
      ChoosesIfPossible(ts, extensions[1..], Next(ts, extensions[0], t).value + 1, a[1..]);
    }
  }

  /** A refusal means that there is no assignment, when no extension fits an optional transformation and the next required one. */
  lemma RefusesOnlyTheImpossible(ts: seq<Transformation>, extensions: seq<string>)
    requires Untrapped(ts, extensions)
    ensures Choose(ts, extensions, 0).Some? <==> exists a :: Assigns(ts, extensions, 0, a)
  {
    if a :| Assigns(ts, extensions, 0, a) {
      ChoosesIfPossible(ts, extensions, 0, a);
    }
    if Choose(ts, extensions, 0).Some? {
      ChoosesEagerly(ts, extensions, Choose(ts, extensions, 0).value);
    }
  }

  /** In particular when each extension matches at most one transformation, and then there is only one assignment. */
  lemma SingleMatches(ts: seq<Transformation>, extensions: seq<string>, a: seq<nat>)
    requires forall e <- extensions :: MatchesOne(ts, e)
    ensures Choose(ts, extensions, 0) == Some(a) <==> Assigns(ts, extensions, 0, a)
  {
    ChoosesEagerly(ts, extensions, a);
    if Assigns(ts, extensions, 0, a) {
      forall i: nat, k: nat ensures !PassesOver(ts, extensions, 0, a, i, k) {
        if i < |extensions| {
          assert MatchesOne(ts, extensions[i]);
        }
      }
    }
  }

  /** An optional transformation can take the extension a required one needs: the loop then refuses what could be assigned. */
  lemma OptionalTakesRequired(options: Options) returns (ts: seq<Transformation>, extensions: seq<string>, a: seq<nat>)
    ensures Assigns(ts, extensions, 0, a)
    ensures Choose(ts, extensions, 0).None?
  {
    ts := [Transformation(iset{"png"}, true, options), Transformation(iset{"png"}, false, options)];
    extensions, a := ["png"], [1];
    assert Next(ts, "png", 0) == Some(0);
    assert !ts[1].optional;
  }

  // For which lists every refusal is right

  /** Some required transformation matches no extension at all. */
  ghost predicate Hopeless(ts: seq<Transformation>) {
    exists q: nat :: q < |ts| && !ts[q].optional && forall e: string | '.' !in e :: e !in ts[q].matches
  }

  ghost predicate Trapped(ts: seq<Transformation>) {
    exists e: string, o: nat, p: nat :: '.' !in e && Trap(ts, e, o, p)
  }

  /** Every required transformation has an extension, and `e` is one for `p`. */
  ghost predicate Workable(ts: seq<Transformation>, p: nat, e: string) {
    !Hopeless(ts) && '.' !in e && (p < |ts| ==> e in ts[p].matches)
  }

  ghost predicate Snare(ts: seq<Transformation>, t: nat, o: nat, p: nat, e: string) {
    Workable(ts, p, e) && t <= o && Trap(ts, e, o, p)
  }

  /** The required transformations from `t` on. */
  function Places(ts: seq<Transformation>, t: nat): seq<nat>
    requires t <= |ts|
    decreases |ts| - t
  {
    if t == |ts| then [] else if ts[t].optional then Places(ts, t + 1) else [t] + Places(ts, t + 1)
  }

  ghost function Word(ts: seq<Transformation>, q: nat, p: nat, e: string): (w: string)
    requires q < |ts| && !ts[q].optional && Workable(ts, p, e)
    ensures '.' !in w && w in ts[q].matches
  {
    if q == p then e else var w: string :| '.' !in w && w in ts[q].matches; w
  }

  /** An extension for each of them, `e` for `p`. */
  ghost function Words(ts: seq<Transformation>, t: nat, p: nat, e: string): (ws: seq<string>)
    requires t <= |ts| && Workable(ts, p, e)
    ensures |ws| == |Places(ts, t)| && forall w <- ws :: '.' !in w
    decreases |ts| - t
  {
    if t == |ts| then [] else if ts[t].optional then Words(ts, t + 1, p, e)
    else [Word(ts, t, p, e)] + Words(ts, t + 1, p, e)
  }

  ghost predicate WordsFit(ts: seq<Transformation>, t: nat, p: nat, e: string) {
    t <= |ts| && Workable(ts, p, e) && Assigns(ts, Words(ts, t, p, e), t, Places(ts, t))
  }

  lemma SkippedFit(ts: seq<Transformation>, t: nat, p: nat, e: string)
    requires t < |ts| && ts[t].optional && WordsFit(ts, t + 1, p, e)
    ensures WordsFit(ts, t, p, e)
  {
  }

  lemma WordFits(ts: seq<Transformation>, t: nat, p: nat, e: string)
    requires t < |ts| && !ts[t].optional && WordsFit(ts, t + 1, p, e)
    ensures WordsFit(ts, t, p, e)
  {
    var ws := Words(ts, t, p, e);
    assert ws[1..] == Words(ts, t + 1, p, e);
    ConsAssigns(ts, ws, t, t, Places(ts, t + 1));
  }

  lemma {:induction false} WordsAreAssigned(ts: seq<Transformation>, t: nat, p: nat, e: string)
    requires t <= |ts| && Workable(ts, p, e)
    ensures WordsFit(ts, t, p, e)
    decreases |ts| - t
  {
    if t < |ts| {
      WordsAreAssigned(ts, t + 1, p, e);
      if ts[t].optional {
        SkippedFit(ts, t, p, e);
      } else {
        WordFits(ts, t, p, e);
      }
    }
  }

  lemma {:induction false} FromFirst(ts: seq<Transformation>, t: nat, q: nat, p: nat, e: string)
    requires t <= q < |ts| && Workable(ts, p, e)
    requires !ts[q].optional && forall k | t <= k < q :: ts[k].optional
    ensures Places(ts, t) == [q] + Places(ts, q + 1)
    ensures Words(ts, t, p, e) == [Word(ts, q, p, e)] + Words(ts, q + 1, p, e)
    decreases q - t
  {
    if t < q {
      FromFirst(ts, t + 1, q, p, e);
    }
  }

  lemma {:induction false} SkipOptional(ts: seq<Transformation>, t: nat, n: nat)
    requires t <= n <= |ts| && forall k | t <= k < n :: ts[k].optional
    ensures Places(ts, t) == Places(ts, n)
    decreases n - t
  {
    if t < n {
      SkipOptional(ts, t + 1, n);
    }
  }

  /** Every required transformation needs an extension. */
  lemma {:induction false} EnoughExtensions(ts: seq<Transformation>, extensions: seq<string>, t: nat)
    requires t <= |ts| && Choose(ts, extensions, t).Some?
    ensures |extensions| >= |Places(ts, t)|
    decreases |extensions|
  {
    if extensions == [] {
      SkipOptional(ts, t, |ts|);
    } else {
      var n := Next(ts, extensions[0], t).value;
      SkipOptional(ts, t, n);
      EnoughExtensions(ts, extensions[1..], n + 1);
    }
  }

  lemma FirstRequired(ts: seq<Transformation>, t: nat, p: nat) returns (q: nat)
    requires t <= p < |ts| && !ts[p].optional
    ensures t <= q <= p && !ts[q].optional && forall k | t <= k < q :: ts[k].optional
    decreases p - t
  {
    if ts[t].optional {
      q := FirstRequired(ts, t + 1, p);
    } else {
      q := t;
    }
  }

  /** The first required transformation, its extension, and whichever transformation that extension takes. */
  lemma FirstWord(ts: seq<Transformation>, t: nat, o: nat, p: nat, e: string) returns (q: nat, n: nat)
    requires Snare(ts, t, o, p, e)
    ensures t <= n <= q <= p && !ts[q].optional && forall k | t <= k < q :: ts[k].optional
    ensures var ws := Words(ts, t, p, e);
      ws != [] && ws[1..] == Words(ts, q + 1, p, e) && Next(ts, ws[0], t) == Some(n)
    ensures n == q ==> q < o
  {
    q := FirstRequired(ts, t, p);
    FromFirst(ts, t, q, p, e);
    var w := Words(ts, t, p, e)[0];
    NextWithin(ts, w, t, q);
    n := Next(ts, w, t).value;
    assert q == p ==> w == e;
    assert n == q ==> forall k | t <= k < q :: w !in ts[k].matches;
  }

  /** With one extension for each required transformation, one that falls into a trap leaves too few. */
  lemma {:induction false} TrappedWords(ts: seq<Transformation>, t: nat, o: nat, p: nat, e: string)
    requires Snare(ts, t, o, p, e)
    ensures Choose(ts, Words(ts, t, p, e), t) == None
    decreases |ts| - t
  {
    var q, n := FirstWord(ts, t, o, p, e);
    if n < q {
      TooFew(ts, Words(ts, q + 1, p, e), n + 1, q);
    } else {
      assert Snare(ts, q + 1, o, p, e);
      TrappedWords(ts, q + 1, o, p, e);
    }
    ChooseFails(ts, Words(ts, t, p, e), t, n);
  }

  lemma TooFew(ts: seq<Transformation>, extensions: seq<string>, t: nat, q: nat)
    requires t <= q < |ts| && !ts[q].optional && (forall k | t <= k < q :: ts[k].optional)
    requires |extensions| == |Places(ts, q + 1)|
    ensures Choose(ts, extensions, t) == None
  {
    SkipOptional(ts, t, q);
    if Choose(ts, extensions, t).Some? {
      EnoughExtensions(ts, extensions, t);
    }
  }

  lemma ChooseFails(ts: seq<Transformation>, extensions: seq<string>, t: nat, n: nat)
    requires t <= |ts| && extensions != [] && Next(ts, extensions[0], t) == Some(n)
    requires Choose(ts, extensions[1..], n + 1) == None
    ensures Choose(ts, extensions, t) == None
  {
  }

  /** A path for these extensions. */
  lemma PathOf(extensions: seq<string>) returns (path: string)
    requires forall w <- extensions :: '.' !in w
    ensures Split(path)[1..] == extensions
  {
    var parts := [""] + extensions;
    path := Join(parts);
    SplitJoin(parts);
    assert parts[1..] == extensions;
  }

  lemma TrappedPath(ts: seq<Transformation>, o: nat, p: nat, e: string) returns (path: string, a: seq<nat>)
    requires Snare(ts, 0, o, p, e)
    ensures Targeted(ts, path) == Refused && Assigns(ts, Split(path)[1..], 0, a)
  {
    var ws := Words(ts, 0, p, e);
    a := Places(ts, 0);
    WordsAreAssigned(ts, 0, p, e);
    TrappedWords(ts, 0, o, p, e);
    path := PathOf(ws);
  }

  lemma HopelessIsImpossible(ts: seq<Transformation>, extensions: seq<string>, a: seq<nat>)
    requires Hopeless(ts) && forall e <- extensions :: '.' !in e
    ensures !Assigns(ts, extensions, 0, a)
  {
    var q: nat :| q < |ts| && !ts[q].optional && forall e: string | '.' !in e :: e !in ts[q].matches;
    assert Assigns(ts, extensions, 0, a) ==> q in a;
    assert forall i | 0 <= i < |extensions| :: extensions[i] in extensions;
  }

  ghost predicate WronglyRefused(ts: seq<Transformation>, path: string, a: seq<nat>) {
    Targeted(ts, path) == Refused && Assigns(ts, Split(path)[1..], 0, a)
  }

  lemma SomeWronglyRefused(ts: seq<Transformation>) returns (path: string, a: seq<nat>)
    requires !Hopeless(ts) && Trapped(ts)
    ensures WronglyRefused(ts, path, a)
  {
    var e: string, o: nat, p: nat :| '.' !in e && Trap(ts, e, o, p);
    assert Snare(ts, 0, o, p, e);
    path, a := TrappedPath(ts, o, p, e);
  }

  lemma NoneWronglyRefused(ts: seq<Transformation>, path: string, a: seq<nat>)
    requires Hopeless(ts) || !Trapped(ts)
    ensures !WronglyRefused(ts, path, a)
  {
    var extensions := Split(path)[1..];
    if Hopeless(ts) {
      HopelessIsImpossible(ts, extensions, a);
    } else {
      assert Untrapped(ts, extensions);
      if Assigns(ts, extensions, 0, a) {
        ChoosesIfPossible(ts, extensions, 0, a);
      }
    }
  }

  /**
   A list of transformations refuses only paths without an assignment exactly when no extension matches an optional
   transformation and the next required one, or some required transformation cannot be matched anyway.
   */
  lemma RefusalsAreRightIff(ts: seq<Transformation>)
    ensures (forall path, a :: !WronglyRefused(ts, path, a)) <==> Hopeless(ts) || !Trapped(ts)
  {
    if !Hopeless(ts) && Trapped(ts) {
      var path, a := SomeWronglyRefused(ts);
    } else {
      forall path, a ensures !WronglyRefused(ts, path, a) {
        NoneWronglyRefused(ts, path, a);
      }
    }
  }

  // The loops

  /** The inner loop, from `start`: it leaves `t` behind the transformation that was found. */
  method Take(ts: seq<Transformation>, extension: string, start: nat) returns (found: bool, t: nat)
    requires start <= |ts|
    ensures t <= |ts|
    ensures Next(ts, extension, start) == if found then Some(t - 1) else None
  {
    found, t := false, start;
    while t < |ts| && !found
      invariant start <= t <= |ts|
      invariant found ==> Next(ts, extension, start) == Some(t - 1)
      invariant !found ==> Next(ts, extension, start) == Next(ts, extension, t)
      decreases |ts| - t
    {
      if extension in ts[t].matches {
        found := true;
      } else if !ts[t].optional {
        return;
      }
      t := t + 1;
    }
  }

  ghost predicate Indices(ts: seq<Transformation>, a: seq<nat>) {
    forall i | 0 <= i < |a| :: a[i] < |ts|
  }

  /** The first `e` extensions have taken the transformations `a`, all before `t`. */
  ghost predicate Underway(ts: seq<Transformation>, extensions: seq<string>, e: nat, t: nat, a: seq<nat>, made: seq<Made>) {
    && e <= |extensions| && t <= |ts| && |a| == e && Indices(ts, a)
    && made == Applied(ts, extensions[..e], a)
    && Choose(ts, extensions, 0) == Continued(a, Choose(ts, extensions[e..], t))
  }

  lemma Begins(ts: seq<Transformation>, extensions: seq<string>)
    ensures Underway(ts, extensions, 0, 0, [], [])
  {
    assert extensions[0..] == extensions;
  }

  lemma Continues(ts: seq<Transformation>, extensions: seq<string>, e: nat, t: nat, a: seq<nat>, made: seq<Made>, n: nat)
    requires Underway(ts, extensions, e, t, a, made) && e < |extensions| && Next(ts, extensions[e], t) == Some(n)
    ensures n < |ts| && Underway(ts, extensions, e + 1, n + 1, a + [n], made + [Made(ts[n].options, extensions[e])])
  {
    var rest := extensions[e..];
    assert rest[0] == extensions[e] && rest[1..] == extensions[e + 1..];
    ContinuedStep(a, n, Choose(ts, extensions[e + 1..], n + 1));
    AppliedStep(ts, extensions, e, a, n);
  }

  lemma Breaks(ts: seq<Transformation>, extensions: seq<string>, e: nat, t: nat, a: seq<nat>, made: seq<Made>, k: nat)
    requires Underway(ts, extensions, e, t, a, made)
    requires if e < |extensions| then Next(ts, extensions[e], t) == None else t <= k < |ts| && !ts[k].optional
    ensures Choose(ts, extensions, 0) == None
  {
    assert e < |extensions| ==> extensions[e..][0] == extensions[e];
  }

  lemma Ends(ts: seq<Transformation>, extensions: seq<string>, t: nat, a: seq<nat>, made: seq<Made>)
    requires Underway(ts, extensions, |extensions|, t, a, made) && forall k | t <= k < |ts| :: ts[k].optional
    ensures Choose(ts, extensions, 0) == Some(a) && made == Applied(ts, extensions, a)
  {
    assert extensions[|extensions|..] == [] && extensions[..|extensions|] == extensions;
    assert a + [] == a;
  }

  method ToTransformation(ts: seq<Transformation>, path: string) returns (r: Target)
    ensures r == Targeted(ts, path)
  {
    if |ts| == 0 {
      return Target(path, None);
    }
    var parts := Split(path);
    var base, extensions := parts[0], parts[1..];
    var transformations: seq<Made> := [];
    ghost var a: seq<nat> := [];
    var t: nat := 0;
    Begins(ts, extensions);
    for e := 0 to |extensions|
      invariant Underway(ts, extensions, e, t, a, transformations)
    {
      var found, after := Take(ts, extensions[e], t);
      if !found {
        Breaks(ts, extensions, e, t, a, transformations, t);
        return Refused;
      }
      Continues(ts, extensions, e, t, a, transformations, after - 1);
      transformations := transformations + [Made(ts[after - 1].options, extensions[e])];
      a, t := a + [after - 1], after;
    }
    ghost var left := t;
    while t < |ts|
      invariant left <= t <= |ts| && forall k | left <= k < t :: ts[k].optional
    {
      if !ts[t].optional {
        Breaks(ts, extensions, |extensions|, left, a, transformations, t);
        return Refused;
      }
      t := t + 1;
    }
    Ends(ts, extensions, left, a, transformations);
    r := Target(base, Some(transformations));
  }

  lemma AppliedStep(ts: seq<Transformation>, extensions: seq<string>, e: nat, a: seq<nat>, n: nat)
    requires e < |extensions| && |a| == e && n < |ts| && forall i | 0 <= i < |a| :: a[i] < |ts|
    ensures Applied(ts, extensions[..e + 1], a + [n]) == Applied(ts, extensions[..e], a) + [Made(ts[n].options, extensions[e])]
  {
  }

  ghost function Continued(a: seq<nat>, rest: Option<seq<nat>>): Option<seq<nat>> {
    if a == [] then rest else if rest.Some? then Some(a + rest.value) else None
  }

  lemma ContinuedStep(a: seq<nat>, n: nat, rest: Option<seq<nat>>)
    ensures Continued(a, if rest.Some? then Some([n] + rest.value) else None) == Continued(a + [n], rest)
  {
    if a == [] {
      assert a + [n] == [n];
    } else if rest.Some? {
      assert a + ([n] + rest.value) == (a + [n]) + rest.value;
    }
  }
}
