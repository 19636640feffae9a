/** Strings with dots. */
module Paths {

  /** The parts of a string between dots: at least one. */
  function Split(s: string): (parts: seq<string>)
    ensures parts != [] && Join(parts) == s
    ensures forall p <- parts :: '.' !in p
  {
    if s == "" then [""]
    else
      var rest := Split(s[1..]);
      if s[0] == '.' then [""] + rest else [[s[0]] + rest[0]] + rest[1..]
  }

  function Join(parts: seq<string>): string {
    if parts == [] then ""
    else if |parts| == 1 then parts[0]
    else parts[0] + "." + Join(parts[1..])
  }

  ghost predicate Dotless(parts: seq<string>) {
    forall i | 0 <= i < |parts| :: '.' !in parts[i]
  }

  lemma SplitCons(c: char, s: string)
    ensures Split([c] + s) == if c == '.' then [""] + Split(s) else [[c] + Split(s)[0]] + Split(s)[1..]
  {
    assert ([c] + s)[1..] == s;
  }

  /** Parts that begin with an empty one. */
  lemma SplitEmpty(others: seq<string>)
    requires others != [] && Split(Join(others)) == others
    ensures Split(Join([""] + others)) == [""] + others
  {
    var parts := [""] + others;
    assert parts[1..] == others;
    assert Join(parts) == ['.'] + Join(others);
    SplitCons('.', Join(others));
  }

  /** One character more in the first part. */
  lemma SplitLonger(c: char, first: string, others: seq<string>)
    requires c != '.' && Split(Join([first] + others)) == [first] + others
    ensures Split(Join([[c] + first] + others)) == [[c] + first] + others
  {
    var shorter, longer := [first] + others, [[c] + first] + others;
    assert shorter[1..] == others && longer[1..] == others;
    assert Join(longer) == [c] + Join(shorter);
    SplitCons(c, Join(shorter));
  }

  lemma {:induction false} SplitJoin(parts: seq<string>)
    requires parts != [] && Dotless(parts)
    ensures Split(Join(parts)) == parts
    decreases |parts|, |parts[0]|
  {
    var first, others := parts[0], parts[1..];
    assert parts == [first] + others;
    if first != "" {
      var shorter := [first[1..]] + others;
      assert first[0] in first && forall c | c in first[1..] :: c in first;
      SplitJoin(shorter);
      assert first == [first[0]] + first[1..];
      SplitLonger(first[0], first[1..], others);
    } else if others != [] {
      SplitJoin(others);
      SplitEmpty(others);
    }
  }
}
