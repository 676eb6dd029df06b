/** Splitting at line feeds and joining again. */
module Lines {
  import opened Sequences

  predicate NoNewline(s: string) {
    forall i :: 0 <= i < |s| ==> s[i] != '\n'
  }

  function FindFrom(s: string, k: nat): (i: nat)
    requires k <= |s|
    ensures k <= i <= |s|
    ensures forall j :: k <= j < i ==> s[j] != '\n'
    ensures i < |s| ==> s[i] == '\n'
    decreases |s| - k
  {
    if k == |s| || s[k] == '\n' then k else FindFrom(s, k + 1)
  }

  /** `find('\n')`, with the length standing for "not found". */
  function Find(s: string): (i: nat)
    ensures i <= |s|
    ensures forall j :: 0 <= j < i ==> s[j] != '\n'
    ensures i < |s| ==> s[i] == '\n'
  {
    FindFrom(s, 0)
  }

  /** The terminated lines, without their line feeds. */
  function Complete(s: string): seq<string> {
    var i := Find(s);
    if i == |s| then [] else [s[..i]] + Complete(s[i + 1..])
  }

  /** What follows the last line feed. */
  function Tail(s: string): string {
    var i := Find(s);
    if i == |s| then s else Tail(s[i + 1..])
  }

  /** The pieces between line feeds; always at least one. */
  function Split(s: string): (ls: seq<string>)
    ensures |ls| >= 1
  {
    Complete(s) + [Tail(s)]
  }

  function Join(ls: seq<string>): string {
    if |ls| == 0 then ""
    else if |ls| == 1 then ls[0]
    else ls[0] + "\n" + Join(ls[1..])
  }

  /** Text appended later does not change the first line. */
  lemma FindAppend(s: string, t: string)
    requires Find(s) < |s|
    ensures Find(s + t) == Find(s)
  {
    assert (s + t)[Find(s)] == s[Find(s)];
    assert forall j :: 0 <= j < Find(s) ==> (s + t)[j] == s[j];
  }

  lemma NoNewlineSplit(s: string)
    requires NoNewline(s)
    ensures Find(s) == |s| && Split(s) == [s] && Complete(s) == [] && Tail(s) == s
  {
  }

  lemma {:induction false} TailNoNewline(s: string)
    ensures NoNewline(Tail(s))
    decreases |s|
  {
    if Find(s) < |s| {
      TailNoNewline(s[Find(s) + 1..]);
    }
  }

  /** Appending to a text with a complete first line. */
  lemma DrainAppend(s: string, t: string)
    requires Find(s) < |s|
    ensures Find(s + t) == Find(s)
    ensures (s + t)[..Find(s)] == s[..Find(s)]
    ensures (s + t)[Find(s) + 1..] == s[Find(s) + 1..] + t
  {
    FindAppend(s, t);
  }

  /** Reading more text: the old lines stay, and the rest depends on the old
      tail alone. */
  lemma {:induction false} SplitConcat(s: string, t: string)
    ensures Complete(s + t) == Complete(s) + Complete(Tail(s) + t)
    ensures Tail(s + t) == Tail(Tail(s) + t)
    decreases |s|
  {
    var i := Find(s);
    if i < |s| {
      var line, rest := [s[..i]], s[i + 1..];
      SplitConcat(rest, t);
      DrainAppend(s, t);
      Assoc(line, Complete(rest), Complete(Tail(rest) + t));
    }
  }

  lemma AtNewline(s: string, i: nat)
    requires i < |s| && s[i] == '\n'
    ensures s == s[..i] + "\n" + s[i + 1..]
  {
  }

  lemma JoinCons(first: string, rest: seq<string>)
    requires rest != []
    ensures Join([first] + rest) == first + "\n" + Join(rest)
  {
    assert ([first] + rest)[1..] == rest;
  }

  lemma {:induction false} JoinSplit(s: string)
    ensures Join(Split(s)) == s
    decreases |s|
  {
    var i := Find(s);
    if i < |s| {
      var rest := s[i + 1..];
      JoinSplit(rest);
      Assoc([s[..i]], Complete(rest), [Tail(rest)]);
      JoinCons(s[..i], Split(rest));
      AtNewline(s, i);
    }
  }

  ghost predicate AllNoNewline(ls: seq<string>) {
    forall i :: 0 <= i < |ls| ==> NoNewline(ls[i])
  }

  lemma {:induction false} SplitJoin(ls: seq<string>)
    requires |ls| >= 1 && AllNoNewline(ls)
    ensures Split(Join(ls)) == ls
  {
    if |ls| == 1 {
      NoNewlineSplit(ls[0]);
    } else {
      var first, rest := ls[0], Join(ls[1..]);
      var s := first + "\n" + rest;
      assert s[..|first|] == first && s[|first|] == '\n' && s[|first| + 1..] == rest;
      assert forall j :: 0 <= j < |first| ==> s[j] == first[j];
      assert Find(s) == |first|;
      SplitJoin(ls[1..]);
    }
  }

  lemma {:induction false} SplitNoNewline(s: string)
    ensures AllNoNewline(Split(s))
    decreases |s|
  {
    if Find(s) < |s| {
      SplitNoNewline(s[Find(s) + 1..]);
      assert Split(s) == [s[..Find(s)]] + Split(s[Find(s) + 1..]);
    }
  }
}
