/** Trimming a configured command and splitting it into the program and its arguments. */
module CommandLine {

  /** What std::isspace accepts in the C locale. */
  predicate IsSpace(c: char) {
    c == ' ' || ('\U{0009}' <= c <= '\U{000D}')
  }

  /** What split_command separates arguments at. */
  predicate IsSeparator(c: char) {
    c == ' ' || c == '\t'
  }

  // ---------------------------------------------------------------- trimmed

  /** The characters that are white space. */
  ghost predicate White(c: char) {
    c == ' ' || c == '\t' || c == '\n' || c == '\r' || c == '\U{000B}' || c == '\U{000C}'
  }

  lemma SpaceIff(c: char)
    ensures IsSpace(c) <==> White(c)
  {
  }

  ghost predicate AllSpace(s: string) {
    forall i :: 0 <= i < |s| ==> White(s[i])
  }

  /** r is what remains of s when the whitespace at both ends is taken off, and only that. */
  ghost predicate IsTrimmed(s: string, r: string) {
    && (r != "" ==> !White(r[0]) && !White(r[|r| - 1]))
    && exists i, j :: 0 <= i <= j <= |s| && r == s[i..j] && AllSpace(s[..i]) && AllSpace(s[j..])
  }

  /** Two neighbouring slices of spaces make one. */
  lemma AllSpaceSlice(s: string, i: nat, j: nat, k: nat)
    requires i <= j <= k <= |s|
    ensures AllSpace(s[i..k]) <==> AllSpace(s[i..j]) && AllSpace(s[j..k])
  {
    var all := s[i..k];
    assert forall n :: 0 <= n < j - i ==> s[i..j][n] == all[n];
    assert forall n :: 0 <= n < k - j ==> s[j..k][n] == all[j - i + n];
    assert forall n :: j - i <= n < k - i ==> all[n] == s[j..k][n - (j - i)];
  }

  method Trimmed(s: string) returns (r: string)
    ensures IsTrimmed(s, r)
  {
    r := s;
    ghost var i := 0;
    while r != "" && IsSpace(r[0])
      invariant i <= |s| && r == s[i..] && AllSpace(s[..i])
      decreases |r|
    {
      SpaceIff(r[0]);
      assert r[0] == s[i] && s[i..][1..] == s[i + 1..];
      AllSpaceSlice(s, 0, i, i + 1);
      r := r[1..];
      i := i + 1;
    }
    ghost var j := |s|;
    if r != "" {
      SpaceIff(r[0]);
    }
    while r != "" && IsSpace(r[|r| - 1])
      invariant i <= j <= |s| && r == s[i..j] && AllSpace(s[j..])
      invariant r != "" ==> !White(r[0])
      decreases |r|
    {
      SpaceIff(r[|r| - 1]);
      assert r[|r| - 1] == s[j - 1] && s[i..j][..j - 1 - i] == s[i..j - 1];
      AllSpaceSlice(s, j - 1, j, |s|);
      r := r[..|r| - 1];
      j := j - 1;
    }
    if r != "" {
      SpaceIff(r[|r| - 1]);
    }
  }

  /** Trimming is a matter of the string alone: there is only one trimmed string. */
  lemma TrimmedUnique(s: string, r: string, q: string)
    requires IsTrimmed(s, r) && IsTrimmed(s, q)
    ensures r == q
  {
    var i, j :| 0 <= i <= j <= |s| && r == s[i..j] && AllSpace(s[..i]) && AllSpace(s[j..]);
    var k, l :| 0 <= k <= l <= |s| && q == s[k..l] && AllSpace(s[..k]) && AllSpace(s[l..]);
    TrimmedEnds(s, r, i, j);
    TrimmedEnds(s, q, k, l);
    TrimmedSame(s, i, j, k, l);
  }

  lemma TrimmedEnds(s: string, r: string, i: nat, j: nat)
    requires i <= j <= |s| && r == s[i..j]
    requires r != "" ==> !White(r[0]) && !White(r[|r| - 1])
    ensures i < j ==> !White(s[i]) && !White(s[j - 1])
  {
    if i < j {
      SpaceIff(r[0]);
      assert r[0] == s[i] && r[|r| - 1] == s[j - 1];
    }
  }

  lemma TrimmedSame(s: string, i: nat, j: nat, k: nat, l: nat)
    requires i <= j <= |s| && k <= l <= |s|
    requires AllSpace(s[..i]) && AllSpace(s[j..]) && AllSpace(s[..k]) && AllSpace(s[l..])
    requires i < j ==> !White(s[i]) && !White(s[j - 1])
    requires k < l ==> !White(s[k]) && !White(s[l - 1])
    ensures s[i..j] == s[k..l]
  {
    TrimmedWithin(s, i, j, k, l);
    TrimmedWithin(s, k, l, i, j);
  }

  lemma TrimmedWithin(s: string, i: nat, j: nat, k: nat, l: nat)
    requires i <= j <= |s| && k <= l <= |s|
    requires AllSpace(s[..k]) && AllSpace(s[l..])
    requires i < j ==> !White(s[i]) && !White(s[j - 1])
    ensures i < j ==> k <= i && j <= l
  {
    assert forall n :: 0 <= n < k ==> s[..k][n] == s[n];
    assert forall n :: l <= n < |s| ==> s[l..][n - l] == s[n];
    assert forall n :: 0 <= n < k ==> White(s[n]);
    assert forall n :: l <= n < |s| ==> White(s[n]);
  }

  // ---------------------------------------------------------------- tokens

  /** The first position from i on that is no separator, or the end: find_first_not_of. */
  function SkipSeparators(s: string, i: nat): (k: nat)
    requires i <= |s|
    ensures i <= k <= |s|
    ensures forall n :: i <= n < k ==> IsSeparator(s[n])
    ensures k < |s| ==> !IsSeparator(s[k])
    decreases |s| - i
  {
    if i == |s| || !IsSeparator(s[i]) then i else SkipSeparators(s, i + 1)
  }

  /** The first separator from i on, or the end: find_first_of. */
  function SkipRun(s: string, i: nat): (k: nat)
    requires i <= |s|
    ensures i <= k <= |s|
    ensures forall n :: i <= n < k ==> !IsSeparator(s[n])
    ensures k < |s| ==> IsSeparator(s[k])
    decreases |s| - i
  {
    if i == |s| || IsSeparator(s[i]) then i else SkipRun(s, i + 1)
  }

  datatype Span = Span(start: nat, end: nat)

  /** The tokens from position i on, and where they are. */
  function TokensFrom(s: string, i: nat): seq<string>
    requires i <= |s|
    decreases |s| - i
  {
    var b := SkipSeparators(s, i);
    if b == |s| then [] else [s[b..SkipRun(s, b)]] + TokensFrom(s, SkipRun(s, b))
  }

  function Spans(s: string, i: nat): seq<Span>
    requires i <= |s|
    decreases |s| - i
  {
    var b := SkipSeparators(s, i);
    if b == |s| then [] else [Span(b, SkipRun(s, b))] + Spans(s, SkipRun(s, b))
  }

  function Tokens(s: string): seq<string> {
    TokensFrom(s, 0)
  }

  /** A run of characters that are no separators, and that cannot be made longer. */
  ghost predicate MaximalRun(s: string, r: Span) {
    && r.start < r.end <= |s|
    && (forall i :: r.start <= i < r.end ==> s[i] != ' ' && s[i] != '\t')
    && (r.start > 0 ==> s[r.start - 1] == ' ' || s[r.start - 1] == '\t')
    && (r.end < |s| ==> s[r.end] == ' ' || s[r.end] == '\t')
  }

  lemma {:induction false} SpansOfTokens(s: string, i: nat)
    requires i <= |s|
    ensures |Spans(s, i)| == |TokensFrom(s, i)|
    ensures forall k :: 0 <= k < |Spans(s, i)| ==>
      var r := Spans(s, i)[k]; i <= r.start <= r.end <= |s| && TokensFrom(s, i)[k] == s[r.start..r.end]
    decreases |s| - i
  {
    var b := SkipSeparators(s, i);
    if b == |s| {
    } else {
      SpansOfTokens(s, SkipRun(s, b));
    }
  }

  /** The first run from i on: every other one that does not start before i lies behind it. */
  lemma FirstRun(s: string, i: nat, r: Span)
    requires i <= r.start && MaximalRun(s, r)
    ensures var b := SkipSeparators(s, i);
      b < |s| && (r == Span(b, SkipRun(s, b)) || SkipRun(s, b) <= r.start)
  {
    var b := SkipSeparators(s, i);
    assert !IsSeparator(s[r.start]);
    assert b <= r.start;
    assert forall n :: b <= n < SkipRun(s, b) ==> !IsSeparator(s[n]);
  }

  lemma NoRunLeft(s: string, i: nat, r: Span)
    requires i <= r.start && i <= |s| && SkipSeparators(s, i) == |s|
    ensures !MaximalRun(s, r)
  {
    if r.start < |s| {
      assert IsSeparator(s[r.start]);
    }
  }

  lemma {:induction false} SpansAreRuns(s: string, i: nat)
    requires i <= |s| && (0 < i < |s| ==> IsSeparator(s[i]))
    ensures forall r :: r in Spans(s, i) ==> i <= r.start && MaximalRun(s, r)
    ensures forall r: Span :: i <= r.start && MaximalRun(s, r) ==> r in Spans(s, i)
    decreases |s| - i
  {
    var b := SkipSeparators(s, i);
    if b == |s| {
      forall r: Span | i <= r.start ensures !MaximalRun(s, r) {
        NoRunLeft(s, i, r);
      }
    } else {
      var e := SkipRun(s, b);
      SpansAreRuns(s, e);
      assert Spans(s, i) == [Span(b, e)] + Spans(s, e);
      forall r: Span | i <= r.start && MaximalRun(s, r) ensures r in Spans(s, i) {
        FirstRun(s, i, r);
      }
    }
  }

  lemma {:induction false} SpansAscend(s: string, i: nat)
    requires i <= |s| && (0 < i < |s| ==> IsSeparator(s[i]))
    ensures forall k, l :: 0 <= k < l < |Spans(s, i)| ==> Spans(s, i)[k].end < Spans(s, i)[l].start
    decreases |s| - i
  {
    var b := SkipSeparators(s, i);
    if b == |s| {
    } else {
      var e := SkipRun(s, b);
      SpansAscend(s, e);
      SpansAreRuns(s, e);
      forall l | 0 <= l < |Spans(s, e)| ensures e < Spans(s, e)[l].start {
        assert Spans(s, e)[l] in Spans(s, e);
      }
    }
  }

  /**
   The tokens of a string are exactly its maximal runs of characters other than space and tab, from
   left to right.
   */
  lemma TokensAreMaximalRuns(s: string)
    ensures |Tokens(s)| == |Spans(s, 0)|
    ensures forall k :: 0 <= k < |Spans(s, 0)| ==>
      var r := Spans(s, 0)[k]; r.start <= r.end <= |s| && Tokens(s)[k] == s[r.start..r.end]
    ensures forall k, l :: 0 <= k < l < |Spans(s, 0)| ==> Spans(s, 0)[k].end < Spans(s, 0)[l].start
    ensures forall r :: MaximalRun(s, r) <==> r in Spans(s, 0)
  {
    SpansOfTokens(s, 0);
    SpansAreRuns(s, 0);
    SpansAscend(s, 0);
  }

  // ---------------------------------------------------------------- split and join

  ghost predicate IsToken(t: string) {
    t != "" && forall i :: 0 <= i < |t| ==> t[i] != ' ' && t[i] != '\t'
  }

  function JoinTokens(tokens: seq<string>): string {
    if tokens == [] then ""
    else if |tokens| == 1 then tokens[0]
    else tokens[0] + " " + JoinTokens(tokens[1..])
  }

  /** u from position j on is s from position i on. */
  ghost predicate Agree(u: string, j: nat, s: string, i: nat) {
    j <= |u| && i <= |s| && u[j..] == s[i..]
  }

  /** Agreeing strings agree in the next character and from there on. */
  lemma AgreeNext(u: string, j: nat, s: string, i: nat)
    requires Agree(u, j, s, i)
    ensures |u| - j == |s| - i
    ensures j < |u| ==> u[j] == s[i] && Agree(u, j + 1, s, i + 1)
  {
    if j < |u| {
      assert u[j] == u[j..][0] && s[i] == s[i..][0];
      assert u[j + 1..] == u[j..][1..] && s[i + 1..] == s[i..][1..];
    }
  }

  lemma {:induction false} SeparatorsAgree(u: string, j: nat, s: string, i: nat)
    requires Agree(u, j, s, i)
    ensures Agree(u, SkipSeparators(u, j), s, SkipSeparators(s, i))
    decreases |s| - i
  {
    AgreeNext(u, j, s, i);
    if i == |s| || !IsSeparator(s[i]) {
    } else {
      SeparatorsAgree(u, j + 1, s, i + 1);
    }
  }

  lemma {:induction false} RunsAgree(u: string, j: nat, s: string, i: nat)
    requires Agree(u, j, s, i)
    ensures Agree(u, SkipRun(u, j), s, SkipRun(s, i))
    ensures u[j..SkipRun(u, j)] == s[i..SkipRun(s, i)]
    decreases |s| - i
  {
    AgreeNext(u, j, s, i);
    if i == |s| || IsSeparator(s[i]) {
    } else {
      RunsAgree(u, j + 1, s, i + 1);
      assert u[j..SkipRun(u, j)] == [u[j]] + u[j + 1..SkipRun(u, j)];
      assert s[i..SkipRun(s, i)] == [s[i]] + s[i + 1..SkipRun(s, i)];
    }
  }

  lemma NoTokens(s: string, i: nat)
    requires i <= |s| && SkipSeparators(s, i) == |s|
    ensures TokensFrom(s, i) == []
  {
  }

  lemma FirstThenRest(s: string, i: nat, b: nat, e: nat)
    requires i <= |s| && b == SkipSeparators(s, i) < |s| && e == SkipRun(s, b)
    ensures b < e && TokensFrom(s, i) == [s[b..e]] + TokensFrom(s, e)
  {
  }

  /** What stands before the position from which tokens are read does not matter. */
  lemma {:induction false} AgreeTokens(u: string, j: nat, s: string, i: nat)
    requires Agree(u, j, s, i)
    ensures TokensFrom(u, j) == TokensFrom(s, i)
    decreases |s| - i
  {
    var c, b := SkipSeparators(u, j), SkipSeparators(s, i);
    SeparatorsAgree(u, j, s, i);
    AgreeNext(u, c, s, b);
    if b == |s| {
      NoTokens(s, i);
      NoTokens(u, j);
    } else {
      RunsAgree(u, c, s, b);
      FirstThenRest(s, i, b, SkipRun(s, b));
      FirstThenRest(u, j, c, SkipRun(u, c));
      AgreeTokens(u, SkipRun(u, c), s, SkipRun(s, b));
    }
  }

  lemma FirstToken(t: string, rest: string)
    requires IsToken(t) && (rest != "" ==> IsSeparator(rest[0]))
    ensures SkipRun(t + rest, 0) == |t| && Tokens(t + rest) == [t] + Tokens(rest)
  {
    var s := t + rest;
    assert s[0] == t[0];
    assert forall n :: 0 <= n < |t| ==> s[n] == t[n];
    assert rest != "" ==> s[|t|] == rest[0];
    assert s[0..|t|] == t;
    assert s[|t|..] == rest[0..];
    AgreeTokens(s, |t|, rest, 0);
  }

  lemma LaterTokens(t: string, rest: string)
    requires IsToken(t)
    ensures Tokens(t + " " + rest) == [t] + Tokens(rest)
  {
    assert t + " " + rest == t + (" " + rest);
    FirstToken(t, " " + rest);
    SpaceFirst(rest);
  }

  lemma SpaceFirst(rest: string)
    ensures Tokens(" " + rest) == Tokens(rest)
  {
    var s := " " + rest;
    assert s[1..] == rest[0..];
    AgreeTokens(s, 1, rest, 0);
    assert SkipSeparators(s, 0) == SkipSeparators(s, 1);
  }

  /** Splitting a joined list of tokens gives the list back. */
  lemma {:induction false} SplitJoin(tokens: seq<string>)
    requires forall t :: t in tokens ==> IsToken(t)
    ensures Tokens(JoinTokens(tokens)) == tokens
    decreases |tokens|
  {
    if tokens == [] {
    } else if |tokens| == 1 {
      FirstToken(tokens[0], "");
      assert tokens[0] + "" == tokens[0];
    } else {
      LaterTokens(tokens[0], JoinTokens(tokens[1..]));
      SplitJoin(tokens[1..]);
    }
  }

  lemma {:induction false} TokensAreTokens(s: string, i: nat)
    requires i <= |s|
    ensures forall t :: t in TokensFrom(s, i) ==> IsToken(t)
    decreases |s| - i
  {
    var b := SkipSeparators(s, i);
    if b == |s| {
    } else {
      TokensAreTokens(s, SkipRun(s, b));
    }
  }

  /** Normalising the whitespace of a command does not change how it is split. */
  lemma SplitJoinSplit(s: string)
    ensures Tokens(JoinTokens(Tokens(s))) == Tokens(s)
  {
    TokensAreTokens(s, 0);
    SplitJoin(Tokens(s));
  }

  // ---------------------------------------------------------------- split_command

  /** The program and the arguments, for any command. */
  function Executable(command: string): string {
    command[..SkipRun(command, 0)]
  }

  function Arguments(command: string): seq<string> {
    TokensFrom(command, SkipRun(command, 0))
  }

  /** For a trimmed command that is not empty, program and arguments are all its tokens. */
  lemma CommandTokens(s: string, command: string)
    requires IsTrimmed(s, command) && command != ""
    ensures IsToken(Executable(command))
    ensures [Executable(command)] + Arguments(command) == Tokens(command)
  {
    SpaceIff(command[0]);
    assert !IsSeparator(command[0]);
    assert SkipSeparators(command, 0) == 0;
    assert command[0..SkipRun(command, 0)] == Executable(command);
  }

  /** split_command. The view is kept as the position at which it starts. */
  method SplitCommand(command: string) returns (program: string, args: seq<string>)
    ensures program == Executable(command) && args == Arguments(command)
  {
    var space := SkipRun(command, 0);
    args := [];
    if space == |command| {
      return command, args;
    }
    program := command[..space];
    while true
      invariant space <= |command|
      invariant args + TokensFrom(command, space) == Arguments(command)
      invariant space < |command| ==> IsSeparator(command[space])
      decreases |command| - space
    {
      var view := SkipSeparators(command, space);
      if view == |command| {
        break;
      }
      space := SkipRun(command, view);
      args := args + [command[view..space]];
      if space == |command| {
        break;
      }
    }
  }
}
