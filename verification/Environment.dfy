/** The environment of a child process, and how lists of values are written into it and read back. */
module Environment {

  // ---------------------------------------------------------------- lists

  /** The values with one space between them. */
  function Joined(values: seq<string>): string {
    if values == [] then ""
    else if |values| == 1 then values[0]
    else Joined(values[..|values| - 1]) + " " + values[|values| - 1]
  }

  /** What set_list makes of a list. Without a value there is no '=' either. */
  function ListEntry(variable: string, values: seq<string>): string {
    if values == [] then variable else variable + "=" + Joined(values)
  }

  /** Splitting at every space, as a script does that reads the list. */
  function SplitSpaces(s: string): (r: seq<string>)
    ensures r != []
  {
    if s == "" then [""]
    else
      var init := SplitSpaces(s[..|s| - 1]);
      var c := s[|s| - 1];
      if c == ' ' then init + [""] else init[|init| - 1 := init[|init| - 1] + [c]]
  }

  predicate NoSpace(s: string) {
    forall i :: 0 <= i < |s| ==> s[i] != ' '
  }

  lemma {:induction false} SplitAppend(s: string, v: string)
    requires NoSpace(v)
    ensures SplitSpaces(s + v) == var r := SplitSpaces(s); r[|r| - 1 := r[|r| - 1] + v]
    decreases |v|
  {
    if v == "" {
      assert s + v == s;
      var r := SplitSpaces(s);
      assert r[|r| - 1] + v == r[|r| - 1];
    } else {
      var init := v[..|v| - 1];
      assert (s + v)[..|s + v| - 1] == s + init;
      SplitAppend(s, init);
      assert v == init + [v[|v| - 1]];
      var r := SplitSpaces(s);
      assert (r[|r| - 1] + init) + [v[|v| - 1]] == r[|r| - 1] + v;
    }
  }

  lemma SplitOne(v: string)
    requires NoSpace(v)
    ensures SplitSpaces(v) == [v]
  {
    SplitAppend("", v);
    assert "" + v == v;
  }

  lemma SplitLast(s: string, v: string)
    requires NoSpace(v)
    ensures SplitSpaces(s + " " + v) == SplitSpaces(s) + [v]
  {
    assert (s + " ")[..|s|] == s;
    SplitAppend(s + " ", v);
    assert "" + v == v;
  }

  lemma {:induction false} PiecesHaveNoSpace(s: string)
    ensures forall v :: v in SplitSpaces(s) ==> NoSpace(v)
  {
    if s == "" {
    } else {
      var init := SplitSpaces(s[..|s| - 1]);
      PiecesHaveNoSpace(s[..|s| - 1]);
      assert forall k :: 0 <= k < |init| ==> init[k] in init;
    }
  }

  lemma {:induction false} SplitJoined(values: seq<string>)
    requires values != [] && forall v :: v in values ==> NoSpace(v)
    ensures SplitSpaces(Joined(values)) == values
  {
    var n := |values| - 1;
    if n == 0 {
      SplitOne(values[0]);
    } else {
      SplitJoined(values[..n]);
      SplitLast(Joined(values[..n]), values[n]);
      assert values == values[..n] + [values[n]];
    }
  }

  /**
   A list that is not empty can be read back from the entry if and only if no value contains a
   space. For job names this is not checked anywhere.
   */
  lemma ListReadableIff(values: seq<string>)
    requires values != []
    ensures SplitSpaces(Joined(values)) == values <==> forall v :: v in values ==> NoSpace(v)
  {
    if forall v :: v in values ==> NoSpace(v) {
      SplitJoined(values);
    } else {
      PiecesHaveNoSpace(Joined(values));
    }
  }

  /** The values in an entry VAR=value value ... for a variable of the given length. */
  function ReadList(variable: string, entry: string): seq<string> {
    if |entry| <= |variable| then [] else SplitSpaces(entry[|variable| + 1..])
  }

  /** An empty list leaves the bare variable. */
  lemma EmptyListEntry(variable: string)
    ensures ListEntry(variable, []) == variable
  {
  }

  /** What follows VAR= in the entry of a list that is not empty; it is never VAR alone. */
  lemma ReadListEntry(variable: string, values: seq<string>)
    requires values != []
    ensures variable + "=" <= ListEntry(variable, values) && ListEntry(variable, values) != variable
    ensures ReadList(variable, ListEntry(variable, values)) == SplitSpaces(Joined(values))
  {
    var entry := ListEntry(variable, values);
    assert entry == (variable + "=") + Joined(values);
    assert entry[|variable| + 1..] == Joined(values);
  }

  /** Two jobs, of which one has a space in its name, read back as three. */
  lemma SpacedNamesMixUp()
    ensures SplitSpaces(Joined(["build app", "test"])) == ["build", "app", "test"]
  {
    var values := ["build app", "test"];
    assert values[..1] == ["build app"] && ["build app"][..0] == [];
    assert Joined(["build app"]) == "build app";
    assert Joined(values) == Joined(["build app"]) + " " + "test" == "build app test";
    assert SplitSpaces("build app test") == ["build", "app", "test"] by {
      assert Joined(["build", "app", "test"]) == "build app test" by {
        assert ["build", "app", "test"][..2] == ["build", "app"] && ["build", "app"][..1] == ["build"];
        assert ["build"][..0] == [] && Joined(["build"]) == "build" && Joined(["build", "app"]) == "build app";
      }
      SplitJoined(["build", "app", "test"]);
    }
  }

  // ---------------------------------------------------------------- numbers

  /** std::to_string of an unsigned number. */
  function Decimal(n: nat): (s: string)
    ensures s != ""
  {
    if n < 10 then [Digit(n)] else Decimal(n / 10) + [Digit(n % 10)]
  }

  function Digit(d: nat): char
    requires d < 10
  {
    '0' + (d as char)
  }

  function Value(s: string): nat {
    if s == "" then 0
    else 10 * Value(s[..|s| - 1]) + if '0' <= s[|s| - 1] <= '9' then (s[|s| - 1] - '0') as nat else 0
  }

  lemma {:induction false} DecimalValue(n: nat)
    ensures Value(Decimal(n)) == n && NoSpace(Decimal(n))
  {
    var s := Decimal(n);
    if n < 10 {
      assert s[..0] == "";
    } else {
      DecimalValue(n / 10);
      assert s[..|s| - 1] == Decimal(n / 10);
      assert s[|s| - 1] == Digit(n % 10);
    }
  }

  /** s is the decimal notation of n: digits only, no leading zero, and the value n. */
  predicate IsDecimal(s: string, n: nat) {
    && s != "" && (forall i :: 0 <= i < |s| ==> '0' <= s[i] <= '9')
    && (|s| > 1 ==> s[0] != '0') && Value(s) == n
  }

  lemma {:induction false} DecimalIs(n: nat)
    ensures IsDecimal(Decimal(n), n)
  {
    DecimalValue(n);
    if n < 10 {
    } else {
      DecimalIs(n / 10);
      if n / 10 < 10 {
        assert Decimal(n)[0] == Digit(n / 10);
      }
    }
  }

  function Decimals(ids: seq<nat>): seq<string> {
    seq(|ids|, i requires 0 <= i < |ids| => Decimal(ids[i]))
  }

  function Values(s: seq<string>): seq<nat> {
    seq(|s|, i requires 0 <= i < |s| => Value(s[i]))
  }

  function ReadIds(variable: string, entry: string): seq<nat> {
    Values(ReadList(variable, entry))
  }

  /** Numbers always survive: what set_list writes for them reads back as the very same numbers. */
  lemma IdsReadBack(variable: string, ids: seq<nat>)
    requires ids != []
    ensures ReadIds(variable, ListEntry(variable, Decimals(ids))) == ids
  {
    ReadListEntry(variable, Decimals(ids));
    forall v | v in Decimals(ids) ensures NoSpace(v) {
      var i :| 0 <= i < |ids| && v == Decimal(ids[i]);
      DecimalValue(ids[i]);
    }
    SplitJoined(Decimals(ids));
    forall i | 0 <= i < |ids| ensures Value(Decimal(ids[i])) == ids[i] {
      DecimalValue(ids[i]);
    }
  }

  // ---------------------------------------------------------------- process::environment

  function Setting(variable: string, value: string): string {
    variable + "=" + value
  }

  class Environment {
    var entries: seq<string>

    constructor ()
      ensures entries == []
    {
      entries := [];
    }

    method Set(entry: string)
      modifies this
      ensures entries == old(entries) + [entry]
    {
      entries := entries + [entry];
    }

    method SetVariable(variable: string, value: string)
      modifies this
      ensures entries == old(entries) + [Setting(variable, value)]
    {
      var entry := variable;
      entry := entry + ['='];
      entry := entry + value;
      entries := entries + [entry];
    }

    /** set_list: the separator is '=' before the first value and a space before every other one. */
    method SetList(variable: string, values: seq<string>)
      modifies this
      ensures entries == old(entries) + [ListEntry(variable, values)]
    {
      var entry := variable;
      var sep := '=';
      for i := 0 to |values|
        invariant entry == ListEntry(variable, values[..i])
        invariant sep == if i == 0 then '=' else ' '
        invariant entries == old(entries)
      {
        assert values[..i + 1][..i] == values[..i];
        assert variable + "=" + Joined(values[..i]) + " " + values[i] ==
               variable + "=" + (Joined(values[..i]) + " " + values[i]);
        entry := entry + [sep];
        entry := entry + values[i];
        sep := ' ';
      }
      assert values[..|values|] == values;
      entries := entries + [entry];
    }
  }
}
