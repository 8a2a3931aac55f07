/** cmd/rep/config/config.go: preloaded root filesystems, written as a list of "stack:path" strings.
    The JSON layer below (a list of strings and back) is taken as the identity. */
module StackMap {
  import opened Types

  type Stacks = map<string, string>

  datatype ParseError = NotStackAndPath | BlankStack | BlankPath

  /** strings.SplitN(s, ":", 2): None when there is no colon. */
  function Cut(s: string): (parts: Option<(string, string)>) {
    if s == "" then None
    else if s[0] == ':' then Some(("", s[1..]))
    else
      match Cut(s[1..])
      case None => None
      case Some((before, after)) => Some(([s[0]] + before, after))
  }

  function ParseEntry(s: string): (r: Result<(string, string), ParseError>) {
    match Cut(s)
    case None => Err(NotStackAndPath)
    case Some((stack, path)) =>
      if stack == "" then Err(BlankStack)
      else if path == "" then Err(BlankPath)
      else Ok((stack, path))
  }

  /** A later entry for a stack replaces an earlier one; the first bad entry ends the walk. */
  function Parse(entries: seq<string>): (r: Result<Stacks, ParseError>) {
    if entries == [] then Ok(map[])
    else
      match Parse(entries[..|entries| - 1])
      case Err(e) => Err(e)
      case Ok(m) =>
        match ParseEntry(entries[|entries| - 1])
        case Err(e) => Err(e)
        case Ok((stack, path)) => Ok(m[stack := path])
  }

  function Entry(stack: string, path: string): (s: string) { stack + ":" + path }

  /** UnmarshalJSON. On an error the receiver keeps the entries read so far. */
  method Unmarshal(entries: seq<string>) returns (m: Stacks, err: Option<ParseError>)
    ensures match Parse(entries)
            case Ok(stacks) => err == None && m == stacks
            case Err(e) => err == Some(e)
    ensures exists i :: 0 <= i <= |entries| && Parse(entries[..i]) == Ok(m)
  {
    m := map[];
    err := None;
    for i := 0 to |entries|
      invariant Parse(entries[..i]) == Ok(m)
    {
      assert entries[..i + 1][..i] == entries[..i] && entries[..i + 1][i] == entries[i];
      var parts := Cut(entries[i]);
      if parts.None? {
        BadEntry(entries, i, NotStackAndPath);
        return m, Some(NotStackAndPath);
      }
      if parts.value.0 == "" {
        BadEntry(entries, i, BlankStack);
        return m, Some(BlankStack);
      }
      if parts.value.1 == "" {
        BadEntry(entries, i, BlankPath);
        return m, Some(BlankPath);
      }
      m := m[parts.value.0 := parts.value.1];
    }
    assert entries[..|entries|] == entries;
  }

  /** The first bad entry decides the outcome of the whole list. */
  lemma {:induction false} BadEntry(entries: seq<string>, i: nat, e: ParseError)
    requires i < |entries| && Parse(entries[..i]).Ok? && ParseEntry(entries[i]) == Err(e)
    ensures Parse(entries) == Err(e)
  {
    var n := |entries| - 1;
    if i < n {
      assert entries[..n][..i] == entries[..i];
      BadEntry(entries[..n], i, e);
    }
  }

  /** MarshalJSON, walking the map in any order. */
  method Marshal(m: Stacks) returns (entries: seq<string>, ghost order: seq<string>)
    ensures Enumerates(order, m) && entries == Entries(m, order)
  {
    entries, order := [], [];
    var todo := m.Keys;
    while todo != {}
      invariant todo <= m.Keys
      invariant forall k :: k in order <==> k in m.Keys && k !in todo
      invariant forall i, j :: 0 <= i < j < |order| ==> order[i] != order[j]
      invariant entries == Entries(m, order)
      decreases todo
    {
      var k :| k in todo;
      todo := todo - {k};
      entries := entries + [k + ":" + m[k]];
      assert (order + [k])[..|order|] == order;
      order := order + [k];
    }
  }

  /** `order` lists each key of `m` once. */
  ghost predicate Enumerates(order: seq<string>, m: Stacks) {
    && (forall k :: k in order <==> k in m)
    && (forall i, j :: 0 <= i < j < |order| ==> order[i] != order[j])
  }

  function Entries(m: Stacks, order: seq<string>): (entries: seq<string>)
    requires forall k :: k in order ==> k in m
  {
    if order == [] then []
    else
      var k := order[|order| - 1];
      Entries(m, order[..|order| - 1]) + [Entry(k, m[k])]
  }

  predicate WellFormedPair(stack: string, path: string) {
    stack != "" && ':' !in stack && path != ""
  }

  predicate WellFormed(m: Stacks) {
    forall k :: k in m ==> WellFormedPair(k, m[k])
  }

  // ---------------------------------------------------------------- one entry

  lemma {:induction false} CutJoins(s: string)
    ensures match Cut(s)
            case None => ':' !in s
            case Some((before, after)) => s == before + ":" + after && ':' !in before
  {
    if s != "" && s[0] != ':' {
      CutJoins(s[1..]);
      assert s == [s[0]] + s[1..];
    } else if s != "" {
      assert s == "" + ":" + s[1..];
    }
  }

  lemma {:induction false} CutOfEntry(stack: string, path: string)
    requires ':' !in stack
    ensures Cut(Entry(stack, path)) == Some((stack, path))
  {
    var s := Entry(stack, path);
    if stack == "" {
      assert s[1..] == path;
    } else {
      assert s[1..] == Entry(stack[1..], path);
      CutOfEntry(stack[1..], path);
      assert [stack[0]] + stack[1..] == stack;
    }
  }

  /** An entry parses back to its pair if and only if the pair is well formed. */
  lemma EntryRoundTripIff(stack: string, path: string)
    ensures ParseEntry(Entry(stack, path)) == Ok((stack, path)) <==> WellFormedPair(stack, path)
  {
    if ':' !in stack {
      CutOfEntry(stack, path);
    } else {
      CutJoins(Entry(stack, path));
    }
  }

  /** Which entries are refused, and as what. */
  lemma EntryErrors(s: string)
    ensures ParseEntry(s) == Err(NotStackAndPath) <==> ':' !in s
    ensures ParseEntry(s) == Err(BlankStack) <==> s != "" && s[0] == ':'
    ensures ParseEntry(s) == Err(BlankPath) <==> |s| >= 2 && s[|s| - 1] == ':' && ':' !in s[..|s| - 1]
  {
    CutJoins(s);
    if s != "" && s[|s| - 1] == ':' && ':' !in s[..|s| - 1] {
      assert s == Entry(s[..|s| - 1], "");
      CutOfEntry(s[..|s| - 1], "");
    }
  }

  lemma ParsedPairsWellFormed(s: string)
    requires ParseEntry(s).Ok?
    ensures WellFormedPair(ParseEntry(s).value.0, ParseEntry(s).value.1)
  {
    CutJoins(s);
  }

  // ---------------------------------------------------------------- whole maps

  /** Everything Unmarshal accepts is well formed. */
  lemma {:induction false} ParsedIsWellFormed(entries: seq<string>)
    requires Parse(entries).Ok?
    ensures WellFormed(Parse(entries).value)
  {
    if entries != [] {
      var n := |entries| - 1;
      ParsedIsWellFormed(entries[..n]);
      ParsedPairsWellFormed(entries[n]);
    }
  }

  /** For a stack named more than once the last entry counts. */
  lemma {:induction false} LastEntryWins(entries: seq<string>, stack: string) returns (i: nat)
    requires Parse(entries).Ok? && stack in Parse(entries).value
    ensures i < |entries| && entries[i] == Entry(stack, Parse(entries).value[stack])
    ensures forall j :: i < j < |entries| ==> !(Entry(stack, "") <= entries[j])
  {
    var n := |entries| - 1;
    CutJoins(entries[n]);
    if ParseEntry(entries[n]).value.0 == stack {
      i := n;
    } else {
      i := LastEntryWins(entries[..n], stack);
      ParsedIsWellFormed(entries);
      OtherStack(entries[n], stack);
      assert forall j :: i < j < n ==> entries[..n][j] == entries[j];
    }
  }

  /** An entry of one stack does not start like an entry of another. */
  lemma OtherStack(s: string, stack: string)
    requires ParseEntry(s).Ok? && ParseEntry(s).value.0 != stack && ':' !in stack
    ensures !(Entry(stack, "") <= s)
  {
    if Entry(stack, "") <= s {
      assert s == Entry(stack, s[|stack| + 1..]);
      CutOfEntry(stack, s[|stack| + 1..]);
      assert false;
    }
  }

  function Restrict(m: Stacks, order: seq<string>): (r: Stacks)
    requires forall k :: k in order ==> k in m
  {
    map k | k in order :: m[k]
  }

  lemma {:induction false} ParseOfEntries(m: Stacks, order: seq<string>)
    requires (forall k :: k in order ==> k in m) && WellFormed(m)
    ensures Parse(Entries(m, order)) == Ok(Restrict(m, order))
  {
    if order == [] {
      assert Restrict(m, order) == map[];
    } else {
      var n := |order| - 1;
      var k, front := order[n], order[..n];
      ParseOfEntries(m, front);
      EntryRoundTripIff(k, m[k]);
      assert Entries(m, order)[..n] == Entries(m, front) by { EntriesLength(m, front); }
      EntriesLength(m, order);
      assert order == front + [k];
      assert Restrict(m, order) == Restrict(m, front)[k := m[k]];
    }
  }

  lemma {:induction false} EntriesLength(m: Stacks, order: seq<string>)
    requires forall k :: k in order ==> k in m
    ensures |Entries(m, order)| == |order|
  {
    if order != [] {
      EntriesLength(m, order[..|order| - 1]);
    }
  }

  /** Whatever order a map is walked in, reading back what was written yields the map if and only
      if its stacks are non-empty and colon-free and its paths non-empty. */
  lemma RoundTripIff(m: Stacks, order: seq<string>)
    requires Enumerates(order, m)
    ensures Parse(Entries(m, order)) == Ok(m) <==> WellFormed(m)
  {
    if WellFormed(m) {
      ParseOfEntries(m, order);
      assert Restrict(m, order) == m;
    } else if Parse(Entries(m, order)) == Ok(m) {
      ParsedIsWellFormed(Entries(m, order));
    }
  }

  /** So writing and reading back is the identity on everything that was ever read. */
  lemma RoundTripOnRange(entries: seq<string>, order: seq<string>)
    requires Parse(entries).Ok? && Enumerates(order, Parse(entries).value)
    ensures Parse(Entries(Parse(entries).value, order)) == Parse(entries)
  {
    ParsedIsWellFormed(entries);
    RoundTripIff(Parse(entries).value, order);
  }
}
