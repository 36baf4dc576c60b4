/** The random name picker page: the parser for the pasted name list and the
    session state (the pool `names_list` and the `history` of drawn names)
    with the three transitions its buttons trigger. */
module NamePicker {
  import opened Lists
  import opened Strings
  import opened Sampling

  /** A name as the picker stores it: not blank, no surrounding whitespace. */
  predicate IsName(s: string) {
    s != [] && IsTrimmed(s)
  }

  predicate AllNames(names: seq<string>) {
    forall x :: x in names ==> IsName(x)
  }

  /** Strips every line and drops the ones left blank. */
  function CleanLines(lines: seq<string>): (r: seq<string>)
    ensures |r| <= |lines|
    ensures AllNames(r)
  {
    if lines == [] then []
    else
      var name := Strip(lines[0]);
      (if name != [] then [name] else []) + CleanLines(lines[1..])
  }

  /** The names pasted into the text area: one per line, stripped, blank lines
      ignored. */
  function ParseNames(text: string): (names: seq<string>)
    ensures AllNames(names)
    ensures |names| <= |SplitLines(text)|
  {
    CleanLines(SplitLines(text))
  }

  /** A single line contributes its stripped text, or nothing when blank. */
  lemma CleanOneLine(line: string)
    ensures CleanLines([line]) == if AllSpace(line) then [] else [Strip(line)]
  {
    StripBlank(line);
    assert [line][1..] == [];
  }

  /** Cleaning works line by line: the names of `a` come first, then those of
      `b`, so the order of the non-blank lines is kept and each contributes
      exactly one name. */
  lemma {:induction false} CleanLinesAppend(a: seq<string>, b: seq<string>)
    ensures CleanLines(a + b) == CleanLines(a) + CleanLines(b)
  {
    if a != [] {
      CleanLinesAppend(a[1..], b);
      assert (a + b)[0] == a[0] && (a + b)[1..] == a[1..] + b;
    } else {
      assert a + b == b;
    }
  }

  /** The number of lines that are not all whitespace. */
  function NonBlankCount(lines: seq<string>): nat {
    if lines == [] then 0
    else (if AllSpace(lines[0]) then 0 else 1) + NonBlankCount(lines[1..])
  }

  /** Cleaning yields exactly one name per non-blank line. */
  lemma {:induction false} CleanLinesCount(lines: seq<string>)
    ensures |CleanLines(lines)| == NonBlankCount(lines)
  {
    if lines != [] {
      StripBlank(lines[0]);
      CleanLinesCount(lines[1..]);
    }
  }

  /** Cleaning drops everything exactly when every line is blank. */
  lemma {:induction false} CleanLinesEmpty(lines: seq<string>)
    ensures CleanLines(lines) == [] <==> forall k :: 0 <= k < |lines| ==> AllSpace(lines[k])
  {
    if lines != [] {
      CleanLinesEmpty(lines[1..]);
      StripBlank(lines[0]);
      if CleanLines(lines) == [] {
        forall k | 0 <= k < |lines| ensures AllSpace(lines[k]) {
          if k > 0 {
            assert lines[k] == lines[1..][k - 1];
          }
        }
      } else if AllSpace(lines[0]) {
        var k :| 0 <= k < |lines| - 1 && !AllSpace(lines[1..][k]);
        assert lines[k + 1] == lines[1..][k];
      }
    }
  }

  /** The parse is empty exactly for an empty or whitespace-only text. */
  lemma ParseNamesEmpty(text: string)
    ensures ParseNames(text) == [] <==> AllSpace(text)
  {
    JoinSplit(text);
    AllSpaceJoin(SplitLines(text));
    CleanLinesEmpty(SplitLines(text));
  }

  /** Names already stripped are returned unchanged by cleaning. */
  lemma {:induction false} CleanNames(names: seq<string>)
    requires forall k :: 0 <= k < |names| ==> IsName(names[k])
    ensures CleanLines(names) == names
  {
    if names != [] {
      StripTrimmed(names[0]);
      var tail := names[1..];
      assert forall k :: 0 <= k < |tail| ==> tail[k] == names[k + 1];
      CleanNames(tail);
      assert names == [names[0]] + tail;
    }
  }

  /** Parsing the names written one per line gives back exactly those names,
      in order: nothing is lost, added, merged or reordered. */
  lemma ParseJoinRoundTrip(names: seq<string>)
    requires forall k :: 0 <= k < |names| ==> IsName(names[k]) && '\n' !in names[k]
    ensures ParseNames(JoinLines(names)) == names
  {
    if names == [] {
      assert SplitLines("") == [""];
      CleanOneLine("");
    } else {
      SplitJoin(names);
      CleanNames(names);
    }
  }

  /** `list.remove` only ever takes names out of a list of names. */
  lemma RemoveFirstKeepsNames(names: seq<string>, x: string)
    requires AllNames(names) && x in names
    ensures AllNames(RemoveFirst(names, x))
  {
    var r := RemoveFirst(names, x);
    forall y | y in r ensures y in names {
      assert y in multiset(r);
    }
  }

  /** The page's session state. */
  class SessionState {
    /** The pool: names not drawn yet, in the order they were loaded. */
    var namesList: seq<string>
    /** The names drawn so far, oldest first. */
    var history: seq<string>

    /** Both lists only ever hold stripped, non-blank names. */
    ghost predicate Valid()
      reads this
    {
      AllNames(namesList) && AllNames(history)
    }

    /** A new session starts with both lists empty. */
    constructor ()
      ensures Valid()
      ensures namesList == [] && history == []
    {
      namesList := [];
      history := [];
    }

    /** The Load/Update button: a non-empty parse replaces the pool (it does
        not append to it); an empty parse changes nothing. `loaded` is the
        number of names the success message reports, 0 when the page warns
        instead. The history is never touched. */
    method LoadUpdate(inputText: string) returns (loaded: nat)
      requires Valid()
      modifies this
      ensures Valid()
      ensures loaded == |ParseNames(inputText)|
      ensures loaded > 0 ==> namesList == ParseNames(inputText)
      ensures loaded == 0 ==> namesList == old(namesList)
      ensures loaded == 0 <==> AllSpace(inputText)
      ensures history == old(history)
    {
      var newNames := ParseNames(inputText);
      ParseNamesEmpty(inputText);
      if newNames != [] {
        namesList := newNames;
      }
      loaded := |newNames|;
    }

    /** The Delete All button: both lists become empty, whatever they held. */
    method DeleteAll()
      modifies this
      ensures Valid()
      ensures namesList == [] && history == []
    {
      namesList := [];
      history := [];
    }

    /** The update loop of the Pick Randomly button: every selected name is
        removed from the pool with `list.remove`, which always finds it because
        the selection is part of the pool, and appended to the history. */
    method MoveToHistory(selected: seq<string>)
      requires Valid()
      requires multiset(selected) <= multiset(namesList)
      modifies this
      ensures Valid()
      ensures namesList == RemoveEach(old(namesList), selected)
      ensures history == old(history) + selected
    {
      ghost var pool := namesList;
      var rest := selected;
      while rest != []
        invariant multiset(rest) <= multiset(namesList)
        invariant RemoveEach(namesList, rest) == RemoveEach(pool, selected)
        invariant history + rest == old(history) + selected
        invariant Valid()
      {
        var name := rest[0];
        assert rest == [name] + rest[1..];
        assert name in multiset(namesList);
        assert (history + [name]) + rest[1..] == history + rest;
        RemoveFirstKeepsNames(namesList, name);
        namesList := RemoveFirst(namesList, name);
        history := history + [name];
        rest := rest[1..];
      }
    }

    /** The Pick Randomly button. It exists only while the pool is non-empty,
        and the number input bounds `numToPick` to 1..|pool|. The names come
        from `numToPick` distinct positions of the pool and move, in the order
        drawn, from the pool to the history: the pool shrinks by exactly that
        many, keeps the order of the names left, and no name is lost or made
        up across the two lists. */
    method PickRandomly(numToPick: nat) returns (selected: seq<string>, ghost positions: seq<nat>)
      requires Valid()
      requires namesList != [] ==> 1 <= numToPick <= |namesList|
      modifies this
      ensures Valid()
      ensures old(namesList) == [] ==>
        selected == [] && namesList == old(namesList) && history == old(history)
      ensures old(namesList) != [] ==>
        && IsSample(positions, numToPick, |old(namesList)|)
        && selected == Select(old(namesList), positions)
        && multiset(selected) <= multiset(old(namesList))
        && namesList == RemoveEach(old(namesList), selected)
        && history == old(history) + selected
      ensures |namesList| == |old(namesList)| - |selected|
      ensures IsSubsequence(namesList, old(namesList))
      ensures multiset(namesList) + multiset(history) == multiset(old(namesList)) + multiset(old(history))
    {
      selected, positions := [], [];
      if namesList != [] {
        selected, positions := Sample(namesList, numToPick);
        RemoveEachKeepsOrder(namesList, selected);
        RemoveEachCounts(namesList, selected);
        MoveToHistory(selected);
      } else {
        SubsequenceRefl(namesList);
      }
    }
  }
}
