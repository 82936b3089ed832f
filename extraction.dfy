/** Reading arguments out of a parsed token list and removing them from it
    (GetArgument and ReparseArguments, get_argument.h:141-233). */
module Extraction {
  import opened Scanner
  import opened Reconstructor
  import opened Tokenizer

  /** ts with the slots in [lo, hi) emptied; slots past the end of ts are
      ignored, so the length never changes. */
  function Cleared(ts: seq<string>, lo: nat, hi: nat): seq<string> {
    seq(|ts|, k requires 0 <= k < |ts| => if lo <= k < hi then [] else ts[k])
  }

  /** The first index in [i, n) whose token matches, if any. */
  function FirstFrom(ts: seq<string>, matches: string -> bool, n: nat, i: nat): (r: Option<nat>)
    requires i <= n <= |ts|
    ensures r.Some? ==>
      && i <= r.value < n && matches(ts[r.value])
      && forall k :: i <= k < r.value ==> !matches(ts[k])
    ensures r.None? ==> forall k :: i <= k < n ==> !matches(ts[k])
    decreases n - i
  {
    if i == n then None
    else if matches(ts[i]) then Some(i)
    else FirstFrom(ts, matches, n, i + 1)
  }

  /** The token a flag search stops at: the first one that matches. */
  function FirstMatch(ts: seq<string>, matches: string -> bool): (r: Option<nat>)
    ensures r.Some? ==>
      && r.value < |ts| && matches(ts[r.value])
      && forall k :: 0 <= k < r.value ==> !matches(ts[k])
    ensures r.None? ==> forall k :: 0 <= k < |ts| ==> !matches(ts[k])
  {
    FirstFrom(ts, matches, |ts|, 0)
  }

  /** The token a named-value search stops at: the first one that matches
      and has at least two tokens after it (the gap and the value). */
  function FirstNamed(ts: seq<string>, matches: string -> bool): (r: Option<nat>)
    ensures r.Some? ==>
      && r.value + 2 < |ts| && matches(ts[r.value])
      && forall k :: 0 <= k < r.value ==> !matches(ts[k])
    ensures r.None? ==> forall k :: 0 <= k < |ts| && k + 2 < |ts| ==> !matches(ts[k])
  {
    FirstFrom(ts, matches, if |ts| < 2 then 0 else |ts| - 2, 0)
  }

  /** A match with no room for a value after it is passed over: the named
      search stops exactly where a flag search would, provided that match has
      two successors, and it finds nothing when that match is too close to
      the end. */
  lemma NamedVersusFlag(ts: seq<string>, matches: string -> bool)
    ensures FirstMatch(ts, matches).Some? && FirstMatch(ts, matches).value + 2 < |ts|
            ==> FirstNamed(ts, matches) == FirstMatch(ts, matches)
    ensures FirstMatch(ts, matches).Some? && FirstMatch(ts, matches).value + 2 >= |ts|
            ==> FirstNamed(ts, matches).None?
    ensures FirstMatch(ts, matches).None? ==> FirstNamed(ts, matches).None?
  {
    var f, g := FirstMatch(ts, matches), FirstNamed(ts, matches);
    if f.Some? && g.Some? {
      assert !(f.value < g.value) && !(g.value < f.value);
    }
  }

  /** Emptying a block of tokens removes exactly that block's text from the
      collapsed line. */
  lemma CollapseCleared(ts: seq<string>, lo: nat, hi: nat)
    requires lo <= hi
    ensures lo <= |ts| ==>
      Collapse(Cleared(ts, lo, hi)) == Collapse(ts[..lo]) + Collapse(ts[if hi <= |ts| then hi else |ts|..])
  {
    if lo <= |ts| {
      var h := if hi <= |ts| then hi else |ts|;
      var c := Cleared(ts, lo, hi);
      var mid := c[lo..h];
      assert c[..lo] == ts[..lo];
      assert c[h..] == ts[h..];
      assert c == c[..lo] + mid + c[h..];
      assert forall k :: 0 <= k < |mid| ==> mid[k] == [];
      CollapseEmpties(mid);
      CollapseAppend(ts[..lo] + mid, ts[h..]);
      CollapseAppend(ts[..lo], mid);
    }
  }

  /** On a freshly parsed line, slot 2k is the k-th argument and slot 2k+1
      the separators after it, which is why the positional lookup doubles its
      index. */
  lemma PositionalSlots(s: string, k: nat)
    requires 2 * k < |Parse(s)|
    ensures var t := Parse(s)[2 * k]; t != [] && IsWordChar(t[|t| - 1])
    ensures 2 * k + 1 < |Parse(s)| ==> Parse(s)[2 * k + 1] != [] && AllSeparators(Parse(s)[2 * k + 1])
  {
    ParseAlternating(s);
    assert WellPlaced(Parse(s)[2 * k], 2 * k);
    if 2 * k + 1 < |Parse(s)| {
      assert WellPlaced(Parse(s)[2 * k + 1], 2 * k + 1);
    }
  }

  /** The vector<wstring> the GetArgument overloads edit through a
      reference. */
  class ArgumentList {
    var args: seq<string>

    constructor (tokens: seq<string>)
      ensures args == tokens
    {
      args := tokens;
    }

    /** The usual start: the tokens of a command line. */
    constructor FromLine(line: string)
      ensures args == Parse(line)
    {
      var tokens := ParseArguments(line);
      args := tokens;
    }

    /** ReparseArguments (get_argument.h:147-150). */
    method Reparse()
      modifies this
      ensures args == Parse(Collapse(old(args)))
    {
      var line := CollapseArguments(args);
      var tokens := ParseArguments(line);
      args := tokens;
    }

    /** Positional GetArgument (get_argument.h:165-173).  A negative index
        becomes a huge unsigned value in the comparison and is never found. */
    method GetPositional(index: int) returns (found: bool, value: string)
      modifies this
      ensures found <==> 0 <= index && 2 * index < |old(args)|
      ensures found ==> value == old(args)[2 * index] && args == Cleared(old(args), 2 * index, 2 * index + 2)
      ensures !found ==> value == [] && args == old(args)
    {
      value := [];
      if 0 <= index && index * 2 < |args| {
        var slot := index * 2;
        value, args := args[slot], args[slot := value];
        if slot + 1 < |args| {
          args := args[slot + 1 := []];
        }
        assert args == Cleared(old(args), slot, slot + 2);
        return true, value;
      }
      return false, value;
    }

    /** Flag GetArgument (get_argument.h:186-199): the first matching token
        and the gap after it are emptied. */
    method GetFlag(matches: string -> bool) returns (found: bool)
      modifies this
      ensures found <==> FirstMatch(old(args), matches).Some?
      ensures found ==> args == Cleared(old(args), FirstMatch(old(args), matches).value, FirstMatch(old(args), matches).value + 2)
      ensures !found ==> args == old(args)
    {
      var i := 0;
      while i < |args|
        invariant i <= |args| && args == old(args)
        invariant forall k :: 0 <= k < i ==> !matches(args[k])
      {
        if matches(args[i]) {
          ghost var j := i;
          args := args[i := []];
          i := i + 1;
          if i < |args| {
            args := args[i := []];
          }
          assert FirstMatch(old(args), matches) == Some(j);
          assert args == Cleared(old(args), j, j + 2);
          return true;
        }
        i := i + 1;
      }
      return false;
    }

    /** Named GetArgument (get_argument.h:216-233): the first matching token
        with two tokens after it gives up the second of them as the value; the
        match, the gap, the value and the gap after the value are emptied. */
    method GetNamed(matches: string -> bool) returns (found: bool, value: string)
      modifies this
      ensures found <==> FirstNamed(old(args), matches).Some?
      ensures found ==>
        && value == old(args)[FirstNamed(old(args), matches).value + 2]
        && args == Cleared(old(args), FirstNamed(old(args), matches).value, FirstNamed(old(args), matches).value + 4)
      ensures !found ==> value == [] && args == old(args)
    {
      value := [];
      var i := 0;
      while i < |args|
        invariant i <= |args| && args == old(args)
        invariant forall k :: 0 <= k < i && k + 2 < |args| ==> !matches(args[k])
      {
        if matches(args[i]) && i + 2 < |args| {
          ghost var j := i;
          args := args[i := []];
          i := i + 1;
          args := args[i := []];
          i := i + 1;
          value, args := args[i], args[i := value];
          i := i + 1;
          if i < |args| {
            args := args[i := []];
          }
          assert FirstNamed(old(args), matches) == Some(j);
          assert args == Cleared(old(args), j, j + 4);
          return true, value;
        }
        i := i + 1;
      }
      return false, value;
    }
  }
}
