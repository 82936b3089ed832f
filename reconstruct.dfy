/** Joining a token sequence back into one line (CollapseArguments,
    get_argument.h:127-138). */
module Reconstructor {

  /** The tokens, concatenated in order. */
  function Collapse(ts: seq<string>): string {
    if ts == [] then [] else Collapse(ts[..|ts| - 1]) + ts[|ts| - 1]
  }

  /** Collapsing distributes over concatenation of token sequences. */
  lemma {:induction false} CollapseAppend(a: seq<string>, b: seq<string>)
    ensures Collapse(a + b) == Collapse(a) + Collapse(b)
    decreases |b|
  {
    if b == [] {
      assert a + b == a;
    } else {
      var b' := b[..|b| - 1];
      assert (a + b)[..|a + b| - 1] == a + b';
      CollapseAppend(a, b');
    }
  }

  /** Empty tokens contribute nothing to the line. */
  lemma {:induction false} CollapseEmpties(ts: seq<string>)
    requires forall k :: 0 <= k < |ts| ==> ts[k] == []
    ensures Collapse(ts) == []
    decreases |ts|
  {
    if ts != [] {
      CollapseEmpties(ts[..|ts| - 1]);
    }
  }

  /** CollapseArguments: appends every token to an initially empty line. */
  method CollapseArguments(parsed: seq<string>) returns (line: string)
    ensures line == Collapse(parsed)
  {
    line := "";
    for i := 0 to |parsed|
      invariant line == Collapse(parsed[..i])
    {
      assert parsed[..i + 1][..i] == parsed[..i];
      line := line + parsed[i];
    }
    assert parsed[..|parsed|] == parsed;
  }
}
