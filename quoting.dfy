/** Post-processing of extracted arguments: un-escaping quotes
    (UnquoteString, utility_functions.h:68-85) and stripping one pair of
    surrounding quotes (TrimQuotes, utility_functions.h:88-95). */
module Quoting {

  /** Whether s holds a backslash immediately followed by a quote at i. */
  predicate EscapedQuoteAt(s: string, i: nat) {
    i + 1 < |s| && s[i] == '\\' && s[i + 1] == '"'
  }

  /** Left to right: each backslash-quote pair becomes a quote and scanning
      resumes after it; every other character is kept. */
  function Unescape(s: string): string
    decreases |s|
  {
    if s == [] then []
    else if EscapedQuoteAt(s, 0) then ['"'] + Unescape(s[2..])
    else [s[0]] + Unescape(s[1..])
  }

  /** The number of pairs Unescape replaces. */
  function Replaced(s: string): nat
    decreases |s|
  {
    if s == [] then 0
    else if EscapedQuoteAt(s, 0) then 1 + Replaced(s[2..])
    else Replaced(s[1..])
  }

  /** UnquoteString (utility_functions.h:68-85). */
  method UnquoteString(input: string) returns (output: string)
    ensures output == Unescape(input)
  {
    output := [];
    var i := 0;
    while i < |input|
      invariant i <= |input|
      invariant output + Unescape(input[i..]) == Unescape(input)
    {
      if i + 1 < |input| && input[i] == '\\' && input[i + 1] == '"' {
        assert EscapedQuoteAt(input[i..], 0);
        assert input[i..][2..] == input[i + 2..];
        output := output + ['"'];
        i := i + 1;
      } else {
        assert input[i..][1..] == input[i + 1..];
        output := output + [input[i]];
      }
      i := i + 1;
    }
  }

  /** Every replaced pair shortens the text by one character. */
  lemma {:induction false} UnescapeLength(s: string)
    ensures |Unescape(s)| == |s| - Replaced(s)
    ensures Replaced(s) <= |s| / 2
    decreases |s|
  {
    if s != [] {
      if EscapedQuoteAt(s, 0) {
        UnescapeLength(s[2..]);
      } else {
        UnescapeLength(s[1..]);
      }
    }
  }

  /** Un-escaping never lengthens the text. */
  lemma UnescapeShrinks(s: string)
    ensures |Unescape(s)| <= |s|
  {
    UnescapeLength(s);
  }

  /** Text with no backslash-quote pair comes back unchanged. */
  lemma {:induction false} UnescapeIdentity(s: string)
    requires forall i: nat :: !EscapedQuoteAt(s, i)
    ensures Unescape(s) == s
    decreases |s|
  {
    if s != [] {
      assert !EscapedQuoteAt(s, 0);
      forall i: nat ensures !EscapedQuoteAt(s[1..], i) {
        assert !EscapedQuoteAt(s, i + 1);
      }
      UnescapeIdentity(s[1..]);
    }
  }

  /** A replaced pair is the only way a text changes. */
  lemma {:induction false} UnescapeChangesIffPair(s: string)
    ensures Unescape(s) == s <==> Replaced(s) == 0
    decreases |s|
  {
    UnescapeLength(s);
    if s != [] && !EscapedQuoteAt(s, 0) {
      UnescapeChangesIffPair(s[1..]);
      assert Unescape(s) == s <==> Unescape(s[1..]) == s[1..];
    }
  }

  /** A backslash before another backslash is kept: an escaped backslash
      followed by a quote turns into a backslash and a quote. */
  lemma BackslashBeforePair()
    ensures Unescape("\\\\\"") == "\\\""
  {
    assert !EscapedQuoteAt("\\\\\"", 0);
    assert "\\\\\""[1..] == "\\\"";
    assert EscapedQuoteAt("\\\"", 0);
    assert "\\\""[2..] == [];
  }

  /** How a caller escapes a value before quoting it: every quote gets a
      backslash in front of it. */
  function Escape(t: string): string
    decreases |t|
  {
    if t == [] then []
    else if t[0] == '"' then ['\\', '"'] + Escape(t[1..])
    else [t[0]] + Escape(t[1..])
  }

  /** Escaped text never starts with a quote. */
  lemma EscapeHead(t: string)
    ensures Escape(t) != [] ==> Escape(t)[0] != '"'
  {
  }

  /** Un-escaping undoes escaping, whatever the text. */
  lemma {:induction false} UnescapeEscape(t: string)
    ensures Unescape(Escape(t)) == t
    decreases |t|
  {
    if t != [] {
      UnescapeEscape(t[1..]);
      var e := Escape(t);
      if t[0] == '"' {
        assert EscapedQuoteAt(e, 0);
        assert e[2..] == Escape(t[1..]);
      } else {
        EscapeHead(t[1..]);
        assert !EscapedQuoteAt(e, 0);
        assert e[1..] == Escape(t[1..]);
      }
    }
  }

  /** A text wrapped in one pair of quotes. */
  function Quoted(t: string): string {
    ['"'] + t + ['"']
  }

  /** TrimQuotes (utility_functions.h:88-95).  The string is passed by
      reference in the source; here the new value is returned.  Reading the
      first and last character of an empty string, and erasing the last
      character of the lone string `"` after its first one is gone, are
      undefined, so those inputs are excluded. */
  method TrimQuotes(s: string) returns (trimmed: bool, r: string)
    requires s != [] && s != "\""
    ensures trimmed <==> s[0] == '"' && s[|s| - 1] == '"'
    ensures trimmed ==> s == Quoted(r) && |r| == |s| - 2
    ensures !trimmed ==> r == s
  {
    r := s;
    if r[0] == '"' && r[|r| - 1] == '"' {
      r := r[1..];
      r := r[..|r| - 1];
      return true, r;
    }
    return false, r;
  }
}
