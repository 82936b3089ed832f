/** The two match streams that the tokenizer merges (get_argument.h:28-29):
    the words of the pattern `[^\s=]+`, and the quote characters that end a
    match of the pattern `((?:^|[^\\])(?:\\{2})*)"`.  Both streams are the
    successive leftmost matches a regex iterator yields, each search starting
    where the previous match ended. */
module Scanner {

  datatype Option<T> = None | Some(value: T)

  /** `\s`: the fixed set of whitespace characters. */
  predicate IsSpace(c: char) {
    c == ' ' || c == '\t' || c == '\n' || c == '\r' || c == '\U{000B}' || c == '\U{000C}'
  }

  /** A character that ends a word: whitespace or `=`. */
  predicate IsSeparator(c: char) {
    IsSpace(c) || c == '='
  }

  /** A character the word pattern `[^\s=]` accepts. */
  predicate IsWordChar(c: char) {
    !IsSeparator(c)
  }

  predicate AllSeparators(t: string) {
    forall i :: 0 <= i < |t| ==> IsSeparator(t[i])
  }

  predicate AllWordChars(t: string) {
    forall i :: 0 <= i < |t| ==> IsWordChar(t[i])
  }

  // ---------------------------------------------------------------------
  // Words
  // ---------------------------------------------------------------------

  /** A match of the word pattern: the half-open range [start, end). */
  datatype Span = Span(start: nat, end: nat)

  /** The first position at or after i that holds a word character, or |s|. */
  function SkipSeparators(s: string, i: nat): (j: nat)
    requires i <= |s|
    ensures i <= j <= |s|
    ensures AllSeparators(s[i..j])
    ensures j < |s| ==> IsWordChar(s[j])
    decreases |s| - i
  {
    if i < |s| && IsSeparator(s[i]) then SkipSeparators(s, i + 1) else i
  }

  /** The first position at or after i that holds a separator, or |s|. */
  function SkipWord(s: string, i: nat): (j: nat)
    requires i <= |s|
    ensures i <= j <= |s|
    ensures AllWordChars(s[i..j])
    ensures j < |s| ==> IsSeparator(s[j])
    decreases |s| - i
  {
    if i < |s| && IsWordChar(s[i]) then SkipWord(s, i + 1) else i
  }

  /** ws cuts s[i..] into maximal runs of word characters: every span is a
      non-empty run of word characters, consecutive spans are separated by a
      non-empty run of separators, and only separators lie before the first
      span and after the last one. */
  ghost predicate WordSplitFrom(s: string, i: nat, ws: seq<Span>)
    requires i <= |s|
  {
    && (forall k :: 0 <= k < |ws| ==>
          i <= ws[k].start < ws[k].end <= |s| && AllWordChars(s[ws[k].start..ws[k].end]))
    && (forall k :: 0 < k < |ws| ==>
          ws[k - 1].end < ws[k].start && AllSeparators(s[ws[k - 1].end..ws[k].start]))
    && (|ws| == 0 ==> AllSeparators(s[i..]))
    && (|ws| > 0 ==> AllSeparators(s[i..ws[0].start]) && AllSeparators(s[ws[|ws| - 1].end..]))
  }

  ghost predicate WordSplit(s: string, ws: seq<Span>) {
    WordSplitFrom(s, 0, ws)
  }

  /** The bounds-and-order part of a split: spans are non-empty, inside s,
      and strictly apart from one another. */
  ghost predicate Increasing(s: string, ws: seq<Span>) {
    && (forall k :: 0 <= k < |ws| ==> ws[k].start < ws[k].end <= |s|)
    && (forall k :: 0 < k < |ws| ==> ws[k - 1].end < ws[k].start)
  }

  /** The successive leftmost-longest matches of `[^\s=]+` in s[i..]. */
  function WordsFrom(s: string, i: nat): (ws: seq<Span>)
    requires i <= |s|
    ensures forall k :: 0 <= k < |ws| ==> i <= ws[k].start < ws[k].end <= |s|
    decreases |s| - i
  {
    var a := SkipSeparators(s, i);
    if a == |s| then [] else [Span(a, SkipWord(s, a))] + WordsFrom(s, SkipWord(s, a))
  }

  /** The matches cut s[i..] into maximal runs of word characters. */
  lemma {:induction false} WordsFromSplit(s: string, i: nat)
    requires i <= |s|
    ensures WordSplitFrom(s, i, WordsFrom(s, i))
    decreases |s| - i
  {
    var a := SkipSeparators(s, i);
    if a < |s| {
      var b := SkipWord(s, a);
      WordsFromSplit(s, b);
      var rest := WordsFrom(s, b);
      if rest != [] {
        assert AllWordChars(s[rest[0].start..rest[0].end]);
        assert s[rest[0].start..rest[0].end][0] == s[rest[0].start];
        assert b < rest[0].start;
      }
    }
  }

  /** The word stream the tokenizer walks (iter_word, get_argument.h:67):
      non-empty spans inside s, strictly apart from one another. */
  function Words(s: string): (ws: seq<Span>)
    ensures Increasing(s, ws)
  {
    WordsFromSplit(s, 0);
    WordsFrom(s, 0)
  }

  // ---------------------------------------------------------------------
  // Quotes
  // ---------------------------------------------------------------------

  /** The number of backslashes immediately before position q. */
  function BackslashesBefore(s: string, q: nat): (k: nat)
    requires q <= |s|
    ensures k <= q
    ensures forall i :: q - k <= i < q ==> s[i] == '\\'
    ensures k < q ==> s[q - k - 1] != '\\'
    decreases q
  {
    if q > 0 && s[q - 1] == '\\' then BackslashesBefore(s, q - 1) + 1 else 0
  }

  /** The number of backslashes starting at position i. */
  function BackslashesFrom(s: string, i: nat): (k: nat)
    requires i <= |s|
    ensures i + k <= |s|
    ensures forall j :: i <= j < i + k ==> s[j] == '\\'
    ensures i + k < |s| ==> s[i + k] != '\\'
    decreases |s| - i
  {
    if i < |s| && s[i] == '\\' then BackslashesFrom(s, i + 1) + 1 else 0
  }

  /** A match of the quote pattern that starts at position m, given as the
      position of the quote that ends it.  The first alternative `^` holds only
      at the start of the line; the second consumes one character that is not
      a backslash.  Either is followed by backslash pairs and a quote; since
      `(?:\\{2})*` can only give back whole pairs, the match succeeds exactly
      when the run of backslashes is even and a quote follows it. */
  function MatchAt(s: string, m: nat): (q: Option<nat>)
    requires m <= |s|
    ensures q.Some? ==> m <= q.value < |s| && s[q.value] == '"'
  {
    var r0 := BackslashesFrom(s, 0);
    if m == 0 && r0 % 2 == 0 && r0 < |s| && s[r0] == '"' then
      Some(r0)
    else if m < |s| && s[m] != '\\' then
      var r := BackslashesFrom(s, m + 1);
      if r % 2 == 0 && m + 1 + r < |s| && s[m + 1 + r] == '"' then Some(m + 1 + r) else None
    else
      None
  }

  /** The leftmost match at or after m. */
  function SearchFrom(s: string, m: nat): (q: Option<nat>)
    requires m <= |s|
    ensures q.Some? ==> m <= q.value < |s| && s[q.value] == '"'
    decreases |s| - m
  {
    if m == |s| then
      None
    else
      match MatchAt(s, m)
      case Some(q) => Some(q)
      case None => SearchFrom(s, m + 1)
  }

  /** The quote positions of the successive matches, each search starting just
      after the quote that ended the previous match. */
  function QuotesFrom(s: string, p: nat): (qs: seq<nat>)
    requires p <= |s|
    decreases |s| - p
  {
    match SearchFrom(s, p)
    case None => []
    case Some(q) => [q] + QuotesFrom(s, q + 1)
  }

  /** The quote stream the tokenizer walks (iter_quote, get_argument.h:68). */
  function QuoteStream(s: string): (qs: seq<nat>)
  {
    QuotesFrom(s, 0)
  }

  /** The quote at q is picked out by the quote pattern: it is preceded by an
      even run of backslashes, and the character before that run (if the run
      does not start the line) is not itself a recorded quote, which the
      previous match would have consumed. */
  predicate Recorded(s: string, q: nat)
    requires q < |s|
    decreases q
  {
    var k := BackslashesBefore(s, q);
    s[q] == '"' && k % 2 == 0 && (k == q || !Recorded(s, q - k - 1))
  }

  /** The recorded positions of s[p..], from left to right. */
  function RecordedFrom(s: string, p: nat): seq<nat>
    requires p <= |s|
    decreases |s| - p
  {
    if p == |s| then []
    else if Recorded(s, p) then [p] + RecordedFrom(s, p + 1)
    else RecordedFrom(s, p + 1)
  }

  /** RecordedFrom lists every recorded position of s[p..], and only those,
      in strictly increasing order. */
  lemma {:induction false} RecordedFromSpec(s: string, p: nat)
    requires p <= |s|
    ensures forall q :: q in RecordedFrom(s, p) <==> p <= q < |s| && Recorded(s, q)
    ensures forall i, j :: 0 <= i < j < |RecordedFrom(s, p)| ==> RecordedFrom(s, p)[i] < RecordedFrom(s, p)[j]
    decreases |s| - p
  {
    if p < |s| {
      RecordedFromSpec(s, p + 1);
      var rest := RecordedFrom(s, p + 1);
      assert forall j :: 0 <= j < |rest| ==> rest[j] in rest;
    }
  }

  /** The position where the match that ends with the quote at q starts. */
  function MatchStart(s: string, q: nat): nat
    requires q < |s|
  {
    var k := BackslashesBefore(s, q);
    if k == q then 0 else q - k - 1
  }

  /** The first recorded position at or after p. */
  function NextRecorded(s: string, p: nat): (q: Option<nat>)
    requires p <= |s|
    ensures q.Some? ==> p <= q.value < |s| && Recorded(s, q.value)
    ensures q.Some? ==> forall j :: p <= j < q.value ==> !Recorded(s, j)
    ensures q.None? ==> forall j :: p <= j < |s| ==> !Recorded(s, j)
    decreases |s| - p
  {
    if p == |s| then None
    else if Recorded(s, p) then Some(p)
    else NextRecorded(s, p + 1)
  }

  /** A position where a search may begin: the start of the line, or just
      after a recorded quote. */
  ghost predicate SearchStart(s: string, p: nat)
    requires p <= |s|
  {
    p == 0 || Recorded(s, p - 1)
  }

  /** The backslash run before q is determined by where it stops. */
  lemma {:induction false} BackslashesBeforeUnique(s: string, q: nat, k: nat)
    requires k <= q <= |s|
    requires forall i :: q - k <= i < q ==> s[i] == '\\'
    requires k < q ==> s[q - k - 1] != '\\'
    ensures BackslashesBefore(s, q) == k
    decreases k
  {
    if k > 0 {
      BackslashesBeforeUnique(s, q - 1, k - 1);
    }
  }

  /** The backslash run from i is determined by where it stops. */
  lemma {:induction false} BackslashesFromUnique(s: string, i: nat, k: nat)
    requires i + k <= |s|
    requires forall j :: i <= j < i + k ==> s[j] == '\\'
    requires i + k < |s| ==> s[i + k] != '\\'
    ensures BackslashesFrom(s, i) == k
    decreases k
  {
    if k > 0 {
      BackslashesFromUnique(s, i + 1, k - 1);
    }
  }

  /** A match determines where it starts. */
  lemma MatchAtStart(s: string, m: nat)
    requires m <= |s| && MatchAt(s, m).Some?
    ensures MatchStart(s, MatchAt(s, m).value) == m
  {
    var q := MatchAt(s, m).value;
    var r0 := BackslashesFrom(s, 0);
    if m == 0 && r0 % 2 == 0 && r0 < |s| && s[r0] == '"' {
      BackslashesBeforeUnique(s, q, q);
    } else {
      var r := BackslashesFrom(s, m + 1);
      BackslashesBeforeUnique(s, q, r);
    }
  }

  /** Every recorded quote is found by a match that starts at MatchStart. */
  lemma RecordedIsMatched(s: string, q: nat)
    requires q < |s| && Recorded(s, q)
    ensures MatchAt(s, MatchStart(s, q)) == Some(q)
  {
    var k := BackslashesBefore(s, q);
    var m := MatchStart(s, q);
    if k == q {
      BackslashesFromUnique(s, 0, q);
    } else {
      BackslashesFromUnique(s, m + 1, k);
      if m == 0 {
        // the first alternative does not fire: a quote at 0 would be recorded
        BackslashesFromUnique(s, 0, 0);
        assert BackslashesBefore(s, 0) == 0;
        assert !Recorded(s, 0);
        assert s[0] != '"';
      }
    }
  }

  /** A search that begins at a search start never has to look before it. */
  lemma MatchStartAfterSearchStart(s: string, p: nat, q: nat)
    requires p <= q < |s| && SearchStart(s, p) && Recorded(s, q)
    ensures p <= MatchStart(s, q)
  {
    if p > 0 {
      var k := BackslashesBefore(s, q);
      assert s[p - 1] == '"';
      assert p - 1 < q - k;
      assert p - 1 != q - k - 1;
    }
  }

  /** The match found first from a search start ends with a recorded quote. */
  lemma MatchedIsRecorded(s: string, p: nat, m: nat)
    requires p <= m <= |s| && SearchStart(s, p)
    requires forall j :: p <= j < |s| && Recorded(s, j) ==> m <= MatchStart(s, j)
    requires MatchAt(s, m).Some?
    ensures Recorded(s, MatchAt(s, m).value)
    ensures forall j :: p <= j < MatchAt(s, m).value ==> !Recorded(s, j)
  {
    var q := MatchAt(s, m).value;
    MatchAtStart(s, m);
    var r0 := BackslashesFrom(s, 0);
    if m == 0 && r0 % 2 == 0 && r0 < |s| && s[r0] == '"' {
      assert BackslashesBefore(s, q) == q;
      forall j | p <= j < q ensures !Recorded(s, j) {
        assert s[j] == '\\';
      }
    } else {
      if m == 0 {
        BackslashesFromUnique(s, 0, 0);
        assert s[0] != '"';
      } else {
        assert MatchStart(s, m) < m;
      }
      assert !Recorded(s, m);
      forall j | p <= j < q ensures !Recorded(s, j) {
        if j < m {
          assert MatchStart(s, j) <= j;
        } else if j > m {
          assert s[j] == '\\';
        }
      }
    }
  }

  /** Searching from a search start finds exactly the next recorded quote. */
  lemma {:induction false} SearchFindsNextRecorded(s: string, p: nat, m: nat)
    requires p <= m <= |s| && SearchStart(s, p)
    requires forall j :: p <= j < |s| && Recorded(s, j) ==> m <= MatchStart(s, j)
    ensures SearchFrom(s, m) == NextRecorded(s, p)
    decreases |s| - m
  {
    if m == |s| {
      forall j | p <= j < |s| ensures !Recorded(s, j) {
        assert MatchStart(s, j) <= j;
      }
    } else {
      match MatchAt(s, m)
      case Some(q) =>
        MatchedIsRecorded(s, p, m);
        assert NextRecorded(s, p) == Some(q);
      case None =>
        forall j | p <= j < |s| && Recorded(s, j) ensures m + 1 <= MatchStart(s, j) {
          RecordedIsMatched(s, j);
        }
        SearchFindsNextRecorded(s, p, m + 1);
    }
  }

  /** A search from a search start stops at the next recorded quote. */
  lemma SearchFromStart(s: string, p: nat)
    requires p <= |s| && SearchStart(s, p)
    ensures SearchFrom(s, p) == NextRecorded(s, p)
  {
    forall j | p <= j < |s| && Recorded(s, j) ensures p <= MatchStart(s, j) {
      MatchStartAfterSearchStart(s, p, j);
    }
    SearchFindsNextRecorded(s, p, p);
  }

  /** RecordedFrom, unfolded one recorded position at a time. */
  lemma {:induction false} RecordedFromNext(s: string, p: nat)
    requires p <= |s|
    ensures RecordedFrom(s, p) ==
              match NextRecorded(s, p)
              case None => []
              case Some(q) => [q] + RecordedFrom(s, q + 1)
    decreases |s| - p
  {
    if p < |s| && !Recorded(s, p) {
      RecordedFromNext(s, p + 1);
      assert NextRecorded(s, p) == NextRecorded(s, p + 1);
      assert RecordedFrom(s, p) == RecordedFrom(s, p + 1);
    }
  }

  /** The quote stream of the regex iterator is exactly the list of recorded
      quotes, in increasing order. */
  lemma {:induction false} QuotesFromRecorded(s: string, p: nat)
    requires p <= |s| && SearchStart(s, p)
    ensures QuotesFrom(s, p) == RecordedFrom(s, p)
    decreases |s| - p
  {
    SearchFromStart(s, p);
    RecordedFromNext(s, p);
    match NextRecorded(s, p)
    case None =>
      assert SearchFrom(s, p) == None;
      assert QuotesFrom(s, p) == [];
    case Some(q) =>
      assert SearchFrom(s, p) == Some(q);
      assert QuotesFrom(s, p) == [q] + QuotesFrom(s, q + 1);
      assert RecordedFrom(s, p) == [q] + RecordedFrom(s, q + 1);
      QuotesFromRecorded(s, q + 1);
  }

  lemma QuoteStreamIsRecorded(s: string)
    ensures QuoteStream(s) == RecordedFrom(s, 0)
    ensures forall q: nat :: q in QuoteStream(s) <==> q < |s| && Recorded(s, q)
    ensures forall i, j :: 0 <= i < j < |QuoteStream(s)| ==> QuoteStream(s)[i] < QuoteStream(s)[j]
  {
    QuotesFromRecorded(s, 0);
    RecordedFromSpec(s, 0);
  }

  /** A stretch without quote characters holds no recorded quote. */
  lemma {:induction false} QuoteFreeStretch(s: string, p: nat, r: nat)
    requires p <= r <= |s|
    requires forall i :: p <= i < r ==> s[i] != '"'
    ensures RecordedFrom(s, p) == RecordedFrom(s, r)
    decreases r - p
  {
    if p < r {
      QuoteFreeStretch(s, p + 1, r);
    }
  }

  /** A line without quote characters has an empty quote stream. */
  lemma QuoteFreeStream(s: string)
    requires forall i :: 0 <= i < |s| ==> s[i] != '"'
    ensures QuoteStream(s) == []
  {
    QuoteFreeStretch(s, 0, |s|);
    QuotesFromRecorded(s, 0);
  }
}
