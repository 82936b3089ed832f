/** ParseArguments (get_argument.h:34-124): splits a command line into
    arguments and the separator runs between them by merging the word stream
    and the quote stream with two cursors. */
module Tokenizer {
  import opened Scanner
  import opened Reconstructor

  /** The local state of ParseArguments (get_argument.h:58-82). */
  datatype Cursor = Cursor(
    word: nat,          // how far iter_word has advanced in the word stream
    argStart: nat,      // pos_word_0: where the current argument starts
    wordEnd: nat,       // pos_word_1: where the last word ended
    quote: nat,         // how far iter_quote has advanced in the quote stream
    count: nat,         // cnt_quote
    output: seq<string>)

  /** pos_quote: the current quote, or |s| once the quote stream is exhausted
      (where the source reads past the end of the stream, get_argument.h:78
      and 107). */
  function QuotePos(s: string, qs: seq<nat>, qi: nat): (p: nat)
  {
    if qi < |qs| then qs[qi] else |s|
  }

  /** iter_word->position(): the start of word wi, or |s| once the word
      stream is exhausted (get_argument.h:119 reads past its end). */
  function WordStart(s: string, ws: seq<Span>, wi: nat): (p: nat)
  {
    if wi < |ws| then ws[wi].start else |s|
  }

  /** The stand-in for an exhausted iterator never coincides with a real
      position: it is the line length exactly when the stream is used up. */
  lemma Sentinels(s: string, ws: seq<Span>, qs: seq<nat>, wi: nat, qi: nat)
    requires Increasing(s, ws) && forall k :: 0 <= k < |qs| ==> qs[k] < |s|
    ensures QuotePos(s, qs, qi) <= |s| && (QuotePos(s, qs, qi) == |s| <==> |qs| <= qi)
    ensures WordStart(s, ws, wi) <= |s| && (WordStart(s, ws, wi) == |s| <==> |ws| <= wi)
  {
  }

  /** The inner loop (get_argument.h:96-108): consumes every quote that lies
      between the argument start and the end of the current word; a quote
      counts only when it sits at the argument start or at the word's last
      character. */
  function ConsumeQuotes(s: string, qs: seq<nat>, argStart: nat, wordEnd: nat, qi: nat, cnt: nat): (r: (nat, nat))
    ensures qi <= r.0 && (r.0 == qi || r.0 <= |qs|)
    ensures r.0 < |qs| ==> !(argStart <= qs[r.0] < wordEnd)
    decreases |qs| - qi
  {
    var pq := QuotePos(s, qs, qi);
    if argStart <= pq < wordEnd && qi < |qs| then
      var counted := argStart == pq || pq == wordEnd - 1;
      ConsumeQuotes(s, qs, argStart, wordEnd, qi + 1, if counted then cnt + 1 else cnt)
    else
      (qi, cnt)
  }

  /** How many of qs[lo..hi] sit at the argument start or at the last
      character of the word: the only quotes the tokenizer counts. */
  function Counted(qs: seq<nat>, lo: nat, hi: nat, argStart: nat, wordEnd: nat): nat
    decreases hi - lo
  {
    if hi <= lo || |qs| <= lo then 0
    else (if qs[lo] == argStart || qs[lo] == wordEnd - 1 then 1 else 0) + Counted(qs, lo + 1, hi, argStart, wordEnd)
  }

  /** Which quotes the inner loop consumes and which of them it counts: it
      consumes exactly a run of quotes inside [argStart, wordEnd), and the
      count grows by the number of those at argStart or on the word's last
      character, so a quote in the middle of a word is never counted. */
  lemma {:induction false} ConsumeQuotesCounts(s: string, qs: seq<nat>, argStart: nat, wordEnd: nat, qi: nat, cnt: nat)
    ensures var r := ConsumeQuotes(s, qs, argStart, wordEnd, qi, cnt);
      && (forall k :: qi <= k < r.0 ==> k < |qs| && argStart <= qs[k] < wordEnd)
      && r.1 == cnt + Counted(qs, qi, r.0, argStart, wordEnd)
    decreases |qs| - qi
  {
    var pq := QuotePos(s, qs, qi);
    if argStart <= pq < wordEnd && qi < |qs| {
      var counted := argStart == pq || pq == wordEnd - 1;
      ConsumeQuotesCounts(s, qs, argStart, wordEnd, qi + 1, if counted then cnt + 1 else cnt);
    }
  }

  /** The output once the gap between the last word and the argument start
      has been emitted (get_argument.h:89-90). */
  function WithGap(s: string, c: Cursor): seq<string>
    requires c.argStart <= |s|
  {
    if c.wordEnd < c.argStart then c.output + [s[c.wordEnd..c.argStart]] else c.output
  }

  /** One pass of the outer loop (get_argument.h:86-121): emit the pending
      gap, take the next word, consume its quotes, and close the argument if
      the quote count is even. */
  function Step(s: string, ws: seq<Span>, qs: seq<nat>, c: Cursor): (d: Cursor)
    requires Increasing(s, ws)
    requires c.word < |ws| && c.argStart <= ws[c.word].start
    ensures d.word == c.word + 1
    ensures d.word < |ws| ==> d.argStart <= ws[d.word].start
  {
    var out := WithGap(s, c);
    var e := ws[c.word].end;
    var (qi, cnt) := ConsumeQuotes(s, qs, c.argStart, e, c.quote, c.count);
    if cnt % 2 < 1 then
      Cursor(c.word + 1, WordStart(s, ws, c.word + 1), e, qi, cnt, out + [s[c.argStart..e]])
    else
      Cursor(c.word + 1, c.argStart, e, qi, cnt, out)
  }

  /** The outer loop run to the end of the word stream. */
  function Scan(s: string, ws: seq<Span>, qs: seq<nat>, c: Cursor): (d: Cursor)
    requires Increasing(s, ws)
    requires c.word <= |ws| && (c.word < |ws| ==> c.argStart <= ws[c.word].start)
    ensures d.word == |ws|
    decreases |ws| - c.word
  {
    if c.word == |ws| then c else Scan(s, ws, qs, Step(s, ws, qs, c))
  }

  /** The final state of ParseArguments on s. */
  function Run(s: string): (c: Cursor)
    ensures c.word == |Words(s)|
  {
    Scan(s, Words(s), QuoteStream(s), Cursor(0, 0, 0, 0, 0, []))
  }

  /** What ParseArguments returns.  Nothing is reordered or invented: the
      tokens always rebuild a prefix of the line. */
  function Parse(s: string): (ts: seq<string>)
    ensures Collapse(ts) <= s
  {
    RunInv(s);
    Run(s).output
  }

  /** The quote count is even when the line ends: no quoted argument is
      left open. */
  predicate QuotesClosed(s: string) {
    Run(s).count % 2 == 0
  }

  /** ParseArguments (get_argument.h:56-124). */
  method ParseArguments(argLine: string) returns (output: seq<string>)
    ensures output == Parse(argLine)
  {
    var words := Words(argLine);
    var quotes := QuoteStream(argLine);
    var wi: nat, qi: nat := 0, 0;
    var w0: nat, w1: nat := 0, 0;
    var pq := QuotePos(argLine, quotes, qi);
    var cnt: nat := 0;
    output := [];
    while wi < |words|
      invariant wi <= |words| && (wi < |words| ==> w0 <= words[wi].start)
      invariant pq == QuotePos(argLine, quotes, qi)
      invariant Scan(argLine, words, quotes, Cursor(wi, w0, w1, qi, cnt, output)) == Run(argLine)
      decreases |words| - wi
    {
      ghost var before := Cursor(wi, w0, w1, qi, cnt, output);
      if w1 < w0 {
        output := output + [argLine[w1..w0]];
      }
      assert output == WithGap(argLine, before);
      w1 := words[wi].end;
      ghost var entry := ConsumeQuotes(argLine, quotes, w0, w1, qi, cnt);
      while w0 <= pq && pq < w1 && qi < |quotes|
        invariant pq == QuotePos(argLine, quotes, qi)
        invariant ConsumeQuotes(argLine, quotes, w0, w1, qi, cnt) == entry
        decreases |quotes| - qi
      {
        if w0 == pq || pq == w1 - 1 {
          cnt := cnt + 1;
        }
        qi := qi + 1;
        pq := QuotePos(argLine, quotes, qi);
      }
      assert entry == (qi, cnt);
      wi := wi + 1;
      if cnt % 2 < 1 {
        output := output + [argLine[w0..w1]];
        w0 := WordStart(argLine, words, wi);
      }
      assert Cursor(wi, w0, w1, qi, cnt, output) == Step(argLine, words, quotes, before);
    }
  }

  // ---------------------------------------------------------------------
  // Shape of the output
  // ---------------------------------------------------------------------

  /** Tokens alternate between arguments (even positions) and the gaps
      between them (odd positions).  No token is empty; an argument ends with
      a word character and, except the first, which also holds any leading
      separators, starts with one; a gap holds only separators. */
  ghost predicate Alternating(ts: seq<string>) {
    forall k :: 0 <= k < |ts| ==> WellPlaced(ts[k], k)
  }

  /** What a token at position k of the output looks like. */
  ghost predicate WellPlaced(t: string, k: nat) {
    t != [] &&
    if k % 2 == 0 then
      IsWordChar(t[|t| - 1]) && (k > 0 ==> IsWordChar(t[0]))
    else
      AllSeparators(t)
  }

  lemma AlternatingSnoc(ts: seq<string>, t: string)
    requires Alternating(ts) && WellPlaced(t, |ts|)
    ensures Alternating(ts + [t])
  {
    forall k | 0 <= k < |ts| + 1 ensures WellPlaced((ts + [t])[k], k) {
      if k < |ts| {
        assert (ts + [t])[k] == ts[k];
      }
    }
  }

  /** What holds at the top of the outer loop. */
  ghost predicate Inv(s: string, ws: seq<Span>, c: Cursor)
    requires WordSplit(s, ws)
  {
    && c.word <= |ws|
    && (c.word < |ws| ==> c.argStart <= ws[c.word].start)
    && Alternating(c.output)
    && if c.word == 0 then
         c.argStart == 0 && c.wordEnd == 0 && c.output == [] && c.count % 2 == 0
       else
         && c.wordEnd == ws[c.word - 1].end
         && if c.count % 2 == 0 then
              // the last argument is closed; the gap before the next is pending
              && |c.output| % 2 == 1
              && c.argStart == WordStart(s, ws, c.word)
              && Collapse(c.output) == s[..c.wordEnd]
            else
              // an argument is open since argStart
              && |c.output| % 2 == 0
              && c.argStart <= ws[c.word - 1].start
              && Collapse(c.output) == s[..c.argStart]
              && (c.output != [] ==> IsWordChar(s[c.argStart]))
  }

  /** Emitting the separator run from the end w of an argument to the start
      a of the next. */
  lemma GapEmitted(s: string, out: seq<string>, w: nat, a: nat)
    requires w < a <= |s| && AllSeparators(s[w..a])
    requires Alternating(out) && |out| % 2 == 1 && Collapse(out) == s[..w]
    ensures Alternating(out + [s[w..a]]) && |out + [s[w..a]]| % 2 == 0
    ensures Collapse(out + [s[w..a]]) == s[..a]
  {
    var gap := s[w..a];
    assert WellPlaced(gap, |out|);
    AlternatingSnoc(out, gap);
    CollapseAppend(out, [gap]);
    assert s[..w] + gap == s[..a];
  }

  /** After the pending gap is emitted the output rebuilds the line up to
      the argument start. */
  lemma GapInv(s: string, ws: seq<Span>, c: Cursor)
    requires WordSplit(s, ws) && Inv(s, ws, c) && c.word < |ws|
    ensures c.argStart < |s|
    ensures var out := WithGap(s, c);
      && Alternating(out) && |out| % 2 == 0
      && Collapse(out) == s[..c.argStart]
      && (out != [] ==> IsWordChar(s[c.argStart]))
  {
    var wi, st := c.word, ws[c.word].start;
    if wi > 0 && c.count % 2 == 0 {
      assert ws[wi - 1].end < st && c.argStart == st && c.wordEnd == ws[wi - 1].end;
      assert IsWordChar(s[st]) by {
        assert AllWordChars(s[st..ws[wi].end]);
        assert s[st..ws[wi].end][0] == s[st];
      }
      var gap := s[c.wordEnd..c.argStart];
      assert AllSeparators(gap);
      GapEmitted(s, c.output, c.wordEnd, c.argStart);
      assert WithGap(s, c) == c.output + [gap];
    } else if wi > 0 {
      assert c.argStart <= ws[wi - 1].start < ws[wi - 1].end == c.wordEnd;
      assert WithGap(s, c) == c.output;
    }
  }

  /** Closing an argument that runs from a to the end e of a word. */
  lemma ArgInv(s: string, out: seq<string>, a: nat, e: nat)
    requires a < e <= |s| && IsWordChar(s[e - 1]) && (out != [] ==> IsWordChar(s[a]))
    requires Alternating(out) && |out| % 2 == 0 && Collapse(out) == s[..a]
    ensures Alternating(out + [s[a..e]]) && |out + [s[a..e]]| % 2 == 1
    ensures Collapse(out + [s[a..e]]) == s[..e]
  {
    var arg := s[a..e];
    assert arg != [] && arg[|arg| - 1] == s[e - 1] && arg[0] == s[a];
    assert WellPlaced(arg, |out|);
    AlternatingSnoc(out, arg);
    CollapseAppend(out, [arg]);
    assert s[..a] + arg == s[..e];
  }

  lemma StepInv(s: string, ws: seq<Span>, qs: seq<nat>, c: Cursor)
    requires WordSplit(s, ws) && Inv(s, ws, c) && c.word < |ws|
    ensures Inv(s, ws, Step(s, ws, qs, c))
  {
    var st, e := ws[c.word].start, ws[c.word].end;
    assert IsWordChar(s[e - 1]) by {
      assert AllWordChars(s[st..e]);
      assert s[st..e][e - st - 1] == s[e - 1];
    }
    GapInv(s, ws, c);
    var out := WithGap(s, c);
    var (qi, cnt) := ConsumeQuotes(s, qs, c.argStart, e, c.quote, c.count);
    var d := Step(s, ws, qs, c);
    if cnt % 2 < 1 {
      assert d == Cursor(c.word + 1, WordStart(s, ws, c.word + 1), e, qi, cnt, out + [s[c.argStart..e]]);
      ArgInv(s, out, c.argStart, e);
    } else {
      assert d == Cursor(c.word + 1, c.argStart, e, qi, cnt, out);
    }
  }

  lemma {:induction false} ScanInv(s: string, ws: seq<Span>, qs: seq<nat>, c: Cursor)
    requires WordSplit(s, ws) && Inv(s, ws, c)
    ensures Inv(s, ws, Scan(s, ws, qs, c))
    decreases |ws| - c.word
  {
    if c.word < |ws| {
      StepInv(s, ws, qs, c);
      ScanInv(s, ws, qs, Step(s, ws, qs, c));
    }
  }

  lemma RunInv(s: string)
    ensures WordSplit(s, Words(s)) && Inv(s, Words(s), Run(s)) && Run(s).word == |Words(s)|
  {
    WordsFromSplit(s, 0);
    ScanInv(s, Words(s), QuoteStream(s), Cursor(0, 0, 0, 0, 0, []));
  }

  /** Tokens strictly alternate, starting with an argument: argument n sits
      at position 2n and the gap after it at 2n + 1. */
  lemma ParseAlternating(s: string)
    ensures Alternating(Parse(s))
  {
    RunInv(s);
  }

  /** The parse is lossless exactly when the line is empty, or it ends with
      a word character and no quoted argument is left open; trailing
      separators and an unterminated quoted argument are dropped. */
  lemma ParseLossless(s: string)
    ensures Collapse(Parse(s)) == s <==> s == [] || (IsWordChar(s[|s| - 1]) && QuotesClosed(s))
  {
    RunInv(s);
    var ws, c := Words(s), Run(s);
    if |ws| == 0 {
      assert AllSeparators(s[0..]);
      assert s != [] ==> s[0..][|s| - 1] == s[|s| - 1];
    } else {
      var last := ws[|ws| - 1];
      assert AllSeparators(s[last.end..]);
      if last.end < |s| {
        assert s[last.end..][|s| - 1 - last.end] == s[|s| - 1];
      }
      assert AllWordChars(s[last.start..last.end]);
      assert s[last.start..last.end][last.end - 1 - last.start] == s[last.end - 1];
      if c.count % 2 == 1 {
        assert |Collapse(c.output)| == c.argStart < |s|;
      }
    }
  }

  /** Re-parsing the line rebuilt from a lossless parse gives the same
      tokens back. */
  lemma ReparseFresh(s: string)
    requires s == [] || (IsWordChar(s[|s| - 1]) && QuotesClosed(s))
    ensures Parse(Collapse(Parse(s))) == Parse(s)
  {
    ParseLossless(s);
  }

  // ---------------------------------------------------------------------
  // Lines without quotes
  // ---------------------------------------------------------------------

  /** The plain split the documentation describes first
      (get_argument.h:36-37): the first word with any separators before it,
      then each later word preceded by the separator run before it; the
      separators after the last word are not kept. */
  function WordsAndGaps(s: string, ws: seq<Span>): seq<string>
    requires Increasing(s, ws)
    decreases |ws|
  {
    if ws == [] then []
    else if |ws| == 1 then [s[..ws[0].end]]
    else
      var n := |ws|;
      WordsAndGaps(s, ws[..n - 1]) + [s[ws[n - 2].end..ws[n - 1].start], s[ws[n - 1].start..ws[n - 1].end]]
  }

  /** The state of the outer loop after k words of a line without quotes. */
  function PlainCursor(s: string, ws: seq<Span>, k: nat): Cursor
    requires Increasing(s, ws) && k <= |ws|
  {
    if k == 0 then Cursor(0, 0, 0, 0, 0, [])
    else Cursor(k, WordStart(s, ws, k), ws[k - 1].end, 0, 0, WordsAndGaps(s, ws[..k]))
  }

  /** With no quotes every word closes an argument. */
  lemma PlainStep(s: string, ws: seq<Span>, k: nat)
    requires Increasing(s, ws) && k < |ws|
    ensures Step(s, ws, [], PlainCursor(s, ws, k)) == PlainCursor(s, ws, k + 1)
  {
    var c := PlainCursor(s, ws, k);
    assert ConsumeQuotes(s, [], c.argStart, ws[k].end, 0, 0) == (0, 0);
    if k > 0 {
      assert ws[..k + 1][..k] == ws[..k];
    }
  }

  lemma {:induction false} PlainScan(s: string, ws: seq<Span>, k: nat)
    requires Increasing(s, ws) && k <= |ws|
    ensures Scan(s, ws, [], PlainCursor(s, ws, k)) == PlainCursor(s, ws, |ws|)
    decreases |ws| - k
  {
    if k < |ws| {
      PlainStep(s, ws, k);
      PlainScan(s, ws, k + 1);
    }
  }

  /** On a line with no recorded quote the parse is the plain split into
      words and the separator runs between them. */
  lemma UnquotedParse(s: string)
    requires QuoteStream(s) == []
    ensures Increasing(s, Words(s))
    ensures Parse(s) == WordsAndGaps(s, Words(s))
  {
    var ws := Words(s);
    PlainScan(s, ws, 0);
    assert ws[..|ws|] == ws;
  }

  /** In particular on a line without any quote character. */
  lemma PlainLine(s: string)
    requires forall i :: 0 <= i < |s| ==> s[i] != '"'
    ensures Increasing(s, Words(s))
    ensures Parse(s) == WordsAndGaps(s, Words(s))
  {
    QuoteFreeStream(s);
    UnquotedParse(s);
  }

  // ---------------------------------------------------------------------
  // Quotes inside words
  // ---------------------------------------------------------------------

  /** q lies strictly inside some word: neither its first nor its last
      character. */
  ghost predicate InsideSomeWord(ws: seq<Span>, q: nat) {
    exists m :: 0 <= m < |ws| && ws[m].start < q && q + 1 < ws[m].end
  }

  /** Increasing spans are apart, not only neighbouring ones. */
  lemma {:induction false} SpansApart(s: string, ws: seq<Span>, m: nat, k: nat)
    requires Increasing(s, ws) && m < k < |ws|
    ensures ws[m].end < ws[k].start
    decreases k - m
  {
    if m + 1 < k {
      SpansApart(s, ws, m, k - 1);
    }
  }

  /** A quote inside some word that falls within word k is inside word k. */
  lemma InsideThisWord(s: string, ws: seq<Span>, k: nat, q: nat)
    requires Increasing(s, ws) && k < |ws| && ws[k].start < q < ws[k].end
    requires InsideSomeWord(ws, q)
    ensures q + 1 < ws[k].end
  {
    var m :| 0 <= m < |ws| && ws[m].start < q && q + 1 < ws[m].end;
    if m < k {
      SpansApart(s, ws, m, k);
    } else if k < m {
      SpansApart(s, ws, k, m);
    }
  }

  /** A quote inside some word that lies past word k is past the start of
      word k + 1. */
  lemma InsideLaterWord(s: string, ws: seq<Span>, k: nat, q: nat)
    requires Increasing(s, ws) && k + 1 < |ws| && ws[k].end <= q
    requires InsideSomeWord(ws, q)
    ensures ws[k + 1].start < q
  {
    var m :| 0 <= m < |ws| && ws[m].start < q && q + 1 < ws[m].end;
    if m < k {
      SpansApart(s, ws, m, k);
    } else if k + 1 < m {
      SpansApart(s, ws, k + 1, m);
    }
  }

  /** A quote inside some word lies past the start of the first word. */
  lemma InsidePastFirst(s: string, ws: seq<Span>, q: nat)
    requires Increasing(s, ws) && InsideSomeWord(ws, q)
    ensures ws[0].start < q
  {
    var m :| 0 <= m < |ws| && ws[m].start < q && q + 1 < ws[m].end;
    if 0 < m {
      SpansApart(s, ws, 0, m);
    }
  }

  lemma {:induction false} NoneCounted(qs: seq<nat>, lo: nat, hi: nat, a: nat, e: nat)
    requires forall j :: lo <= j < hi ==> j < |qs| && qs[j] != a && qs[j] != e - 1
    ensures Counted(qs, lo, hi, a, e) == 0
    decreases hi - lo
  {
    if lo < hi {
      NoneCounted(qs, lo + 1, hi, a, e);
    }
  }

  /** Consuming the quotes of word k when all of them lie inside words:
      none counts, and the quotes left over lie past the start of the next
      word. */
  lemma InnerConsume(s: string, ws: seq<Span>, qs: seq<nat>, k: nat, a: nat, qi: nat)
    requires Increasing(s, ws) && k < |ws| && a <= ws[k].start && qi <= |qs|
    requires forall i, j :: 0 <= i < j < |qs| ==> qs[i] < qs[j]
    requires forall j :: 0 <= j < |qs| ==> InsideSomeWord(ws, qs[j])
    requires forall j :: qi <= j < |qs| ==> ws[k].start < qs[j]
    ensures var r := ConsumeQuotes(s, qs, a, ws[k].end, qi, 0);
      && r.1 == 0 && r.0 <= |qs|
      && (k + 1 < |ws| ==> forall j :: r.0 <= j < |qs| ==> ws[k + 1].start < qs[j])
  {
    var e := ws[k].end;
    var r := ConsumeQuotes(s, qs, a, e, qi, 0);
    ConsumeQuotesCounts(s, qs, a, e, qi, 0);
    forall j | qi <= j < r.0 ensures qs[j] != a && qs[j] != e - 1 {
      InsideThisWord(s, ws, k, qs[j]);
    }
    NoneCounted(qs, qi, r.0, a, e);
    if k + 1 < |ws| && r.0 < |qs| {
      assert e <= qs[r.0];
      forall j | r.0 <= j < |qs| ensures ws[k + 1].start < qs[j] {
        InsideLaterWord(s, ws, k, qs[j]);
      }
    }
  }

  /** With every quote inside a word, a pass behaves as without quotes. */
  lemma InnerStep(s: string, ws: seq<Span>, qs: seq<nat>, k: nat, qi: nat)
    requires Increasing(s, ws) && k < |ws| && qi <= |qs|
    requires forall i, j :: 0 <= i < j < |qs| ==> qs[i] < qs[j]
    requires forall j :: 0 <= j < |qs| ==> InsideSomeWord(ws, qs[j])
    requires forall j :: qi <= j < |qs| ==> ws[k].start < qs[j]
    ensures var c := PlainCursor(s, ws, k).(quote := qi);
      var r := ConsumeQuotes(s, qs, c.argStart, ws[k].end, qi, 0);
      && r.0 <= |qs|
      && (k + 1 < |ws| ==> forall j :: r.0 <= j < |qs| ==> ws[k + 1].start < qs[j])
      && Step(s, ws, qs, c) == PlainCursor(s, ws, k + 1).(quote := r.0)
  {
    var c := PlainCursor(s, ws, k).(quote := qi);
    var e := ws[k].end;
    InnerConsume(s, ws, qs, k, c.argStart, qi);
    var r := ConsumeQuotes(s, qs, c.argStart, e, qi, 0);
    assert Step(s, ws, qs, c) == Cursor(k + 1, WordStart(s, ws, k + 1), e, r.0, 0, WithGap(s, c) + [s[c.argStart..e]]);
    PlainStep(s, ws, k);
    assert ConsumeQuotes(s, [], c.argStart, e, 0, 0) == (0, 0);
  }

  lemma {:induction false} InnerScan(s: string, ws: seq<Span>, qs: seq<nat>, k: nat, qi: nat)
    requires Increasing(s, ws) && k <= |ws| && qi <= |qs|
    requires forall i, j :: 0 <= i < j < |qs| ==> qs[i] < qs[j]
    requires forall j :: 0 <= j < |qs| ==> InsideSomeWord(ws, qs[j])
    requires k < |ws| ==> forall j :: qi <= j < |qs| ==> ws[k].start < qs[j]
    ensures Scan(s, ws, qs, PlainCursor(s, ws, k).(quote := qi)).output == PlainCursor(s, ws, |ws|).output
    decreases |ws| - k
  {
    if k < |ws| {
      var c := PlainCursor(s, ws, k).(quote := qi);
      var r := ConsumeQuotes(s, qs, c.argStart, ws[k].end, qi, 0);
      InnerStep(s, ws, qs, k, qi);
      InnerScan(s, ws, qs, k + 1, r.0);
    }
  }

  /** The quote stream of such a line lists only quotes inside words, in
      increasing order. */
  lemma StreamInsideWords(s: string)
    requires forall q :: 0 <= q < |s| && Recorded(s, q) ==> InsideSomeWord(Words(s), q)
    ensures forall i, j :: 0 <= i < j < |QuoteStream(s)| ==> QuoteStream(s)[i] < QuoteStream(s)[j]
    ensures forall j :: 0 <= j < |QuoteStream(s)| ==> InsideSomeWord(Words(s), QuoteStream(s)[j])
  {
    var qs := QuoteStream(s);
    QuoteStreamIsRecorded(s);
    forall j | 0 <= j < |qs| ensures InsideSomeWord(Words(s), qs[j]) {
      assert qs[j] in qs;
    }
  }

  /** Quotes within words are ignored: when every recorded quote lies
      strictly inside a word, the parse is the plain split, exactly as if
      the line had no quotes. */
  lemma InnerQuotesParse(s: string)
    requires forall q :: 0 <= q < |s| && Recorded(s, q) ==> InsideSomeWord(Words(s), q)
    ensures Increasing(s, Words(s))
    ensures Parse(s) == WordsAndGaps(s, Words(s))
  {
    var ws, qs := Words(s), QuoteStream(s);
    StreamInsideWords(s);
    if ws != [] {
      forall j | 0 <= j < |qs| ensures ws[0].start < qs[j] {
        InsidePastFirst(s, ws, qs[j]);
      }
    }
    InnerScan(s, ws, qs, 0, 0);
    assert PlainCursor(s, ws, 0).(quote := 0) == Cursor(0, 0, 0, 0, 0, []);
    assert ws[..|ws|] == ws;
  }
}
