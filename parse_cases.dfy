/** The worked example from the ParseArguments documentation
    (get_argument.h:42-50), checked against the model. */
module ParseCases {
  import opened Scanner
  import opened Reconstructor
  import opened Tokenizer
  import opened Extraction

  /** The documented command line: arg1, two spaces, arg2, a space, a quoted
      argument with a space inside, three spaces, and an argument with a
      quote inside it. */
  const DocLine: string := "arg1  arg2 \"arg 3\"   arg\"4"

  /** Its word matches and recorded quotes. */
  const DocSpans: seq<Span> := [Span(0, 4), Span(6, 10), Span(11, 15), Span(16, 18), Span(21, 26)]
  const DocQuotes: seq<nat> := [11, 17, 24]

  // ---------------------------------------------------------------------
  // General stepping lemmas
  // ---------------------------------------------------------------------

  /** One word of the word stream, once its boundaries are known. */
  lemma WordsStep(s: string, i: nat, a: nat, b: nat)
    requires i <= |s| && SkipSeparators(s, i) == a < |s| && SkipWord(s, a) == b
    ensures WordsFrom(s, i) == [Span(a, b)] + WordsFrom(s, b)
  {
  }

  /** A quote after a character that is neither a backslash nor a quote is
      recorded. */
  lemma RecordedAfterPlain(s: string, q: nat)
    requires 0 < q < |s| && s[q] == '"' && s[q - 1] != '\\' && s[q - 1] != '"'
    ensures RecordedFrom(s, q) == [q] + RecordedFrom(s, q + 1)
  {
    assert BackslashesBefore(s, q) == 0;
    assert !Recorded(s, q - 1);
  }

  // ---------------------------------------------------------------------
  // The word stream of DocLine
  // ---------------------------------------------------------------------

  lemma DocSkip1() ensures SkipSeparators(DocLine, 0) == 0 {}
  lemma DocSkip2() ensures SkipWord(DocLine, 0) == 4 {}
  lemma DocSkip3() ensures SkipSeparators(DocLine, 4) == 6 {}
  lemma DocSkip4() ensures SkipWord(DocLine, 6) == 10 {}
  lemma DocSkip5() ensures SkipSeparators(DocLine, 10) == 11 {}
  lemma DocSkip6() ensures SkipWord(DocLine, 11) == 15 {}
  lemma DocSkip7() ensures SkipSeparators(DocLine, 15) == 16 {}
  lemma DocSkip8() ensures SkipWord(DocLine, 16) == 18 {}
  lemma DocSkip9() ensures SkipSeparators(DocLine, 18) == 21 {}
  lemma DocSkip10() ensures SkipWord(DocLine, 21) == 26 {}
  lemma DocSkip11() ensures SkipSeparators(DocLine, 26) == 26 {}

  lemma DocWords()
    ensures Words(DocLine) == DocSpans
  {
    DocSkip1(); DocSkip2(); DocSkip3(); DocSkip4(); DocSkip5(); DocSkip6();
    DocSkip7(); DocSkip8(); DocSkip9(); DocSkip10(); DocSkip11();
    WordsStep(DocLine, 18, 21, 26);
    WordsStep(DocLine, 15, 16, 18);
    WordsStep(DocLine, 10, 11, 15);
    WordsStep(DocLine, 4, 6, 10);
    WordsStep(DocLine, 0, 0, 4);
  }

  // ---------------------------------------------------------------------
  // The quote stream of DocLine
  // ---------------------------------------------------------------------

  /** The recorded quotes of any line of length 26 whose quotes sit where
      DocLine's do. */
  lemma RecordedOfDocShape(s: string)
    requires |s| == 26
    requires forall i :: 0 <= i < 11 ==> s[i] != '"'
    requires forall i :: 12 <= i < 17 ==> s[i] != '"'
    requires forall i :: 18 <= i < 24 ==> s[i] != '"'
    requires s[10] == ' ' && s[11] == '"' && s[16] == '3' && s[17] == '"'
    requires s[23] == 'g' && s[24] == '"' && s[25] == '4'
    ensures RecordedFrom(s, 0) == DocQuotes
  {
    QuoteFreeStretch(s, 25, 26);
    assert RecordedFrom(s, 25) == [];
    RecordedAfterPlain(s, 24);
    QuoteFreeStretch(s, 18, 24);
    assert RecordedFrom(s, 18) == [24];
    RecordedAfterPlain(s, 17);
    QuoteFreeStretch(s, 12, 17);
    assert RecordedFrom(s, 12) == [17, 24];
    RecordedAfterPlain(s, 11);
    QuoteFreeStretch(s, 0, 11);
  }

  /** Where DocLine's quote characters are, and the characters around them. */
  lemma DocChars()
    ensures |DocLine| == 26
    ensures forall i :: 0 <= i < 11 ==> DocLine[i] != '"'
    ensures forall i :: 12 <= i < 17 ==> DocLine[i] != '"'
    ensures forall i :: 18 <= i < 24 ==> DocLine[i] != '"'
    ensures DocLine[10] == ' ' && DocLine[11] == '"' && DocLine[16] == '3' && DocLine[17] == '"'
    ensures DocLine[23] == 'g' && DocLine[24] == '"' && DocLine[25] == '4'
  {}

  lemma DocQuoteStream()
    ensures QuoteStream(DocLine) == DocQuotes
  {
    DocChars();
    RecordedOfDocShape(DocLine);
    QuotesFromRecorded(DocLine, 0);
  }

  // ---------------------------------------------------------------------
  // The run of ParseArguments on DocLine, one outer pass at a time
  // ---------------------------------------------------------------------

  lemma DocIncreasing(s: string)
    requires |s| == 26
    ensures Increasing(s, DocSpans)
  {
  }

  /** arg1 closes at once (no quote in it). */
  lemma DocStep1(s: string)
    requires |s| == 26 && Increasing(s, DocSpans)
    ensures Step(s, DocSpans, DocQuotes, Cursor(0, 0, 0, 0, 0, []))
         == Cursor(1, 6, 4, 0, 0, [s[0..4]])
  {
  }

  /** The gap, then arg2. */
  lemma DocStep2(s: string)
    requires |s| == 26 && Increasing(s, DocSpans)
    ensures Step(s, DocSpans, DocQuotes, Cursor(1, 6, 4, 0, 0, [s[0..4]]))
         == Cursor(2, 11, 10, 0, 0, [s[0..4], s[4..6], s[6..10]])
  {
  }

  /** The gap, then `"arg`: the quote at the argument start opens it. */
  lemma DocStep3(s: string)
    requires |s| == 26 && Increasing(s, DocSpans)
    ensures Step(s, DocSpans, DocQuotes, Cursor(2, 11, 10, 0, 0, [s[0..4], s[4..6], s[6..10]]))
         == Cursor(3, 11, 15, 1, 1, [s[0..4], s[4..6], s[6..10], s[10..11]])
  {
    assert ConsumeQuotes(s, DocQuotes, 11, 15, 0, 0) == (1, 1);
  }

  /** `3"`: the quote at the word's end closes the argument `"arg 3"`. */
  lemma DocStep4(s: string)
    requires |s| == 26 && Increasing(s, DocSpans)
    ensures Step(s, DocSpans, DocQuotes, Cursor(3, 11, 15, 1, 1, [s[0..4], s[4..6], s[6..10], s[10..11]]))
         == Cursor(4, 21, 18, 2, 2, [s[0..4], s[4..6], s[6..10], s[10..11], s[11..18]])
  {
    assert ConsumeQuotes(s, DocQuotes, 11, 18, 1, 1) == (2, 2);
  }

  /** The gap, then `arg"4`: its quote is inside the word and not counted. */
  lemma DocStep5(s: string)
    requires |s| == 26 && Increasing(s, DocSpans)
    ensures Step(s, DocSpans, DocQuotes, Cursor(4, 21, 18, 2, 2, [s[0..4], s[4..6], s[6..10], s[10..11], s[11..18]]))
         == Cursor(5, 26, 26, 3, 2, [s[0..4], s[4..6], s[6..10], s[10..11], s[11..18], s[18..21], s[21..26]])
  {
    assert ConsumeQuotes(s, DocQuotes, 21, 26, 2, 2) == (3, 2);
  }

  /** The whole outer loop on any line with DocLine's streams. */
  lemma ParseOfDocShape(s: string)
    requires |s| == 26 && Words(s) == DocSpans && QuoteStream(s) == DocQuotes
    ensures Parse(s) == [s[0..4], s[4..6], s[6..10], s[10..11], s[11..18], s[18..21], s[21..26]]
  {
    DocIncreasing(s);
    DocStep1(s); DocStep2(s); DocStep3(s); DocStep4(s); DocStep5(s);
    var ws, qs := DocSpans, DocQuotes;
    var c0 := Cursor(0, 0, 0, 0, 0, []);
    var c1 := Step(s, ws, qs, c0);
    var c2 := Step(s, ws, qs, c1);
    var c3 := Step(s, ws, qs, c2);
    var c4 := Step(s, ws, qs, c3);
    var c5 := Step(s, ws, qs, c4);
    assert Scan(s, ws, qs, c0) == Scan(s, ws, qs, c1) == Scan(s, ws, qs, c2) == Scan(s, ws, qs, c3)
        == Scan(s, ws, qs, c4) == Scan(s, ws, qs, c5) == c5;
  }

  lemma DocSlice1() ensures DocLine[0..4] == "arg1" {}
  lemma DocSlice2() ensures DocLine[4..6] == "  " {}
  lemma DocSlice3() ensures DocLine[6..10] == "arg2" {}
  lemma DocSlice4() ensures DocLine[10..11] == " " {}
  lemma DocSlice5() ensures DocLine[11..18] == "\"arg 3\"" {}
  lemma DocSlice6() ensures DocLine[18..21] == "   " {}
  lemma DocSlice7() ensures DocLine[21..26] == "arg\"4" {}

  /** The documented result: seven tokens, the quoted argument kept whole with
      its quotes, the quote inside `arg"4` ignored, and the separator runs
      kept as tokens of their own. */
  lemma DocExample()
    ensures Parse(DocLine) == ["arg1", "  ", "arg2", " ", "\"arg 3\"", "   ", "arg\"4"]
  {
    DocWords();
    DocQuoteStream();
    DocChars();
    ParseOfDocShape(DocLine);
    DocSlice1(); DocSlice2(); DocSlice3(); DocSlice4(); DocSlice5(); DocSlice6(); DocSlice7();
  }

  // ---------------------------------------------------------------------
  // A quote inside a word, and escaped quotes
  // ---------------------------------------------------------------------

  /** SkipWord runs to the end of a tail of word characters. */
  lemma {:induction false} SkipWordToEnd(s: string, i: nat)
    requires i <= |s| && forall k :: i <= k < |s| ==> IsWordChar(s[k])
    ensures SkipWord(s, i) == |s|
    decreases |s| - i
  {
    if i < |s| {
      SkipWordToEnd(s, i + 1);
    }
  }

  /** A line made of word characters only is a single word. */
  lemma SingleWord(s: string)
    requires s != [] && forall k :: 0 <= k < |s| ==> IsWordChar(s[k])
    ensures Words(s) == [Span(0, |s|)]
  {
    SkipWordToEnd(s, 0);
    assert SkipSeparators(s, 0) == 0;
    assert WordsFrom(s, |s|) == [];
    assert WordsFrom(s, 0) == [Span(0, |s|)] + WordsFrom(s, |s|);
  }

  /** A quote in the middle of a word is consumed but does not count. */
  const MidLine: string := "arg\"4"

  lemma MidFacts()
    ensures |MidLine| == 5 && MidLine[2] == 'g' && MidLine[3] == '"'
    ensures forall k :: 0 <= k < 3 ==> MidLine[k] != '"'
    ensures MidLine[4] != '"'
    ensures forall k :: 0 <= k < |MidLine| ==> IsWordChar(MidLine[k])
  {}

  lemma MidQuotes() ensures QuoteStream(MidLine) == [3]
  {
    MidFacts();
    QuotesFromRecorded(MidLine, 0);
    QuoteFreeStretch(MidLine, 0, 3);
    RecordedAfterPlain(MidLine, 3);
    QuoteFreeStretch(MidLine, 4, 5);
  }

  /** The single-word run with one uncounted quote inside the word. */
  lemma ParseOfMidShape(s: string)
    requires |s| == 5 && Words(s) == [Span(0, 5)] && QuoteStream(s) == [3]
    ensures Parse(s) == [s]
  {
    var ws, qs := [Span(0, 5)], [3];
    assert Increasing(s, ws);
    assert ConsumeQuotes(s, qs, 0, 5, 0, 0) == (1, 0);
    var c1 := Step(s, ws, qs, Cursor(0, 0, 0, 0, 0, []));
    assert c1 == Cursor(1, 5, 5, 1, 0, [s[0..5]]);
    assert Scan(s, ws, qs, Cursor(0, 0, 0, 0, 0, [])) == Scan(s, ws, qs, c1) == c1;
    assert s[0..5] == s;
  }

  lemma MidExample()
    ensures Parse(MidLine) == ["arg\"4"]
  {
    MidFacts();
    SingleWord(MidLine);
    MidQuotes();
    ParseOfMidShape(MidLine);
  }

  /** An empty quoted argument: the regex consumes the opening quote as the
      character before the closing one, so the closing quote is never
      recorded, the argument never closes, and the line is dropped. */
  const EmptyQuotedLine: string := "\"\""

  lemma EmptyQuotedFacts()
    ensures |EmptyQuotedLine| == 2 && EmptyQuotedLine[0] == '"' && EmptyQuotedLine[1] == '"'
    ensures forall k :: 0 <= k < |EmptyQuotedLine| ==> IsWordChar(EmptyQuotedLine[k])
  {}

  /** Only the opening quote of `""` is recorded. */
  lemma EmptyQuotedStream(s: string)
    requires |s| == 2 && s[0] == '"' && s[1] == '"'
    ensures QuoteStream(s) == [0]
  {
    QuotesFromRecorded(s, 0);
    assert BackslashesBefore(s, 0) == 0 && Recorded(s, 0);
    assert BackslashesBefore(s, 1) == 0 && !Recorded(s, 1);
    assert RecordedFrom(s, 2) == [];
    assert RecordedFrom(s, 1) == [];
    assert RecordedFrom(s, 0) == [0];
  }

  /** The one word of `""` opens an argument that nothing closes. */
  lemma ParseOfEmptyQuotedShape(s: string)
    requires |s| == 2 && Words(s) == [Span(0, 2)] && QuoteStream(s) == [0]
    ensures Parse(s) == [] && !QuotesClosed(s)
  {
    var ws, qs := [Span(0, 2)], [0];
    assert ConsumeQuotes(s, qs, 0, 2, 0, 0) == (1, 1);
    var c1 := Step(s, ws, qs, Cursor(0, 0, 0, 0, 0, []));
    assert c1 == Cursor(1, 0, 2, 1, 1, []);
    assert Scan(s, ws, qs, Cursor(0, 0, 0, 0, 0, [])) == Scan(s, ws, qs, c1) == c1;
  }

  lemma EmptyQuotedExample()
    ensures Parse(EmptyQuotedLine) == [] && !QuotesClosed(EmptyQuotedLine)
  {
    EmptyQuotedFacts();
    SingleWord(EmptyQuotedLine);
    EmptyQuotedStream(EmptyQuotedLine);
    ParseOfEmptyQuotedShape(EmptyQuotedLine);
  }

  /** A quote after an odd run of backslashes is not recorded. */
  lemma OddRunNotRecorded(s: string, q: nat)
    requires 0 < q < |s| && s[q - 1] == '\\' && (q == 1 || s[q - 2] != '\\')
    ensures RecordedFrom(s, q) == RecordedFrom(s, q + 1)
  {
    assert BackslashesBefore(s, q - 1) == 0;
  }

  /** Escaped quotes around a word: `\"arg\"`. */
  const EscLine: string := "\\\"arg\\\""

  lemma EscFacts()
    ensures |EscLine| == 7 && EscLine[0] == '\\' && EscLine[4] == 'g' && EscLine[5] == '\\'
    ensures EscLine[0] != '"' && forall i :: 2 <= i < 5 ==> EscLine[i] != '"'
    ensures forall k :: 0 <= k < |EscLine| ==> IsWordChar(EscLine[k])
  {}

  lemma EscQuotes() ensures QuoteStream(EscLine) == []
  {
    EscFacts();
    QuotesFromRecorded(EscLine, 0);
    QuoteFreeStretch(EscLine, 0, 1);
    OddRunNotRecorded(EscLine, 1);
    QuoteFreeStretch(EscLine, 2, 5);
    QuoteFreeStretch(EscLine, 5, 6);
    OddRunNotRecorded(EscLine, 6);
  }

  /** The escaped quotes are ordinary characters of one argument. */
  lemma EscExample()
    ensures Parse(EscLine) == [EscLine]
  {
    EscFacts();
    EscQuotes();
    SingleWord(EscLine);
    UnquotedParse(EscLine);
    assert EscLine[..7] == EscLine;
  }

  // ---------------------------------------------------------------------
  // Positional lookup
  // ---------------------------------------------------------------------

  /** Two plain arguments and a quoted one. */
  const PosLine: string := "arg1 arg2 \"arg 3\""
  const PosSpans: seq<Span> := [Span(0, 4), Span(5, 9), Span(10, 14), Span(15, 17)]

  lemma PosSkip1() ensures SkipSeparators(PosLine, 0) == 0 {}
  lemma PosSkip2() ensures SkipWord(PosLine, 0) == 4 {}
  lemma PosSkip3() ensures SkipSeparators(PosLine, 4) == 5 {}
  lemma PosSkip4() ensures SkipWord(PosLine, 5) == 9 {}
  lemma PosSkip5() ensures SkipSeparators(PosLine, 9) == 10 {}
  lemma PosSkip6() ensures SkipWord(PosLine, 10) == 14 {}
  lemma PosSkip7() ensures SkipSeparators(PosLine, 14) == 15 {}
  lemma PosSkip8() ensures SkipWord(PosLine, 15) == 17 {}
  lemma PosSkip9() ensures SkipSeparators(PosLine, 17) == 17 {}

  lemma PosWords()
    ensures Words(PosLine) == PosSpans
  {
    PosSkip1(); PosSkip2(); PosSkip3(); PosSkip4(); PosSkip5(); PosSkip6(); PosSkip7(); PosSkip8(); PosSkip9();
    WordsStep(PosLine, 14, 15, 17);
    WordsStep(PosLine, 9, 10, 14);
    WordsStep(PosLine, 4, 5, 9);
    WordsStep(PosLine, 0, 0, 4);
  }

  lemma PosFacts()
    ensures |PosLine| == 17
    ensures forall i :: 0 <= i < 10 ==> PosLine[i] != '"'
    ensures forall i :: 11 <= i < 16 ==> PosLine[i] != '"'
    ensures PosLine[9] == ' ' && PosLine[10] == '"' && PosLine[15] == '3' && PosLine[16] == '"'
  {}

  /** The recorded quotes of any line of length 17 whose quotes sit where
      PosLine's do. */
  lemma RecordedOfPosShape(s: string)
    requires |s| == 17
    requires forall i :: 0 <= i < 10 ==> s[i] != '"'
    requires forall i :: 11 <= i < 16 ==> s[i] != '"'
    requires s[9] == ' ' && s[10] == '"' && s[15] == '3' && s[16] == '"'
    ensures RecordedFrom(s, 0) == [10, 16]
  {
    assert RecordedFrom(s, 17) == [];
    RecordedAfterPlain(s, 16);
    QuoteFreeStretch(s, 11, 16);
    assert RecordedFrom(s, 11) == [16];
    RecordedAfterPlain(s, 10);
    QuoteFreeStretch(s, 0, 10);
  }

  lemma PosQuotes()
    ensures QuoteStream(PosLine) == [10, 16]
  {
    PosFacts();
    RecordedOfPosShape(PosLine);
    QuotesFromRecorded(PosLine, 0);
  }

  lemma PosStep1(s: string)
    requires |s| == 17 && Increasing(s, PosSpans)
    ensures Step(s, PosSpans, [10, 16], Cursor(0, 0, 0, 0, 0, [])) == Cursor(1, 5, 4, 0, 0, [s[0..4]])
  {
  }

  lemma PosStep2(s: string)
    requires |s| == 17 && Increasing(s, PosSpans)
    ensures Step(s, PosSpans, [10, 16], Cursor(1, 5, 4, 0, 0, [s[0..4]]))
         == Cursor(2, 10, 9, 0, 0, [s[0..4], s[4..5], s[5..9]])
  {
  }

  /** The quote at the argument start opens `"arg 3"`. */
  lemma PosStep3(s: string)
    requires |s| == 17 && Increasing(s, PosSpans)
    ensures Step(s, PosSpans, [10, 16], Cursor(2, 10, 9, 0, 0, [s[0..4], s[4..5], s[5..9]]))
         == Cursor(3, 10, 14, 1, 1, [s[0..4], s[4..5], s[5..9], s[9..10]])
  {
    assert ConsumeQuotes(s, [10, 16], 10, 14, 0, 0) == (1, 1);
  }

  /** The quote at the line's last character closes it. */
  lemma PosStep4(s: string)
    requires |s| == 17 && Increasing(s, PosSpans)
    ensures Step(s, PosSpans, [10, 16], Cursor(3, 10, 14, 1, 1, [s[0..4], s[4..5], s[5..9], s[9..10]]))
         == Cursor(4, 17, 17, 2, 2, [s[0..4], s[4..5], s[5..9], s[9..10], s[10..17]])
  {
    assert ConsumeQuotes(s, [10, 16], 10, 17, 1, 1) == (2, 2);
  }

  /** The outer loop on any line with PosLine's streams. */
  lemma ParseOfPosShape(s: string)
    requires |s| == 17 && Words(s) == PosSpans && QuoteStream(s) == [10, 16]
    ensures Parse(s) == [s[0..4], s[4..5], s[5..9], s[9..10], s[10..17]]
  {
    var ws, qs := PosSpans, [10, 16];
    assert Increasing(s, ws);
    PosStep1(s); PosStep2(s); PosStep3(s); PosStep4(s);
    var c0 := Cursor(0, 0, 0, 0, 0, []);
    var c1 := Step(s, ws, qs, c0);
    var c2 := Step(s, ws, qs, c1);
    var c3 := Step(s, ws, qs, c2);
    var c4 := Step(s, ws, qs, c3);
    assert Scan(s, ws, qs, c0) == Scan(s, ws, qs, c1) == Scan(s, ws, qs, c2) == Scan(s, ws, qs, c3)
        == Scan(s, ws, qs, c4) == c4;
  }

  /** The five pieces of PosLine between the word and argument bounds. */
  lemma PosSlices()
    ensures PosLine[0..4] == "arg1" && PosLine[4..5] == " " && PosLine[5..9] == "arg2"
    ensures PosLine[9..10] == " " && PosLine[10..17] == "\"arg 3\""
  {
    assert PosLine[10..17] == PosLine[10..];
  }

  lemma PosExample()
    ensures Parse(PosLine) == ["arg1", " ", "arg2", " ", "\"arg 3\""]
  {
    PosFacts();
    PosWords();
    PosQuotes();
    ParseOfPosShape(PosLine);
    PosSlices();
  }

  /** Arguments 0, 1 and 2 are found in turn, the quoted one with its
      quotes; there is no argument 3.  Emptying slots keeps later positions
      where they were. */
  method PositionalExample() returns (v0: string, v1: string, v2: string, found3: bool)
    ensures v0 == "arg1" && v1 == "arg2" && v2 == "\"arg 3\"" && !found3
  {
    PosExample();
    var list := new ArgumentList.FromLine(PosLine);
    var found: bool, v3: string;
    found, v0 := list.GetPositional(0);
    found, v1 := list.GetPositional(1);
    found, v2 := list.GetPositional(2);
    found3, v3 := list.GetPositional(3);
  }

  // ---------------------------------------------------------------------
  // Flag and named-value lookup
  // ---------------------------------------------------------------------

  const FlagLine: string := "run --verbose now"

  lemma FlagSkip1() ensures SkipSeparators(FlagLine, 0) == 0 {}
  lemma FlagSkip2() ensures SkipWord(FlagLine, 0) == 3 {}
  lemma FlagSkip3() ensures SkipSeparators(FlagLine, 3) == 4 {}
  lemma FlagSkip4() ensures SkipWord(FlagLine, 4) == 13 {}
  lemma FlagSkip5() ensures SkipSeparators(FlagLine, 13) == 14 {}
  lemma FlagSkip6() ensures SkipWord(FlagLine, 14) == 17 {}
  lemma FlagSkip7() ensures SkipSeparators(FlagLine, 17) == 17 {}

  lemma FlagWords()
    ensures Words(FlagLine) == [Span(0, 3), Span(4, 13), Span(14, 17)]
  {
    FlagSkip1(); FlagSkip2(); FlagSkip3(); FlagSkip4(); FlagSkip5(); FlagSkip6(); FlagSkip7();
    WordsStep(FlagLine, 13, 14, 17);
    WordsStep(FlagLine, 3, 4, 13);
    WordsStep(FlagLine, 0, 0, 3);
  }

  /** Two words and the gap between them. */
  lemma TwoWords(s: string, a: nat, b: nat, c: nat)
    requires 0 < a < b < c <= |s|
    ensures Increasing(s, [Span(0, a), Span(b, c)])
    ensures WordsAndGaps(s, [Span(0, a), Span(b, c)]) == [s[..a], s[a..b], s[b..c]]
  {
    assert [Span(0, a), Span(b, c)][..1] == [Span(0, a)];
  }

  /** Three words and the gaps between them. */
  lemma ThreeWords(s: string, a: nat, b: nat, c: nat, d: nat, e: nat)
    requires 0 < a < b < c < d < e <= |s|
    ensures Increasing(s, [Span(0, a), Span(b, c), Span(d, e)])
    ensures WordsAndGaps(s, [Span(0, a), Span(b, c), Span(d, e)]) == [s[..a], s[a..b], s[b..c], s[c..d], s[d..e]]
  {
    var ws := [Span(0, a), Span(b, c), Span(d, e)];
    assert ws[..2] == [Span(0, a), Span(b, c)];
    TwoWords(s, a, b, c);
  }

  lemma FlagFacts()
    ensures |FlagLine| == 17 && forall i :: 0 <= i < |FlagLine| ==> FlagLine[i] != '"'
    ensures FlagLine[..3] == "run" && FlagLine[3..4] == " " && FlagLine[4..13] == "--verbose"
    ensures FlagLine[13..14] == " " && FlagLine[14..17] == "now"
  {}

  lemma FlagParse()
    ensures Parse(FlagLine) == ["run", " ", "--verbose", " ", "now"]
  {
    FlagFacts();
    FlagWords();
    PlainLine(FlagLine);
    ThreeWords(FlagLine, 3, 4, 13, 14, 17);
  }

  /** The stand-in for the caller's pattern `--verbose`. */
  predicate IsVerbose(t: string) {
    t == "--verbose"
  }

  /** A two-token line rebuilds to the two texts joined. */
  lemma CollapsePair(x: string, y: string)
    ensures Collapse([x, y]) == x + y
  {
    assert [x, y][..1] == [x];
    assert [x][..0] == [];
    assert Collapse([x]) == [] + x == x;
  }

  lemma FlagClearedTokens(ts: seq<string>)
    requires ts == ["run", " ", "--verbose", " ", "now"]
    ensures FirstMatch(ts, IsVerbose) == Some(2)
    ensures Collapse(Cleared(ts, 2, 4)) == "run now"
  {
    assert !IsVerbose(ts[0]) && !IsVerbose(ts[1]) && IsVerbose(ts[2]);
    CollapseCleared(ts, 2, 4);
    assert ts[..2] == ["run", " "] && ts[4..] == ["now"];
    CollapsePair("run", " ");
    assert Collapse(["now"]) == "now" by {
      assert ["now"][..0] == [];
    }
  }

  lemma FlagCleared()
    ensures FirstMatch(Parse(FlagLine), IsVerbose) == Some(2)
    ensures Collapse(Cleared(Parse(FlagLine), 2, 4)) == "run now"
  {
    FlagParse();
    FlagClearedTokens(Parse(FlagLine));
  }

  /** The flag and the gap after it go; the rest rebuilds `run now`. */
  method FlagExample() returns (found: bool, rest: string)
    ensures found && rest == "run now"
  {
    FlagCleared();
    var list := new ArgumentList.FromLine(FlagLine);
    found := list.GetFlag(IsVerbose);
    rest := CollapseArguments(list.args);
  }

  const NameLine: string := "--name"

  /** The stand-in for the caller's pattern `--name`. */
  predicate IsName(t: string) {
    t == "--name"
  }

  /** `--name` alone parses to one token. */
  lemma NameParse()
    ensures Parse(NameLine) == [NameLine]
  {
    assert forall k :: 0 <= k < |NameLine| ==> IsWordChar(NameLine[k]) && NameLine[k] != '"';
    SingleWord(NameLine);
    PlainLine(NameLine);
    assert NameLine[..6] == NameLine;
  }

  /** A name with nothing after it is not a named value: nothing changes. */
  method NamedMissingExample() returns (found: bool, value: string, rest: string)
    ensures !found && value == [] && rest == "--name"
  {
    NameParse();
    var list := new ArgumentList.FromLine(NameLine);
    found, value := list.GetNamed(IsName);
    rest := CollapseArguments(list.args);
  }

  const OutLine: string := "--out file.txt"

  lemma OutSkip1() ensures SkipSeparators(OutLine, 0) == 0 {}
  lemma OutSkip2() ensures SkipWord(OutLine, 0) == 5 {}
  lemma OutSkip3() ensures SkipSeparators(OutLine, 5) == 6 {}
  lemma OutSkip4() ensures SkipWord(OutLine, 6) == 14 {}
  lemma OutSkip5() ensures SkipSeparators(OutLine, 14) == 14 {}

  lemma OutFacts()
    ensures |OutLine| == 14 && forall i :: 0 <= i < |OutLine| ==> OutLine[i] != '"'
    ensures OutLine[..5] == "--out" && OutLine[5..6] == " " && OutLine[6..14] == "file.txt"
  {}

  lemma OutWords()
    ensures Words(OutLine) == [Span(0, 5), Span(6, 14)]
  {
    OutSkip1(); OutSkip2(); OutSkip3(); OutSkip4(); OutSkip5();
    WordsStep(OutLine, 5, 6, 14);
    WordsStep(OutLine, 0, 0, 5);
  }

  lemma OutParse()
    ensures Parse(OutLine) == ["--out", " ", "file.txt"]
  {
    OutFacts();
    OutWords();
    PlainLine(OutLine);
    TwoWords(OutLine, 5, 6, 14);
  }

  /** The stand-in for the caller's pattern `--out`. */
  predicate IsOut(t: string) {
    t == "--out"
  }

  lemma OutCleared()
    ensures FirstNamed(Parse(OutLine), IsOut) == Some(0)
    ensures Collapse(Cleared(Parse(OutLine), 0, 4)) == []
  {
    OutParse();
    var ts := Parse(OutLine);
    assert IsOut(ts[0]);
    CollapseCleared(ts, 0, 4);
    assert ts[..0] == [] && ts[3..] == [];
  }

  /** The value after the name is handed out; every slot is emptied. */
  method NamedFoundExample() returns (found: bool, value: string, rest: string)
    ensures found && value == "file.txt" && rest == []
  {
    OutParse();
    OutCleared();
    var list := new ArgumentList.FromLine(OutLine);
    found, value := list.GetNamed(IsOut);
    rest := CollapseArguments(list.args);
  }
}
