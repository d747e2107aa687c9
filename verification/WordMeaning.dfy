// What a word becomes, told apart from its scan: first its quotes and parameters are replaced, and
// then what is left is cut into fields, at the separators that came from a value outside of quotes.

module WordMeaning {
  import opened CStrings
  import opened Context
  import opened ShellText
  import opened Lexer
  import opened HereDocument
  import opened FieldSplitting
  import opened WordScan
  import opened Substitution

  // ---- Characters as they were come by ---------------------------------------------------

  /** A character that stays in its field, one of an unquoted value, and a place where there was a quote. */
  datatype Mark = Kept(c: char) | Bare(c: char) | Quote

  function KeptMarks(text: string): (ms: seq<Mark>)
    ensures |ms| == |text| && forall i :: 0 <= i < |ms| ==> ms[i] == Kept(text[i])
  {
    seq(|text|, i requires 0 <= i < |text| => Kept(text[i]))
  }

  function BareMarks(text: string): (ms: seq<Mark>)
    ensures |ms| == |text| && forall i :: 0 <= i < |ms| ==> ms[i] == Bare(text[i])
  {
    seq(|text|, i requires 0 <= i < |text| => Bare(text[i]))
  }

  /** What a pair of quotes encloses: single ones everything as it is, double ones with its parameters replaced. */
  ghost predicate IsInner(env: map<string, string>, status: int, word: string, j: nat, inner: string)
    requires IsClosedQuote(word, 0, j)
  {
    if word[0] == '\'' then inner == word[1..j - 1] else Writes(env, status, word[1..j - 1], inner)
  }

  /** The word without its quotes, its parameters replaced. */
  ghost predicate Marks(env: map<string, string>, status: int, word: string, ms: seq<Mark>)
    decreases |word|
  {
    if word == [] then ms == []
    else if QuoteOpens(word, 0) then
      exists j: nat, inner: string ::
        && IsClosedQuote(word, 0, j) && IsInner(env, status, word, j, inner)
        && [Quote] + KeptMarks(inner) <= ms && Marks(env, status, word[j..], ms[1 + |inner|..])
    else if ParameterStarts(word, 0) then
      exists j: nat, val: string ::
        && IsParameter(word, 0, j) && IsValue(env, status, word[1..j], val)
        && BareMarks(val) <= ms && Marks(env, status, word[j..], ms[|val|..])
    else ms != [] && ms[0] == Kept(word[0]) && Marks(env, status, word[1..], ms[1..])
  }

  /** Cuts at the separators of unquoted values; a quote makes a field even if nothing is in it. */
  function CutFields(open: Option<string>, ms: seq<Mark>): seq<string>
    decreases |ms|
  {
    if ms == [] then if open.Some? then [open.value] else []
    else match ms[0]
      case Quote => CutFields(Some(Text(open)), ms[1..])
      case Kept(c) => CutFields(Some(Text(open) + [c]), ms[1..])
      case Bare(c) =>
        if c == ' ' || c == '\t' || c == '\n' then (if open.Some? then [open.value] else []) + CutFields(None, ms[1..])
        else CutFields(Some(Text(open) + [c]), ms[1..])
  }

  // ---- Marks one behind the other --------------------------------------------------------

  lemma {:induction false} KeptAreGlued(open: Option<string>, text: string, rest: seq<Mark>)
    ensures text != [] ==> CutFields(open, KeptMarks(text) + rest) == CutFields(Some(Text(open) + text), rest)
    ensures CutFields(Some(Text(open)), KeptMarks(text) + rest) == CutFields(Some(Text(open) + text), rest)
    decreases |text|
  {
    var all := KeptMarks(text) + rest;
    if text == [] {
      assert all == rest && Text(open) + text == Text(open);
    } else {
      var next := Some(Text(open) + [text[0]]);
      KeptAreGlued(next, text[1..], rest);
      assert KeptMarks(text)[1..] == KeptMarks(text[1..]);
      assert all[1..] == KeptMarks(text[1..]) + rest;
      assert Text(next) + text[1..] == Text(open) + text;
    }
  }

  lemma {:induction false} BareAreSplit(open: Option<string>, val: string, rest: seq<Mark>)
    ensures var split := SplitOn(open, val);
      CutFields(open, BareMarks(val) + rest) == split.done + CutFields(split.open, rest)
    decreases |val|
  {
    var all := BareMarks(val) + rest;
    if val == [] {
      assert all == rest;
      assert [] + CutFields(open, rest) == CutFields(open, rest);
    } else {
      assert BareMarks(val)[1..] == BareMarks(val[1..]);
      assert all[1..] == BareMarks(val[1..]) + rest && all[0] == Bare(val[0]);
      if IsIfs(val[0]) {
        BareAreSplit(None, val[1..], rest);
        var split, ended := SplitOn(None, val[1..]), if open.Some? then [open.value] else [];
        assert ended + (split.done + CutFields(split.open, rest)) == ended + split.done + CutFields(split.open, rest);
      } else {
        BareAreSplit(Some(Text(open) + [val[0]]), val[1..], rest);
      }
    }
  }

  // ---- The scan's places -----------------------------------------------------------------

  lemma QuoteOrNot(word: string, i: nat) returns (j: nat)
    requires i < |word|
    ensures QuoteOpens(word, i) <==> HasClosingQuote(word, i)
    ensures HasClosingQuote(word, i) ==> IsClosedQuote(word, i, j)
  {
    j := 0;
    if HasClosingQuote(word, i) {
      QuoteIsClosed(word, i);
      var k :| 0 <= k < |word[i + 1..]| && word[i + 1..][k] == word[i];
      assert word[i + 1 + k] == word[i];
      j := QuoteEnd(word, i + 1, word[i]) + 1;
    }
    if m: nat :| IsClosedQuote(word, i, m) {
      assert word[i + 1..][m - 1 - (i + 1)] == word[i];
    }
  }

  /** The first characters of the word, of which none starts a quote or a parameter. */
  lemma {:induction false} KeptPrefix(env: map<string, string>, status: int, word: string, n: nat, ms: seq<Mark>)
    requires n <= |word| && Marks(env, status, word, ms)
    requires forall k: nat :: k < n ==> !QuoteOpens(word, k) && !ParameterStarts(word, k)
    ensures n <= |ms| && ms[..n] == KeptMarks(word[..n]) && Marks(env, status, word[n..], ms[n..])
    decreases n
  {
    hide QuoteOpens, ParameterStarts, Marks;
    if n == 0 {
      assert word[0..] == word && ms[0..] == ms;
    } else {
      assert !QuoteOpens(word, 0) && !ParameterStarts(word, 0);
      KeptFirst(env, status, word, ms);
      forall k: nat | k < n - 1 ensures !QuoteOpens(word[1..], k) && !ParameterStarts(word[1..], k) {
        StartsInRest(word, 1, k);
        OpensInRest(word, 1, k);
      }
      KeptPrefix(env, status, word[1..], n - 1, ms[1..]);
      assert word[1..][n - 1..] == word[n..] && ms[1..][n - 1..] == ms[n..];
      assert word[..n] == [word[0]] + word[1..][..n - 1] && ms[..n] == [ms[0]] + ms[1..][..n - 1];
    }
  }

  lemma KeptFirst(env: map<string, string>, status: int, word: string, ms: seq<Mark>)
    requires word != [] && !QuoteOpens(word, 0) && !ParameterStarts(word, 0) && Marks(env, status, word, ms)
    ensures ms != [] && ms[0] == Kept(word[0]) && Marks(env, status, word[1..], ms[1..])
  {
  }

  lemma OpensInRest(word: string, n: nat, i: nat)
    requires n + i < |word|
    ensures QuoteOpens(word[n..], i) <==> QuoteOpens(word, n + i)
  {
    var j := QuoteOrNot(word[n..], i);
    var k := QuoteOrNot(word, n + i);
    assert word[n..][i + 1..] == word[n + i + 1..];
  }

  lemma QuotedFirst(env: map<string, string>, status: int, word: string, j: nat, ms: seq<Mark>) returns (inner: string)
    requires IsClosedQuote(word, 0, j) && Marks(env, status, word, ms)
    ensures IsInner(env, status, word, j, inner) && [Quote] + KeptMarks(inner) <= ms
    ensures Marks(env, status, word[j..], ms[1 + |inner|..])
  {
    hide IsInner;
    assert QuoteOpens(word, 0);
    var k: nat, text: string :| IsClosedQuote(word, 0, k) && IsInner(env, status, word, k, text)
      && [Quote] + KeptMarks(text) <= ms && Marks(env, status, word[k..], ms[1 + |text|..]);
    QuoteEndsOnce(word, 0, j, k);
    inner := text;
  }

  lemma ParameterFirst(env: map<string, string>, status: int, word: string, j: nat, ms: seq<Mark>) returns (val: string)
    requires IsParameter(word, 0, j) && !QuoteOpens(word, 0) && Marks(env, status, word, ms)
    ensures IsValue(env, status, word[1..j], val) && BareMarks(val) <= ms
    ensures Marks(env, status, word[j..], ms[|val|..])
  {
    hide IsValue, ContinuesName, StartsName, QuoteOpens;
    assert ParameterStarts(word, 0);
    var k: nat, text: string :| IsParameter(word, 0, k) && IsValue(env, status, word[1..k], text)
      && BareMarks(text) <= ms && Marks(env, status, word[k..], ms[|text|..]);
    ParameterEndsOnce(word, 0, j, k);
    val := text;
  }

  /** What is taken as it is from the start of the word. */
  lemma {:induction false} PlainRun(word: string, i: nat)
    requires i <= |word|
    ensures forall k: nat :: i <= k < PlainEnd(word, i) ==> !QuoteOpens(word, k) && !ParameterStarts(word, k)
    decreases |word| - i
  {
    hide HasClosingQuote, IsExpansionStart, QuoteOpens, ParameterStarts;
    if i < |word| {
      var _ := QuoteOrNot(word, i);
      ParameterOrNot(word, i);
      if !HasClosingQuote(word, i) && !IsExpansionStart(word, i) { PlainRun(word, i + 1); }
    }
  }

  lemma {:induction false} DoubleRun(src: string, i: nat, e: nat)
    requires i <= e < |src| && src[e] == '"'
    ensures DoubleEnd(src, i) <= e
    ensures forall k: nat :: i <= k < DoubleEnd(src, i) ==> !ParameterStarts(src[..e], k)
    decreases e - i
  {
    hide IsExpansionStart, ParameterStarts;
    if src[i] != '"' && !IsExpansionStart(src, i) {
      DoubleRun(src, i + 1, e);
      ParameterOrNot(src[..e], i);
      StartsBefore(src, i, e);
    }
  }

  lemma StartsBefore(src: string, i: nat, e: nat)
    requires e <= |src|
    ensures IsExpansionStart(src[..e], i) ==> IsExpansionStart(src, i)
  {
  }

  /** A parameter ends before the quote that closes the text it is in. */
  lemma ParameterBefore(src: string, j: nat, e: nat)
    requires e < |src| && src[e] == '"' && 0 < e && IsParameter(src, 0, j)
    ensures j <= e && IsParameter(src[..e], 0, j)
  {
  }

  /** In double quotes a parameter is replaced by its value, which is not split. */
  lemma ParameterIsGlued(s: Scan, src: string, j: nat, env: map<string, string>, status: int, val: string)
    requires IsParameter(src, 0, j) && IsValue(env, status, src[1..j], val) && s.open.Some?
    ensures IsExpansionStart(src, 0) && j == ExpansionLen(src, 0)
    ensures ExpandParameter(s, src, InDouble, env, status) == Glue(s, val)
  {
    hide IsExpansionStart, Itoa;
    ParameterIsExpansion(src, 0, j);
    GlueNothing(s);
  }

  /** Up to its end, a double-quoted text is written with its parameters replaced. */
  lemma {:induction false} ScanWrites(
      src: string, e: nat, s: Scan, env: map<string, string>, status: int, out: string)
    requires e < |src| && src[e] == '"' && '"' !in src[..e] && s.open.Some? && Writes(env, status, src[..e], out)
    ensures ScanFrom(src, InDouble, s, env, status) == ScanFrom(src[e + 1..], Unquoted, Glue(s, out), env, status)
    decreases e
  {
    hide IsExpansionStart, ParameterStarts, Writes, IsValue, IsParameter, ExpandParameter, ScanFrom;
    if e == 0 {
      NothingElse(env, status, src[..e], out);
      QuoteCloses(src, s, env, status);
      GlueNothing(s);
    } else {
      assert src[0] == src[..e][0];
      ParameterOrNot(src, 0);
      var n, text;
      if IsExpansionStart(src, 0) {
        n := ExpansionLen(src, 0);
        ParameterBefore(src, n, e);
        text := ParameterWritten(env, status, src[..e], n, out);
        assert src[..e][1..n] == src[1..n];
        ParameterIsGlued(s, src, n, env, status, text);
        StepOverParameter(src, InDouble, s, env, status);
      } else {
        n := DoubleEnd(src, 0);
        text := src[..n];
        DoubleRun(src, 0, e);
        WrittenPrefix(env, status, src[..e], n, out);
        assert src[..e][..n] == text;
        StepOverText(src, s, env, status);
      }
      RestOfQuoted(src, n, e);
      ScanWrites(src[n..], e - n, Glue(s, text), env, status, out[|text|..]);
      GlueTwice(s, text, out[|text|..]);
      assert text + out[|text|..] == out;
    }
  }

  lemma RestOfQuoted(src: string, n: nat, e: nat)
    requires n <= e < |src| && '"' !in src[..e]
    ensures src[n..][..e - n] == src[..e][n..] && src[n..][e - n] == src[e] && '"' !in src[n..][..e - n]
    ensures src[n..][e - n + 1..] == src[e + 1..]
  {
  }

  lemma QuoteCloses(src: string, s: Scan, env: map<string, string>, status: int)
    requires src != [] && src[0] == '"'
    ensures ScanFrom(src, InDouble, s, env, status) == ScanFrom(src[1..], Unquoted, s, env, status)
  {
  }

  lemma StepOverParameter(src: string, mode: Mode, s: Scan, env: map<string, string>, status: int)
    requires IsExpansionStart(src, 0) && !mode.InSingle? && (mode.Unquoted? ==> !HasClosingQuote(src, 0))
    ensures ScanFrom(src, mode, s, env, status)
         == ScanFrom(src[ExpansionLen(src, 0)..], mode, ExpandParameter(s, src, mode, env, status), env, status)
  {
  }

  lemma StepOverText(src: string, s: Scan, env: map<string, string>, status: int)
    requires src != [] && src[0] != '"' && !IsExpansionStart(src, 0)
    ensures var n := DoubleEnd(src, 0);
      0 < n && ScanFrom(src, InDouble, s, env, status) == ScanFrom(src[n..], InDouble, Glue(s, src[..n]), env, status)
  {
  }

  // ---- The scan and the marks ------------------------------------------------------------

  /** A pair of quotes adds what it encloses to the open field, which it opens if there is none. */
  lemma ScanQuoted(
      word: string, j: nat, s: Scan, env: map<string, string>, status: int, inner: string)
    requires IsClosedQuote(word, 0, j) && IsInner(env, status, word, j, inner)
    ensures ScanFrom(word, Unquoted, s, env, status)
         == ScanFrom(word[j..], Unquoted, Glue(OpenQuote(s), inner), env, status)
  {
    hide Writes, IsExpansionStart;
    var e, src := j - 2, word[1..];
    assert src[e] == word[0] && src[..e] == word[1..j - 1] && src[e + 1..] == word[j..];
    assert word[0] !in src[..e] by {
      forall k | 0 <= k < e ensures src[..e][k] != word[0] { assert src[k] == word[1 + k]; }
    }
    assert HasClosingQuote(word, 0) by { assert word[0 + 1..][e] == word[0]; }
    if word[0] == '\'' {
      ScanSingle(src, e, OpenQuote(s), env, status);
    } else {
      ScanWrites(src, e, OpenQuote(s), env, status, inner);
    }
  }

  /** Outside of quotes a value is split. */
  lemma ParameterIsSplit(s: Scan, src: string, j: nat, env: map<string, string>, status: int, val: string)
    requires IsParameter(src, 0, j) && IsValue(env, status, src[1..j], val)
    ensures IsExpansionStart(src, 0) && j == ExpansionLen(src, 0)
    ensures var t, split := ExpandParameter(s, src, Unquoted, env, status), SplitOn(s.open, val);
      t.done == s.done + split.done && t.open == split.open
  {
    hide IsExpansionStart, Itoa;
    ParameterIsExpansion(src, 0, j);
    if src[1..j] == "?" {
      ItoaIsRun(status);
      RunIsOneField(s.open, val);
    }
  }

  lemma ItoaIsRun(n: int)
    ensures Itoa(n) != [] && forall i :: 0 <= i < |Itoa(n)| ==> !IsIfs(Itoa(n)[i])
  {
    hide Digits, Decimal, IsIfs;
    DigitsAreDecimal(if n < 0 then -n else n);
    DigitsAreRun(Digits(if n < 0 then -n else n));
    assert !IsIfs('-') by { NoSeparator('-'); }
  }

  lemma NoSeparator(c: char)
    ensures c == '-' || '0' <= c <= '9' ==> !IsIfs(c)
  {
  }

  lemma DigitsAreRun(s: string)
    requires AreDigits(s)
    ensures forall i :: 0 <= i < |s| ==> !IsIfs(s[i])
  {
    hide IsIfs;
    forall i | 0 <= i < |s| ensures !IsIfs(s[i]) {
      NoSeparator(s[i]);
    }
  }

  lemma {:induction false} RunIsOneField(open: Option<string>, val: string)
    requires val != [] && forall i :: 0 <= i < |val| ==> !IsIfs(val[i])
    ensures SplitOn(open, val) == Split([], Some(Text(open) + val))
    decreases |val|
  {
    var next := Some(Text(open) + [val[0]]);
    if |val| > 1 {
      RunIsOneField(next, val[1..]);
      assert Text(next) + val[1..] == Text(open) + val;
    } else {
      assert val[1..] == [] && [val[0]] == val;
    }
  }

  /** From any state on, the scan adds the fields its marks are cut into. */
  lemma {:induction false} ScanCutsMarks(
      word: string, s: Scan, env: map<string, string>, status: int, ms: seq<Mark>)
    requires Marks(env, status, word, ms)
    ensures FieldsOf(ScanFrom(word, Unquoted, s, env, status)) == s.done + CutFields(s.open, ms)
    decreases |word|
  {
    hide IsExpansionStart, HasClosingQuote, QuoteOpens, ParameterStarts, Marks, IsValue, IsParameter, IsClosedQuote,
      IsInner, ExpandParameter, ScanFrom, CutFields, SplitOn;
    if word == [] {
      NothingMarked(s, env, status, ms);
    } else {
      var j := QuoteOrNot(word, 0);
      ParameterOrNot(word, 0);
      if HasClosingQuote(word, 0) {
        var inner := QuotedFirst(env, status, word, j, ms);
        ScanQuoted(word, j, s, env, status, inner);
        ClosedIsLonger(word, j);
        var t, rest := Glue(OpenQuote(s), inner), ms[1 + |inner|..];
        ScanCutsMarks(word[j..], t, env, status, rest);
        QuotedMarks(s.open, inner, ms);
      } else if IsExpansionStart(word, 0) {
        var n := ExpansionLen(word, 0);
        var val := ParameterFirst(env, status, word, n, ms);
        ParameterIsSplit(s, word, n, env, status, val);
        StepOverParameter(word, Unquoted, s, env, status);
        var t, rest := ExpandParameter(s, word, Unquoted, env, status), ms[|val|..];
        ScanCutsMarks(word[n..], t, env, status, rest);
        BareAreSplit(s.open, val, rest);
        assert BareMarks(val) + rest == ms;
        var split := SplitOn(s.open, val);
        assert s.done + split.done + CutFields(split.open, rest) == s.done + (split.done + CutFields(split.open, rest));
      } else {
        var n := PlainEnd(word, 0);
        PlainRun(word, 0);
        KeptPrefix(env, status, word, n, ms);
        ScanPlain(word, s, env, status);
        ScanCutsMarks(word[n..], Glue(s, word[..n]), env, status, ms[n..]);
        KeptAreGlued(s.open, word[..n], ms[n..]);
        assert KeptMarks(word[..n]) + ms[n..] == ms;
      }
    }
  }

  lemma NothingMarked(s: Scan, env: map<string, string>, status: int, ms: seq<Mark>)
    requires Marks(env, status, [], ms)
    ensures FieldsOf(ScanFrom([], Unquoted, s, env, status)) == s.done + CutFields(s.open, ms)
  {
  }

  lemma ClosedIsLonger(word: string, j: nat)
    requires IsClosedQuote(word, 0, j)
    ensures 2 <= j <= |word|
  {
  }

  lemma QuotedMarks(open: Option<string>, inner: string, ms: seq<Mark>)
    requires [Quote] + KeptMarks(inner) <= ms
    ensures CutFields(open, ms) == CutFields(Some(Text(open) + inner), ms[1 + |inner|..])
  {
    var rest := ms[1 + |inner|..];
    assert ms == [Quote] + KeptMarks(inner) + rest;
    assert ms[0] == Quote && ms[1..] == KeptMarks(inner) + rest;
    KeptAreGlued(open, inner, rest);
  }

  /** Every word has its marks. */
  lemma {:induction false} WordIsMarked(env: map<string, string>, status: int, word: string) returns (ms: seq<Mark>)
    ensures Marks(env, status, word, ms)
    decreases |word|
  {
    hide IsExpansionStart, HasClosingQuote, QuoteOpens, ParameterStarts, Marks, IsValue, IsParameter, IsClosedQuote,
      IsInner;
    if word == [] {
      ms := [];
      NoMarks(env, status);
    } else {
      var j := QuoteOrNot(word, 0);
      ParameterOrNot(word, 0);
      if HasClosingQuote(word, 0) {
        ClosedIsLonger(word, j);
        var inner := SomeInner(env, status, word, j);
        var rest := WordIsMarked(env, status, word[j..]);
        ms := [Quote] + KeptMarks(inner) + rest;
        QuotedIsMarked(env, status, word, j, inner, rest);
      } else if IsExpansionStart(word, 0) {
        var n := ExpansionLen(word, 0);
        var rest := WordIsMarked(env, status, word[n..]);
        var val := SomeValue(env, status, word[1..n]);
        ms := BareMarks(val) + rest;
        ParameterIsMarked(env, status, word, n, val, rest);
      } else {
        var rest := WordIsMarked(env, status, word[1..]);
        ms := [Kept(word[0])] + rest;
        CharIsMarked(env, status, word, rest);
      }
    }
  }

  lemma NoMarks(env: map<string, string>, status: int)
    ensures Marks(env, status, [], [])
  {
  }

  lemma SomeInner(env: map<string, string>, status: int, word: string, j: nat) returns (inner: string)
    requires IsClosedQuote(word, 0, j)
    ensures IsInner(env, status, word, j, inner)
  {
    if word[0] == '\'' {
      inner := word[1..j - 1];
    } else {
      inner := ExpandLine(env, status, word[1..j - 1]);
      LineIsWritten(env, status, word[1..j - 1]);
    }
  }

  lemma SomeValue(env: map<string, string>, status: int, name: string) returns (val: string)
    ensures IsValue(env, status, name, val)
  {
    val := ValueOf(env, status, name);
  }

  lemma QuotedIsMarked(
      env: map<string, string>, status: int, word: string, j: nat, inner: string, rest: seq<Mark>)
    requires IsClosedQuote(word, 0, j) && IsInner(env, status, word, j, inner) && Marks(env, status, word[j..], rest)
    ensures Marks(env, status, word, [Quote] + KeptMarks(inner) + rest)
  {
    hide IsInner;
    var ms := [Quote] + KeptMarks(inner) + rest;
    assert QuoteOpens(word, 0) && ms[1 + |inner|..] == rest;
  }

  lemma ParameterIsMarked(env: map<string, string>, status: int, word: string, j: nat, val: string, rest: seq<Mark>)
    requires IsParameter(word, 0, j) && !QuoteOpens(word, 0) && IsValue(env, status, word[1..j], val)
    requires Marks(env, status, word[j..], rest)
    ensures Marks(env, status, word, BareMarks(val) + rest)
  {
    hide IsValue, QuoteOpens;
    var ms := BareMarks(val) + rest;
    assert ParameterStarts(word, 0) && ms[|val|..] == rest;
  }

  lemma CharIsMarked(env: map<string, string>, status: int, word: string, rest: seq<Mark>)
    requires word != [] && !QuoteOpens(word, 0) && !ParameterStarts(word, 0) && Marks(env, status, word[1..], rest)
    ensures Marks(env, status, word, [Kept(word[0])] + rest)
  {
    hide QuoteOpens, ParameterStarts;
    assert ([Kept(word[0])] + rest)[1..] == rest;
  }

  /**
   * Whatever the word, the environment and the last status are, the fields of the word are its marks
   * cut at the separators of its unquoted values.
   */
  lemma FieldsAreMarksCut(env: map<string, string>, status: int, word: string, ms: seq<Mark>)
    requires Marks(env, status, word, ms)
    ensures WordFields(word, env, status) == CutFields(None, ms)
  {
    ScanCutsMarks(word, NO_FIELDS, env, status, ms);
    assert [] + CutFields(None, ms) == CutFields(None, ms);
  }

  /** A word has its marks in one way only. */
  lemma {:induction false} MarksOnce(
      env: map<string, string>, status: int, word: string, a: seq<Mark>, b: seq<Mark>)
    requires Marks(env, status, word, a) && Marks(env, status, word, b)
    ensures a == b
    decreases |word|
  {
    hide HasClosingQuote, IsExpansionStart, QuoteOpens, ParameterStarts, Marks, IsValue, IsParameter, IsClosedQuote,
      IsInner;
    if word == [] {
      NoMore(env, status, word, a);
      NoMore(env, status, word, b);
    } else {
      var j := QuoteOrNot(word, 0);
      ParameterOrNot(word, 0);
      if HasClosingQuote(word, 0) {
        ClosedIsLonger(word, j);
        var u := QuotedFirst(env, status, word, j, a);
        var v := QuotedFirst(env, status, word, j, b);
        InnerOnce(env, status, word, j, u, v);
        MarksOnce(env, status, word[j..], a[1 + |u|..], b[1 + |u|..]);
        assert a == a[..1 + |u|] + a[1 + |u|..] && b == b[..1 + |u|] + b[1 + |u|..];
      } else if IsExpansionStart(word, 0) {
        var n := ExpansionLen(word, 0);
        var u := ParameterFirst(env, status, word, n, a);
        var v := ParameterFirst(env, status, word, n, b);
        SameValue(env, status, word[1..n], u, v);
        MarksOnce(env, status, word[n..], a[|u|..], b[|u|..]);
        assert a == BareMarks(u) + a[|u|..] && b == BareMarks(u) + b[|u|..];
      } else {
        KeptFirst(env, status, word, a);
        KeptFirst(env, status, word, b);
        MarksOnce(env, status, word[1..], a[1..], b[1..]);
        assert a == [a[0]] + a[1..] && b == [b[0]] + b[1..];
      }
    }
  }

  lemma NoMore(env: map<string, string>, status: int, word: string, ms: seq<Mark>)
    requires word == [] && Marks(env, status, word, ms)
    ensures ms == []
  {
  }

  lemma InnerOnce(env: map<string, string>, status: int, word: string, j: nat, a: string, b: string)
    requires IsClosedQuote(word, 0, j) && IsInner(env, status, word, j, a) && IsInner(env, status, word, j, b)
    ensures a == b
  {
    hide Writes;
    if word[0] != '\'' { WritesOnce(env, status, word[1..j - 1], a, b); }
  }
}
