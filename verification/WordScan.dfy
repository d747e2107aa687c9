// Expanding a word: quotes, parameters and field splitting, as the fields it is to become. Quote
// removal and the path for plain words are measured against it.

module WordScan {
  import opened CStrings
  import opened Context
  import opened QuoteRemoval
  import opened Lexer
  import opened Classification
  import opened HereDocument
  import opened FieldSplitting

  datatype Mode = Unquoted | InSingle | InDouble

  /**
   * The fields so far and the open one. `exact` says that the length recorded for the open
   * field is right, `good` that no value was split behind one whose length is not.
   */
  datatype Scan = Scan(done: seq<string>, open: Option<string>, exact: bool, good: bool)

  const NO_FIELDS := Scan([], None, true, true)

  /** Text that is not split. */
  function Glue(s: Scan, text: string): Scan {
    s.(open := Some(Text(s.open) + text), exact := s.exact || s.open.None?)
  }

  /** A quote makes a field even if nothing is in it. */
  function OpenQuote(s: Scan): Scan {
    if s.open.None? then s.(open := Some([]), exact := true) else s
  }

  /** The value can be split in place. */
  predicate Splits(s: Scan, val: string) {
    HasIfs(val) ==> s.open.None? || (s.exact && (s.open.value != [] || !IsIfs(val[0])))
  }

  /** An unquoted value is split. */
  function SplitValue(s: Scan, val: string): Scan {
    if val == [] then s
    else
      var split := SplitOn(s.open, val);
      Scan(s.done + split.done, split.open, !HasIfs(val) && (s.exact || s.open.None?), s.good && Splits(s, val))
  }

  /** The quote at `i` is closed later. */
  predicate HasClosingQuote(s: string, i: nat)
    requires i < |s|
  {
    IsQuote(s[i]) && s[i] in s[i + 1..]
  }

  /** Where text ends that is taken as it is. */
  function PlainEnd(s: string, i: nat): (j: nat)
    requires i <= |s|
    ensures i <= j <= |s| && (i < |s| && !HasClosingQuote(s, i) && !IsExpansionStart(s, i) ==> i < j)
    decreases |s| - i
  {
    if i < |s| && !HasClosingQuote(s, i) && !IsExpansionStart(s, i) then PlainEnd(s, i + 1) else i
  }

  function DoubleEnd(s: string, i: nat): (j: nat)
    requires i <= |s|
    ensures i <= j <= |s| && (i < |s| && s[i] != '"' && !IsExpansionStart(s, i) ==> i < j)
    decreases |s| - i
  {
    if i < |s| && s[i] != '"' && !IsExpansionStart(s, i) then DoubleEnd(s, i + 1) else i
  }

  /** The value of the parameter that starts the text, in or outside of double quotes. */
  function ExpandParameter(s: Scan, src: string, mode: Mode, env: map<string, string>, status: int): Scan
    requires IsExpansionStart(src, 0)
  {
    var name := src[1..ExpansionLen(src, 0)];
    if name == "?" then Glue(s, Itoa(status))
    else if name !in env then s
    else if mode.InDouble? then Glue(s, env[name])
    else SplitValue(s, env[name])
  }

  /** The fields of a word, from a place in it on. */
  function ScanFrom(src: string, mode: Mode, s: Scan, env: map<string, string>, status: int): Scan
    decreases |src|
  {
    if src == [] then s
    else match mode
      case InSingle =>
        if src[0] == '\'' then ScanFrom(src[1..], Unquoted, s, env, status)
        else var n := IndexOf(src, '\''); ScanFrom(src[n..], InSingle, Glue(s, src[..n]), env, status)
      case InDouble =>
        if src[0] == '"' then ScanFrom(src[1..], Unquoted, s, env, status)
        else if IsExpansionStart(src, 0) then
          ScanFrom(src[ExpansionLen(src, 0)..], mode, ExpandParameter(s, src, mode, env, status), env, status)
        else var n := DoubleEnd(src, 0); ScanFrom(src[n..], mode, Glue(s, src[..n]), env, status)
      case Unquoted =>
        if HasClosingQuote(src, 0) then
          ScanFrom(src[1..], if src[0] == '\'' then InSingle else InDouble, OpenQuote(s), env, status)
        else if IsExpansionStart(src, 0) then
          ScanFrom(src[ExpansionLen(src, 0)..], mode, ExpandParameter(s, src, mode, env, status), env, status)
        else var n := PlainEnd(src, 0); ScanFrom(src[n..], mode, Glue(s, src[..n]), env, status)
  }

  /** The fields of a whole word. */
  function FieldsOf(s: Scan): seq<string> {
    s.done + (if s.open.Some? then [s.open.value] else [])
  }

  function WordFields(word: string, env: map<string, string>, status: int): seq<string> {
    FieldsOf(ScanFrom(word, Unquoted, NO_FIELDS, env, status))
  }

  /** No value of the word is split behind a field whose recorded length is wrong. */
  predicate IsGood(word: string, env: map<string, string>, status: int) {
    ScanFrom(word, Unquoted, NO_FIELDS, env, status).good
  }

  // ---- The fast path ---------------------------------------------------------------------

  lemma {:induction false} PlainToEnd(word: string, i: nat)
    requires IsPlainWord(word) && i <= |word|
    ensures PlainEnd(word, i) == |word|
    decreases |word| - i
  {
    if i < |word| {
      assert !IsExpansionStart(word, i) && (IsQuote(word[i]) ==> word[i] !in word[i + 1..]);
      PlainToEnd(word, i + 1);
    }
  }

  lemma GlueFirst(text: string)
    ensures Glue(NO_FIELDS, text) == Scan([], Some(text), true, true)
  {
    assert Text(None) + text == text;
  }

  /**
   * A plain word is one field, the word itself: leaving out its scan changes nothing. Words whose
   * tokens carry neither flag are plain.
   */
  lemma FastPathIsRight(word: string, env: map<string, string>, status: int)
    requires IsPlainWord(word) && word != []
    ensures WordFields(word, env, status) == [word] && IsGood(word, env, status)
  {
    PlainToEnd(word, 0);
    assert !IsExpansionStart(word, 0) && (IsQuote(word[0]) ==> word[0] !in word[0 + 1..]);
    assert word[|word|..] == [] && word[..|word|] == word;
    GlueFirst(word);
    assert !HasClosingQuote(word, 0);
    ScanPlain(word, NO_FIELDS, env, status);
    NothingLeft(Scan([], Some(word), true, true), env, status);
  }

  // ---- Quote removal ---------------------------------------------------------------------

  /** No expansion starts outside of single quotes. */
  predicate Unexpanded(word: string)
    decreases |word|
  {
    if word == [] then true
    else if Enclosed(word) < 0 then !IsExpansionStart(word, 0) && Unexpanded(word[1..])
    else
      && (word[0] == '"' ==> forall k: nat :: 1 <= k <= Enclosed(word) ==> !IsExpansionStart(word, k))
      && Unexpanded(word[2 + Enclosed(word)..])
  }

  lemma ClosingIsEnclosed(s: string)
    requires s != []
    ensures HasClosingQuote(s, 0) <==> Enclosed(s) >= 0
    ensures Enclosed(s) >= 0 ==> s[1 + Enclosed(s)] == s[0] && s[0] !in s[1..1 + Enclosed(s)]
  {
    IndexOfIsFirst(s[1..], s[0]);
    if Enclosed(s) >= 0 {
      assert s[1..][..Enclosed(s)] == s[1..1 + Enclosed(s)];
    }
  }

  lemma PlainCharIsKept(s: string)
    requires s != [] && Unexpanded(s) && Enclosed(s) < 0
    ensures QuoteRemove(s) == s[..1] + QuoteRemove(s[1..]) && Unexpanded(s[1..])
  {
    hide IsExpansionStart, Enclosed;
  }

  /** Text that is taken as it is loses nothing by quote removal. */
  lemma {:induction false} PlainIsKept(s: string, i: nat)
    requires i <= |s| && Unexpanded(s[i..])
    ensures var j := PlainEnd(s, i);
      QuoteRemove(s[i..]) == s[i..j] + QuoteRemove(s[j..]) && Unexpanded(s[j..])
    decreases |s| - i
  {
    hide IsExpansionStart, Enclosed, QuoteRemove, Unexpanded, HasClosingQuote;
    if i < |s| && !HasClosingQuote(s, i) && !IsExpansionStart(s, i) {
      SuffixAgrees(s, i);
      ClosingIsEnclosed(s[i..]);
      assert s[i..][1..] == s[i + 1..];
      PlainCharIsKept(s[i..]);
      PlainIsKept(s, i + 1);
      var j := PlainEnd(s, i);
      assert s[i..][..1] + s[i + 1..j] == s[i..j];
    } else {
      assert s[i..i] == [];
    }
  }

  lemma SuffixAgrees(s: string, i: nat)
    requires i < |s|
    ensures HasClosingQuote(s, i) <==> HasClosingQuote(s[i..], 0)
    ensures IsExpansionStart(s, i) <==> IsExpansionStart(s[i..], 0)
  {
    assert s[i..][1..] == s[i + 1..];
  }

  lemma {:induction false} DoubleToQuote(s: string, i: nat, e: nat)
    requires i <= e < |s| && s[e] == '"' && '"' !in s[i..e]
    requires forall k: nat :: i <= k < e ==> !IsExpansionStart(s, k)
    ensures DoubleEnd(s, i) == e
    decreases e - i
  {
    if i < e {
      assert s[i..e][0] == s[i] && s[i + 1..e] == s[i..e][1..];
      DoubleToQuote(s, i + 1, e);
    }
  }

  lemma GlueNothing(s: Scan)
    requires s.open.Some?
    ensures Glue(s, []) == s
  {
    assert s.open.value + [] == s.open.value;
  }

  /** Up to its end, a single-quoted text is taken as it is. */
  lemma ScanSingle(src: string, e: nat, s: Scan, env: map<string, string>, status: int)
    requires e < |src| && src[e] == '\'' && '\'' !in src[..e] && s.open.Some?
    ensures ScanFrom(src, InSingle, s, env, status) == ScanFrom(src[e + 1..], Unquoted, Glue(s, src[..e]), env, status)
  {
    if e == 0 {
      GlueNothing(s);
      assert src[..0] == [];
    } else {
      assert src[0] == src[..e][0];
      QuoteAt(src, e, '\'');
      assert src[e..][1..] == src[e + 1..];
    }
  }

  lemma {:induction false} QuoteAt(src: string, e: nat, c: char)
    requires e < |src| && src[e] == c && c !in src[..e]
    ensures IndexOf(src, c) == e
  {
    if e > 0 {
      assert src[0] == src[..e][0] && src[1..][..e - 1] == src[..e][1..];
      QuoteAt(src[1..], e - 1, c);
    }
  }

  lemma ScanDouble(src: string, e: nat, s: Scan, env: map<string, string>, status: int)
    requires e < |src| && src[e] == '"' && '"' !in src[..e] && s.open.Some?
    requires forall k: nat :: k < e ==> !IsExpansionStart(src, k)
    ensures ScanFrom(src, InDouble, s, env, status) == ScanFrom(src[e + 1..], Unquoted, Glue(s, src[..e]), env, status)
  {
    if e == 0 {
      GlueNothing(s);
      assert src[..0] == [];
    } else {
      assert src[0] == src[..e][0] && src[0..e] == src[..e];
      assert !IsExpansionStart(src, 0);
      DoubleToQuote(src, 0, e);
      assert src[e..][1..] == src[e + 1..];
    }
  }

  /** What a pair of quotes encloses is taken as it is. */
  lemma ScanEnclosed(src: string, s: Scan, env: map<string, string>, status: int)
    requires src != [] && Enclosed(src) >= 0 && Unexpanded(src)
    ensures ScanFrom(src, Unquoted, s, env, status)
         == ScanFrom(src[2 + Enclosed(src)..], Unquoted, Glue(OpenQuote(s), src[1..1 + Enclosed(src)]), env, status)
  {
    hide QuoteRemove, IsExpansionStart, Enclosed, HasClosingQuote;
    ClosingIsEnclosed(src);
    var e := Enclosed(src);
    var inner := src[1..];
    assert inner[e + 1..] == src[2 + e..] && inner[..e] == src[1..1 + e] && inner[e] == src[0];
    QuoteStarts(src);
    if src[0] == '\'' {
      ScanSingle(inner, e, OpenQuote(s), env, status);
    } else {
      forall k: nat | k < e ensures !IsExpansionStart(inner, k) {
        InnerExpansion(src, k);
      }
      ScanDouble(inner, e, OpenQuote(s), env, status);
    }
  }

  lemma QuoteStarts(src: string)
    requires src != [] && HasClosingQuote(src, 0)
    ensures src[0] == '\'' || src[0] == '"'
  {
  }

  lemma InnerExpansion(src: string, k: nat)
    requires src != []
    ensures IsExpansionStart(src[1..], k) <==> IsExpansionStart(src, k + 1)
  {
  }

  lemma EnclosedRest(src: string)
    requires src != [] && Unexpanded(src)
    ensures Enclosed(src) >= 0 ==> Unexpanded(src[2 + Enclosed(src)..])
    ensures Enclosed(src) >= 0 ==> QuoteRemove(src) == src[1..1 + Enclosed(src)] + QuoteRemove(src[2 + Enclosed(src)..])
  {
    hide IsExpansionStart;
  }

  /** From any state on, such a word adds the text without its quotes to the open field. */
  lemma {:induction false} ScanRemovesQuotes(src: string, s: Scan, env: map<string, string>, status: int)
    requires Unexpanded(src) && s.open.Some?
    ensures ScanFrom(src, Unquoted, s, env, status) == Glue(s, QuoteRemove(src))
    decreases |src|
  {
    hide QuoteRemove, Unexpanded, Enclosed, IsExpansionStart, ScanFrom;
    if src == [] {
      NothingLeft(s, env, status);
    } else {
      ClosingIsEnclosed(src);
      if HasClosingQuote(src, 0) {
        EnclosedRest(src);
        ScanEnclosed(src, s, env, status);
        var e := Enclosed(src);
        ScanRemovesQuotes(src[2 + e..], Glue(OpenQuote(s), src[1..1 + e]), env, status);
        GlueTwice(s, src[1..1 + e], QuoteRemove(src[2 + e..]));
      } else {
        NoExpansionHere(src);
        assert src[0..] == src;
        PlainIsKept(src, 0);
        ScanPlain(src, s, env, status);
        var n := PlainEnd(src, 0);
        ScanRemovesQuotes(src[n..], Glue(s, src[..n]), env, status);
        GlueTwice(s, src[..n], QuoteRemove(src[n..]));
        assert src[0..n] == src[..n];
      }
    }
  }

  lemma NoExpansionHere(src: string)
    requires src != [] && Unexpanded(src) && Enclosed(src) < 0
    ensures !IsExpansionStart(src, 0)
  {
  }

  lemma NothingLeft(s: Scan, env: map<string, string>, status: int)
    requires s.open.Some?
    ensures ScanFrom([], Unquoted, s, env, status) == s && Glue(s, QuoteRemove([])) == s
  {
    assert s.open.value + [] == s.open.value;
  }

  lemma GlueTwice(s: Scan, a: string, b: string)
    requires s.open.Some?
    ensures Glue(Glue(OpenQuote(s), a), b) == Glue(Glue(s, a), b) == Glue(s, a + b)
  {
    assert Text(s.open) + a + b == Text(s.open) + (a + b);
  }

  lemma ScanPlain(src: string, s: Scan, env: map<string, string>, status: int)
    requires src != [] && !HasClosingQuote(src, 0) && !IsExpansionStart(src, 0)
    ensures var n := PlainEnd(src, 0);
      0 < n && ScanFrom(src, Unquoted, s, env, status) == ScanFrom(src[n..], Unquoted, Glue(s, src[..n]), env, status)
  {
    hide IsExpansionStart, HasClosingQuote;
  }

  /**
   * On every word without an expansion outside of single quotes, quote removal in place and the
   * scan agree: the word is one field, its text without the quotes.
   */
  lemma QuoteRemovalIsScan(word: string, env: map<string, string>, status: int)
    requires Unexpanded(word) && word != []
    ensures WordFields(word, env, status) == [QuoteRemove(word)] && IsGood(word, env, status)
  {
    hide QuoteRemove, Unexpanded, Enclosed, IsExpansionStart, ScanFrom;
    ClosingIsEnclosed(word);
    var s := NO_FIELDS;
    if HasClosingQuote(word, 0) {
      EnclosedRest(word);
      ScanEnclosed(word, s, env, status);
      var e := Enclosed(word);
      var t := Glue(OpenQuote(s), word[1..1 + e]);
      assert Text(OpenQuote(s).open) + word[1..1 + e] == word[1..1 + e];
      ScanRemovesQuotes(word[2 + e..], t, env, status);
    } else {
      NoExpansionHere(word);
      assert word[0..] == word;
      PlainIsKept(word, 0);
      ScanPlain(word, s, env, status);
      var n := PlainEnd(word, 0);
      assert word[0..n] == word[..n];
      GlueFirst(word[..n]);
      ScanRemovesQuotes(word[n..], Glue(s, word[..n]), env, status);
    }
  }
}
