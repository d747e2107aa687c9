// Expansion on the arenas: the scan of a word appends to the fields arena and splits it in place;
// arguments are referred to by slot until the arenas stop growing.

module Expansion {
  import opened CStrings
  import opened Context
  import opened Lexer
  import opened LexerRules
  import opened HereDocument
  import opened NodeArena
  import opened Syntax
  import opened Classification
  import opened FieldSplitting
  import opened WordScan
  import opened InPlaceScan

  /** A reference to an argument: its string in the string arena, or in the fields arena. */
  datatype Slot = StringSlot(offset: nat) | FieldSlot(offset: nat)

  function FieldRefs(slots: seq<Slot>): seq<nat> {
    if slots == [] then []
    else FieldRefs(slots[..|slots| - 1]) + (if slots[|slots| - 1].FieldSlot? then [slots[|slots| - 1].offset] else [])
  }

  class Expander {
    var buf: seq<char>
    /** What lies behind the fields arena. */
    var tail: seq<char>
    var slots: seq<Slot>
    var argc: nat
    var pos: nat
    var len: nat
    var hasField: bool
    var inSquote: bool
    var inDquote: bool

    constructor (tail: seq<char>)
      ensures View() == NoFields(tail) && slots == [] && argc == 0 && !inSquote && !inDquote
    {
      buf, this.tail, slots, argc, pos, len := [NUL], tail, [], 0, 0, 0;
      hasField, inSquote, inDquote := false, false, false;
    }

    /** The fields arena, as the splitting sees it. */
    function View(): Fields
      reads this
    {
      Fields(buf, tail, FieldRefs(slots), pos, len, hasField)
    }

    function QuoteMode(): Mode
      reads this
    {
      if inSquote then InSingle else if inDquote then InDouble else Unquoted
    }
  }

  // ---- The fields arena ------------------------------------------------------------------

  method AppendField(x: Expander, src: string, len: nat)
    requires len <= |src| && Terminated(x.View())
    modifies x`buf, x`tail, x`pos, x`len, x`hasField
    ensures x.View() == FieldSplitting.AppendField(old(x.View()), src[..len]) && Terminated(x.View())
  {
    if !x.hasField {
      x.pos := |x.buf|;
      x.buf, x.tail := x.buf + src[..len] + [NUL], Behind(x.tail, len + 1);
      x.len := len;
      x.hasField := true;
    } else if len > 0 {
      x.buf, x.tail := x.buf[..|x.buf| - 1] + src[..len] + [NUL], Behind(x.tail, len);
      x.len := x.len + len;
    } else {
      assert x.buf[..|x.buf| - 1] + src[..len] + [NUL] == x.buf && Behind(x.tail, 0) == x.tail;
    }
  }

  method RecordReference(x: Expander, slot: Slot)
    modifies x`slots, x`argc
    ensures x.slots == old(x.slots) + [slot] && x.argc == old(x.argc) + 1
    ensures FieldRefs(x.slots) == FieldRefs(old(x.slots)) + (if slot.FieldSlot? then [slot.offset] else [])
  {
    x.slots := x.slots + [slot];
    x.argc := x.argc + 1;
    assert x.slots[..|x.slots| - 1] == old(x.slots);
  }

  method DelimitField(x: Expander)
    modifies x`slots, x`argc, x`pos, x`len, x`hasField
    ensures x.slots == old(x.slots) + [FieldSlot(old(x.pos))] && x.argc == old(x.argc) + 1
    ensures FieldRefs(x.slots) == FieldRefs(old(x.slots)) + [old(x.pos)] && x.pos == 0 && x.len == 0 && !x.hasField
  {
    RecordReference(x, FieldSlot(x.pos));
    x.pos, x.len := 0, 0;
    x.hasField := false;
  }

  /** The first index from `from` on, in the arena or behind it, that holds no separator. */
  method GetIfsEndIdx(x: Expander, from: nat) returns (i: nat)
    ensures i == IfsEnd(x.buf, x.tail, from)
  {
    i := from;
    while IsIfs(ByteAt(x.buf, x.tail, i))
      invariant IfsEnd(x.buf, x.tail, i) == IfsEnd(x.buf, x.tail, from)
      decreases |x.buf| + |x.tail| - i
    {
      assert i < |x.buf| + |x.tail|;
      i := i + 1;
    }
  }

  /** Slots are only added, and only for fields. */
  twostate predicate AddsFields(x: Expander)
    reads x
  {
    && old(x.slots) <= x.slots && x.argc - old(x.argc) == |x.slots| - |old(x.slots)|
    && forall k :: |old(x.slots)| <= k < |x.slots| ==> x.slots[k].FieldSlot?
  }

  method EraseByte(x: Expander, i: nat)
    modifies x`buf, x`tail
    ensures x.View() == Erase(old(x.View()), i)
  {
    if i < |x.buf| {
      x.buf := x.buf[i := NUL];
    } else if i - |x.buf| < |x.tail| {
      x.tail := x.tail[i - |x.buf| := NUL];
    }
  }

  /** Overwrites the separator at `i`, records the field before it, and finds the next one. */
  method DelimitSegment(x: Expander, i: nat) returns (next: nat)
    modifies x`buf, x`tail, x`slots, x`argc, x`pos, x`len, x`hasField
    ensures x.View() == FieldSplitting.DelimitSegment(old(x.View()), i) && next == x.pos && AddsFields(x)
  {
    EraseByte(x, i);
    if i > x.pos {
      x.len := i - x.pos;
      DelimitField(x);
    } else {
      x.hasField := false;
    }
    next := GetIfsEndIdx(x, i + 1);
    x.pos := next;
  }

  /** Appends a value and splits it where it is taken to stand. */
  method AppendSegment(x: Expander, val: string)
    requires Terminated(x.View())
    modifies x`buf, x`tail, x`slots, x`argc, x`pos, x`len, x`hasField
    ensures x.View() == FieldSplitting.AppendSegment(old(x.View()), val) && AddsFields(x) && Terminated(x.View())
  {
    hide FieldSplitting.DelimitSegment, FieldRefs;
    var vlen := |val|;
    if vlen == 0 {
      return;
    }
    AppendField(x, val, vlen);
    assert val[..vlen] == val;
    var span := x.pos + x.len - vlen;
    var i := span;
    ghost var whole := SegmentLoop(x.View(), val, span, span);
    SplitExtends(old(x.View()), val);
    while i < span + vlen
      invariant span <= i && SegmentLoop(x.View(), val, span, i) == whole && AddsFields(x)
      decreases span + vlen - i
    {
      if IsIfs(val[i - span]) {
        i := DelimitSegment(x, i);
      } else {
        x.hasField := true;
        i := i + 1;
      }
    }
  }

  // ---- Parameters ------------------------------------------------------------------------

  /** A field without text that is then extended is a field with the text. */
  lemma ExtendedAtOnce(f: Fields, text: string)
    requires f.buf != []
    ensures var g := if f.has then f else FieldSplitting.AppendField(f, []);
      FieldSplitting.AppendField(f, text)
      == Fields(g.buf[..|g.buf| - 1] + text + [NUL], Behind(g.tail, |text|), g.refs, g.pos, g.len + |text|, true)
  {
    if !f.has {
      assert f.buf + [] + [NUL] == f.buf + [NUL];
      assert (f.buf + [NUL])[..|f.buf|] == f.buf;
      BehindTwice(f.tail, 1, |text|);
    }
  }

  lemma BehindTwice(tail: seq<char>, m: nat, n: nat)
    ensures Behind(Behind(tail, m), n) == Behind(tail, m + n)
  {
  }

  /** Writes the status over the terminator of the open field. */
  method ArenaItoaCat(x: Expander, status: int)
    requires Terminated(x.View())
    modifies x`buf, x`tail, x`pos, x`len, x`hasField
    ensures x.View() == FieldSplitting.AppendField(old(x.View()), Itoa(status)) && Terminated(x.View())
  {
    hide Itoa, FieldRefs, FieldSplitting.AppendField, Behind;
    var text := Itoa(status);
    ExtendedAtOnce(x.View(), text);
    if !x.hasField {
      AppendField(x, [], 0);
    }
    x.buf := x.buf[..|x.buf| - 1];
    var offset := |x.buf|;
    x.buf, x.tail := x.buf + text + [NUL], Behind(x.tail, |text|);
    x.len := x.len + (|x.buf| - offset - 1);
    x.hasField := true;
  }

  /** Expands the parameter at the start of `src`; returns how long it is. */
  method ExpandVar(x: Expander, src: string, env: map<string, string>, status: int) returns (len: nat)
    requires IsExpansionStart(src, 0) && Terminated(x.View()) && !x.inSquote
    modifies x`buf, x`tail, x`slots, x`argc, x`pos, x`len, x`hasField
    ensures len == ExpansionLen(src, 0) <= |src|
    ensures x.View() == ExpandInPlace(old(x.View()), src, x.QuoteMode(), env, status) && AddsFields(x)
    ensures Terminated(x.View())
  {
    hide FieldSplitting.AppendField, FieldSplitting.AppendSegment, Itoa;
    len := GetExpansionLen(src, 0);
    var name := src[1..len];
    if len == 2 && src[1] == '?' {
      assert name == "?";
      ArenaItoaCat(x, status);
      return;
    }
    NameIsNotStatus(src, len);
    if name !in env {
      return;
    }
    var val := env[name];
    if x.inDquote {
      AppendField(x, val, |val|);
      assert val[..|val|] == val;
    } else {
      AppendSegment(x, val);
    }
  }

  lemma NameIsNotStatus(src: string, len: nat)
    requires IsExpansionStart(src, 0) && len == ExpansionLen(src, 0) && !(len == 2 && src[1] == '?')
    ensures src[1..len] != "?"
  {
    assert src[1] == src[1..len][0];
  }

  // ---- Quotes ----------------------------------------------------------------------------

  /** Some quote like the one at `i` comes later. */
  method HasClosingQuote(word: string, i: nat) returns (closed: bool)
    requires i < |word|
    ensures closed == WordScan.HasClosingQuote(word, i)
  {
    var quote := word[i];
    if quote != '\'' && quote != '"' {
      return false;
    }
    var j := i + 1;
    while j < |word| && word[j] != quote
      invariant i < j <= |word| && (word[i] in word[i + 1..] <==> word[i] in word[j..])
      decreases |word| - j
    {
      assert word[j..] == [word[j]] + word[j + 1..];
      j := j + 1;
    }
    closed := j < |word|;
    assert closed ==> word[j..][0] == quote;
  }

  /** Starts a quoted part; it makes a field even if nothing is in it. */
  method OpenQuote(x: Expander, quote: char)
    requires Terminated(x.View()) && x.QuoteMode() == Unquoted && IsQuote(quote)
    modifies x`buf, x`tail, x`pos, x`len, x`hasField, x`inSquote, x`inDquote
    ensures var f := old(x.View()); x.View() == if f.has then f else FieldSplitting.AppendField(f, [])
    ensures x.QuoteMode() == (if quote == '\'' then InSingle else InDouble) && !(x.inSquote && x.inDquote)
    ensures Terminated(x.View())
  {
    if !x.hasField {
      AppendField(x, [], 0);
    }
    if quote == '\'' {
      x.inSquote := true;
    } else {
      x.inDquote := true;
    }
  }

  // ---- The scan --------------------------------------------------------------------------

  /** The text before index `i` of the word is scanned: the rest of it leads to the same arena. */
  ghost predicate Scanning(x: Expander, word: string, i: nat, result: Fields, env: map<string, string>, status: int)
    reads x
  {
    && i <= |word| && Terminated(x.View()) && result == ScanInPlace(word[i..], x.QuoteMode(), x.View(), env, status)
    && !(x.inSquote && x.inDquote)
    && (x.inSquote ==> '\'' in word[i..]) && (x.inDquote ==> '"' in word[i..])
  }

  lemma Suffix(word: string, i: nat, n: nat)
    requires i + n <= |word|
    ensures word[i..][n..] == word[i + n..] && word[i..][..n] == word[i..i + n]
  {
  }

  /** How much text comes before the closing single quote. */
  method SquoteLen(src: string) returns (n: nat)
    ensures n == IndexOf(src, '\'')
  {
    n := 0;
    while n < |src| && src[n] != '\''
      invariant n <= |src| && IndexOf(src, '\'') == n + IndexOf(src[n..], '\'')
      decreases |src| - n
    {
      assert src[n..][1..] == src[n + 1..];
      n := n + 1;
    }
  }

  /** How much text comes before the closing double quote or a parameter. */
  method DquoteLen(src: string) returns (n: nat)
    ensures n == DoubleEnd(src, 0)
  {
    hide IsExpansionStart;
    n := 0;
    while n < |src| && src[n] != '"' && !IsExpansionStart(src, n)
      invariant n <= |src| && DoubleEnd(src, 0) == DoubleEnd(src, n)
      decreases |src| - n
    {
      n := n + 1;
    }
  }

  /** How much text comes before a quote that is closed or a parameter. */
  method UnquotedLen(src: string) returns (n: nat)
    ensures n == PlainEnd(src, 0)
  {
    hide IsExpansionStart;
    n := 0;
    while n < |src|
      invariant n <= |src| && PlainEnd(src, 0) == PlainEnd(src, n)
      decreases |src| - n
    {
      var quote := HasClosingQuote(src, n);
      if quote || IsExpansionStart(src, n) {
        return;
      }
      n := n + 1;
    }
  }

  /** In single quotes: where the next move leads. */
  lemma SquoteMove(src: string)
    requires src != [] && '\'' in src
    ensures var m := MoveOf(src, InSingle);
      if src[0] == '\'' then m == Move(1, Unquoted, Nothing)
      else m == Move(IndexOf(src, '\''), InSingle, Take(src[..m.n])) && '\'' in src[m.n..]
  {
    IndexOfIsFirst(src, '\'');
    var n := IndexOf(src, '\'');
    assert src[n..][0] == '\'';
  }

  /** Within single quotes: their end, or the text up to it. */
  method HandleSquote(x: Expander, word: string, i: nat, env: map<string, string>, status: int, ghost result: Fields)
    returns (j: nat)
    requires i < |word| && Scanning(x, word, i, result, env, status) && x.inSquote
    modifies x`buf, x`tail, x`pos, x`len, x`hasField, x`inSquote
    ensures i < j && Scanning(x, word, j, result, env, status)
  {
    hide ScanInPlace, MoveOf, FieldSplitting.AppendField, FieldRefs, ExpandInPlace, IndexOf;
    var src := word[i..];
    SquoteMove(src);
    MovesOn(src, InSingle, x.View(), env, status);
    if src[0] == '\'' {
      x.inSquote := false;
      Suffix(word, i, 1);
      return i + 1;
    }
    var n := SquoteLen(src);
    Suffix(word, i, n);
    AppendField(x, src, n);
    j := i + n;
  }

  lemma {:induction false} NameHasNoQuote(src: string, i: nat)
    requires i <= |src|
    ensures '"' !in src[i..NameEnd(src, i)]
    decreases |src| - i
  {
    if i < |src| && IsNameBody(src[i]) {
      NameHasNoQuote(src, i + 1);
      assert src[i..NameEnd(src, i)] == [src[i]] + src[i + 1..NameEnd(src, i)];
    }
  }

  /** A parameter does not take the closing quote. */
  lemma ExpansionHasNoQuote(src: string)
    requires IsExpansionStart(src, 0) && '"' in src
    ensures '"' in src[ExpansionLen(src, 0)..]
  {
    var n := ExpansionLen(src, 0);
    NameHasNoQuote(src, 2);
    assert src == src[..2] + src[2..n] + src[n..];
    assert src[..2] == [src[0], src[1]];
  }

  lemma {:induction false} QuoteAfterText(src: string, i: nat)
    requires i <= |src| && '"' in src[i..]
    ensures '"' in src[DoubleEnd(src, i)..]
    decreases |src| - i
  {
    hide IsExpansionStart;
    if i < |src| && src[i] != '"' && !IsExpansionStart(src, i) {
      assert src[i..] == [src[i]] + src[i + 1..];
      QuoteAfterText(src, i + 1);
    }
  }

  /** In double quotes: where the next move leads. */
  lemma DquoteMove(src: string)
    requires src != [] && '"' in src
    ensures var m := MoveOf(src, InDouble);
      if src[0] == '"' then m == Move(1, Unquoted, Nothing)
      else
        && '"' in src[m.n..]
        && (if IsExpansionStart(src, 0) then m == Move(ExpansionLen(src, 0), InDouble, Expand)
            else m == Move(DoubleEnd(src, 0), InDouble, Take(src[..m.n])))
  {
    hide IsExpansionStart, ExpansionLen;
    if src[0] != '"' {
      assert src[0..] == src;
      if IsExpansionStart(src, 0) { ExpansionHasNoQuote(src); } else { QuoteAfterText(src, 0); }
    }
  }

  /** Within double quotes: their end, a parameter, or the text up to either. */
  method HandleDquote(x: Expander, word: string, i: nat, env: map<string, string>, status: int, ghost result: Fields)
    returns (j: nat)
    requires i < |word| && Scanning(x, word, i, result, env, status) && x.inDquote
    modifies x`buf, x`tail, x`slots, x`argc, x`pos, x`len, x`hasField, x`inDquote
    ensures i < j && Scanning(x, word, j, result, env, status) && AddsFields(x)
  {
    hide ScanInPlace, MoveOf, FieldSplitting.AppendField, ExpandInPlace, IsExpansionStart, ExpansionLen, DoubleEnd,
      FieldRefs;
    var src := word[i..];
    DquoteMove(src);
    MovesOn(src, InDouble, x.View(), env, status);
    if src[0] == '"' {
      x.inDquote := false;
      Suffix(word, i, 1);
      return i + 1;
    }
    if IsExpansionStart(src, 0) {
      var len := ExpandVar(x, src, env, status);
      Suffix(word, i, len);
      return i + len;
    }
    var n := DquoteLen(src);
    Suffix(word, i, n);
    AppendField(x, src, n);
    j := i + n;
  }

  /** Outside of quotes: where the next move leads. */
  lemma UnquotedMove(src: string)
    requires src != []
    ensures var m := MoveOf(src, Unquoted);
      if WordScan.HasClosingQuote(src, 0) then
        && m == Move(1, if src[0] == '\'' then InSingle else InDouble, Begin)
        && src[0] in src[1..] && (src[0] == '\'' || src[0] == '"')
      else if IsExpansionStart(src, 0) then m == Move(ExpansionLen(src, 0), Unquoted, Expand)
      else m == Move(PlainEnd(src, 0), Unquoted, Take(src[..m.n]))
  {
    hide IsExpansionStart, ExpansionLen;
  }

  /** Outside of quotes: a quote that is closed, a parameter, or the text up to either. */
  method HandleUnquoted(x: Expander, word: string, i: nat, env: map<string, string>, status: int, ghost result: Fields)
    returns (j: nat)
    requires i < |word| && Scanning(x, word, i, result, env, status) && !x.inSquote && !x.inDquote
    modifies x`buf, x`tail, x`slots, x`argc, x`pos, x`len, x`hasField, x`inSquote, x`inDquote
    ensures i < j && Scanning(x, word, j, result, env, status) && AddsFields(x)
  {
    hide ScanInPlace, MoveOf, FieldSplitting.AppendField, ExpandInPlace, IsExpansionStart, ExpansionLen, PlainEnd,
      WordScan.HasClosingQuote, FieldRefs;
    var src := word[i..];
    UnquotedMove(src);
    MovesOn(src, Unquoted, x.View(), env, status);
    var closed := HasClosingQuote(src, 0);
    if closed {
      Suffix(word, i, 1);
      OpenQuote(x, src[0]);
      return i + 1;
    }
    if IsExpansionStart(src, 0) {
      var len := ExpandVar(x, src, env, status);
      Suffix(word, i, len);
      return i + len;
    }
    var n := UnquotedLen(src);
    Suffix(word, i, n);
    AppendField(x, src, n);
    j := i + n;
  }

  lemma ScanEnds(mode: Mode, f: Fields, env: map<string, string>, status: int)
    requires f.buf != []
    ensures ScanInPlace([], mode, f, env, status) == f
  {
  }

  /**
   * Leaves the arena as the scan of the word does, for every word: behind the fields that were
   * there are the word's exactly if none of its values is split where it cannot be, and those
   * that were there stay in any case. Both quote flags are clear at the end.
   */
  method ScanWord(x: Expander, word: string, env: map<string, string>, status: int, ghost base: seq<string>)
    requires Terminated(x.View()) && !x.inSquote && !x.inDquote
    modifies x
    ensures x.View() == WordInPlace(old(x.View()), word, env, status) && !x.inSquote && !x.inDquote && AddsFields(x)
    ensures old(Represents(x.View(), base, None)) ==> Keeps(x.View(), base)
    ensures old(Represents(x.View(), base, None)) && IsCString(word) && EnvOk(env) ==>
              (Represents(x.View(), base + WordFields(word, env, status), None) <==> IsGood(word, env, status))
  {
    hide Represents, ScanInPlace, EnvOk, IsCString, WordFields, IsGood, Keeps;
    ghost var f := x.View();
    ghost var result := ScanInPlace(word, Unquoted, f, env, status);
    var i := 0;
    assert word[0..] == word;
    while i < |word|
      invariant Scanning(x, word, i, result, env, status) && AddsFields(x)
      decreases |word| - i
    {
      if x.inSquote {
        i := HandleSquote(x, word, i, env, status, result);
      } else if x.inDquote {
        i := HandleDquote(x, word, i, env, status, result);
      } else {
        i := HandleUnquoted(x, word, i, env, status, result);
      }
    }
    assert word[i..] == [];
    ScanEnds(x.QuoteMode(), x.View(), env, status);
    if x.hasField {
      DelimitField(x);
    }
    if Represents(f, base, None) {
      WordKeepsFields(f, word, base, env, status);
      if IsCString(word) && EnvOk(env) { WordIsRightIff(f, word, base, env, status); }
    }
  }

  // ---- Arguments -------------------------------------------------------------------------

  predicate AreArgs(c: Cell) {
    c.Cell? ==> c.data.Arg? && AreArgs(c.rest)
  }

  /** The argument words of a command are in the string arena; those without flags are plain. */
  predicate WordsOk(c: Cell, strings: seq<string>) {
    c.Cell? && c.data.Arg? ==>
      && c.data.offset < |strings| && IsCString(strings[c.data.offset]) && strings[c.data.offset] != []
      && (c.data.wordFlags % WORD_FLAGS == 0 ==> IsPlainWord(strings[c.data.offset]))
      && WordsOk(c.rest, strings)
  }

  /** None of the words has a value that is split where it cannot be. */
  predicate AreGood(c: Cell, strings: seq<string>, env: map<string, string>, status: int) {
    c.Cell? && c.data.Arg? && c.data.offset < |strings| ==>
      && (c.data.wordFlags % WORD_FLAGS != 0 ==> IsGood(strings[c.data.offset], env, status))
      && AreGood(c.rest, strings, env, status)
  }

  /** The fields of all words, each expanded; no word is treated specially. */
  function ArgFields(c: Cell, strings: seq<string>, env: map<string, string>, status: int): seq<string> {
    if c.Cell? && c.data.Arg? && c.data.offset < |strings| then
      WordFields(strings[c.data.offset], env, status) + ArgFields(c.rest, strings, env, status)
    else []
  }

  /** The fields of the words that are scanned. */
  function ScannedFields(c: Cell, strings: seq<string>, env: map<string, string>, status: int): seq<string> {
    if c.Cell? && c.data.Arg? && c.data.offset < |strings| then
      (if c.data.wordFlags % WORD_FLAGS == 0 then [] else WordFields(strings[c.data.offset], env, status))
      + ScannedFields(c.rest, strings, env, status)
    else []
  }

  /** The fields arena and the argument slots. */
  datatype Args = Args(fields: Fields, slots: seq<Slot>)

  function FieldSlots(refs: seq<nat>): (slots: seq<Slot>)
    ensures |slots| == |refs| && forall i :: 0 <= i < |slots| ==> slots[i] == FieldSlot(refs[i])
  {
    seq(|refs|, i requires 0 <= i < |refs| => FieldSlot(refs[i]))
  }

  /** One argument: a word whose flags are clear is referred to where it is, any other is scanned. */
  function ArgAfter(a: Args, offset: nat, wordFlags: nat, word: string, env: map<string, string>,
                    status: int): (b: Args)
    requires a.fields.buf != []
    ensures b.fields.buf != []
  {
    if wordFlags % WORD_FLAGS == 0 then Args(a.fields, a.slots + [StringSlot(offset)])
    else
      var g := WordInPlace(a.fields, word, env, status);
      Args(g, a.slots + FieldSlots(g.refs[|a.fields.refs|..]))
  }

  function ArgsAfter(c: Cell, a: Args, strings: seq<string>, env: map<string, string>, status: int): Args
    requires a.fields.buf != []
    decreases c
  {
    if c.Cell? && c.data.Arg? && c.data.offset < |strings| then
      ArgsAfter(c.rest, ArgAfter(a, c.data.offset, c.data.wordFlags, strings[c.data.offset], env, status), strings, env,
        status)
    else a
  }

  /** The strings that the slots refer to; the field slots lead to the recorded fields in order. */
  function SlotTexts(slots: seq<Slot>, fields: seq<string>, strings: seq<string>): seq<string> {
    if slots == [] then []
    else
      var n := |slots| - 1;
      match slots[n]
      case StringSlot(offset) =>
        SlotTexts(slots[..n], fields, strings) + [if offset < |strings| then strings[offset] else []]
      case FieldSlot(_) =>
        if fields == [] then SlotTexts(slots[..n], [], strings) + [[]]
        else SlotTexts(slots[..n], fields[..|fields| - 1], strings) + [fields[|fields| - 1]]
  }

  lemma {:induction false} FieldSlotsAdd(slots: seq<Slot>, slots': seq<Slot>, fields: seq<string>, more: seq<string>,
                                         strings: seq<string>)
    requires slots <= slots' && |slots'| == |slots| + |more| && forall k ::
      |slots| <= k < |slots'| ==> slots'[k].FieldSlot?
    ensures SlotTexts(slots', fields + more, strings) == SlotTexts(slots, fields, strings) + more
    decreases |more|
  {
    if more == [] {
      assert slots' == slots && fields + more == fields;
    } else {
      var n := |more| - 1;
      FieldSlotsAdd(slots, slots'[..|slots'| - 1], fields, more[..n], strings);
      assert (fields + more)[..|fields + more| - 1] == fields + more[..n];
      assert more == more[..n] + [more[n]];
    }
  }

  lemma StringSlotAdds(slots: seq<Slot>, fields: seq<string>, strings: seq<string>, offset: nat)
    requires offset < |strings|
    ensures SlotTexts(slots + [StringSlot(offset)], fields, strings)
      == SlotTexts(slots, fields, strings) + [strings[offset]]
  {
    assert (slots + [StringSlot(offset)])[..|slots|] == slots;
  }

  /** One argument, if its word is good: its slots refer to its fields. */
  lemma ArgIsRight(a: Args, offset: nat, wordFlags: nat, strings: seq<string>, base: seq<string>,
                   env: map<string, string>, status: int)
    requires Represents(a.fields, base, None) && offset < |strings| && IsCString(strings[offset])
    requires strings[offset] != []
    requires EnvOk(env)
    requires if wordFlags % WORD_FLAGS == 0 then IsPlainWord(strings[offset]) else IsGood(strings[offset], env, status)
    ensures a.fields.buf != []
    ensures var b := ArgAfter(a, offset, wordFlags, strings[offset], env, status);
            var fields := WordFields(strings[offset], env, status);
            var base' := base + (if wordFlags % WORD_FLAGS == 0 then [] else fields);
      && Represents(b.fields, base', None)
      && SlotTexts(b.slots, base', strings) == SlotTexts(a.slots, base, strings) + fields
  {
    hide Represents, WordFields, EnvOk, IsCString, IsGood, IsPlainWord, SlotTexts, WordInPlace;
    var word := strings[offset];
    RefsCount(a.fields, base, None);
    if wordFlags % WORD_FLAGS == 0 {
      FastPathIsRight(word, env, status);
      StringSlotAdds(a.slots, base, strings, offset);
      assert base + [] == base;
    } else {
      WordIsRightIff(a.fields, word, base, env, status);
      var b := ArgAfter(a, offset, wordFlags, word, env, status);
      RefsCount(b.fields, base + WordFields(word, env, status), None);
      FieldSlotsAdd(a.slots, b.slots, base, WordFields(word, env, status), strings);
    }
  }

  /** Once the arena is wrong, no further argument puts it right. */
  lemma {:induction false} ArgsStayWrong(c: Cell, a: Args, strings: seq<string>, base: seq<string>,
                                         env: map<string, string>, status: int)
    requires Wrong(a.fields, base) && !a.fields.has
    ensures a.fields.buf != []
    ensures Wrong(ArgsAfter(c, a, strings, env, status).fields, base + ScannedFields(c, strings, env, status))
    decreases c
  {
    hide Wrong, WordInPlace, WordFields;
    WrongArena(a.fields, base);
    if c.Cell? && c.data.Arg? && c.data.offset < |strings| {
      var word := strings[c.data.offset];
      var b := ArgAfter(a, c.data.offset, c.data.wordFlags, word, env, status);
      if c.data.wordFlags % WORD_FLAGS == 0 {
        ArgsStayWrong(c.rest, b, strings, base, env, status);
        assert [] + ScannedFields(c.rest, strings, env, status) == ScannedFields(c.rest, strings, env, status);
      } else {
        WordStaysWrong(a.fields, word, base, env, status);
        ArgsStayWrong(c.rest, b, strings, base + WordFields(word, env, status), env, status);
        assert base + WordFields(word, env, status) + ScannedFields(c.rest, strings, env, status)
            == base + ScannedFields(c, strings, env, status);
      }
    } else {
      assert base + [] == base;
    }
  }

  /**
   * The arena holds exactly the fields of the scanned words if and only if all of them are good;
   * and then the slots refer to the fields of all words in order, as if each had been scanned.
   */
  lemma {:induction false} ArgsAreRightIff(c: Cell, a: Args, strings: seq<string>, base: seq<string>,
                                           env: map<string, string>, status: int)
    requires Represents(a.fields, base, None) && WordsOk(c, strings) && EnvOk(env)
    ensures a.fields.buf != []
    ensures var b, base' := ArgsAfter(c, a, strings, env, status), base + ScannedFields(c, strings, env, status);
      && (Represents(b.fields, base', None) <==> AreGood(c, strings, env, status))
      && (AreGood(c, strings, env, status) ==>
            SlotTexts(b.slots, base', strings)
              == SlotTexts(a.slots, base, strings) + ArgFields(c, strings, env, status))
    decreases c
  {
    hide Represents, WordFields, EnvOk, IsCString, IsGood, IsPlainWord, SlotTexts, WordInPlace, Wrong;
    RefsCount(a.fields, base, None);
    if c.Cell? && c.data.Arg? {
      var word, scanned := strings[c.data.offset], c.data.wordFlags % WORD_FLAGS != 0;
      var fields := WordFields(word, env, status);
      var base' := base + (if scanned then fields else []);
      assert base' + ScannedFields(c.rest, strings, env, status) == base + ScannedFields(c, strings, env, status);
      var b := ArgAfter(a, c.data.offset, c.data.wordFlags, word, env, status);
      if scanned && !IsGood(word, env, status) {
        WordGoesWrong(a.fields, word, base, env, status);
        ArgsStayWrong(c.rest, b, strings, base', env, status);
        WrongIsNotRight(ArgsAfter(c, a, strings, env, status).fields, base + ScannedFields(c, strings, env, status));
      } else {
        ArgIsRight(a, c.data.offset, c.data.wordFlags, strings, base, env, status);
        ArgsAreRightIff(c.rest, b, strings, base', env, status);
        assert SlotTexts(a.slots, base, strings) + fields + ArgFields(c.rest, strings, env, status)
            == SlotTexts(a.slots, base, strings) + ArgFields(c, strings, env, status);
      }
    } else {
      assert base + [] == base;
      assert SlotTexts(a.slots, base, strings) + [] == SlotTexts(a.slots, base, strings);
    }
  }

  /** The slots that were added are those of the references that were added. */
  lemma {:induction false} AddedSlots(slots: seq<Slot>, slots': seq<Slot>)
    requires slots <= slots' && forall k :: |slots| <= k < |slots'| ==> slots'[k].FieldSlot?
    ensures FieldRefs(slots) <= FieldRefs(slots')
    ensures slots' == slots + FieldSlots(FieldRefs(slots')[|FieldRefs(slots)|..])
    decreases |slots'|
  {
    if |slots'| > |slots| {
      var init := slots'[..|slots'| - 1];
      AddedSlots(slots, init);
      var n := |FieldRefs(slots)|;
      assert FieldRefs(slots')[n..] == FieldRefs(init)[n..] + [slots'[|slots'| - 1].offset];
    } else {
      assert slots == slots';
    }
  }

  /** One argument: referred to where it is, or scanned. */
  method ExpandArg(x: Expander, offset: nat, wordFlags: nat, word: string, env: map<string, string>, status: int)
    requires Terminated(x.View()) && !x.inSquote && !x.inDquote && x.argc == |x.slots|
    modifies x
    ensures Args(x.View(), x.slots) == ArgAfter(old(Args(x.View(), x.slots)), offset, wordFlags, word, env, status)
    ensures Terminated(x.View()) && !x.inSquote && !x.inDquote && x.argc == |x.slots|
  {
    hide WordInPlace, FieldRefs;
    if wordFlags % WORD_FLAGS == 0 {
      RecordReference(x, StringSlot(offset));
      assert FieldRefs(old(x.slots)) + [] == FieldRefs(old(x.slots));
      return;
    }
    ScanWord(x, word, env, status, []);
    AddedSlots(old(x.slots), x.slots);
  }

  /** The next argument record. */
  lemma NextArg(nodes: seq<Node>, chain: Cell, strings: seq<string>)
    requires nodes != [] && nodes[0] == SENTINEL && Holds(nodes, chain) && AreArgs(chain) && WordsOk(chain, strings)
    ensures Head(chain) < |nodes| && (nodes[Head(chain)].data.Arg? <==> chain.Cell?)
    ensures chain.Cell? ==>
              var node := nodes[Head(chain)];
              && node.data == chain.data && node.data.offset < |strings|
              && node.next == Head(chain.rest) && Holds(nodes, chain.rest) && AreArgs(chain.rest)
              && WordsOk(chain.rest, strings)
  {
    hide IsCString, IsPlainWord;
  }

  /**
   * Fills the argument slots, whatever the words expand to. If all words are good, and only then,
   * the arena holds their fields; and then the arguments are the fields of all words.
   */
  method ExpandArgs(c: Ctx, x: Expander, argIdx: nat, ghost chain: Cell, ghost base: seq<string>)
    requires c.nodes != [] && c.nodes[0] == SENTINEL && Holds(c.nodes, chain) && AreArgs(chain) && argIdx == Head(chain)
    requires WordsOk(chain, c.strings)
    requires Terminated(x.View()) && !x.inSquote && !x.inDquote && x.argc == |x.slots|
    modifies x
    ensures Args(x.View(), x.slots) == ArgsAfter(chain, old(Args(x.View(), x.slots)), c.strings, c.env, c.returnStatus)
    ensures Terminated(x.View()) && !x.inSquote && !x.inDquote && x.argc == |x.slots|
    ensures old(Represents(x.View(), base, None)) && EnvOk(c.env) ==>
              var fields := base + ScannedFields(chain, c.strings, c.env, c.returnStatus);
              && (Represents(x.View(), fields, None) <==> AreGood(chain, c.strings, c.env, c.returnStatus))
              && (AreGood(chain, c.strings, c.env, c.returnStatus) ==>
                    SlotTexts(x.slots, fields, c.strings) ==
                    SlotTexts(old(x.slots), base, c.strings) + ArgFields(chain, c.strings, c.env, c.returnStatus))
  {
    hide Represents, EnvOk, Holds, AreArgs, WordsOk, ArgFields, SlotTexts, AreGood, ScannedFields, ArgAfter;
    var idx := argIdx;
    ghost var rest, a := chain, Args(x.View(), x.slots);
    NextArg(c.nodes, rest, c.strings);
    while c.nodes[idx].data.Arg?
      invariant Holds(c.nodes, rest) && AreArgs(rest) && idx == Head(rest) < |c.nodes| && WordsOk(rest, c.strings)
      invariant Terminated(x.View()) && !x.inSquote && !x.inDquote && x.argc == |x.slots|
      invariant ArgsAfter(rest, Args(x.View(), x.slots), c.strings, c.env, c.returnStatus)
             == ArgsAfter(chain, a, c.strings, c.env, c.returnStatus)
      decreases rest
    {
      NextArg(c.nodes, rest, c.strings);
      var node := c.nodes[idx];
      ExpandArg(x, node.data.offset, node.data.wordFlags, c.strings[node.data.offset], c.env, c.returnStatus);
      idx := node.next;
      rest := rest.rest;
      NextArg(c.nodes, rest, c.strings);
    }
    NextArg(c.nodes, rest, c.strings);
    if old(Represents(x.View(), base, None)) && EnvOk(c.env) {
      ArgsAreRightIff(chain, a, c.strings, base, c.env, c.returnStatus);
    }
  }

  /** The string at an offset of the fields arena, or behind it. */
  function StringAt(f: Fields, offset: nat): string {
    if offset <= |f.buf| + |f.tail| then Str((f.buf + f.tail)[offset..]) else []
  }

  lemma StringOfField(f: Fields, fields: seq<string>, k: nat)
    requires Represents(f, fields, None) && k < |fields|
    ensures |f.refs| == |fields| && StringAt(f, f.refs[k]) == fields[k]
  {
    var o := f.refs[k];
    assert HoldsString(f.buf, o, fields[k]);
    var rest := (f.buf + f.tail)[o..];
    assert rest[..|fields[k]|] == f.buf[o..o + |fields[k]|];
    StrOfTerminated(rest, fields[k]);
  }

  /** The string that a slot refers to. */
  function SlotString(f: Fields, slot: Slot, strings: seq<string>): string {
    match slot
    case StringSlot(offset) => if offset < |strings| then strings[offset] else []
    case FieldSlot(offset) => StringAt(f, offset)
  }

  function Argv(f: Fields, slots: seq<Slot>, strings: seq<string>): (argv: seq<string>)
    ensures |argv| == |slots| && forall i :: 0 <= i < |slots| ==> argv[i] == SlotString(f, slots[i], strings)
  {
    seq(|slots|, i requires 0 <= i < |slots| => SlotString(f, slots[i], strings))
  }

  /** The fields that the slots before the last one refer to. */
  function FieldsBefore(slots: seq<Slot>, fields: seq<string>): seq<string>
    requires slots != []
  {
    if slots[|slots| - 1].FieldSlot? && fields != [] then fields[..|fields| - 1] else fields
  }

  lemma LastSlot(slots: seq<Slot>, fields: seq<string>, strings: seq<string>)
    requires slots != [] && |FieldRefs(slots)| == |fields|
    ensures var n := |slots| - 1; var init, last := slots[..n], slots[n];
      && |FieldRefs(init)| == |FieldsBefore(slots, fields)|
      && FieldRefs(slots) == FieldRefs(init) + (if last.FieldSlot? then [last.offset] else [])
      && (last.FieldSlot? ==>
            && fields != []
            && SlotTexts(slots, fields, strings)
              == SlotTexts(init, FieldsBefore(slots, fields), strings) + [fields[|fields| - 1]])
      && (last.StringSlot? ==>
            SlotTexts(slots, fields, strings) ==
            SlotTexts(init, FieldsBefore(slots, fields), strings)
              + [if last.offset < |strings| then strings[last.offset] else []])
  {
  }

  /** Which field a slot refers to: as many as there are field slots before it come first. */
  lemma {:induction false} SlotAt(slots: seq<Slot>, fields: seq<string>, strings: seq<string>, i: nat)
    requires i < |slots| && |FieldRefs(slots)| == |fields|
    ensures |SlotTexts(slots, fields, strings)| == |slots|
    ensures |FieldRefs(slots[..i])| <= |fields|
    ensures slots[i].FieldSlot? ==>
              var k := |FieldRefs(slots[..i])|;
              k < |fields| && FieldRefs(slots)[k] == slots[i].offset
                && SlotTexts(slots, fields, strings)[i] == fields[k]
    ensures slots[i].StringSlot? && slots[i].offset < |strings| ==>
      SlotTexts(slots, fields, strings)[i] == strings[slots[i].offset]
    decreases |slots|
  {
    hide SlotTexts, FieldRefs;
    var n := |slots| - 1;
    var init := slots[..n];
    LastSlot(slots, fields, strings);
    if n > 0 {
      SlotAt(init, FieldsBefore(slots, fields), strings, if i < n then i else 0);
    } else {
      NoSlots(strings);
      assert init == [];
    }
    if i < n {
      assert init[..i] == slots[..i] && init[i] == slots[i];
    }
  }

  lemma NoSlots(strings: seq<string>)
    ensures SlotTexts([], [], strings) == [] && FieldRefs([]) == []
  {
  }

  /** While the arena holds the fields, the slots' strings are what they stand for. */
  lemma ArgvIsTexts(f: Fields, slots: seq<Slot>, fields: seq<string>, strings: seq<string>)
    requires Represents(f, fields, None) && f.refs == FieldRefs(slots)
    requires forall k :: 0 <= k < |slots| && slots[k].StringSlot? ==> slots[k].offset < |strings|
    ensures Argv(f, slots, strings) == SlotTexts(slots, fields, strings)
  {
    hide Represents, StringAt;
    RefsCount(f, fields, None);
    forall i | 0 <= i < |slots|
      ensures |SlotTexts(slots, fields, strings)| == |slots|
      ensures Argv(f, slots, strings)[i] == SlotTexts(slots, fields, strings)[i]
    {
      SlotAt(slots, fields, strings, i);
      if slots[i].FieldSlot? { StringOfField(f, fields, |FieldRefs(slots[..i])|); }
    }
  }

  /** Once the arenas no longer grow, every slot becomes its string. */
  method FinishArgs(x: Expander, strings: seq<string>, ghost fields: seq<string>) returns (argv: seq<string>)
    requires x.argc == |x.slots|
    requires forall k :: 0 <= k < |x.slots| && x.slots[k].StringSlot? ==> x.slots[k].offset < |strings|
    ensures argv == Argv(x.View(), x.slots, strings)
    ensures Represents(x.View(), fields, None) ==> argv == SlotTexts(x.slots, fields, strings)
  {
    hide Represents, StringAt;
    argv := [];
    var i := 0;
    while i < x.argc
      invariant i <= x.argc && |argv| == i
      invariant forall k :: 0 <= k < i ==> argv[k] == SlotString(x.View(), x.slots[k], strings)
    {
      var slot := x.slots[i];
      argv := argv + [if slot.FieldSlot? then StringAt(x.View(), slot.offset) else strings[slot.offset]];
      i := i + 1;
    }
    if Represents(x.View(), fields, None) { ArgvIsTexts(x.View(), x.slots, fields, strings); }
  }

  // ---- Redirections ----------------------------------------------------------------------

  /**
   * A redirection's word is to be exactly one field, whatever it is made of; the argument slots
   * it took are given back. A plain word, or a here-document's, is left where it is.
   */
  method ExpandRedir(x: Expander, isHere: bool, wordFlags: nat, offset: nat, strings: seq<string>,
                     env: map<string, string>, status: int, ghost base: seq<string>)
    returns (ok: bool, at: nat)
    requires !isHere ==> offset < |strings|
    requires Terminated(x.View()) && !x.inSquote && !x.inDquote
    modifies x
    ensures x.slots == old(x.slots) && !x.inSquote && !x.inDquote && Terminated(x.View())
    ensures isHere || wordFlags % WORD_FLAGS == 0 ==> ok && at == offset && x.View() == old(x.View())
    ensures !isHere && wordFlags % WORD_FLAGS != 0 ==>
              var f := old(x.View()); var g := WordInPlace(f, strings[offset], env, status);
              && x.View() == g.(refs := f.refs)
              && (ok <==> |g.refs| == |f.refs| + 1) && (ok ==> at == g.refs[|f.refs|])
    ensures old(Represents(x.View(), base, None)) ==> Represents(x.View(), base, None)
    ensures old(Represents(x.View(), base, None)) && !isHere && wordFlags % WORD_FLAGS != 0
            && IsCString(strings[offset]) && EnvOk(env) && IsGood(strings[offset], env, status) ==>
              var fields := WordFields(strings[offset], env, status);
              (ok <==> |fields| == 1) && (ok ==> StringAt(x.View(), at) == fields[0])
  {
    hide WordFields, EnvOk, IsCString, IsGood, Represents, Keeps, WordInPlace, FieldRefs, StringAt;
    if isHere || wordFlags % WORD_FLAGS == 0 {
      return true, offset;
    }
    ghost var f := x.View();
    var word, redirBase, argc := strings[offset], |x.slots|, x.argc;
    ScanWord(x, word, env, status, base);
    ghost var g := x.View();
    AddedSlots(old(x.slots), x.slots);
    ok := x.argc - argc == 1;
    at := 0;
    if ok {
      at := x.slots[redirBase].offset;
    }
    x.slots, x.argc := x.slots[..redirBase], argc;
    assert x.slots == old(x.slots);
    if Represents(f, base, None) {
      RefsCount(f, base, None);
      GivenBack(f, g, base);
      if IsCString(word) && EnvOk(env) && IsGood(word, env, status) {
        OneField(f, g, base, WordFields(word, env, status));
        SameString(g, x.View(), at);
      }
    }
  }

  /** Without the references that were added, the arena still holds what was there before. */
  lemma GivenBack(f: Fields, g: Fields, base: seq<string>)
    requires Represents(f, base, None) && Keeps(g, base) && f.refs <= g.refs && !g.has && Terminated(g)
    ensures Represents(g.(refs := f.refs), base, None)
  {
    forall k | 0 <= k < |f.refs| ensures f.refs[k] + |base[k]| < |g.buf| && HoldsString(g.buf, f.refs[k], base[k]) {
      assert f.refs[k] == g.refs[k];
    }
  }

  lemma OneField(f: Fields, g: Fields, base: seq<string>, fields: seq<string>)
    requires Represents(f, base, None) && Represents(g, base + fields, None)
    ensures |f.refs| == |base| && |g.refs| == |base| + |fields|
    ensures |fields| == 1 ==> StringAt(g, g.refs[|f.refs|]) == fields[0]
  {
    hide StringAt;
    if |fields| == 1 { StringOfField(g, base + fields, |base|); }
  }

  lemma SameString(f: Fields, g: Fields, at: nat)
    requires f.buf == g.buf && f.tail == g.tail
    ensures StringAt(f, at) == StringAt(g, at)
  {
  }
}
