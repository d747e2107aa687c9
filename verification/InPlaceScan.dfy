// The scan of a word as it happens in the fields arena, for every word; and exactly when the
// fields it leaves there are the word's.

module InPlaceScan {
  import opened CStrings
  import opened Context
  import opened Lexer
  import opened FieldSplitting
  import opened WordScan

  // ---- One move of the scan --------------------------------------------------------------

  /** What a move adds: nothing, a field if none is open, text as it is, or a parameter. */
  datatype Action = Nothing | Begin | Take(text: string) | Expand

  /** How much of the word a move consumes, in which mode the scan goes on, and what the move adds. */
  datatype Move = Move(n: nat, mode: Mode, action: Action)

  function MoveOf(src: string, mode: Mode): (m: Move)
    requires src != []
    ensures 0 < m.n <= |src| && (m.action.Expand? ==> IsExpansionStart(src, 0) && !mode.InSingle?)
    ensures m.action.Take? ==> m.action.text == src[..m.n]
  {
    match mode
    case InSingle =>
      if src[0] == '\'' then Move(1, Unquoted, Nothing)
      else Move(IndexOf(src, '\''), InSingle, Take(src[..IndexOf(src, '\'')]))
    case InDouble =>
      if src[0] == '"' then Move(1, Unquoted, Nothing)
      else if IsExpansionStart(src, 0) then Move(ExpansionLen(src, 0), InDouble, Expand)
      else Move(DoubleEnd(src, 0), InDouble, Take(src[..DoubleEnd(src, 0)]))
    case Unquoted =>
      if HasClosingQuote(src, 0) then Move(1, if src[0] == '\'' then InSingle else InDouble, Begin)
      else if IsExpansionStart(src, 0) then Move(ExpansionLen(src, 0), Unquoted, Expand)
      else Move(PlainEnd(src, 0), Unquoted, Take(src[..PlainEnd(src, 0)]))
  }

  /** What the move adds to the fields of the word. */
  function Moved(s: Scan, src: string, mode: Mode, env: map<string, string>, status: int): Scan
    requires src != []
  {
    match MoveOf(src, mode).action
    case Nothing => s
    case Begin => OpenQuote(s)
    case Take(text) => Glue(s, text)
    case Expand => ExpandParameter(s, src, mode, env, status)
  }

  lemma ScanMoves(src: string, mode: Mode, s: Scan, env: map<string, string>, status: int)
    requires src != []
    ensures var m := MoveOf(src, mode);
      ScanFrom(src, mode, s, env, status) == ScanFrom(src[m.n..], m.mode, Moved(s, src, mode, env, status), env, status)
  {
    hide IsExpansionStart, HasClosingQuote, ExpandParameter, ExpansionLen, PlainEnd, DoubleEnd, IndexOf;
  }

  // ---- The same in the arena -------------------------------------------------------------

  /** The parameter's value in the arena, split unless it is quoted. */
  function ExpandInPlace(f: Fields, src: string, mode: Mode, env: map<string, string>, status: int): (g: Fields)
    requires IsExpansionStart(src, 0) && f.buf != []
    ensures g.buf != []
  {
    var name := src[1..ExpansionLen(src, 0)];
    if name == "?" then AppendField(f, Itoa(status))
    else if name !in env then f
    else if mode.InDouble? then AppendField(f, env[name])
    else AppendSegment(f, env[name])
  }

  function MovedInPlace(f: Fields, src: string, mode: Mode, env: map<string, string>, status: int): (g: Fields)
    requires src != [] && f.buf != []
    ensures g.buf != []
  {
    match MoveOf(src, mode).action
    case Nothing => f
    case Begin => if f.has then f else AppendField(f, [])
    case Take(text) => AppendField(f, text)
    case Expand => ExpandInPlace(f, src, mode, env, status)
  }

  /** The arena after the scan of a word, from a place in it on. */
  function ScanInPlace(src: string, mode: Mode, f: Fields, env: map<string, string>, status: int): (g: Fields)
    requires f.buf != []
    ensures g.buf != []
    decreases |src|
  {
    if src == [] then f
    else
      var m := MoveOf(src, mode);
      ScanInPlace(src[m.n..], m.mode, MovedInPlace(f, src, mode, env, status), env, status)
  }

  /** Records the field that is still open. */
  function EndField(f: Fields): Fields {
    if f.has then Fields(f.buf, f.tail, f.refs + [f.pos], 0, 0, false) else f
  }

  /** The arena after a word: references were only added, and no field is open. */
  function WordInPlace(f: Fields, word: string, env: map<string, string>, status: int): (g: Fields)
    requires f.buf != []
    ensures g.buf != [] && f.refs <= g.refs && !g.has && (Terminated(f) ==> Terminated(g))
  {
    WordExtends(f, word, env, status);
    EndField(ScanInPlace(word, Unquoted, f, env, status))
  }

  lemma WordExtends(f: Fields, word: string, env: map<string, string>, status: int)
    requires f.buf != []
    ensures Extends(f, EndField(ScanInPlace(word, Unquoted, f, env, status)))
    ensures !EndField(ScanInPlace(word, Unquoted, f, env, status)).has
  {
    hide Extends;
    var g := ScanInPlace(word, Unquoted, f, env, status);
    ScanExtends(word, Unquoted, f, env, status);
    EndExtends(g);
    ExtendsTwice(f, g, EndField(g));
    EndIsClosed(g);
  }

  lemma MovesOn(src: string, mode: Mode, f: Fields, env: map<string, string>, status: int)
    requires src != [] && f.buf != []
    ensures var m := MoveOf(src, mode);
      ScanInPlace(src, mode, f, env, status)
      == ScanInPlace(src[m.n..], m.mode, MovedInPlace(f, src, mode, env, status), env, status)
  {
  }

  predicate Terminated(f: Fields) {
    f.buf != [] && f.buf[|f.buf| - 1] == NUL
  }

  // ---- Where both agree ------------------------------------------------------------------

  ghost predicate EnvOk(env: map<string, string>) {
    forall name :: name in env ==> IsCString(env[name])
  }

  lemma {:induction false} DigitsAreText(n: nat)
    ensures IsCString(Digits(n)) && Digits(n) != []
  {
    if n >= 10 { DigitsAreText(n / 10); }
  }

  lemma ItoaIsText(n: int)
    ensures IsCString(Itoa(n))
  {
    DigitsAreText(if n < 0 then -n else n);
  }

  /** The arena holds the fields so far behind those that were there before. */
  ghost predicate Matches(f: Fields, base: seq<string>, s: Scan) {
    && Represents(f, base + s.done, s.open)
    && (s.open.Some? ==> (s.exact <==> f.len == |s.open.value|))
  }

  lemma GlueMatches(f: Fields, base: seq<string>, s: Scan, text: string)
    requires Matches(f, base, s) && IsCString(text)
    ensures f.buf != [] && Matches(AppendField(f, text), base, Glue(s, text))
  {
    hide RefsHold;
    AppendRepresents(f, base + s.done, s.open, text);
  }

  lemma SplitMatches(f: Fields, base: seq<string>, s: Scan, val: string)
    requires Matches(f, base, s) && IsCString(val) && Splits(s, val)
    ensures f.buf != [] && Matches(AppendSegment(f, val), base, SplitValue(s, val))
  {
    hide RefsHold, AppendSegment, SplitOn, HasIfs;
    if val == [] {
      EmptyValue(f, val);
    } else {
      SegmentIsRight(f, base + s.done, s.open, val);
      assert base + s.done + SplitOn(s.open, val).done == base + (s.done + SplitOn(s.open, val).done);
      if HasIfs(val) {
        SplitLeavesWrongLength(f, base + s.done, s.open, val);
      } else {
        AppendRepresents(f, base + s.done, s.open, val);
        SplitWithoutIfs(s.open, val);
        WithoutIfsIsGlued(f, val);
      }
    }
  }

  lemma EmptyValue(f: Fields, val: string)
    requires f.buf != [] && val == []
    ensures !HasIfs(val) && AppendSegment(f, val) == f
  {
  }

  lemma WithoutIfsIsGlued(f: Fields, val: string)
    requires f.buf != [] && !HasIfs(val) && val != []
    ensures AppendSegment(f, val) == AppendField(f, val)
  {
    LoopWithoutIfs(AppendField(f, val), val, Span(f, val), Span(f, val));
  }

  lemma MatchedArena(f: Fields, base: seq<string>, s: Scan)
    requires Matches(f, base, s)
    ensures f.buf != [] && f.buf[|f.buf| - 1] == NUL && f.has == s.open.Some?
  {
  }

  lemma BeginMatches(f: Fields, base: seq<string>, s: Scan)
    requires Matches(f, base, s)
    ensures f.buf != [] && Matches(if f.has then f else AppendField(f, []), base, OpenQuote(s))
  {
    hide RefsHold;
    MatchedArena(f, base, s);
    if s.open.None? {
      GlueMatches(f, base, s, []);
      assert Text(s.open) + [] == [];
      assert Glue(s, []) == OpenQuote(s);
    }
  }

  lemma ExpandMatches(f: Fields, base: seq<string>, s: Scan, src: string, mode: Mode, env: map<string, string>,
                      status: int)
    requires src != [] && MoveOf(src, mode).action.Expand? && Matches(f, base, s) && EnvOk(env)
    requires ExpandParameter(s, src, mode, env, status).good
    ensures f.buf != []
    ensures Matches(ExpandInPlace(f, src, mode, env, status), base, ExpandParameter(s, src, mode, env, status))
  {
    hide Matches, Glue, AppendField, AppendSegment, Itoa, IsExpansionStart, ExpansionLen, Splits, SplitOn, IsCString;
    MatchedArena(f, base, s);
    var name := src[1..ExpansionLen(src, 0)];
    if name == "?" {
      ItoaIsText(status);
      GlueMatches(f, base, s, Itoa(status));
    } else if name in env {
      var val := env[name];
      if mode.InDouble? {
        GlueMatches(f, base, s, val);
      } else {
        SplitsWhenGood(s, val);
        SplitMatches(f, base, s, val);
      }
    }
  }

  lemma SplitsWhenGood(s: Scan, val: string)
    requires SplitValue(s, val).good
    ensures Splits(s, val)
  {
    hide SplitOn;
  }

  lemma MoveMatches(f: Fields, base: seq<string>, s: Scan, src: string, mode: Mode, env: map<string, string>,
                    status: int)
    requires src != [] && Matches(f, base, s) && EnvOk(env) && IsCString(src) && Moved(s, src, mode, env, status).good
    ensures f.buf != [] && Matches(MovedInPlace(f, src, mode, env, status), base, Moved(s, src, mode, env, status))
  {
    hide Matches, Glue, AppendField, ExpandParameter, ExpandInPlace, EnvOk, MoveOf;
    MatchedArena(f, base, s);
    var m := MoveOf(src, mode);
    match m.action
    case Nothing =>
    case Begin => BeginMatches(f, base, s);
    case Take(text) => GlueMatches(f, base, s, text);
    case Expand => ExpandMatches(f, base, s, src, mode, env, status);
  }

  /** A bad step is never made good. */
  lemma {:induction false} StaysGood(src: string, mode: Mode, s: Scan, env: map<string, string>, status: int)
    requires ScanFrom(src, mode, s, env, status).good
    ensures s.good
    decreases |src|
  {
    hide ScanFrom, MoveOf, Glue, SplitOn, Splits, IsExpansionStart;
    if src == [] {
      NoMove(mode, s, env, status);
    } else {
      ScanMoves(src, mode, s, env, status);
      var m := MoveOf(src, mode);
      StaysGood(src[m.n..], m.mode, Moved(s, src, mode, env, status), env, status);
      GoodBefore(s, src, mode, env, status);
    }
  }

  lemma NoMove(mode: Mode, s: Scan, env: map<string, string>, status: int)
    ensures ScanFrom([], mode, s, env, status) == s
  {
  }

  lemma GoodBefore(s: Scan, src: string, mode: Mode, env: map<string, string>, status: int)
    requires src != [] && Moved(s, src, mode, env, status).good
    ensures s.good
  {
    hide MoveOf, SplitOn, Splits, IsExpansionStart;
  }

  /** As long as no value is split where it cannot be, the arena holds the fields of the word. */
  lemma {:induction false} ScanMatches(src: string, mode: Mode, f: Fields, base: seq<string>, s: Scan,
                                       env: map<string, string>, status: int)
    requires Matches(f, base, s) && EnvOk(env) && IsCString(src) && ScanFrom(src, mode, s, env, status).good
    ensures f.buf != []
    ensures Matches(ScanInPlace(src, mode, f, env, status), base, ScanFrom(src, mode, s, env, status))
    decreases |src|
  {
    hide ScanFrom, MoveOf, Matches, Moved, MovedInPlace, IsCString, EnvOk;
    MatchedArena(f, base, s);
    if src == [] {
      NoMove(mode, s, env, status);
    } else {
      ScanMoves(src, mode, s, env, status);
      var m := MoveOf(src, mode);
      var s' := Moved(s, src, mode, env, status);
      StaysGood(src[m.n..], m.mode, s', env, status);
      MoveMatches(f, base, s, src, mode, env, status);
      RestIsText(src, m.n);
      ScanMatches(src[m.n..], m.mode, MovedInPlace(f, src, mode, env, status), base, s', env, status);
    }
  }

  lemma RestIsText(src: string, n: nat)
    requires IsCString(src) && n <= |src|
    ensures IsCString(src[n..])
  {
  }

  // ---- What stays ------------------------------------------------------------------------

  /** Below here nothing is written any more: neither by appending nor by splitting. */
  function Frozen(f: Fields): nat
    requires f.buf != []
  {
    if f.has then Min(f.pos, |f.buf| - 1) else |f.buf|
  }

  /** References are only added, and what is below the field being built stays. */
  ghost predicate Extends(f: Fields, g: Fields) {
    && f.buf != [] && g.buf != [] && f.refs <= g.refs && |f.buf| <= |g.buf| && Frozen(f) <= Frozen(g)
    && g.buf[..Frozen(f)] == f.buf[..Frozen(f)]
    && (f.buf[|f.buf| - 1] == NUL ==> g.buf[|g.buf| - 1] == NUL)
  }

  lemma ExtendsTwice(f: Fields, g: Fields, h: Fields)
    requires Extends(f, g) && Extends(g, h)
    ensures Extends(f, h)
  {
    assert h.buf[..Frozen(f)] == h.buf[..Frozen(g)][..Frozen(f)];
    assert g.buf[..Frozen(f)] == g.buf[..Frozen(g)][..Frozen(f)];
  }

  lemma AppendExtends(f: Fields, text: string)
    requires f.buf != []
    ensures Extends(f, AppendField(f, text))
  {
    var g := AppendField(f, text);
    assert g.buf[..Frozen(f)] == f.buf[..Frozen(f)];
  }

  lemma SplitExtends(f: Fields, val: string)
    requires f.buf != []
    ensures Extends(f, AppendSegment(f, val))
  {
    hide Extends, SegmentLoop;
    if val == [] {
      SameExtends(f);
    } else {
      var g := AppendField(f, val);
      AppendExtends(f, val);
      AppendedAt(f, val);
      LoopExtends(g, val, Span(f, val), Span(f, val));
      LoopKeeps(g, AppendSegment(f, val), Span(f, val));
      ExtendsTwice(f, g, AppendSegment(f, val));
    }
  }

  lemma SameExtends(f: Fields)
    requires f.buf != []
    ensures Extends(f, f)
  {
  }

  lemma AppendedAt(f: Fields, val: string)
    requires f.buf != []
    ensures var g := AppendField(f, val); g.has && g.pos <= Span(f, val) && g.buf != []
  {
  }

  lemma LoopKeeps(f: Fields, g: Fields, span: nat)
    requires f.buf != [] && f.has && f.pos <= span && f.refs <= g.refs && |g.buf| == |f.buf| && f.pos <= g.pos
    requires var m := Min(span, |f.buf|); g.buf[..m] == f.buf[..m]
    requires f.buf[|f.buf| - 1] == NUL ==> g.buf[|g.buf| - 1] == NUL
    ensures Extends(f, g)
  {
    var m := Min(span, |f.buf|);
    assert g.buf[..Frozen(f)] == g.buf[..m][..Frozen(f)] && f.buf[..Frozen(f)] == f.buf[..m][..Frozen(f)];
  }

  lemma MoveExtends(f: Fields, src: string, mode: Mode, env: map<string, string>, status: int)
    requires src != [] && f.buf != []
    ensures Extends(f, MovedInPlace(f, src, mode, env, status))
  {
    hide Extends, AppendField, AppendSegment, MoveOf, Itoa, IsExpansionStart, ExpansionLen;
    SameExtends(f);
    match MoveOf(src, mode).action
    case Nothing =>
    case Begin => AppendExtends(f, []);
    case Take(text) => AppendExtends(f, text);
    case Expand =>
      var name := src[1..ExpansionLen(src, 0)];
      AppendExtends(f, Itoa(status));
      if name in env {
        AppendExtends(f, env[name]);
        SplitExtends(f, env[name]);
      }
  }

  /** For every word: what was recorded before stays as it is. */
  lemma {:induction false} ScanExtends(src: string, mode: Mode, f: Fields, env: map<string, string>, status: int)
    requires f.buf != []
    ensures Extends(f, ScanInPlace(src, mode, f, env, status))
    decreases |src|
  {
    hide Extends, MovedInPlace, MoveOf;
    if src == [] {
      SameExtends(f);
    } else {
      var m, g := MoveOf(src, mode), MovedInPlace(f, src, mode, env, status);
      MoveExtends(f, src, mode, env, status);
      ScanExtends(src[m.n..], m.mode, g, env, status);
      ExtendsTwice(f, g, ScanInPlace(src, mode, f, env, status));
    }
  }

  /** The first fields are recorded, and nothing that holds them is written any more. */
  predicate Keeps(f: Fields, base: seq<string>) {
    && f.buf != [] && |base| <= |f.refs|
    && forall k :: 0 <= k < |base| ==> f.refs[k] + |base[k]| < Frozen(f) && HoldsString(f.buf, f.refs[k], base[k])
  }

  lemma ExtendsKeeps(f: Fields, g: Fields, base: seq<string>)
    requires Keeps(f, base) && Extends(f, g)
    ensures Keeps(g, base)
  {
    forall k | 0 <= k < |base| ensures g.refs[k] + |base[k]| < Frozen(g) && HoldsString(g.buf, g.refs[k], base[k]) {
      var a, b := f.refs[k], f.refs[k] + |base[k]|;
      assert g.refs[k] == a;
      assert g.buf[a..b] == g.buf[..Frozen(f)][a..b] && f.buf[a..b] == f.buf[..Frozen(f)][a..b];
      assert g.buf[b] == g.buf[..Frozen(f)][b] && f.buf[b] == f.buf[..Frozen(f)][b];
    }
  }

  /** Whatever a word expands to, no field that was recorded before it changes. */
  lemma WordKeepsFields(f: Fields, word: string, base: seq<string>, env: map<string, string>, status: int)
    requires Represents(f, base, None)
    ensures f.buf != [] && Keeps(WordInPlace(f, word, env, status), base)
  {
    hide Extends, ScanInPlace;
    assert Keeps(f, base);
    WordExtends(f, word, env, status);
    ExtendsKeeps(f, WordInPlace(f, word, env, status), base);
  }

  lemma EndExtends(f: Fields)
    requires f.buf != []
    ensures Extends(f, EndField(f))
  {
  }

  // ---- Exactly when ----------------------------------------------------------------------

  /** A field is open in the arena only if one is open in the word. */
  predicate OpenInBoth(f: Fields, s: Scan) {
    f.has ==> s.open.Some?
  }

  /** A move does not record more fields than it finishes. */
  predicate Counts(f: Fields, s: Scan, g: Fields, t: Scan) {
    |g.refs| + |s.done| <= |f.refs| + |t.done| && s.done <= t.done && OpenInBoth(g, t)
  }

  lemma SplitCounts(f: Fields, s: Scan, val: string)
    requires f.buf != [] && OpenInBoth(f, s)
    ensures Counts(f, s, AppendSegment(f, val), SplitValue(s, val))
  {
    hide SplitOn, SegmentLoop, ValueFrom, HasIfs;
    if val != [] {
      var g := AppendField(f, val);
      AppendedAt(f, val);
      LoopCounts(g, val, Span(f, val), Span(f, val), s.open);
      WholeValue(val, Span(f, val));
    }
  }

  lemma MoveCounts(f: Fields, s: Scan, src: string, mode: Mode, env: map<string, string>, status: int)
    requires src != [] && f.buf != [] && OpenInBoth(f, s)
    ensures Counts(f, s, MovedInPlace(f, src, mode, env, status), Moved(s, src, mode, env, status))
  {
    hide AppendSegment, MoveOf, Itoa, IsExpansionStart, ExpansionLen, SplitValue;
    if MoveOf(src, mode).action.Expand? {
      var name := src[1..ExpansionLen(src, 0)];
      if name in env { SplitCounts(f, s, env[name]); }
    }
  }

  /**
   * What is recorded is wrong for good: fewer fields than are finished, or one with a byte that
   * it should not have, below what is still written.
   */
  ghost predicate Wrong(f: Fields, fields: seq<string>) {
    && f.buf != []
    && (|f.refs| < |fields| || exists n: nat, w: nat :: n < |f.refs| && n < |fields| && WrongAt(f, fields[n], n, w))
  }

  predicate WrongAt(f: Fields, field: string, n: nat, w: nat)
    requires f.buf != [] && n < |f.refs|
  {
    f.refs[n] <= w <= f.refs[n] + |field| && w < Frozen(f) && f.buf[w] != (field + [NUL])[w - f.refs[n]]
  }

  lemma StaysWrong(f: Fields, base: seq<string>, s: Scan, g: Fields, t: Scan)
    requires Wrong(f, base + s.done) && Extends(f, g) && Counts(f, s, g, t)
    ensures Wrong(g, base + t.done)
  {
    if |f.refs| >= |base + s.done| {
      var n: nat, w: nat :| n < |f.refs| && n < |base + s.done| && WrongAt(f, (base + s.done)[n], n, w);
      assert (base + t.done)[n] == (base + s.done)[n];
      assert g.buf[w] == g.buf[..Frozen(f)][w] && f.buf[w] == f.buf[..Frozen(f)][w];
      assert WrongAt(g, (base + t.done)[n], n, w);
    }
  }

  lemma {:induction false} ScanStaysWrong(src: string, mode: Mode, f: Fields, base: seq<string>, s: Scan,
                                          env: map<string, string>, status: int)
    requires Wrong(f, base + s.done) && OpenInBoth(f, s)
    ensures f.buf != []
    ensures var g, t := ScanInPlace(src, mode, f, env, status), ScanFrom(src, mode, s, env, status);
      Wrong(g, base + t.done) && OpenInBoth(g, t)
    decreases |src|
  {
    hide ScanFrom, MoveOf, Moved, MovedInPlace, Extends;
    if src == [] {
      NoMove(mode, s, env, status);
    } else {
      ScanMoves(src, mode, s, env, status);
      var m := MoveOf(src, mode);
      var g, t := MovedInPlace(f, src, mode, env, status), Moved(s, src, mode, env, status);
      MoveExtends(f, src, mode, env, status);
      MoveCounts(f, s, src, mode, env, status);
      StaysWrong(f, base, s, g, t);
      ScanStaysWrong(src[m.n..], m.mode, g, base, t, env, status);
    }
  }

  /** A value that is split where it cannot be leaves what is recorded wrong for good. */
  lemma BadSplit(f: Fields, base: seq<string>, s: Scan, val: string)
    requires Matches(f, base, s) && IsCString(val) && !Splits(s, val)
    ensures f.buf != [] && Wrong(AppendSegment(f, val), base + SplitValue(s, val).done)
  {
    hide SplitOn, AppendSegment, RefsHold, HasIfs;
    var o := s.open.value;
    RefsCount(f, base + s.done, s.open);
    SplitsUnless(s, val);
    var g, t := AppendSegment(f, val), SplitValue(s, val);
    assert base + t.done == (base + s.done) + SplitOn(s.open, val).done;
    var k := FirstIfs(val);
    if f.len + k == 0 {
      EmptyIsNotRecorded(f, o, val);
    } else {
      OpenIsCString(f, base + s.done, o);
      WrongField(f, base + s.done, o, val);
      FirstDone(o, val);
      var n := |f.refs|;
      assert (base + t.done)[n] == o + val[..k];
    }
  }

  lemma SplitsUnless(s: Scan, val: string)
    requires !Splits(s, val)
    ensures HasIfs(val) && val != [] && s.open.Some?
    ensures (s.exact ==> s.open.value == [] && IsIfs(val[0]) && FirstIfs(val) == 0)
  {
  }

  lemma RefsCount(f: Fields, fields: seq<string>, open: Option<string>)
    requires Represents(f, fields, open)
    ensures f.buf != [] && |f.refs| == |fields|
  {
  }

  lemma WrongField(f: Fields, fields: seq<string>, open: string, val: string)
    requires Represents(f, fields, Some(open)) && IsCString(open) && IsCString(val) && HasIfs(val)
    requires f.len != |open| && 0 < f.len + FirstIfs(val)
    ensures f.buf != []
    ensures var g, n := AppendSegment(f, val), |f.refs|;
      g.buf != [] && n < |g.refs| && exists w: nat :: WrongAt(g, open + val[..FirstIfs(val)], n, w)
  {
    hide RefsHold, SegmentLoop, HasIfs;
    var w := WrongByte(f, fields, open, val);
    AppendedToOpen(f, fields, open, val);
    FirstDelimited(AppendField(f, val), val, Span(f, val));
    assert WrongAt(AppendSegment(f, val), open + val[..FirstIfs(val)], |f.refs|, w);
  }

  /** From the first bad step on, what is recorded is wrong. */
  lemma {:induction false} ScanGoesWrong(src: string, mode: Mode, f: Fields, base: seq<string>, s: Scan,
                                         env: map<string, string>, status: int)
    requires Matches(f, base, s) && EnvOk(env) && IsCString(src) && s.good && !ScanFrom(src, mode, s, env, status).good
    ensures f.buf != []
    ensures var g, t := ScanInPlace(src, mode, f, env, status), ScanFrom(src, mode, s, env, status);
      Wrong(g, base + t.done) && OpenInBoth(g, t)
    decreases |src|
  {
    hide ScanFrom, MoveOf, Matches, Moved, MovedInPlace, IsCString, EnvOk, Wrong;
    MatchedArena(f, base, s);
    if src == [] {
      NoMove(mode, s, env, status);
    } else {
      ScanMoves(src, mode, s, env, status);
      var m := MoveOf(src, mode);
      var g, t := MovedInPlace(f, src, mode, env, status), Moved(s, src, mode, env, status);
      RestIsText(src, m.n);
      if t.good {
        MoveMatches(f, base, s, src, mode, env, status);
        ScanGoesWrong(src[m.n..], m.mode, g, base, t, env, status);
      } else {
        MoveGoesWrong(f, base, s, src, mode, env, status);
        MoveCounts(f, s, src, mode, env, status);
        ScanStaysWrong(src[m.n..], m.mode, g, base, t, env, status);
      }
    }
  }

  lemma MoveGoesWrong(f: Fields, base: seq<string>, s: Scan, src: string, mode: Mode, env: map<string, string>,
                      status: int)
    requires src != [] && Matches(f, base, s) && EnvOk(env) && s.good && !Moved(s, src, mode, env, status).good
    ensures f.buf != [] && Wrong(MovedInPlace(f, src, mode, env, status), base + Moved(s, src, mode, env, status).done)
  {
    hide MoveOf, Matches, AppendSegment, SplitOn, Splits, Wrong, IsExpansionStart, ExpansionLen, Itoa, IsCString;
    MatchedArena(f, base, s);
    var name := src[1..ExpansionLen(src, 0)];
    BadSplit(f, base, s, env[name]);
  }

  /** With the open field recorded it is still wrong. */
  lemma EndsWrong(f: Fields, base: seq<string>, s: Scan)
    requires Wrong(f, base + s.done) && OpenInBoth(f, s)
    ensures Wrong(EndField(f), base + FieldsOf(s))
  {
    var g, fields := EndField(f), base + FieldsOf(s);
    if |f.refs| >= |base + s.done| {
      var n: nat, w: nat :| n < |f.refs| && n < |base + s.done| && WrongAt(f, (base + s.done)[n], n, w);
      assert fields[n] == (base + s.done)[n] && g.refs[n] == f.refs[n];
      assert WrongAt(g, fields[n], n, w);
    }
  }

  /** What is wrong is not what it should be. */
  lemma WrongIsNotRight(f: Fields, fields: seq<string>)
    requires Wrong(f, fields)
    ensures !Represents(f, fields, None)
  {
    if |f.refs| >= |fields| {
      var n: nat, w: nat :| n < |f.refs| && n < |fields| && WrongAt(f, fields[n], n, w);
      WrongByteIsNoString(f.buf, f.refs[n], fields[n], w);
    }
  }

  lemma EndIsClosed(f: Fields)
    ensures !EndField(f).has
  {
  }

  /** A word after which the arena is wrong. */
  lemma WordGoesWrong(f: Fields, word: string, base: seq<string>, env: map<string, string>, status: int)
    requires Represents(f, base, None) && IsCString(word) && EnvOk(env) && !IsGood(word, env, status)
    ensures f.buf != [] && Wrong(WordInPlace(f, word, env, status), base + WordFields(word, env, status))
  {
    hide Represents, Matches, Wrong, ScanFrom, ScanInPlace, IsCString, EnvOk, EndField, FieldsOf;
    StartsMatching(f, base);
    ScanGoesWrong(word, Unquoted, f, base, NO_FIELDS, env, status);
    EndsWrong(ScanInPlace(word, Unquoted, f, env, status), base, ScanFrom(word, Unquoted, NO_FIELDS, env, status));
  }

  /** No word behind it puts it right. */
  lemma WordStaysWrong(f: Fields, word: string, base: seq<string>, env: map<string, string>, status: int)
    requires Wrong(f, base) && !f.has
    ensures f.buf != [] && Wrong(WordInPlace(f, word, env, status), base + WordFields(word, env, status))
  {
    hide Wrong, ScanFrom, ScanInPlace, EndField, FieldsOf;
    assert base + [] == base;
    assert f.buf != [] by { WrongArena(f, base); }
    ScanStaysWrong(word, Unquoted, f, base, NO_FIELDS, env, status);
    EndsWrong(ScanInPlace(word, Unquoted, f, env, status), base, ScanFrom(word, Unquoted, NO_FIELDS, env, status));
  }

  lemma WrongArena(f: Fields, base: seq<string>)
    requires Wrong(f, base)
    ensures f.buf != []
  {
  }

  lemma EndsRight(f: Fields, base: seq<string>, s: Scan)
    requires Matches(f, base, s)
    ensures Represents(EndField(f), base + FieldsOf(s), None)
  {
    hide RefsHold;
    if f.has {
      OneMoreRef(f.buf, f.refs, base + s.done, f.pos, f.pos, s.open.value, |f.buf|);
      assert base + FieldsOf(s) == (base + s.done) + [s.open.value];
    } else {
      assert base + FieldsOf(s) == base + s.done;
    }
  }

  lemma StartsMatching(f: Fields, base: seq<string>)
    requires Represents(f, base, None)
    ensures f.buf != [] && Matches(f, base, NO_FIELDS)
  {
    assert base + [] == base;
  }

  /**
   * The scan of a word leaves exactly the word's fields in the arena, behind those that were
   * there, if and only if no value is split behind an open field whose recorded length is wrong,
   * or that is empty where the value starts with a separator.
   */
  lemma WordIsRightIff(f: Fields, word: string, base: seq<string>, env: map<string, string>, status: int)
    requires Represents(f, base, None) && IsCString(word) && EnvOk(env)
    ensures f.buf != []
    ensures Represents(WordInPlace(f, word, env, status), base + WordFields(word, env, status), None)
            <==> IsGood(word, env, status)
  {
    hide Represents, Matches, Wrong, ScanFrom, ScanInPlace, IsCString, EnvOk, EndField, FieldsOf;
    StartsMatching(f, base);
    if IsGood(word, env, status) {
      ScanMatches(word, Unquoted, f, base, NO_FIELDS, env, status);
      EndsRight(ScanInPlace(word, Unquoted, f, env, status), base, ScanFrom(word, Unquoted, NO_FIELDS, env, status));
    } else {
      WordGoesWrong(f, word, base, env, status);
      WrongIsNotRight(WordInPlace(f, word, env, status), base + WordFields(word, env, status));
    }
  }

  lemma TwoParameters()
    ensures var w := "$A$B";
      && MoveOf(w, Unquoted) == Move(2, Unquoted, Expand) && ExpansionLen(w, 0) == 2 && w[1..2] == "A" && w[2..] == "$B"
      && MoveOf("$B", Unquoted) == Move(2, Unquoted, Expand) && ExpansionLen("$B", 0) == 2 && "$B"[1..2] == "B"
      && "$B"[2..] == ""
  {
    assert NameEnd("$A$B", 2) == 2 && NameEnd("$B", 2) == 2;
  }

  /** `$A$B` with `A` set to ` x` and `B` to `z w` is such a word. */
  lemma TwoValuesGoWrong(f: Fields, base: seq<string>, status: int)
    requires Represents(f, base, None)
    ensures var env := map["A" := " x", "B" := "z w"];
      && f.buf != [] && WordFields("$A$B", env, status) == ["xz", "w"]
      && !Represents(WordInPlace(f, "$A$B", env, status), base + ["xz", "w"], None)
  {
    hide MoveOf, ExpansionLen, IsExpansionStart, ScanFrom, WordInPlace, Represents;
    var env := map["A" := " x", "B" := "z w"];
    TwoParameters();
    BlankThenRun();
    WantedFields();
    ScanMoves("$A$B", Unquoted, NO_FIELDS, env, status);
    var s := Moved(NO_FIELDS, "$A$B", Unquoted, env, status);
    ScanMoves("$B", Unquoted, s, env, status);
    var t := Moved(s, "$B", Unquoted, env, status);
    NoMove(Unquoted, t, env, status);
    WordIsRightIff(f, "$A$B", base, env, status);
  }

  lemma BlankThenRun()
    ensures SplitValue(NO_FIELDS, " x") == Scan([], Some("x"), false, true)
    ensures SplitValue(Scan([], Some("x"), false, true), "z w") == Scan(["xz"], Some("w"), false, false)
  {
    assert " x"[1..] == "x" && "x"[1..] == "" && Text(None) + ['x'] == "x";
    assert SplitOn(Some("x"), "") == Split([], Some("x"));
    assert IsIfs(" x"[0]) && IsIfs("z w"[1]);
    WantedFields();
  }
}
