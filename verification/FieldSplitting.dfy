// Field splitting: the fields a value is split into, and the in-place algorithm that finds them
// in a shared buffer by overwriting separators while references are recorded.

module FieldSplitting {
  import opened CStrings
  import opened Context

  // ---- The fields of a value -------------------------------------------------------------

  /** Fields that are finished, and the one that what follows is glued to, if one is open. */
  datatype Split = Split(done: seq<string>, open: Option<string>)

  function Text(open: Option<string>): string {
    if open.Some? then open.value else []
  }

  /** Splits a value behind an open field: a separator ends the open field, others extend it. */
  function SplitOn(open: Option<string>, val: string): Split
    decreases |val|
  {
    if val == [] then Split([], open)
    else if IsIfs(val[0]) then
      var rest := SplitOn(None, val[1..]);
      Split((if open.Some? then [open.value] else []) + rest.done, rest.open)
    else SplitOn(Some(Text(open) + [val[0]]), val[1..])
  }

  predicate HasIfs(val: string) {
    exists i :: 0 <= i < |val| && IsIfs(val[i])
  }

  /** All fields, the open one last. */
  function AllFields(s: Split): seq<string> {
    s.done + (if s.open.Some? then [s.open.value] else [])
  }

  /** The value without its separators. */
  function WithoutIfs(val: string): string {
    if val == [] then [] else (if IsIfs(val[0]) then [] else [val[0]]) + WithoutIfs(val[1..])
  }

  /** Splitting drops the separators and nothing else; the open field is not split, only glued to. */
  lemma {:induction false} SplitKeepsText(open: Option<string>, val: string)
    ensures Joined(AllFields(SplitOn(open, val))) == Text(open) + WithoutIfs(val)
    decreases |val|
  {
    hide Joined;
    if val == [] {
      assert AllFields(Split([], open)) == if open.Some? then [open.value] else [];
      assert Text(open) + WithoutIfs(val) == Text(open);
      JoinedOne(open);
    } else if IsIfs(val[0]) {
      SplitKeepsText(None, val[1..]);
      var rest := SplitOn(None, val[1..]);
      if open.Some? {
        assert AllFields(SplitOn(open, val)) == [open.value] + AllFields(rest);
        JoinedFirst(open.value, AllFields(rest));
      } else {
        assert AllFields(SplitOn(open, val)) == AllFields(rest);
      }
    } else {
      var open' := Some(Text(open) + [val[0]]);
      SplitKeepsText(open', val[1..]);
      assert SplitOn(open, val) == SplitOn(open', val[1..]);
      assert Text(open') + WithoutIfs(val[1..]) == Text(open) + WithoutIfs(val);
    }
  }

  lemma JoinedOne(open: Option<string>)
    ensures Joined(if open.Some? then [open.value] else []) == Text(open)
  {
  }

  lemma JoinedFirst(first: string, rest: seq<string>)
    ensures Joined([first] + rest) == first + Joined(rest)
  {
    assert ([first] + rest)[1..] == rest;
  }

  /** The fields of a value are not empty and have no separators; the first takes what was open. */
  lemma {:induction false} SplitFieldsAreRuns(open: Option<string>, val: string)
    ensures var all := AllFields(SplitOn(open, val));
      && (open.Some? ==> all != [] && open.value <= all[0] && !HasIfs(all[0][|open.value|..]))
      && (forall i :: 0 <= i < |all| && (open.None? || i > 0) ==> all[i] != [] && !HasIfs(all[i]))
    decreases |val|
  {
    if val == [] {
    } else if IsIfs(val[0]) {
      SplitFieldsAreRuns(None, val[1..]);
      var rest := AllFields(SplitOn(None, val[1..]));
      if open.Some? {
        assert AllFields(SplitOn(open, val)) == [open.value] + rest;
        assert open.value[|open.value|..] == [];
      } else {
        assert AllFields(SplitOn(open, val)) == rest;
      }
    } else {
      var open' := Some(Text(open) + [val[0]]);
      SplitFieldsAreRuns(open', val[1..]);
      var first := AllFields(SplitOn(open', val[1..]))[0];
      assert first == first[..|open'.value|] + first[|open'.value|..];
      assert first[|Text(open)|..] == [val[0]] + first[|open'.value|..];
    }
  }

  /** What is left open ends where the value ends: exactly if the value does not end in a separator. */
  lemma {:induction false} OpenAtEnd(open: Option<string>, val: string)
    requires val != []
    ensures SplitOn(open, val).open.Some? <==> !IsIfs(val[|val| - 1])
    decreases |val|
  {
    if |val| > 1 {
      OpenAtEnd(if IsIfs(val[0]) then None else Some(Text(open) + [val[0]]), val[1..]);
    } else {
      assert val[1..] == [];
    }
  }

  // ---- The buffer ------------------------------------------------------------------------

  /**
   * The arena of fields: its characters, the bytes behind them, the recorded references, and the
   * field being built. What is behind the arena is whatever was there; behind that are NULs.
   */
  datatype Fields = Fields(buf: seq<char>, tail: seq<char>, refs: seq<nat>, pos: nat, len: nat, has: bool)

  /** The byte at an index, in the arena or behind it. */
  function ByteAt(buf: seq<char>, tail: seq<char>, i: nat): char {
    if i < |buf| then buf[i] else if i - |buf| < |tail| then tail[i - |buf|] else NUL
  }

  /** What is left behind the arena when it grows. */
  function Behind(tail: seq<char>, n: nat): seq<char> {
    if n <= |tail| then tail[n..] else []
  }

  predicate HoldsString(buf: seq<char>, at: nat, s: string) {
    at + |s| < |buf| && buf[at..at + |s|] == s && buf[at + |s|] == NUL && IsCString(s)
  }

  /** Every reference leads to its field, below `limit`. */
  predicate RefsHold(buf: seq<char>, refs: seq<nat>, fields: seq<string>, limit: nat) {
    && |refs| == |fields|
    && forall k :: 0 <= k < |refs| ==> refs[k] + |fields[k]| < limit && HoldsString(buf, refs[k], fields[k])
  }

  /** The buffer holds the recorded fields and, at its end, the open one. */
  predicate Represents(f: Fields, fields: seq<string>, open: Option<string>) {
    && f.has == open.Some? && f.buf != [] && f.buf[|f.buf| - 1] == NUL
    && (open.Some? ==> f.pos + |open.value| + 1 == |f.buf| && HoldsString(f.buf, f.pos, open.value))
    && RefsHold(f.buf, f.refs, fields, if open.Some? then f.pos else |f.buf|)
  }

  /** Copies the text to the end of the buffer as a new string, or extends the last one. */
  function AppendField(f: Fields, text: string): Fields
    requires f.buf != []
  {
    if !f.has then Fields(f.buf + text + [NUL], Behind(f.tail, |text| + 1), f.refs, |f.buf|, |text|, true)
    else f.(buf := f.buf[..|f.buf| - 1] + text + [NUL], tail := Behind(f.tail, |text|), len := f.len + |text|)
  }

  lemma AppendRepresents(f: Fields, fields: seq<string>, open: Option<string>, text: string)
    requires Represents(f, fields, open) && IsCString(text)
    ensures Represents(AppendField(f, text), fields, Some(Text(open) + text))
    ensures open.None? || f.len == |open.value| ==> AppendField(f, text).len == |Text(open)| + |text|
  {
    var g := AppendField(f, text);
    forall k | 0 <= k < |f.refs| ensures HoldsString(g.buf, f.refs[k], fields[k]) {
      assert g.buf[f.refs[k]..f.refs[k] + |fields[k]|] == f.buf[f.refs[k]..f.refs[k] + |fields[k]|];
    }
  }

  /** The first index from `i` on that holds no separator, in the arena or behind it. */
  function IfsEnd(buf: seq<char>, tail: seq<char>, i: nat): (j: nat)
    ensures i <= j
    decreases |buf| + |tail| - i
  {
    if i < |buf| + |tail| && IsIfs(ByteAt(buf, tail, i)) then IfsEnd(buf, tail, i + 1) else i
  }

  /** Overwrites a byte with NUL; behind what is known there is one already. */
  function Erase(f: Fields, i: nat): Fields {
    if i < |f.buf| then f.(buf := f.buf[i := NUL])
    else if i - |f.buf| < |f.tail| then f.(tail := f.tail[i - |f.buf| := NUL])
    else f
  }

  /** Ends the field at the separator `i`, and starts looking for the next behind it. */
  function DelimitSegment(f: Fields, i: nat): (g: Fields)
    ensures i < g.pos && |g.buf| == |f.buf|
  {
    var e := Erase(f, i);
    var end := IfsEnd(e.buf, e.tail, i + 1);
    if f.pos < i then Fields(e.buf, e.tail, f.refs + [f.pos], end, 0, false)
    else Fields(e.buf, e.tail, f.refs, end, f.len, false)
  }

  /** The loop over the value: character `i - span` of it decides what happens at index `i`. */
  function SegmentLoop(f: Fields, val: string, span: nat, i: nat): (g: Fields)
    requires span <= i
    ensures |g.buf| == |f.buf|
    decreases span + |val| - i
  {
    if i >= span + |val| then f
    else if IsIfs(val[i - span]) then
      var g := DelimitSegment(f, i);
      SegmentLoop(g, val, span, g.pos)
    else SegmentLoop(f.(has := true), val, span, i + 1)
  }

  /** Where the loop takes the value to start: right, if the field's length is. */
  function Span(f: Fields, val: string): nat
    requires f.buf != []
  {
    var g := AppendField(f, val);
    g.pos + g.len - |val|
  }

  /** Appends a value to the arena and splits it there. */
  function AppendSegment(f: Fields, val: string): (g: Fields)
    requires f.buf != []
    ensures |f.buf| <= |g.buf|
  {
    if val == [] then f else SegmentLoop(AppendField(f, val), val, Span(f, val), Span(f, val))
  }

  // ---- When the splitting is right -------------------------------------------------------

  /** The index of the value's first separator. */
  function FirstIfs(val: string): (k: nat)
    requires HasIfs(val)
    ensures k < |val| && IsIfs(val[k]) && !HasIfs(val[..k])
  {
    if IsIfs(val[0]) then
      assert val[..0] == [];
      0
    else
      var j :| 0 <= j < |val| && IsIfs(val[j]);
      assert IsIfs(val[1..][j - 1]);
      var k := FirstIfs(val[1..]);
      assert val[..k + 1] == [val[0]] + val[1..][..k];
      k + 1
  }

  /** The state of the loop: what is before `i` is split, what is behind it is the value's rest. */
  predicate LoopOk(f: Fields, fields: seq<string>, open: Option<string>, val: string, span: nat, i: nat) {
    && span <= i <= span + |val| && span + |val| + 1 == |f.buf| && f.buf[|f.buf| - 1] == NUL
    && f.buf[i..] == val[i - span..] + [NUL]
    && (open.None? ==> f.pos == i)
    && (open.Some? ==>
      f.has && open.value != [] && f.pos + |open.value| == i && f.buf[f.pos..i] == open.value && IsCString(open.value))
    && RefsHold(f.buf, f.refs, fields, f.pos)
  }

  predicate AllIfs(s: string) {
    forall k :: 0 <= k < |s| ==> IsIfs(s[k])
  }

  lemma {:induction false} SplitNone(val: string, n: nat)
    requires n <= |val| && AllIfs(val[..n])
    ensures SplitOn(None, val) == SplitOn(None, val[n..])
    decreases n
  {
    if n == 0 {
      assert val[0..] == val;
    } else {
      assert val[0] == val[..n][0] && val[1..][..n - 1] == val[..n][1..];
      SplitNone(val[1..], n - 1);
      assert val[1..][n - 1..] == val[n..];
    }
  }

  lemma {:induction false} IfsEndOfRest(buf: seq<char>, tail: seq<char>, i: nat)
    requires i < |buf| && buf[|buf| - 1] == NUL
    ensures IfsEnd(buf, tail, i) < |buf| && forall k :: i <= k < IfsEnd(buf, tail, i) ==> IsIfs(buf[k])
    decreases |buf| - i
  {
    if i + 1 < |buf| && IsIfs(buf[i]) { IfsEndOfRest(buf, tail, i + 1); }
  }

  /** Behind a separator the rest of the value is found in the buffer, from the next run on. */
  lemma NextRun(buf: seq<char>, tail: seq<char>, val: string, span: nat, i: nat)
    requires span <= i < span + |val| && span + |val| + 1 == |buf| && buf[i..] == val[i - span..] + [NUL]
    ensures var end := IfsEnd(buf[i := NUL], tail, i + 1);
      && i < end <= span + |val| && buf[i := NUL][end..] == val[end - span..] + [NUL]
      && AllIfs(val[i - span + 1..end - span])
  {
    var buf' := buf[i := NUL];
    RestOfBuffer(buf, val, span, i);
    IfsEndOfRest(buf', tail, i + 1);
    var end := IfsEnd(buf', tail, i + 1);
    var run := val[i - span + 1..end - span];
    forall k | 0 <= k < |run| ensures IsIfs(run[k]) {
      assert IsIfs(buf'[i + 1 + k]);
    }
  }

  lemma RestOfBuffer(buf: seq<char>, val: string, span: nat, i: nat)
    requires span <= i < span + |val| && span + |val| + 1 == |buf| && buf[i..] == val[i - span..] + [NUL]
    ensures buf[|buf| - 1] == NUL && forall k :: i <= k < |buf| - 1 ==> buf[k] == val[k - span]
  {
    assert buf[|buf| - 1] == buf[i..][|buf| - 1 - i];
    forall k | i <= k < |buf| - 1 ensures buf[k] == val[k - span] {
      assert buf[k] == buf[i..][k - i];
    }
  }

  lemma RefsStay(buf: seq<char>, buf': seq<char>, refs: seq<nat>, fields: seq<string>, limit: nat)
    requires RefsHold(buf, refs, fields, limit) && limit <= |buf| && limit <= |buf'| && buf[..limit] == buf'[..limit]
    ensures RefsHold(buf', refs, fields, limit)
  {
    forall k | 0 <= k < |refs| ensures HoldsString(buf', refs[k], fields[k]) {
      var a, b := refs[k], refs[k] + |fields[k]|;
      assert buf[a..b] == buf[..limit][a..b] && buf'[a..b] == buf'[..limit][a..b];
      assert buf[b] == buf[..limit][b] && buf'[b] == buf'[..limit][b];
    }
  }

  lemma OneMoreRef(buf: seq<char>, refs: seq<nat>, fields: seq<string>, limit: nat, at: nat, s: string, limit': nat)
    requires RefsHold(buf, refs, fields, limit) && HoldsString(buf, at, s) && at + |s| < limit' && limit <= limit'
    ensures RefsHold(buf, refs + [at], fields + [s], limit')
  {
  }

  /** A separator ends the open field where it stands. */
  lemma DelimitIsRight(f: Fields, fields: seq<string>, open: Option<string>, val: string, span: nat, i: nat)
    requires LoopOk(f, fields, open, val, span, i) && i < span + |val| && IsIfs(val[i - span])
    ensures i < |f.buf|
    ensures var g := DelimitSegment(f, i);
      && i < g.pos <= span + |val| && !g.has && |g.buf| == |f.buf|
      && LoopOk(g, fields + (if open.Some? then [open.value] else []), None, val, span, g.pos)
  {
    hide RefsHold;
    var g := DelimitSegment(f, i);
    NextRun(f.buf, f.tail, val, span, i);
    assert f.buf[..f.pos] == g.buf[..f.pos];
    RefsStay(f.buf, g.buf, f.refs, fields, f.pos);
    if open.Some? {
      assert g.buf[f.pos..i] == f.buf[f.pos..i];
      OneMoreRef(g.buf, f.refs, fields, f.pos, f.pos, open.value, g.pos);
    } else {
      MoreRoom(g.buf, f.refs, fields, f.pos, g.pos);
      assert fields + [] == fields;
    }
  }

  lemma MoreRoom(buf: seq<char>, refs: seq<nat>, fields: seq<string>, limit: nat, limit': nat)
    requires RefsHold(buf, refs, fields, limit) && limit <= limit'
    ensures RefsHold(buf, refs, fields, limit')
  {
  }

  /** What is done, and the open field, after splitting the rest of a value. */
  lemma SplitAtIfs(open: Option<string>, val: string, n: nat, m: nat)
    requires n < m <= |val| && IsIfs(val[n]) && AllIfs(val[n + 1..m])
    ensures SplitOn(open, val[n..]) == Split((if open.Some? then [open.value] else []) + SplitOn(None, val[m..]).done,
      SplitOn(None, val[m..]).open)
  {
    assert val[n..][1..] == val[n + 1..] && val[n..][0] == val[n];
    assert val[n + 1..][..m - n - 1] == val[n + 1..m];
    SplitNone(val[n + 1..], m - n - 1);
    assert val[n + 1..][m - n - 1..] == val[m..];
  }

  lemma SplitAtChar(open: Option<string>, val: string, n: nat)
    requires n < |val| && !IsIfs(val[n])
    ensures SplitOn(open, val[n..]) == SplitOn(Some(Text(open) + [val[n]]), val[n + 1..])
  {
    assert val[n..][1..] == val[n + 1..];
  }

  lemma LoopEnds(f: Fields, fields: seq<string>, open: Option<string>, val: string, span: nat)
    requires LoopOk(f, fields, open, val, span, span + |val|) && (open.None? ==> !f.has)
    ensures Represents(f, fields, open) && SplitOn(open, val[|val|..]) == Split([], open)
  {
    hide RefsHold;
    if open.None? { MoreRoom(f.buf, f.refs, fields, f.pos, |f.buf|); }
  }

  /** The loop records the fields of what is left of the value, and leaves its last one open. */
  lemma {:induction false} LoopIsRight(f: Fields, fields: seq<string>, open: Option<string>, val: string, span: nat,
                                       i: nat)
    requires LoopOk(f, fields, open, val, span, i) && IsCString(val) && span <= i <= span + |val| < |f.buf|
    requires open.None? && i == span + |val| ==> !f.has
    ensures Represents(SegmentLoop(f, val, span, i), fields + SplitOn(open, val[i - span..]).done,
      SplitOn(open, val[i - span..]).open)
    decreases span + |val| - i
  {
    hide RefsHold, HasIfs, LoopOk, Represents, SplitOn, IfsEnd, IsIfs, IsCString;
    var n := i - span;
    if n == |val| {
      LoopEnds(f, fields, open, val, span);
      assert fields + [] == fields;
    } else if IsIfs(val[n]) {
      DelimitIsRight(f, fields, open, val, span, i);
      var g := DelimitSegment(f, i);
      RunBehind(f, fields, open, val, span, i);
      SplitAtIfs(open, val, n, g.pos - span);
      var fields' := fields + (if open.Some? then [open.value] else []);
      LoopIsRight(g, fields', None, val, span, g.pos);
      assert fields' + SplitOn(None, val[g.pos - span..]).done == fields + SplitOn(open, val[n..]).done;
    } else {
      CharIsKept(f, fields, open, val, span, i);
      SplitAtChar(open, val, n);
      LoopIsRight(f.(has := true), fields, Some(Text(open) + [val[n]]), val, span, i + 1);
    }
  }

  lemma RunBehind(f: Fields, fields: seq<string>, open: Option<string>, val: string, span: nat, i: nat)
    requires LoopOk(f, fields, open, val, span, i) && i < span + |val|
    ensures i < DelimitSegment(f, i).pos <= span + |val| && AllIfs(val[i - span + 1..DelimitSegment(f, i).pos - span])
  {
    hide RefsHold;
    NextRun(f.buf, f.tail, val, span, i);
  }

  lemma CharIsKept(f: Fields, fields: seq<string>, open: Option<string>, val: string, span: nat, i: nat)
    requires LoopOk(f, fields, open, val, span, i) && i < span + |val| && !IsIfs(val[i - span]) && IsCString(val)
    ensures LoopOk(f.(has := true), fields, Some(Text(open) + [val[i - span]]), val, span, i + 1)
  {
    hide RefsHold;
    RestOfBuffer(f.buf, val, span, i);
    assert f.buf[f.pos..i + 1] == f.buf[f.pos..i] + [f.buf[i]];
    assert f.buf[i + 1..] == f.buf[i..][1..];
    assert val[i - span..][1..] == val[i - span + 1..];
  }

  lemma {:induction false} SplitWithoutIfs(open: Option<string>, val: string)
    requires !HasIfs(val) && val != []
    ensures SplitOn(open, val) == Split([], Some(Text(open) + val))
    decreases |val|
  {
    assert !IsIfs(val[0]);
    if |val| > 1 {
      forall i | 0 <= i < |val| - 1 ensures !IsIfs(val[1..][i]) {
        assert !IsIfs(val[i + 1]);
      }
      SplitWithoutIfs(Some(Text(open) + [val[0]]), val[1..]);
      assert Text(open) + [val[0]] + val[1..] == Text(open) + val;
    } else {
      assert val == [val[0]] && val[1..] == [];
    }
  }

  lemma {:induction false} LoopWithoutIfs(f: Fields, val: string, span: nat, i: nat)
    requires !HasIfs(val) && span <= i && f.has
    ensures SegmentLoop(f, val, span, i) == f
    decreases span + |val| - i
  {
    if i < span + |val| {
      assert !IsIfs(val[i - span]);
      assert f.(has := true) == f;
      LoopWithoutIfs(f, val, span, i + 1);
    }
  }

  /** An open field with nothing in it is no field to a value that does not start with a separator. */
  lemma SplitOnNothing(val: string)
    requires val != [] && !IsIfs(val[0])
    ensures SplitOn(Some([]), val) == SplitOn(None, val)
  {
  }

  lemma LoopStarts(f: Fields, fields: seq<string>, open: Option<string>, val: string)
    requires Represents(f, fields, open) && IsCString(val) && val != []
    requires open.None? || f.len == |open.value|
    ensures var g := AppendField(f, val); var start := if open == Some([]) then None else open;
      Span(f, val) + |val| + 1 == |g.buf| && g.has && LoopOk(g, fields, start, val, Span(f, val), Span(f, val))
  {
    hide RefsHold;
    var g := AppendField(f, val);
    var span := Span(f, val);
    assert g.buf[span..] == val + [NUL] && val[span - span..] == val;
    assert f.buf[..g.pos] == g.buf[..g.pos] by {
      if f.has { assert f.buf[..f.pos] == f.buf[..|f.buf| - 1][..f.pos]; }
    }
    RefsStay(f.buf, g.buf, f.refs, fields, g.pos);
    if open.Some? {
      assert g.buf[g.pos..span] == f.buf[f.pos..f.pos + |open.value|];
    }
  }

  /**
   * In place, a value is split the way it should be: behind no open field, or behind one whose
   * recorded length is right; but an empty field in front of a separator is lost. A value
   * without separators is always glued.
   */
  lemma SegmentIsRight(f: Fields, fields: seq<string>, open: Option<string>, val: string)
    requires Represents(f, fields, open) && IsCString(val) && val != []
    requires HasIfs(val) ==> open.None? || (f.len == |open.value| && (open.value != [] || !IsIfs(val[0])))
    ensures Represents(AppendSegment(f, val), fields + SplitOn(open, val).done, SplitOn(open, val).open)
  {
    hide HasIfs, Represents, LoopOk, SplitOn, SegmentLoop, IsIfs, IsCString;
    OpenLength(f, fields, open);
    var g := AppendField(f, val);
    if HasIfs(val) {
      LoopStarts(f, fields, open, val);
      LoopIsRight(g, fields, if open == Some([]) then None else open, val, Span(f, val), Span(f, val));
      assert val[0..] == val;
      if open == Some([]) { SplitOnNothing(val); }
    } else {
      AppendRepresents(f, fields, open, val);
      SplitWithoutIfs(open, val);
      AppendedHas(f, val);
      LoopWithoutIfs(g, val, Span(f, val), Span(f, val));
      assert fields + [] == fields;
    }
  }

  lemma AppendedHas(f: Fields, val: string)
    requires f.buf != []
    ensures AppendField(f, val).has
  {
  }

  lemma OpenLength(f: Fields, fields: seq<string>, open: Option<string>)
    requires Represents(f, fields, open)
    ensures f.buf != [] && f.has == open.Some?
  {
  }

  // ---- Exactly when ----------------------------------------------------------------------

  function Min(a: nat, b: nat): nat {
    if a < b then a else b
  }

  /**
   * From `i` on the loop only adds references from `f.pos` on, only writes from `i` on, and the
   * field being built only moves on.
   */
  lemma {:induction false} LoopExtends(f: Fields, val: string, span: nat, i: nat)
    requires span <= i && f.pos <= i
    ensures var g := SegmentLoop(f, val, span, i); var m := Min(i, |f.buf|);
      && f.refs <= g.refs && |g.buf| == |f.buf| && g.buf[..m] == f.buf[..m] && f.pos <= g.pos
      && (forall k :: |f.refs| <= k < |g.refs| ==> f.pos <= g.refs[k])
      && (f.buf != [] && f.buf[|f.buf| - 1] == NUL ==> g.buf[|g.buf| - 1] == NUL)
      && (g.len == f.len || g.len == 0)
    decreases span + |val| - i
  {
    if i < span + |val| {
      var h := if IsIfs(val[i - span]) then DelimitSegment(f, i) else f.(has := true);
      var j := if IsIfs(val[i - span]) then h.pos else i + 1;
      LoopExtends(h, val, span, j);
      var g := SegmentLoop(h, val, span, j);
      var m := Min(i, |f.buf|);
      assert g.buf[..m] == g.buf[..Min(j, |f.buf|)][..m] && h.buf[..m] == f.buf[..m];
      forall k | |f.refs| <= k < |g.refs| ensures f.pos <= g.refs[k] {
        if k < |h.refs| { assert g.refs[k] == h.refs[k]; }
      }
    }
  }

  /** Up to the first separator the loop only marks the field as open. */
  lemma {:induction false} LoopToFirstIfs(f: Fields, val: string, span: nat, i: nat, k: nat)
    requires HasIfs(val) && k == FirstIfs(val) && span <= i <= span + k
    ensures var h := DelimitSegment(if i < span + k then f.(has := true) else f, span + k);
      SegmentLoop(f, val, span, i) == SegmentLoop(h, val, span, h.pos)
    decreases span + k - i
  {
    if i < span + k {
      assert val[..k][i - span] == val[i - span];
      LoopToFirstIfs(f.(has := true), val, span, i + 1, k);
    }
  }

  /** The field that was open is recorded at its place, with what the value adds to it. */
  predicate RecordsOpen(f: Fields, g: Fields, text: string) {
    |f.refs| < |g.refs| && g.refs[|f.refs|] == f.pos && HoldsString(g.buf, f.pos, text)
  }

  /** What the first separator leaves for good. */
  lemma FirstDelimited(g: Fields, val: string, span: nat)
    requires HasIfs(val) && g.pos <= span && g.has
    ensures var i := span + FirstIfs(val); var r := SegmentLoop(g, val, span, span); var m := Min(i, |g.buf|);
      && |r.buf| == |g.buf| && r.buf[..m] == g.buf[..m] && (i < |g.buf| ==> r.buf[i] == NUL) && i < r.pos
      && g.refs <= r.refs && (g.pos < i ==> |g.refs| < |r.refs| && r.refs[|g.refs|] == g.pos)
      && (g.pos == i && |g.refs| < |r.refs| ==> r.refs[|g.refs|] > g.pos)
      && (r.len == g.len || r.len == 0)
  {
    var i := span + FirstIfs(val);
    var h := DelimitSegment(g, i);
    LoopToFirstIfs(g, val, span, span, FirstIfs(val));
    assert g.(has := true) == g;
    LoopExtends(h, val, span, h.pos);
    var r := SegmentLoop(h, val, span, h.pos);
    var m, n := Min(i, |g.buf|), Min(h.pos, |g.buf|);
    assert r.buf[..n] == h.buf[..n];
    if i < |g.buf| { assert r.buf[i] == r.buf[..n][i] && h.buf[i] == NUL; }
    assert r.buf[..m] == r.buf[..n][..m] && h.buf[..m] == h.buf[..n][..m] == g.buf[..m];
  }

  /** Where text and value are once they are appended to an open field. */
  lemma AppendedToOpen(f: Fields, fields: seq<string>, open: string, val: string)
    requires Represents(f, fields, Some(open)) && val != []
    ensures var g := AppendField(f, val);
      && g.has && g.pos == f.pos && g.refs == f.refs && g.len == f.len + |val| && Span(f, val) == f.pos + f.len
      && f.pos + |open| + |val| + 1 == |g.buf| && g.buf[f.pos..f.pos + |open| + |val|] == open + val
  {
    hide RefsHold;
    assert f.buf[..|f.buf| - 1][f.pos..] == open;
  }

  /**
   * Where the open field is cut at the wrong place, there is a byte in it, below what is still
   * written, that the field it should be does not have.
   */
  lemma WrongByte(f: Fields, fields: seq<string>, open: string, val: string) returns (w: nat)
    requires Represents(f, fields, Some(open)) && IsCString(open) && IsCString(val) && HasIfs(val) && f.len != |open|
    ensures var text, r := open + val[..FirstIfs(val)], AppendSegment(f, val);
      && f.pos <= w <= f.pos + |text| && w < |r.buf| - 1 && w < r.pos && r.buf[w] != (text + [NUL])[w - f.pos]
  {
    hide RefsHold, SegmentLoop, HasIfs;
    var k := FirstIfs(val);
    var g := AppendField(f, val);
    AppendedToOpen(f, fields, open, val);
    FirstDelimited(g, val, Span(f, val));
    var r := AppendSegment(f, val);
    var text, i := open + val[..k], f.pos + f.len + k;
    var m := Min(i, |g.buf|);
    if f.len < |open| {
      w := i;
      assert text[w - f.pos] in text;
    } else {
      w := f.pos + |open| + k;
      assert r.buf[w] == r.buf[..m][w] == g.buf[w];
      assert g.buf[w] == g.buf[f.pos..f.pos + |open| + |val|][|open| + k] == val[k];
      IfsIsNoNul(val[k]);
    }
  }

  lemma IfsIsNoNul(c: char)
    requires IsIfs(c)
    ensures c != NUL
  {
  }

  lemma WrongByteIsNoString(buf: seq<char>, at: nat, text: string, w: nat)
    requires at <= w <= at + |text| && w < |buf| && buf[w] != (text + [NUL])[w - at]
    ensures !HoldsString(buf, at, text)
  {
    if at + |text| < |buf| && w < at + |text| {
      assert buf[at..at + |text|][w - at] == buf[w];
    }
  }

  /**
   * A value with a separator ends the open field rightly if and only if the length that is
   * recorded for the field is its length, and the field does not end empty.
   */
  lemma OpenIsRecordedIff(f: Fields, fields: seq<string>, open: string, val: string)
    requires Represents(f, fields, Some(open)) && IsCString(val) && HasIfs(val)
    ensures RecordsOpen(f, AppendSegment(f, val), open + val[..FirstIfs(val)])
            <==> f.len == |open| && open + val[..FirstIfs(val)] != []
  {
    hide RefsHold, SegmentLoop, HasIfs, HoldsString;
    OpenIsCString(f, fields, open);
    var k := FirstIfs(val);
    var text := open + val[..k];
    var r := AppendSegment(f, val);
    if f.len != |open| {
      var w := WrongByte(f, fields, open, val);
      WrongByteIsNoString(r.buf, f.pos, text, w);
    } else {
      var g := AppendField(f, val);
      AppendedToOpen(f, fields, open, val);
      FirstDelimited(g, val, Span(f, val));
      if text != [] { CutRightly(g, r, open, val, k); }
    }
  }

  lemma OpenIsCString(f: Fields, fields: seq<string>, open: string)
    requires Represents(f, fields, Some(open))
    ensures IsCString(open)
  {
  }

  lemma CutRightly(g: Fields, r: Fields, open: string, val: string, k: nat)
    requires IsCString(open) && IsCString(val) && k < |val| && g.pos + |open| + |val| + 1 == |g.buf| == |r.buf|
    requires g.buf[g.pos..g.pos + |open| + |val|] == open + val
    requires var i := g.pos + |open| + k; r.buf[..i] == g.buf[..i] && r.buf[i] == NUL
    ensures HoldsString(r.buf, g.pos, open + val[..k])
  {
    var i := g.pos + |open| + k;
    assert r.buf[g.pos..i] == r.buf[..i][g.pos..] == g.buf[g.pos..i];
    assert g.buf[g.pos..i] == g.buf[g.pos..g.pos + |open| + |val|][..|open| + k] == (open + val)[..|open| + k];
  }

  /** What a value with a separator leaves open is a run without separators. */
  lemma {:induction false} OpenIsRun(open: Option<string>, val: string)
    requires HasIfs(val)
    ensures SplitOn(open, val).open.Some? ==> SplitOn(open, val).open.value != []
    decreases |val|
  {
    if IsIfs(val[0]) {
      OpenOfRest(val[1..]);
    } else {
      var i :| 0 <= i < |val| && IsIfs(val[i]);
      assert IsIfs(val[1..][i - 1]);
      OpenIsRun(Some(Text(open) + [val[0]]), val[1..]);
    }
  }

  lemma {:induction false} OpenOfRest(val: string)
    ensures SplitOn(None, val).open.Some? ==> SplitOn(None, val).open.value != []
  {
    if val != [] {
      SplitFieldsAreRuns(None, val);
      var s := SplitOn(None, val);
      if s.open.Some? { assert AllFields(s)[|s.done|] == s.open.value; }
    }
  }

  /** Once a value was split, the length that is recorded for the field it leaves open is wrong. */
  lemma SplitLeavesWrongLength(f: Fields, fields: seq<string>, open: Option<string>, val: string)
    requires Represents(f, fields, open) && IsCString(val) && HasIfs(val)
    requires open.None? || (f.len == |open.value| && (open.value != [] || !IsIfs(val[0])))
    ensures var g := AppendSegment(f, val);
      && (g.has <==> SplitOn(open, val).open.Some?) && (g.has ==> g.len != |SplitOn(open, val).open.value|)
  {
    hide RefsHold, SegmentLoop, SplitOn, LoopOk;
    SegmentIsRight(f, fields, open, val);
    LoopStarts(f, fields, open, val);
    StartsInside(f, val, open, fields);
    FirstDelimited(AppendField(f, val), val, Span(f, val));
    OpenIsRun(open, val);
  }

  lemma StartsInside(f: Fields, val: string, open: Option<string>, fields: seq<string>)
    requires Represents(f, fields, open) && (open.None? || f.len == |open.value|)
    ensures var g := AppendField(f, val); g.pos <= Span(f, val) && g.len >= |val|
  {
  }

  // ---- How many fields are recorded ------------------------------------------------------

  /** Whatever the open field holds, as many fields are finished. */
  lemma {:induction false} AnyText(a: string, b: string, val: string)
    ensures |SplitOn(Some(a), val).done| == |SplitOn(Some(b), val).done|
    ensures SplitOn(Some(a), val).open.Some? <==> SplitOn(Some(b), val).open.Some?
    decreases |val|
  {
    if val != [] && !IsIfs(val[0]) { AnyText(a + [val[0]], b + [val[0]], val[1..]); }
  }

  lemma OpenCounts(a: string, val: string)
    ensures |SplitOn(None, val).done| <= |SplitOn(Some(a), val).done|
    ensures SplitOn(None, val).open.Some? ==> SplitOn(Some(a), val).open.Some?
  {
    if val != [] && !IsIfs(val[0]) { AnyText(Text(None) + [val[0]], a + [val[0]], val[1..]); }
  }

  /** Leaving out the start of a value loses fields, if it changes anything. */
  lemma {:induction false} CountBehind(val: string, n: nat)
    requires n <= |val|
    ensures |SplitOn(None, val[n..]).done| <= |SplitOn(None, val).done|
    ensures SplitOn(None, val[n..]).open.Some? ==> SplitOn(None, val).open.Some?
    decreases n
  {
    if n == 0 {
      assert val[0..] == val;
    } else {
      CountBehind(val[1..], n - 1);
      assert val[1..][n - 1..] == val[n..];
      if !IsIfs(val[0]) { OpenCounts(Text(None) + [val[0]], val[1..]); }
    }
  }

  /** What is left of the value at an index. */
  function ValueFrom(val: string, span: nat, i: nat): string
    requires span <= i
  {
    if i - span <= |val| then val[i - span..] else []
  }

  lemma DelimitCounts(f: Fields, i: nat)
    ensures var g := DelimitSegment(f, i);
      |g.refs| == |f.refs| + (if f.pos < i then 1 else 0) && !g.has && i < g.pos
  {
  }

  /** A separator finishes the open field; from any place behind it no more fields follow. */
  lemma SeparatorCounts(open: Option<string>, rest: string, n: nat)
    requires rest != [] && IsIfs(rest[0]) && 0 < n
    ensures var behind := SplitOn(None, if n <= |rest| then rest[n..] else []);
      && |behind.done| + (if open.Some? then 1 else 0) <= |SplitOn(open, rest).done|
      && (behind.open.Some? ==> SplitOn(open, rest).open.Some?)
  {
    if n <= |rest| {
      CountBehind(rest[1..], n - 1);
      assert rest[1..][n - 1..] == rest[n..];
    }
  }

  lemma CharacterCounts(open: Option<string>, rest: string)
    requires rest != [] && !IsIfs(rest[0])
    ensures SplitOn(open, rest) == SplitOn(Some(Text(open) + [rest[0]]), rest[1..])
  {
  }

  lemma NothingToSplit(open: Option<string>)
    ensures SplitOn(open, []) == Split([], open)
  {
  }

  lemma ValueBehind(val: string, span: nat, i: nat, j: nat)
    requires span <= i < span + |val| && i < j
    ensures var rest := ValueFrom(val, span, i);
      && rest != [] && rest[0] == val[i - span]
      && ValueFrom(val, span, j) == (if j - i <= |rest| then rest[j - i..] else [])
  {
  }

  /** The loop never records more fields than the value has, wherever it takes the value to be. */
  lemma {:induction false} LoopCounts(f: Fields, val: string, span: nat, i: nat, open: Option<string>)
    requires span <= i && f.pos <= i && (f.pos < i ==> open.Some?) && (f.has && span + |val| <= i ==> open.Some?)
    ensures var r, s := SegmentLoop(f, val, span, i), SplitOn(open, ValueFrom(val, span, i));
      |r.refs| <= |f.refs| + |s.done| && (r.has ==> s.open.Some?)
    decreases span + |val| - i
  {
    hide SplitOn, DelimitSegment, ValueFrom, IsIfs;
    var rest := ValueFrom(val, span, i);
    if i < span + |val| {
      ValueBehind(val, span, i, i + 1);
      if IsIfs(val[i - span]) {
        var g := DelimitSegment(f, i);
        DelimitCounts(f, i);
        LoopCounts(g, val, span, g.pos, None);
        ValueBehind(val, span, i, g.pos);
        SeparatorCounts(open, rest, g.pos - i);
      } else {
        LoopCounts(f.(has := true), val, span, i + 1, Some(Text(open) + [val[i - span]]));
        CharacterCounts(open, rest);
      }
    } else {
      EndOfValue(val, span, i);
      NothingToSplit(open);
    }
  }

  lemma EndOfValue(val: string, span: nat, i: nat)
    requires span + |val| <= i
    ensures ValueFrom(val, span, i) == []
  {
  }

  /** What follows an open field is the first that is finished. */
  lemma {:induction false} FirstDone(open: string, val: string)
    requires HasIfs(val)
    ensures var done := SplitOn(Some(open), val).done; done != [] && done[0] == open + val[..FirstIfs(val)]
    decreases |val|
  {
    if IsIfs(val[0]) {
      assert FirstIfs(val) == 0 && open + [] == open;
    } else {
      var i :| 0 <= i < |val| && IsIfs(val[i]);
      assert IsIfs(val[1..][i - 1]);
      FirstDone(open + [val[0]], val[1..]);
      assert open + [val[0]] + val[1..][..FirstIfs(val[1..])] == open + val[..FirstIfs(val)];
    }
  }

  /** A separator where the open field is taken to start: the field is not recorded. */
  lemma EmptyIsNotRecorded(f: Fields, open: string, val: string)
    requires f.buf != [] && f.has && f.len == 0 && val != [] && IsIfs(val[0])
    ensures |AppendSegment(f, val).refs| < |f.refs| + |SplitOn(Some(open), val).done|
  {
    hide SplitOn, DelimitSegment, ValueFrom, IsIfs;
    var g := AppendField(f, val);
    assert Span(f, val) == f.pos == g.pos;
    var h := DelimitSegment(g, f.pos);
    DelimitCounts(g, f.pos);
    LoopCounts(h, val, f.pos, h.pos, None);
    ValueBehind(val, f.pos, f.pos, h.pos);
    SeparatorCounts(Some(open), ValueFrom(val, f.pos, f.pos), h.pos - f.pos);
    WholeValue(val, f.pos);
  }

  lemma WholeValue(val: string, span: nat)
    ensures ValueFrom(val, span, span) == val
  {
  }

  // ---- Two values next to each other -----------------------------------------------------

  /** The arena before the first field. */
  function NoFields(tail: seq<char>): Fields {
    Fields([NUL], tail, [], 0, 0, false)
  }

  /** The arena after `$A` with `A` set to `x y`. */
  function AfterRuns(tail: seq<char>): Fields {
    Fields([NUL, 'x', NUL, 'y', NUL], Behind(tail, 4), [1], 3, 0, true)
  }

  lemma TwoRuns(tail: seq<char>)
    ensures AppendSegment(NoFields(tail), "x y") == AfterRuns(tail)
    ensures Represents(AfterRuns(tail), ["x"], Some("y"))
  {
    var a, f := "x y", AfterRuns(tail);
    var g := AppendField(NoFields(tail), a);
    assert g == Fields([NUL, 'x', ' ', 'y', NUL], Behind(tail, 4), [], 1, 3, true);
    var d := DelimitSegment(g, 2);
    assert d == Fields([NUL, 'x', NUL, 'y', NUL], Behind(tail, 4), [1], 3, 0, false);
    assert SegmentLoop(f, a, 1, 4) == f;
    assert SegmentLoop(d, a, 1, 3) == f;
    assert SegmentLoop(g, a, 1, 2) == f;
    assert HoldsString(f.buf, 1, "x") && HoldsString(f.buf, 3, "y");
  }

  lemma BehindRuns(tail: seq<char>)
    ensures var g := AppendSegment(AfterRuns(tail), "z w"); g.refs == [1, 3] && !g.has && HoldsString(g.buf, 3, "y")
  {
    var b := "z w";
    var g := AppendField(AfterRuns(tail), b);
    assert g.buf == [NUL, 'x', NUL, 'y', 'z', ' ', 'w', NUL] && g.pos == g.len == 3;
    var d := DelimitSegment(g, 4);
    assert d.buf == [NUL, 'x', NUL, 'y', NUL, ' ', 'w', NUL];
    assert IfsEnd(d.buf, d.tail, 5) == 6;
    assert SegmentLoop(d, b, 3, 6) == d;
    assert SegmentLoop(g, b, 3, 4) == d;
    assert d.buf[3..4] == "y";
  }

  /** The arena after `$A` with `A` set to ` x`: the recorded length is the whole value's. */
  function AfterBlank(tail: seq<char>): Fields {
    Fields([NUL, NUL, 'x', NUL], Behind(tail, 3), [], 2, 2, true)
  }

  lemma BlankAndRun(tail: seq<char>)
    ensures AppendSegment(NoFields(tail), " x") == AfterBlank(tail)
    ensures Represents(AfterBlank(tail), [], Some("x"))
  {
    var a, f := " x", AfterBlank(tail);
    var g := AppendField(NoFields(tail), a);
    assert g == Fields([NUL, ' ', 'x', NUL], Behind(tail, 3), [], 1, 2, true);
    var d := DelimitSegment(g, 1);
    assert d == Fields([NUL, NUL, 'x', NUL], Behind(tail, 3), [], 2, 2, false);
    assert SegmentLoop(f, a, 1, 3) == f;
    assert SegmentLoop(d, a, 1, 2) == f;
    assert SegmentLoop(g, a, 1, 1) == f;
    assert HoldsString(f.buf, 2, "x");
  }

  lemma BehindBlank(tail: seq<char>)
    ensures var g := AppendSegment(AfterBlank(tail), "z w");
      && g.refs == [2] && HoldsString(g.buf, 2, "xz ") && g.has && HoldsString(g.buf, g.pos, "")
  {
    var b := "z w";
    var g := AppendField(AfterBlank(tail), b);
    assert g.buf == [NUL, NUL, 'x', 'z', ' ', 'w', NUL] && g.pos == 2 && g.len == 5;
    var d := DelimitSegment(g, 5);
    assert d.buf == [NUL, NUL, 'x', 'z', ' ', NUL, NUL] && d.pos == 6 && d.refs == [2];
    var last := d.(has := true);
    assert SegmentLoop(last, b, 4, 7) == last;
    assert SegmentLoop(d, b, 4, 6) == last;
    var h := g.(has := true);
    assert h == g && SegmentLoop(g, b, 4, 5) == SegmentLoop(d, b, 4, 6);
    assert d.buf[2..5] == "xz ";
  }

  lemma WantedFields()
    ensures SplitOn(Some("y"), "z w") == Split(["yz"], Some("w"))
    ensures SplitOn(Some("x"), "z w") == Split(["xz"], Some("w"))
  {
    assert "z w"[1..] == " w" && " w"[1..] == "w" && "w"[1..] == "";
    assert SplitOn(Some("w"), "") == Split([], Some("w"));
    assert Text(None) + ['w'] == "w";
    assert SplitOn(None, "w") == Split([], Some("w"));
    assert Text(Some("y")) + ['z'] == "yz" && Text(Some("x")) + ['z'] == "xz";
    assert SplitOn(Some("yz"), " w") == Split(["yz"], Some("w"));
    assert SplitOn(Some("xz"), " w") == Split(["xz"], Some("w"));
  }

  /** `$A$B` with `A` set to `x y` and `B` to `z w`: the text of `B` is lost, and `y` stands alone. */
  lemma SecondSplitLosesText(tail: seq<char>)
    ensures AppendSegment(NoFields(tail), "x y") == AfterRuns(tail) && Represents(AfterRuns(tail), ["x"], Some("y"))
    ensures var g := AppendSegment(AfterRuns(tail), "z w"); g.refs == [1, 3] && !g.has && HoldsString(g.buf, 3, "y")
    ensures SplitOn(Some("y"), "z w") == Split(["yz"], Some("w"))
  {
    TwoRuns(tail);
    BehindRuns(tail);
    WantedFields();
  }

  /** `$A$B` with `A` set to ` x` and `B` to `z w`: the first field keeps a blank, the second is empty. */
  lemma SecondSplitKeepsBlank(tail: seq<char>)
    ensures AppendSegment(NoFields(tail), " x") == AfterBlank(tail) && Represents(AfterBlank(tail), [], Some("x"))
    ensures var g := AppendSegment(AfterBlank(tail), "z w");
      && g.refs == [2] && HoldsString(g.buf, 2, "xz ") && g.has && HoldsString(g.buf, g.pos, "")
    ensures SplitOn(Some("x"), "z w") == Split(["xz"], Some("w"))
  {
    BlankAndRun(tail);
    BehindBlank(tail);
    WantedFields();
  }
}
