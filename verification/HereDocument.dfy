// Reading a here-document: the body loop over the lines of the input, its end, and the
// expansion of its lines.

module HereDocument {
  import opened CStrings
  import opened Grammar
  import opened Derivations
  import opened NodeArena
  import opened Context
  import opened Syntax
  import opened Lexer
  import opened LexerRules
  import opened Substitution

  // ---- Lines -----------------------------------------------------------------------------

  /** What is still to be read: the rest of the current line, and the lines after it. */
  function Rest(readLine: Option<string>, idx: nat, unread: seq<string>): string {
    (if readLine.Some? && idx <= |readLine.value| then readLine.value[idx..] else []) + Joined(unread)
  }

  predicate AreLines(lines: seq<string>) {
    forall i :: 0 <= i < |lines| ==> EndsInNewline(lines[i])
  }

  /** One line with its newline, and no other. */
  predicate IsLine(line: string) {
    EndsInNewline(line) && '\n' !in line[..|line| - 1]
  }

  predicate AreSingle(lines: seq<string>) {
    forall i :: 0 <= i < |lines| ==> IsLine(lines[i])
  }

  /** The text starts with the line that ends the here-document. */
  predicate IsDelimLine(text: string, delim: string) {
    |delim| < |text| && text[..|delim|] == delim && text[|delim|] == '\n'
  }

  /** The next line; on `false` there is none, and the input has ended or was interrupted. */
  method ReadHereLine(c: Ctx, lex: LexerState) returns (ok: bool)
    modifies c`readLine, c`unread, lex
    ensures ok == (old(c.unread) != [])
    ensures ok ==> c.readLine == Some(old(c.unread)[0]) && c.unread == old(c.unread)[1..] && lex.Value() == ZEROED
    ensures !ok ==>
      c.readLine == None && c.unread == []
        && lex.Value() == old(lex.Value()).(atEoi := true, interrupted := old(lex.interrupted) || c.sigint)
  {
    if c.unread == [] {
      c.readLine := None;
      if c.sigint {
        lex.interrupted := true;
      }
      lex.atEoi := true;
      return false;
    }
    c.readLine, c.unread := Some(c.unread[0]), c.unread[1..];
    lex.Zero();
    ok := true;
  }

  // ---- Expansion of a line ---------------------------------------------------------------

  lemma ExpandOne(env: map<string, string>, status: int, text: string)
    requires text != [] && !IsExpansionStart(text, 0)
    ensures ExpandLine(env, status, text) == text[..1] + ExpandLine(env, status, text[1..])
  {
    hide IsExpansionStart;
  }

  /** The first `n` characters, in which no expansion starts, stay. */
  lemma {:induction false} ExpandPlain(env: map<string, string>, status: int, text: string, n: nat)
    requires n <= |text| && forall k: nat :: k < n ==> !IsExpansionStart(text, k)
    ensures ExpandLine(env, status, text) == text[..n] + ExpandLine(env, status, text[n..])
  {
    hide ExpandLine;
    if n == 0 {
      assert text[0..] == text;
    } else {
      forall k: nat | k < n - 1 ensures !IsExpansionStart(text[1..], k) {
        assert !IsExpansionStart(text, k + 1);
      }
      hide IsExpansionStart;
      ExpandOne(env, status, text);
      ExpandPlain(env, status, text[1..], n - 1);
      assert text[1..][n - 1..] == text[n..];
      assert text[..n] == text[..1] + text[1..][..n - 1];
    }
  }

  /** What follows does not matter to a name that ends before it. */
  lemma {:induction false} NameEndOfRest(line: string, i: nat, k: nat)
    requires k <= i <= |line|
    ensures NameEnd(line[k..], i - k) == NameEnd(line, i) - k
    decreases |line| - i
  {
    if i < |line| && IsNameBody(line[i]) { NameEndOfRest(line, i + 1, k); }
  }

  lemma ExpansionOfRest(line: string, i: nat)
    requires IsExpansionStart(line, i)
    ensures IsExpansionStart(line[i..], 0) && ExpansionLen(line[i..], 0) == ExpansionLen(line, i)
  {
    NameEndOfRest(line, i + 2, i);
  }

  method WriteHere(c: Ctx, fd: nat, text: string)
    requires fd < |c.bodies|
    modifies c`bodies
    ensures c.bodies == old(c.bodies)[fd := old(c.bodies)[fd] + text]
  {
    c.bodies := c.bodies[fd := c.bodies[fd] + text];
  }

  /** Writes the value of the parameter at `i`; returns the index behind it. */
  method ExpandHereVar(c: Ctx, fd: nat, line: string, i: nat) returns (j: nat)
    requires fd < |c.bodies| && IsExpansionStart(line, i)
    modifies c`bodies
    ensures j == i + ExpansionLen(line, i) <= |line|
    ensures c.bodies == old(c.bodies)[fd := old(c.bodies)[fd] + ValueOf(c.env, c.returnStatus, line[i + 1..j])]
  {
    var end := GetExpansionLen(line, i);
    j := i + end;
    var name := line[i + 1..j];
    if name == "?" {
      WriteHere(c, fd, Itoa(c.returnStatus));
    } else if name in c.env {
      WriteHere(c, fd, c.env[name]);
    } else {
      assert c.bodies[fd] + [] == c.bodies[fd];
    }
  }

  lemma ExpandAt(env: map<string, string>, status: int, line: string, start: nat, i: nat)
    requires start <= i && IsExpansionStart(line, i) && forall k: nat :: start <= k < i ==> !IsExpansionStart(line, k)
    ensures var j := i + ExpansionLen(line, i);
      ExpandLine(env, status, line[start..])
        == line[start..i] + ValueOf(env, status, line[i + 1..j]) + ExpandLine(env, status, line[j..])
  {
    hide IsExpansionStart, ExpandLine, ExpansionLen, ValueOf;
    var j := i + ExpansionLen(line, i);
    PlainRest(line, start, i);
    ExpandPlain(env, status, line[start..], i - start);
    assert line[start..][i - start..] == line[i..];
    ExpansionOfRest(line, i);
    ExpandVariable(env, status, line[i..]);
    assert line[i..][1..j - i] == line[i + 1..j] && line[i..][j - i..] == line[j..];
    assert line[start..][..i - start] == line[start..i];
  }

  lemma ExpandVariable(env: map<string, string>, status: int, text: string)
    requires IsExpansionStart(text, 0)
    ensures var n := ExpansionLen(text, 0);
      ExpandLine(env, status, text) == ValueOf(env, status, text[1..n]) + ExpandLine(env, status, text[n..])
  {
    hide IsExpansionStart, ExpansionLen, ValueOf;
  }

  lemma PlainRest(line: string, start: nat, i: nat)
    requires start <= i <= |line| && forall k: nat :: start <= k < i ==> !IsExpansionStart(line, k)
    ensures forall k: nat :: k < i - start ==> !IsExpansionStart(line[start..], k)
  {
    forall k: nat | k < i - start ensures !IsExpansionStart(line[start..], k) {
      assert !IsExpansionStart(line, start + k);
    }
  }

  /** Writes a line, alternating stretches of it and values. */
  method ExpandHereLine(c: Ctx, fd: nat, line: string)
    requires fd < |c.bodies| && EndsInNewline(line)
    modifies c`bodies
    ensures c.bodies == old(c.bodies)[fd := old(c.bodies)[fd] + ExpandLine(c.env, c.returnStatus, line)]
  {
    hide ExpandLine, ExpansionLen, ValueOf, IsExpansionStart;
    var len := |line| - 1;
    var i: nat, start: nat := 0, 0;
    ghost var all := ExpandLine(c.env, c.returnStatus, line);
    assert line[0..] == line;
    while i < len
      invariant start <= i <= |line| && |c.bodies| == |old(c.bodies)|
      invariant forall k: nat :: start <= k < i ==> !IsExpansionStart(line, k)
      invariant c.bodies == old(c.bodies)[fd := c.bodies[fd]]
      invariant c.bodies[fd] + ExpandLine(c.env, c.returnStatus, line[start..]) == old(c.bodies)[fd] + all
      decreases |line| - i
    {
      if IsExpansionStart(line, i) {
        ghost var before := c.bodies[fd];
        ExpandAt(c.env, c.returnStatus, line, start, i);
        WriteHere(c, fd, line[start..i]);
        i := ExpandHereVar(c, fd, line, i);
        start := i;
      } else {
        i := i + 1;
      }
    }
    ExpandTail(c.env, c.returnStatus, line, start);
    WriteHere(c, fd, line[start..]);
  }

  lemma ExpandTail(env: map<string, string>, status: int, line: string, start: nat)
    requires start <= |line| && EndsInNewline(line) && forall k: nat ::
      start <= k < |line| - 1 ==> !IsExpansionStart(line, k)
    ensures ExpandLine(env, status, line[start..]) == line[start..]
  {
    assert forall k: nat :: start <= k < |line| ==> !IsExpansionStart(line, k);
    PlainRest(line, start, |line|);
    ExpandPlain(env, status, line[start..], |line| - start);
    assert line[start..][|line| - start..] == [];
    assert line[start..][..|line| - start] == line[start..];
  }

  // ---- The body --------------------------------------------------------------------------

  /** What a line of a here-document writes: its expansion, unless the delimiter was quoted. */
  function Written(env: map<string, string>, status: int, quoted: bool, line: string): string {
    if quoted then line else ExpandLine(env, status, line)
  }

  function BodyText(env: map<string, string>, status: int, quoted: bool, lines: seq<string>): string {
    if lines == [] then []
    else BodyText(env, status, quoted, lines[..|lines| - 1]) + Written(env, status, quoted, lines[|lines| - 1])
  }

  /** Bounds the calls that can still consume input. */
  function LinesLeft(lines: seq<string>): nat {
    if lines == [] then 0 else 2 * |lines[0]| + 2 + LinesLeft(lines[1..])
  }

  function InputLeft(readLine: Option<string>, idx: nat, unread: seq<string>): nat {
    (if readLine.Some? && idx <= |readLine.value| then 1 + 2 * (|readLine.value| - idx) else 0) + LinesLeft(unread)
  }

  /** Writes one line: as it is behind a quoted delimiter, and else with its parameters replaced. */
  method WriteHereLine(c: Ctx, lex: LexerState, fd: nat, quoted: bool) returns (ghost line: string)
    requires c.readLine.Some? && lex.idx < |c.readLine.value| && EndsInNewline(c.readLine.value) && fd < |c.bodies|
    modifies c`bodies, lex`idx
    ensures IsLine(line) && old(lex.idx) < lex.idx <= |c.readLine.value|
    ensures c.readLine.value[old(lex.idx)..] == line + c.readLine.value[lex.idx..]
    ensures c.bodies == old(c.bodies)[fd := old(c.bodies)[fd] + Written(c.env, c.returnStatus, quoted, line)]
    ensures var out := Written(c.env, c.returnStatus, quoted, line);
      if quoted then out == line else Writes(c.env, c.returnStatus, line, out)
    ensures old(lex.idx) == 0 && IsLine(c.readLine.value) ==> line == c.readLine.value && lex.idx == |line|
  {
    hide ExpandLine, Writes;
    var text := c.readLine.value[lex.idx..];
    var len := IndexOf(text, '\n');
    IndexOfIsFirst(text, '\n');
    assert text[|text| - 1] == '\n';
    line := text[..len + 1];
    assert line[..len] == text[..len];
    LineIsWritten(c.env, c.returnStatus, line);
    if quoted {
      WriteHere(c, fd, text[..len + 1]);
    } else {
      ExpandHereLine(c, fd, text[..len + 1]);
    }
    lex.idx := lex.idx + len + 1;
    assert text == line + text[len + 1..];
    if IsLine(text) { OneLineOnly(text, len); }
  }

  lemma OneLineOnly(line: string, len: nat)
    requires IsLine(line) && len < |line| && line[len] == '\n'
    ensures len == |line| - 1 && line[..len + 1] == line
  {
    assert forall k :: 0 <= k < |line| - 1 ==> line[k] == line[..|line| - 1][k];
  }

  /** A single line that is the delimiter's is nothing else. */
  lemma DelimIsLine(line: string, delim: string)
    requires IsLine(line) && IsDelimLine(line, delim)
    ensures line == delim + "\n"
  {
    OneLineOnly(line, |delim|);
    assert line == line[..|delim|] + [line[|delim|]];
  }

  /** The lexer stands between two tokens, on a line that ends in a newline. */
  ghost predicate AtLine(c: Ctx, lex: LexerState)
    reads c`readLine, c`unread, lex
  {
    && c.readLine.Some? && lex.idx <= |c.readLine.value| && EndsInNewline(c.readLine.value) && AreLines(c.unread)
    && !lex.building && lex.kind == NoToken && !lex.interrupted && (lex.atEoi ==> lex.idx == |c.readLine.value|)
  }

  ghost function ToRead(c: Ctx, lex: LexerState): string
    reads c`readLine, c`unread, lex`idx
  {
    Rest(c.readLine, lex.idx, c.unread)
  }

  ghost function Left(c: Ctx, lex: LexerState): nat
    reads c`readLine, c`unread, lex`idx
  {
    InputLeft(c.readLine, lex.idx, c.unread)
  }

  /** At the end of a line the input goes on with the next one, if there is one. */
  lemma NextLine(line: string, unread: seq<string>)
    requires AreLines(unread)
    ensures unread == [] ==> Rest(Some(line), |line|, unread) == [] == Rest(None, 0, []) == Rest(None, |line|, [])
    ensures unread == [] ==> InputLeft(None, |line|, []) < InputLeft(Some(line), |line|, unread)
    ensures unread != [] ==>
              && Rest(Some(line), |line|, unread) == Rest(Some(unread[0]), 0, unread[1..])
              && InputLeft(Some(unread[0]), 0, unread[1..]) < InputLeft(Some(line), |line|, unread)
              && EndsInNewline(unread[0]) && AreLines(unread[1..])
  {
  }

  /** The loop's condition: there is a line, and it is not the delimiter's, which it consumes. */
  method HereLineFollows(c: Ctx, lex: LexerState, delim: string) returns (more: bool, ghost closed: bool)
    requires AtLine(c, lex)
    modifies c`readLine, c`unread, lex
    ensures closed ==> !more && AtLine(c, lex) && !lex.atEoi && old(ToRead(c, lex)) == delim + "\n" + ToRead(c, lex)
    ensures more ==> AtLine(c, lex) && old(ToRead(c, lex)) == ToRead(c, lex) && lex.idx < |c.readLine.value|
    ensures more ==> !IsDelimLine(c.readLine.value[lex.idx..], delim)
    ensures !more && !closed ==> c.readLine == None && c.unread == [] && old(ToRead(c, lex)) == [] == ToRead(c, lex)
    ensures !more && !closed ==> !lex.building && lex.kind == NoToken && lex.atEoi && lex.interrupted == c.sigint
    ensures if more then Left(c, lex) <= old(Left(c, lex)) else Left(c, lex) < old(Left(c, lex))
    ensures old(lex.idx) == |old(c.readLine).value| && AreSingle(old(c.unread)) ==>
              && (more ==> old(c.unread) == [c.readLine.value] + c.unread && lex.idx == 0)
              && (closed ==> old(c.unread) == [delim + "\n"] + c.unread && lex.idx == |c.readLine.value|)
              && (!more && !closed ==> old(c.unread) == [])
  {
    hide IsDelimLine, Rest, InputLeft, AreLines, Joined, IsLine;
    closed := false;
    if lex.idx == |c.readLine.value| {
      NextLine(c.readLine.value, c.unread);
      var ok := ReadHereLine(c, lex);
      if !ok {
        return false, false;
      }
    }
    if IsDelimLine(c.readLine.value[lex.idx..], delim) {
      DelimEnds(c.readLine.value, lex.idx, delim);
      assert c.readLine.value[0..] == c.readLine.value;
      if lex.idx == 0 && IsLine(c.readLine.value) { DelimIsLine(c.readLine.value, delim); }
      LineConsumed(c.readLine.value, lex.idx, lex.idx + |delim| + 1, c.unread, delim + "\n");
      lex.idx := lex.idx + |delim| + 1;
      return false, true;
    }
    more := true;
  }

  /**
   * Reads lines into the body until the delimiter's line or the end of the input. Everything
   * that is consumed is a line of the body or the delimiter's line.
   */
  method ReadBody(c: Ctx, lex: LexerState, delim: string, quoted: bool, fd: nat)
    returns (ghost lines: seq<string>, ghost closed: bool)
    requires AtLine(c, lex) && fd < |c.bodies|
    modifies c`readLine, c`unread, c`bodies, lex
    ensures old(ToRead(c, lex)) == Joined(lines) + (if closed then delim + "\n" else []) + ToRead(c, lex)
    ensures forall i :: 0 <= i < |lines| ==> IsLine(lines[i]) && lines[i] != delim + "\n"
    ensures c.bodies == old(c.bodies)[fd := old(c.bodies)[fd] + BodyText(c.env, c.returnStatus, quoted, lines)]
    ensures closed ==> AtLine(c, lex) && !lex.atEoi
    ensures !closed ==>
      c.readLine == None && c.unread == [] && !lex.building && lex.kind == NoToken && lex.atEoi
        && lex.interrupted == c.sigint
    ensures Left(c, lex) < old(Left(c, lex))
    ensures old(lex.idx) == |old(c.readLine).value| && AreSingle(old(c.unread)) ==>
              && old(c.unread) == lines + (if closed then [delim + "\n"] else []) + c.unread
              && (closed ==> lex.idx == |c.readLine.value|)
  {
    hide Written, Writes, IsLine, Rest, InputLeft, IsDelimLine, EndsInNewline, AreLines, BodyText, Joined, AreSingle,
      BodySoFar;
    ghost var single := lex.idx == |c.readLine.value| && AreSingle(c.unread);
    lines := [];
    ghost var all, text, left := ToRead(c, lex), c.bodies[fd], Left(c, lex);
    NothingWritten(c.env, c.returnStatus, quoted);
    BodyStarts(delim, c.unread, all, single, lex.idx == |c.readLine.value|);
    while true
      invariant AtLine(c, lex) && left >= Left(c, lex)
      invariant c.bodies == old(c.bodies)[fd := text]
      invariant text == old(c.bodies)[fd] + BodyText(c.env, c.returnStatus, quoted, lines)
      invariant BodySoFar(delim, old(c.unread), all, single, lines, c.unread, ToRead(c, lex),
                          lex.idx == |c.readLine.value|)
      decreases Left(c, lex)
    {
      var more;
      ghost var unread, rest, atEnd := c.unread, ToRead(c, lex), lex.idx == |c.readLine.value|;
      SingleSoFar(delim, old(c.unread), all, single, lines, unread, rest, atEnd);
      more, closed := HereLineFollows(c, lex, delim);
      if !more {
        BodyEnds(delim, old(c.unread), all, single, lines, unread, rest, atEnd,
          if closed then delim + "\n" else [], if closed then [delim + "\n"] else [], c.unread, ToRead(c, lex));
        return;
      }
      ghost var idx := lex.idx;
      ghost var line := WriteHereLine(c, lex, fd, quoted);
      LineConsumed(c.readLine.value, idx, lex.idx, c.unread, line);
      if line == delim + "\n" { DelimAtStart(c.readLine.value[lex.idx..], delim); }
      LineAdded(delim, old(c.unread), all, single, lines, unread, rest, atEnd,
        line, c.unread, ToRead(c, lex), lex.idx == |c.readLine.value|);
      LineWritten(c.env, c.returnStatus, quoted, lines, line);
      text := text + Written(c.env, c.returnStatus, quoted, line);
      lines := lines + [line];
    }
  }

  /** What has been read are the lines so far; where the input has one line a string, nothing else. */
  ghost predicate BodySoFar(delim: string, before: seq<string>, all: string, single: bool, lines: seq<string>,
                            unread: seq<string>, rest: string, atEnd: bool) {
    && all == Joined(lines) + rest
    && (forall i :: 0 <= i < |lines| ==> IsLine(lines[i]) && lines[i] != delim + "\n")
    && (single ==> before == lines + unread && atEnd)
  }

  lemma BodyStarts(delim: string, before: seq<string>, all: string, single: bool, atEnd: bool)
    requires single ==> atEnd
    ensures BodySoFar(delim, before, all, single, [], before, all, atEnd)
  {
  }

  lemma SingleSoFar(delim: string, before: seq<string>, all: string, single: bool, lines: seq<string>,
                    unread: seq<string>, rest: string, atEnd: bool)
    requires BodySoFar(delim, before, all, single, lines, unread, rest, atEnd)
    ensures single ==> atEnd && (AreSingle(before) ==> AreSingle(unread) && (unread != [] ==> IsLine(unread[0])))
  {
    hide IsLine, AreSingle;
    if single && AreSingle(before) { RestIsSingle(before, lines, unread); }
  }

  lemma LineAdded(delim: string, before: seq<string>, all: string, single: bool, lines: seq<string>,
                  unread: seq<string>, rest: string, atEnd: bool,
                  line: string, unread': seq<string>, rest': string, atEnd': bool)
    requires BodySoFar(delim, before, all, single, lines, unread, rest, atEnd)
    requires rest == line + rest' && IsLine(line) && line != delim + "\n"
    requires single ==> unread == [line] + unread' && atEnd'
    ensures BodySoFar(delim, before, all, single, lines + [line], unread', rest', atEnd')
  {
    hide IsLine, Joined;
    JoinedSnoc(lines, line);
    if single { BodyLinesRead(before, lines, unread, [line], unread'); }
  }

  lemma BodyEnds(delim: string, before: seq<string>, all: string, single: bool, lines: seq<string>,
                 unread: seq<string>, rest: string, atEnd: bool,
                 end: string, ends: seq<string>, unread': seq<string>, rest': string)
    requires BodySoFar(delim, before, all, single, lines, unread, rest, atEnd)
    requires rest == end + rest' && (single ==> unread == ends + unread')
    ensures all == Joined(lines) + end + rest'
    ensures forall i :: 0 <= i < |lines| ==> IsLine(lines[i]) && lines[i] != delim + "\n"
    ensures single ==> before == lines + ends + unread'
  {
    hide IsLine, Joined;
    if single { BodyLinesRead(before, lines, unread, ends, unread'); }
  }

  lemma BodyLinesRead(all: seq<string>, lines: seq<string>, unread: seq<string>, read: seq<string>, rest: seq<string>)
    requires all == lines + unread && unread == read + rest
    ensures all == lines + read + rest
  {
  }

  lemma RestIsSingle(all: seq<string>, lines: seq<string>, unread: seq<string>)
    requires all == lines + unread && AreSingle(all)
    ensures AreSingle(unread)
    ensures unread != [] ==> IsLine(unread[0])
  {
    forall i | 0 <= i < |unread| ensures IsLine(unread[i]) {
      assert all[|lines| + i] == unread[i];
    }
  }

  lemma NothingWritten(env: map<string, string>, status: int, quoted: bool)
    ensures BodyText(env, status, quoted, []) == [] && Joined([]) == []
  {
  }

  lemma LineWritten(env: map<string, string>, status: int, quoted: bool, lines: seq<string>, line: string)
    ensures BodyText(env, status, quoted, lines + [line])
      == BodyText(env, status, quoted, lines) + Written(env, status, quoted, line)
  {
    hide Written;
    assert (lines + [line])[..|lines|] == lines;
  }

  lemma LineConsumed(text: string, i: nat, j: nat, unread: seq<string>, line: string)
    requires i < j <= |text| && text[i..] == line + text[j..]
    ensures Rest(Some(text), i, unread) == line + Rest(Some(text), j, unread)
    ensures InputLeft(Some(text), j, unread) < InputLeft(Some(text), i, unread)
  {
  }

  lemma DelimEnds(line: string, i: nat, delim: string)
    requires i <= |line| && IsDelimLine(line[i..], delim)
    ensures i + |delim| + 1 <= |line| && line[i..] == delim + "\n" + line[i + |delim| + 1..]
  {
    assert line[i..] == line[i..][..|delim|] + [line[i..][|delim|]] + line[i..][|delim| + 1..];
  }

  lemma DelimAtStart(rest: string, delim: string)
    ensures IsDelimLine(delim + "\n" + rest, delim)
  {
    var text := delim + "\n" + rest;
    assert text[..|delim|] == delim && text[|delim|] == '\n';
  }
}
