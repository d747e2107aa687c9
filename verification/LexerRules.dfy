// The tokenizer on its record: the ten rules and the loops in them. One call does on the record
// and the arenas what `LexStep` says.

module LexerRules {
  import opened CStrings
  import opened Context
  import opened ShellText
  import opened Lexer
  import opened WordUnits

  class LexerState {
    var pos: nat
    var len: nat
    var idx: nat
    var kind: TokenType
    var quotes: bool
    var expansion: bool
    var building: bool
    var atEoi: bool
    var interrupted: bool

    constructor ()
      ensures Value() == ZEROED
    {
      pos, len, idx, kind := 0, 0, 0, NoToken;
      quotes, expansion, building, atEoi, interrupted := false, false, false, false, false;
    }

    function Value(): LexState
      reads this
    {
      LexState(pos, len, idx, kind, quotes, expansion, building, atEoi, interrupted)
    }

    method Zero()
      modifies this
      ensures Value() == ZEROED
    {
      pos, len, idx, kind := 0, 0, 0, NoToken;
      quotes, expansion, building, atEoi, interrupted := false, false, false, false, false;
    }

    method StartLexToken(kind: TokenType)
      modifies this
      ensures Value() == Start(old(Value()), kind)
    {
      pos, len, this.kind := idx, 1, kind;
      quotes, expansion, building, atEoi, interrupted := false, false, true, false, false;
    }
  }

  /** The state and the arenas after a call that did `step`. */
  ghost predicate Did(step: Step, after: LexState, delimited: bool,
                      tokens: seq<TokenRecord>, strings: seq<string>, tokens': seq<TokenRecord>, strings': seq<string>)
  {
    && after == step.state && delimited == step.Delimited?
    && (delimited ==>
          && tokens' == tokens + [TokenRecord(|strings|, step.lexeme.kind, step.lexeme.flags)]
          && strings' == strings + [step.lexeme.text])
    && (!delimited ==> tokens' == tokens && strings' == strings)
  }

  /** Moves the token being built into the arenas, with a string of its own. */
  method DelimitLexToken(c: Ctx, lex: LexerState)
    requires c.readLine.Some? && lex.pos + lex.len <= |c.readLine.value|
    modifies lex`kind, lex`building, c`tokens, c`strings
    ensures Did(Delimit(c.readLine.value, old(lex.Value())), lex.Value(), true,
                old(c.tokens), old(c.strings), c.tokens, c.strings)
  {
    c.tokens := c.tokens + [TokenRecord(|c.strings|, lex.kind, FlagsOf(lex.Value()))];
    lex.kind := NoToken;
    c.strings := c.strings + [c.readLine.value[lex.pos..lex.pos + lex.len]];
    lex.building := false;
  }

  /** Scans for the closing quote; without one the slice is as it was before. */
  method FindMatchedPair(c: Ctx, lex: LexerState, close: char) returns (found: bool)
    requires c.readLine.Some? && lex.idx < |c.readLine.value|
    modifies lex`idx, lex`len, lex`expansion, lex`quotes
    ensures var line := c.readLine.value; var end := QuoteEnd(line, old(lex.idx) + 1, close);
      && found == (end < |line|)
      && lex.expansion == (old(lex.expansion) || (close == '"' && HasExpansion(line, old(lex.idx) + 1, end)))
      && lex.quotes == (found || old(lex.quotes))
      && lex.idx == (if found then end + 1 else old(lex.idx))
      && lex.len == old(lex.len) + (if found then end - old(lex.idx) else 0)
    ensures IsQuote(close) && c.readLine.value[old(lex.idx)] == close ==>
              if found then IsClosedQuote(c.readLine.value, old(lex.idx), lex.idx)
              else IsLoneQuote(c.readLine.value, old(lex.idx))
  {
    hide HasExpansion, IsExpansionStart, IsClosedQuote, IsLoneQuote, IsQuote;
    if IsQuote(close) && c.readLine.value[lex.idx] == close { QuoteIsClosed(c.readLine.value, lex.idx); }
    var line := c.readLine.value;
    NoExpansionYet(line, lex.idx + 1);
    var isDquote := close == '"';
    var savedIdx, savedLen := lex.idx, lex.len;
    lex.idx := lex.idx + 1;
    ghost var end := QuoteEnd(line, lex.idx, close);
    while lex.idx < |line| && line[lex.idx] != close
      invariant old(lex.idx) < lex.idx <= |line| && QuoteEnd(line, lex.idx, close) == end
      invariant lex.len == old(lex.len) + (lex.idx - old(lex.idx) - 1) && lex.quotes == old(lex.quotes)
      invariant lex.expansion == (old(lex.expansion) || (isDquote && HasExpansion(line, old(lex.idx) + 1, lex.idx)))
      decreases |line| - lex.idx
    {
      HasExpansionSnoc(line, old(lex.idx) + 1, lex.idx);
      if isDquote && !lex.expansion && IsExpansionStart(line, lex.idx) {
        lex.expansion := true;
      }
      lex.len := lex.len + 1;
      lex.idx := lex.idx + 1;
    }
    assert lex.idx == end;
    if lex.idx == |line| {
      lex.idx, lex.len := savedIdx, savedLen;
      return false;
    }
    lex.len := lex.len + 1;
    lex.idx := lex.idx + 1;
    lex.quotes := true;
    found := true;
  }

  lemma NoExpansionYet(line: string, i: nat)
    ensures !HasExpansion(line, i, i)
  {
  }

  lemma HasExpansionSnoc(line: string, i: nat, j: nat)
    requires i <= j
    ensures HasExpansion(line, i, j + 1) <==> HasExpansion(line, i, j) || IsExpansionStart(line, j)
  {
  }

  method GetExpansionLen(line: string, at: nat) returns (len: nat)
    requires IsExpansionStart(line, at)
    ensures len == ExpansionLen(line, at) && IsParameter(line, at, at + len)
  {
    ExpansionIsParameter(line, at);
    if line[at + 1] == '?' {
      return 2;
    }
    len := 2;
    while at + len < |line| && IsNameBody(line[at + len])
      invariant at + len <= |line| && NameEnd(line, at + 2) == NameEnd(line, at + len)
      decreases |line| - len
    {
      len := len + 1;
    }
  }

  /** At the end of the line what is being built is delimited. */
  method ApplyRule1(c: Ctx, lex: LexerState) returns (delimited: bool)
    requires c.readLine.Some? && LexOk(c.readLine.value, lex.Value()) && lex.idx == |c.readLine.value|
    modifies lex, c`tokens, c`strings
    ensures Did(LexStep(c.readLine.value, old(lex.Value())), lex.Value(), delimited,
                old(c.tokens), old(c.strings), c.tokens, c.strings)
  {
    lex.atEoi := true;
    if lex.building {
      DelimitLexToken(c, lex);
      return true;
    }
    delimited := false;
  }

  /** The second character of an operator. */
  method ApplyRule2(c: Ctx, lex: LexerState)
    requires c.readLine.Some? && LexOk(c.readLine.value, lex.Value()) && lex.idx < |c.readLine.value|
    requires lex.kind == OperatorToken && IsPair(c.readLine.value, lex.idx - 1)
    modifies lex, c`tokens, c`strings
    ensures Did(LexStep(c.readLine.value, old(lex.Value())), lex.Value(), true,
                old(c.tokens), old(c.strings), c.tokens, c.strings)
  {
    lex.idx := lex.idx + 1;
    lex.len := lex.len + 1;
    DelimitLexToken(c, lex);
  }

  /** A quote, closed or not. */
  method ApplyRule4(c: Ctx, lex: LexerState)
    requires c.readLine.Some? && LexOk(c.readLine.value, lex.Value()) && lex.idx < |c.readLine.value|
    requires IsQuote(c.readLine.value[lex.idx])
    modifies lex
    ensures lex.Value() == QuoteRule(c.readLine.value, old(lex.Value()))
    ensures var line, i := c.readLine.value, old(lex.idx);
      (IsClosedQuote(line, i, lex.idx) && lex.quotes) || (IsLoneQuote(line, i) && lex.idx == i + 1)
  {
    if lex.building {
      lex.len := lex.len + 1;
    } else {
      lex.StartLexToken(WordToken);
    }
    var found := FindMatchedPair(c, lex, c.readLine.value[lex.idx]);
    if !found {
      lex.idx := lex.idx + 1;
    }
  }

  /** A parameter expansion, taken whole. */
  method ApplyRule5(c: Ctx, lex: LexerState)
    requires c.readLine.Some? && LexOk(c.readLine.value, lex.Value()) && IsExpansionStart(c.readLine.value, lex.idx)
    modifies lex
    ensures var s := old(lex.Value());
      lex.Value() == GrowTo(Opened(s), s.idx + ExpansionLen(c.readLine.value, s.idx)).(expansion := true)
  {
    var len := GetExpansionLen(c.readLine.value, lex.idx);
    if !lex.building {
      lex.StartLexToken(WordToken);
      lex.len := lex.len + (len - 1);
    } else {
      lex.len := lex.len + len;
    }
    lex.idx := lex.idx + len;
    lex.expansion := true;
  }

  /** A blank ends the word being built. */
  method ApplyRule7(c: Ctx, lex: LexerState) returns (delimited: bool)
    requires c.readLine.Some? && LexOk(c.readLine.value, lex.Value()) && lex.idx < |c.readLine.value|
    requires IsBlank(c.readLine.value[lex.idx])
    requires lex.kind != OperatorToken
    modifies lex, c`tokens, c`strings
    ensures Did(LexStep(c.readLine.value, old(lex.Value())), lex.Value(), delimited,
                old(c.tokens), old(c.strings), c.tokens, c.strings)
  {
    lex.idx := lex.idx + 1;
    if lex.building {
      DelimitLexToken(c, lex);
      return true;
    }
    delimited := false;
  }

  /** A comment is passed over up to its newline. */
  method ApplyRule9(c: Ctx, lex: LexerState)
    requires c.readLine.Some? && lex.idx <= |c.readLine.value|
    modifies lex`idx
    ensures lex.idx == CommentEnd(c.readLine.value, old(lex.idx))
  {
    var line := c.readLine.value;
    while lex.idx < |line| && line[lex.idx] != '\n'
      invariant lex.idx <= |line| && CommentEnd(line, lex.idx) == CommentEnd(line, old(lex.idx))
      decreases |line| - lex.idx
    {
      lex.idx := lex.idx + 1;
    }
  }

  /**
   * One call of the tokenizer: the first rule that applies. A word takes one unit, and is delimited
   * only where a blank, an operator or the end follows.
   */
  method LexToken(c: Ctx, lex: LexerState) returns (delimited: bool)
    requires c.readLine.Some? && LexOk(c.readLine.value, lex.Value())
    modifies lex, c`tokens, c`strings
    ensures Did(LexStep(c.readLine.value, old(lex.Value())), lex.Value(), delimited,
                old(c.tokens), old(c.strings), c.tokens, c.strings)
    ensures var line, i := c.readLine.value, old(lex.idx);
      && (delimited && old(lex.kind) == WordToken ==> EndsWord(line, i))
      && (!delimited && lex.kind == WordToken && i < |line| ==> IsUnit(line, i, lex.idx))
  {
    hide QuoteRule, ExpansionLen, CommentEnd, IsExpansionStart, IsUnit, EndsWord;
    var line := c.readLine.value;
    StepIsLexed(line, lex.Value());
    delimited := false;
    if lex.idx == |line| {
      delimited := ApplyRule1(c, lex);
    } else if lex.kind == OperatorToken {
      if IsPair(line, lex.idx - 1) {
        ApplyRule2(c, lex);
      } else {
        DelimitLexToken(c, lex);
      }
      delimited := true;
    } else if IsQuote(line[lex.idx]) {
      ApplyRule4(c, lex);
    } else if IsExpansionStart(line, lex.idx) {
      ApplyRule5(c, lex);
    } else if StartsOperator(line, lex.idx) {
      if lex.building {
        DelimitLexToken(c, lex);
        return true;
      }
      lex.StartLexToken(OperatorToken);
      lex.idx := lex.idx + 1;
    } else if IsBlank(line[lex.idx]) {
      delimited := ApplyRule7(c, lex);
    } else if lex.kind == WordToken {
      lex.len := lex.len + 1;
      lex.idx := lex.idx + 1;
    } else if line[lex.idx] == '#' {
      ApplyRule9(c, lex);
    } else {
      lex.StartLexToken(WordToken);
      lex.idx := lex.idx + 1;
    }
  }
}
