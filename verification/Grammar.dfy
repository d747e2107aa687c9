// The terminals and nonterminals of the shell grammar and its productions.

module Grammar {

  /** A grammar symbol is the integer that the parse tables are indexed with. */
  type Symbol = int

  const SYM_EOF: Symbol := 0
  const SYM_WORD: Symbol := 3
  const SYM_NEWLINE: Symbol := 4
  const SYM_PIPE: Symbol := 5
  const SYM_LESS: Symbol := 6
  const SYM_GREAT: Symbol := 7
  const SYM_DLESS: Symbol := 8
  const SYM_DGREAT: Symbol := 9
  const SYM_AND_IF: Symbol := 10
  const SYM_OR_IF: Symbol := 11
  const SYM_OPAR: Symbol := 12
  const SYM_CPAR: Symbol := 13
  const SYM_ACCEPT: Symbol := 14
  const SYM_PROGRAM: Symbol := 15
  const SYM_COMPLETE_COMMANDS: Symbol := 16
  const SYM_AND_OR: Symbol := 17
  const SYM_PIPELINE: Symbol := 18
  const SYM_COMMAND: Symbol := 19
  const SYM_SUBSHELL: Symbol := 20
  const SYM_COMPOUND_LIST: Symbol := 21
  const SYM_TERM: Symbol := 22
  const SYM_SIMPLE_COMMAND: Symbol := 23
  const SYM_CMD_NAME: Symbol := 24
  const SYM_CMD_WORD: Symbol := 25
  const SYM_CMD_PREFIX: Symbol := 26
  const SYM_CMD_SUFFIX: Symbol := 27
  const SYM_REDIRECT_LIST: Symbol := 28
  const SYM_IO_REDIRECT: Symbol := 29
  const SYM_IO_FILE: Symbol := 30
  const SYM_FILENAME: Symbol := 31
  const SYM_IO_HERE: Symbol := 32
  const SYM_HERE_END: Symbol := 33
  const SYM_NEWLINE_LIST: Symbol := 34
  const SYM_LINEBREAK: Symbol := 35

  predicate IsTerminal(x: Symbol) {
    x == SYM_EOF || SYM_WORD <= x <= SYM_CPAR
  }

  predicate IsNonterminal(x: Symbol) {
    SYM_ACCEPT <= x <= SYM_LINEBREAK
  }

  const RULE_COUNT := 45

  predicate IsRule(r: int) {
    1 <= r <= RULE_COUNT
  }

  // Rule 1 is the implicit `$accept: program $end`; rules 2 to 45 are the grammar's, in order.

  /** The left-hand side of a production. */
  function Lhs(r: int): Symbol
    requires IsRule(r)
  {
    if r <= 1 then SYM_ACCEPT
    else if r <= 3 then SYM_PROGRAM
    else if r <= 5 then SYM_COMPLETE_COMMANDS
    else if r <= 8 then SYM_AND_OR
    else if r <= 10 then SYM_PIPELINE
    else if r <= 13 then SYM_COMMAND
    else if r <= 14 then SYM_SUBSHELL
    else if r <= 16 then SYM_COMPOUND_LIST
    else if r <= 18 then SYM_TERM
    else if r <= 23 then SYM_SIMPLE_COMMAND
    else if r <= 24 then SYM_CMD_NAME
    else if r <= 25 then SYM_CMD_WORD
    else if r <= 27 then SYM_CMD_PREFIX
    else if r <= 31 then SYM_CMD_SUFFIX
    else if r <= 33 then SYM_REDIRECT_LIST
    else if r <= 35 then SYM_IO_REDIRECT
    else if r <= 38 then SYM_IO_FILE
    else if r <= 39 then SYM_FILENAME
    else if r <= 40 then SYM_IO_HERE
    else if r <= 41 then SYM_HERE_END
    else if r <= 43 then SYM_NEWLINE_LIST
    else SYM_LINEBREAK
  }

  /** The number of symbols on the right-hand side. */
  function RhsLen(r: int): nat
    requires IsRule(r)
  {
    match r
    case 45 => 0
    case 7 | 8 | 10 => 4
    case 2 | 4 | 14 | 16 | 17 | 19 => 3
    case 1 | 13 | 15 | 20 | 22 | 27 | 29 | 31 | 33 | 36 | 37 | 38 | 40 | 43 => 2
    case _ => 1
  }

  /** The symbol at position `i` of the right-hand side. */
  function RhsAt(r: int, i: nat): Symbol
    requires IsRule(r) && i < RhsLen(r)
  {
    match r
    case 1 => if i == 0 then SYM_PROGRAM else SYM_EOF
    case 2 => if i == 0 then SYM_LINEBREAK else if i == 1 then SYM_COMPLETE_COMMANDS else SYM_LINEBREAK
    case 3 => SYM_LINEBREAK
    case 4 => if i == 0 then SYM_COMPLETE_COMMANDS else if i == 1 then SYM_NEWLINE_LIST else SYM_AND_OR
    case 5 => SYM_AND_OR
    case 6 => SYM_PIPELINE
    case 7 => if i == 0 then SYM_AND_OR else if i == 1 then SYM_AND_IF else if i == 2 then SYM_LINEBREAK
      else SYM_PIPELINE
    case 8 => if i == 0 then SYM_AND_OR else if i == 1 then SYM_OR_IF else if i == 2 then SYM_LINEBREAK
      else SYM_PIPELINE
    case 9 => SYM_COMMAND
    case 10 => if i == 0 then SYM_PIPELINE else if i == 1 then SYM_PIPE else if i == 2 then SYM_LINEBREAK
      else SYM_COMMAND
    case 11 => SYM_SIMPLE_COMMAND
    case 12 => SYM_SUBSHELL
    case 13 => if i == 0 then SYM_SUBSHELL else SYM_REDIRECT_LIST
    case 14 => if i == 0 then SYM_OPAR else if i == 1 then SYM_COMPOUND_LIST else SYM_CPAR
    case 15 => if i == 0 then SYM_LINEBREAK else SYM_TERM
    case 16 => if i == 0 then SYM_LINEBREAK else if i == 1 then SYM_TERM else SYM_NEWLINE_LIST
    case 17 => if i == 0 then SYM_TERM else if i == 1 then SYM_NEWLINE_LIST else SYM_AND_OR
    case 18 => SYM_AND_OR
    case 19 => if i == 0 then SYM_CMD_PREFIX else if i == 1 then SYM_CMD_WORD else SYM_CMD_SUFFIX
    case 20 => if i == 0 then SYM_CMD_PREFIX else SYM_CMD_WORD
    case 21 => SYM_CMD_PREFIX
    case 22 => if i == 0 then SYM_CMD_NAME else SYM_CMD_SUFFIX
    case 23 => SYM_CMD_NAME
    case 24 => SYM_WORD
    case 25 => SYM_WORD
    case 26 => SYM_IO_REDIRECT
    case 27 => if i == 0 then SYM_CMD_PREFIX else SYM_IO_REDIRECT
    case 28 => SYM_IO_REDIRECT
    case 29 => if i == 0 then SYM_CMD_SUFFIX else SYM_IO_REDIRECT
    case 30 => SYM_WORD
    case 31 => if i == 0 then SYM_CMD_SUFFIX else SYM_WORD
    case 32 => SYM_IO_REDIRECT
    case 33 => if i == 0 then SYM_REDIRECT_LIST else SYM_IO_REDIRECT
    case 34 => SYM_IO_FILE
    case 35 => SYM_IO_HERE
    case 36 => if i == 0 then SYM_LESS else SYM_FILENAME
    case 37 => if i == 0 then SYM_GREAT else SYM_FILENAME
    case 38 => if i == 0 then SYM_DGREAT else SYM_FILENAME
    case 39 => SYM_WORD
    case 40 => if i == 0 then SYM_DLESS else SYM_HERE_END
    case 41 => SYM_WORD
    case 42 => SYM_NEWLINE
    case 43 => if i == 0 then SYM_NEWLINE_LIST else SYM_NEWLINE
    case _ => SYM_NEWLINE_LIST
  }
}
