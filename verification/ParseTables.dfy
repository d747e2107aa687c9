// The packed tables that drive the parser, and the rule records of the dispatcher.

module ParseTables {
  import opened Grammar

  const YYPACT_NINF := -44
  const YYFINAL := 5
  const YYLAST := 67
  const NTERM_OFFSET := 14
  const STATE_COUNT := 61

  predicate IsState(s: int) {
    0 <= s < STATE_COUNT
  }

  /** Selects entry `k` of one source row of ten; a short last row is padded with zeros. */
  function Row(k: int, a: int, b: int, c: int, d: int, e: int, f: int, g: int, h: int, i: int, j: int): int {
    if k < 5 then
      if k < 2 then (if k == 0 then a else b) else if k == 2 then c else if k == 3 then d else e
    else
      if k < 7 then (if k == 5 then f else g) else if k == 7 then h else if k == 8 then i else j
  }

  /** Displacement of a state's action row. */
  function YyPact(i: int): int
    requires 0 <= i < 61
  {
    if i < 10 then Row(i, 8, -44, 18, 21, 33, -44, -44, -44, 14, 14)
    else if i < 20 then Row(i - 10, 30, 14, 8, 8, 17, 16, -44, 58, -44, 40)
    else if i < 30 then Row(i - 20, 47, -44, -44, -44, -44, -44, -44, -44, -44, -44)
    else if i < 40 then Row(i - 30, 24, 33, 7, -44, 8, 8, 8, 58, -44, -44)
    else if i < 50 then Row(i - 40, 54, -44, -44, 40, -44, -44, 17, 8, 17, 33)
    else if i < 60 then Row(i - 50, 33, 33, -44, -44, -44, 54, 7, 16, 16, -44)
    else Row(i - 60, 17, 0, 0, 0, 0, 0, 0, 0, 0, 0)
  }

  /** Default reduction of a state; zero is an error. */
  function YyDefact(i: int): int
    requires 0 <= i < 61
  {
    if i < 10 then Row(i, 45, 42, 0, 44, 3, 1, 43, 24, 0, 0)
    else if i < 20 then Row(i - 10, 0, 0, 45, 45, 5, 6, 9, 12, 11, 23)
    else if i < 30 then Row(i - 20, 21, 26, 34, 35, 39, 36, 37, 41, 40, 38)
    else if i < 40 then Row(i - 30, 0, 0, 44, 2, 45, 45, 45, 13, 32, 30)
    else if i < 50 then Row(i - 40, 22, 28, 25, 20, 27, 14, 18, 15, 4, 0)
    else if i < 60 then Row(i - 50, 0, 0, 33, 31, 29, 19, 16, 7, 8, 10)
    else Row(i - 60, 17, 0, 0, 0, 0, 0, 0, 0, 0, 0)
  }

  /** Displacement of a nonterminal's goto row. */
  function YyPgoto(i: int): int
    requires 0 <= i < 22
  {
    if i < 10 then Row(i, -44, -44, -44, -27, -43, -7, -44, -44, -44, -44)
    else if i < 20 then Row(i - 10, -44, -44, -44, -9, -44, -17, -44, 13, -44, -44)
    else Row(i - 20, -12, -4, 0, 0, 0, 0, 0, 0, 0, 0)
  }

  /** Default goto of a nonterminal. */
  function YyDefgoto(i: int): int
    requires 0 <= i < 22
  {
    if i < 10 then Row(i, 0, 2, 13, 14, 15, 16, 17, 30, 47, 18)
    else if i < 20 then Row(i - 10, 19, 43, 20, 40, 37, 21, 22, 25, 23, 28)
    else Row(i - 20, 3, 4, 0, 0, 0, 0, 0, 0, 0, 0)
  }

  /** Packed actions and gotos. */
  function YyTable(i: int): int
    requires 0 <= i < 68
  {
    if i < 10 then Row(i, 38, 32, 41, 44, 46, 48, 57, 58, 31, 33)
    else if i < 20 then Row(i - 10, 7, 6, 1, 8, 9, 10, 11, 24, 5, 12)
    else if i < 30 then Row(i - 20, 52, 36, 26, 54, 29, 6, 41, 34, 35, 60)
    else if i < 40 then Row(i - 30, 49, 50, 51, 27, 55, 56, 7, 45, 54, 8)
    else if i < 50 then Row(i - 40, 9, 10, 11, 39, 59, 12, 8, 9, 10, 11)
    else if i < 60 then Row(i - 50, 42, 0, 0, 8, 9, 10, 11, 53, 0, 0)
    else Row(i - 60, 8, 9, 10, 11, 8, 9, 10, 11, 0, 0)
  }

  /** The key that owns each packed entry. */
  function YyCheck(i: int): int
    requires 0 <= i < 68
  {
    if i < 10 then Row(i, 17, 13, 19, 20, 31, 32, 49, 50, 12, 13)
    else if i < 20 then Row(i - 10, 3, 4, 4, 6, 7, 8, 9, 3, 0, 12)
    else if i < 30 then Row(i - 20, 37, 5, 9, 40, 11, 4, 43, 10, 11, 56)
    else if i < 40 then Row(i - 30, 34, 35, 36, 3, 43, 47, 3, 13, 55, 6)
    else if i < 50 then Row(i - 40, 7, 8, 9, 3, 51, 12, 6, 7, 8, 9)
    else if i < 60 then Row(i - 50, 3, -1, -1, 6, 7, 8, 9, 3, -1, -1)
    else Row(i - 60, 6, 7, 8, 9, 6, 7, 8, 9, 0, 0)
  }

  /** The symbol every edge into a state is labelled with. */
  function YyStos(i: int): int
    requires 0 <= i < 61
  {
    if i < 10 then Row(i, 0, 4, 15, 34, 35, 0, 4, 3, 6, 7)
    else if i < 20 then Row(i - 10, 8, 9, 12, 16, 17, 18, 19, 20, 23, 24)
    else if i < 30 then Row(i - 20, 26, 29, 30, 32, 3, 31, 31, 3, 33, 31)
    else if i < 40 then Row(i - 30, 21, 35, 34, 35, 10, 11, 5, 28, 29, 3)
    else if i < 50 then Row(i - 40, 27, 29, 3, 25, 29, 13, 17, 22, 17, 35)
    else if i < 60 then Row(i - 50, 35, 35, 29, 3, 29, 27, 34, 18, 18, 19)
    else Row(i - 60, 17, 0, 0, 0, 0, 0, 0, 0, 0, 0)
  }

  /** The reduce handlers; `NoHandler` is the null function pointer. */
  datatype Handler =
    | NoHandler
    | HandleProgram
    | HandleListAppend
    | HandleAndOrConditional
    | HandlePipelineCreate
    | HandlePipelineAppend
    | HandleSubshellRedirects
    | HandleSubshell
    | HandleCompoundList
    | HandleSimpleCommandFromSuffix
    | HandleSimpleCommand
    | HandleFromTerm
    | HandleRedirAppend
    | HandleCmdSuffix
    | HandleIoFile
    | HandleIoHere

  datatype Rule = Rule(handler: Handler, rhsLen: nat, lhsType: Symbol)

  /** The dispatcher's record for a rule number. */
  function GetRule(action: int): Rule
    requires 0 <= action <= RULE_COUNT
  {
    match action
    case 0 => Rule(NoHandler, 0, SYM_EOF)
    case 1 => Rule(NoHandler, 2, SYM_ACCEPT)
    case 2 => Rule(HandleProgram, 3, SYM_PROGRAM)
    case 3 => Rule(NoHandler, 1, SYM_PROGRAM)
    case 4 => Rule(HandleListAppend, 3, SYM_COMPLETE_COMMANDS)
    case 5 => Rule(NoHandler, 1, SYM_COMPLETE_COMMANDS)
    case 6 => Rule(NoHandler, 1, SYM_AND_OR)
    case 7 => Rule(HandleAndOrConditional, 4, SYM_AND_OR)
    case 8 => Rule(HandleAndOrConditional, 4, SYM_AND_OR)
    case 9 => Rule(HandlePipelineCreate, 1, SYM_PIPELINE)
    case 10 => Rule(HandlePipelineAppend, 4, SYM_PIPELINE)
    case 11 => Rule(NoHandler, 1, SYM_COMMAND)
    case 12 => Rule(NoHandler, 1, SYM_COMMAND)
    case 13 => Rule(HandleSubshellRedirects, 2, SYM_COMMAND)
    case 14 => Rule(HandleSubshell, 3, SYM_SUBSHELL)
    case 15 => Rule(HandleCompoundList, 2, SYM_COMPOUND_LIST)
    case 16 => Rule(HandleCompoundList, 3, SYM_COMPOUND_LIST)
    case 17 => Rule(HandleListAppend, 3, SYM_TERM)
    case 18 => Rule(NoHandler, 1, SYM_TERM)
    case 19 => Rule(HandleSimpleCommandFromSuffix, 3, SYM_SIMPLE_COMMAND)
    case 20 => Rule(HandleSimpleCommand, 2, SYM_SIMPLE_COMMAND)
    case 21 => Rule(HandleSimpleCommand, 1, SYM_SIMPLE_COMMAND)
    case 22 => Rule(HandleSimpleCommandFromSuffix, 2, SYM_SIMPLE_COMMAND)
    case 23 => Rule(HandleSimpleCommand, 1, SYM_SIMPLE_COMMAND)
    case 24 => Rule(HandleFromTerm, 1, SYM_CMD_NAME)
    case 25 => Rule(HandleFromTerm, 1, SYM_CMD_WORD)
    case 26 => Rule(NoHandler, 1, SYM_CMD_PREFIX)
    case 27 => Rule(HandleRedirAppend, 2, SYM_CMD_PREFIX)
    case 28 => Rule(HandleCmdSuffix, 1, SYM_CMD_SUFFIX)
    case 29 => Rule(HandleCmdSuffix, 2, SYM_CMD_SUFFIX)
    case 30 => Rule(HandleCmdSuffix, 1, SYM_CMD_SUFFIX)
    case 31 => Rule(HandleCmdSuffix, 2, SYM_CMD_SUFFIX)
    case 32 => Rule(NoHandler, 1, SYM_REDIRECT_LIST)
    case 33 => Rule(HandleRedirAppend, 2, SYM_REDIRECT_LIST)
    case 34 => Rule(NoHandler, 1, SYM_IO_REDIRECT)
    case 35 => Rule(NoHandler, 1, SYM_IO_REDIRECT)
    case 36 => Rule(HandleIoFile, 2, SYM_IO_FILE)
    case 37 => Rule(HandleIoFile, 2, SYM_IO_FILE)
    case 38 => Rule(HandleIoFile, 2, SYM_IO_FILE)
    case 39 => Rule(HandleFromTerm, 1, SYM_FILENAME)
    case 40 => Rule(HandleIoHere, 2, SYM_IO_HERE)
    case 41 => Rule(NoHandler, 1, SYM_HERE_END)
    case 42 => Rule(NoHandler, 1, SYM_NEWLINE_LIST)
    case 43 => Rule(NoHandler, 2, SYM_NEWLINE_LIST)
    case 44 => Rule(NoHandler, 1, SYM_LINEBREAK)
    case _ => Rule(NoHandler, 0, SYM_LINEBREAK)
  }

  /** The dispatcher's lengths and left-hand sides are those of the grammar. */
  lemma RulesMatchGrammar(r: int)
    requires IsRule(r)
    ensures GetRule(r).rhsLen == RhsLen(r)
    ensures GetRule(r).lhsType == Lhs(r)
  {
  }
}
