// The abstract syntax that a derivation stands for.

module Syntax {
  import opened Grammar
  import opened Derivations
  import opened NodeArena

  /** A word, a redirection, a command with its arguments or its subshell list, a pipeline. */
  datatype Ast =
    | AWord(offset: nat, wordFlags: nat)
    | ARedir(flags: set<NodeFlag>, offset: nat, wordFlags: nat)
    | ACommand(flags: set<NodeFlag>, body: seq<Ast>, redirs: seq<Ast>)
    | APipeline(flags: set<NodeFlag>, commands: seq<Ast>)

  /** The bits of a token record that a node keeps. */
  const TKN_HAS_QUOTES := 1
  const TKN_HAS_EXPANSION := 2
  const WORD_FLAGS := 4

  function WordOf(token: Token): Ast {
    AWord(token.offset, token.flags % WORD_FLAGS)
  }

  function HereFlags(token: Token): set<NodeFlag> {
    if token.flags % 2 == TKN_HAS_QUOTES then {RedirHere, RedirHasQuotes} else {RedirHere}
  }

  predicate IsAndOr(m: seq<Ast>) {
    && m != [] && m[0].APipeline? && m[0].flags == {}
    && forall i :: 0 < i < |m| ==> m[i].APipeline? && (m[i].flags == {AndIf} || m[i].flags == {OrIf})
  }

  /** What the meaning of a symbol looks like. */
  predicate HasShape(x: Symbol, m: seq<Ast>) {
    if x == SYM_AND_OR then IsAndOr(m)
    else if x == SYM_TERM || x == SYM_COMPOUND_LIST then m != [] && forall i :: 0 <= i < |m| ==> m[i].APipeline?
    else if x == SYM_PIPELINE then |m| == 1 && m[0].APipeline? && m[0].flags == {} && m[0].commands != []
    else if x == SYM_COMMAND then |m| == 1 && m[0].ACommand?
    else if x == SYM_SUBSHELL then |m| == 1 && m[0].ACommand? && m[0].flags == {InSubshell} && m[0].redirs == []
    else if x == SYM_SIMPLE_COMMAND || x == SYM_CMD_SUFFIX then |m| == 1 && m[0].ACommand? && m[0].flags == {}
    else if x == SYM_CMD_NAME || x == SYM_CMD_WORD then |m| == 1 && m[0].AWord?
    else if x == SYM_CMD_PREFIX || x == SYM_REDIRECT_LIST then m != [] && forall i :: 0 <= i < |m| ==> m[i].ARedir?
    else if x == SYM_FILENAME then |m| == 1 && m[0].ARedir? && m[0].flags == {}
    else if SYM_IO_REDIRECT <= x <= SYM_IO_HERE then |m| == 1 && m[0].ARedir?
    else if x == SYM_COMPLETE_COMMANDS then m == [] || IsAndOr(m)
    else m == []
  }

  predicate ShapeAt(r: int, i: nat, m: seq<Ast>)
    requires IsRule(r)
  {
    if i < RhsLen(r) then HasShape(RhsAt(r, i), m) && (RhsAt(r, i) == SYM_COMPLETE_COMMANDS ==> m == []) else m == []
  }

  predicate ShapesFit(r: int, a: seq<Ast>, b: seq<Ast>, c: seq<Ast>, d: seq<Ast>)
    requires IsRule(r)
  {
    ShapeAt(r, 0, a) && ShapeAt(r, 1, b) && ShapeAt(r, 2, c) && ShapeAt(r, 3, d)
  }

  /**
   * What production `r` makes of the meanings of its symbols and of the last token of its
   * yield. Complete commands keep nothing of the commands before: those have been run.
   */
  function Combine(r: int, a: seq<Ast>, b: seq<Ast>, c: seq<Ast>, d: seq<Ast>, word: Token): seq<Ast>
    requires IsRule(r) && ShapesFit(r, a, b, c, d)
  {
    match r
    case 4 => c
    case 5 | 6 | 11 | 12 | 18 | 26 | 32 | 34 | 35 => a
    case 7 => a + [APipeline({AndIf}, d[0].commands)]
    case 8 => a + [APipeline({OrIf}, d[0].commands)]
    case 9 => [APipeline({}, a)]
    case 10 => [APipeline({}, a[0].commands + d)]
    case 13 => [ACommand(a[0].flags, a[0].body, b)]
    case 14 => [ACommand({InSubshell}, b, [])]
    case 15 | 16 => b
    case 17 => a + c
    case 19 => [ACommand({}, b + c[0].body, a + c[0].redirs)]
    case 20 => [ACommand({}, b, a)]
    case 21 => [ACommand({}, [], a)]
    case 22 => [ACommand({}, a + b[0].body, b[0].redirs)]
    case 23 => [ACommand({}, a, [])]
    case 24 | 25 => [WordOf(word)]
    case 27 | 33 => a + b
    case 28 => [ACommand({}, [], a)]
    case 29 => [ACommand({}, a[0].body, a[0].redirs + b)]
    case 30 => [ACommand({}, [WordOf(word)], [])]
    case 31 => [ACommand({}, a[0].body + [WordOf(word)], a[0].redirs)]
    case 36 => [ARedir({RedirIn}, b[0].offset, b[0].wordFlags)]
    case 37 => [ARedir({RedirOut}, b[0].offset, b[0].wordFlags)]
    case 38 => [ARedir({RedirAppend}, b[0].offset, b[0].wordFlags)]
    case 39 => [ARedir({}, word.offset, word.flags % WORD_FLAGS)]
    case 40 => [ARedir(HereFlags(word), word.offset, 0)]
    case _ => []
  }

  lemma CombineShape(r: int, a: seq<Ast>, b: seq<Ast>, c: seq<Ast>, d: seq<Ast>, word: Token)
    requires IsRule(r) && ShapesFit(r, a, b, c, d)
    ensures HasShape(Lhs(r), Combine(r, a, b, c, d, word))
  {
    hide ShapesFit, HasShape, Combine, Lhs;
    if r <= 18 { ListShape(r, a, b, c, d, word); } else { CommandShape(r, a, b, c, d, word); }
  }

  lemma ListShape(r: int, a: seq<Ast>, b: seq<Ast>, c: seq<Ast>, d: seq<Ast>, word: Token)
    requires 0 < r <= 18 && ShapesFit(r, a, b, c, d)
    ensures HasShape(Lhs(r), Combine(r, a, b, c, d, word))
  {
  }

  lemma CommandShape(r: int, a: seq<Ast>, b: seq<Ast>, c: seq<Ast>, d: seq<Ast>, word: Token)
    requires IsRule(r) && 18 < r && ShapesFit(r, a, b, c, d)
    ensures HasShape(Lhs(r), Combine(r, a, b, c, d, word))
  {
  }

  function LastToken(tokens: seq<Token>): Token {
    if tokens == [] then Token(SYM_EOF, 0, 0, 0) else tokens[|tokens| - 1]
  }

  /**
   * The abstract syntax of a derivation. A list of complete commands stands for its last one
   * only while that one is waiting to be run; to what is built on top of it, it is empty.
   */
  function Meaning(t: Tree): (m: seq<Ast>)
    requires IsDerivation(t)
    ensures HasShape(Root(t), m)
    decreases t, 0
  {
    match t
    case Leaf(_) =>
      []
    case Branch(r, kids) =>
      var a, b, c, d := KidMeaning(r, kids, 0), KidMeaning(r, kids, 1), KidMeaning(r, kids, 2), KidMeaning(r, kids, 3);
      CombineShape(r, a, b, c, d, LastToken(YieldAll(kids)));
      Combine(r, a, b, c, d, LastToken(YieldAll(kids)))
  }

  /** What a symbol stands for once the commands it completed have been run. */
  function Live(t: Tree): (m: seq<Ast>)
    requires IsDerivation(t)
    ensures HasShape(Root(t), m) && (Root(t) == SYM_COMPLETE_COMMANDS ==> m == [])
    decreases t, 1
  {
    if Root(t) == SYM_COMPLETE_COMMANDS then [] else Meaning(t)
  }

  function KidMeaning(r: int, kids: seq<Tree>, i: nat): (m: seq<Ast>)
    requires IsRule(r) && IsRhs(r, 0, kids)
    requires forall k :: 0 <= k < |kids| ==> IsDerivation(kids[k])
    ensures ShapeAt(r, i, m)
    decreases kids, 2
  {
    if i < |kids| then Live(kids[i]) else []
  }

  /** The meaning of a branch, one level unfolded. */
  lemma MeaningOfBranch(t: Tree)
    requires IsDerivation(t) && t.Branch?
    ensures IsRule(t.rule) && IsRhs(t.rule, 0, t.kids) && forall k :: 0 <= k < |t.kids| ==> IsDerivation(t.kids[k])
    ensures ShapesFit(t.rule, KidMeaning(t.rule, t.kids, 0), KidMeaning(t.rule, t.kids, 1),
      KidMeaning(t.rule, t.kids, 2), KidMeaning(t.rule, t.kids, 3))
    ensures Meaning(t) == Combine(t.rule, KidMeaning(t.rule, t.kids, 0), KidMeaning(t.rule, t.kids, 1),
                                  KidMeaning(t.rule, t.kids, 2), KidMeaning(t.rule, t.kids, 3),
                                    LastToken(YieldAll(t.kids)))
  {
    hide ShapeAt, Combine, HasShape, Lhs, RhsAt, RhsLen;
  }
}
