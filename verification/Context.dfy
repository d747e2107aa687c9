// The records the parser works on: the shell context with its arenas, and the parser state.

module Context {
  import opened Grammar
  import opened ParseTables
  import opened Derivations
  import opened NodeArena

  datatype Option<T> = None | Some(value: T)

  /** One entry of the symbol stack. */
  datatype Entry = Entry(node: nat, token: nat, state: int, kind: Symbol)

  /** The zeroed entry below the stack; its state is the start state. */
  const BOTTOM := Entry(0, 0, 0, SYM_EOF)

  datatype TokenType = NoToken | WordToken | OperatorToken

  /** One record of the token arena. */
  datatype TokenRecord = TokenRecord(offset: nat, kind: TokenType, flags: nat)

  const NO_TOKEN_RECORD := TokenRecord(0, NoToken, 0)

  /** What a stack entry stands for: its derivation, its chain, the interval the chain owns. */
  datatype Shadow = Shadow(tree: Tree, chain: Cell, lo: nat, hi: nat)

  /** What an expansion depends on. */
  datatype Moment = Moment(env: map<string, string>, status: int)

  /** What was read: tokens, the blanks and comments between them, the lines of here-documents, and when. */
  datatype Piece =
    | TokenPiece(text: string)
    | GapPiece(text: string)
    | BodyPiece(lines: seq<string>, delim: string, quoted: bool, at: nat, now: Moment, closed: bool)

  /** One executed list: its derivation, the records of its pipelines, and what hung under them. */
  datatype Executed = Executed(tree: Tree, ids: seq<nat>, chain: Cell)

  /** The arenas: element 0 of each is a zeroed sentinel. */
  class Ctx {
    var stack: seq<Entry>
    var nodes: seq<Node>
    var tokens: seq<TokenRecord>
    var strings: seq<string>
    /** The line being read, and the ones after it; at their end the input ends or is interrupted. */
    var readLine: Option<string>
    var unread: seq<string>
    var sigint: bool
    /** What was written into each here-document's temporary file; a descriptor is its index. */
    var bodies: seq<string>
    /** The environment, and what each list that is run leaves of it. */
    var env: map<string, string>
    var envs: nat -> map<string, string>
    var returnStatus: int
    var shouldExit: bool
    /** A null line was read from. */
    var fault: bool
    /** A here-document is left without a body, as its line does not end in a newline. */
    var adrift: bool
    /** The pipelines that were run, by their record's index. */
    var ran: seq<nat>
    /** How many lists were run, and which descriptors were closed after them. */
    var rounds: nat
    var closed: seq<int>
    ghost var shadow: seq<Shadow>
    /** The tokens in the order they were lexed, with their text then, and how many were shifted. */
    ghost var lexed: seq<Token>
    ghost var texts: seq<string>
    ghost var shifted: nat
    /** The string offsets of the here-document delimiters, in order. */
    ghost var delims: seq<nat>
    ghost var pieces: seq<Piece>
    ghost var executed: seq<Executed>
    /** Environment and status at the start, and behind each list that was run. */
    ghost var moments: seq<Moment>
    ghost var startEnv: map<string, string>

    constructor (line: string, unread: seq<string>, sigint: bool, env: map<string, string>,
                 envs: nat -> map<string, string>)
      ensures readLine == Some(line) && this.unread == unread && this.sigint == sigint && this.env == env
      ensures this.envs == envs
    {
      stack, nodes, tokens, strings := [BOTTOM], [SENTINEL], [NO_TOKEN_RECORD], [""];
      readLine, this.unread, this.sigint, bodies := Some(line), unread, sigint, [];
      this.env, this.envs := env, envs;
      returnStatus, shouldExit, fault, adrift, ran, rounds, closed := 0, false, false, false, [], 0, [];
      shadow, lexed, texts, shifted, delims, pieces, executed := [], [], [], 0, [], [], [];
      moments, startEnv := [], env;
    }
  }

  /** The last moment is the present one. */
  ghost predicate IsNow(c: Ctx)
    reads c`moments, c`env, c`returnStatus
  {
    c.moments != [] && c.moments[|c.moments| - 1] == Moment(c.env, c.returnStatus)
  }

  /** The parser's own state; its flag bits are one field each. */
  class ParserState {
    var stackIdx: nat
    var tokenIdx: nat
    var execRootIdx: nat
    var state: int
    var lookaheadType: Symbol
    var saveTokens: bool
    var hereBody: bool
    var hasSavedTokens: bool
    var hasLookahead: bool
    var done: bool
    var error: bool
    var interrupted: bool

    constructor ()
      ensures stackIdx == tokenIdx == execRootIdx == 0 && state == 0 && lookaheadType == SYM_EOF
      ensures !saveTokens && !hereBody && !hasSavedTokens && !hasLookahead && !done && !error && !interrupted
    {
      stackIdx, tokenIdx, execRootIdx, state, lookaheadType := 0, 0, 0, 0, SYM_EOF;
      saveTokens, hereBody, hasSavedTokens, hasLookahead := false, false, false, false;
      done, error, interrupted := false, false, false;
    }
  }
}
