// What running a pipeline is to do: which commands are started, on which streams, what status is
// left, and what stays on the shell's own streams. Opens, forks and builds may fail.

module Pipelines {
  import opened NodeArena
  import opened Context

  /** What a descriptor refers to: an end of the `k`th pipe, or the file or body of a redirection's record. */
  datatype Desc =
    | PipeRead(k: nat)
    | PipeWrite(k: nat)
    | FileIn(index: nat)
    | FileOut(index: nat)
    | FileAppend(index: nat)
    | HereBody(index: nat)

  /** The streams of the shell or of a command; without a descriptor they are the shell's own. */
  datatype Streams = Streams(stdin: Option<Desc>, stdout: Option<Desc>)

  const CLOSED := Streams(None, None)

  /** A command that was started, by its record, in a child or in the shell itself. */
  datatype Launch = Launch(index: nat, child: bool, streams: Streams)

  /** What a command's words turn out to be: a program, a builtin, nothing, or no command. */
  datatype Kind = External | Builtin | NoWords | Unknown

  /**
   * How one command goes: its kind, whether each of its redirections is one word, whether it can be
   * forked, the status it ends with if it is started, and whether it asks the shell to exit.
   */
  datatype Attempt = Attempt(kind: Kind, built: bool, forks: bool, status: int, exits: bool)

  /** How each command goes, and which files can be opened, by their records. */
  datatype World = World(attempts: nat -> Attempt, opens: nat -> bool)

  // ---- Redirections ----------------------------------------------------------------------

  predicate AreRedirs(c: Cell) {
    c.Cell? ==>
      && c.data.Redir?
      && (RedirIn in c.flags || RedirOut in c.flags || RedirHere in c.flags || RedirAppend in c.flags)
      && AreRedirs(c.rest)
  }

  predicate AreCommands(c: Cell) {
    c.Cell? ==> c.data.Command? && AreRedirs(c.second) && AreCommands(c.rest)
  }

  /** The redirection is a here-document, in the order in which the kinds are tested. */
  predicate IsHere(c: Cell) {
    c.Cell? && c.data.Redir? && RedirIn !in c.flags && RedirOut !in c.flags && RedirHere in c.flags
  }

  predicate IsInput(c: Cell)
    requires c.Cell?
  {
    RedirIn in c.flags || (RedirOut !in c.flags && RedirHere in c.flags)
  }

  /** What a redirection puts on its stream. */
  function Target(c: Cell): Desc
    requires c.Cell?
  {
    if RedirIn in c.flags then FileIn(c.index)
    else if RedirOut in c.flags then FileOut(c.index)
    else if RedirHere in c.flags then HereBody(c.index)
    else FileAppend(c.index)
  }

  /** A here-document needs the descriptor its record holds, a file has to open and the shell not to exit. */
  predicate CanOpen(c: Cell, w: World, exit: bool)
    requires c.Cell?
  {
    if IsHere(c) then c.data.fd != -1 else w.opens(c.index) && !exit
  }

  datatype Redirected = Redirected(ok: bool, streams: Streams)

  /** Redirections one after the other; where one fails its stream is left closed and the rest undone. */
  function Redirect(c: Cell, w: World, exit: bool, s: Streams): Redirected
    requires AreRedirs(c)
  {
    if c.Nil? then Redirected(true, s)
    else
      var target := if CanOpen(c, w, exit) then Some(Target(c)) else None;
      var s' := if IsInput(c) then s.(stdin := target) else s.(stdout := target);
      if CanOpen(c, w, exit) then Redirect(c.rest, w, exit, s') else Redirected(false, s')
  }

  /** The last redirection of a stream wins over the earlier ones and over the pipe. */
  function LastInput(c: Cell, before: Option<Desc>): Option<Desc>
    requires AreRedirs(c)
  {
    if c.Nil? then before else LastInput(c.rest, if IsInput(c) then Some(Target(c)) else before)
  }

  function LastOutput(c: Cell, before: Option<Desc>): Option<Desc>
    requires AreRedirs(c)
  {
    if c.Nil? then before else LastOutput(c.rest, if IsInput(c) then before else Some(Target(c)))
  }

  predicate AllOpen(c: Cell, w: World, exit: bool) {
    c.Cell? ==> CanOpen(c, w, exit) && AllOpen(c.rest, w, exit)
  }

  /** All redirections succeed exactly if everything can be opened, and then the last ones win. */
  lemma {:induction false} RedirectIsLast(c: Cell, w: World, exit: bool, s: Streams)
    requires AreRedirs(c)
    ensures Redirect(c, w, exit, s).ok <==> AllOpen(c, w, exit)
    ensures AllOpen(c, w, exit) ==>
              Redirect(c, w, exit, s).streams == Streams(LastInput(c, s.stdin), LastOutput(c, s.stdout))
  {
    if c.Cell? && CanOpen(c, w, exit) {
      var target := Some(Target(c));
      RedirectIsLast(c.rest, w, exit, if IsInput(c) then s.(stdin := target) else s.(stdout := target));
    }
  }

  /** Some redirection fails when the other stream has been redirected; `stdin` and `stdout` say which were. */
  predicate FailsBehindOther(c: Cell, w: World, exit: bool, stdin: bool, stdout: bool) {
    c.Cell? &&
    if !CanOpen(c, w, exit) then if IsInput(c) then stdout else stdin
    else FailsBehindOther(c.rest, w, exit, stdin || IsInput(c), stdout || !IsInput(c))
  }

  /** Failed redirections leave a stream open exactly if the other one had been redirected before. */
  lemma {:induction false} FailedIsClosedIff(c: Cell, w: World, exit: bool, s: Streams)
    requires AreRedirs(c) && !AllOpen(c, w, exit)
    ensures Redirect(c, w, exit, s).streams != CLOSED
            <==> FailsBehindOther(c, w, exit, s.stdin.Some?, s.stdout.Some?)
  {
    if CanOpen(c, w, exit) {
      var target := Some(Target(c));
      FailedIsClosedIff(c.rest, w, exit, if IsInput(c) then s.(stdin := target) else s.(stdout := target));
    }
  }

  lemma {:induction false} OpenFailsNowhere(c: Cell, w: World, exit: bool, stdin: bool, stdout: bool)
    requires AllOpen(c, w, exit)
    ensures !FailsBehindOther(c, w, exit, stdin, stdout)
  {
    if c.Cell? {
      OpenFailsNowhere(c.rest, w, exit, stdin || IsInput(c), stdout || !IsInput(c));
    }
  }

  // ---- Commands --------------------------------------------------------------------------

  /**
   * The shell between two commands: what was started so far, its streams, the last status, that of
   * the process it is to wait for, whether it is to exit, whether it runs a pipeline of more than
   * one command, and how many pipes it made.
   */
  datatype Ran = Ran(launches: seq<Launch>, streams: Streams, result: int, waiting: Option<int>, exit: bool,
                     piped: bool, pipes: nat)

  /** Commands that are run in a child: subshells, programs, and in a pipeline everything that is a command. */
  predicate InChild(c: Cell, kind: Kind, piped: bool)
    requires c.Cell?
  {
    InSubshell in c.flags || kind.External? || (piped && !kind.Unknown?)
  }

  /** The child redirects in its own copy of the shell; the shell waits for the status it ends with. */
  function RunForked(c: Cell, w: World, s: Ran): Ran
    requires c.Cell? && AreRedirs(c.second)
  {
    var a := w.attempts(c.index);
    var r := Redirect(c.second, w, s.exit, s.streams);
    if !a.forks then s.(result := 1)
    else if r.ok then
      s.(launches := s.launches + [Launch(c.index, true, r.streams)], streams := CLOSED, result := 0,
         waiting := Some(a.status))
    else s.(streams := CLOSED, result := 0, waiting := Some(1))
  }

  function RunCommand(c: Cell, w: World, s: Ran): Ran
    requires c.Cell? && AreRedirs(c.second)
  {
    var a := w.attempts(c.index);
    var r := Redirect(c.second, w, s.exit, s.streams);
    if InSubshell in c.flags then RunForked(c, w, s)
    else if !a.built then s.(result := 1)
    else if InChild(c, a.kind, s.piped) then RunForked(c, w, s)
    else if a.kind.Unknown? then s.(streams := CLOSED, result := if r.ok then 127 else 1)
    else if a.kind.NoWords? then s.(streams := CLOSED, result := if r.ok then 0 else 1)
    else if r.ok then
      s.(launches := s.launches + [Launch(c.index, false, r.streams)], streams := CLOSED, result := a.status,
         exit := s.exit || a.exits)
    else s.(streams := r.streams, result := 1)
  }

  // ---- Pipelines -------------------------------------------------------------------------

  /** Behind a command that is not the last there is a new pipe. */
  function Piping(c: Cell, s: Ran): Ran
    requires c.Cell?
  {
    if c.rest.Nil? then s
    else s.(streams := s.streams.(stdout := Some(PipeWrite(s.pipes))), piped := true, pipes := s.pipes + 1)
  }

  /** One command of a pipeline; the pipe behind it is the input of the next. */
  function RunOne(c: Cell, w: World, s: Ran): Ran
    requires c.Cell? && AreRedirs(c.second)
  {
    var r := RunCommand(c, w, Piping(c, s));
    if c.rest.Nil? then r else r.(streams := Streams(Some(PipeRead(s.pipes)), None))
  }

  /** The commands from `c` on, until the shell is to exit. */
  function RunCommands(c: Cell, w: World, s: Ran): Ran
    requires AreCommands(c)
  {
    if c.Nil? then s
    else
      var r := RunOne(c, w, s);
      if r.exit then r else RunCommands(c.rest, w, r)
  }

  /** The shell behind a pipeline: it has waited, and its status is that of the process, if the last one was forked. */
  function RunPipeline(c: Cell, w: World, s: Ran): Ran
    requires AreCommands(c)
  {
    var r := RunCommands(c, w, s);
    if r.exit then r.(waiting := None)
    else
      r.(result := if r.waiting.Some? && r.result == 0 then r.waiting.value else r.result, waiting := None,
         piped := false)
  }

  // ---- What is started -------------------------------------------------------------------

  /** The command is refused before it gets to its redirections. */
  predicate Refused(c: Cell, w: World, piped: bool)
    requires c.Cell?
  {
    var a := w.attempts(c.index);
    if InSubshell in c.flags then !a.forks else !a.built || (InChild(c, a.kind, piped) && !a.forks)
  }

  predicate Starts(c: Cell, w: World, piped: bool, exit: bool)
    requires c.Cell?
  {
    var a := w.attempts(c.index);
    && !Refused(c, w, piped) && AllOpen(c.second, w, exit)
    && (InSubshell in c.flags || a.kind.External? || a.kind.Builtin? || (a.kind.NoWords? && piped))
  }

  /** The command on its streams, if it is started: in a child, or in the shell itself. */
  function Started(c: Cell, w: World, piped: bool, exit: bool, s: Streams): seq<Launch>
    requires c.Cell? && AreRedirs(c.second)
  {
    if !Starts(c, w, piped, exit) then []
    else
      var streams := Streams(LastInput(c.second, s.stdin), LastOutput(c.second, s.stdout));
      [Launch(c.index, InChild(c, w.attempts(c.index).kind, piped), streams)]
  }

  /** The commands that are started: each reads from the pipe before it and writes into the one behind it. */
  function Wired(c: Cell, w: World, piped: bool, exit: bool, s: Streams, k: nat): seq<Launch>
    requires AreCommands(c)
  {
    if c.Nil? then []
    else
      Started(c, w, piped, exit, if c.rest.Nil? then s else s.(stdout := Some(PipeWrite(k))))
      + (if exit then [] else Wired(c.rest, w, piped, exit, Streams(Some(PipeRead(k)), None), k + 1))
  }

  /** The command goes to a child, which is waited for. */
  predicate GoesToChild(c: Cell, w: World, piped: bool)
    requires c.Cell?
  {
    !Refused(c, w, piped) && InChild(c, w.attempts(c.index).kind, piped)
  }

  /** The status a command ends with. */
  function OwnStatus(c: Cell, w: World, piped: bool, exit: bool): int
    requires c.Cell?
  {
    var a := w.attempts(c.index);
    if Refused(c, w, piped) || !AllOpen(c.second, w, exit) then 1
    else if InSubshell !in c.flags && a.kind.Unknown? then 127
    else if InSubshell !in c.flags && a.kind.NoWords? && !piped then 0
    else a.status
  }

  lemma CommandLaunches(c: Cell, w: World, s: Ran)
    requires c.Cell? && AreRedirs(c.second)
    ensures var r := RunCommand(c, w, s);
      && r.launches == s.launches + Started(c, w, s.piped, s.exit, s.streams)
      && (s.exit ==> r.exit) && (r.exit && !s.exit ==> !s.piped) && r.piped == s.piped && r.pipes == s.pipes
  {
    RedirectIsLast(c.second, w, s.exit, s.streams);
    assert s.launches + [] == s.launches;
  }

  /** What a command leaves besides what it started. */
  lemma CommandLeaves(c: Cell, w: World, s: Ran)
    requires c.Cell? && AreRedirs(c.second)
    ensures var r := RunCommand(c, w, s); var own := OwnStatus(c, w, s.piped, s.exit);
      if GoesToChild(c, w, s.piped) then
        r.result == 0 && r.waiting == Some(own) && r.streams == CLOSED && r.exit == s.exit
      else r.result == own && r.waiting == s.waiting && (Refused(c, w, s.piped) ==> r.streams == s.streams)
    ensures !Refused(c, w, s.piped) && s.piped ==> RunCommand(c, w, s).streams == CLOSED
  {
    RedirectIsLast(c.second, w, s.exit, s.streams);
  }

  lemma StartedFirst(c: Cell, w: World, piped: bool, exit: bool, s: Streams, k: nat, launches: seq<Launch>)
    requires AreCommands(c) && c.Cell?
    ensures var first := Started(c, w, piped, exit, if c.rest.Nil? then s else s.(stdout := Some(PipeWrite(k))));
      launches + Wired(c, w, piped, exit, s, k)
      == (launches + first) + if exit || c.rest.Nil? then []
                              else Wired(c.rest, w, piped, exit, Streams(Some(PipeRead(k)), None), k + 1)
  {
    hide Started, AreRedirs;
  }

  lemma NothingWired(w: World, piped: bool, s: Ran)
    ensures s.launches + Wired(Nil, w, piped, s.exit, s.streams, s.pipes) == s.launches
  {
  }

  /**
   * Whatever fails, every command that is started is wired as if nothing else had failed, and is
   * started if it can be.
   */
  lemma {:induction false} LaunchesAreWired(c: Cell, w: World, s: Ran)
    requires AreCommands(c)
    ensures RunCommands(c, w, s).launches
            == s.launches + Wired(c, w, s.piped || (c.Cell? && c.rest.Cell?), s.exit, s.streams, s.pipes)
  {
    hide RunCommand, Started, AreRedirs, Wired;
    if c.Nil? {
      NothingWired(w, s.piped, s);
    } else {
      var given := Piping(c, s);
      CommandLaunches(c, w, given);
      StartedFirst(c, w, given.piped, s.exit, s.streams, s.pipes, s.launches);
      var r := RunOne(c, w, s);
      if !r.exit {
        if c.rest.Cell? { LaunchesAreWired(c.rest, w, r); }
      }
    }
  }

  // ---- What is left ----------------------------------------------------------------------

  function LastCommand(c: Cell): Cell
    requires c.Cell?
    ensures LastCommand(c).Cell? && LastCommand(c).rest.Nil?
  {
    if c.rest.Nil? then c else LastCommand(c.rest)
  }

  /** The last command that is tried: when the shell is to exit, the first. */
  function Tried(c: Cell, exit: bool): Cell
    requires c.Cell?
    ensures Tried(c, exit).Cell?
  {
    if exit then c else LastCommand(c)
  }

  /**
   * The status of a pipeline is that of the last command that is tried, however it and the others
   * go, if and only if it is not lost: when the shell is to exit, what a child ends with is.
   */
  lemma StatusIsLastIff(c: Cell, w: World, s: Ran)
    requires AreCommands(c) && c.Cell? && s.waiting.None?
    ensures var last, piped := Tried(c, s.exit), s.piped || c.rest.Cell?;
      var own := OwnStatus(last, w, piped, s.exit);
      && RunPipeline(c, w, s).result == (if s.exit && GoesToChild(last, w, piped) then 0 else own)
      && (RunPipeline(c, w, s).result == own <==> own == 0 || !s.exit || !GoesToChild(last, w, piped))
  {
    if s.exit {
      CommandLaunches(c, w, Piping(c, s));
      CommandLeaves(c, w, Piping(c, s));
    } else {
      StatusIsLast(c, w, s);
    }
  }

  lemma {:induction false} StatusIsLast(c: Cell, w: World, s: Ran)
    requires AreCommands(c) && c.Cell? && !s.exit && (s.waiting.Some? ==> s.piped)
    ensures RunPipeline(c, w, s).result == OwnStatus(LastCommand(c), w, s.piped || c.rest.Cell?, false)
  {
    hide RunCommand, OwnStatus;
    var given := Piping(c, s);
    CommandLaunches(c, w, given);
    CommandLeaves(c, w, given);
    if c.rest.Cell? {
      StatusIsLast(c.rest, w, RunOne(c, w, s));
    } else {
      NotInChild(c, w, s.piped);
      assert RunCommands(c.rest, w, RunOne(c, w, s)) == RunOne(c, w, s);
    }
  }

  /** In a pipeline only a command that is refused or unknown is not waited for, and it fails. */
  lemma NotInChild(c: Cell, w: World, piped: bool)
    requires c.Cell?
    ensures piped && !GoesToChild(c, w, piped) ==> OwnStatus(c, w, piped, false) != 0
  {
  }

  /** A builtin that the shell runs itself, with a redirection that fails behind one of the other stream. */
  predicate Strands(c: Cell, w: World, piped: bool, exit: bool)
    requires c.Cell?
  {
    && InSubshell !in c.flags && w.attempts(c.index).built && w.attempts(c.index).kind.Builtin? && !piped
    && FailsBehindOther(c.second, w, exit, false, false)
  }

  /**
   * Started on its own streams, a pipeline leaves them to the shell if and only if, of more than one
   * command, the shell is not to exit and the last one is not refused; of one command, it does not
   * strand a stream it redirected.
   */
  lemma StreamsAreClosedIff(c: Cell, w: World, s: Ran)
    requires AreCommands(c) && c.Cell? && s.streams == CLOSED
    ensures RunPipeline(c, w, s).streams == CLOSED
            <==> if c.rest.Cell? then !s.exit && !Refused(LastCommand(c), w, true) else !Strands(c, w, s.piped, s.exit)
  {
    if c.rest.Nil? {
      OneCloses(c, w, s);
    } else if s.exit {
      CommandLaunches(c, w, Piping(c, s));
    } else {
      StreamsBehindPipe(c, w, s);
    }
  }

  lemma OneCloses(c: Cell, w: World, s: Ran)
    requires AreCommands(c) && c.Cell? && c.rest.Nil? && s.streams == CLOSED
    ensures RunCommands(c, w, s).streams == CLOSED <==> !Strands(c, w, s.piped, s.exit)
  {
    RedirectIsLast(c.second, w, s.exit, CLOSED);
    if AllOpen(c.second, w, s.exit) {
      OpenFailsNowhere(c.second, w, s.exit, false, false);
    } else {
      FailedIsClosedIff(c.second, w, s.exit, CLOSED);
    }
    var r := RunOne(c, w, s);
    assert RunCommands(c.rest, w, r) == r;
  }

  /** What stays on the streams behind a pipe: its end, if the last command is refused. */
  lemma {:induction false} StreamsBehindPipe(c: Cell, w: World, s: Ran)
    requires AreCommands(c) && c.Cell? && !s.exit && (s.piped || c.rest.Cell?)
    requires c.rest.Nil? ==> s.streams.stdin.Some?
    ensures RunCommands(c, w, s).streams == CLOSED <==> !Refused(LastCommand(c), w, true)
  {
    hide RunCommand, Refused;
    CommandLaunches(c, w, Piping(c, s));
    CommandLeaves(c, w, Piping(c, s));
    if c.rest.Cell? {
      StreamsBehindPipe(c.rest, w, RunOne(c, w, s));
    }
  }

  // ---- In a pipeline and outside of one --------------------------------------------------

  /** What is run in the shell itself outside of a pipeline: a builtin, alone and not in parentheses. */
  predicate RunsInShell(c: Cell, w: World, exit: bool)
    requires c.Cell?
  {
    var a := w.attempts(c.index);
    && c.rest.Nil? && InSubshell !in c.flags && a.built && AllOpen(c.second, w, exit)
    && (a.kind.Builtin? || (a.kind.NoWords? && a.forks))
  }

  /**
   * A pipeline that is run while the shell is in one, as the first one in the parentheses of a
   * pipeline is, starts what it would start outside of it, if and only if it does not start in the
   * shell itself there.
   */
  lemma SameInPipelineIff(c: Cell, w: World, s: Ran)
    requires AreCommands(c) && c.Cell?
    ensures RunPipeline(c, w, s.(piped := true)).launches == RunPipeline(c, w, s.(piped := false)).launches
            <==> !RunsInShell(c, w, s.exit)
  {
    hide RunCommand, AreRedirs;
    LaunchesAreWired(c, w, s.(piped := true));
    LaunchesAreWired(c, w, s.(piped := false));
    if c.rest.Nil? {
      StartedFirst(c, w, true, s.exit, s.streams, s.pipes, s.launches);
      StartedFirst(c, w, false, s.exit, s.streams, s.pipes, s.launches);
      OneStarted(s.launches, Started(c, w, true, s.exit, s.streams), Started(c, w, false, s.exit, s.streams));
    }
  }

  lemma OneStarted(launches: seq<Launch>, a: seq<Launch>, b: seq<Launch>)
    ensures launches + a + [] == launches + b + [] <==> a == b
  {
    if launches + a + [] == launches + b + [] {
      assert a == (launches + a + [])[|launches|..] && b == (launches + b + [])[|launches|..];
    }
  }
}
