/**
 * The dispatcher and the state machine (source/bricli.c:178-188, 626-838,
 * 1091-1095): the front command line is split into a name and an argument
 * text, the arguments are extracted, the system table and then the user
 * table are searched by name, and the matching handler runs under the
 * authorisation gate. Parse drives this over every complete line in the
 * receive buffer.
 */
module Dispatcher {
  import opened Optional
  import opened Errors
  import opened CStrings
  import opened Handle
  import opened Writer
  import opened Receiver
  import opened Lines
  import opened Tokenizer
  import opened Auth

  // ----- State changes -----

  /** Bricli_ChangeState on a snapshot: the new state, and one notification when a callback is set. */
  function Moved(cfg: Config, s: Snapshot, next: State): Snapshot {
    s.(state := next, transitions := s.transitions + Notified(cfg, s.state, next))
  }

  /** Bricli_ChangeState. */
  method ChangeState(cli: Cli, next: State)
    modifies cli`State, cli`Transitions
    ensures cli.Snap() == Moved(cli.Cfg(), old(cli.Snap()), next)
  {
    var current := cli.State;
    cli.State := next;
    if cli.OnStateChanged {
      cli.Transitions := cli.Transitions + [(current, next)];
    }
  }

  // ----- Splitting the command line -----

  /** The command name and the argument text ParseCommand copies out of the line. */
  datatype Request = Request(name: string, args: string)

  /** The first n characters of w, or all of w when it is shorter: a length-limited memcpy. */
  function Capped(w: string, n: nat): (c: string)
    ensures |c| <= n && |c| <= |w| && c == w[..|c|]
    ensures |w| <= n ==> c == w
    ensures |w| > n ==> |c| == n
  {
    if |w| <= n then w else w[..n]
  }

  /**
   * The request in the C string at the front of the buffer: strchr finds
   * the first space; the name is what precedes it (or the whole line) cut
   * to MaxCommandLen, the argument text is the C string after it cut to
   * ArgumentBufferLen.
   */
  function Requested(buf: seq<char>): (r: Request)
    requires Terminated(buf)
    ensures |r.name| <= MaxCommandLen && |r.args| <= ArgumentBufferLen
    ensures NUL !in r.name && NUL !in r.args && ' ' !in r.name
  {
    match StrChr(buf, 0, ' ')
    case Some(p) => Request(Capped(buf[..p], MaxCommandLen), Capped(CStringAt(buf, p + 1), ArgumentBufferLen))
    case None => Request(Capped(CStringAt(buf, 0), MaxCommandLen), "")
  }

  /** A line `name args` with no space in the name yields that name and that argument text, each cut to its limit. */
  lemma RequestOfLine(buf: seq<char>, name: string, args: string)
    requires Terminated(buf) && ' ' !in name
    requires CStringAt(buf, 0) == name + " " + args
    ensures Requested(buf) == Request(Capped(name, MaxCommandLen), Capped(args, ArgumentBufferLen))
  {
    var line := CStringAt(buf, 0);
    var p := |name|;
    assert line[p] == ' ' && buf[p] == line[p];
    forall k | 0 <= k < p ensures buf[k] != ' ' {
      assert buf[k] == line[k] == name[k];
    }
    assert StrChr(buf, 0, ' ') == Some(p);
    assert buf[..p] == name;
    var n := Strlen(buf, 0);
    forall k | p + 1 <= k < n ensures buf[k] != NUL {
      assert buf[k] == line[k];
    }
    StrlenIs(buf, p + 1, n - (p + 1));
    assert buf[p + 1..n] == line[p + 1..] == args;
  }

  /** A line without a space is all name, with no argument text. */
  lemma RequestOfWord(buf: seq<char>, name: string)
    requires Terminated(buf) && ' ' !in name
    requires CStringAt(buf, 0) == name
    ensures Requested(buf) == Request(Capped(name, MaxCommandLen), "")
  {
    forall k | 0 <= k < Strlen(buf, 0) ensures buf[k] != ' ' {
      assert buf[k] == name[k];
    }
  }

  // ----- The argument buffer -----

  /**
   * The zeroed local argument buffer after the memcpy, with one cell more
   * than the source declares so that an argument text of the full
   * ArgumentBufferLen is still terminated.
   */
  function ArgumentBuffer(text: string): (b: seq<char>)
    requires NUL !in text && |text| <= ArgumentBufferLen
    ensures |b| == ArgumentBufferLen + 1 && Terminated(b) && CStringAt(b, 0) == text
  {
    var b := text + Zeros(ArgumentBufferLen + 1 - |text|);
    assert b[|text|] == NUL;
    StrlenIs(b, 0, |text|);
    b
  }

  /** The local argument buffer as the source declares it: ArgumentBufferLen cells. */
  function ArgumentBufferAsWritten(text: string): (b: seq<char>)
    requires |text| <= ArgumentBufferLen
    ensures |b| == ArgumentBufferLen
  {
    text + Zeros(ArgumentBufferLen - |text|)
  }

  /** An argument text of the full 70 bytes fills the declared buffer with no terminator left for strtok_r. */
  lemma FullArgumentsUnterminated(text: string)
    requires NUL !in text && |text| == ArgumentBufferLen
    ensures NUL !in ArgumentBufferAsWritten(text)
  {
    assert ArgumentBufferAsWritten(text) == text;
  }

  /** Below the limit, the declared buffer is the corrected one without its extra cell. */
  lemma ShortArgumentsAgree(text: string)
    requires NUL !in text && |text| < ArgumentBufferLen
    ensures ArgumentBufferAsWritten(text) == ArgumentBuffer(text)[..ArgumentBufferLen]
    ensures NUL in ArgumentBufferAsWritten(text)
  {
    assert ArgumentBufferAsWritten(text)[|text|] == NUL;
  }

  /** The arguments ExtractArguments finds in an argument text. */
  function Parsed(text: string): (r: Extraction)
    requires NUL !in text && |text| <= ArgumentBufferLen
    ensures r.count == |r.found| <= MaxArguments
    ensures Terminated(r.buf) && forall k :: 0 <= k < |r.found| ==> r.found[k] < |r.buf|
  {
    Extract(ArgumentBuffer(text))
  }

  // ----- The specification of ParseCommand -----

  function UnknownMessage(name: string, eol: string): string {
    "Unknown Command " + name + eol
  }

  function ErrorMessage(code: int, eol: string): string {
    "Command returned error: " + DecimalString(code) + eol
  }

  /** What system handler k does: help, clear, login or logout. */
  function SystemHandlerSpec(cfg: Config, s: Snapshot, k: nat, argv: seq<string>): Step
    requires k < |SystemNames|
  {
    if k == 0 then HelpSpec(cfg, s)
    else if k == 1 then ClearSpec(cfg, s)
    else if k == 2 then LoginSpec(cfg, s, argv)
    else LogoutSpec(cfg, s)
  }

  /** A system command runs between HandlerRunning and Finished, and the dispatch returns Ok whatever it returned. */
  function RunSystemSpec(cfg: Config, s: Snapshot, k: nat, argv: seq<string>): Step
    requires k < |SystemNames|
  {
    Step(Ok, Moved(cfg, SystemHandlerSpec(cfg, Moved(cfg, s, HandlerRunning), k, argv).after, Finished))
  }

  /**
   * A user command in scope: its handler is called once between
   * HandlerRunning and Finished and its result is returned; a negative
   * result is reported in red and recorded as a command error.
   */
  function RunUserSpec(cfg: Config, s: Snapshot, c: Command, argc: nat, argv: seq<string>): Step {
    var running := Moved(cfg, s, HandlerRunning);
    var result := c.Handler(argc, argv);
    var done := Moved(cfg, running.(calls := running.calls + [HandlerCall(c.Name, argc, argv)]), Finished);
    if result < 0 then
      Step(result, done.(output := done.output + ColouredPrint(cfg, TextRed, ErrorMessage(result, LineEnd(cfg))),
                         lastError := ErrorCommand))
    else Step(result, done)
  }

  /** A user command out of scope: refused as if unknown, its handler not called. */
  function RefusedSpec(cfg: Config, s: Snapshot, name: string): Step {
    Step(Unauthorized, s.(lastError := ErrorInternal,
                          output := s.output + Printed(cfg, UnknownMessage(name, LineEnd(cfg)))))
  }

  /** No command of that name: reported, followed by the help listing. */
  function UnknownSpec(cfg: Config, s: Snapshot, name: string): Step {
    var told := s.(output := s.output + Printed(cfg, UnknownMessage(name, LineEnd(cfg))));
    Step(BadCommand, HelpSpec(cfg, told).after.(lastError := ErrorInternal))
  }

  /** The user table's part of a dispatch, for a name that is not a system command. */
  function UserDispatchSpec(cfg: Config, s: Snapshot, name: string, ex: Extraction): Step
    requires Terminated(ex.buf) && forall k :: 0 <= k < |ex.found| ==> ex.found[k] < |ex.buf|
  {
    match FirstIndex(Names(cfg.commands), name, 0)
    case Some(i) =>
      var c := cfg.commands[i];
      if InScope(c.AuthScopesRequired, s.scopes) then RunUserSpec(cfg, s, c, ex.count, Arguments(ex))
      else RefusedSpec(cfg, s, name)
    case None => UnknownSpec(cfg, s, name)
  }

  /** The dispatch of a request: system table first, then the user table. */
  function DispatchSpec(cfg: Config, s: Snapshot, req: Request): Step
    requires NUL !in req.args && |req.args| <= ArgumentBufferLen
  {
    var ex := Parsed(req.args);
    match FirstIndex(SystemNames, req.name, 0)
    case Some(k) => RunSystemSpec(cfg, s, k, Arguments(ex))
    case None => UserDispatchSpec(cfg, s, req.name, ex)
  }

  /** Bricli_ParseCommand: Parsing, then the escape stub or the dispatch of the front line. */
  function ParseCommandSpec(cfg: Config, s: Snapshot): (r: Step)
    requires BufferValid(cfg, s)
    ensures r.after.buf == s.buf && r.after.pending == s.pending
  {
    var parsing := Moved(cfg, s, Parsing);
    if s.buf[0] == Esc then Step(Ok, parsing)
    else
      DispatchKeepsBuffer(cfg, parsing, Requested(s.buf));
      DispatchSpec(cfg, parsing, Requested(s.buf))
  }

  /** A system handler leaves the receive buffer alone. */
  lemma SystemKeepsBuffer(cfg: Config, s: Snapshot, k: nat, argv: seq<string>)
    requires k < |SystemNames|
    ensures var t := RunSystemSpec(cfg, s, k, argv).after; t.buf == s.buf && t.pending == s.pending
  {
    var running := Moved(cfg, s, HandlerRunning);
    if k == 2 {
      LoginCodes(cfg, running, argv);
    }
  }

  /** A user command, run or refused, leaves the receive buffer alone. */
  lemma UserKeepsBuffer(cfg: Config, s: Snapshot, name: string, ex: Extraction)
    requires Terminated(ex.buf) && forall k :: 0 <= k < |ex.found| ==> ex.found[k] < |ex.buf|
    ensures var t := UserDispatchSpec(cfg, s, name, ex).after; t.buf == s.buf && t.pending == s.pending
  {
  }

  /** ParseCommand copies out of the receive buffer and never writes to it. */
  lemma DispatchKeepsBuffer(cfg: Config, s: Snapshot, req: Request)
    requires NUL !in req.args && |req.args| <= ArgumentBufferLen
    ensures var t := DispatchSpec(cfg, s, req).after; t.buf == s.buf && t.pending == s.pending
  {
    var ex := Parsed(req.args);
    match FirstIndex(SystemNames, req.name, 0)
    case Some(k) => SystemKeepsBuffer(cfg, s, k, Arguments(ex));
    case None => UserKeepsBuffer(cfg, s, req.name, ex);
  }

  // ----- Table lookups -----

  /** The scan of the system table. */
  method FindSystemCommand(name: string) returns (k: Option<nat>)
    ensures k == FirstIndex(SystemNames, name, 0)
  {
    var j := 0;
    while j < |SystemNames|
      invariant j <= |SystemNames| && FirstIndex(SystemNames, name, j) == FirstIndex(SystemNames, name, 0)
    {
      if SystemNames[j] == name {
        return Some(j);
      }
      j := j + 1;
    }
    return None;
  }

  /** The scan of the user command table. */
  method FindUserCommand(cmds: seq<Command>, name: string) returns (i: Option<nat>)
    ensures i == FirstIndex(Names(cmds), name, 0)
  {
    var j := 0;
    while j < |cmds|
      invariant j <= |cmds| && FirstIndex(Names(cmds), name, j) == FirstIndex(Names(cmds), name, 0)
    {
      if cmds[j].Name == name {
        return Some(j);
      }
      j := j + 1;
    }
    return None;
  }

  // ----- ParseCommand -----

  /** The strchr, strlen and the two length-limited copies of ParseCommand. */
  method ReadRequest(cli: Cli) returns (name: string, args: string)
    requires Terminated(cli.RxBuffer[..])
    ensures Request(name, args) == Requested(cli.RxBuffer[..])
  {
    var buf := cli.RxBuffer[..];
    var argData := StrChr(buf, 0, ' ');
    var commandLength;
    if argData.Some? {
      commandLength := argData.value;
      var argumentLength := Strlen(buf, argData.value + 1);
      if argumentLength > ArgumentBufferLen {
        argumentLength := ArgumentBufferLen;
      }
      args := buf[argData.value + 1..argData.value + 1 + argumentLength];
    } else {
      commandLength := Strlen(buf, 0);
      args := "";
    }
    if commandLength > MaxCommandLen {
      commandLength := MaxCommandLen;
    }
    name := buf[..commandLength];
  }

  /** The zeroed local argument buffer with the argument text copied in. */
  method ArgumentArray(text: string) returns (a: array<char>)
    requires NUL !in text && |text| <= ArgumentBufferLen
    ensures fresh(a) && a[..] == ArgumentBuffer(text)
  {
    a := new char[ArgumentBufferLen + 1](k => if 0 <= k < |text| then text[k] else NUL);
    assert a[..] == ArgumentBuffer(text);
  }

  /** The call through the system table's handler pointer. */
  method SystemHandler(cli: Cli, k: nat, argv: seq<string>) returns (r: int)
    requires ConfigValid(cli.Cfg()) && k < |SystemNames|
    modifies cli`AuthScopes, cli`Output, cli`LastError
    ensures Step(r, cli.Snap()) == SystemHandlerSpec(cli.Cfg(), old(cli.Snap()), k, argv)
  {
    if k == 0 {
      r := Help(cli);
    } else if k == 1 {
      r := Clear(cli);
    } else if k == 2 {
      r := Login(cli, argv);
    } else {
      r := Logout(cli);
    }
  }

  /** A matched system command: the handler between HandlerRunning and Finished, then Ok. */
  method RunSystemCommand(cli: Cli, k: nat, argv: seq<string>) returns (r: int)
    requires ConfigValid(cli.Cfg()) && k < |SystemNames|
    modifies cli`State, cli`Transitions, cli`AuthScopes, cli`Output, cli`LastError
    ensures Step(r, cli.Snap()) == RunSystemSpec(cli.Cfg(), old(cli.Snap()), k, argv)
  {
    ChangeState(cli, HandlerRunning);
    var _ := SystemHandler(cli, k, argv);
    ChangeState(cli, Finished);
    r := Ok;
  }

  /** A matched user command in scope. */
  method RunUserCommand(cli: Cli, c: Command, argc: nat, argv: seq<string>) returns (r: int)
    requires ConfigValid(cli.Cfg())
    modifies cli`State, cli`Transitions, cli`Calls, cli`Output, cli`LastError
    ensures Step(r, cli.Snap()) == RunUserSpec(cli.Cfg(), old(cli.Snap()), c, argc, argv)
  {
    r := CallHandler(cli, c, argc, argv);
    if r < 0 {
      ReportError(cli, r);
    }
  }

  /** The handler's call between HandlerRunning and Finished, logged. */
  method CallHandler(cli: Cli, c: Command, argc: nat, argv: seq<string>) returns (r: int)
    modifies cli`State, cli`Transitions, cli`Calls
    ensures r == c.Handler(argc, argv)
    ensures var running := Moved(cli.Cfg(), old(cli.Snap()), HandlerRunning);
      cli.Snap() == Moved(cli.Cfg(), running.(calls := running.calls + [HandlerCall(c.Name, argc, argv)]), Finished)
  {
    ChangeState(cli, HandlerRunning);
    r := c.Handler(argc, argv);
    cli.Calls := cli.Calls + [HandlerCall(c.Name, argc, argv)];
    ChangeState(cli, Finished);
  }

  /** A negative handler result reported in red and recorded as a command error. */
  method ReportError(cli: Cli, code: int)
    requires ConfigValid(cli.Cfg())
    modifies cli`Output, cli`LastError
    ensures cli.Snap() == old(cli.Snap()).(output := old(cli.Output) +
                                             ColouredPrint(cli.Cfg(), TextRed, ErrorMessage(code, LineEnd(cli.Cfg()))),
                                           lastError := ErrorCommand)
  {
    RefusalIsCString();
    var eol := if cli.SendEol.None? then cli.Eol else cli.SendEol.value;
    var _ := PrintFColoured(cli, TextRed, "Command returned error: " + DecimalString(code) + eol);
    cli.LastError := ErrorCommand;
  }

  /** A matched user command out of scope. */
  method Refuse(cli: Cli, name: string) returns (r: int)
    requires ConfigValid(cli.Cfg())
    modifies cli`Output, cli`LastError
    ensures Step(r, cli.Snap()) == RefusedSpec(cli.Cfg(), old(cli.Snap()), name)
  {
    cli.LastError := ErrorInternal;
    r := Unauthorized;
    var eol := if cli.SendEol.None? then cli.Eol else cli.SendEol.value;
    var _ := PrintF(cli, "Unknown Command " + name + eol);
  }

  /** No command of that name in either table. */
  method UnknownCommand(cli: Cli, name: string) returns (r: int)
    requires ConfigValid(cli.Cfg())
    modifies cli`Output, cli`LastError
    ensures Step(r, cli.Snap()) == UnknownSpec(cli.Cfg(), old(cli.Snap()), name)
  {
    var eol := if cli.SendEol.None? then cli.Eol else cli.SendEol.value;
    var _ := PrintF(cli, "Unknown Command " + name + eol);
    var _ := PrintHelp(cli);
    cli.LastError := ErrorInternal;
    r := BadCommand;
  }

  /** The user table's search and what follows it. */
  method DispatchUser(cli: Cli, name: string, ghost ex: Extraction, argc: nat, argv: seq<string>) returns (r: int)
    requires ConfigValid(cli.Cfg())
    requires Terminated(ex.buf) && forall k :: 0 <= k < |ex.found| ==> ex.found[k] < |ex.buf|
    requires argc == ex.count && argv == Arguments(ex)
    modifies cli`State, cli`Transitions, cli`Calls, cli`Output, cli`LastError
    ensures Step(r, cli.Snap()) == UserDispatchSpec(cli.Cfg(), old(cli.Snap()), name, ex)
  {
    var i := FindUserCommand(cli.CommandList, name);
    if i.None? {
      r := UnknownCommand(cli, name);
      return;
    }
    var c := cli.CommandList[i.value];
    if InScope(c.AuthScopesRequired, cli.AuthScopes) {
      r := RunUserCommand(cli, c, argc, argv);
    } else {
      r := Refuse(cli, name);
    }
  }

  /** The argument extraction, then the system table's search and what follows it. */
  method Dispatch(cli: Cli, name: string, args: string) returns (r: int)
    requires ConfigValid(cli.Cfg()) && NUL !in args && |args| <= ArgumentBufferLen
    modifies cli`State, cli`Transitions, cli`Calls, cli`AuthScopes, cli`Output, cli`LastError
    ensures Step(r, cli.Snap()) == DispatchSpec(cli.Cfg(), old(cli.Snap()), Request(name, args))
  {
    var a := ArgumentArray(args);
    var count, found := ExtractArguments(a);
    ghost var ex := Parsed(args);
    assert Extraction(count, found, a[..]) == ex;
    var argv := StringsAt(a[..], found);
    var k := FindSystemCommand(name);
    if k.Some? {
      r := RunSystemCommand(cli, k.value, argv);
    } else {
      r := DispatchUser(cli, name, ex, count, argv);
    }
  }

  /** Bricli_ParseCommand; the escape-code handler is a stub that returns Ok. */
  method ParseCommand(cli: Cli) returns (r: int)
    requires cli.Valid()
    modifies cli`State, cli`Transitions, cli`Calls, cli`AuthScopes, cli`Output, cli`LastError
    ensures Step(r, cli.Snap()) == ParseCommandSpec(cli.Cfg(), old(cli.Snap()))
  {
    ChangeState(cli, Parsing);
    if cli.RxBuffer[0] == Esc {
      return Ok;
    }
    var name, args := ReadRequest(cli);
    r := Dispatch(cli, name, args);
  }

  // ----- Parse -----

  /**
   * One turn of the command loop of Bricli_Parse with n commands still to
   * handle: the front command is dispatched and removed from the buffer,
   * the state returns to Idle, and the prompt follows the last command.
   */
  function Advance(cfg: Config, s: Snapshot, n: nat): (r: Step)
    requires BufferValid(cfg, s)
    ensures BufferValid(cfg, r.after)
  {
    var d := ParseCommandSpec(cfg, s);
    Step(d.code, Tidied(cfg, d.after, n))
  }

  /** After a command: its line removed, the state back to Idle, and the prompt if it was the last. */
  function Tidied(cfg: Config, s: Snapshot, n: nat): (t: Snapshot)
    requires BufferValid(cfg, s)
    ensures BufferValid(cfg, t)
  {
    var t := Moved(cfg, ClearCommandSpec(cfg, s), Idle);
    if n == 1 then t.(output := t.output + PromptOutput(cfg)) else t
  }

  /** The command loop from a split buffer with n commands to handle, `last` the result so far. */
  function ParseLoop(cfg: Config, s: Snapshot, n: nat, last: int): Step
    requires BufferValid(cfg, s)
    decreases n, 1
  {
    if n == 0 then Step(last, s) else Turn(cfg, s, n)
  }

  /** The command loop with n > 0 commands to handle: one turn, then the rest. */
  function Turn(cfg: Config, s: Snapshot, n: nat): Step
    requires BufferValid(cfg, s) && n > 0
    decreases n, 0
  {
    var a := Advance(cfg, s, n);
    ParseLoop(cfg, a.after, n - 1, a.code)
  }

  /** The loop goes on from wherever a turn leaves it. */
  lemma TurnTaken(cfg: Config, s: Snapshot, n: nat, a: Step)
    requires BufferValid(cfg, s) && n > 0 && a == Advance(cfg, s, n)
    ensures BufferValid(cfg, a.after) && Turn(cfg, s, n) == ParseLoop(cfg, a.after, n - 1, a.code)
  {
  }

  /**
   * Bricli_Parse: nothing without an EOL; a lone EOL gets the prompt and an
   * empty buffer; otherwise the buffer is split and every command counted
   * is handled.
   */
  function ParseSpec(cfg: Config, s: Snapshot): Step
    requires Good(cfg, s)
  {
    if FindEol(cfg, s).None? then Step(Ok, s)
    else if s.pending == |cfg.eol| then Step(Ok, Cleared(cfg, s.(output := s.output + PromptOutput(cfg))))
    else
      var c := SplitSpec(cfg, s);
      ParseLoop(cfg, s.(buf := c.buf), c.count, Ok)
  }

  /** One command of the Parse loop: dispatch, removal, back to Idle, and the prompt after the last. */
  method HandleCommand(cli: Cli, n: nat) returns (r: int)
    requires cli.Valid() && n > 0
    modifies cli.RxBuffer, cli`PendingBytes, cli`State, cli`Transitions, cli`Calls, cli`AuthScopes
    modifies cli`Output, cli`LastError
    ensures cli.Valid() && Step(r, cli.Snap()) == Advance(cli.Cfg(), old(cli.Snap()), n)
  {
    r := ParseCommand(cli);
    FinishCommand(cli, n);
  }

  /** The end of a turn of the Parse loop. */
  method FinishCommand(cli: Cli, n: nat)
    requires cli.Valid()
    modifies cli.RxBuffer, cli`PendingBytes, cli`State, cli`Transitions, cli`Output, cli`LastError
    ensures cli.Valid() && cli.Snap() == Tidied(cli.Cfg(), old(cli.Snap()), n)
  {
    ghost var cfg := cli.Cfg();
    RemoveCommand(cli);
    if n == 1 {
      ghost var t := cli.Snap();
      SendPrompt(cli);
      assert cli.Snap() == t.(output := t.output + PromptOutput(cfg));
    }
  }

  /** The handled line removed from the buffer and the state back to Idle. */
  method RemoveCommand(cli: Cli)
    requires cli.Valid()
    modifies cli.RxBuffer, cli`PendingBytes, cli`State, cli`Transitions
    ensures cli.Valid() && cli.Snap() == Moved(cli.Cfg(), ClearCommandSpec(cli.Cfg(), old(cli.Snap())), Idle)
  {
    ClearCommand(cli);
    ChangeState(cli, Idle);
  }

  /** The command loop of Bricli_Parse. */
  method HandleCommands(cli: Cli, count: nat) returns (r: int)
    requires cli.Valid()
    modifies cli.RxBuffer, cli`PendingBytes, cli`State, cli`Transitions, cli`Calls, cli`AuthScopes
    modifies cli`Output, cli`LastError
    ensures cli.Valid() && Step(r, cli.Snap()) == ParseLoop(cli.Cfg(), old(cli.Snap()), count, Ok)
  {
    ghost var cfg := cli.Cfg();
    ghost var goal := ParseLoop(cfg, cli.Snap(), count, Ok);
    r := Ok;
    var n := count;
    while n > 0
      invariant cli.Valid() && cli.Cfg() == cfg
      invariant ParseLoop(cfg, cli.Snap(), n, r) == goal
    {
      ghost var s := cli.Snap();
      r := HandleCommand(cli, n);
      TurnTaken(cfg, s, n, Step(r, cli.Snap()));
      n := n - 1;
    }
  }

  /** Bricli_Parse. */
  method Parse(cli: Cli) returns (r: int)
    requires cli.Valid()
    modifies cli.RxBuffer, cli`PendingBytes, cli`State, cli`Transitions, cli`Calls, cli`AuthScopes
    modifies cli`Output, cli`LastError
    ensures cli.Valid() && Step(r, cli.Snap()) == ParseSpec(cli.Cfg(), old(cli.Snap()))
  {
    var found := CheckForEol(cli, false);
    if !found {
      return Ok;
    }
    if cli.PendingBytes == |cli.Eol| {
      PromptAlone(cli);
      return Ok;
    }
    r := HandleLines(cli);
  }

  /** A lone EOL: the prompt again and an empty buffer. */
  method PromptAlone(cli: Cli)
    requires cli.Valid()
    modifies cli.RxBuffer, cli`PendingBytes, cli`Output, cli`LastError
    ensures cli.Valid() && cli.Snap() == Cleared(cli.Cfg(), old(cli.Snap()).(output := old(cli.Output) + PromptOutput(cli.Cfg())))
  {
    SendPrompt(cli);
    ClearBuffer(cli);
  }

  /** The buffer split into its command lines, and each handled. */
  method HandleLines(cli: Cli) returns (r: int)
    requires cli.Valid()
    modifies cli.RxBuffer, cli`PendingBytes, cli`State, cli`Transitions, cli`Calls, cli`AuthScopes
    modifies cli`Output, cli`LastError
    ensures cli.Valid()
    ensures var c := SplitSpec(cli.Cfg(), old(cli.Snap()));
      Step(r, cli.Snap()) == ParseLoop(cli.Cfg(), old(cli.Snap()).(buf := c.buf), c.count, Ok)
  {
    var n := SplitLines(cli);
    r := HandleCommands(cli, n);
  }

  /** Bricli_SplitOnEol on the handle, as a change of the buffer alone. */
  method SplitLines(cli: Cli) returns (n: nat)
    requires cli.Valid()
    modifies cli.RxBuffer
    ensures cli.Valid()
    ensures var c := SplitSpec(cli.Cfg(), old(cli.Snap()));
      n == c.count && cli.Snap() == old(cli.Snap()).(buf := c.buf)
  {
    ghost var cfg, s := cli.Cfg(), cli.Snap();
    n := SplitOnEol(cli);
    assert cli.Snap() == s.(buf := SplitSpec(cfg, s).buf);
  }

  /** Bricli_Reset. */
  method Reset(cli: Cli)
    requires cli.Valid()
    modifies cli.RxBuffer, cli`PendingBytes, cli`State, cli`Transitions
    ensures cli.Valid() && cli.Snap() == Moved(cli.Cfg(), Cleared(cli.Cfg(), old(cli.Snap())), Idle)
  {
    ClearBuffer(cli);
    ChangeState(cli, Idle);
  }
}
