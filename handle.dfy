/**
 * The CLI handle: its configuration, the tables it dispatches on, and the
 * mutable state the engine updates in place (Include/bricli/handle.h,
 * Include/bricli/command.h, include/bricli/auth.h, config/bricli_config.h).
 *
 * Everything the engine hands to the outside world is recorded in ghost
 * traces on the handle: the strings passed to the BSP write callback, the
 * (old, new) pairs passed to the state-change callback, and the calls of
 * user command handlers.
 */
module Handle {
  import opened Optional
  import opened Errors
  import opened CStrings

  // Build-time configuration (config/bricli_config.h).
  const ArgumentBufferLen: nat := 70
  const MaxArguments: nat := 3
  const MaxCommandLen: nat := 10
  const PrintMessageSize: nat := 80
  const DefaultEol: string := "\n"
  const DefaultPrompt: string := ">> "

  // Authorisation scopes (include/bricli/auth.h).
  const ScopeAll: bv32 := 0
  const ScopeUser: bv32 := 2
  const ScopeAdmin: bv32 := 4

  datatype State = Idle | Parsing | HandlerRunning | Finished

  /**
   * A user command. The handler is an external callback; the model knows it
   * only by the value it returns for a given argument count and arguments.
   * A NULL help message is None.
   */
  datatype Command = Command(
    Name: string,
    Handler: (nat, seq<string>) -> int,
    HelpMessage: Option<string>,
    AuthScopesRequired: bv32)

  datatype AuthEntry = AuthEntry(Username: string, Password: string, Scopes: bv32)

  /** One invocation of a user command handler. */
  datatype HandlerCall = HandlerCall(name: string, argc: nat, argv: seq<string>)

  /** A C string held as a Dafny string: it cannot contain the terminator. */
  predicate IsCString(w: string) {
    NUL !in w
  }

  predicate CommandsWellFormed(cmds: seq<Command>) {
    forall k :: 0 <= k < |cmds| ==>
      IsCString(cmds[k].Name) &&
      (cmds[k].HelpMessage.Some? ==> IsCString(cmds[k].HelpMessage.value))
  }

  predicate AuthWellFormed(list: seq<AuthEntry>) {
    forall k :: 0 <= k < |list| ==> IsCString(list[k].Username) && IsCString(list[k].Password)
  }

  /** The part of the handle that the engine reads but never changes. */
  datatype Config = Config(
    size: nat,
    eol: string,
    sendEol: Option<string>,
    prompt: Option<string>,
    commands: seq<Command>,
    authList: Option<seq<AuthEntry>>,
    notify: bool,
    echo: bool,
    bspWrite: Option<(nat, string) -> int>)

  /** The part of the handle that the engine changes, with the ghost traces. */
  datatype Snapshot = Snapshot(
    buf: seq<char>,
    pending: nat,
    state: State,
    scopes: bv32,
    lastError: LastError,
    output: seq<string>,
    transitions: seq<(State, State)>,
    calls: seq<HandlerCall>)

  /**
   * What a handle produced by Init satisfies. The receive buffer has one cell
   * more than RxBufferSize, always NUL, so that every C string search on it
   * stops inside the array.
   */
  predicate ConfigValid(cfg: Config) {
    cfg.size > 0 && IsCString(cfg.eol) &&
    (cfg.sendEol.Some? ==> IsCString(cfg.sendEol.value)) &&
    (cfg.prompt.Some? ==> IsCString(cfg.prompt.value)) &&
    CommandsWellFormed(cfg.commands) &&
    (cfg.authList.Some? ==> AuthWellFormed(cfg.authList.value)) &&
    cfg.bspWrite.Some?
  }

  predicate BufferValid(cfg: Config, s: Snapshot) {
    |s.buf| == cfg.size + 1 && s.buf[cfg.size] == NUL && s.pending <= cfg.size
  }

  predicate Good(cfg: Config, s: Snapshot) {
    ConfigValid(cfg) && BufferValid(cfg, s)
  }

  /** The line terminator used for output: SendEol when set, else Eol. */
  function LineEnd(cfg: Config): string {
    if cfg.sendEol.Some? then cfg.sendEol.value else cfg.eol
  }

  /** What one write of `w` returns: the BSP callback's result, or BadHandle without one. */
  function Sent(cfg: Config, w: string): int {
    if cfg.bspWrite.Some? then cfg.bspWrite.value(|w|, w) else BadHandle
  }

  /** The strings a sequence of writes adds to the output: none without a BSP callback. */
  function Emitted(cfg: Config, parts: seq<string>): seq<string> {
    if cfg.bspWrite.Some? then parts else []
  }

  /** The notifications a move to `next` produces. */
  function Notified(cfg: Config, current: State, next: State): seq<(State, State)> {
    if cfg.notify then [(current, next)] else []
  }

  class Cli {
    var AuthList: Option<seq<AuthEntry>>
    var AuthScopes: bv32
    var BspWrite: Option<(nat, string) -> int>
    var CommandList: seq<Command>
    var Eol: string
    var LastError: LastError
    var LocalEcho: bool
    var PendingBytes: nat
    var Prompt: Option<string>
    const RxBuffer: array<char>
    const RxBufferSize: nat
    var SendEol: Option<string>
    var State: State
    var OnStateChanged: bool

    /** Every string passed to the BSP write callback, in order. */
    ghost var Output: seq<string>
    /** Every (old, new) pair passed to the state-change callback, in order. */
    ghost var Transitions: seq<(State, State)>
    /** Every user command handler invocation, in order. */
    ghost var Calls: seq<HandlerCall>

    ghost function Cfg(): Config
      reads this`Eol, this`SendEol, this`Prompt, this`CommandList, this`AuthList
      reads this`OnStateChanged, this`LocalEcho, this`BspWrite
    {
      Config(RxBufferSize, Eol, SendEol, Prompt, CommandList, AuthList, OnStateChanged, LocalEcho, BspWrite)
    }

    ghost function Snap(): Snapshot
      reads this`PendingBytes, this`State, this`AuthScopes, this`LastError
      reads this`Output, this`Transitions, this`Calls, RxBuffer
    {
      Snapshot(RxBuffer[..], PendingBytes, State, AuthScopes, LastError, Output, Transitions, Calls)
    }

    ghost predicate Valid()
      reads this`Eol, this`SendEol, this`Prompt, this`CommandList, this`AuthList
      reads this`OnStateChanged, this`LocalEcho, this`BspWrite
      reads this`PendingBytes, this`State, this`AuthScopes, this`LastError
      reads this`Output, this`Transitions, this`Calls, RxBuffer
    {
      Good(Cfg(), Snap())
    }

    /**
     * A zeroed handle over `buffer` that then takes the given EOL, prompt,
     * tables, callbacks and flags; SendEol stays NULL.
     */
    constructor (buffer: array<char>, size: nat, eol: string, prompt: string, commands: seq<Command>,
                 authList: Option<seq<AuthEntry>>, notify: bool, echo: bool, bspWrite: Option<(nat, string) -> int>)
      requires buffer.Length == size + 1
      ensures RxBuffer == buffer
      ensures Cfg() == Config(size, eol, None, Some(prompt), commands, authList, notify, echo, bspWrite)
      ensures Snap() == Snapshot(buffer[..], 0, Idle, ScopeAll, ErrorNone, [], [], [])
    {
      RxBuffer := buffer;
      RxBufferSize := size;
      AuthList := authList;
      AuthScopes := ScopeAll;
      BspWrite := bspWrite;
      CommandList := commands;
      Eol := eol;
      LastError := ErrorNone;
      LocalEcho := echo;
      PendingBytes := 0;
      Prompt := Some(prompt);
      SendEol := None;
      State := Idle;
      OnStateChanged := notify;
      Output := [];
      Transitions := [];
      Calls := [];
    }
  }
}
