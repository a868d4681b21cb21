/**
 * Bricli_Init (source/bricli.c:451-527): the settings are validated, and a
 * zeroed handle takes the receive buffer, the tables, the callbacks and
 * the flags from them, with "\n" and ">> " standing in for a missing EOL
 * and prompt.
 */
module Setup {
  import opened Optional
  import opened Errors
  import opened Handle

  /**
   * BricliInit_t (Include/bricli/handle.h:42-54). A NULL pointer is None;
   * the command list is given without its NULL-named terminator, so an
   * empty list stands for one whose first entry has a NULL name.
   */
  datatype Settings = Settings(
    authList: Option<seq<AuthEntry>>,
    eol: Option<string>,
    sendEol: Option<string>,
    prompt: Option<string>,
    bspWrite: Option<(nat, string) -> int>,
    rxBuffer: Option<array<char>>,
    rxBufferSize: nat,
    commandList: Option<seq<Command>>,
    notify: bool,
    echo: bool)

  /** Whether the settings name a buffer, a non-empty command list and a write function. */
  predicate Complete(st: Settings) {
    st.rxBuffer.Some? && st.rxBufferSize > 0 && st.commandList.Some? && |st.commandList.value| > 0 &&
    st.bspWrite.Some?
  }

  /** The checks of Bricli_Init, in its order. */
  function InitCheck(settings: Option<Settings>): (r: int)
    ensures r == Ok || r == BadParameter
  {
    match settings
    case None => BadParameter
    case Some(st) =>
      if st.rxBuffer.None? || st.rxBufferSize == 0 then BadParameter
      else if st.commandList.None? || |st.commandList.value| == 0 then BadParameter
      else if st.bspWrite.None? then BadParameter
      else Ok
  }

  /** Init succeeds exactly when settings are given and complete. */
  lemma InitCheckOk(settings: Option<Settings>)
    ensures InitCheck(settings) == Ok <==> settings.Some? && Complete(settings.value)
  {
  }

  /**
   * The configuration Init copies from complete settings. SendEol is not
   * among the fields copied, so it stays NULL.
   */
  function InitConfig(st: Settings): (cfg: Config)
    requires Complete(st)
    ensures cfg.size == st.rxBufferSize && cfg.commands == st.commandList.value
    ensures cfg.authList == st.authList && cfg.bspWrite == st.bspWrite
    ensures cfg.notify == st.notify && cfg.echo == st.echo
  {
    Config(st.rxBufferSize,
           if st.eol.Some? then st.eol.value else DefaultEol,
           None,
           Some(if st.prompt.Some? then st.prompt.value else DefaultPrompt),
           st.commandList.value, st.authList, st.notify, st.echo, st.bspWrite)
  }

  /** What the caller's strings and tables satisfy: C strings hold no NUL. */
  predicate StringsWellFormed(st: Settings) {
    (st.eol.Some? ==> IsCString(st.eol.value)) &&
    (st.sendEol.Some? ==> IsCString(st.sendEol.value)) &&
    (st.prompt.Some? ==> IsCString(st.prompt.value)) &&
    (st.commandList.Some? ==> CommandsWellFormed(st.commandList.value)) &&
    (st.authList.Some? ==> AuthWellFormed(st.authList.value))
  }

  /**
   * The receive buffer as the model holds it: RxBufferSize cells and one
   * more, always NUL, where the C string searches stop.
   */
  predicate BufferShaped(st: Settings)
    reads if st.rxBuffer.Some? then {st.rxBuffer.value} else {}
  {
    st.rxBuffer.Some? ==>
      st.rxBuffer.value.Length == st.rxBufferSize + 1 && st.rxBuffer.value[st.rxBufferSize] == '\0'
  }

  /** Output lines end with the receive EOL, or "\n" when none was given, whatever SendEol the settings carry. */
  lemma InitLineEnd(st: Settings)
    requires Complete(st)
    ensures LineEnd(InitConfig(st)) == if st.eol.Some? then st.eol.value else "\n"
  {
  }

  /** A handle built from complete, well-formed settings is one the engine accepts. */
  lemma InitConfigValid(st: Settings)
    requires Complete(st) && StringsWellFormed(st)
    ensures ConfigValid(InitConfig(st))
    ensures InitConfig(st).prompt == Some(if st.prompt.Some? then st.prompt.value else ">> ")
  {
    assert IsCString(DefaultEol) && IsCString(DefaultPrompt);
  }

  /**
   * Bricli_Init. The handle is allocated here rather than passed in, and
   * is null exactly when the settings are refused. A successful Init
   * leaves the buffer's contents as they were: only PendingBytes is reset.
   */
  method Init(settings: Option<Settings>) returns (r: int, cli: Cli?)
    requires settings.Some? ==> StringsWellFormed(settings.value) && BufferShaped(settings.value)
    ensures r == InitCheck(settings) && (r == Ok <==> cli != null)
    ensures cli != null ==>
      fresh(cli) && cli.Valid() && cli.Cfg() == InitConfig(settings.value) &&
      cli.Snap() == Snapshot(settings.value.rxBuffer.value[..], 0, Idle, ScopeAll, ErrorNone, [], [], [])
  {
    if settings.None? {
      return BadParameter, null;
    }
    var st := settings.value;
    if st.rxBuffer.None? || st.rxBufferSize == 0 {
      return BadParameter, null;
    }
    if st.commandList.None? || |st.commandList.value| == 0 {
      return BadParameter, null;
    }
    if st.bspWrite.None? {
      return BadParameter, null;
    }
    var eol := if st.eol.Some? then st.eol.value else DefaultEol;
    var prompt := if st.prompt.Some? then st.prompt.value else DefaultPrompt;
    cli := new Cli(st.rxBuffer.value, st.rxBufferSize, eol, prompt, st.commandList.value, st.authList,
                   st.notify, st.echo, st.bspWrite);
    InitConfigValid(st);
    r := Ok;
  }
}
