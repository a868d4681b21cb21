/**
 * What a dispatch and a Parse call promise, stated over the specification
 * functions of the dispatcher (source/bricli.c:197-214, 626-838): which
 * code comes back, which handler runs, what is written, which state
 * changes are announced, and what happens to the login.
 */
module Outcomes {
  import opened Optional
  import opened Errors
  import opened CStrings
  import opened Handle
  import opened Writer
  import opened Receiver
  import opened Lines
  import opened Tokenizer
  import opened Auth
  import opened Dispatcher

  /** The notifications of a handler run: Parsing to HandlerRunning to Finished. */
  function RunNotices(cfg: Config, from: State): seq<(State, State)> {
    Notified(cfg, from, HandlerRunning) + Notified(cfg, HandlerRunning, Finished)
  }

  // ----- One dispatch -----

  /** The system names are distinct, so a system name is found at its own index. */
  lemma SystemIndex(k: nat)
    requires k < |SystemNames|
    ensures FirstIndex(SystemNames, SystemNames[k], 0) == Some(k)
  {
    FirstIndexIs(SystemNames, SystemNames[k], k);
  }

  /**
   * A system command runs whatever the user table holds: the dispatch
   * returns Ok, no user handler is called, the run is announced, and only
   * login and logout can change the scopes.
   */
  lemma SystemCommandRuns(cfg: Config, s: Snapshot, req: Request, k: nat)
    requires Good(cfg, s)
    requires NUL !in req.args && |req.args| <= ArgumentBufferLen
    requires k < |SystemNames| && req.name == SystemNames[k]
    ensures var r := DispatchSpec(cfg, s, req);
      r.code == Ok && r.after.calls == s.calls && r.after.state == Finished &&
      r.after.transitions == s.transitions + RunNotices(cfg, s.state) &&
      s.output <= r.after.output && r.after.buf == s.buf && r.after.pending == s.pending &&
      (r.after.scopes != s.scopes ==> k == 2 || k == 3)
  {
    SystemIndex(k);
    var ex := Parsed(req.args);
    SystemRun(cfg, s, k, Arguments(ex));
  }

  /** What a system handler run leaves unchanged and how it is announced. */
  lemma SystemRun(cfg: Config, s: Snapshot, k: nat, argv: seq<string>)
    requires Good(cfg, s)
    requires k < |SystemNames|
    ensures var r := RunSystemSpec(cfg, s, k, argv);
      r.code == Ok && r.after.calls == s.calls && r.after.state == Finished &&
      r.after.transitions == s.transitions + RunNotices(cfg, s.state) &&
      s.output <= r.after.output && r.after.buf == s.buf && r.after.pending == s.pending &&
      r.after.lastError == s.lastError &&
      (r.after.scopes != s.scopes ==> k == 2 || k == 3)
  {
    HandlerEffects(cfg, Moved(cfg, s, HandlerRunning), k, argv);
  }

  /** A system handler changes at most the output, which it only appends to, and the scopes. */
  lemma HandlerEffects(cfg: Config, s: Snapshot, k: nat, argv: seq<string>)
    requires Good(cfg, s)
    requires k < |SystemNames|
    ensures var h := SystemHandlerSpec(cfg, s, k, argv);
      h.code == Ok || k == 2
    ensures var h := SystemHandlerSpec(cfg, s, k, argv);
      h.after == s.(scopes := h.after.scopes, output := h.after.output) && s.output <= h.after.output &&
      (h.after.scopes != s.scopes ==> k == 2 || k == 3)
  {
    if k == 2 {
      LoginEffects(cfg, s, argv);
    }
  }

  /** The login handler changes at most the output, which it only appends to, and the scopes. */
  lemma LoginEffects(cfg: Config, s: Snapshot, args: seq<string>)
    requires Good(cfg, s)
    ensures var h := LoginSpec(cfg, s, args);
      h.after == s.(scopes := h.after.scopes, output := h.after.output) && s.output <= h.after.output
  {
    if |args| >= 2 && cfg.authList.Some? {
      var list := cfg.authList.value;
      match FirstIndex(Usernames(list), args[0], 0)
      case Some(i) =>
      case None =>
    }
  }

  /**
   * A user command in scope, first of its name in the table, and not
   * shadowed by a system command: its handler is called once with the
   * extracted arguments, its result is returned, and a negative result
   * is reported in red and recorded as a command error.
   */
  lemma UserCommandRuns(cfg: Config, s: Snapshot, req: Request, i: nat)
    requires Good(cfg, s)
    requires NUL !in req.args && |req.args| <= ArgumentBufferLen
    requires req.name !in SystemNames
    requires i < |cfg.commands| && cfg.commands[i].Name == req.name
    requires forall j :: 0 <= j < i ==> cfg.commands[j].Name != req.name
    requires InScope(cfg.commands[i].AuthScopesRequired, s.scopes)
    ensures var r := DispatchSpec(cfg, s, req);
      var ex := Parsed(req.args);
      var c := cfg.commands[i];
      var result := c.Handler(ex.count, Arguments(ex));
      r.code == result && r.after.calls == s.calls + [HandlerCall(c.Name, ex.count, Arguments(ex))] &&
      r.after.state == Finished && r.after.transitions == s.transitions + RunNotices(cfg, s.state) &&
      r.after.scopes == s.scopes &&
      r.after.lastError == (if result < 0 then ErrorCommand else s.lastError) &&
      r.after.output == s.output +
        (if result < 0 then ColouredPrint(cfg, TextRed, ErrorMessage(result, LineEnd(cfg))) else [])
  {
    var ex := Parsed(req.args);
    UserCommandChosen(cfg, s, req, i);
    RunUserEffects(cfg, s, cfg.commands[i], ex.count, Arguments(ex));
  }

  /** The first user command of the name, in scope, is the one run. */
  lemma UserCommandChosen(cfg: Config, s: Snapshot, req: Request, i: nat)
    requires Good(cfg, s)
    requires NUL !in req.args && |req.args| <= ArgumentBufferLen
    requires req.name !in SystemNames
    requires i < |cfg.commands| && cfg.commands[i].Name == req.name
    requires forall j :: 0 <= j < i ==> cfg.commands[j].Name != req.name
    requires InScope(cfg.commands[i].AuthScopesRequired, s.scopes)
    ensures var ex := Parsed(req.args);
      DispatchSpec(cfg, s, req) == RunUserSpec(cfg, s, cfg.commands[i], ex.count, Arguments(ex))
  {
    UserTableDecides(cfg, s, req);
    FirstIndexIs(Names(cfg.commands), req.name, i);
  }

  /** A user handler run, field by field. */
  lemma RunUserEffects(cfg: Config, s: Snapshot, c: Command, argc: nat, argv: seq<string>)
    requires Good(cfg, s)
    ensures var r := RunUserSpec(cfg, s, c, argc, argv);
      var result := c.Handler(argc, argv);
      r.code == result && r.after.calls == s.calls + [HandlerCall(c.Name, argc, argv)] &&
      r.after.state == Finished && r.after.transitions == s.transitions + RunNotices(cfg, s.state) &&
      r.after.scopes == s.scopes && r.after.buf == s.buf && r.after.pending == s.pending &&
      r.after.lastError == (if result < 0 then ErrorCommand else s.lastError) &&
      r.after.output == s.output +
        (if result < 0 then ColouredPrint(cfg, TextRed, ErrorMessage(result, LineEnd(cfg))) else [])
  {
    var running := Moved(cfg, s, HandlerRunning);
    assert running.transitions == s.transitions + Notified(cfg, s.state, HandlerRunning);
  }

  /** A name that is not a system command is looked up in the user table. */
  lemma UserTableDecides(cfg: Config, s: Snapshot, req: Request)
    requires Good(cfg, s)
    requires NUL !in req.args && |req.args| <= ArgumentBufferLen
    requires req.name !in SystemNames
    ensures DispatchSpec(cfg, s, req) == UserDispatchSpec(cfg, s, req.name, Parsed(req.args))
  {
    assert FirstIndex(SystemNames, req.name, 0) == None;
  }

  /**
   * A user command out of scope is refused with Unauthorized and the same
   * line an unknown name gets; its handler is not called, the state is
   * not changed, and the failure is recorded as internal.
   */
  lemma OutOfScopeRefused(cfg: Config, s: Snapshot, req: Request, i: nat)
    requires Good(cfg, s)
    requires NUL !in req.args && |req.args| <= ArgumentBufferLen
    requires req.name !in SystemNames
    requires i < |cfg.commands| && cfg.commands[i].Name == req.name
    requires forall j :: 0 <= j < i ==> cfg.commands[j].Name != req.name
    requires !InScope(cfg.commands[i].AuthScopesRequired, s.scopes)
    ensures DispatchSpec(cfg, s, req) ==
      Step(Unauthorized, s.(lastError := ErrorInternal,
                            output := s.output + Printed(cfg, UnknownMessage(req.name, LineEnd(cfg)))))
  {
    FirstIndexIs(Names(cfg.commands), req.name, i);
    assert FirstIndex(SystemNames, req.name, 0) == None;
  }

  /**
   * A name in neither table: BadCommand, the unknown-command line followed
   * by the help listing for the current scopes, no handler called, the
   * state not changed, and the failure recorded as internal.
   */
  lemma UnknownNameRejected(cfg: Config, s: Snapshot, req: Request)
    requires Good(cfg, s)
    requires NUL !in req.args && |req.args| <= ArgumentBufferLen
    requires req.name !in SystemNames && req.name !in Names(cfg.commands)
    ensures DispatchSpec(cfg, s, req) ==
      Step(BadCommand, s.(lastError := ErrorInternal,
                          output := s.output + Printed(cfg, UnknownMessage(req.name, LineEnd(cfg))) +
                                    PrintedAll(cfg, HelpLines(cfg, s.scopes))))
  {
    assert FirstIndex(SystemNames, req.name, 0) == None;
    assert FirstIndex(Names(cfg.commands), req.name, 0) == None;
  }

  /** The effects of the user-table part of a dispatch, whichever way it goes. */
  lemma UserDispatchEffects(cfg: Config, s: Snapshot, name: string, ex: Extraction)
    requires Good(cfg, s)
    requires Terminated(ex.buf) && forall k :: 0 <= k < |ex.found| ==> ex.found[k] < |ex.buf|
    ensures var r := UserDispatchSpec(cfg, s, name, ex);
      s.output <= r.after.output && r.after.scopes == s.scopes &&
      r.after.buf == s.buf && r.after.pending == s.pending &&
      ((r.after.state == Finished && |r.after.calls| == |s.calls| + 1 && s.calls <= r.after.calls &&
        r.after.transitions == s.transitions + RunNotices(cfg, s.state)) ||
       (r.after.state == s.state && r.after.calls == s.calls && r.after.transitions == s.transitions))
  {
    match FirstIndex(Names(cfg.commands), name, 0)
    case Some(i) =>
      RunUserEffects(cfg, s, cfg.commands[i], ex.count, Arguments(ex));
    case None =>
      var told := s.(output := s.output + Printed(cfg, UnknownMessage(name, LineEnd(cfg))));
      assert s.output <= told.output;
  }

  // ----- One ParseCommand -----

  /**
   * Bricli_ParseCommand moves to Parsing and, when a handler runs, on to
   * HandlerRunning and Finished; at most one user handler is called;
   * output is only appended to; and the scopes change only when the
   * command is login or logout.
   */
  lemma ParseCommandEffects(cfg: Config, s: Snapshot)
    requires Good(cfg, s)
    ensures var r := ParseCommandSpec(cfg, s);
      s.output <= r.after.output && s.calls <= r.after.calls && |r.after.calls| <= |s.calls| + 1 &&
      (r.after.state == Parsing || r.after.state == Finished) &&
      r.after.transitions == s.transitions + Notified(cfg, s.state, Parsing) +
        (if r.after.state == Finished then RunNotices(cfg, Parsing) else []) &&
      (r.after.scopes != s.scopes ==> Requested(s.buf).name == "login" || Requested(s.buf).name == "logout")
  {
    var parsing := Moved(cfg, s, Parsing);
    if s.buf[0] != Esc {
      var req := Requested(s.buf);
      var ex := Parsed(req.args);
      match FirstIndex(SystemNames, req.name, 0)
      case Some(k) =>
        SystemRun(cfg, parsing, k, Arguments(ex));
      case None =>
        UserDispatchEffects(cfg, parsing, req.name, ex);
    }
  }

  // ----- The Parse loop -----

  /** Whether `q` ends with `tail`. */
  predicate EndsWith(q: seq<string>, tail: seq<string>) {
    |tail| <= |q| && q[|q| - |tail|..] == tail
  }

  /** One turn of the loop: back to Idle, output and calls only appended to, at most one call. */
  lemma AdvanceEffects(cfg: Config, s: Snapshot, n: nat)
    requires Good(cfg, s)
    ensures var r := Advance(cfg, s, n);
      r.after.state == Idle && s.output <= r.after.output &&
      s.calls <= r.after.calls && |r.after.calls| <= |s.calls| + 1 &&
      (n == 1 ==> EndsWith(r.after.output, PromptOutput(cfg)))
  {
    ParseCommandEffects(cfg, s);
    var d := ParseCommandSpec(cfg, s);
    var t := Moved(cfg, ClearCommandSpec(cfg, d.after), Idle);
    if n == 1 {
      var o := t.output + PromptOutput(cfg);
      assert o[|o| - |PromptOutput(cfg)|..] == PromptOutput(cfg);
    }
  }

  /**
   * The command loop over n commands: output and calls are only appended
   * to, at most n handlers are called, and when there was a command the
   * loop ends in Idle with the prompt as the last thing written.
   */
  lemma {:induction false} LoopEffects(cfg: Config, s: Snapshot, n: nat, last: int)
    requires Good(cfg, s)
    ensures var r := ParseLoop(cfg, s, n, last);
      s.output <= r.after.output && s.calls <= r.after.calls && |r.after.calls| <= |s.calls| + n &&
      (n == 0 ==> r == Step(last, s)) &&
      (n > 0 ==> r.after.state == Idle && EndsWith(r.after.output, PromptOutput(cfg)))
    decreases n
  {
    if n > 0 {
      var a := Advance(cfg, s, n);
      AdvanceEffects(cfg, s, n);
      TurnTaken(cfg, s, n, a);
      LoopEffects(cfg, a.after, n - 1, a.code);
      var r := ParseLoop(cfg, s, n, last);
      assert r == ParseLoop(cfg, a.after, n - 1, a.code);
      PrefixTransitive(s.output, a.after.output, r.after.output);
      PrefixTransitive(s.calls, a.after.calls, r.after.calls);
    }
  }

  lemma PrefixTransitive<T>(a: seq<T>, b: seq<T>, c: seq<T>)
    requires a <= b && b <= c
    ensures a <= c
  {
    assert c[..|a|] == b[..|a|];
  }

  /**
   * Bricli_Parse: without an EOL nothing changes and Ok comes back; with
   * one, output and calls are only appended to, at most one handler runs
   * per counted command, and when there was a lone EOL or at least one
   * command the prompt is the last thing written; after commands the
   * state is Idle.
   */
  lemma ParseEffects(cfg: Config, s: Snapshot)
    requires Good(cfg, s)
    ensures var r := ParseSpec(cfg, s);
      (FindEol(cfg, s).None? ==> r == Step(Ok, s)) &&
      s.output <= r.after.output && s.calls <= r.after.calls &&
      (FindEol(cfg, s).Some? && s.pending != |cfg.eol| ==> |r.after.calls| <= |s.calls| + SplitSpec(cfg, s).count) &&
      (FindEol(cfg, s).Some? && s.pending == |cfg.eol| ==>
         r.after.calls == s.calls && r.after.pending == 0 && EndsWith(r.after.output, PromptOutput(cfg))) &&
      (FindEol(cfg, s).Some? && s.pending != |cfg.eol| && SplitSpec(cfg, s).count > 0 ==>
         r.after.state == Idle && EndsWith(r.after.output, PromptOutput(cfg)))
  {
    if FindEol(cfg, s).Some? {
      if s.pending == |cfg.eol| {
        var o := s.output + PromptOutput(cfg);
        assert o[|o| - |PromptOutput(cfg)|..] == PromptOutput(cfg);
      } else {
        var c := SplitSpec(cfg, s);
        LoopEffects(cfg, s.(buf := c.buf), c.count, Ok);
      }
    }
  }
}
