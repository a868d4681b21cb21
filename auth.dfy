/**
 * The authorisation gate and the four built-in system commands
 * (source/bricli.c:197-445, 1053-1056): help, clear, login and logout.
 *
 * Each handler is specified by a function from the handle's configuration
 * and snapshot to the code it returns and the snapshot it leaves; the
 * methods run the source's loops and are proved against those functions.
 */
module Auth {
  import opened Optional
  import opened Errors
  import opened Handle
  import opened Writer
  import opened Receiver

  // ----- Scopes -----

  /** Bricli_IsCommandInScope: public commands always, the others when one of their scopes is granted. */
  function InScope(required: bv32, scopes: bv32): bool {
    required == ScopeAll || scopes & required != 0
  }

  /** With no login in force exactly the public commands are in scope. */
  lemma LoggedOutSeesPublicOnly(required: bv32)
    ensures InScope(required, ScopeAll) <==> required == ScopeAll
  {
  }

  /** Granting more scopes never hides a command. */
  lemma MoreScopesSeeMore(required: bv32, granted: bv32, wider: bv32)
    requires granted & wider == granted
    ensures InScope(required, granted) ==> InScope(required, wider)
  {
  }

  // ----- Lookups by name -----

  /** The first entry from `from` on equal to `name`: where a strcmp scan of a table stops. */
  function FirstIndex(names: seq<string>, name: string, from: nat): (r: Option<nat>)
    requires from <= |names|
    ensures r.Some? ==> from <= r.value < |names| && names[r.value] == name
    ensures r.Some? ==> forall j :: from <= j < r.value ==> names[j] != name
    ensures r.None? ==> forall j :: from <= j < |names| ==> names[j] != name
    decreases |names| - from
  {
    if from == |names| then None
    else if names[from] == name then Some(from)
    else FirstIndex(names, name, from + 1)
  }

  function Names(cmds: seq<Command>): (names: seq<string>)
    ensures |names| == |cmds| && forall k :: 0 <= k < |cmds| ==> names[k] == cmds[k].Name
  {
    if cmds == [] then [] else Names(cmds[..|cmds| - 1]) + [cmds[|cmds| - 1].Name]
  }

  function Usernames(list: seq<AuthEntry>): (names: seq<string>)
    ensures |names| == |list| && forall k :: 0 <= k < |list| ==> names[k] == list[k].Username
  {
    if list == [] then [] else Usernames(list[..|list| - 1]) + [list[|list| - 1].Username]
  }

  /** An entry that matches with no match before it is the one FirstIndex finds. */
  lemma FirstIndexIs(names: seq<string>, name: string, k: nat)
    requires k < |names| && names[k] == name
    requires forall j :: 0 <= j < k ==> names[j] != name
    ensures FirstIndex(names, name, 0) == Some(k)
  {
  }

  // ----- help -----

  /** The system command table (source/bricli.c:246-253), without its NULL terminator. */
  const SystemNames: seq<string> := ["help", "clear", "login", "logout"]
  const SystemHelp: seq<string> :=
    ["Displays this help message", "Clears the terminal", "Login to the terminal", "Logout from the terminal"]

  /** "%s - %s%s" for system command k. */
  function SystemHelpLine(k: nat, eol: string): string
    requires k < |SystemNames|
  {
    SystemNames[k] + " - " + SystemHelp[k] + eol
  }

  function SystemLines(eol: string): (lines: seq<string>)
    ensures |lines| == |SystemNames| && forall k :: 0 <= k < |SystemNames| ==> lines[k] == SystemHelpLine(k, eol)
  {
    [SystemHelpLine(0, eol), SystemHelpLine(1, eol), SystemHelpLine(2, eol), SystemHelpLine(3, eol)]
  }

  /** "%s%s" without a help message, "%s - %s%s" with one. */
  function UserHelpLine(c: Command, eol: string): string {
    if c.HelpMessage.None? then c.Name + eol
    else c.Name + " - " + c.HelpMessage.value + eol
  }

  /** The commands of the table in scope under `scopes`, in table order. */
  function Visible(cmds: seq<Command>, scopes: bv32): seq<Command> {
    if cmds == [] then []
    else
      var c := cmds[|cmds| - 1];
      Visible(cmds[..|cmds| - 1], scopes) + (if InScope(c.AuthScopesRequired, scopes) then [c] else [])
  }

  /** The help lines of `cmds`, in order. */
  function UserLines(cmds: seq<Command>, eol: string): seq<string> {
    if cmds == [] then [] else UserLines(cmds[..|cmds| - 1], eol) + [UserHelpLine(cmds[|cmds| - 1], eol)]
  }

  /** Line k of the listing is the help line of command k. */
  lemma {:induction false} UserLinesAt(cmds: seq<Command>, eol: string)
    ensures var lines := UserLines(cmds, eol);
      |lines| == |cmds| && forall k :: 0 <= k < |cmds| ==> lines[k] == UserHelpLine(cmds[k], eol)
    decreases |cmds|
  {
    if cmds != [] {
      var init := cmds[..|cmds| - 1];
      UserLinesAt(init, eol);
      var lines := UserLines(cmds, eol);
      assert lines == UserLines(init, eol) + [UserHelpLine(cmds[|cmds| - 1], eol)];
      forall k | 0 <= k < |cmds| ensures lines[k] == UserHelpLine(cmds[k], eol) {
        if k < |init| {
          assert cmds[k] == init[k];
        }
      }
    }
  }

  /** The messages the help handler formats: the four system lines, then one per command in scope. */
  function HelpLines(cfg: Config, scopes: bv32): seq<string> {
    SystemLines(LineEnd(cfg)) + UserLines(Visible(cfg.commands, scopes), LineEnd(cfg))
  }

  /** What the help handler prints for one user command: its line when it is in scope. */
  function Listing(cfg: Config, c: Command, scopes: bv32, eol: string): seq<string> {
    if InScope(c.AuthScopesRequired, scopes) then Printed(cfg, UserHelpLine(c, eol)) else []
  }

  /** The output of one PrintF per message, in order. */
  function PrintedAll(cfg: Config, messages: seq<string>): seq<string> {
    if messages == [] then []
    else PrintedAll(cfg, messages[..|messages| - 1]) + Printed(cfg, messages[|messages| - 1])
  }

  /** The help handler: the help lines printed, code Ok. */
  function HelpSpec(cfg: Config, s: Snapshot): Step {
    Step(Ok, s.(output := s.output + PrintedAll(cfg, HelpLines(cfg, s.scopes))))
  }

  /** A command is listed exactly when it is in the table and in scope. */
  lemma {:induction false} VisibleIff(cmds: seq<Command>, scopes: bv32, c: Command)
    ensures c in Visible(cmds, scopes) <==> c in cmds && InScope(c.AuthScopesRequired, scopes)
    decreases |cmds|
  {
    if cmds != [] {
      var init := cmds[..|cmds| - 1];
      VisibleIff(init, scopes, c);
      assert cmds == init + [cmds[|cmds| - 1]];
    }
  }

  lemma {:induction false} PrintedAllAppend(cfg: Config, a: seq<string>, b: seq<string>)
    ensures PrintedAll(cfg, a + b) == PrintedAll(cfg, a) + PrintedAll(cfg, b)
    decreases |b|
  {
    if b != [] {
      var init := b[..|b| - 1];
      assert (a + b)[..|a + b| - 1] == a + init;
      PrintedAllAppend(cfg, a, init);
    } else {
      assert a + b == a;
    }
  }

  /** With a BSP callback and every message non-empty and under 80 bytes, each message is written as it is. */
  lemma {:induction false} PrintedAllFits(cfg: Config, messages: seq<string>)
    requires cfg.bspWrite.Some?
    requires forall k :: 0 <= k < |messages| ==> 0 < |messages[k]| < PrintMessageSize
    ensures PrintedAll(cfg, messages) == messages
    decreases |messages|
  {
    if messages != [] {
      var init := messages[..|messages| - 1];
      PrintedAllFits(cfg, init);
      assert messages == init + [messages[|messages| - 1]];
    }
  }

  /**
   * The help listing: four system lines first, then one line for each
   * command in scope and for no other, in table order.
   */
  lemma HelpListsInScope(cfg: Config, scopes: bv32, c: Command)
    ensures var lines := HelpLines(cfg, scopes);
      |lines| == |SystemNames| + |Visible(cfg.commands, scopes)| &&
      lines[..|SystemNames|] == SystemLines(LineEnd(cfg)) &&
      (c in cfg.commands && InScope(c.AuthScopesRequired, scopes) ==> UserHelpLine(c, LineEnd(cfg)) in lines)
  {
    var lines := HelpLines(cfg, scopes);
    UserLinesAt(Visible(cfg.commands, scopes), LineEnd(cfg));
    assert lines[..|SystemNames|] == SystemLines(LineEnd(cfg));
    if c in cfg.commands && InScope(c.AuthScopesRequired, scopes) {
      VisibleIff(cfg.commands, scopes, c);
      ListedAt(cfg, scopes, c);
    }
  }

  /** A command in the listing has its line after the system lines. */
  lemma ListedAt(cfg: Config, scopes: bv32, c: Command)
    requires c in Visible(cfg.commands, scopes)
    ensures UserHelpLine(c, LineEnd(cfg)) in HelpLines(cfg, scopes)
  {
    var vis := Visible(cfg.commands, scopes);
    var i :| 0 <= i < |vis| && vis[i] == c;
    UserLinesAt(vis, LineEnd(cfg));
    assert HelpLines(cfg, scopes)[|SystemNames| + i] == UserHelpLine(c, LineEnd(cfg));
  }

  /** One more system line printed. */
  lemma HelpSystemStep(cfg: Config, eol: string, k: nat)
    requires k < |SystemNames|
    ensures PrintedAll(cfg, SystemLines(eol)[..k + 1]) ==
      PrintedAll(cfg, SystemLines(eol)[..k]) + Printed(cfg, SystemHelpLine(k, eol))
  {
    var lines := SystemLines(eol)[..k + 1];
    assert lines[..|lines| - 1] == SystemLines(eol)[..k];
  }

  lemma VisibleSnoc(cmds: seq<Command>, scopes: bv32, i: nat)
    requires i < |cmds|
    ensures Visible(cmds[..i + 1], scopes) ==
      Visible(cmds[..i], scopes) + (if InScope(cmds[i].AuthScopesRequired, scopes) then [cmds[i]] else [])
  {
    assert cmds[..i + 1][..i] == cmds[..i];
  }

  lemma UserLinesSnoc(cmds: seq<Command>, c: Command, eol: string)
    ensures UserLines(cmds + [c], eol) == UserLines(cmds, eol) + [UserHelpLine(c, eol)]
  {
  }

  lemma PrintedAllSnoc(cfg: Config, messages: seq<string>, m: string)
    ensures PrintedAll(cfg, messages + [m]) == PrintedAll(cfg, messages) + Printed(cfg, m)
  {
    assert (messages + [m])[..|messages|] == messages;
  }

  /** One more table entry considered: its line is printed when it is in scope. */
  lemma HelpUserStep(cfg: Config, cmds: seq<Command>, scopes: bv32, eol: string, i: nat, o: seq<string>)
    requires i < |cmds|
    ensures o + PrintedAll(cfg, UserLines(Visible(cmds[..i + 1], scopes), eol)) ==
      o + PrintedAll(cfg, UserLines(Visible(cmds[..i], scopes), eol)) + Listing(cfg, cmds[i], scopes, eol)
  {
    VisibleSnoc(cmds, scopes, i);
    var before := Visible(cmds[..i], scopes);
    if InScope(cmds[i].AuthScopesRequired, scopes) {
      UserLinesSnoc(before, cmds[i], eol);
      PrintedAllSnoc(cfg, UserLines(before, eol), UserHelpLine(cmds[i], eol));
    } else {
      assert before + [] == before;
    }
  }

  /** One line of the system part of the listing. */
  method ListSystemCommand(cli: Cli, k: nat, eol: string)
    requires k < |SystemNames| && cli.BspWrite.Some?
    modifies cli`Output, cli`LastError
    ensures cli.Output == old(cli.Output) + Printed(cli.Cfg(), SystemHelpLine(k, eol))
    ensures cli.LastError == old(cli.LastError)
  {
    var _ := PrintF(cli, SystemHelpLine(k, eol));
  }

  /** One entry of the user table: listed only when its scope is held. */
  method ListCommand(cli: Cli, c: Command, scopes: bv32, eol: string)
    requires cli.BspWrite.Some?
    modifies cli`Output, cli`LastError
    ensures cli.Output == old(cli.Output) + Listing(cli.Cfg(), c, scopes, eol)
    ensures cli.LastError == old(cli.LastError)
  {
    if InScope(c.AuthScopesRequired, scopes) {
      var _ := PrintF(cli, UserHelpLine(c, eol));
    }
  }

  /** The system commands' lines, in table order. */
  method ListSystemCommands(cli: Cli, eol: string)
    requires cli.BspWrite.Some?
    modifies cli`Output, cli`LastError
    ensures cli.Output == old(cli.Output) + PrintedAll(cli.Cfg(), SystemLines(eol))
    ensures cli.LastError == old(cli.LastError)
  {
    ghost var cfg := cli.Cfg();
    var k := 0;
    while k < |SystemNames|
      invariant k <= |SystemNames| && cli.LastError == old(cli.LastError)
      invariant cli.Output == old(cli.Output) + PrintedAll(cfg, SystemLines(eol)[..k])
    {
      HelpSystemStep(cfg, eol, k);
      ListSystemCommand(cli, k, eol);
      k := k + 1;
    }
    assert SystemLines(eol)[..k] == SystemLines(eol);
  }

  /** The user commands in scope, in table order. */
  method ListUserCommands(cli: Cli, cmds: seq<Command>, scopes: bv32, eol: string)
    requires cli.BspWrite.Some?
    modifies cli`Output, cli`LastError
    ensures cli.Output == old(cli.Output) + PrintedAll(cli.Cfg(), UserLines(Visible(cmds, scopes), eol))
    ensures cli.LastError == old(cli.LastError)
  {
    ghost var cfg := cli.Cfg();
    var i := 0;
    while i < |cmds|
      invariant i <= |cmds| && cli.LastError == old(cli.LastError)
      invariant cli.Output == old(cli.Output) + PrintedAll(cfg, UserLines(Visible(cmds[..i], scopes), eol))
    {
      HelpUserStep(cfg, cmds, scopes, eol, i, old(cli.Output));
      ListCommand(cli, cmds[i], scopes, eol);
      i := i + 1;
    }
    assert cmds[..i] == cmds;
  }

  /** The system lines printed, then the user lines, print the help lines. */
  lemma HelpOutput(cfg: Config, scopes: bv32, eol: string, o: seq<string>)
    requires eol == LineEnd(cfg)
    ensures o + PrintedAll(cfg, SystemLines(eol)) + PrintedAll(cfg, UserLines(Visible(cfg.commands, scopes), eol)) ==
      o + PrintedAll(cfg, HelpLines(cfg, scopes))
  {
    PrintedAllAppend(cfg, SystemLines(eol), UserLines(Visible(cfg.commands, scopes), eol));
  }

  /** Bricli_SystemHandlerHelp. */
  method Help(cli: Cli) returns (r: int)
    requires ConfigValid(cli.Cfg())
    modifies cli`Output, cli`LastError
    ensures Step(r, cli.Snap()) == HelpSpec(cli.Cfg(), old(cli.Snap()))
  {
    ghost var before := cli.Snap();
    var eol := if cli.SendEol.None? then cli.Eol else cli.SendEol.value;
    HelpOutput(cli.Cfg(), cli.AuthScopes, eol, cli.Output);
    ListSystemCommands(cli, eol);
    ListUserCommands(cli, cli.CommandList, cli.AuthScopes, eol);
    assert cli.Snap() == before.(output := cli.Output);
    r := Ok;
  }

  /** Bricli_PrintHelp: the help handler with no arguments. */
  method PrintHelp(cli: Cli) returns (r: int)
    requires ConfigValid(cli.Cfg())
    modifies cli`Output, cli`LastError
    ensures Step(r, cli.Snap()) == HelpSpec(cli.Cfg(), old(cli.Snap()))
  {
    r := Help(cli);
  }

  // ----- clear -----

  /** The clear handler: the clear-screen sequence, code Ok. */
  function ClearSpec(cfg: Config, s: Snapshot): Step {
    Step(Ok, s.(output := s.output + Emitted(cfg, [ClearSequence])))
  }

  /** Bricli_SystemHandlerClear. */
  method Clear(cli: Cli) returns (r: int)
    requires ConfigValid(cli.Cfg())
    modifies cli`Output, cli`LastError
    ensures Step(r, cli.Snap()) == ClearSpec(cli.Cfg(), old(cli.Snap()))
  {
    ClearScreen(cli);
    r := Ok;
  }

  // ----- login and logout -----

  const LoginUsage: string := "ERROR: login requires 2 arguments!"
  const NoProvider: string := "ERROR: No authentication provider registered"
  const InvalidLogin: string := "ERROR: Invalid username or password"
  const LoggedOut: string := "Logged out of session\n"
  const NoSession: string := "No active login session found\n"

  lemma LoginMessagesAreCStrings()
    ensures IsCString(LoginUsage) && IsCString(NoProvider)
  {
  }

  lemma RefusalIsCString()
    ensures IsCString(InvalidLogin) && IsCString(TextRed)
  {
  }

  lemma LogoutMessagesAreCStrings()
    ensures IsCString(LoggedOut) && IsCString(NoSession)
  {
  }

  /** A red error line: what Bricli_WriteStringColouredLine with BricliTextRed writes. */
  function Said(cfg: Config, s: Snapshot, message: string): Snapshot {
    s.(output := s.output + Emitted(cfg, [TextRed, message, LineEnd(cfg), ColourReset]))
  }

  /**
   * The login handler: the first entry whose username is args[0] decides;
   * its password admits the user with that entry's scopes, any other
   * password is refused without looking further.
   */
  function LoginSpec(cfg: Config, s: Snapshot, args: seq<string>): Step {
    if |args| < 2 then Step(-1, Said(cfg, s, LoginUsage))
    else if cfg.authList.None? then Step(-1, Said(cfg, s, NoProvider))
    else
      var list := cfg.authList.value;
      match FirstIndex(Usernames(list), args[0], 0)
      case Some(i) =>
        if list[i].Password == args[1] then
          Step(Ok, s.(scopes := list[i].Scopes,
                      output := s.output + Printed(cfg, "Logged in as " + list[i].Username + LineEnd(cfg))))
        else Step(-2, Said(cfg, s, InvalidLogin))
      case None => Step(-2, Said(cfg, s, InvalidLogin))
  }

  /** Bricli_SystemHandlerLogin. */
  method Login(cli: Cli, args: seq<string>) returns (r: int)
    requires ConfigValid(cli.Cfg())
    modifies cli`AuthScopes, cli`Output, cli`LastError
    ensures Step(r, cli.Snap()) == LoginSpec(cli.Cfg(), old(cli.Snap()), args)
  {
    LoginMessagesAreCStrings();
    RefusalIsCString();
    if |args| < 2 {
      Complain(cli, LoginUsage);
      return -1;
    }
    if cli.AuthList.None? {
      Complain(cli, NoProvider);
      return -1;
    }
    var list := cli.AuthList.value;
    var i := FindUser(list, args[0]);
    if i.Some? && list[i.value].Password == args[1] {
      Admit(cli, list[i.value]);
      return Ok;
    }
    Complain(cli, InvalidLogin);
    r := -2;
  }

  /** The scan of the authentication list, which stops at the first entry with the username. */
  method FindUser(list: seq<AuthEntry>, user: string) returns (i: Option<nat>)
    ensures i == FirstIndex(Usernames(list), user, 0)
  {
    var k := 0;
    while k < |list|
      invariant k <= |list| && FirstIndex(Usernames(list), user, k) == FirstIndex(Usernames(list), user, 0)
    {
      if list[k].Username == user {
        return Some(k);
      }
      k := k + 1;
    }
    return None;
  }

  /** A successful login: the entry's scopes granted and the greeting printed. */
  method Admit(cli: Cli, entry: AuthEntry)
    modifies cli`AuthScopes, cli`Output, cli`LastError
    requires ConfigValid(cli.Cfg())
    ensures cli.Snap() == old(cli.Snap()).(scopes := entry.Scopes,
      output := old(cli.Output) + Printed(cli.Cfg(), "Logged in as " + entry.Username + LineEnd(cli.Cfg())))
  {
    cli.AuthScopes := entry.Scopes;
    var eol := if cli.SendEol.None? then cli.Eol else cli.SendEol.value;
    var _ := PrintF(cli, "Logged in as " + entry.Username + eol);
  }

  /** A refusal of the login handler: a red line. */
  method Complain(cli: Cli, message: string)
    requires ConfigValid(cli.Cfg()) && IsCString(message)
    modifies cli`Output, cli`LastError
    ensures cli.Snap() == Said(cli.Cfg(), old(cli.Snap()), message)
  {
    RefusalIsCString();
    var _ := WriteStringColouredLine(cli, message, TextRed);
  }

  /** The logout handler: any login is dropped; the code is always Ok. */
  function LogoutSpec(cfg: Config, s: Snapshot): Step {
    if s.scopes != ScopeAll then Step(Ok, s.(scopes := ScopeAll, output := s.output + Emitted(cfg, [LoggedOut])))
    else Step(Ok, s.(output := s.output + Emitted(cfg, [NoSession])))
  }

  /** Bricli_SystemHandlerLogout. */
  method Logout(cli: Cli) returns (r: int)
    requires ConfigValid(cli.Cfg())
    modifies cli`AuthScopes, cli`Output, cli`LastError
    ensures Step(r, cli.Snap()) == LogoutSpec(cli.Cfg(), old(cli.Snap()))
  {
    LogoutMessagesAreCStrings();
    if cli.AuthScopes != ScopeAll {
      cli.AuthScopes := ScopeAll;
      var _ := WriteString(cli, LoggedOut);
    } else {
      var _ := WriteString(cli, NoSession);
    }
    r := Ok;
  }

  // ----- What login and logout promise -----

  /**
   * Login returns 0, -1 or -2; -1 exactly when there are fewer than two
   * arguments or no authentication list; only a 0 changes the scopes.
   */
  lemma LoginCodes(cfg: Config, s: Snapshot, args: seq<string>)
    ensures var r := LoginSpec(cfg, s, args);
      (r.code == Ok || r.code == -1 || r.code == -2) &&
      (r.code == -1 <==> |args| < 2 || cfg.authList.None?) &&
      (r.code != Ok ==> r.after.scopes == s.scopes) &&
      r.after.buf == s.buf && r.after.pending == s.pending
  {
  }

  /** A successful login used a listed username with its password and grants that entry's scopes. */
  lemma LoginSound(cfg: Config, s: Snapshot, args: seq<string>)
    requires LoginSpec(cfg, s, args).code == Ok
    ensures |args| >= 2 && cfg.authList.Some?
    ensures var list := cfg.authList.value;
      exists i :: 0 <= i < |list| && list[i].Username == args[0] && list[i].Password == args[1] &&
        LoginSpec(cfg, s, args).after.scopes == list[i].Scopes
  {
    var list := cfg.authList.value;
    var i := FirstIndex(Usernames(list), args[0], 0).value;
    assert list[i].Username == args[0];
  }

  /**
   * The first entry with the username decides: its password logs in with
   * its scopes, and any other password is refused with the same line as
   * an unknown user, even when a later entry would match both.
   */
  lemma FirstEntryDecides(cfg: Config, s: Snapshot, user: string, pass: string, i: nat)
    requires cfg.authList.Some? && i < |cfg.authList.value|
    requires cfg.authList.value[i].Username == user
    requires forall j :: 0 <= j < i ==> cfg.authList.value[j].Username != user
    ensures var r := LoginSpec(cfg, s, [user, pass]);
      var e := cfg.authList.value[i];
      (e.Password == pass ==> r.code == Ok && r.after.scopes == e.Scopes) &&
      (e.Password != pass ==> r.code == -2 && r.after == Said(cfg, s, InvalidLogin))
  {
    FirstIndexIs(Usernames(cfg.authList.value), user, i);
  }

  /**
   * A login whose entry grants only the user scope puts the user commands
   * in scope and keeps the admin-only ones out; one granting both scopes,
   * as the authentication example's admin entry does, sees both.
   */
  lemma LoginGrantsScope(cfg: Config, s: Snapshot, user: string, pass: string, i: nat)
    requires cfg.authList.Some? && i < |cfg.authList.value|
    requires cfg.authList.value[i].Username == user && cfg.authList.value[i].Password == pass
    requires forall j :: 0 <= j < i ==> cfg.authList.value[j].Username != user
    ensures var r := LoginSpec(cfg, s, [user, pass]);
      var granted := cfg.authList.value[i].Scopes;
      r.code == Ok &&
      (granted == ScopeUser ==> InScope(ScopeUser, r.after.scopes) && !InScope(ScopeAdmin, r.after.scopes)) &&
      (granted == ScopeUser | ScopeAdmin ==> InScope(ScopeUser, r.after.scopes) && InScope(ScopeAdmin, r.after.scopes))
  {
    FirstEntryDecides(cfg, s, user, pass, i);
  }

  /** An unknown username is refused with the same line as a wrong password. */
  lemma UnknownUserRefused(cfg: Config, s: Snapshot, user: string, pass: string)
    requires cfg.authList.Some?
    requires forall j :: 0 <= j < |cfg.authList.value| ==> cfg.authList.value[j].Username != user
    ensures LoginSpec(cfg, s, [user, pass]) == Step(-2, Said(cfg, s, InvalidLogin))
  {
  }

  /** After logout no login is in force and only public commands are in scope. */
  lemma LogoutDropsLogin(cfg: Config, s: Snapshot, required: bv32)
    ensures var r := LogoutSpec(cfg, s);
      r.code == Ok && r.after.scopes == ScopeAll &&
      (InScope(required, r.after.scopes) <==> required == ScopeAll) &&
      r.after.output == s.output + Emitted(cfg, [if s.scopes != ScopeAll then LoggedOut else NoSession])
  {
  }
}
