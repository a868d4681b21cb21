/**
 * Finding and separating complete command lines in the receive buffer
 * (source/bricli.c:597-618, 849-934): the EOL check uses strstr on the C
 * string at the front of the buffer, the split uses strtok_r with the
 * characters of Eol as delimiters, and a handled command is removed by
 * shifting what follows it to the front.
 */
module Lines {
  import opened Optional
  import opened CStrings
  import opened Handle
  import opened Receiver

  /** Where strstr finds Eol in the C string at the front of the buffer; nothing when no bytes are pending. */
  function FindEol(cfg: Config, s: Snapshot): (r: Option<nat>)
    requires BufferValid(cfg, s)
    ensures r.Some? ==> s.pending > 0 && OccursAt(CStringAt(s.buf, 0), cfg.eol, r.value)
    ensures r.Some? ==> forall k :: 0 <= k < r.value ==> !OccursAt(CStringAt(s.buf, 0), cfg.eol, k)
    ensures r.None? ==> s.pending == 0 || forall k :: !OccursAt(CStringAt(s.buf, 0), cfg.eol, k)
  {
    if s.pending == 0 then None else StrStr(CStringAt(s.buf, 0), cfg.eol, 0)
  }

  /** `buf` with the n cells from i set to NUL. */
  function Blank(buf: seq<char>, i: nat, n: nat): (b: seq<char>)
    requires i + n <= |buf|
    ensures |b| == |buf|
  {
    buf[..i] + Zeros(n) + buf[i + n..]
  }

  /** Replacing the EOL cuts the front command just before it. */
  lemma EolCutsCommand(cfg: Config, s: Snapshot)
    requires Good(cfg, s) && FindEol(cfg, s).Some? && |cfg.eol| > 0
    ensures var at := FindEol(cfg, s).value;
      at + |cfg.eol| <= cfg.size &&
      CStringAt(Blank(s.buf, at, |cfg.eol|), 0) == CStringAt(s.buf, 0)[..at]
  {
    var at := FindEol(cfg, s).value;
    var line := CStringAt(s.buf, 0);
    var b := Blank(s.buf, at, |cfg.eol|);
    assert b[at] == NUL;
    forall k | 0 <= k < at ensures b[k] != NUL {
      assert b[k] == s.buf[k] == line[k];
    }
    StrlenIs(b, 0, at);
    assert b[..at] == line[..at];
  }

  /** memset(buf + i, 0, n). */
  method BlankCells(buf: array<char>, i: nat, n: nat)
    requires i + n <= buf.Length
    modifies buf
    ensures buf[..] == Blank(old(buf[..]), i, n)
  {
    forall k | i <= k < i + n {
      buf[k] := NUL;
    }
    assert buf[..] == old(buf[..])[..i] + Zeros(n) + old(buf[..])[i + n..];
  }

  /**
   * Bricli_CheckForEol. Without replacement nothing changes; with it only
   * the first occurrence's strlen(Eol) bytes become NUL.
   */
  method CheckForEol(cli: Cli, replaceEol: bool) returns (found: bool)
    requires cli.Valid()
    modifies cli.RxBuffer
    ensures cli.Valid()
    ensures found == FindEol(cli.Cfg(), old(cli.Snap())).Some?
    ensures cli.RxBuffer[..] == if found && replaceEol
      then Blank(old(cli.RxBuffer[..]), FindEol(cli.Cfg(), old(cli.Snap())).value, |cli.Eol|)
      else old(cli.RxBuffer[..])
  {
    if cli.PendingBytes == 0 {
      return false;
    }
    ghost var cfg, s := cli.Cfg(), cli.Snap();
    var at := StrStr(CStringAt(cli.RxBuffer[..], 0), cli.Eol, 0);
    assert at == FindEol(cfg, s);
    found := at.Some?;
    if found && replaceEol {
      BlankCells(cli.RxBuffer, at.value, |cli.Eol|);
    }
  }

  // ----- Splitting on EOL characters -----

  /** The command count SplitOnEol returns and the buffer it leaves. */
  datatype Counted = Counted(count: nat, buf: seq<char>)

  /**
   * Bricli_SplitOnEol: strtok_r over the front C string with the characters
   * of Eol as delimiters, counting tokens; a single token as long as
   * everything pending means no EOL was seen, so the count is corrected to 0.
   */
  function SplitSpec(cfg: Config, s: Snapshot): (r: Counted)
    requires Good(cfg, s)
    ensures |r.buf| == |s.buf| && Terminated(r.buf)
    ensures s.pending == 0 ==> r == Counted(0, s.buf)
  {
    if s.pending == 0 then Counted(0, s.buf)
    else
      var all := StrTokAll(s.buf, 0, CharsOf(cfg.eol));
      var n := |all.starts|;
      Counted(if n == 1 && Strlen(all.buf, 0) == s.pending then 0 else n, all.buf)
  }

  /**
   * The count is the number of non-empty EOL-delimited fields of the front
   * C string (runs of delimiters collapse), except that one field covering
   * all pending bytes counts as none; each token left in the buffer is one
   * of those fields.
   */
  lemma SplitCountsFields(cfg: Config, s: Snapshot)
    requires Good(cfg, s) && s.pending > 0
    ensures var all := StrTokAll(s.buf, 0, CharsOf(cfg.eol));
      var fields := CFields(s.buf, 0, CharsOf(cfg.eol));
      StringsAt(all.buf, all.starts) == fields &&
      SplitSpec(cfg, s).buf == all.buf &&
      SplitSpec(cfg, s).count == (if |fields| == 1 && Strlen(all.buf, 0) == s.pending then 0 else |fields|)
  {
    StrTokAllFields(s.buf, 0, CharsOf(cfg.eol));
  }

  /** One field with no delimiter in it, as FieldsIn reads it. */
  lemma {:induction false} FieldsInNoDelimiter(s: seq<char>, i: nat, j: nat, delims: set<char>)
    requires i < j <= |s| && forall k :: i <= k < j ==> s[k] !in delims
    ensures FieldsIn(s, i, j, delims) == [s[i..j]]
  {
    assert RunEnd(s, i, j, delims) == j;
  }

  /** Pending input that is one whole C string without any EOL character holds no command. */
  lemma NoEolNoCommand(cfg: Config, s: Snapshot)
    requires Good(cfg, s) && s.pending > 0 && Strlen(s.buf, 0) == s.pending
    requires forall k :: 0 <= k < s.pending ==> s.buf[k] !in cfg.eol
    ensures SplitSpec(cfg, s).count == 0
  {
    var delims := CharsOf(cfg.eol);
    var all := StrTokAll(s.buf, 0, delims);
    SplitCountsFields(cfg, s);
    FieldsInNoDelimiter(s.buf, 0, s.pending, delims);
    assert CFields(s.buf, 0, delims) == [s.buf[..s.pending]];
    assert forall k :: 0 <= k <= s.pending ==> all.buf[k] == s.buf[k];
    StrlenIs(all.buf, 0, s.pending);
  }

  /** Bricli_SplitOnEol. */
  method SplitOnEol(cli: Cli) returns (n: nat)
    requires cli.Valid()
    modifies cli.RxBuffer
    ensures cli.Valid()
    ensures Counted(n, cli.RxBuffer[..]) == SplitSpec(cli.Cfg(), old(cli.Snap()))
  {
    if cli.PendingBytes == 0 {
      return 0;
    }
    var delims := CharsOf(cli.Eol);
    ghost var all := StrTokAll(cli.RxBuffer[..], 0, delims);
    var count := 0;
    var token, save := StrTokR(cli.RxBuffer, 0, delims);
    while token.Some?
      invariant Terminated(cli.RxBuffer[..]) && save < cli.RxBuffer.Length
      invariant cli.RxBuffer[cli.RxBufferSize] == NUL
      invariant token.Some? ==>
        |all.starts| == count + 1 + |StrTokAll(cli.RxBuffer[..], save, delims).starts| &&
        StrTokAll(cli.RxBuffer[..], save, delims).buf == all.buf
      invariant token.None? ==> |all.starts| == count && cli.RxBuffer[..] == all.buf
      decreases if token.Some? then cli.RxBuffer.Length - save + 1 else 0
    {
      count := count + 1;
      token, save := StrTokR(cli.RxBuffer, save, delims);
    }
    n := if count == 1 && Strlen(cli.RxBuffer[..], 0) == cli.PendingBytes then 0 else count;
  }

  // ----- Removing a handled command -----

  /** The memmove and memset of ClearCommand: cells k..pend move to the front, the k cells after them become NUL. */
  function Shift(b: seq<char>, k: nat, pend: nat): (t: seq<char>)
    requires k <= pend <= |b|
    ensures |t| == |b|
  {
    b[k..pend] + Zeros(k) + b[pend..]
  }

  lemma ShiftCells(b: seq<char>, k: nat, pend: nat)
    requires k <= pend <= |b|
    ensures var t := Shift(b, k, pend);
      (forall j :: 0 <= j < pend - k ==> t[j] == b[k + j]) &&
      (forall j :: pend - k <= j < pend ==> t[j] == NUL) &&
      (forall j :: pend <= j < |b| ==> t[j] == b[j])
  {
  }

  /**
   * Bricli_ClearCommand: the front command and one EOL length after it are
   * dropped; if that reaches the end of what is pending (or of the buffer)
   * the whole buffer is cleared, otherwise the rest moves to the front and
   * the cells it vacated become NUL.
   */
  function ClearCommandSpec(cfg: Config, s: Snapshot): (t: Snapshot)
    requires BufferValid(cfg, s)
    ensures BufferValid(cfg, t) && t.pending <= s.pending
  {
    var k := Strlen(s.buf, 0) + |cfg.eol|;
    if k >= cfg.size || k >= s.pending then Cleared(cfg, s)
    else s.(buf := Shift(s.buf, k, s.pending), pending := s.pending - k)
  }

  /** A buffer whose first p cells are the cells of `sb` from k holds, at 0, the C string at k cut at p. */
  lemma ShiftedCString(sb: seq<char>, tb: seq<char>, k: nat, p: nat)
    requires Terminated(sb) && Terminated(tb) && k + p < |sb| && p < |tb|
    requires forall j :: 0 <= j < p ==> tb[j] == sb[k + j]
    requires tb[p] == NUL || Strlen(sb, k) < p
    ensures var n := Strlen(sb, k);
      CStringAt(tb, 0) == CStringAt(sb, k)[..if n < p then n else p]
  {
    var n := Strlen(sb, k);
    var m := if n < p then n else p;
    assert tb[m] == NUL;
    assert forall j :: 0 <= j < m ==> tb[j] != NUL;
    StrlenIs(tb, 0, m);
    assert tb[..m] == sb[k..k + m];
  }

  /** After the shift, the front holds the C string that started at k, cut at the old pending end. */
  lemma ShiftFront(b: seq<char>, k: nat, pend: nat)
    requires Terminated(b) && k < pend < |b|
    requires k > 0 || Strlen(b, k) < pend
    ensures Terminated(Shift(b, k, pend))
    ensures var n := Strlen(b, k);
      CStringAt(Shift(b, k, pend), 0) == CStringAt(b, k)[..if n < pend - k then n else pend - k]
  {
    var tb := Shift(b, k, pend);
    ShiftCells(b, k, pend);
    assert tb[|tb| - 1] == b[|b| - 1];
    ShiftedCString(b, tb, k, pend - k);
  }

  /** What ClearCommand leaves at the front: the C string that followed, cut at the old PendingBytes. */
  lemma NextCommandToFront(cfg: Config, s: Snapshot)
    requires BufferValid(cfg, s)
    requires var k := Strlen(s.buf, 0) + |cfg.eol|; k < cfg.size && k < s.pending
    ensures var k := Strlen(s.buf, 0) + |cfg.eol|;
      var t := ClearCommandSpec(cfg, s);
      var n := Strlen(s.buf, k);
      CStringAt(t.buf, 0) == CStringAt(s.buf, k)[..if n < t.pending then n else t.pending]
  {
    var k := Strlen(s.buf, 0) + |cfg.eol|;
    assert Terminated(s.buf);
    ShiftFront(s.buf, k, s.pending);
    assert ClearCommandSpec(cfg, s).buf == Shift(s.buf, k, s.pending);
  }

  /** The buffer the source's test builds: "test", a NUL, then `echo "Hello"`, 17 bytes pending. */
  lemma ClearCommandExample(cfg: Config, s: Snapshot)
    requires BufferValid(cfg, s) && cfg.eol == "\n" && cfg.size >= 18 && s.pending == 17
    requires s.buf[..18] == "test" + [NUL] + "echo \"Hello\"" + [NUL]
    ensures ClearCommandSpec(cfg, s).pending == 12
    ensures CStringAt(ClearCommandSpec(cfg, s).buf, 0) == "echo \"Hello\""
  {
    assert s.buf[4] == NUL;
    forall j | 0 <= j < 4 ensures s.buf[j] != NUL {
      assert s.buf[j] == s.buf[..18][j];
    }
    StrlenIs(s.buf, 0, 4);
    forall j | 5 <= j < 17 ensures s.buf[j] != NUL {
      assert s.buf[j] == s.buf[..18][j];
    }
    assert s.buf[17] == s.buf[..18][17];
    StrlenIs(s.buf, 5, 12);
    NextCommandToFront(cfg, s);
    assert s.buf[5..17] == "echo \"Hello\"";
  }

  /** After a split of "test\ntest\n", two ClearCommands leave nothing pending. */
  lemma TwoCommandsDrain(cfg: Config, s: Snapshot)
    requires BufferValid(cfg, s) && cfg.eol == "\n" && cfg.size >= 11 && s.pending == 10
    requires s.buf[..11] == "test" + [NUL] + "test" + [NUL, NUL]
    ensures ClearCommandSpec(cfg, s).pending == 5
    ensures ClearCommandSpec(cfg, ClearCommandSpec(cfg, s)).pending == 0
  {
    assert s.buf[4] == NUL;
    forall j | 0 <= j < 4 ensures s.buf[j] != NUL {
      assert s.buf[j] == s.buf[..11][j];
    }
    StrlenIs(s.buf, 0, 4);
    var t := ClearCommandSpec(cfg, s);
    assert t.buf[..5] == s.buf[5..10];
    assert t.buf[4] == NUL;
    forall j | 0 <= j < 4 ensures t.buf[j] != NUL {
      assert t.buf[j] == s.buf[5 + j] == s.buf[..11][5 + j];
    }
    StrlenIs(t.buf, 0, 4);
  }

  lemma ClearCommandCases(cfg: Config, s: Snapshot, k: nat)
    requires BufferValid(cfg, s) && k == Strlen(s.buf, 0) + |cfg.eol|
    ensures k >= cfg.size || k >= s.pending ==> ClearCommandSpec(cfg, s) == Cleared(cfg, s)
    ensures k < cfg.size && k < s.pending ==>
      ClearCommandSpec(cfg, s) == s.(buf := Shift(s.buf, k, s.pending), pending := s.pending - k)
  {
  }

  /** memmove(buf, buf + k, pend - k) followed by memset(buf + pend - k, 0, k). */
  method MoveDown(buf: array<char>, k: nat, pend: nat)
    requires k <= pend <= buf.Length
    modifies buf
    ensures buf[..] == Shift(old(buf[..]), k, pend)
  {
    forall j | 0 <= j < pend - k {
      buf[j] := buf[j + k];
    }
    forall j | pend - k <= j < pend {
      buf[j] := NUL;
    }
    ShiftCells(old(buf[..]), k, pend);
  }

  /** Bricli_ClearCommand. */
  method ClearCommand(cli: Cli)
    requires cli.Valid()
    modifies cli`PendingBytes, cli.RxBuffer
    ensures cli.Valid() && cli.Snap() == ClearCommandSpec(cli.Cfg(), old(cli.Snap()))
  {
    ghost var cfg, s := cli.Cfg(), cli.Snap();
    var k := Strlen(cli.RxBuffer[..], 0) + |cli.Eol|;
    ClearCommandCases(cfg, s, k);
    if k >= cli.RxBufferSize || k >= cli.PendingBytes {
      ClearBuffer(cli);
    } else {
      MoveDown(cli.RxBuffer, k, cli.PendingBytes);
      cli.PendingBytes := cli.PendingBytes - k;
    }
  }
}
