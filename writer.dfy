/**
 * The output layer (Include/bricli/writer.h and Bricli_PrintF in
 * source/bricli.c): fixed sequences of calls of the BSP write callback, each
 * recorded as one entry of the handle's Output trace.
 */
module Writer {
  import opened Errors
  import opened Handle

  const Esc: char := '\U{1B}'
  const BackspaceChar: char := '\U{8}'

  /** VT100 sequences written by the engine (source/bricli.c:31, 37; escape_codes.h). */
  const ColourReset: string := [Esc] + "[0m"
  const TextRed: string := [Esc] + "[0;31m"
  const DeleteChar: string := [Esc] + "[K"
  const ClearSequence: string := [Esc] + "[H" + [Esc] + "[J"

  /** The output of a PrintF of the already formatted `message`: once if it fits the 80-byte buffer. */
  function Printed(cfg: Config, message: string): seq<string> {
    if 0 < |message| < PrintMessageSize then Emitted(cfg, [message]) else []
  }

  /** What PrintF returns for the formatted `message`. */
  function PrintResult(cfg: Config, message: string): int {
    if 0 < |message| < PrintMessageSize then Sent(cfg, message) else -1
  }

  // ----- Decimal rendering of %d -----

  function DigitChar(d: nat): (c: char)
    requires d < 10
    ensures '0' <= c <= '9' && c as int - '0' as int == d
  {
    ('0' as int + d) as char
  }

  predicate AllDigits(w: string) {
    forall k :: 0 <= k < |w| ==> '0' <= w[k] <= '9'
  }

  function Digits(n: nat): (w: string)
    ensures |w| > 0 && AllDigits(w)
    decreases n
  {
    if n < 10 then [DigitChar(n)] else Digits(n / 10) + [DigitChar(n % 10)]
  }

  /** The text printf's %d conversion produces for `i`. */
  function DecimalString(i: int): string {
    if i < 0 then "-" + Digits(-i) else Digits(i)
  }

  /** Reads back a string of decimal digits. */
  function DigitsValue(w: string): nat
    requires AllDigits(w)
  {
    if w == [] then 0 else DigitsValue(w[..|w| - 1]) * 10 + (w[|w| - 1] as int - '0' as int)
  }

  /** Reads back an optionally signed decimal string. */
  function DecimalValue(w: string): int
    requires |w| > 0 && AllDigits(w[1..]) && (w[0] == '-' || '0' <= w[0] <= '9')
  {
    if w[0] == '-' then -(DigitsValue(w[1..]) as int) else DigitsValue(w)
  }

  lemma {:induction false} DigitsRoundTrip(n: nat)
    ensures DigitsValue(Digits(n)) == n
    decreases n
  {
    if n >= 10 {
      var w := Digits(n);
      var q, d := n / 10, n % 10;
      assert w[..|w| - 1] == Digits(q);
      assert w[|w| - 1] == DigitChar(d);
      DigitsRoundTrip(q);
      assert q * 10 + d == n;
    }
  }

  /** %d is unambiguous: the printed number reads back as itself. */
  lemma DecimalRoundTrip(i: int)
    ensures var w := DecimalString(i);
      |w| > 0 && AllDigits(w[1..]) && (w[0] == '-' || '0' <= w[0] <= '9') &&
      (w[0] == '-' <==> i < 0) && DecimalValue(w) == i
  {
    var w := DecimalString(i);
    if i < 0 {
      var v := Digits(-i);
      assert w[1..] == v;
      DigitsRoundTrip(-i);
    } else {
      var v := Digits(i);
      assert w[1..] == v[1..];
      DigitsRoundTrip(i);
    }
  }

  // ----- Writes -----

  /** Bricli_Write: one call of the BSP callback, or BadHandle and an internal error without one. */
  method Write(cli: Cli, length: nat, data: string) returns (r: int)
    requires length <= |data|
    modifies cli`Output, cli`LastError
    ensures r == Sent(cli.Cfg(), data[..length])
    ensures cli.Output == old(cli.Output) + Emitted(cli.Cfg(), [data[..length]])
    ensures cli.LastError == if cli.BspWrite.Some? then old(cli.LastError) else ErrorInternal
  {
    if cli.BspWrite.Some? {
      r := cli.BspWrite.value(length, data[..length]);
      cli.Output := cli.Output + [data[..length]];
    } else {
      cli.LastError := ErrorInternal;
      r := BadHandle;
    }
  }

  /** Bricli_WriteLine: the data, then the line terminator; returns the terminator's result. */
  method WriteLine(cli: Cli, length: nat, data: string) returns (r: int)
    requires length <= |data|
    modifies cli`Output, cli`LastError
    ensures r == Sent(cli.Cfg(), LineEnd(cli.Cfg()))
    ensures cli.Output == old(cli.Output) + Emitted(cli.Cfg(), [data[..length], LineEnd(cli.Cfg())])
    ensures cli.LastError == if cli.BspWrite.Some? then old(cli.LastError) else ErrorInternal
  {
    var _ := Write(cli, length, data);
    var eol := if cli.SendEol.None? then cli.Eol else cli.SendEol.value;
    r := Write(cli, |eol|, eol);
    assert eol[..|eol|] == eol;
    assert [data[..length]] + [eol] == [data[..length], eol];
  }

  /** Bricli_WriteString: strlen(data) bytes of data. */
  method WriteString(cli: Cli, data: string) returns (r: int)
    requires IsCString(data)
    modifies cli`Output, cli`LastError
    ensures r == Sent(cli.Cfg(), data)
    ensures cli.Output == old(cli.Output) + Emitted(cli.Cfg(), [data])
    ensures cli.LastError == if cli.BspWrite.Some? then old(cli.LastError) else ErrorInternal
  {
    r := Write(cli, |data|, data);
    assert data[..|data|] == data;
  }

  /** Bricli_WriteStringLine. */
  method WriteStringLine(cli: Cli, data: string) returns (r: int)
    requires IsCString(data)
    modifies cli`Output, cli`LastError
    ensures r == Sent(cli.Cfg(), LineEnd(cli.Cfg()))
    ensures cli.Output == old(cli.Output) + Emitted(cli.Cfg(), [data, LineEnd(cli.Cfg())])
    ensures cli.LastError == if cli.BspWrite.Some? then old(cli.LastError) else ErrorInternal
  {
    r := WriteLine(cli, |data|, data);
    assert data[..|data|] == data;
  }

  /** Bricli_SetColour, with the colour already looked up as its escape sequence. */
  method SetColour(cli: Cli, colour: string)
    requires IsCString(colour)
    modifies cli`Output, cli`LastError
    ensures cli.Output == old(cli.Output) + Emitted(cli.Cfg(), [colour])
    ensures cli.LastError == if cli.BspWrite.Some? then old(cli.LastError) else ErrorInternal
  {
    var _ := WriteString(cli, colour);
  }

  /** Bricli_WriteColoured: colour, payload, reset; returns the payload's result. */
  method WriteColoured(cli: Cli, length: nat, data: string, colour: string) returns (r: int)
    requires length <= |data| && IsCString(colour)
    modifies cli`Output, cli`LastError
    ensures r == Sent(cli.Cfg(), data[..length])
    ensures cli.Output == old(cli.Output) + Emitted(cli.Cfg(), [colour, data[..length], ColourReset])
    ensures cli.LastError == if cli.BspWrite.Some? then old(cli.LastError) else ErrorInternal
  {
    SetColour(cli, colour);
    r := Write(cli, length, data);
    SetColour(cli, ColourReset);
  }

  /** Bricli_WriteColouredLine: colour, payload, terminator, reset; returns the terminator's result. */
  method WriteColouredLine(cli: Cli, length: nat, data: string, colour: string) returns (r: int)
    requires length <= |data| && IsCString(colour)
    modifies cli`Output, cli`LastError
    ensures r == Sent(cli.Cfg(), LineEnd(cli.Cfg()))
    ensures cli.Output == old(cli.Output) + Emitted(cli.Cfg(), [colour, data[..length], LineEnd(cli.Cfg()), ColourReset])
    ensures cli.LastError == if cli.BspWrite.Some? then old(cli.LastError) else ErrorInternal
  {
    SetColour(cli, colour);
    r := WriteLine(cli, length, data);
    SetColour(cli, ColourReset);
  }

  /** Bricli_WriteStringColoured. */
  method WriteStringColoured(cli: Cli, data: string, colour: string) returns (r: int)
    requires IsCString(data) && IsCString(colour)
    modifies cli`Output, cli`LastError
    ensures r == Sent(cli.Cfg(), data)
    ensures cli.Output == old(cli.Output) + Emitted(cli.Cfg(), [colour, data, ColourReset])
    ensures cli.LastError == if cli.BspWrite.Some? then old(cli.LastError) else ErrorInternal
  {
    SetColour(cli, colour);
    r := WriteString(cli, data);
    SetColour(cli, ColourReset);
  }

  /** Bricli_WriteStringColouredLine. */
  method WriteStringColouredLine(cli: Cli, data: string, colour: string) returns (r: int)
    requires IsCString(data) && IsCString(colour)
    modifies cli`Output, cli`LastError
    ensures r == Sent(cli.Cfg(), LineEnd(cli.Cfg()))
    ensures cli.Output == old(cli.Output) + Emitted(cli.Cfg(), [colour, data, LineEnd(cli.Cfg()), ColourReset])
    ensures cli.LastError == if cli.BspWrite.Some? then old(cli.LastError) else ErrorInternal
  {
    SetColour(cli, colour);
    r := WriteStringLine(cli, data);
    SetColour(cli, ColourReset);
  }

  /** Bricli_SendPrompt: the prompt once when there is one, nothing otherwise. */
  method SendPrompt(cli: Cli)
    requires cli.Prompt.Some? ==> IsCString(cli.Prompt.value)
    modifies cli`Output, cli`LastError
    ensures cli.Output == old(cli.Output) + PromptOutput(cli.Cfg())
    ensures cli.LastError == if cli.BspWrite.Some? && cli.Prompt.Some? then old(cli.LastError)
                             else if cli.Prompt.Some? then ErrorInternal else old(cli.LastError)
  {
    if cli.Prompt.Some? {
      var _ := WriteString(cli, cli.Prompt.value);
    }
  }

  function PromptOutput(cfg: Config): seq<string> {
    if cfg.prompt.Some? then Emitted(cfg, [cfg.prompt.value]) else []
  }

  /** Bricli_ClearScreen: cursor home then erase to end of screen, in one write. */
  method ClearScreen(cli: Cli)
    modifies cli`Output, cli`LastError
    ensures cli.Output == old(cli.Output) + Emitted(cli.Cfg(), [ClearSequence])
    ensures cli.LastError == if cli.BspWrite.Some? then old(cli.LastError) else ErrorInternal
  {
    var _ := WriteString(cli, ClearSequence);
  }

  /**
   * Bricli_PrintF, given the formatted message: written once when it is
   * non-empty and shorter than the 80-byte message buffer, otherwise
   * dropped with result -1.
   */
  method PrintF(cli: Cli, message: string) returns (r: int)
    modifies cli`Output, cli`LastError
    ensures r == PrintResult(cli.Cfg(), message)
    ensures cli.Output == old(cli.Output) + Printed(cli.Cfg(), message)
    ensures cli.LastError == if cli.BspWrite.Some? || |message| == 0 || |message| >= PrintMessageSize
                             then old(cli.LastError) else ErrorInternal
  {
    if 0 < |message| < PrintMessageSize {
      r := Write(cli, |message|, message);
      assert message[..|message|] == message;
    } else {
      r := -1;
    }
  }

  /** BRICLI_PRINTF_COLOURED: colour, the PrintF, reset; returns the PrintF's result. */
  method PrintFColoured(cli: Cli, colour: string, message: string) returns (r: int)
    requires IsCString(colour)
    modifies cli`Output, cli`LastError
    ensures r == PrintResult(cli.Cfg(), message)
    ensures cli.Output == old(cli.Output) + ColouredPrint(cli.Cfg(), colour, message)
    ensures cli.BspWrite.Some? ==> cli.LastError == old(cli.LastError)
  {
    SetColour(cli, colour);
    r := PrintF(cli, message);
    SetColour(cli, ColourReset);
  }

  function ColouredPrint(cfg: Config, colour: string, message: string): seq<string> {
    Emitted(cfg, [colour]) + Printed(cfg, message) + Emitted(cfg, [ColourReset])
  }
}
