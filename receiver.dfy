/**
 * Byte reception (source/bricli.c:944-1043, Include/bricli/parser.h:25-43):
 * bytes are appended to the receive buffer at PendingBytes, a backspace
 * removes itself and the byte before it, and accepted bytes are echoed.
 */
module Receiver {
  import opened Errors
  import opened CStrings
  import opened Handle
  import opened Writer

  /** The outcome of receiving: the error code and the handle state afterwards. */
  datatype Step = Step(code: int, after: Snapshot)

  function Zeros(n: nat): (z: seq<char>)
    ensures |z| == n && forall k :: 0 <= k < n ==> z[k] == NUL
  {
    seq(n, _ => NUL)
  }

  /** The state Bricli_ClearBuffer leaves: every buffer byte NUL and nothing pending. */
  function Cleared(cfg: Config, s: Snapshot): (t: Snapshot)
    requires BufferValid(cfg, s)
    ensures BufferValid(cfg, t) && t.pending == 0 && t.buf == Zeros(cfg.size + 1)
  {
    s.(buf := Zeros(cfg.size + 1), pending := 0)
  }

  /** The byte is written at PendingBytes, which then counts it. */
  function Store(s: Snapshot, c: char): Snapshot
    requires s.pending < |s.buf|
  {
    s.(buf := s.buf[s.pending := c], pending := s.pending + 1)
  }

  /**
   * Bricli_Backspace: with fewer than two pending bytes nothing is left
   * pending; otherwise the backspace and the byte before it are dropped, the
   * backspace's cell is cleared and the terminal is told to erase a character.
   */
  function Erase(cfg: Config, s: Snapshot): (t: Snapshot)
    requires BufferValid(cfg, s)
    ensures BufferValid(cfg, t)
    ensures t.pending == if s.pending < 2 then 0 else s.pending - 2
    ensures s.pending < 2 ==> t.buf == s.buf && t.output == s.output
    ensures s.pending >= 2 ==> t.buf == s.buf[s.pending - 1 := NUL] &&
                               t.output == s.output + Emitted(cfg, [[BackspaceChar], DeleteChar])
  {
    if s.pending < 2 then s.(pending := 0)
    else s.(buf := s.buf[s.pending - 1 := NUL], pending := s.pending - 2,
            output := s.output + Emitted(cfg, [[BackspaceChar], DeleteChar]))
  }

  function Echo(cfg: Config, s: Snapshot, c: char): Snapshot {
    if cfg.echo then s.(output := s.output + Emitted(cfg, [[c]])) else s
  }

  /** Bricli_ReceiveCharacter. */
  function Receive(cfg: Config, s: Snapshot, c: char): (r: Step)
    requires BufferValid(cfg, s)
    ensures BufferValid(cfg, r.after)
    ensures r.code == Ok || r.code == ReceivedNull || r.code == CopyWouldOverflow
  {
    if c == NUL then Step(ReceivedNull, s)
    else if s.pending >= cfg.size then Step(CopyWouldOverflow, s)
    else
      var stored := Store(s, c);
      var erased := if c == BackspaceChar then Erase(cfg, stored) else stored;
      Step(Ok, Echo(cfg, erased, c))
  }

  /**
   * Bricli_ReceiveIndexedArray over the bytes `cs`: each byte is received in
   * turn, stopping at the first result other than Ok; nothing received is
   * Unknown.
   */
  function ReceiveAll(cfg: Config, s: Snapshot, cs: seq<char>): (r: Step)
    requires BufferValid(cfg, s)
    ensures BufferValid(cfg, r.after)
    decreases |cs|
  {
    if cs == [] then Step(Unknown, s)
    else
      var first := Receive(cfg, s, cs[0]);
      if first.code != Ok || |cs| == 1 then first else ReceiveAll(cfg, first.after, cs[1..])
  }

  // ----- Properties of reception -----

  /** A NUL byte or a full buffer is refused and changes nothing. */
  lemma Refused(cfg: Config, s: Snapshot, c: char)
    requires BufferValid(cfg, s) && (c == NUL || s.pending >= cfg.size)
    ensures Receive(cfg, s, c).after == s
    ensures Receive(cfg, s, c).code == if c == NUL then ReceivedNull else CopyWouldOverflow
  {
  }

  /**
   * An ordinary byte is stored at the old PendingBytes, PendingBytes grows by
   * one, and with local echo on the byte is written back exactly once.
   */
  lemma Accepted(cfg: Config, s: Snapshot, c: char)
    requires BufferValid(cfg, s) && c != NUL && c != BackspaceChar && s.pending < cfg.size
    ensures var r := Receive(cfg, s, c);
      r.code == Ok && r.after.buf == s.buf[s.pending := c] && r.after.pending == s.pending + 1 &&
      r.after.output == s.output + (if cfg.echo then Emitted(cfg, [[c]]) else []) &&
      r.after.state == s.state && r.after.scopes == s.scopes && r.after.lastError == s.lastError
  {
  }

  /**
   * A backspace is stored, then it and the byte before it are removed: the
   * backspace's own cell becomes NUL, but the removed byte stays in the
   * buffer beyond PendingBytes.
   */
  lemma BackspaceReceived(cfg: Config, s: Snapshot)
    requires BufferValid(cfg, s) && s.pending < cfg.size
    ensures var r := Receive(cfg, s, BackspaceChar);
      var erase := if s.pending == 0 then [] else Emitted(cfg, [[BackspaceChar], DeleteChar]);
      r.code == Ok &&
      r.after.pending == (if s.pending == 0 then 0 else s.pending - 1) &&
      r.after.buf == (if s.pending == 0 then s.buf[0 := BackspaceChar] else s.buf[s.pending := NUL]) &&
      r.after.output == s.output + erase + (if cfg.echo then Emitted(cfg, [[BackspaceChar]]) else [])
  {
    if s.pending > 0 {
      assert s.buf[s.pending := BackspaceChar][s.pending := NUL] == s.buf[s.pending := NUL];
    }
  }

  /** Receiving in two chunks is receiving their concatenation, unless the first chunk fails. */
  lemma {:induction false} ReceiveChunks(cfg: Config, s: Snapshot, a: seq<char>, b: seq<char>)
    requires BufferValid(cfg, s) && a != [] && b != []
    ensures var ra := ReceiveAll(cfg, s, a);
      ReceiveAll(cfg, s, a + b) == if ra.code != Ok then ra else ReceiveAll(cfg, ra.after, b)
    decreases |a|
  {
    var first := Receive(cfg, s, a[0]);
    assert (a + b)[0] == a[0];
    if first.code == Ok {
      if |a| == 1 {
        assert (a + b)[1..] == b;
      } else {
        assert (a + b)[1..] == a[1..] + b;
        ReceiveChunks(cfg, first.after, a[1..], b);
      }
    }
  }

  /** One more byte after a run that succeeded is received from the state the run left. */
  lemma ReceiveOneMore(cfg: Config, s: Snapshot, cs: seq<char>, c: char)
    requires BufferValid(cfg, s) && (cs == [] || ReceiveAll(cfg, s, cs).code == Ok)
    ensures ReceiveAll(cfg, s, cs + [c]) == Receive(cfg, if cs == [] then s else ReceiveAll(cfg, s, cs).after, c)
  {
    if cs == [] {
      assert cs + [c] == [c];
    } else {
      ReceiveChunks(cfg, s, cs, [c]);
    }
  }

  /** Once a byte is refused, the bytes after it are not looked at. */
  lemma StopsAtRefusal(cfg: Config, s: Snapshot, cs: seq<char>, rest: seq<char>)
    requires BufferValid(cfg, s) && cs != [] && ReceiveAll(cfg, s, cs).code != Ok
    ensures ReceiveAll(cfg, s, cs + rest) == ReceiveAll(cfg, s, cs)
  {
    if rest == [] {
      assert cs + rest == cs;
    } else {
      ReceiveChunks(cfg, s, cs, rest);
    }
  }

  lemma PrefixSnoc(cs: seq<char>, i: nat)
    requires i < |cs|
    ensures cs[..i + 1] == cs[..i] + [cs[i]]
  {
  }

  lemma PrefixSplit(cs: seq<char>, i: nat, end: nat)
    requires i <= end <= |cs|
    ensures cs[..end] == cs[..i] + cs[i..end]
  {
  }

  /** One turn of the receive loop: a byte received after the bytes `done` extends them. */
  lemma ReceiveLoopStep(cfg: Config, s: Snapshot, done: seq<char>, c: char,
                        r: int, before: Snapshot, r': int, after: Snapshot)
    requires BufferValid(cfg, s)
    requires Step(r, before) == ReceiveAll(cfg, s, done) && (done == [] || r == Ok)
    requires Step(r', after) == Receive(cfg, before, c)
    ensures Step(r', after) == ReceiveAll(cfg, s, done + [c])
  {
    ReceiveOneMore(cfg, s, done, c);
  }

  /** Bytes written back by local echo for `cs`, one write per byte. */
  function Echoes(cfg: Config, cs: seq<char>): seq<string> {
    if cs == [] then [] else Emitted(cfg, [[cs[0]]]) + Echoes(cfg, cs[1..])
  }

  predicate Ordinary(cs: seq<char>) {
    forall k :: 0 <= k < |cs| ==> cs[k] != NUL && cs[k] != BackspaceChar
  }

  /** The state after the bytes `cs` are appended at PendingBytes and echoed when echo is on. */
  function Appended(cfg: Config, s: Snapshot, cs: seq<char>): Snapshot
    requires s.pending + |cs| <= |s.buf|
  {
    s.(buf := s.buf[..s.pending] + cs + s.buf[s.pending + |cs|..],
       pending := s.pending + |cs|,
       output := s.output + (if cfg.echo then Echoes(cfg, cs) else []))
  }

  lemma AppendedOne(cfg: Config, s: Snapshot, c: char)
    requires BufferValid(cfg, s) && c != NUL && c != BackspaceChar && s.pending < cfg.size
    ensures Receive(cfg, s, c) == Step(Ok, Appended(cfg, s, [c]))
  {
    assert s.buf[..s.pending] + [c] + s.buf[s.pending + 1..] == s.buf[s.pending := c];
    assert Echoes(cfg, [c]) == Emitted(cfg, [[c]]);
  }

  lemma EchoesCons(cfg: Config, c: char, rest: seq<char>)
    ensures Echoes(cfg, [c] + rest) == Emitted(cfg, [[c]]) + Echoes(cfg, rest)
  {
    assert ([c] + rest)[1..] == rest;
  }

  /** Writing `c` at `p` and then `rest` after it writes `[c] + rest` at `p`. */
  lemma SpliceTwice(b: seq<char>, p: nat, c: char, rest: seq<char>)
    requires p + 1 + |rest| <= |b|
    ensures var b1 := b[..p] + [c] + b[p + 1..];
      b1[..p + 1] + rest + b1[p + 1 + |rest|..] == b[..p] + ([c] + rest) + b[p + 1 + |rest|..]
  {
    var b1 := b[..p] + [c] + b[p + 1..];
    assert b1[..p + 1] == b[..p] + [c];
    assert b1[p + 1 + |rest|..] == b[p + 1 + |rest|..];
  }

  lemma EchoesTwice(cfg: Config, c: char, rest: seq<char>)
    ensures Echoes(cfg, [c]) + Echoes(cfg, rest) == Echoes(cfg, [c] + rest)
  {
    EchoesCons(cfg, c, rest);
    EchoesCons(cfg, c, []);
    assert [c] + [] == [c];
  }

  lemma AppendedTwice(cfg: Config, s: Snapshot, c: char, rest: seq<char>)
    requires s.pending + 1 + |rest| <= |s.buf|
    ensures Appended(cfg, Appended(cfg, s, [c]), rest) == Appended(cfg, s, [c] + rest)
  {
    SpliceTwice(s.buf, s.pending, c, rest);
    EchoesTwice(cfg, c, rest);
  }

  /**
   * A run of ordinary bytes that fits is copied into the buffer at
   * PendingBytes, PendingBytes grows by its length, and with local echo each
   * byte is written back once, in order.
   */
  lemma {:induction false} ReceivePlain(cfg: Config, s: Snapshot, cs: seq<char>)
    requires BufferValid(cfg, s) && cs != [] && Ordinary(cs) && s.pending + |cs| <= cfg.size
    ensures ReceiveAll(cfg, s, cs) == Step(Ok, Appended(cfg, s, cs))
    decreases |cs|
  {
    AppendedOne(cfg, s, cs[0]);
    if |cs| == 1 {
      assert cs == [cs[0]];
    } else {
      var rest := cs[1..];
      assert Ordinary(rest) by {
        forall k | 0 <= k < |rest| ensures rest[k] != NUL && rest[k] != BackspaceChar {
          assert rest[k] == cs[k + 1];
        }
      }
      ReceivePlain(cfg, Appended(cfg, s, [cs[0]]), rest);
      AppendedTwice(cfg, s, cs[0], rest);
      assert [cs[0]] + rest == cs;
    }
  }

  // ----- The scenarios the source's tests exercise -----

  /** Input that arrives in two chunks ends up exactly as if it had arrived at once. */
  lemma ReceiveInChunks(cfg: Config, s: Snapshot, a: seq<char>, b: seq<char>)
    requires BufferValid(cfg, s) && a != [] && b != [] && Ordinary(a + b)
    requires s.pending + |a| + |b| <= cfg.size
    ensures ReceiveAll(cfg, s, a).code == Ok
    ensures ReceiveAll(cfg, ReceiveAll(cfg, s, a).after, b) == Step(Ok, Appended(cfg, s, a + b))
  {
    assert Ordinary(a) by {
      forall k | 0 <= k < |a| ensures a[k] != NUL && a[k] != BackspaceChar {
        assert a[k] == (a + b)[k];
      }
    }
    ReceivePlain(cfg, s, a);
    ReceiveChunks(cfg, s, a, b);
    ReceivePlain(cfg, s, a + b);
  }

  /** Ordinary input received into an empty buffer is the C string at its start. */
  lemma FreshBufferHoldsInput(cfg: Config, s: Snapshot, cs: seq<char>)
    requires BufferValid(cfg, s) && s.pending == 0 && s.buf == Zeros(cfg.size + 1)
    requires cs != [] && Ordinary(cs) && |cs| <= cfg.size
    ensures CStringAt(Appended(cfg, s, cs).buf, 0) == cs
  {
    var buf := Appended(cfg, s, cs).buf;
    assert buf[..|cs|] == cs;
    assert buf[|cs|] == NUL;
    StrlenIs(buf, 0, |cs|);
  }

  /** "te" then "st\n" into an empty buffer leaves the C string "test\n". */
  lemma ChunkedInputConcatenates(cfg: Config, s: Snapshot)
    requires BufferValid(cfg, s) && cfg.size >= 5 && s.pending == 0 && s.buf == Zeros(cfg.size + 1)
    ensures var first := ReceiveAll(cfg, s, "te");
      var second := ReceiveAll(cfg, first.after, "st\n");
      first.code == Ok && second.code == Ok && CStringAt(second.after.buf, 0) == "test\n"
  {
    var a, b := "te", "st\n";
    assert a + b == "test\n";
    assert Ordinary(a + b);
    ReceiveInChunks(cfg, s, a, b);
    FreshBufferHoldsInput(cfg, s, a + b);
  }

  /** 101 bytes into a 100-byte buffer: the last one overflows and 100 stay pending. */
  lemma OverflowStopsAtCapacity(cfg: Config, s: Snapshot, cs: seq<char>)
    requires BufferValid(cfg, s) && cfg.size == 100 && s.pending == 0
    requires |cs| == 101 && forall k :: 0 <= k < |cs| ==> cs[k] == 'a'
    ensures ReceiveAll(cfg, s, cs).code == CopyWouldOverflow
    ensures ReceiveAll(cfg, s, cs).after.pending == 100
  {
    assert cs == cs[..100] + cs[100..];
    assert Ordinary(cs[..100]);
    ReceivePlain(cfg, s, cs[..100]);
    ReceiveChunks(cfg, s, cs[..100], cs[100..]);
  }

  /**
   * Ordinary bytes up to capacity, received into an empty buffer, leave no
   * NUL in the `RxBufferSize` cells a caller's array has: the C string
   * searches that follow read past its end.
   */
  lemma FullBufferUnterminated(cfg: Config, s: Snapshot, cs: seq<char>)
    requires BufferValid(cfg, s) && cfg.size > 0 && s.pending == 0
    requires Ordinary(cs) && |cs| == cfg.size
    ensures var r := ReceiveAll(cfg, s, cs);
      r.code == Ok && r.after.pending == cfg.size && NUL !in r.after.buf[..cfg.size]
  {
    ReceivePlain(cfg, s, cs);
    var buf := Appended(cfg, s, cs).buf;
    assert buf[..cfg.size] == cs;
    forall k | 0 <= k < |cs| ensures cs[k] != NUL {
    }
  }

  /**
   * With the buffer's extra cell the same input stays a C string that ends
   * inside the buffer: the whole input, then the terminator.
   */
  lemma FullBufferTerminated(cfg: Config, s: Snapshot, cs: seq<char>)
    requires BufferValid(cfg, s) && cfg.size > 0 && s.pending == 0 && s.buf == Zeros(cfg.size + 1)
    requires Ordinary(cs) && |cs| == cfg.size
    ensures var r := ReceiveAll(cfg, s, cs);
      r.code == Ok && BufferValid(cfg, r.after) && r.after.pending == cfg.size &&
      r.after.buf[cfg.size] == NUL && CStringAt(r.after.buf, 0) == cs
  {
    ReceivePlain(cfg, s, cs);
    FreshBufferHoldsInput(cfg, s, cs);
  }

  /** "a\n" then a backspace: only "a" is pending, but the C string still ends in the newline. */
  lemma BackspaceKeepsErasedByte(cfg: Config, s: Snapshot)
    requires BufferValid(cfg, s) && cfg.size >= 3 && s.pending == 0 && s.buf == Zeros(cfg.size + 1)
    ensures var r := ReceiveAll(cfg, s, ['a', '\n', BackspaceChar]);
      r.code == Ok && r.after.pending == 1 && CStringAt(r.after.buf, 0) == "a\n"
  {
    var cs := ['a', '\n', BackspaceChar];
    assert cs == "a\n" + [BackspaceChar];
    assert Ordinary("a\n");
    ReceivePlain(cfg, s, "a\n");
    ReceiveChunks(cfg, s, "a\n", [BackspaceChar]);
    var mid := ReceiveAll(cfg, s, "a\n").after;
    BackspaceReceived(cfg, mid);
    var buf := ReceiveAll(cfg, s, cs).after.buf;
    assert buf[..2] == "a\n" && buf[2] == NUL;
    StrlenIs(buf, 0, 2);
  }

  // ----- The methods -----

  /** Bricli_ClearBuffer: zero the RxBufferSize bytes and drop everything pending. */
  method ClearBuffer(cli: Cli)
    requires cli.Valid()
    modifies cli`PendingBytes, cli.RxBuffer
    ensures cli.Valid() && cli.Snap() == Cleared(cli.Cfg(), old(cli.Snap()))
  {
    forall k | 0 <= k < cli.RxBufferSize {
      cli.RxBuffer[k] := NUL;
    }
    cli.PendingBytes := 0;
    assert cli.RxBuffer[..] == Zeros(cli.RxBufferSize + 1);
  }

  /** Bricli_Backspace. */
  method Backspace(cli: Cli)
    requires cli.Valid()
    modifies cli`PendingBytes, cli`Output, cli`LastError, cli.RxBuffer
    ensures cli.Valid() && cli.Snap() == Erase(cli.Cfg(), old(cli.Snap()))
  {
    if cli.PendingBytes < 2 {
      cli.PendingBytes := 0;
    } else {
      cli.PendingBytes := cli.PendingBytes - 2;
      cli.RxBuffer[cli.PendingBytes + 1] := NUL;
      var _ := Write(cli, 1, [BackspaceChar]);
      assert [BackspaceChar][..1] == [BackspaceChar];
      assert DeleteChar[..3] == DeleteChar;
      var _ := Write(cli, 3, DeleteChar);
    }
  }

  /** Bricli_ReceiveCharacter. The escape-sequence hook is a stub with no effect. */
  method ReceiveCharacter(cli: Cli, c: char) returns (r: int)
    requires cli.Valid()
    modifies cli`PendingBytes, cli`Output, cli`LastError, cli.RxBuffer
    ensures cli.Valid() && Step(r, cli.Snap()) == Receive(cli.Cfg(), old(cli.Snap()), c)
  {
    if c == NUL {
      return ReceivedNull;
    }
    if cli.PendingBytes >= cli.RxBufferSize {
      return CopyWouldOverflow;
    }
    StoreByte(cli, c);
    if c == BackspaceChar {
      Backspace(cli);
    }
    EchoByte(cli, c);
    r := Ok;
  }

  /** The byte written at the pending position, which then moves on. */
  method StoreByte(cli: Cli, c: char)
    requires cli.Valid() && c != NUL && cli.PendingBytes < cli.RxBufferSize
    modifies cli`PendingBytes, cli.RxBuffer
    ensures cli.Valid() && cli.Snap() == Store(old(cli.Snap()), c)
  {
    cli.RxBuffer[cli.PendingBytes] := c;
    cli.PendingBytes := cli.PendingBytes + 1;
  }

  /** The local echo of a received byte. */
  method EchoByte(cli: Cli, c: char)
    requires cli.Valid()
    modifies cli`Output, cli`LastError
    ensures cli.Valid() && cli.Snap() == Echo(cli.Cfg(), old(cli.Snap()), c)
  {
    if cli.LocalEcho {
      var _ := Write(cli, 1, [c]);
      assert [c][..1] == [c];
    }
  }

  /** Bricli_ReceiveIndexedArray: bytes data[index .. index + length), in order. */
  method ReceiveIndexedArray(cli: Cli, index: nat, length: nat, data: seq<char>) returns (r: int)
    requires cli.Valid() && index + length <= |data|
    modifies cli`PendingBytes, cli`Output, cli`LastError, cli.RxBuffer
    ensures cli.Valid()
    ensures Step(r, cli.Snap()) == ReceiveAll(cli.Cfg(), old(cli.Snap()), data[index..index + length])
  {
    ghost var s0 := cli.Snap();
    ghost var cfg := cli.Cfg();
    ghost var cs := data[index..];
    r := Unknown;
    var i := index;
    while i < index + length
      invariant index <= i <= index + length
      invariant cli.Valid() && cli.Cfg() == cfg
      invariant Step(r, cli.Snap()) == ReceiveAll(cfg, s0, cs[..i - index])
      invariant i == index || r == Ok
    {
      ghost var before, r0 := cli.Snap(), r;
      r := ReceiveCharacter(cli, data[i]);
      ReceiveLoopStep(cfg, s0, cs[..i - index], cs[i - index], r0, before, r, cli.Snap());
      PrefixSnoc(cs, i - index);
      if r != Ok {
        StopsAtRefusal(cfg, s0, cs[..i - index + 1], cs[i - index + 1..length]);
        PrefixSplit(cs, i - index + 1, length);
        assert cs[..length] == data[index..index + length];
        return;
      }
      i := i + 1;
    }
    assert cs[..length] == data[index..index + length];
  }

  /** Bricli_ReceiveArray: the same as receiving from index 0. */
  method ReceiveArray(cli: Cli, length: nat, data: seq<char>) returns (r: int)
    requires cli.Valid() && length <= |data|
    modifies cli`PendingBytes, cli`Output, cli`LastError, cli.RxBuffer
    ensures cli.Valid()
    ensures Step(r, cli.Snap()) == ReceiveAll(cli.Cfg(), old(cli.Snap()), data[..length])
  {
    r := ReceiveIndexedArray(cli, 0, length, data);
    assert data[0..length] == data[..length];
  }
}
