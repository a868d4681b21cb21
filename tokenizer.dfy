/**
 * Argument extraction (Bricli_ExtractArguments, source/bricli.c:102-170, in
 * its strtok_r configuration): the argument text is cut at spaces, at most
 * MaxArguments arguments are kept, and an argument that starts with a
 * double quote runs on to the next double quote found after the current
 * space-delimited token.
 */
module Tokenizer {
  import opened Optional
  import opened CStrings
  import opened Handle

  const Space: set<char> := {' '}
  const Quote: char := '"'

  /** The argument count, where each argument starts in the buffer, and the buffer left behind. */
  datatype Extraction = Extraction(count: nat, found: seq<nat>, buf: seq<char>)

  /** The arguments as the handler sees them: the C strings at the starts found. */
  function Arguments(r: Extraction): seq<string>
    requires Terminated(r.buf) && forall k :: 0 <= k < |r.found| ==> r.found[k] < |r.buf|
  {
    StringsAt(r.buf, r.found)
  }

  /** What one turn of the loop does with the current token. */
  datatype Turn =
    | GiveUp(buf: seq<char>)                     // a quoted token with no closing quote
    | Keep(buf: seq<char>, start: nat, from: nat) // keep `start`; strtok_r goes on from `from`

  /**
   * One turn on the token at `t`: a quoted token loses its quote, the space
   * strtok_r cut after it is put back, and the token is closed at the next
   * quote at or after the save pointer.
   */
  function TurnAt(buf: seq<char>, t: nat, save: nat): (r: Turn)
    requires Terminated(buf) && t < save < |buf|
    ensures |r.buf| == |buf| && Terminated(r.buf)
    ensures r.Keep? ==> r.start < r.from < |buf|
  {
    if buf[t] == Quote then
      var b1 := Reopened(buf, save);
      var q := StrChr(b1, save, Quote);
      if q.None? then GiveUp(b1) else Keep(b1[q.value := NUL], t + 1, q.value + 1)
    else Keep(buf, t, save)
  }

  /**
   * The extraction loop from the state (buffer, current token, save
   * pointer, starts kept so far); a quoted token with no closing quote makes
   * the whole extraction yield no arguments.
   */
  function ExtractLoop(buf: seq<char>, token: Option<nat>, save: nat, found: seq<nat>): (r: Extraction)
    requires Terminated(buf) && save < |buf| && |found| <= MaxArguments
    requires token.Some? ==> token.value < save
    requires forall k :: 0 <= k < |found| ==> found[k] < |buf|
    ensures r.count == |r.found| <= MaxArguments
    ensures |r.buf| == |buf| && Terminated(r.buf)
    ensures forall k :: 0 <= k < |r.found| ==> r.found[k] < |r.buf|
    decreases MaxArguments - |found|
  {
    if token.None? || |found| == MaxArguments then Extraction(|found|, found, buf)
    else
      match TurnAt(buf, token.value, save)
      case GiveUp(b) => Extraction(0, [], b)
      case Keep(b, start, from) =>
        var step := StrTokStep(b, from, Space);
        ExtractLoop(step.buf, step.token, step.save, found + [start])
  }

  /** The buffer with the space strtok_r cut just before `save` put back. */
  function Reopened(buf: seq<char>, save: nat): (b: seq<char>)
    requires Terminated(buf) && 0 < save < |buf|
    ensures |b| == |buf| && Terminated(b)
  {
    if buf[save - 1] == NUL then buf[save - 1 := ' '] else buf
  }

  /** Bricli_ExtractArguments on the NUL-terminated argument text in `s`. */
  function Extract(s: seq<char>): (r: Extraction)
    requires Terminated(s)
    ensures r.count == |r.found| <= MaxArguments
    ensures |r.buf| == |s| && Terminated(r.buf)
    ensures forall k :: 0 <= k < |r.found| ==> r.found[k] < |r.buf|
  {
    var step := StrTokStep(s, 0, Space);
    ExtractLoop(step.buf, step.token, step.save, [])
  }

  // ----- Without quotes, the arguments are the first fields -----

  /** The fields still to come in a loop state: the current token, then the fields after the save pointer. */
  function Upcoming(buf: seq<char>, token: Option<nat>, save: nat): seq<string>
    requires Terminated(buf) && save < |buf| && (token.Some? ==> token.value < save)
  {
    if token.None? then [] else [CStringAt(buf, token.value)] + CFields(buf, save, Space)
  }

  /** Every C string at `starts` (and the current token) ends at or before the save pointer. */
  predicate EndsBefore(buf: seq<char>, token: Option<nat>, save: nat, starts: seq<nat>)
    requires Terminated(buf) && save < |buf| && (token.Some? ==> token.value < save)
    requires forall k :: 0 <= k < |starts| ==> starts[k] < |buf|
  {
    (forall k :: 0 <= k < |starts| ==> starts[k] + Strlen(buf, starts[k]) <= save) &&
    (token.Some? ==> token.value + Strlen(buf, token.value) <= save)
  }

  /** No field starts with a double quote. */
  predicate Unquoted(fields: seq<string>) {
    |fields| == 0 || ((fields[0] == [] || fields[0][0] != Quote) && Unquoted(fields[1..]))
  }

  /** The first `room` fields, or all of them when there are fewer: those the loop still reaches. */
  function Reached(fields: seq<string>, room: nat): seq<string> {
    fields[..if |fields| < room then |fields| else room]
  }

  /** The token strtok_r returns ends, as a C string, at or before the new save pointer. */
  lemma StepTokenEnds(s: seq<char>, from: nat)
    requires Terminated(s) && from < |s|
    requires StrTokStep(s, from, Space).token.Some?
    ensures var step := StrTokStep(s, from, Space);
      step.token.value + Strlen(step.buf, step.token.value) <= step.save
  {
    var step := StrTokStep(s, from, Space);
    var t := SpanEnd(s, from, Space);
    var e := BreakEnd(s, t, Space);
    assert step.buf[e] == NUL && forall k :: t <= k < e ==> step.buf[k] != NUL;
    StrlenIs(step.buf, t, e - t);
  }

  /** A strtok_r step from `save` keeps every C string that ends at or before `save`. */
  lemma StepKeepsStrings(s: seq<char>, save: nat, starts: seq<nat>)
    requires Terminated(s) && save < |s|
    requires forall k :: 0 <= k < |starts| ==> starts[k] < |s| && starts[k] + Strlen(s, starts[k]) <= save
    ensures var b := StrTokStep(s, save, Space).buf;
      StringsAt(b, starts) == StringsAt(s, starts) &&
      forall k :: 0 <= k < |starts| ==> Strlen(b, starts[k]) == Strlen(s, starts[k])
  {
    var b := StrTokStep(s, save, Space).buf;
    forall k | 0 <= k < |starts|
      ensures CStringAt(b, starts[k]) == CStringAt(s, starts[k])
      ensures Strlen(b, starts[k]) == Strlen(s, starts[k])
    {
      var i := starts[k];
      var n := Strlen(s, i);
      assert forall j :: i <= j <= i + n ==> b[j] == s[j];
      CStringAgree(s, b, i);
    }
    StringsAtSame(s, b, starts);
  }

  lemma {:induction false} StringsAtSame(s: seq<char>, b: seq<char>, starts: seq<nat>)
    requires Terminated(s) && Terminated(b)
    requires forall k :: 0 <= k < |starts| ==> starts[k] < |s| && starts[k] < |b|
    requires forall k :: 0 <= k < |starts| ==> CStringAt(b, starts[k]) == CStringAt(s, starts[k])
    ensures StringsAt(b, starts) == StringsAt(s, starts)
    decreases |starts|
  {
    if starts != [] {
      StringsAtSame(s, b, starts[1..]);
    }
  }

  lemma {:induction false} StringsAtSnoc(s: seq<char>, starts: seq<nat>, i: nat)
    requires Terminated(s) && i < |s| && forall k :: 0 <= k < |starts| ==> starts[k] < |s|
    ensures StringsAt(s, starts + [i]) == StringsAt(s, starts) + [CStringAt(s, i)]
    decreases |starts|
  {
    if starts == [] {
      assert starts + [i] == [i];
    } else {
      assert (starts + [i])[1..] == starts[1..] + [i];
      StringsAtSnoc(s, starts[1..], i);
    }
  }

  /** One plain (unquoted) turn of the loop: the current token joins the arguments. */
  lemma PlainTurn(buf: seq<char>, t: nat, save: nat, found: seq<nat>)
    requires Terminated(buf) && t < save < |buf|
    requires forall k :: 0 <= k < |found| ==> found[k] < |buf|
    requires EndsBefore(buf, Some(t), save, found)
    ensures var step := StrTokStep(buf, save, Space);
      (forall k :: 0 <= k < |found + [t]| ==> (found + [t])[k] < |step.buf|) &&
      StringsAt(step.buf, found + [t]) == StringsAt(buf, found) + [CStringAt(buf, t)] &&
      Upcoming(step.buf, step.token, step.save) == CFields(buf, save, Space) &&
      EndsBefore(step.buf, step.token, step.save, found + [t])
  {
    var step := StrTokStep(buf, save, Space);
    var kept := found + [t];
    StepKeepsStrings(buf, save, kept);
    StringsAtSnoc(buf, found, t);
    StepFields(buf, save, Space);
    if step.token.Some? {
      StepTokenEnds(buf, save);
    }
  }

  /** An unquoted token is kept as it is and the loop goes on after the next strtok_r step. */
  lemma LoopKeepsPlainToken(buf: seq<char>, t: nat, save: nat, found: seq<nat>)
    requires Terminated(buf) && t < save < |buf| && |found| < MaxArguments
    requires forall k :: 0 <= k < |found| ==> found[k] < |buf|
    requires buf[t] != Quote
    ensures var step := StrTokStep(buf, save, Space);
      ExtractLoop(buf, Some(t), save, found) == ExtractLoop(step.buf, step.token, step.save, found + [t])
  {
  }

  /**
   * When the fields the loop reaches are unquoted, so is the current token,
   * and so are the fields it reaches after taking that token.
   */
  lemma UnquotedHead(buf: seq<char>, t: nat, save: nat, rest: seq<string>, room: nat)
    requires Terminated(buf) && t < save < |buf| && room > 0
    requires Unquoted(Reached(Upcoming(buf, Some(t), save), room)) && Upcoming(buf, Some(t), save) == [CStringAt(buf, t)] + rest
    ensures buf[t] != Quote && Unquoted(Reached(rest, room - 1))
  {
    var up := Reached(Upcoming(buf, Some(t), save), room);
    var w := CStringAt(buf, t);
    assert up[0] == w && up[1..] == Reached(rest, room - 1);
    if |w| > 0 {
      assert w[0] == buf[t];
    }
  }

  /** Taking one more field after the kept ones. */
  lemma TakeOneMore(kept: seq<string>, x: string, rest: seq<string>, room: nat)
    requires room > 0
    ensures var m := if |rest| < room - 1 then |rest| else room - 1;
      var up := [x] + rest;
      (kept + [x]) + rest[..m] == kept + up[..if |up| < room then |up| else room]
  {
    var m := if |rest| < room - 1 then |rest| else room - 1;
    var up := [x] + rest;
    assert up[..m + 1] == [x] + rest[..m];
  }

  /**
   * From any loop state whose upcoming fields hold no quoted one, the loop
   * keeps the arguments found so far and adds upcoming fields, in order,
   * until MaxArguments are kept.
   */
  lemma {:induction false} PlainLoop(buf: seq<char>, token: Option<nat>, save: nat, found: seq<nat>)
    requires Terminated(buf) && save < |buf| && |found| <= MaxArguments
    requires token.Some? ==> token.value < save
    requires forall k :: 0 <= k < |found| ==> found[k] < |buf|
    requires EndsBefore(buf, token, save, found)
    requires Unquoted(Reached(Upcoming(buf, token, save), MaxArguments - |found|))
    ensures var r := ExtractLoop(buf, token, save, found);
      var up := Upcoming(buf, token, save);
      var room := MaxArguments - |found|;
      Arguments(r) == StringsAt(buf, found) + up[..if |up| < room then |up| else room]
    decreases MaxArguments - |found|
  {
    if token.None? || |found| == MaxArguments {
      var up := Upcoming(buf, token, save);
      assert up[..if |up| < MaxArguments - |found| then |up| else MaxArguments - |found|] == [];
    } else {
      var t := token.value;
      var step := StrTokStep(buf, save, Space);
      var rest := Upcoming(step.buf, step.token, step.save);
      PlainTurn(buf, t, save, found);
      UnquotedHead(buf, t, save, rest, MaxArguments - |found|);
      LoopKeepsPlainToken(buf, t, save, found);
      PlainLoop(step.buf, step.token, step.save, found + [t]);
      TakeOneMore(StringsAt(buf, found), CStringAt(buf, t), rest, MaxArguments - |found|);
    }
  }

  /**
   * Argument text none of whose first MaxArguments fields starts with a
   * quote yields those fields, in order; runs of spaces separate and never
   * produce arguments, and fields past the third are never looked at.
   */
  lemma PlainArguments(s: seq<char>)
    requires Terminated(s) && Unquoted(Reached(CFields(s, 0, Space), MaxArguments))
    ensures var fields := CFields(s, 0, Space);
      var n := if |fields| < MaxArguments then |fields| else MaxArguments;
      Extract(s).count == n && Arguments(Extract(s)) == fields[..n]
  {
    var step := StrTokStep(s, 0, Space);
    StepFields(s, 0, Space);
    if step.token.Some? {
      StepTokenEnds(s, 0);
    }
    PlainLoop(step.buf, step.token, step.save, []);
  }

  /** One turn of the loop, in place on the argument buffer. */
  method TakeTurn(a: array<char>, t: nat, save: nat) returns (keep: bool, start: nat, from: nat)
    requires Terminated(a[..]) && t < save < a.Length
    modifies a
    ensures TurnAt(old(a[..]), t, save) == if keep then Keep(a[..], start, from) else GiveUp(a[..])
  {
    if a[t] != Quote {
      return true, t, save;
    }
    if a[save - 1] == NUL {
      a[save - 1] := ' ';
    }
    var q := StrChr(a[..], save, Quote);
    if q.None? {
      return false, 0, 0;
    }
    a[q.value] := NUL;
    return true, t + 1, q.value + 1;
  }

  /** One round of the strtok_r loop: take the turn on `t`, then the next strtok_r call. */
  method NextArgument(a: array<char>, t: nat, save: nat, found: seq<nat>)
    returns (keep: bool, token: Option<nat>, save': nat, found': seq<nat>)
    requires Terminated(a[..]) && t < save < a.Length && |found| < MaxArguments
    requires forall k :: 0 <= k < |found| ==> found[k] < a.Length
    modifies a
    ensures Terminated(a[..]) && save' < a.Length && |found'| == |found| + 1
    ensures token.Some? ==> token.value < save'
    ensures forall k :: 0 <= k < |found'| ==> found'[k] < a.Length
    ensures ExtractLoop(old(a[..]), Some(t), save, found) ==
      if keep then ExtractLoop(a[..], token, save', found') else Extraction(0, [], a[..])
  {
    ghost var before := a[..];
    var start, from;
    keep, start, from := TakeTurn(a, t, save);
    if !keep {
      return false, None, 0, found + [t];
    }
    found' := found + [start];
    LoopKeepsTurn(before, t, save, found, a[..], start, from);
    token, save' := StrTokR(a, from, Space);
  }

  /** Bricli_ExtractArguments: the strtok_r loop, in place on the argument buffer. */
  method ExtractArguments(a: array<char>) returns (count: nat, found: seq<nat>)
    requires Terminated(a[..])
    modifies a
    ensures Extraction(count, found, a[..]) == Extract(old(a[..]))
  {
    var token: Option<nat>, save: nat := StrTokR(a, 0, Space);
    found := [];
    while token.Some? && |found| < MaxArguments
      invariant Terminated(a[..]) && save < a.Length && |found| <= MaxArguments
      invariant token.Some? ==> token.value < save
      invariant forall k :: 0 <= k < |found| ==> found[k] < a.Length
      invariant ExtractLoop(a[..], token, save, found) == Extract(old(a[..]))
      decreases MaxArguments - |found|
    {
      var keep;
      keep, token, save, found := NextArgument(a, token.value, save, found);
      if !keep {
        return 0, [];
      }
    }
    count := |found|;
  }

  // ----- Quoted arguments -----

  /** Reopening and strchr read the same C string from the save pointer on. */
  lemma ReopenedFromSave(buf: seq<char>, save: nat)
    requires Terminated(buf) && 0 < save < |buf|
    ensures var b := Reopened(buf, save);
      Strlen(b, save) == Strlen(buf, save) &&
      (forall k :: save <= k < |buf| ==> b[k] == buf[k]) &&
      (forall k :: 0 <= k < save - 1 ==> b[k] == buf[k])
  {
    StrlenIs(Reopened(buf, save), save, Strlen(buf, save));
  }

  /** strchr from the save pointer on a quoted token cut at `cut` finds the quote `q`. */
  lemma QuoteCloses(buf: seq<char>, t: nat, cut: nat, q: nat)
    requires Terminated(buf) && t <= cut && cut + 1 < |buf| && buf[t] == Quote && buf[cut] == NUL
    requires cut + 1 <= q < cut + 1 + Strlen(buf, cut + 1) && buf[q] == Quote
    requires forall k :: cut + 1 <= k < q ==> buf[k] != Quote
    ensures TurnAt(buf, t, cut + 1) == Keep(buf[cut := ' '][q := NUL], t + 1, q + 1)
  {
    var save := cut + 1;
    var b1 := Reopened(buf, save);
    ReopenedFromSave(buf, save);
    assert b1 == buf[cut := ' '];
    var found := StrChr(b1, save, Quote);
    assert found == Some(q) by {
      if found.None? {
        assert false;
      } else if found.value < q {
        assert false;
      } else if found.value > q {
        assert false;
      }
    }
  }

  /** The C string from just after the opening quote once the space is back and the closing quote is cut. */
  lemma QuoteJoined(buf: seq<char>, t: nat, cut: nat, q: nat)
    requires Terminated(buf) && t < cut < q < |buf| && t + Strlen(buf, t) == cut
    requires q < cut + 1 + Strlen(buf, cut + 1)
    ensures CStringAt(buf[cut := ' '][q := NUL], t + 1) == buf[t + 1..cut] + [' '] + buf[cut + 1..q]
  {
    var b2 := buf[cut := ' '][q := NUL];
    assert forall k :: t + 1 <= k < q ==> b2[k] != NUL;
    StrlenIs(b2, t + 1, q - (t + 1));
    assert b2[t + 1..q] == buf[t + 1..cut] + [' '] + buf[cut + 1..q];
  }

  /**
   * A quoted token cut at a space (`cut`, overwritten by NUL) runs on to
   * the first quote `q` after it: the kept argument is the token without
   * its quote, the space put back, and the text up to that quote.
   */
  lemma QuoteJoins(buf: seq<char>, t: nat, cut: nat, q: nat, w: string)
    requires Terminated(buf) && t <= cut && cut + 1 < |buf| && buf[t] == Quote
    requires buf[cut] == NUL && t + Strlen(buf, t) == cut
    requires cut + 1 <= q < cut + 1 + Strlen(buf, cut + 1) && buf[q] == Quote
    requires forall k :: cut + 1 <= k < q ==> buf[k] != Quote
    requires w == buf[t + 1..cut] + [' '] + buf[cut + 1..q]
    ensures var r := TurnAt(buf, t, cut + 1);
      r == Keep(r.buf, t + 1, q + 1) && CStringAt(r.buf, t + 1) == w && t + 1 + |w| < q + 1
  {
    QuoteCloses(buf, t, cut, q);
    QuoteJoined(buf, t, cut, q);
  }

  /** A quoted token with no quote after the save pointer makes the whole extraction yield nothing. */
  lemma QuoteUnclosed(buf: seq<char>, t: nat, save: nat, found: seq<nat>)
    requires Terminated(buf) && t < save < |buf| && |found| < MaxArguments
    requires forall k :: 0 <= k < |found| ==> found[k] < |buf|
    requires buf[t] == Quote
    requires forall k :: save <= k < save + Strlen(buf, save) ==> buf[k] != Quote
    ensures ExtractLoop(buf, Some(t), save, found) == Extraction(0, [], Reopened(buf, save))
  {
    var b1 := Reopened(buf, save);
    ReopenedFromSave(buf, save);
    var r := StrChr(b1, save, Quote);
    if r.Some? {
      assert false;
    }
  }

  /** A kept token joins the arguments and the loop goes on after the next strtok_r step. */
  lemma LoopKeepsTurn(buf: seq<char>, t: nat, save: nat, found: seq<nat>, b: seq<char>, start: nat, from: nat)
    requires Terminated(buf) && t < save < |buf| && |found| < MaxArguments
    requires forall k :: 0 <= k < |found| ==> found[k] < |buf|
    requires TurnAt(buf, t, save) == Keep(b, start, from)
    ensures var step := StrTokStep(b, from, Space);
      ExtractLoop(buf, Some(t), save, found) == ExtractLoop(step.buf, step.token, step.save, found + [start])
  {
  }

  /** A buffer that differs from `s` only at `e`, where `s` holds a space, read from `i` to `q`. */
  lemma SpliceAt(s: seq<char>, b: seq<char>, i: nat, e: nat, q: nat)
    requires i <= e < q <= |s| == |b| && s[e] == ' '
    requires forall k :: 0 <= k < |s| && k != e ==> b[k] == s[k]
    ensures b[i..e] + [' '] + b[e + 1..q] == s[i..q]
  {
    assert s[i..q] == s[i..e] + [s[e]] + s[e + 1..q];
  }

  /** One turn changes nothing before the current token. */
  lemma TurnKeepsBefore(buf: seq<char>, t: nat, save: nat)
    requires Terminated(buf) && t < save < |buf|
    ensures var r := TurnAt(buf, t, save);
      (forall k :: 0 <= k < t ==> r.buf[k] == buf[k]) && (r.Keep? ==> t <= r.start)
  {
    if buf[t] == Quote {
      ReopenedFromSave(buf, save);
    }
  }

  /**
   * The rest of the loop changes nothing before the current token, and it
   * keeps the arguments found so far unless a quote is left unclosed.
   */
  lemma {:induction false} LoopKeepsBefore(buf: seq<char>, token: Option<nat>, save: nat, found: seq<nat>, m: nat)
    requires Terminated(buf) && save < |buf| && |found| <= MaxArguments
    requires token.Some? ==> token.value < save
    requires forall k :: 0 <= k < |found| ==> found[k] < |buf|
    requires m <= save && (token.Some? ==> m <= token.value)
    ensures var r := ExtractLoop(buf, token, save, found);
      (forall k :: 0 <= k < m ==> r.buf[k] == buf[k]) &&
      ((r.count == 0 && r.found == []) || found <= r.found)
    decreases MaxArguments - |found|
  {
    if token.Some? && |found| < MaxArguments {
      var t := token.value;
      TurnKeepsBefore(buf, t, save);
      match TurnAt(buf, t, save)
      case GiveUp(b) =>
      case Keep(b, start, from) =>
        var step := StrTokStep(b, from, Space);
        LoopKeepsBefore(step.buf, step.token, step.save, found + [start], m);
    }
  }

  /**
   * A token kept with its C string ending before `from` stays the argument
   * it became, unless a later quote is left unclosed.
   */
  lemma KeptStays(b: seq<char>, start: nat, from: nat, found: seq<nat>, w: string)
    requires Terminated(b) && start < from < |b| && |found| < MaxArguments
    requires forall k :: 0 <= k < |found| ==> found[k] < |b|
    requires CStringAt(b, start) == w && start + |w| < from
    ensures var step := StrTokStep(b, from, Space);
      var r := ExtractLoop(step.buf, step.token, step.save, found + [start]);
      r.count == 0 || (|found| < r.count && r.found[|found|] == start && CStringAt(r.buf, start) == w)
  {
    var step := StrTokStep(b, from, Space);
    KeptSurvivesLoop(b, step.buf, step.token, step.save, start, from, found, w);
  }

  /** KeptStays for any buffer that agrees with `b` before `from`, and any token and save from there on. */
  lemma KeptSurvivesLoop(b: seq<char>, buf: seq<char>, token: Option<nat>, save: nat,
                         start: nat, from: nat, found: seq<nat>, w: string)
    requires Terminated(b) && Terminated(buf) && |buf| == |b| && start < from <= save < |b|
    requires token.Some? ==> from <= token.value < save
    requires forall k :: 0 <= k < from ==> buf[k] == b[k]
    requires |found| < MaxArguments && forall k :: 0 <= k < |found| ==> found[k] < |b|
    requires CStringAt(b, start) == w && start + |w| < from
    ensures var r := ExtractLoop(buf, token, save, found + [start]);
      r.count == 0 || (|found| < r.count && r.found[|found|] == start && CStringAt(r.buf, start) == w)
  {
    var kept := found + [start];
    var r := ExtractLoop(buf, token, save, kept);
    LoopKeepsBefore(buf, token, save, kept, from);
    if r.count != 0 {
      KeptAgree(b, r.buf, r.found, start, from, found, w);
    }
  }

  /** A buffer unchanged before `from` and starts extending `found + [start]` still give `w` at `start`. */
  lemma KeptAgree(b: seq<char>, rb: seq<char>, rfound: seq<nat>, start: nat, from: nat, found: seq<nat>, w: string)
    requires Terminated(b) && Terminated(rb) && start < from < |b| == |rb|
    requires CStringAt(b, start) == w && start + |w| < from
    requires forall k :: 0 <= k < from ==> rb[k] == b[k]
    requires found + [start] <= rfound
    ensures |found| < |rfound| && rfound[|found|] == start && CStringAt(rb, start) == w
  {
    assert (found + [start])[|found|] == start;
    CStringAgree(b, rb, start);
  }

  /** Argument `i` is `w`, unless the extraction yielded nothing. */
  predicate KeepsArgument(r: Extraction, i: nat, w: string)
    requires Terminated(r.buf) && forall k :: 0 <= k < |r.found| ==> r.found[k] < |r.buf|
  {
    r.count == 0 || (i < r.count == |r.found| && Arguments(r)[i] == w)
  }

  /** A turn that keeps a token whose C string ends before `from` adds it as the next argument for good. */
  lemma TurnKept(buf: seq<char>, t: nat, save: nat, found: seq<nat>, b: seq<char>, start: nat, from: nat, w: string)
    requires Terminated(buf) && t < save < |buf| && |found| < MaxArguments
    requires forall k :: 0 <= k < |found| ==> found[k] < |buf|
    requires TurnAt(buf, t, save) == Keep(b, start, from)
    requires CStringAt(b, start) == w && start + |w| < from
    ensures KeepsArgument(ExtractLoop(buf, Some(t), save, found), |found|, w)
  {
    LoopKeepsTurn(buf, t, save, found, b, start, from);
    KeptStays(b, start, from, found, w);
    var r := ExtractLoop(buf, Some(t), save, found);
    if r.count != 0 {
      StringsAtIndex(r.buf, r.found, |found|);
    }
  }

  /** A first turn that keeps a token makes it the first argument for good. */
  lemma FirstKept(s: seq<char>, buf: seq<char>, t: nat, save: nat, b: seq<char>, start: nat, from: nat, w: string)
    requires Terminated(s) && Terminated(buf) && t < save < |buf|
    requires Extract(s) == ExtractLoop(buf, Some(t), save, [])
    requires TurnAt(buf, t, save) == Keep(b, start, from)
    requires CStringAt(b, start) == w && start + |w| < from
    ensures KeepsArgument(Extract(s), 0, w)
  {
    TurnKept(buf, t, save, [], b, start, from, w);
  }

  /** Extraction goes on from the first strtok_r call with no argument kept. */
  lemma ExtractFirstTurn(s: seq<char>, b: seq<char>, t: nat, save: nat)
    requires Terminated(s) && Terminated(b) && t < save < |b|
    requires StrTokStep(s, 0, Space) == Tok(Some(t), b, save)
    ensures Extract(s) == ExtractLoop(b, Some(t), save, [])
  {
  }

  /** The first strtok_r call on the argument text, with the token at `t` ending at `e`. */
  lemma FirstToken(s: seq<char>, t: nat, e: nat)
    requires Terminated(s) && t == SpanEnd(s, 0, Space) && s[t] != NUL && e == BreakEnd(s, t, Space)
    ensures t < e <= Strlen(s, 0) && (s[e] == NUL <==> e == Strlen(s, 0))
  {
    var n := Strlen(s, 0);
    assert t <= n by {
      if t > n {
        assert false;
      }
    }
    assert e <= n by {
      if e > n {
        assert false;
      }
    }
  }

  /** The first token ends at a space, which strtok_r overwrites. */
  lemma FirstCut(s: seq<char>, t: nat, e: nat)
    requires Terminated(s) && t == SpanEnd(s, 0, Space) && s[t] != NUL
    requires e == BreakEnd(s, t, Space) && s[e] != NUL
    ensures StrTokStep(s, 0, Space) == Tok(Some(t), s[e := NUL], e + 1)
  {
  }

  /** The first token runs to the end of the text; the save pointer stays at the NUL. */
  lemma FirstAtEnd(s: seq<char>, t: nat, e: nat)
    requires Terminated(s) && t == SpanEnd(s, 0, Space) && s[t] != NUL
    requires e == BreakEnd(s, t, Space) && s[e] == NUL
    ensures StrTokStep(s, 0, Space) == Tok(Some(t), s, e)
  {
  }

  /** strlen just after a delimiter strtok_r overwrote with NUL. */
  lemma StrlenAfterCut(s: seq<char>, e: nat)
    requires Terminated(s) && e < Strlen(s, 0)
    ensures Strlen(s[e := NUL], e + 1) == Strlen(s, 0) - (e + 1)
  {
    var n := Strlen(s, 0);
    var b := s[e := NUL];
    assert forall k :: e + 1 <= k < n ==> b[k] != NUL;
    StrlenIs(b, e + 1, n - (e + 1));
  }

  /** Extraction after the first token, cut at a space by strtok_r. */
  lemma FirstCutStart(s: seq<char>, t: nat, e: nat)
    requires Terminated(s) && t == SpanEnd(s, 0, Space) && s[t] != NUL
    requires e == BreakEnd(s, t, Space) && s[e] != NUL
    ensures e + 1 < |s| && Extract(s) == ExtractLoop(s[e := NUL], Some(t), e + 1, [])
  {
    FirstToken(s, t, e);
    var b := s[e := NUL];
    assert StrTokStep(s, 0, Space) == Tok(Some(t), b, e + 1) by {
      FirstCut(s, t, e);
    }
    ExtractFirstTurn(s, b, t, e + 1);
  }

  /** Extraction after the first token, which runs to the end of the text. */
  lemma FirstEndStart(s: seq<char>, t: nat, e: nat)
    requires Terminated(s) && t == SpanEnd(s, 0, Space) && s[t] != NUL
    requires e == BreakEnd(s, t, Space) && s[e] == NUL
    ensures t < e && Extract(s) == ExtractLoop(s, Some(t), e, [])
  {
    assert StrTokStep(s, 0, Space) == Tok(Some(t), s, e) by {
      FirstAtEnd(s, t, e);
    }
    ExtractFirstTurn(s, s, t, e);
  }

  /** The turn on a quoted token from `t` cut at the space `e`, closed by the quote at `q`. */
  lemma CutQuotedTurn(s: seq<char>, t: nat, e: nat, q: nat)
    requires Terminated(s) && t < e < q < |s| && s[t] == Quote && s[e] == ' ' && s[q] == Quote
    requires forall k :: e < k < q ==> s[k] != Quote
    requires t + Strlen(s[e := NUL], t) == e && q < e + 1 + Strlen(s[e := NUL], e + 1)
    ensures var turn := TurnAt(s[e := NUL], t, e + 1);
      turn == Keep(turn.buf, t + 1, q + 1) && CStringAt(turn.buf, t + 1) == s[t + 1..q] &&
      t + 1 + |s[t + 1..q]| < q + 1
  {
    var b := s[e := NUL];
    SpliceAt(s, b, t + 1, e, q);
    QuoteJoins(b, t, e, q, s[t + 1..q]);
  }

  /** The first turn on a quoted first token cut at a space, closed by the quote at `q`. */
  lemma FirstQuotedTurn(s: seq<char>, t: nat, e: nat, q: nat)
    requires Terminated(s) && t == SpanEnd(s, 0, Space) && s[t] == Quote
    requires e == BreakEnd(s, t, Space) && s[e] != NUL
    requires e < q < Strlen(s, 0) && s[q] == Quote && forall k :: e < k < q ==> s[k] != Quote
    ensures var turn := TurnAt(s[e := NUL], t, e + 1);
      turn == Keep(turn.buf, t + 1, q + 1) && CStringAt(turn.buf, t + 1) == s[t + 1..q] &&
      t + 1 + |s[t + 1..q]| < q + 1
  {
    FirstToken(s, t, e);
    CutToken(s, 0, t, e);
    StrlenAfterCut(s, e);
    CutQuotedTurn(s, t, e, q);
  }

  /**
   * When the first argument is quoted and its token (from `t` to `e`) ends
   * at a space, it is the text between that quote and the first quote `q`
   * after the space, or extraction returns no argument at all
   * (FirstQuotedThenPlain and QuoteUnclosed say when each happens).
   */
  lemma FirstQuoted(s: seq<char>, t: nat, e: nat, q: nat)
    requires Terminated(s) && t == SpanEnd(s, 0, Space) && s[t] == Quote
    requires e == BreakEnd(s, t, Space) && s[e] != NUL
    requires e < q < Strlen(s, 0) && s[q] == Quote && forall k :: e < k < q ==> s[k] != Quote
    ensures KeepsArgument(Extract(s), 0, s[t + 1..q])
  {
    FirstCutStart(s, t, e);
    FirstQuotedTurn(s, t, e, q);
    var b := s[e := NUL];
    FirstKept(s, b, t, e + 1, TurnAt(b, t, e + 1).buf, t + 1, q + 1, s[t + 1..q]);
  }

  /**
   * A quoted first argument closed by the quote at `q`, followed by fields
   * none of which the loop reaches starts with a quote: the arguments are
   * the quoted text and then those fields, MaxArguments at most in all.
   */
  lemma FirstQuotedThenPlain(s: seq<char>, t: nat, e: nat, q: nat)
    requires Terminated(s) && t == SpanEnd(s, 0, Space) && s[t] == Quote
    requires e == BreakEnd(s, t, Space) && s[e] != NUL
    requires e < q < Strlen(s, 0) && s[q] == Quote && forall k :: e < k < q ==> s[k] != Quote
    requires Unquoted(Reached(CFields(s, q + 1, Space), MaxArguments - 1))
    ensures var fields := CFields(s, q + 1, Space);
      var m := if |fields| < MaxArguments - 1 then |fields| else MaxArguments - 1;
      Extract(s).count == 1 + m && Arguments(Extract(s)) == [s[t + 1..q]] + fields[..m]
  {
    FirstQuotedStart(s, t, e, q);
    QuotedAfterStart(s, Extract(s), t, q, s[e := NUL], e + 1, TurnAt(s[e := NUL], t, e + 1).buf, t + 1);
  }

  /** Where extraction stands after the first turn on a quoted token cut at `e` and closed at `q`. */
  lemma FirstQuotedStart(s: seq<char>, t: nat, e: nat, q: nat)
    requires Terminated(s) && t == SpanEnd(s, 0, Space) && s[t] == Quote
    requires e == BreakEnd(s, t, Space) && s[e] != NUL
    requires e < q < Strlen(s, 0) && s[q] == Quote && forall k :: e < k < q ==> s[k] != Quote
    ensures t < e < q && q + 1 < |s|
    ensures Extract(s) == ExtractLoop(s[e := NUL], Some(t), e + 1, [])
    ensures TurnAt(s[e := NUL], t, e + 1) == Keep(TurnAt(s[e := NUL], t, e + 1).buf, t + 1, q + 1)
    ensures CStringAt(TurnAt(s[e := NUL], t, e + 1).buf, t + 1) == s[t + 1..q] && t + 1 + |s[t + 1..q]| < q + 1
    ensures |TurnAt(s[e := NUL], t, e + 1).buf| == |s|
    ensures forall k :: q + 1 <= k < |s| ==> TurnAt(s[e := NUL], t, e + 1).buf[k] == s[k]
  {
    FirstCutStart(s, t, e);
    FirstQuotedTurn(s, t, e, q);
    var b := s[e := NUL];
    QuotedTurnKeepsRest(s, b, TurnAt(b, t, e + 1).buf, t, e, t + 1, q + 1);
  }

  /** From there on, the unquoted fields after the closing quote `q` follow the quoted text. */
  lemma QuotedAfterStart(s: seq<char>, r: Extraction, t: nat, q: nat, b: seq<char>, save: nat, tb: seq<char>, start: nat)
    requires Terminated(s) && q + 1 < |s| && Unquoted(Reached(CFields(s, q + 1, Space), MaxArguments - 1))
    requires Terminated(b) && t < save < |b| && t < q
    requires r == ExtractLoop(b, Some(t), save, [])
    requires TurnAt(b, t, save) == Keep(tb, start, q + 1)
    requires CStringAt(tb, start) == s[t + 1..q] && start + |s[t + 1..q]| < q + 1
    requires |tb| == |s| && forall k :: q + 1 <= k < |s| ==> tb[k] == s[k]
    ensures var fields := CFields(s, q + 1, Space);
      var m := if |fields| < MaxArguments - 1 then |fields| else MaxArguments - 1;
      r.count == 1 + m && Arguments(r) == [s[t + 1..q]] + fields[..m]
  {
    ExtractAfterFirstKeep(b, t, save, tb, start, q + 1);
    CFieldsAgree(s, tb, q + 1, Space);
    PlainAfterKept(tb, start, q + 1, s[t + 1..q]);
  }

  /** A first turn that keeps a token makes it the only start found before the next strtok_r step. */
  lemma ExtractAfterFirstKeep(buf: seq<char>, t: nat, save: nat, b: seq<char>, start: nat, from: nat)
    requires Terminated(buf) && t < save < |buf|
    requires TurnAt(buf, t, save) == Keep(b, start, from)
    ensures var step := StrTokStep(b, from, Space);
      ExtractLoop(buf, Some(t), save, []) == ExtractLoop(step.buf, step.token, step.save, [start])
  {
    LoopKeepsTurn(buf, t, save, [], b, start, from);
    assert [] + [start] == [start];
  }

  /** The quoted turn leaves the text after the closing quote as it was. */
  lemma QuotedTurnKeepsRest(s: seq<char>, b: seq<char>, tb: seq<char>, t: nat, e: nat, start: nat, from: nat)
    requires Terminated(s) && Terminated(b) && t < e && e + 1 < |b| == |s| && s[t] == Quote
    requires forall k :: 0 <= k < |s| && k != e ==> b[k] == s[k]
    requires TurnAt(b, t, e + 1) == Keep(tb, start, from)
    ensures forall k :: from <= k < |s| ==> tb[k] == s[k]
  {
    ReopenedFromSave(b, e + 1);
  }

  /**
   * After a token `w` kept at `start`, the fields from `from` on are taken
   * as the further arguments until MaxArguments are kept, when none of
   * those reached starts with a quote.
   */
  lemma PlainAfterKept(tb: seq<char>, start: nat, from: nat, w: string)
    requires Terminated(tb) && start < from < |tb|
    requires CStringAt(tb, start) == w && start + |w| < from
    requires Unquoted(Reached(CFields(tb, from, Space), MaxArguments - 1))
    ensures var step := StrTokStep(tb, from, Space);
      var r := ExtractLoop(step.buf, step.token, step.save, [start]);
      var fields := CFields(tb, from, Space);
      var m := if |fields| < MaxArguments - 1 then |fields| else MaxArguments - 1;
      r.count == 1 + m && Arguments(r) == [w] + fields[..m]
  {
    var step := StrTokStep(tb, from, Space);
    StepKeepsStrings(tb, from, [start]);
    StepFields(tb, from, Space);
    if step.token.Some? {
      StepTokenEnds(tb, from);
    }
    assert StringsAt(tb, [start]) == [w];
    PlainLoop(step.buf, step.token, step.save, [start]);
  }

  /** The argument text of the handler test's two-argument command, `"Hello World" 43`. */
  const HelloText: seq<char> := "\"Hello World\" 43" + [NUL]

  /** Its first token is the quote at 0 cut at the space at 6, and the next quote is at 12. */
  lemma HelloFirstToken()
    ensures Terminated(HelloText) && SpanEnd(HelloText, 0, Space) == 0 && HelloText[0] == Quote
    ensures BreakEnd(HelloText, 0, Space) == 6 && HelloText[6] != NUL
    ensures Strlen(HelloText, 0) == 16 && HelloText[12] == Quote
    ensures forall k :: 6 < k < 12 ==> HelloText[k] != Quote
  {
    var s := HelloText;
    StrlenIs(s, 0, 16);
    assert s[6] in Space && forall k :: 0 <= k < 6 ==> s[k] != NUL && s[k] !in Space;
  }

  /** After the closing quote at `q` there is one field, `43`. */
  lemma HelloFields(q: nat)
    requires q == 12
    ensures Terminated(HelloText) && q + 1 < |HelloText| && CFields(HelloText, q + 1, Space) == ["43"]
  {
    var s := HelloText;
    StrlenIs(s, 13, 3);
    FieldsInSkip(s, 13, 14, 16, Space);
    assert s[14] !in Space && s[15] !in Space;
    FieldsInAt(s, 14, 16, Space);
  }

  /**
   * `"Hello World" 43`, whose first token starts at `t` and is cut at `e`,
   * with the closing quote at `q`, gives two arguments, `Hello World` and `43`.
   */
  lemma QuotedExample(t: nat, e: nat, q: nat)
    requires t == 0 && e == 6 && q == 12
    ensures Extract(HelloText).count == 2 && Arguments(Extract(HelloText)) == ["Hello World", "43"]
  {
    HelloExtract(t, e, q);
    HelloQuoted(t, q);
  }

  /** The general rule for a quoted first argument, applied to that text. */
  lemma HelloExtract(t: nat, e: nat, q: nat)
    requires t == 0 && e == 6 && q == 12
    ensures Extract(HelloText).count == 2 && Arguments(Extract(HelloText)) == [HelloText[t + 1..q], "43"]
  {
    HelloFirstToken();
    HelloFields(q);
    assert Unquoted(Reached(CFields(HelloText, q + 1, Space), MaxArguments - 1));
    FirstQuotedThenPlain(HelloText, t, e, q);
    assert ["43"][..1] == ["43"];
  }

  /** The quoted text, between the quotes at `t` and `q`, is `Hello World`. */
  lemma HelloQuoted(t: nat, q: nat)
    requires t == 0 && q == 12
    ensures HelloText[t + 1..q] == "Hello World"
  {
    var w := "Hello World";
    assert |HelloText[1..12]| == |w|;
    forall k | 0 <= k < |w|
      ensures HelloText[1..12][k] == w[k]
    {
      assert HelloText[1..12][k] == HelloText[k + 1];
    }
  }

  /**
   * When the first argument is quoted and no quote follows its token, the
   * extraction yields nothing: the closing quote is only looked for after
   * the token, so `"ab"` and `"Hello" 43` give no arguments.
   */
  lemma FirstQuoteUnclosed(s: seq<char>, t: nat, e: nat)
    requires Terminated(s) && t == SpanEnd(s, 0, Space) && s[t] == Quote
    requires e == BreakEnd(s, t, Space)
    requires forall k :: e <= k < Strlen(s, 0) ==> s[k] != Quote
    ensures Extract(s).count == 0 && Extract(s).found == []
  {
    FirstToken(s, t, e);
    if s[e] == NUL {
      FirstEndStart(s, t, e);
      EndUnclosed(s, t, e);
    } else {
      FirstCutStart(s, t, e);
      CutUnclosed(s, t, e);
    }
  }

  /** A quoted first token running to the end of the text leaves no arguments. */
  lemma EndUnclosed(s: seq<char>, t: nat, e: nat)
    requires Terminated(s) && t < e < |s| && s[t] == Quote && s[e] == NUL
    ensures var r := ExtractLoop(s, Some(t), e, []); r.count == 0 && r.found == []
  {
    assert Strlen(s, e) == 0;
    QuoteUnclosed(s, t, e, []);
  }

  /** A quoted first token cut at a space, with no quote after it, leaves no arguments. */
  lemma CutUnclosed(s: seq<char>, t: nat, e: nat)
    requires Terminated(s) && t < e < Strlen(s, 0) && s[t] == Quote
    requires forall k :: e <= k < Strlen(s, 0) ==> s[k] != Quote
    ensures var r := ExtractLoop(s[e := NUL], Some(t), e + 1, []); r.count == 0 && r.found == []
  {
    var b := s[e := NUL];
    StrlenAfterCut(s, e);
    assert forall k :: e + 1 <= k < e + 1 + Strlen(b, e + 1) ==> b[k] != Quote;
    QuoteUnclosed(b, t, e + 1, []);
  }
}
