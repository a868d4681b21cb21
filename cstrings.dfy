/**
 * The C library routines the engine is built on (strlen, strstr, strchr,
 * strspn, strpbrk and the reentrant strtok_r), stated over a char buffer
 * whose last cell is a NUL.  That last cell guarantees every scan stops
 * inside the buffer, which is what the C code silently assumes.
 *
 * strtok_r is modelled as glibc implements it: a token that ends at the
 * terminating NUL leaves the save pointer AT that NUL, a token that ends
 * at a delimiter has the delimiter overwritten by NUL and the save pointer
 * just past it.  The tokenizer reads `savePointer - 1`, so this matters.
 */
module CStrings {
  import opened Optional

  const NUL: char := '\0'

  /** A buffer whose last cell is NUL, so every C-string scan stops inside it. */
  predicate Terminated(s: seq<char>)
  {
    |s| > 0 && s[|s| - 1] == NUL
  }

  /** strlen(s + i): how many characters precede the first NUL at or after i. */
  function Strlen(s: seq<char>, i: nat): (n: nat)
    requires Terminated(s) && i < |s|
    ensures i + n < |s| && s[i + n] == NUL
    ensures forall k :: i <= k < i + n ==> s[k] != NUL
    decreases |s| - i
  {
    if s[i] == NUL then 0 else 1 + Strlen(s, i + 1)
  }

  /** The C string that starts at s + i, without its terminator. */
  function CStringAt(s: seq<char>, i: nat): (w: string)
    requires Terminated(s) && i < |s|
    ensures NUL !in w && |w| == Strlen(s, i)
  {
    s[i..i + Strlen(s, i)]
  }

  /** A NUL at i + n with none before it fixes strlen(s + i) at n. */
  lemma StrlenIs(s: seq<char>, i: nat, n: nat)
    requires Terminated(s) && i + n < |s| && s[i + n] == NUL
    requires forall k :: i <= k < i + n ==> s[k] != NUL
    ensures Strlen(s, i) == n && CStringAt(s, i) == s[i..i + n]
  {
  }

  /** Two buffers that agree on a C string and its terminator hold the same C string there. */
  lemma CStringAgree(s: seq<char>, t: seq<char>, i: nat)
    requires Terminated(s) && Terminated(t) && i < |s| && i < |t|
    requires i + Strlen(s, i) < |t|
    requires forall k :: i <= k <= i + Strlen(s, i) ==> t[k] == s[k]
    ensures CStringAt(t, i) == CStringAt(s, i)
  {
    var n := Strlen(s, i);
    StrlenIs(t, i, n);
    assert t[i..i + n] == s[i..i + n];
  }

  /** strspn: the first position at or after i that is not a delimiter. */
  function SpanEnd(s: seq<char>, i: nat, delims: set<char>): (j: nat)
    requires Terminated(s) && i < |s| && NUL !in delims
    ensures i <= j < |s| && s[j] !in delims
    ensures forall k :: i <= k < j ==> s[k] in delims
    decreases |s| - i
  {
    if s[i] !in delims then i else SpanEnd(s, i + 1, delims)
  }

  /** strpbrk / strcspn: the first position at or after i holding a delimiter or the NUL. */
  function BreakEnd(s: seq<char>, i: nat, delims: set<char>): (j: nat)
    requires Terminated(s) && i < |s|
    ensures i <= j < |s| && (s[j] == NUL || s[j] in delims)
    ensures forall k :: i <= k < j ==> s[k] != NUL && s[k] !in delims
    decreases |s| - i
  {
    if s[i] == NUL || s[i] in delims then i else BreakEnd(s, i + 1, delims)
  }

  /** The outcome of one strtok_r call: the token (NULL as None), the buffer, the save pointer. */
  datatype Tok = Tok(token: Option<nat>, buf: seq<char>, save: nat)

  /** One call strtok_r(s + from, delims, &save). */
  function StrTokStep(s: seq<char>, from: nat, delims: set<char>): (r: Tok)
    requires Terminated(s) && from < |s| && NUL !in delims
    ensures |r.buf| == |s| && Terminated(r.buf) && from <= r.save < |s|
    ensures r.token.Some? ==> from <= r.token.value < r.save
    ensures r.token.None? ==> r.buf == s
    ensures forall k :: 0 <= k < |s| && (k < from || r.save <= k) ==> r.buf[k] == s[k]
    ensures forall k :: 0 <= k < |s| && r.buf[k] != s[k] ==> s[k] in delims && r.buf[k] == NUL
  {
    var t := SpanEnd(s, from, delims);
    if s[t] == NUL then Tok(None, s, t)
    else
      var e := BreakEnd(s, t, delims);
      if s[e] == NUL then Tok(Some(t), s, e)
      else Tok(Some(t), s[e := NUL], e + 1)
  }

  /** strtok_r in place on an array: at most one delimiter becomes NUL. */
  method StrTokR(a: array<char>, from: nat, delims: set<char>) returns (token: Option<nat>, save: nat)
    requires Terminated(a[..]) && from < a.Length && NUL !in delims
    modifies a
    ensures Tok(token, a[..], save) == StrTokStep(old(a[..]), from, delims)
  {
    var t := SpanEnd(a[..], from, delims);
    if a[t] == NUL {
      return None, t;
    }
    var e := BreakEnd(a[..], t, delims);
    if a[e] == NUL {
      return Some(t), e;
    }
    a[e] := NUL;
    return Some(t), e + 1;
  }

  /** The token starts found by calling strtok_r until it returns NULL, and the buffer left behind. */
  datatype Split = Split(starts: seq<nat>, buf: seq<char>)

  function StrTokAll(s: seq<char>, from: nat, delims: set<char>): (r: Split)
    requires Terminated(s) && from < |s| && NUL !in delims
    ensures |r.buf| == |s| && Terminated(r.buf)
    ensures forall k :: 0 <= k < |r.starts| ==> from <= r.starts[k] < |s|
    ensures forall k :: 0 <= k < |s| && r.buf[k] != s[k] ==> from <= k && s[k] in delims && r.buf[k] == NUL
    decreases |s| - from
  {
    var step := StrTokStep(s, from, delims);
    if step.token.None? then Split([], s)
    else
      var rest := StrTokAll(step.buf, step.save, delims);
      Split([step.token.value] + rest.starts, rest.buf)
  }

  /** The characters of a delimiter string, as strtok reads it. */
  function CharsOf(w: string): (d: set<char>)
    ensures forall c :: c in d <==> c in w
  {
    set c | c in w
  }

  /** The end of the run of non-delimiters that starts at i, looking no further than j. */
  function RunEnd(s: seq<char>, i: nat, j: nat, delims: set<char>): (e: nat)
    requires i <= j <= |s|
    ensures i <= e <= j && (e < j ==> s[e] in delims)
    ensures forall k :: i <= k < e ==> s[k] !in delims
    decreases j - i
  {
    if i == j || s[i] in delims then i else RunEnd(s, i + 1, j, delims)
  }

  /**
   * The fields of s[i..j]: its non-empty maximal runs of non-delimiter
   * characters, in order.  Runs of delimiters separate, and never produce, fields.
   */
  function FieldsIn(s: seq<char>, i: nat, j: nat, delims: set<char>): seq<string>
    requires i <= j <= |s|
    decreases j - i
  {
    if i == j then []
    else if s[i] in delims then FieldsIn(s, i + 1, j, delims)
    else
      var e := RunEnd(s, i, j, delims);
      [s[i..e]] + FieldsIn(s, e, j, delims)
  }

  /** The fields of a whole string. */
  function Fields(w: string, delims: set<char>): seq<string>
  {
    FieldsIn(w, 0, |w|, delims)
  }

  /** The fields of the C string at s + i. */
  function CFields(s: seq<char>, i: nat, delims: set<char>): seq<string>
    requires Terminated(s) && i < |s|
  {
    FieldsIn(s, i, i + Strlen(s, i), delims)
  }

  /** What every field is: non-empty, and free of delimiters. */
  predicate IsField(f: string, delims: set<char>)
  {
    f != [] && forall m :: 0 <= m < |f| ==> f[m] !in delims
  }

  /** Every field is non-empty and holds no delimiter. */
  lemma {:induction false} FieldsInShape(s: seq<char>, i: nat, j: nat, delims: set<char>)
    requires i <= j <= |s|
    ensures forall f :: f in FieldsIn(s, i, j, delims) ==> IsField(f, delims)
    decreases j - i
  {
    if i < j {
      if s[i] in delims {
        FieldsInShape(s, i + 1, j, delims);
      } else {
        var e := RunEnd(s, i, j, delims);
        FieldsInShape(s, e, j, delims);
        assert FieldsIn(s, i, j, delims) == [s[i..e]] + FieldsIn(s, e, j, delims);
        assert forall m :: 0 <= m < e - i ==> s[i..e][m] == s[i + m];
      }
    }
  }

  /** Leading delimiters do not change the fields. */
  lemma {:induction false} FieldsInSkip(s: seq<char>, i: nat, m: nat, j: nat, delims: set<char>)
    requires i <= m <= j <= |s|
    requires forall k :: i <= k < m ==> s[k] in delims
    ensures FieldsIn(s, i, j, delims) == FieldsIn(s, m, j, delims)
    decreases m - i
  {
    if i < m {
      FieldsInSkip(s, i + 1, m, j, delims);
    }
  }

  /** The fields of s[i..j] depend on those characters only. */
  lemma {:induction false} FieldsInAgree(s: seq<char>, u: seq<char>, i: nat, j: nat, delims: set<char>)
    requires i <= j <= |s| && j <= |u|
    requires forall k :: i <= k < j ==> s[k] == u[k]
    ensures FieldsIn(s, i, j, delims) == FieldsIn(u, i, j, delims)
    decreases j - i
  {
    if i < j {
      if s[i] in delims {
        FieldsInAgree(s, u, i + 1, j, delims);
      } else {
        var e := RunEnd(s, i, j, delims);
        RunEndAgree(s, u, i, j, delims);
        FieldsInAgree(s, u, e, j, delims);
        assert s[i..e] == u[i..e];
      }
    }
  }

  /** Buffers that agree on a C string and its terminator have the same fields there. */
  lemma CFieldsAgree(s: seq<char>, u: seq<char>, i: nat, delims: set<char>)
    requires Terminated(s) && Terminated(u) && i < |s| && i + Strlen(s, i) < |u|
    requires forall k :: i <= k <= i + Strlen(s, i) ==> u[k] == s[k]
    ensures CFields(u, i, delims) == CFields(s, i, delims)
  {
    CStringAgree(s, u, i);
    FieldsInAgree(s, u, i, i + Strlen(s, i), delims);
  }

  lemma {:induction false} RunEndAgree(s: seq<char>, u: seq<char>, i: nat, j: nat, delims: set<char>)
    requires i <= j <= |s| && j <= |u|
    requires forall k :: i <= k < j ==> s[k] == u[k]
    ensures RunEnd(s, i, j, delims) == RunEnd(u, i, j, delims)
    decreases j - i
  {
    if i < j && s[i] !in delims {
      RunEndAgree(s, u, i + 1, j, delims);
    }
  }

  /** A field starting at t < j runs to the next delimiter e, and the rest follows e. */
  lemma FieldsInAt(s: seq<char>, t: nat, j: nat, delims: set<char>)
    requires t < j <= |s| && s[t] !in delims
    ensures var e := RunEnd(s, t, j, delims);
            FieldsIn(s, t, j, delims) ==
              [s[t..e]] + (if e == j then [] else FieldsIn(s, e + 1, j, delims))
  {
  }

  /** The delimiters strspn skips at the head of a C string do not change its fields. */
  lemma CFieldsSkip(s: seq<char>, from: nat, t: nat, delims: set<char>)
    requires Terminated(s) && from < |s| && NUL !in delims && t == SpanEnd(s, from, delims)
    ensures t <= from + Strlen(s, from)
    ensures CFields(s, from, delims) == FieldsIn(s, t, from + Strlen(s, from), delims)
    ensures s[t] == NUL <==> t == from + Strlen(s, from)
  {
    var L := from + Strlen(s, from);
    assert s[L] == NUL;
    FieldsInSkip(s, from, t, L, delims);
  }

  /**
   * Inside the C string at from, strpbrk from a non-delimiter t stops where
   * the run of non-delimiters ends, so the fields from t start with that run.
   */
  lemma CFieldsAtToken(s: seq<char>, from: nat, t: nat, e: nat, delims: set<char>)
    requires Terminated(s) && from < |s| && NUL !in delims
    requires from <= t < from + Strlen(s, from) && s[t] !in delims && e == BreakEnd(s, t, delims)
    ensures e <= from + Strlen(s, from)
    ensures s[e] == NUL <==> e == from + Strlen(s, from)
    ensures FieldsIn(s, t, from + Strlen(s, from), delims) ==
              [s[t..e]] + (if s[e] == NUL then [] else FieldsIn(s, e + 1, from + Strlen(s, from), delims))
  {
    var L := from + Strlen(s, from);
    assert s[L] == NUL;
    assert e == RunEnd(s, t, L, delims);
    FieldsInAt(s, t, L, delims);
  }

  /** A strtok_r step that finds only delimiters before the NUL: the C string has no fields. */
  lemma StepNoToken(s: seq<char>, from: nat, delims: set<char>)
    requires Terminated(s) && from < |s| && NUL !in delims
    requires s[SpanEnd(s, from, delims)] == NUL
    ensures CFields(s, from, delims) == []
  {
    var t := SpanEnd(s, from, delims);
    CFieldsSkip(s, from, t, delims);
  }

  /**
   * A strtok_r step whose token runs into the terminating NUL: the token is
   * the rest of the C string and nothing is left after it.
   */
  lemma StepAtEnd(s: seq<char>, from: nat, t: nat, e: nat, delims: set<char>)
    requires Terminated(s) && from < |s| && NUL !in delims
    requires t == SpanEnd(s, from, delims) && s[t] != NUL && e == BreakEnd(s, t, delims) && s[e] == NUL
    ensures CFields(s, from, delims) == [CStringAt(s, t)] + CFields(s, e, delims)
  {
    CFieldsSkip(s, from, t, delims);
    CFieldsAtToken(s, from, t, e, delims);
    StrlenIs(s, t, e - t);
    StrlenIs(s, e, 0);
  }

  /**
   * A strtok_r step whose token ends at a delimiter e: the delimiter becomes
   * NUL, the token reads as the run up to e, and the C string after e keeps
   * the fields that followed it.
   */
  lemma StepAtDelimiter(s: seq<char>, from: nat, t: nat, e: nat, delims: set<char>)
    requires Terminated(s) && from < |s| && NUL !in delims
    requires t == SpanEnd(s, from, delims) && s[t] != NUL && e == BreakEnd(s, t, delims) && s[e] != NUL
    ensures CFields(s, from, delims) == [CStringAt(s[e := NUL], t)] + CFields(s[e := NUL], e + 1, delims)
  {
    CFieldsSkip(s, from, t, delims);
    CFieldsAtToken(s, from, t, e, delims);
    CutToken(s, from, t, e);
    CutRest(s, from, e, delims);
  }

  /**
   * One strtok_r step peels the first field off the C string: the token it
   * returns, read in the buffer it leaves, is that field, and the remaining
   * fields are those of the C string at the save pointer.
   */
  lemma StepFields(s: seq<char>, from: nat, delims: set<char>)
    requires Terminated(s) && from < |s| && NUL !in delims
    ensures var step := StrTokStep(s, from, delims);
            CFields(s, from, delims) ==
              if step.token.None? then []
              else [CStringAt(step.buf, step.token.value)] + CFields(step.buf, step.save, delims)
  {
    var t := SpanEnd(s, from, delims);
    if s[t] == NUL {
      StepNoToken(s, from, delims);
    } else {
      var e := BreakEnd(s, t, delims);
      if s[e] == NUL {
        assert StrTokStep(s, from, delims) == Tok(Some(t), s, e);
        StepAtEnd(s, from, t, e, delims);
      } else {
        assert StrTokStep(s, from, delims) == Tok(Some(t), s[e := NUL], e + 1);
        StepAtDelimiter(s, from, t, e, delims);
      }
    }
  }

  /** Writing a NUL over position e of the C string at t ends it at e. */
  lemma CutToken(s: seq<char>, i: nat, t: nat, e: nat)
    requires Terminated(s) && i < |s| && i <= t <= e < i + Strlen(s, i)
    ensures CStringAt(s[e := NUL], t) == s[t..e]
  {
    StrlenIs(s[e := NUL], t, e - t);
  }

  /** Writing a NUL over position e of the C string at i leaves the rest of it as the C string at e + 1. */
  lemma CutRest(s: seq<char>, i: nat, e: nat, delims: set<char>)
    requires Terminated(s) && i < |s| && i <= e < i + Strlen(s, i)
    ensures CFields(s[e := NUL], e + 1, delims) == FieldsIn(s, e + 1, i + Strlen(s, i), delims)
  {
    var L := i + Strlen(s, i);
    var buf1 := s[e := NUL];
    StrlenIs(buf1, e + 1, L - (e + 1));
    FieldsInAgree(s, buf1, e + 1, L, delims);
  }

  /** Later strtok_r calls leave an earlier token, and its terminator, alone. */
  lemma StepTokenKept(s: seq<char>, from: nat, delims: set<char>)
    requires Terminated(s) && from < |s| && NUL !in delims
    requires StrTokStep(s, from, delims).token.Some?
    ensures var step := StrTokStep(s, from, delims);
            var rest := StrTokAll(step.buf, step.save, delims);
            CStringAt(rest.buf, step.token.value) == CStringAt(step.buf, step.token.value)
  {
    var step := StrTokStep(s, from, delims);
    var t := step.token.value;
    var rest := StrTokAll(step.buf, step.save, delims);
    var e := BreakEnd(s, t, delims);
    StrlenIs(step.buf, t, e - t);
    assert step.buf[e] == NUL;
    CStringAgree(step.buf, rest.buf, t);
  }

  /** The C strings at the given starts, in order. */
  function StringsAt(s: seq<char>, starts: seq<nat>): (r: seq<string>)
    requires Terminated(s) && forall k :: 0 <= k < |starts| ==> starts[k] < |s|
    ensures |r| == |starts|
  {
    if starts == [] then [] else [CStringAt(s, starts[0])] + StringsAt(s, starts[1..])
  }

  lemma {:induction false} StringsAtIndex(s: seq<char>, starts: seq<nat>, i: nat)
    requires Terminated(s) && forall k :: 0 <= k < |starts| ==> starts[k] < |s|
    requires i < |starts|
    ensures StringsAt(s, starts)[i] == CStringAt(s, starts[i])
    decreases i
  {
    if i > 0 {
      StringsAtIndex(s, starts[1..], i - 1);
    }
  }

  /**
   * Calling strtok_r until it returns NULL visits exactly the fields of the
   * C string, in order: the tokens, read as C strings in the buffer left
   * behind, are its fields.
   */
  lemma {:induction false} StrTokAllFields(s: seq<char>, from: nat, delims: set<char>)
    requires Terminated(s) && from < |s| && NUL !in delims
    ensures var r := StrTokAll(s, from, delims);
            StringsAt(r.buf, r.starts) == CFields(s, from, delims)
    decreases |s| - from
  {
    var step := StrTokStep(s, from, delims);
    StepFields(s, from, delims);
    if step.token.Some? {
      var rest := StrTokAll(step.buf, step.save, delims);
      var r := StrTokAll(s, from, delims);
      assert r.starts == [step.token.value] + rest.starts && r.buf == rest.buf;
      assert r.starts[1..] == rest.starts;
      StepTokenKept(s, from, delims);
      StrTokAllFields(step.buf, step.save, delims);
    }
  }

  predicate OccursAt(hay: string, needle: string, i: nat)
  {
    i + |needle| <= |hay| && hay[i..i + |needle|] == needle
  }

  /** strstr, searching from position i: the first occurrence of needle in hay. */
  function StrStr(hay: string, needle: string, i: nat): (r: Option<nat>)
    requires i <= |hay|
    ensures r.Some? ==> i <= r.value && OccursAt(hay, needle, r.value)
    ensures r.Some? ==> forall k :: i <= k < r.value ==> !OccursAt(hay, needle, k)
    ensures r.None? ==> forall k :: i <= k ==> !OccursAt(hay, needle, k)
    decreases |hay| - i
  {
    if OccursAt(hay, needle, i) then Some(i)
    else if i == |hay| then None
    else StrStr(hay, needle, i + 1)
  }

  /** strchr(s + i, c) for a non-NUL c: the first c before the terminator, if any. */
  function StrChr(s: seq<char>, i: nat, c: char): (r: Option<nat>)
    requires Terminated(s) && i < |s| && c != NUL
    ensures r.Some? ==> i <= r.value < i + Strlen(s, i) && s[r.value] == c
    ensures r.Some? ==> forall k :: i <= k < r.value ==> s[k] != c
    ensures r.None? ==> forall k :: i <= k < i + Strlen(s, i) ==> s[k] != c
    decreases |s| - i
  {
    if s[i] == c then Some(i)
    else if s[i] == NUL then None
    else StrChr(s, i + 1, c)
  }
}
