/**
 * `pace_translate_apdus`: read C-APDUs as hex lines, send each one that
 * decodes and parses through the secure messaging channel of `sctx`, and stop
 * at the first line of at most one character or at the first failed read.
 */
module Relay {
  import opened Wrappers
  import opened Pace

  /** The result of one `getline`: a line (its newline included, if any) or -1. */
  datatype Read = Line(chars: string) | Failure

  /** Size of `buf`: a 4-byte header, 3 length bytes, 0xffff data bytes and 3 Le bytes. */
  const BUF_SIZE: nat := 4 + 3 + 0xffff + 3

  /** `getline` on the input: past the last line it reports -1, as at end of file. */
  function ReadAt(input: seq<Read>, k: nat): Read
  {
    if k < |input| then input[k] else Failure
  }

  /** A read that ends the loop: -1, or a line of length 0 or 1. */
  predicate Ends(rd: Read)
  {
    rd.Failure? || |rd.chars| <= 1
  }

  /**
   * The C-APDU a line carries, if any: the last character is cut off (where
   * the newline normally is), the rest must decode into at most `BUF_SIZE`
   * bytes and `build_apdu` must accept them.
   */
  function Command(env: Env, rd: Read): (r: Option<Bytes>)
    ensures r.Some? ==> !Ends(rd) && |r.value| <= BUF_SIZE && env.buildApdu(r.value)
    ensures r.Some? ==> env.hexToBin(rd.chars[..|rd.chars| - 1]) == Some(r.value)
  {
    if Ends(rd) then None
    else
      var decoded := env.hexToBin(rd.chars[..|rd.chars| - 1]);
      if decoded.None? || |decoded.value| > BUF_SIZE then None
      else if env.buildApdu(decoded.value) then decoded
      else None
  }

  /**
   * The loop from the `k`-th read on, with `t` the calls made so far: the
   * value it returns and the calls made once it is over.
   */
  function RelayLoop(env: Env, t: seq<Event>, input: seq<Read>, k: nat): (int, seq<Event>)
    decreases |input| - k
  {
    var rd := ReadAt(input, k);
    if Ends(rd) then (if rd.Failure? then SC_ERROR_INTERNAL else SC_SUCCESS, t)
    else
      var cmd := Command(env, rd);
      if cmd.None? then RelayLoop(env, t, input, k + 1)
      else RelayLoop(env, t + [Perform(env, |t|, Transmit(SCtx, cmd.value))], input, k + 1)
  }

  /**
   * The loop as written: each turn reads a line, stops on a short line or a
   * failed read, and otherwise skips a line that does not decode or build and
   * transmits the rest, whatever the transmit returns.
   */
  method TranslateApdus(env: Env, t0: seq<Event>, input: seq<Read>) returns (r: int, t: seq<Event>)
    ensures (r, t) == RelayLoop(env, t0, input, 0)
  {
    var k := 0;
    t := t0;
    while true
      invariant RelayLoop(env, t, input, k) == RelayLoop(env, t0, input, 0)
      decreases |input| - k
    {
      var rd := ReadAt(input, k);
      k := k + 1;
      var linelen := if rd.Line? then |rd.chars| else -1;
      if linelen <= 1 {
        if linelen < 0 {
          r := SC_ERROR_INTERNAL;
        } else {
          r := SC_SUCCESS;
        }
        break;
      }
      var read := rd.chars[..linelen - 1];
      var decoded := env.hexToBin(read);
      if decoded.None? || |decoded.value| > BUF_SIZE {
        continue;
      }
      var buf := decoded.value;
      if !env.buildApdu(buf) {
        continue;
      }
      var e := Perform(env, |t|, Transmit(SCtx, buf));
      t := t + [e];
      if e.code < 0 {
        continue;
      }
    }
  }

  /** Index of the read that ends the loop started at `k` (beyond the input: end of file). */
  function End(input: seq<Read>, k: nat): (j: nat)
    ensures j >= k && Ends(ReadAt(input, j))
    ensures forall m | k <= m < j :: !Ends(ReadAt(input, m))
    decreases |input| - k
  {
    if Ends(ReadAt(input, k)) then k else End(input, k + 1)
  }

  /** The C-APDUs carried by reads `k` up to `j`, in order. */
  function Apdus(env: Env, input: seq<Read>, k: nat, j: nat): seq<Bytes>
    decreases j - k
  {
    if j <= k then []
    else
      var cmd := Command(env, ReadAt(input, k));
      (if cmd.Some? then [cmd.value] else []) + Apdus(env, input, k + 1, j)
  }

  /** The events of transmitting `apdus` one after the other, from call number `made` on. */
  function Sent(env: Env, made: nat, apdus: seq<Bytes>): seq<Event>
    decreases |apdus|
  {
    if apdus == [] then []
    else [Perform(env, made, Transmit(SCtx, apdus[0]))] + Sent(env, made + 1, apdus[1..])
  }

  lemma {:induction false} SentShape(env: Env, made: nat, apdus: seq<Bytes>, m: nat)
    requires m < |apdus|
    ensures |Sent(env, made, apdus)| == |apdus|
    ensures Sent(env, made, apdus)[m] == Perform(env, made + m, Transmit(SCtx, apdus[m]))
    decreases m
  {
    SentLength(env, made, apdus);
    if m > 0 {
      SentShape(env, made + 1, apdus[1..], m - 1);
    }
  }

  lemma {:induction false} SentLength(env: Env, made: nat, apdus: seq<Bytes>)
    ensures |Sent(env, made, apdus)| == |apdus|
    decreases |apdus|
  {
    if apdus != [] {
      SentLength(env, made + 1, apdus[1..]);
    }
  }

  /**
   * What the loop does, stated without the loop: it returns `SC_SUCCESS`
   * when the read that ends it is a short line and `SC_ERROR_INTERNAL` when it
   * is a failed read, and it transmits, once each and in input order, the
   * C-APDUs of the lines before that read.
   */
  lemma {:induction false} RelaySpec(env: Env, t: seq<Event>, input: seq<Read>, k: nat)
    ensures var j := End(input, k);
      RelayLoop(env, t, input, k)
      == (if ReadAt(input, j).Failure? then SC_ERROR_INTERNAL else SC_SUCCESS, t + Sent(env, |t|, Apdus(env, input, k, j)))
    decreases |input| - k
  {
    var j := End(input, k);
    var rd := ReadAt(input, k);
    if Ends(rd) {
      assert t + [] == t;
    } else {
      assert End(input, k + 1) == j;
      var rest := Apdus(env, input, k + 1, j);
      RelaySpec(env, t, input, k + 1);
      var cmd := Command(env, rd);
      if cmd.None? {
        assert Apdus(env, input, k, j) == [] + rest == rest;
      } else {
        var e := Perform(env, |t|, Transmit(SCtx, cmd.value));
        RelaySpec(env, t + [e], input, k + 1);
        var all := [cmd.value] + rest;
        assert Apdus(env, input, k, j) == all;
        assert all[0] == cmd.value && all[1..] == rest;
        assert Sent(env, |t|, all) == [e] + Sent(env, |t| + 1, rest);
        assert (t + [e]) + Sent(env, |t| + 1, rest) == t + Sent(env, |t|, all);
      }
    }
  }

  /**
   * The result depends only on the read that ends the loop; the loop only
   * appends transmits on `sctx`, one per C-APDU, so it populates no context
   * and leaves the establishment output as it was.
   */
  lemma RelayOnlyTransmits(env: Env, t: seq<Event>, input: seq<Read>)
    ensures var r := RelayLoop(env, t, input, 0);
      var j := End(input, 0);
      && (r.0 == SC_SUCCESS <==> ReadAt(input, j).Line?)
      && (r.0 == SC_ERROR_INTERNAL <==> ReadAt(input, j).Failure?)
      && t <= r.1
      && |r.1| == |t| + |Apdus(env, input, 0, j)|
      && (forall m | |t| <= m < |r.1| :: r.1[m].Called? && r.1[m].call.Transmit? && r.1[m].call.ctx == SCtx)
      && Successes(r.1, SCtx) == Successes(t, SCtx)
      && Successes(r.1, TmpCtx) == Successes(t, TmpCtx)
      && NonNull(r.1) == NonNull(t)
  {
    RelaySpec(env, t, input, 0);
    var j := End(input, 0);
    var apdus := Apdus(env, input, 0, j);
    var d := Sent(env, |t|, apdus);
    SentLength(env, |t|, apdus);
    forall m | 0 <= m < |d|
      ensures d[m].Called? && d[m].call.Transmit? && d[m].call.ctx == SCtx
    {
      SentShape(env, |t|, apdus, m);
    }
    var r := RelayLoop(env, t, input, 0);
    assert r.1 == t + d;
    forall m | |t| <= m < |r.1|
      ensures r.1[m].Called? && r.1[m].call.Transmit? && r.1[m].call.ctx == SCtx
    {
      assert r.1[m] == d[m - |t|];
    }
    SuccessesNone(d, SCtx);
    SuccessesNone(d, TmpCtx);
    SuccessesAppend(t, d, SCtx);
    SuccessesAppend(t, d, TmpCtx);
    NonNullAfterOtherCalls(t, d);
  }

  /**
   * A failed decode, a rejected C-APDU or a failed transmit never ends the
   * loop: two cards that answer differently see the same calls and the
   * loop returns the same value.
   */
  lemma RelayIgnoresReplies(env1: Env, env2: Env, t: seq<Event>, input: seq<Read>)
    requires env1.hexToBin == env2.hexToBin && env1.buildApdu == env2.buildApdu
    ensures var r1, r2 := RelayLoop(env1, t, input, 0), RelayLoop(env2, t, input, 0);
      && r1.0 == r2.0
      && |r1.1| == |r2.1|
      && forall m | |t| <= m < |r1.1| :: r1.1[m].Called? && r2.1[m].Called? && r1.1[m].call == r2.1[m].call
  {
    var j := End(input, 0);
    ApdusDependOnDecoding(env1, env2, input, 0, j);
    var apdus := Apdus(env1, input, 0, j);
    RelaySpec(env1, t, input, 0);
    RelaySpec(env2, t, input, 0);
    SentLength(env1, |t|, apdus);
    SentLength(env2, |t|, apdus);
    var r1, r2 := RelayLoop(env1, t, input, 0), RelayLoop(env2, t, input, 0);
    forall m | |t| <= m < |r1.1|
      ensures r1.1[m].Called? && r2.1[m].Called? && r1.1[m].call == r2.1[m].call
    {
      SentShape(env1, |t|, apdus, m - |t|);
      SentShape(env2, |t|, apdus, m - |t|);
    }
  }

  lemma {:induction false} ApdusDependOnDecoding(env1: Env, env2: Env, input: seq<Read>, k: nat, j: nat)
    requires env1.hexToBin == env2.hexToBin && env1.buildApdu == env2.buildApdu
    ensures Apdus(env1, input, k, j) == Apdus(env2, input, k, j)
    decreases j - k
  {
    if k < j {
      ApdusDependOnDecoding(env1, env2, input, k + 1, j);
    }
  }

  lemma {:induction false} ApdusSplit(env: Env, input: seq<Read>, k: nat, m: nat, j: nat)
    requires k <= m <= j
    ensures Apdus(env, input, k, j) == Apdus(env, input, k, m) + Apdus(env, input, m, j)
    decreases m - k
  {
    if k == m {
      assert Apdus(env, input, k, m) == [];
      assert [] + Apdus(env, input, m, j) == Apdus(env, input, m, j);
    } else {
      ApdusSplit(env, input, k + 1, m, j);
      var cmd := Command(env, ReadAt(input, k));
      var head: seq<Bytes> := if cmd.Some? then [cmd.value] else [];
      assert head + (Apdus(env, input, k + 1, m) + Apdus(env, input, m, j))
        == (head + Apdus(env, input, k + 1, m)) + Apdus(env, input, m, j);
    }
  }

  /**
   * Lines 141-166: a line read before the loop ends is transmitted iff its
   * text without the last character decodes into at most `sizeof buf`
   * bytes and `build_apdu` accepts them; it then adds exactly one transmit,
   * of those bytes, on `sctx`, after the transmits of the lines before it.
   */
  lemma RelayTransmitsIff(env: Env, t: seq<Event>, input: seq<Read>, m: nat)
    requires m < End(input, 0)
    ensures ReadAt(input, m).Line? && |ReadAt(input, m).chars| >= 2
    ensures var r := RelayLoop(env, t, input, 0);
      var line := ReadAt(input, m).chars;
      var decoded := env.hexToBin(line[..|line| - 1]);
      var ok := decoded.Some? && |decoded.value| <= BUF_SIZE && env.buildApdu(decoded.value);
      var before := |t| + |Apdus(env, input, 0, m)|;
      && |Apdus(env, input, 0, m + 1)| == |Apdus(env, input, 0, m)| + (if ok then 1 else 0)
      && (ok ==> before < |r.1| && r.1[before] == Perform(env, before, Transmit(SCtx, decoded.value)))
  {
    assert !Ends(ReadAt(input, m));
    var j := End(input, 0);
    var cmd := Command(env, ReadAt(input, m));
    var head: seq<Bytes> := if cmd.Some? then [cmd.value] else [];
    var front := Apdus(env, input, 0, m);
    ApdusSplit(env, input, 0, m, m + 1);
    assert Apdus(env, input, m, m + 1) == head + [];
    ApdusSplit(env, input, 0, m, j);
    var all := Apdus(env, input, 0, j);
    assert Apdus(env, input, m, j) == head + Apdus(env, input, m + 1, j);
    RelaySpec(env, t, input, 0);
    if cmd.Some? {
      assert all[|front|] == cmd.value;
      SentShape(env, |t|, all, |front|);
    }
  }

  /** An empty line first ends the loop at once, with success and no transmit. */
  lemma RelayEmptyLine(env: Env, t: seq<Event>, input: seq<Read>)
    requires |input| > 0 && input[0] == Line("\n")
    ensures RelayLoop(env, t, input, 0) == (SC_SUCCESS, t)
  {
  }
}
