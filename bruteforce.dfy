/**
 * Break mode (`--break`): count up from a start value, format each counter
 * as a zero-padded decimal of the secret's width, try it as the PACE secret,
 * and stop at the first establish that succeeds or at the first counter whose
 * decimal form no longer fits the width.
 */
module BruteForce {
  import opened Wrappers
  import opened Decimal
  import opened Pace

  /** PIN and CAN are six digits wide, PUK ten. */
  predicate ValidWidth(width: nat)
  {
    width == 6 || width == 10
  }

  /** How many values have `width` decimal digits: 10^width. */
  function Limit(width: nat): nat
    requires ValidWidth(width)
  {
    if width == 6 then 1_000_000 else 10_000_000_000
  }

  /**
   * `sprintf("%0*llu")` of a counter fits the width exactly when the counter
   * is below 10^width, which is far below 2^64.
   */
  lemma Fits(n: nat, width: nat)
    requires ValidWidth(width)
    ensures Limit(width) == Pow10(width) && Limit(width) < U64
    ensures |ZeroPadded(n, width)| <= width <==> n < Limit(width)
    ensures |ZeroPadded(n, width)| >= width
  {
    assert Pow10(6) == 1_000_000;
    assert Pow10(10) == 10_000_000_000;
    ZeroPaddedLength(n, width);
  }

  /** The establish call of one attempt: `can_ch` holds the padded counter, `pin_length` the width. */
  function Attempt(kind: SecretKind, width: nat, n: nat): Call
  {
    Establish(None, Secret(kind, Some(ZeroPadded(n, width)), width), SCtx)
  }

  /**
   * The `do { ... } while (0 > i)` loop from counter `n`, with `i` the last
   * result so far and `t` the calls made before; gives the final `i` and the
   * calls made once the loop is over.
   */
  function BreakLoop(env: Env, t: seq<Event>, kind: SecretKind, width: nat, n: nat, i: int): (int, seq<Event>)
    requires ValidWidth(width)
    decreases if n < Limit(width) then Limit(width) - n else 0
  {
    if n >= Limit(width) then (i, t)
    else
      var e := Perform(env, |t|, Attempt(kind, width, n));
      if e.code >= 0 then (e.code, t + [e])
      else BreakLoop(env, t + [e], kind, width, n + 1, e.code)
  }

  /**
   * The loop as written, with `can_nb` an `unsigned long long` that the
   * increment wraps modulo 2^64, appending each establish to the trace `t`.
   */
  method BreakSecret(env: Env, t0: seq<Event>, kind: SecretKind, width: nat, start: ULongLong, init: int)
    returns (i: int, t: seq<Event>)
    requires ValidWidth(width)
    ensures (i, t) == BreakLoop(env, t0, kind, width, start, init)
  {
    var canNb: ULongLong := start;
    i, t := init, t0;
    while true
      invariant BreakLoop(env, t, kind, width, canNb, i) == BreakLoop(env, t0, kind, width, start, init)
      decreases if canNb < Limit(width) then Limit(width) - canNb else 0
    {
      var canCh := ZeroPadded(canNb, width);
      Fits(canNb, width);
      if |canCh| > width {
        break;
      }
      var e := Perform(env, |t|, Establish(None, Secret(kind, Some(canCh), width), SCtx));
      t := t + [e];
      i := e.code;
      canNb := Increment(canNb);
      if !(0 > i) {
        break;
      }
    }
  }

  /** The loop only appends to the trace. */
  lemma {:induction false} BreakExtends(env: Env, t: seq<Event>, kind: SecretKind, width: nat, n: nat, i: int)
    requires ValidWidth(width)
    ensures t <= BreakLoop(env, t, kind, width, n, i).1
    decreases if n < Limit(width) then Limit(width) - n else 0
  {
    if n < Limit(width) {
      var e := Perform(env, |t|, Attempt(kind, width, n));
      if e.code < 0 {
        BreakExtends(env, t + [e], kind, width, n + 1, e.code);
      }
    }
  }

  /** Attempt `k` of the loop is call number `|t| + k` and tries counter `n + k`. */
  lemma {:induction false} BreakAttempt(env: Env, t: seq<Event>, kind: SecretKind, width: nat, n: nat, i: int, k: nat)
    requires ValidWidth(width)
    requires |t| + k < |BreakLoop(env, t, kind, width, n, i).1|
    ensures BreakLoop(env, t, kind, width, n, i).1[|t| + k] == Perform(env, |t| + k, Attempt(kind, width, n + k))
    decreases k
  {
    var e := Perform(env, |t|, Attempt(kind, width, n));
    var t1, n1 := t + [e], n + 1;
    if k == 0 {
      if e.code < 0 {
        BreakExtends(env, t1, kind, width, n1, e.code);
        assert t1[|t|] == e;
      }
    } else {
      BreakAttempt(env, t1, kind, width, n1, e.code, k - 1);
      assert |t1| + (k - 1) == |t| + k && n1 + (k - 1) == n + k;
    }
  }

  /** Every attempt but the last failed. */
  lemma {:induction false} BreakEarlierFailed(env: Env, t: seq<Event>, kind: SecretKind, width: nat, n: nat, i: int, k: nat)
    requires ValidWidth(width)
    requires |t| + k + 1 < |BreakLoop(env, t, kind, width, n, i).1|
    ensures BreakLoop(env, t, kind, width, n, i).1[|t| + k].Called?
    ensures BreakLoop(env, t, kind, width, n, i).1[|t| + k].code < 0
    decreases k
  {
    var e := Perform(env, |t|, Attempt(kind, width, n));
    if k == 0 {
      BreakExtends(env, t + [e], kind, width, n + 1, e.code);
    } else {
      BreakEarlierFailed(env, t + [e], kind, width, n + 1, e.code, k - 1);
    }
  }

  /** How many attempts the loop makes: none when the start is already too wide, else at most up to 10^width - 1. */
  lemma {:induction false} BreakSize(env: Env, t: seq<Event>, kind: SecretKind, width: nat, n: nat, i: int)
    requires ValidWidth(width)
    ensures var r := BreakLoop(env, t, kind, width, n, i);
      && |t| <= |r.1|
      && (|r.1| == |t| <==> n >= Limit(width))
      && (|r.1| == |t| ==> r.0 == i)
      && (|r.1| > |t| ==> n + (|r.1| - |t|) <= Limit(width))
    decreases if n < Limit(width) then Limit(width) - n else 0
  {
    if n < Limit(width) {
      var e := Perform(env, |t|, Attempt(kind, width, n));
      if e.code < 0 {
        assert BreakLoop(env, t, kind, width, n, i) == BreakLoop(env, t + [e], kind, width, n + 1, e.code);
        BreakSize(env, t + [e], kind, width, n + 1, e.code);
      }
    }
  }

  /** The loop returns its last attempt's result. */
  lemma {:induction false} BreakLast(env: Env, t: seq<Event>, kind: SecretKind, width: nat, n: nat, i: int)
    requires ValidWidth(width)
    ensures var r := BreakLoop(env, t, kind, width, n, i);
      |r.1| > |t| ==> r.1[|r.1| - 1].Called? && r.0 == r.1[|r.1| - 1].code
    decreases if n < Limit(width) then Limit(width) - n else 0
  {
    if n < Limit(width) {
      var e := Perform(env, |t|, Attempt(kind, width, n));
      var t1 := t + [e];
      assert t1[|t|] == e;
      if e.code >= 0 {
        assert BreakLoop(env, t, kind, width, n, i) == (e.code, t1);
      } else {
        assert BreakLoop(env, t, kind, width, n, i) == BreakLoop(env, t1, kind, width, n + 1, e.code);
        if n + 1 >= Limit(width) {
          assert BreakLoop(env, t1, kind, width, n + 1, e.code) == (e.code, t1);
        } else {
          BreakSize(env, t1, kind, width, n + 1, e.code);
          BreakLast(env, t1, kind, width, n + 1, e.code);
        }
      }
    }
  }

  /** A loop that ends without success has tried every counter up to 10^width - 1. */
  lemma {:induction false} BreakExhausted(env: Env, t: seq<Event>, kind: SecretKind, width: nat, n: nat, i: int)
    requires ValidWidth(width)
    ensures var r := BreakLoop(env, t, kind, width, n, i);
      |r.1| > |t| && r.0 < 0 ==> n + (|r.1| - |t|) == Limit(width)
    decreases if n < Limit(width) then Limit(width) - n else 0
  {
    if n < Limit(width) {
      var e := Perform(env, |t|, Attempt(kind, width, n));
      if e.code < 0 {
        assert BreakLoop(env, t, kind, width, n, i) == BreakLoop(env, t + [e], kind, width, n + 1, e.code);
        BreakExhausted(env, t + [e], kind, width, n + 1, e.code);
        BreakSize(env, t + [e], kind, width, n + 1, e.code);
      }
    }
  }

  /**
   * How many attempts the loop makes and what it returns: none when the start
   * is already too wide (and `i` is unchanged), otherwise counters up to at
   * most 10^width - 1, returning the last attempt's result; a loop that ends
   * without success has reached 10^width - 1.
   */
  lemma BreakLength(env: Env, t: seq<Event>, kind: SecretKind, width: nat, n: nat, i: int)
    requires ValidWidth(width)
    ensures var r := BreakLoop(env, t, kind, width, n, i);
      && |t| <= |r.1|
      && (|r.1| == |t| <==> n >= Limit(width))
      && (|r.1| == |t| ==> r.0 == i)
      && (|r.1| > |t| ==> n + (|r.1| - |t|) <= Limit(width) && r.1[|r.1| - 1].Called? && r.0 == r.1[|r.1| - 1].code)
      && (|r.1| > |t| && r.0 < 0 ==> n + (|r.1| - |t|) == Limit(width))
  {
    BreakSize(env, t, kind, width, n, i);
    BreakLast(env, t, kind, width, n, i);
    BreakExhausted(env, t, kind, width, n, i);
  }

  /**
   * Every candidate is the counter written in exactly `width` decimal digits;
   * read back it is the counter, so the candidates are start, start+1, ...
   * in strictly increasing order.
   */
  lemma BreakCandidate(env: Env, t: seq<Event>, kind: SecretKind, width: nat, start: ULongLong, init: int, k: nat)
    requires ValidWidth(width)
    requires |t| + k < |BreakLoop(env, t, kind, width, start, init).1|
    ensures var e := BreakLoop(env, t, kind, width, start, init).1[|t| + k];
      && e.Called? && e.call.Establish? && e.call.prior.None? && e.call.into == SCtx
      && e.call.secret.kind == kind
      && e.call.secret.length == width
      && e.call.secret.value.Some?
      && |e.call.secret.value.value| == width
      && AllDigits(e.call.secret.value.value)
      && Value(e.call.secret.value.value) == start + k
  {
    BreakAttempt(env, t, kind, width, start, init, k);
    BreakLength(env, t, kind, width, start, init);
    Fits(start + k, width);
    ZeroPaddedValue(start + k, width);
  }

  /**
   * From a start below 10^width at least one and at most 10^width - start
   * attempts are made, and a loop that ends without success has tried
   * 10^width - 1, the largest value of `width` digits.
   */
  lemma BreakBounds(env: Env, t: seq<Event>, kind: SecretKind, width: nat, start: ULongLong, init: int)
    requires ValidWidth(width)
    requires start < Limit(width)
    ensures var r := BreakLoop(env, t, kind, width, start, init);
      && 1 <= |r.1| - |t| <= Limit(width) - start
      && (r.0 < 0 ==> r.1[|r.1| - 1].Called? && r.1[|r.1| - 1].call == Attempt(kind, width, Limit(width) - 1))
  {
    BreakLength(env, t, kind, width, start, init);
    var r := BreakLoop(env, t, kind, width, start, init);
    BreakAttempt(env, t, kind, width, start, init, |r.1| - |t| - 1);
  }

  /**
   * The loop keeps the calls made before it and ends at the first establish
   * that succeeds: every earlier attempt failed, and the result `i` is the
   * last attempt's result.
   */
  lemma BreakStopsAtFirstSuccess(env: Env, t: seq<Event>, kind: SecretKind, width: nat, start: ULongLong, init: int)
    requires ValidWidth(width)
    ensures var r := BreakLoop(env, t, kind, width, start, init);
      && t <= r.1
      && (forall k | |t| <= k < |r.1| - 1 :: r.1[k].Called? && r.1[k].code < 0)
      && (|r.1| > |t| ==> r.1[|r.1| - 1].Called? && r.0 == r.1[|r.1| - 1].code)
  {
    BreakExtends(env, t, kind, width, start, init);
    BreakLength(env, t, kind, width, start, init);
    var r := BreakLoop(env, t, kind, width, start, init);
    forall k | |t| <= k < |r.1| - 1
      ensures r.1[k].Called? && r.1[k].code < 0
    {
      BreakEarlierFailed(env, t, kind, width, start, init, k - |t|);
    }
  }

  /**
   * A start value that is already wider than `width` makes no attempt and
   * leaves `i` as it was; since `i` then still holds the non-negative result
   * of reader initialisation, the caller takes its success branch.
   */
  lemma BreakWideStart(env: Env, t: seq<Event>, kind: SecretKind, width: nat, start: ULongLong, init: int)
    requires ValidWidth(width)
    requires start >= Limit(width)
    ensures BreakLoop(env, t, kind, width, start, init) == (init, t)
  {
  }

  /**
   * The loop stops at the first establish that succeeds, so at most one
   * attempt populates `sctx`; every call is an unchained establish into
   * `sctx`, so none touches `tmpctx` or is an administrative call.
   */
  lemma BreakPopulatesOnce(env: Env, t: seq<Event>, kind: SecretKind, width: nat, start: ULongLong, init: int)
    requires ValidWidth(width)
    ensures |t| <= |BreakLoop(env, t, kind, width, start, init).1|
    ensures var d := BreakLoop(env, t, kind, width, start, init).1[|t|..];
      && Successes(d, SCtx) <= 1
      && Successes(d, TmpCtx) == 0
      && OnlyCalls(d)
      && (forall k | 0 <= k < |d| :: d[k].call.Establish? && d[k].call.prior.None? && d[k].call.into == SCtx)
  {
    BreakLength(env, t, kind, width, start, init);
    var r := BreakLoop(env, t, kind, width, start, init);
    var d := r.1[|t|..];
    forall k | 0 <= k < |d|
      ensures d[k].Called? && d[k].call.Establish? && d[k].call.prior.None? && d[k].call.into == SCtx
    {
      BreakAttempt(env, t, kind, width, start, init, k);
    }
    SuccessesNone(d, TmpCtx);
    if |d| > 0 {
      var front := d[..|d| - 1];
      forall j | 0 <= j < |front|
        ensures !IsSuccessfulEstablish(front[j], SCtx)
      {
        BreakEarlierFailed(env, t, kind, width, start, init, j);
      }
      SuccessesNone(front, SCtx);
      assert d == front + [d[|d| - 1]];
      SuccessesAppend(front, [d[|d| - 1]], SCtx);
      assert Successes([d[|d| - 1]], SCtx) <= 1 by {
        assert [d[|d| - 1]][..0] == [];
      }
    }
  }
}
