/**
 * Consequences of `main` as written that a reader might not expect: a break
 * start value too wide for the secret reports success without a single
 * attempt, `sctx` is populated again by a second workflow without being
 * released in between, and the `exit(1)` of the direct block leaves
 * contexts populated by earlier workflows unreleased.
 */
module Scenarios {
  import opened Wrappers
  import opened Decimal
  import opened Pace
  import opened Secrets
  import opened BruteForce
  import opened Relay
  import opened Tool
  import opened Workflows

  /** No option given. */
  const Quiet: Config := Config(
    false, None, false, None, false, None, false, None, None,
    false, false, false, false, false)

  /** A card and library that accept every call and allocate no output. */
  const Accepting: Env := Env(k => 0, k => {}, s => None, s => None, b => false)

  /**
   * Lines 312 and 364-386: with a start value that already has more digits
   * than the secret, the loop breaks before its first establish, `i` still
   * holds the result of `initialize`, and the run goes on as after a found
   * secret, down to the cleanup of contexts nothing populated.
   */
  lemma WideStartReportsSuccess(cfg: Config, env: Env, init: nat, input: seq<Read>)
    requires cfg.doBreak && !cfg.doResumePin && !cfg.doUnblock && !cfg.doChangePin && !cfg.doTranslate
    requires BreakTarget(cfg).Some?
    requires var plan := BreakTarget(cfg).value;
      BreakStart(env, plan).Some? && BreakStart(env, plan).value >= Limit(plan.width)
    ensures BreakBlock(cfg, env, Running(init, [])) == Running(init, [])
    ensures RunSpec(cfg, env, init, input) == (-(init as int), [ClearFree(SCtx), ClearFree(TmpCtx)])
  {
    var plan := BreakTarget(cfg).value;
    BreakWideStart(env, [], plan.kind, plan.width, BreakStart(env, plan).value, init);
    assert Body(cfg, env, init, input) == Running(init, []);
    assert NonNull([]) == {};
    assert Cleanup({}) == [ClearFree(SCtx), ClearFree(TmpCtx)];
    assert [] + Cleanup({}) == Cleanup({});
  }

  /**
   * Lines 390-448: when the card accepts, resume and unblock both establish
   * into `sctx` and nothing releases it in between, so the bound of
   * `RunGuarded` (one session per workflow) is reached.
   */
  lemma ResumeThenUnblockPopulatesSctxTwice(cfg: Config, env: Env, init: nat, t: seq<Event>)
    requires cfg.doResumePin && cfg.doUnblock
    requires forall k | |t| <= k < |t| + 3 :: env.reply(k) >= 0
    ensures var q := UnblockBlock(cfg, env, ResumeBlock(cfg, env, Running(init, t)));
      && |q.t| == |t| + 4
      && Successes(q.t, SCtx) == Successes(t, SCtx) + 2
  {
    var e0 := Perform(env, |t|, Establish(None, SecretFrom(Can, cfg.can), TmpCtx));
    var e1 := Perform(env, |t| + 1, Establish(Some(TmpCtx), SecretFrom(Pin, cfg.pin), SCtx));
    var e2 := Perform(env, |t| + 2, Establish(None, SecretFrom(Puk, cfg.puk), SCtx));
    var e3 := Perform(env, |t| + 3, UnblockPin(SCtx));
    assert env.reply(|t|) >= 0 && env.reply(|t| + 1) >= 0 && env.reply(|t| + 2) >= 0;
    var p1 := ResumeBlock(cfg, env, Running(init, t));
    assert p1.Running? && p1.t == t + [e0] + [e1];
    var q := UnblockBlock(cfg, env, p1);
    assert q.t == t + [e0] + [e1] + [e2] + [e3];
    SuccessesAppend(t, [e0], SCtx);
    SuccessesAppend(t + [e0], [e1], SCtx);
    SuccessesAppend(t + [e0] + [e1], [e2], SCtx);
    SuccessesAppend(t + [e0] + [e1] + [e2], [e3], SCtx);
  }

  /**
   * Lines 390-505: with `--resume-pin --translate` and no secret kind for
   * the direct block, resume populates both contexts and the direct block
   * then exits with 1 without reaching `err:`, so neither is released.
   */
  lemma DirectExitLeavesContexts()
    ensures var r := RunSpec(Quiet.(doResumePin := true, doTranslate := true), Accepting, 0, []);
      && r.0 == 1
      && Successes(r.1, TmpCtx) == 1
      && Successes(r.1, SCtx) == 1
      && ClearFree(SCtx) !in r.1 && ClearFree(TmpCtx) !in r.1
  {
    var cfg := Quiet.(doResumePin := true, doTranslate := true);
    var p := Body(cfg, Accepting, 0, []);
    var t := p.t;
    assert |t| == 2;
    assert t == [t[0]] + [t[1]];
    SuccessesAppend([t[0]], [t[1]], SCtx);
    SuccessesAppend([t[0]], [t[1]], TmpCtx);
  }

  /** `%0*llu` pads to the width but never truncates. */
  lemma ZeroPaddedSmall()
    ensures ZeroPadded(0, 6) == "000000"
    ensures ZeroPadded(1, 6) == "000001"
  {
    assert Zeros(5) == "00000" by {
      assert Zeros(1) == "0";
      assert Zeros(2) == "00";
      assert Zeros(3) == "000";
      assert Zeros(4) == "0000";
    }
  }

  /** The largest six-digit counter is tried as is; the next one no longer fits. */
  lemma ZeroPaddedEdge()
    ensures ZeroPadded(999_999, 6) == "999999"
    ensures ZeroPadded(1_000_000, 6) == "1000000"
  {
    assert ZeroPadded(9, 1) == "9";
    assert ZeroPadded(99, 2) == "99";
    assert ZeroPadded(999, 3) == "999";
    assert ZeroPadded(9_999, 4) == "9999";
    assert ZeroPadded(99_999, 5) == "99999";
    assert ZeroPadded(1, 0) == "1";
    assert ZeroPadded(10, 1) == "10";
    assert ZeroPadded(100, 2) == "100";
    assert ZeroPadded(1_000, 3) == "1000";
    assert ZeroPadded(10_000, 4) == "10000";
    assert ZeroPadded(100_000, 5) == "100000";
  }

  /**
   * Lines 329-386 on a card that rejects the first PIN: break mode without
   * a start value tries "000000", then "000001", which is accepted; the run
   * then releases both contexts and returns 0.
   */
  lemma BreakPinFromZero()
    ensures var cfg := Quiet.(usePin := true, doBreak := true);
      var env := Accepting.(reply := k => if k == 0 then -1 else 0);
      var r := RunSpec(cfg, env, 0, []);
      && r.0 == 0
      && |r.1| == 4
      && r.1[0] == Called(Establish(None, Secret(Pin, Some("000000"), 6), SCtx), -1, {})
      && r.1[1] == Called(Establish(None, Secret(Pin, Some("000001"), 6), SCtx), 0, {})
      && r.1[2..] == [ClearFree(SCtx), ClearFree(TmpCtx)]
  {
    var cfg := Quiet.(usePin := true, doBreak := true);
    var env := Accepting.(reply := k => if k == 0 then -1 else 0);
    ZeroPaddedSmall();
    var b := BreakLoop(env, [], Pin, 6, 0, 0);
    var e0 := Perform(env, 0, Attempt(Pin, 6, 0));
    var e1 := Perform(env, 1, Attempt(Pin, 6, 1));
    assert e0.code == -1 && e1.code == 0;
    assert Limit(6) == 1_000_000;
    assert [] + [e0] == [e0] && [e0] + [e1] == [e0, e1];
    assert BreakLoop(env, [e0], Pin, 6, 1, -1) == (0, [e0, e1]);
    assert b == BreakLoop(env, [e0], Pin, 6, 1, -1);
    assert Body(cfg, env, 0, []) == Running(0, [e0, e1]);
    assert NonNull([e0, e1]) == {};
    assert Cleanup({}) == [ClearFree(SCtx), ClearFree(TmpCtx)];
  }
}
