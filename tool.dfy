/**
 * `main` from the connected card on: the break, resume, unblock, change and
 * direct/translate blocks in their fixed order, each guarded by its flag;
 * the jump to `err:` on a negative result; and the cleanup there, which
 * releases both session contexts and frees the non-null establishment
 * output before `main` returns `-i`. An `exit` leaves without cleanup.
 */
module Tool {
  import opened Wrappers
  import opened Pace
  import opened Secrets
  import opened BruteForce
  import opened Relay

  /**
   * Where `main` stands after a block: still running with result `i`, on the
   * way to `err:` with the negative result `i`, or gone with `exit(status)`.
   * `t` is every call made so far.
   */
  datatype Progress =
    | Running(i: int, t: seq<Event>)
    | Failed(i: int, t: seq<Event>)
    | Exited(status: int, t: seq<Event>)

  /** One library call whose negative result jumps to `err:`. */
  function Step(env: Env, t: seq<Event>, c: Call): (p: Progress)
  {
    var e := Perform(env, |t|, c);
    Outcome(e.code, t + [e])
  }

  /** Lines 324-388: `--break`. */
  function BreakBlock(cfg: Config, env: Env, p: Progress): Progress
  {
    if !cfg.doBreak || !p.Running? then p
    else
      match BreakTarget(cfg)
      case None => Exited(1, p.t)
      case Some(plan) =>
        match BreakStart(env, plan)
        case None => Exited(2, p.t)
        case Some(start) =>
          var r := BreakLoop(env, p.t, plan.kind, plan.width, start, p.i);
          Outcome(r.0, r.1)
  }

  /** Lines 390-424: `--resume-pin`, the CAN into `tmpctx`, then the PIN chained on it into `sctx`. */
  function ResumeBlock(cfg: Config, env: Env, p: Progress): Progress
  {
    if !cfg.doResumePin || !p.Running? then p
    else
      var p1 := Step(env, p.t, Establish(None, SecretFrom(Can, cfg.can), TmpCtx));
      if p1.Failed? then p1
      else Step(env, p1.t, Establish(Some(TmpCtx), SecretFrom(Pin, cfg.pin), SCtx))
  }

  /** Lines 426-448: `--unblock-pin`, the PUK into `sctx`, then `pace_unblock_pin`. */
  function UnblockBlock(cfg: Config, env: Env, p: Progress): Progress
  {
    if !cfg.doUnblock || !p.Running? then p
    else
      var p1 := Step(env, p.t, Establish(None, SecretFrom(Puk, cfg.puk), SCtx));
      if p1.Failed? then p1 else Step(env, p1.t, UnblockPin(SCtx))
  }

  /** Lines 450-472: `--new-pin`, the PIN into `sctx`, then `pace_change_pin`. */
  function ChangeBlock(cfg: Config, env: Env, p: Progress): Progress
  {
    if !cfg.doChangePin || !p.Running? then p
    else
      var p1 := Step(env, p.t, Establish(None, SecretFrom(Pin, cfg.pin), SCtx));
      if p1.Failed? then p1 else Step(env, p1.t, ChangePin(SCtx, cfg.newPin))
  }

  /** The guard of line 474: translate was asked for, or no other workflow was. */
  predicate RunsDirect(cfg: Config)
  {
    cfg.doTranslate || !(cfg.doResumePin || cfg.doChangePin || cfg.doUnblock || cfg.doBreak)
  }

  /** Lines 474-531: the direct establish into `sctx`, then the relay when translating. */
  function DirectBlock(cfg: Config, env: Env, input: seq<Read>, p: Progress): Progress
  {
    if !RunsDirect(cfg) || !p.Running? then p
    else
      match DirectSecret(cfg)
      case None => Exited(1, p.t)
      case Some(secret) =>
        var p1 := Step(env, p.t, Establish(None, secret, SCtx));
        if p1.Failed? || !cfg.doTranslate then p1
        else
          var r := RelayLoop(env, p1.t, input, 0);
          Outcome(r.0, r.1)
  }

  /** The blocks in source order, from `i` as `initialize` left it. */
  function Body(cfg: Config, env: Env, init: nat, input: seq<Read>): Progress
  {
    var p1 := BreakBlock(cfg, env, Running(init, []));
    var p2 := ResumeBlock(cfg, env, p1);
    var p3 := UnblockBlock(cfg, env, p2);
    var p4 := ChangeBlock(cfg, env, p3);
    DirectBlock(cfg, env, input, p4)
  }

  /** `if (pace_output.b) free(pace_output.b);` after the releases so far. */
  function FreeIf(released: seq<Event>, out: set<Buffer>, b: Buffer): seq<Event>
  {
    if b in out then released + [Free(b)] else released
  }

  /** Lines 533-545: release both contexts, then free each non-null output buffer in field order. */
  function Cleanup(out: set<Buffer>): seq<Event>
  {
    var released := [ClearFree(SCtx), ClearFree(TmpCtx)];
    FreeIf(FreeIf(FreeIf(FreeIf(FreeIf(released, out, EfCardAccess), out, RecentCar), out, PreviousCar), out, IdIcc), out, IdPcd)
  }

  /** The exit status and the whole trace of `main`. */
  function RunSpec(cfg: Config, env: Env, init: nat, input: seq<Read>): (int, seq<Event>)
  {
    var p := Body(cfg, env, init, input);
    if p.Exited? then (p.status, p.t) else (-p.i, p.t + Cleanup(NonNull(p.t)))
  }

  /** The `goto err` test after a call: a negative result leaves the blocks. */
  function Outcome(i: int, t: seq<Event>): Progress
  {
    if i < 0 then Failed(i, t) else Running(i, t)
  }

  /** Lines 324-388; `exit` is the status of an `exit()` before any attempt. */
  method BreakMode(cfg: Config, env: Env, i0: int, t0: seq<Event>) returns (exit: Option<int>, i: int, t: seq<Event>)
    requires cfg.doBreak
    ensures exit.Some? ==> t == t0 && BreakBlock(cfg, env, Running(i0, t0)) == Exited(exit.value, t0)
    ensures exit.None? ==> BreakBlock(cfg, env, Running(i0, t0)) == Outcome(i, t)
  {
    var plan := BreakTarget(cfg);
    if plan.None? {
      return Some(1), i0, t0;
    }
    var start := BreakStart(env, plan.value);
    if start.None? {
      return Some(2), i0, t0;
    }
    exit := None;
    i, t := BreakSecret(env, t0, plan.value.kind, plan.value.width, start.value, i0);
  }

  /** Lines 390-424. */
  method ResumePin(cfg: Config, env: Env, i0: int, t0: seq<Event>) returns (i: int, t: seq<Event>)
    requires cfg.doResumePin
    ensures ResumeBlock(cfg, env, Running(i0, t0)) == Outcome(i, t)
  {
    var e := Perform(env, |t0|, Establish(None, SecretFrom(Can, cfg.can), TmpCtx));
    t, i := t0 + [e], e.code;
    if i < 0 {
      return;
    }
    e := Perform(env, |t|, Establish(Some(TmpCtx), SecretFrom(Pin, cfg.pin), SCtx));
    t, i := t + [e], e.code;
  }

  /** Lines 426-448. */
  method UnblockPinWithPuk(cfg: Config, env: Env, i0: int, t0: seq<Event>) returns (i: int, t: seq<Event>)
    requires cfg.doUnblock
    ensures UnblockBlock(cfg, env, Running(i0, t0)) == Outcome(i, t)
  {
    var e := Perform(env, |t0|, Establish(None, SecretFrom(Puk, cfg.puk), SCtx));
    t, i := t0 + [e], e.code;
    if i < 0 {
      return;
    }
    e := Perform(env, |t|, UnblockPin(SCtx));
    t, i := t + [e], e.code;
  }

  /** Lines 450-472. */
  method ChangePinWithPin(cfg: Config, env: Env, i0: int, t0: seq<Event>) returns (i: int, t: seq<Event>)
    requires cfg.doChangePin
    ensures ChangeBlock(cfg, env, Running(i0, t0)) == Outcome(i, t)
  {
    var e := Perform(env, |t0|, Establish(None, SecretFrom(Pin, cfg.pin), SCtx));
    t, i := t0 + [e], e.code;
    if i < 0 {
      return;
    }
    e := Perform(env, |t|, ChangePin(SCtx, cfg.newPin));
    t, i := t + [e], e.code;
  }

  /** Lines 474-531; `exit` is the status of the `exit(1)` when no secret kind was chosen. */
  method Direct(cfg: Config, env: Env, input: seq<Read>, i0: int, t0: seq<Event>) returns (exit: Option<int>, i: int, t: seq<Event>)
    requires RunsDirect(cfg)
    ensures exit.Some? ==> t == t0 && DirectBlock(cfg, env, input, Running(i0, t0)) == Exited(exit.value, t0)
    ensures exit.None? ==> DirectBlock(cfg, env, input, Running(i0, t0)) == Outcome(i, t)
  {
    var secret := DirectSecret(cfg);
    if secret.None? {
      return Some(1), i0, t0;
    }
    exit := None;
    var e := Perform(env, |t0|, Establish(None, secret.value, SCtx));
    t, i := t0 + [e], e.code;
    if i < 0 {
      return;
    }
    if cfg.doTranslate {
      i, t := TranslateApdus(env, t, input);
    }
  }

  /** Lines 390-472: the resume, unblock and change blocks; a negative result returns at once. */
  method Administer(cfg: Config, env: Env, i0: int, t0: seq<Event>) returns (i: int, t: seq<Event>)
    requires i0 >= 0
    ensures ChangeBlock(cfg, env, UnblockBlock(cfg, env, ResumeBlock(cfg, env, Running(i0, t0)))) == Outcome(i, t)
  {
    i, t := i0, t0;
    if cfg.doResumePin {
      i, t := ResumePin(cfg, env, i, t);
      if i < 0 {
        return;
      }
    }
    if cfg.doUnblock {
      i, t := UnblockPinWithPuk(cfg, env, i, t);
      if i < 0 {
        return;
      }
    }
    if cfg.doChangePin {
      i, t := ChangePinWithPin(cfg, env, i, t);
    }
  }

  /**
   * `main` from line 324 on, as written: `init` is the non-negative result
   * of `initialize`, `input` the lines of the APDU file.
   */
  method Run(cfg: Config, env: Env, init: nat, input: seq<Read>) returns (status: int, t: seq<Event>)
    ensures (status, t) == RunSpec(cfg, env, init, input)
  {
    var i: int := init;
    t := [];
    var exit: Option<int>;
    label err: {
      if cfg.doBreak {
        exit, i, t := BreakMode(cfg, env, i, t);
        if exit.Some? {
          return exit.value, t;
        }
        if 0 > i {
          break err;
        }
      }
      assert BreakBlock(cfg, env, Running(init, [])) == Running(i, t);
      i, t := Administer(cfg, env, i, t);
      if i < 0 {
        break err;
      }
      if RunsDirect(cfg) {
        exit, i, t := Direct(cfg, env, input, i, t);
        if exit.Some? {
          return exit.value, t;
        }
      }
    }
    assert Body(cfg, env, init, input) == Outcome(i, t);
    t := Release(t);
    status := -i;
  }

  /** Lines 533-545: the cleanup at `err:`, from the calls made so far. */
  method Release(t0: seq<Event>) returns (t: seq<Event>)
    ensures t == t0 + Cleanup(NonNull(t0))
  {
    var out := NonNull(t0);
    var released := [ClearFree(SCtx), ClearFree(TmpCtx)];
    if EfCardAccess in out {
      released := released + [Free(EfCardAccess)];
    }
    if RecentCar in out {
      released := released + [Free(RecentCar)];
    }
    if PreviousCar in out {
      released := released + [Free(PreviousCar)];
    }
    if IdIcc in out {
      released := released + [Free(IdIcc)];
    }
    if IdPcd in out {
      released := released + [Free(IdPcd)];
    }
    t := t0 + released;
  }
}
