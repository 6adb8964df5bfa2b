/**
 * What the orchestration in `main` guarantees, proved about the block
 * functions of `Tool`: which calls may follow which, how many sessions a run
 * opens, and what the cleanup at `err:` releases.
 */
module Workflows {
  import opened Wrappers
  import opened Pace
  import opened Secrets
  import opened BruteForce
  import opened Relay
  import opened Tool

  /**
   * The call `e` is allowed after the event `prev` (None at the start): an
   * administrative call on `sctx` right after a successful establish of its
   * secret into `sctx`, an establish chained on a context right after the
   * CAN populated it, a transmit on `sctx` right after a successful
   * establish into `sctx` or after another transmit; an establish carries a
   * measured secret.
   */
  predicate Follows(prev: Option<Event>, e: Event)
  {
    e.Called? ==>
      && (e.call.Establish? ==> Measured(e.call.secret))
      && (e.call.UnblockPin? ==>
            prev.Some? && IsSuccessfulEstablish(prev.value, SCtx) && prev.value.call.secret.kind == Puk && e.call.ctx == SCtx)
      && (e.call.ChangePin? ==>
            prev.Some? && IsSuccessfulEstablish(prev.value, SCtx) && prev.value.call.secret.kind == Pin && e.call.ctx == SCtx)
      && (e.call.Establish? && e.call.prior.Some? ==>
            prev.Some? && IsSuccessfulEstablish(prev.value, TmpCtx) && prev.value.call.secret.kind == Can
            && e.call.prior == Some(TmpCtx))
      && (e.call.Transmit? ==>
            prev.Some? && e.call.ctx == SCtx
            && (IsSuccessfulEstablish(prev.value, SCtx) || (prev.value.Called? && prev.value.call.Transmit?)))
  }

  /** The event before index `j` of `t`, if any. */
  function Before(t: seq<Event>, j: nat): Option<Event>
    requires j <= |t|
  {
    if j == 0 then None else Some(t[j - 1])
  }

  /** The call at `j` is allowed where it stands. */
  predicate GuardedAt(t: seq<Event>, j: nat)
    requires j < |t|
  {
    Follows(Before(t, j), t[j])
  }

  predicate Guarded(t: seq<Event>)
  {
    forall j | 0 <= j < |t| :: GuardedAt(t, j)
  }

  /** A call that needs nothing before it: an unchained establish of a measured secret. */
  predicate Plain(e: Event)
  {
    e.Called? && e.call.Establish? && e.call.prior.None? && Measured(e.call.secret)
  }

  /**
   * What holds of `main` after every block: the sign of `i` matches whether
   * it is on its way to `err:`, an `exit` status is 1 or 2, and the trace so
   * far is calls only, each one guarded.
   */
  predicate Sound(p: Progress)
  {
    && (p.Running? ==> p.i >= 0)
    && (p.Failed? ==> p.i < 0)
    && (p.Exited? ==> p.status == 1 || p.status == 2)
    && OnlyCalls(p.t)
    && Guarded(p.t)
  }

  /**
   * A block took `p` to `q`: `q` is sound, the trace only grew, an `exit`
   * added nothing, a block that did not run changed nothing, and at most
   * `s` and `m` successful establishes populated `sctx` and `tmpctx`.
   */
  predicate Advances(p: Progress, q: Progress, s: nat, m: nat)
  {
    && Sound(q)
    && p.t <= q.t
    && (q.Exited? ==> q.t == p.t)
    && (!p.Running? ==> q == p)
    && Successes(q.t, SCtx) <= Successes(p.t, SCtx) + s
    && Successes(q.t, TmpCtx) <= Successes(p.t, TmpCtx) + m
  }

  lemma GuardedSnoc(t: seq<Event>, e: Event)
    requires Guarded(t) && GuardedAt(t + [e], |t|)
    ensures Guarded(t + [e])
  {
    forall j | 0 <= j < |t| + 1
      ensures GuardedAt(t + [e], j)
    {
      if j < |t| {
        assert (t + [e])[j] == t[j];
        assert GuardedAt(t, j);
      }
    }
  }

  lemma GuardedAppendPlain(t: seq<Event>, d: seq<Event>)
    requires Guarded(t)
    requires forall k | 0 <= k < |d| :: Plain(d[k])
    ensures Guarded(t + d) && OnlyCalls(t + d) == OnlyCalls(t)
  {
    forall j | 0 <= j < |t + d|
      ensures GuardedAt(t + d, j)
    {
      if j < |t| {
        assert (t + d)[j] == t[j];
        assert GuardedAt(t, j);
      } else {
        assert (t + d)[j] == d[j - |t|];
      }
    }
    if OnlyCalls(t) {
      forall j | 0 <= j < |t + d|
        ensures (t + d)[j].Called?
      {
        if j >= |t| {
          assert (t + d)[j] == d[j - |t|];
        }
      }
    }
    if OnlyCalls(t + d) {
      forall j | 0 <= j < |t|
        ensures t[j].Called?
      {
        assert (t + d)[j] == t[j];
      }
    }
  }

  /** One call appended to a sound running trace, where it is allowed. */
  lemma StepAdvances(env: Env, i: int, t: seq<Event>, c: Call, s: nat, m: nat)
    requires Sound(Running(i, t))
    requires Follows(Before(t, |t|), Perform(env, |t|, c))
    requires IsSuccessfulEstablish(Perform(env, |t|, c), SCtx) ==> s == 1
    requires IsSuccessfulEstablish(Perform(env, |t|, c), TmpCtx) ==> m == 1
    ensures Advances(Running(i, t), Step(env, t, c), s, m)
  {
    var e := Perform(env, |t|, c);
    assert Before(t + [e], |t|) == Before(t, |t|);
    GuardedSnoc(t, e);
    SuccessesAppend(t, [e], SCtx);
    SuccessesAppend(t, [e], TmpCtx);
    assert OnlyCalls(t + [e]) by {
      forall j | 0 <= j < |t| + 1
        ensures (t + [e])[j].Called?
      {
        if j < |t| {
          assert (t + [e])[j] == t[j];
        }
      }
    }
  }

  lemma BreakAdvances(cfg: Config, env: Env, p: Progress)
    requires Sound(p)
    ensures Advances(p, BreakBlock(cfg, env, p), if cfg.doBreak then 1 else 0, 0)
  {
    if cfg.doBreak && p.Running? {
      var plan := BreakTarget(cfg);
      if plan.Some? && BreakStart(env, plan.value).Some? {
        var kind, width, start := plan.value.kind, plan.value.width, BreakStart(env, plan.value).value;
        var r := BreakLoop(env, p.t, kind, width, start, p.i);
        BreakPopulatesOnce(env, p.t, kind, width, start, p.i);
        BreakExtends(env, p.t, kind, width, start, p.i);
        var d := r.1[|p.t|..];
        assert r.1 == p.t + d;
        forall k | 0 <= k < |d|
          ensures Measured(d[k].call.secret)
        {
          assert d[k] == r.1[|p.t| + k];
          BreakCandidate(env, p.t, kind, width, start, p.i, k);
        }
        GuardedAppendPlain(p.t, d);
        SuccessesAppend(p.t, d, SCtx);
        SuccessesAppend(p.t, d, TmpCtx);
      }
    }
  }

  lemma ResumeAdvances(cfg: Config, env: Env, p: Progress)
    requires Sound(p)
    ensures Advances(p, ResumeBlock(cfg, env, p), if cfg.doResumePin then 1 else 0, if cfg.doResumePin then 1 else 0)
  {
    if cfg.doResumePin && p.Running? {
      var p1 := Step(env, p.t, Establish(None, SecretFrom(Can, cfg.can), TmpCtx));
      StepAdvances(env, p.i, p.t, Establish(None, SecretFrom(Can, cfg.can), TmpCtx), 0, 1);
      if p1.Running? {
        var c := Establish(Some(TmpCtx), SecretFrom(Pin, cfg.pin), SCtx);
        assert Before(p1.t, |p1.t|) == Some(Perform(env, |p.t|, Establish(None, SecretFrom(Can, cfg.can), TmpCtx)));
        StepAdvances(env, p1.i, p1.t, c, 1, 0);
      }
    }
  }

  lemma UnblockAdvances(cfg: Config, env: Env, p: Progress)
    requires Sound(p)
    ensures Advances(p, UnblockBlock(cfg, env, p), if cfg.doUnblock then 1 else 0, 0)
  {
    if cfg.doUnblock && p.Running? {
      var p1 := Step(env, p.t, Establish(None, SecretFrom(Puk, cfg.puk), SCtx));
      StepAdvances(env, p.i, p.t, Establish(None, SecretFrom(Puk, cfg.puk), SCtx), 1, 0);
      if p1.Running? {
        assert Before(p1.t, |p1.t|) == Some(Perform(env, |p.t|, Establish(None, SecretFrom(Puk, cfg.puk), SCtx)));
        StepAdvances(env, p1.i, p1.t, UnblockPin(SCtx), 0, 0);
      }
    }
  }

  lemma ChangeAdvances(cfg: Config, env: Env, p: Progress)
    requires Sound(p)
    ensures Advances(p, ChangeBlock(cfg, env, p), if cfg.doChangePin then 1 else 0, 0)
  {
    if cfg.doChangePin && p.Running? {
      var p1 := Step(env, p.t, Establish(None, SecretFrom(Pin, cfg.pin), SCtx));
      StepAdvances(env, p.i, p.t, Establish(None, SecretFrom(Pin, cfg.pin), SCtx), 1, 0);
      if p1.Running? {
        assert Before(p1.t, |p1.t|) == Some(Perform(env, |p.t|, Establish(None, SecretFrom(Pin, cfg.pin), SCtx)));
        StepAdvances(env, p1.i, p1.t, ChangePin(SCtx, cfg.newPin), 0, 0);
      }
    }
  }

  /** Transmits on `sctx` appended right after a successful establish into `sctx` are guarded. */
  lemma GuardedAppendTransmits(t: seq<Event>, d: seq<Event>)
    requires Guarded(t) && OnlyCalls(t) && |t| > 0 && IsSuccessfulEstablish(t[|t| - 1], SCtx)
    requires forall k | 0 <= k < |d| :: d[k].Called? && d[k].call.Transmit? && d[k].call.ctx == SCtx
    ensures Guarded(t + d) && OnlyCalls(t + d)
  {
    forall j | 0 <= j < |t + d|
      ensures GuardedAt(t + d, j) && (t + d)[j].Called?
    {
      if j < |t| {
        assert (t + d)[j] == t[j];
        assert GuardedAt(t, j);
      } else {
        assert (t + d)[j] == d[j - |t|];
        if j == |t| {
          assert Before(t + d, j) == Some(t[|t| - 1]);
        } else {
          assert Before(t + d, j) == Some(d[j - 1 - |t|]);
        }
      }
    }
  }

  /** The relay after the direct establish appends transmits only: nothing populated, each one guarded. */
  lemma RelayAdvances(env: Env, i: int, t: seq<Event>, input: seq<Read>)
    requires Sound(Running(i, t)) && |t| > 0 && IsSuccessfulEstablish(t[|t| - 1], SCtx)
    ensures var r := RelayLoop(env, t, input, 0);
      Advances(Running(i, t), Outcome(r.0, r.1), 0, 0)
  {
    var r := RelayLoop(env, t, input, 0);
    RelayOnlyTransmits(env, t, input);
    var d := r.1[|t|..];
    assert r.1 == t + d;
    forall k | 0 <= k < |d|
      ensures d[k].Called? && d[k].call.Transmit? && d[k].call.ctx == SCtx
    {
      assert d[k] == r.1[|t| + k];
    }
    GuardedAppendTransmits(t, d);
  }

  lemma DirectAdvances(cfg: Config, env: Env, input: seq<Read>, p: Progress)
    requires Sound(p)
    ensures Advances(p, DirectBlock(cfg, env, input, p), if RunsDirect(cfg) then 1 else 0, 0)
  {
    if RunsDirect(cfg) && p.Running? && DirectSecret(cfg).Some? {
      var c := Establish(None, DirectSecret(cfg).value, SCtx);
      var p1 := Step(env, p.t, c);
      StepAdvances(env, p.i, p.t, c, 1, 0);
      if p1.Running? && cfg.doTranslate {
        assert p1.t[|p1.t| - 1] == Perform(env, |p.t|, c);
        RelayAdvances(env, p1.i, p1.t, input);
      }
    }
  }

  /** How many workflow blocks the options switch on; the direct block counts when it runs. */
  function WorkflowCount(cfg: Config): nat
  {
    (if cfg.doBreak then 1 else 0) + (if cfg.doResumePin then 1 else 0) + (if cfg.doUnblock then 1 else 0)
    + (if cfg.doChangePin then 1 else 0) + (if RunsDirect(cfg) then 1 else 0)
  }

  /**
   * After the blocks, the trace holds only calls, each guarded; `sctx` was
   * populated at most once per workflow that ran (contexts are reused, not
   * cleared, between workflows) and `tmpctx` only by resume.
   */
  lemma BodySound(cfg: Config, env: Env, init: nat, input: seq<Read>)
    ensures var p := Body(cfg, env, init, input);
      && Sound(p)
      && Successes(p.t, SCtx) <= WorkflowCount(cfg)
      && Successes(p.t, TmpCtx) <= (if cfg.doResumePin then 1 else 0)
  {
    var p0 := Running(init, []);
    assert Successes([], SCtx) == 0 && Successes([], TmpCtx) == 0;
    var p1 := BreakBlock(cfg, env, p0);
    BreakAdvances(cfg, env, p0);
    var p2 := ResumeBlock(cfg, env, p1);
    ResumeAdvances(cfg, env, p1);
    var p3 := UnblockBlock(cfg, env, p2);
    UnblockAdvances(cfg, env, p2);
    var p4 := ChangeBlock(cfg, env, p3);
    ChangeAdvances(cfg, env, p3);
    DirectAdvances(cfg, env, input, p4);
  }

  /** No event occurs twice in `t`. */
  predicate Distinct(t: seq<Event>)
  {
    forall j, k | 0 <= j < k < |t| :: t[j] != t[k]
  }

  /** The order in which lines 536-545 test the pointers of `pace_output`. */
  const FieldOrder: seq<Buffer> := [EfCardAccess, RecentCar, PreviousCar, IdIcc, IdPcd]

  /** `free` of each buffer of `bs` that is in `out`, in the order of `bs`. */
  function Frees(out: set<Buffer>, bs: seq<Buffer>): seq<Event>
  {
    if bs == [] then [] else (if bs[0] in out then [Free(bs[0])] else []) + Frees(out, bs[1..])
  }

  lemma {:induction false} FreesContents(out: set<Buffer>, bs: seq<Buffer>)
    requires forall j, k | 0 <= j < k < |bs| :: bs[j] != bs[k]
    ensures forall b :: Free(b) in Frees(out, bs) <==> b in bs && b in out
    ensures forall j | 0 <= j < |Frees(out, bs)| :: Frees(out, bs)[j].Free?
    ensures Distinct(Frees(out, bs))
  {
    if bs != [] {
      FreesContents(out, bs[1..]);
      var head: seq<Event> := if bs[0] in out then [Free(bs[0])] else [];
      var tail := Frees(out, bs[1..]);
      assert Frees(out, bs) == head + tail;
      assert bs[0] !in bs[1..] by {
        forall k | 0 <= k < |bs[1..]|
          ensures bs[1..][k] != bs[0]
        {
          assert bs[1..][k] == bs[k + 1];
        }
      }
      forall b
        ensures Free(b) in head + tail <==> b in bs && b in out
      {
        assert b in bs <==> b == bs[0] || b in bs[1..] by {
          assert bs == [bs[0]] + bs[1..];
        }
      }
      forall j | 0 <= j < |head + tail|
        ensures (head + tail)[j].Free?
      {
        if j >= |head| {
          assert (head + tail)[j] == tail[j - |head|];
        }
      }
      forall j, k | 0 <= j < k < |head + tail|
        ensures (head + tail)[j] != (head + tail)[k]
      {
        if j >= |head| {
          assert (head + tail)[j] == tail[j - |head|];
        } else {
          assert (head + tail)[k] in tail;
        }
      }
    }
  }

  /** The cleanup is the two context releases, then the frees in field order. */
  lemma {:induction false} FreesSnoc(out: set<Buffer>, bs: seq<Buffer>, b: Buffer)
    ensures Frees(out, bs + [b]) == Frees(out, bs) + (if b in out then [Free(b)] else [])
  {
    if bs != [] {
      assert (bs + [b])[1..] == bs[1..] + [b];
      FreesSnoc(out, bs[1..], b);
    } else {
      assert ([] + [b])[1..] == [];
    }
  }

  /** One `if (b) free(b)` of the cleanup extends the frees by `b`. */
  lemma FreeIfSnoc(r: seq<Event>, out: set<Buffer>, bs: seq<Buffer>, b: Buffer)
    ensures FreeIf(r + Frees(out, bs), out, b) == r + Frees(out, bs + [b])
  {
    FreesSnoc(out, bs, b);
  }

  lemma CleanupFirstFrees(out: set<Buffer>)
    ensures var r := [ClearFree(SCtx), ClearFree(TmpCtx)];
      FreeIf(FreeIf(FreeIf(r, out, EfCardAccess), out, RecentCar), out, PreviousCar)
      == r + Frees(out, [EfCardAccess, RecentCar, PreviousCar])
  {
    var r := [ClearFree(SCtx), ClearFree(TmpCtx)];
    assert r == r + Frees(out, []);
    FreeIfSnoc(r, out, [], EfCardAccess);
    assert [] + [EfCardAccess] == [EfCardAccess];
    FreeIfSnoc(r, out, [EfCardAccess], RecentCar);
    assert [EfCardAccess] + [RecentCar] == [EfCardAccess, RecentCar];
    FreeIfSnoc(r, out, [EfCardAccess, RecentCar], PreviousCar);
    assert [EfCardAccess, RecentCar] + [PreviousCar] == [EfCardAccess, RecentCar, PreviousCar];
  }

  lemma CleanupIsFrees(out: set<Buffer>)
    ensures Cleanup(out) == [ClearFree(SCtx), ClearFree(TmpCtx)] + Frees(out, FieldOrder)
  {
    var r := [ClearFree(SCtx), ClearFree(TmpCtx)];
    var bs := [EfCardAccess, RecentCar, PreviousCar];
    CleanupFirstFrees(out);
    FreeIfSnoc(r, out, bs, IdIcc);
    FreeIfSnoc(r, out, bs + [IdIcc], IdPcd);
    assert bs + [IdIcc] + [IdPcd] == FieldOrder;
  }

  lemma AllFields(b: Buffer)
    ensures b in FieldOrder
  {
    match b
    case EfCardAccess => assert FieldOrder[0] == b;
    case RecentCar => assert FieldOrder[1] == b;
    case PreviousCar => assert FieldOrder[2] == b;
    case IdIcc => assert FieldOrder[3] == b;
    case IdPcd => assert FieldOrder[4] == b;
  }

  lemma ContextsThenFrees(frees: seq<Event>)
    requires Distinct(frees) && forall j | 0 <= j < |frees| :: frees[j].Free?
    ensures forall s: Slot :: ClearFree(s) in [ClearFree(SCtx), ClearFree(TmpCtx)] + frees
    ensures Distinct([ClearFree(SCtx), ClearFree(TmpCtx)] + frees)
    ensures forall j | 0 <= j < 2 + |frees| :: !([ClearFree(SCtx), ClearFree(TmpCtx)] + frees)[j].Called?
  {
    var r := [ClearFree(SCtx), ClearFree(TmpCtx)] + frees;
    forall s: Slot
      ensures ClearFree(s) in r
    {
      match s
      case SCtx => assert r[0] == ClearFree(s);
      case TmpCtx => assert r[1] == ClearFree(s);
    }
    forall j | 0 <= j < |r|
      ensures !r[j].Called? && (j >= 2 ==> r[j] == frees[j - 2])
    {
    }
  }

  /**
   * Lines 533-545: the cleanup releases both contexts, frees exactly the
   * non-null output buffers, does each at most once, and makes no call.
   */
  lemma CleanupReleasesOnce(out: set<Buffer>)
    ensures forall s: Slot :: ClearFree(s) in Cleanup(out)
    ensures forall b: Buffer :: Free(b) in Cleanup(out) <==> b in out
    ensures Distinct(Cleanup(out))
    ensures forall j | 0 <= j < |Cleanup(out)| :: !Cleanup(out)[j].Called?
  {
    CleanupIsFrees(out);
    var frees := Frees(out, FieldOrder);
    FreesContents(out, FieldOrder);
    ContextsThenFrees(frees);
    forall b: Buffer
      ensures Free(b) in Cleanup(out) <==> b in out
    {
      AllFields(b);
    }
  }

  /** Calls, then releases none of which repeats: no release twice, no call after a release. */
  lemma CallsThenReleases(t: seq<Event>, c: seq<Event>)
    requires OnlyCalls(t) && Distinct(c) && forall j | 0 <= j < |c| :: !c[j].Called?
    ensures forall j, k | 0 <= j < k < |t + c| && (t + c)[j] == (t + c)[k] :: (t + c)[j].Called?
    ensures forall j, k | 0 <= j < k < |t + c| && !(t + c)[j].Called? :: !(t + c)[k].Called?
    ensures forall e | e in c :: e in t + c
    ensures forall e | e in t + c && !e.Called? :: e in c
  {
    var r := t + c;
    forall j | 0 <= j < |r|
      ensures (j < |t| ==> r[j] == t[j] && r[j].Called?) && (j >= |t| ==> r[j] == c[j - |t|])
    {
    }
    forall e | e in r && !e.Called?
      ensures e in c
    {
      var j :| 0 <= j < |r| && r[j] == e;
    }
  }

  /**
   * Lines 533-551: a run that reaches `err:` releases both contexts, frees
   * exactly the buffers the last establish left non-null, releases nothing
   * twice and calls nothing after releasing; a run that ends in `exit`
   * releases nothing. The exit status is positive exactly when `main` did
   * not finish its blocks normally.
   */
  lemma RunReleasesOnce(cfg: Config, env: Env, init: nat, input: seq<Read>)
    ensures var p, r := Body(cfg, env, init, input), RunSpec(cfg, env, init, input);
      && (r.0 > 0 <==> !p.Running?)
      && (p.Exited? ==> (r.0 == 1 || r.0 == 2) && OnlyCalls(r.1))
      && (!p.Exited? ==>
            && (forall s: Slot :: ClearFree(s) in r.1)
            && (forall b: Buffer :: Free(b) in r.1 <==> b in NonNull(p.t))
            && (forall j, k | 0 <= j < k < |r.1| && r.1[j] == r.1[k] :: r.1[j].Called?)
            && (forall j, k | 0 <= j < k < |r.1| && !r.1[j].Called? :: !r.1[k].Called?))
  {
    var p := Body(cfg, env, init, input);
    BodySound(cfg, env, init, input);
    if !p.Exited? {
      var c := Cleanup(NonNull(p.t));
      CleanupReleasesOnce(NonNull(p.t));
      CallsThenReleases(p.t, c);
    }
  }

  /** Releases, which are no calls, need no guard. */
  lemma GuardedAppendReleases(t: seq<Event>, c: seq<Event>)
    requires Guarded(t) && forall k | 0 <= k < |c| :: !c[k].Called?
    ensures Guarded(t + c)
  {
    forall j | 0 <= j < |t + c|
      ensures GuardedAt(t + c, j)
    {
      if j < |t| {
        assert (t + c)[j] == t[j];
        assert GuardedAt(t, j);
      } else {
        assert (t + c)[j] == c[j - |t|];
      }
    }
  }

  /** In a guarded trace a transmit follows a successful establish into `sctx`, with only transmits in between. */
  lemma {:induction false} TransmitFollowsEstablish(t: seq<Event>, j: nat)
    requires Guarded(t) && j < |t| && t[j].Called? && t[j].call.Transmit?
    ensures exists k | 0 <= k < j ::
      IsSuccessfulEstablish(t[k], SCtx) && forall m | k < m < j :: t[m].Called? && t[m].call.Transmit?
    decreases j
  {
    assert GuardedAt(t, j);
    if !IsSuccessfulEstablish(t[j - 1], SCtx) {
      TransmitFollowsEstablish(t, j - 1);
      var k :| 0 <= k < j - 1 && IsSuccessfulEstablish(t[k], SCtx)
        && forall m | k < m < j - 1 :: t[m].Called? && t[m].call.Transmit?;
      assert forall m | k < m < j :: t[m].Called? && t[m].call.Transmit?;
    }
  }

  /**
   * Lines 507-526: over a whole run, every `sm_transmit_apdu` goes to `sctx`
   * after a successful establish into `sctx`, with nothing but transmits in
   * between.
   */
  lemma RunTransmitsAfterEstablish(cfg: Config, env: Env, init: nat, input: seq<Read>, j: nat)
    requires var r := RunSpec(cfg, env, init, input).1; j < |r| && r[j].Called? && r[j].call.Transmit?
    ensures var r := RunSpec(cfg, env, init, input).1;
      && r[j].call.ctx == SCtx
      && exists k | 0 <= k < j ::
           IsSuccessfulEstablish(r[k], SCtx) && forall m | k < m < j :: r[m].Called? && r[m].call.Transmit?
  {
    var r := RunSpec(cfg, env, init, input).1;
    RunGuarded(cfg, env, init, input);
    assert GuardedAt(r, j);
    TransmitFollowsEstablish(r, j);
  }

  /**
   * Over a whole run, every administrative or chained call is guarded, and
   * `sctx` is populated at most once per workflow block that ran; `tmpctx`
   * only by resume.
   */
  lemma RunGuarded(cfg: Config, env: Env, init: nat, input: seq<Read>)
    ensures var r := RunSpec(cfg, env, init, input);
      && Guarded(r.1)
      && Successes(r.1, SCtx) <= WorkflowCount(cfg)
      && Successes(r.1, TmpCtx) <= (if cfg.doResumePin then 1 else 0)
  {
    var p := Body(cfg, env, init, input);
    BodySound(cfg, env, init, input);
    if !p.Exited? {
      var c := Cleanup(NonNull(p.t));
      CleanupReleasesOnce(NonNull(p.t));
      GuardedAppendReleases(p.t, c);
      SuccessesNone(c, SCtx);
      SuccessesNone(c, TmpCtx);
      SuccessesAppend(p.t, c, SCtx);
      SuccessesAppend(p.t, c, TmpCtx);
    }
  }

  /**
   * Lines 392-398, 409-415, 428-434, 452-458, 475-500 and 362-366: every
   * establish of a run passes `pin_length` 0 with a NULL `pin`, and otherwise
   * the length of the string it passes (the width, for a break candidate).
   */
  lemma RunSecretsMeasured(cfg: Config, env: Env, init: nat, input: seq<Read>)
    ensures var r := RunSpec(cfg, env, init, input).1;
      forall j | 0 <= j < |r| && r[j].Called? && r[j].call.Establish? ::
        && (r[j].call.secret.value.None? ==> r[j].call.secret.length == 0)
        && (r[j].call.secret.value.Some? ==> r[j].call.secret.length == |r[j].call.secret.value.value|)
  {
    var r := RunSpec(cfg, env, init, input).1;
    RunGuarded(cfg, env, init, input);
    forall j | 0 <= j < |r| && r[j].Called? && r[j].call.Establish?
      ensures Measured(r[j].call.secret)
    {
      assert GuardedAt(r, j);
    }
  }

  /** Lines 390-424: resume establishes twice, the PIN chained on the CAN's context, and stops at a failure. */
  lemma ResumeEstablishesTwice(cfg: Config, env: Env, i: nat, t: seq<Event>)
    requires cfg.doResumePin
    ensures var q := ResumeBlock(cfg, env, Running(i, t));
      var e1 := Perform(env, |t|, Establish(None, SecretFrom(Can, cfg.can), TmpCtx));
      var e2 := Perform(env, |t| + 1, Establish(Some(TmpCtx), SecretFrom(Pin, cfg.pin), SCtx));
      && (e1.code < 0 ==> q == Failed(e1.code, t + [e1]))
      && (e1.code >= 0 ==> q.t == t + [e1, e2] && (q.Failed? <==> e2.code < 0) && q.i == e2.code)
  {
  }

  /**
   * Lines 426-448: `pace_unblock_pin` is called iff the PUK establish
   * returned a non-negative result, and then right after it.
   */
  lemma UnblockIffPukAccepted(cfg: Config, env: Env, i: nat, t: seq<Event>)
    requires cfg.doUnblock
    ensures var q := UnblockBlock(cfg, env, Running(i, t));
      var e := Perform(env, |t|, Establish(None, SecretFrom(Puk, cfg.puk), SCtx));
      && |t| < |q.t| && q.t[|t|] == e
      && ((exists j | |t| <= j < |q.t| :: q.t[j].call == UnblockPin(SCtx)) <==> e.code >= 0)
      && (e.code >= 0 ==> |q.t| == |t| + 2 && (q.Failed? <==> q.t[|t| + 1].code < 0))
      && (e.code < 0 ==> |q.t| == |t| + 1 && q.Failed?)
  {
    var q := UnblockBlock(cfg, env, Running(i, t));
    var e := Perform(env, |t|, Establish(None, SecretFrom(Puk, cfg.puk), SCtx));
    if e.code >= 0 {
      assert q.t[|t| + 1].call == UnblockPin(SCtx);
    } else {
      assert q.t == t + [e];
      assert forall j | |t| <= j < |q.t| :: q.t[j] == e;
    }
  }

  /**
   * Lines 450-472: `pace_change_pin` is called iff the PIN establish
   * returned a non-negative result, and then right after it.
   */
  lemma ChangeIffPinAccepted(cfg: Config, env: Env, i: nat, t: seq<Event>)
    requires cfg.doChangePin
    ensures var q := ChangeBlock(cfg, env, Running(i, t));
      var e := Perform(env, |t|, Establish(None, SecretFrom(Pin, cfg.pin), SCtx));
      && |t| < |q.t| && q.t[|t|] == e
      && ((exists j | |t| <= j < |q.t| :: q.t[j].call == ChangePin(SCtx, cfg.newPin)) <==> e.code >= 0)
      && (e.code >= 0 ==> |q.t| == |t| + 2 && (q.Failed? <==> q.t[|t| + 1].code < 0))
      && (e.code < 0 ==> |q.t| == |t| + 1 && q.Failed?)
  {
    var q := ChangeBlock(cfg, env, Running(i, t));
    var e := Perform(env, |t|, Establish(None, SecretFrom(Pin, cfg.pin), SCtx));
    if e.code >= 0 {
      assert q.t[|t| + 1].call == ChangePin(SCtx, cfg.newPin);
    } else {
      assert q.t == t + [e];
      assert forall j | |t| <= j < |q.t| :: q.t[j] == e;
    }
  }

  /**
   * Lines 474-526: the direct establish is made iff translate was asked for
   * or no other workflow was, and some secret kind was chosen; with none
   * chosen `main` exits with 1 before any call. Anything after the
   * establish is the relay's transmits on `sctx`, only when translating and
   * only after the establish succeeded.
   */
  lemma DirectEstablishIff(cfg: Config, env: Env, input: seq<Read>, i: nat, t: seq<Event>)
    ensures var q := DirectBlock(cfg, env, input, Running(i, t));
      && t <= q.t
      && (|q.t| > |t| <==> RunsDirect(cfg) && DirectSecret(cfg).Some?)
      && (|q.t| > |t| ==> q.t[|t|] == Perform(env, |t|, Establish(None, DirectSecret(cfg).value, SCtx)))
      && (q.Exited? <==> RunsDirect(cfg) && DirectSecret(cfg).None?)
      && (q.Exited? ==> q.status == 1)
      && (|q.t| > |t| + 1 ==> q.t[|t|].code >= 0 && cfg.doTranslate)
      && (forall m | |t| < m < |q.t| :: q.t[m].Called? && q.t[m].call.Transmit? && q.t[m].call.ctx == SCtx)
  {
    var q := DirectBlock(cfg, env, input, Running(i, t));
    if RunsDirect(cfg) && DirectSecret(cfg).Some? {
      var p1 := Step(env, t, Establish(None, DirectSecret(cfg).value, SCtx));
      if p1.Running? && cfg.doTranslate {
        RelayOnlyTransmits(env, p1.t, input);
        assert q.t[|t|] == p1.t[|t|];
      }
    }
  }

  /**
   * Lines 327-368: break mode exits with 1 before any call iff none of PIN,
   * CAN and PUK is selected, and with 2 iff the chosen kind has a value that
   * `sscanf` cannot read. Otherwise it counts from that value, or from 0
   * without one: an attempt is made iff the start fits the width, and the
   * first one tries the start.
   */
  lemma BreakExits(cfg: Config, env: Env, i: int, t: seq<Event>)
    requires cfg.doBreak
    ensures var q := BreakBlock(cfg, env, Running(i, t));
      && t <= q.t
      && (q.Exited? ==> q.t == t && (q.status == 1 || q.status == 2))
      && (q.Exited? && q.status == 1 <==> !cfg.usePin && !cfg.useCan && !cfg.usePuk)
      && (q.Exited? && q.status == 2 <==>
            BreakTarget(cfg).Some? && BreakTarget(cfg).value.start.Some?
            && env.scan(BreakTarget(cfg).value.start.value).None?)
      && (!q.Exited? ==>
            var plan := BreakTarget(cfg).value;
            var s := if plan.start.Some? then env.scan(plan.start.value).value else 0;
            && (|q.t| > |t| <==> s < Limit(plan.width))
            && (|q.t| > |t| ==> q.t[|t|] == Perform(env, |t|, Attempt(plan.kind, plan.width, s))))
  {
    var q := BreakBlock(cfg, env, Running(i, t));
    var target := BreakTarget(cfg);
    assert Pin in BreakOrder && Can in BreakOrder && Puk in BreakOrder;
    if target.None? {
      assert q == Exited(1, t);
    } else if BreakStart(env, target.value).None? {
      assert q == Exited(2, t);
    } else {
      BreakFirstAttempt(cfg, env, i, t);
    }
  }

  /** Once the break block has a plan and a start, it counts from that start. */
  lemma BreakFirstAttempt(cfg: Config, env: Env, i: int, t: seq<Event>)
    requires cfg.doBreak && BreakTarget(cfg).Some? && BreakStart(env, BreakTarget(cfg).value).Some?
    ensures var q := BreakBlock(cfg, env, Running(i, t));
      var plan := BreakTarget(cfg).value;
      var s := BreakStart(env, plan).value;
      && !q.Exited? && t <= q.t
      && (|q.t| > |t| <==> s < Limit(plan.width))
      && (|q.t| > |t| ==> q.t[|t|] == Perform(env, |t|, Attempt(plan.kind, plan.width, s)))
  {
    var plan := BreakTarget(cfg).value;
    var start := BreakStart(env, plan).value;
    var r := BreakLoop(env, t, plan.kind, plan.width, start, i);
    assert BreakBlock(cfg, env, Running(i, t)) == Outcome(r.0, r.1);
    BreakLength(env, t, plan.kind, plan.width, start, i);
    BreakExtends(env, t, plan.kind, plan.width, start, i);
    if |r.1| > |t| {
      BreakAttempt(env, t, plan.kind, plan.width, start, i, 0);
    }
  }


  /** A negative result at any block is what `main` ends its blocks with: the later blocks are skipped. */
  lemma FailureSkipsLaterBlocks(cfg: Config, env: Env, init: nat, input: seq<Read>)
    ensures var p1 := BreakBlock(cfg, env, Running(init, []));
      var p2 := ResumeBlock(cfg, env, p1);
      var p3 := UnblockBlock(cfg, env, p2);
      var p4 := ChangeBlock(cfg, env, p3);
      var p := Body(cfg, env, init, input);
      && (!p1.Running? ==> p == p1)
      && (!p2.Running? ==> p == p2)
      && (!p3.Running? ==> p == p3)
      && (!p4.Running? ==> p == p4)
  {
  }
}
