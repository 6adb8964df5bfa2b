/**
 * Which secret feeds an establishment, from the parsed options: the
 * break-mode choice (PIN, then CAN, then PUK, each with its fixed width) and
 * the direct-mode choice (PIN, then CAN, then MRZ, then PUK).
 */
module Secrets {
  import opened Wrappers
  import opened Pace

  /**
   * The option state left by argument parsing. `pin`, `puk`, `can`, `mrz`
   * and `newPin` hold whatever parsing stored in the corresponding C
   * variables, environment fallbacks included.
   */
  datatype Config = Config(
    usePin: bool, pin: Option<string>,
    usePuk: bool, puk: Option<string>,
    useCan: bool, can: Option<string>,
    useMrz: bool, mrz: Option<string>,
    newPin: Option<string>,
    doBreak: bool, doChangePin: bool, doResumePin: bool, doUnblock: bool, doTranslate: bool)

  predicate Selected(cfg: Config, k: SecretKind)
  {
    match k
    case Pin => cfg.usePin
    case Can => cfg.useCan
    case Puk => cfg.usePuk
    case Mrz => cfg.useMrz
  }

  function ValueOf(cfg: Config, k: SecretKind): Option<string>
  {
    match k
    case Pin => cfg.pin
    case Can => cfg.can
    case Puk => cfg.puk
    case Mrz => cfg.mrz
  }

  const BreakOrder: seq<SecretKind> := [Pin, Can, Puk]
  const DirectOrder: seq<SecretKind> := [Pin, Can, Mrz, Puk]

  /** `k` is selected and every kind ahead of it in `order` is not. */
  ghost predicate FirstSelected(cfg: Config, order: seq<SecretKind>, k: SecretKind)
  {
    exists j | 0 <= j < |order| ::
      order[j] == k && Selected(cfg, k) && forall m | 0 <= m < j :: !Selected(cfg, order[m])
  }

  /** `pace_input.pin` and `pin_length` for a secret that is NULL or a C string. */
  function SecretFrom(kind: SecretKind, value: Option<string>): (s: Secret)
    ensures s.kind == kind && s.value == value && Measured(s)
  {
    Secret(kind, value, if value.Some? then |value.value| else 0)
  }

  /** The break-mode target: secret kind, digit width, and the start value text. */
  datatype BreakPlan = BreakPlan(kind: SecretKind, width: nat, start: Option<string>)

  /** Lines 329-360: `None` is the `exit(1)` when no kind was chosen. */
  function BreakTarget(cfg: Config): (r: Option<BreakPlan>)
    ensures r.None? <==> forall k | k in BreakOrder :: !Selected(cfg, k)
    ensures r.Some? ==> FirstSelected(cfg, BreakOrder, r.value.kind)
    ensures r.Some? ==> r.value.width == (if r.value.kind == Puk then 10 else 6)
    ensures r.Some? ==> r.value.start == ValueOf(cfg, r.value.kind)
  {
    assert BreakOrder[0] == Pin && BreakOrder[1] == Can && BreakOrder[2] == Puk;
    assert Pin in BreakOrder && Can in BreakOrder && Puk in BreakOrder;
    if cfg.usePin then Some(BreakPlan(Pin, 6, cfg.pin))
    else if cfg.useCan then Some(BreakPlan(Can, 6, cfg.can))
    else if cfg.usePuk then Some(BreakPlan(Puk, 10, cfg.puk))
    else None
  }

  /**
   * Lines 327-355 before the loop: the counter starts at the parsed value,
   * or 0 when none was given; `None` is the `exit(2)` for a value `sscanf`
   * cannot read.
   */
  function BreakStart(env: Env, plan: BreakPlan): (r: Option<ULongLong>)
    ensures plan.start.None? ==> r == Some(0)
    ensures plan.start.Some? ==> r == env.scan(plan.start.value)
  {
    if plan.start.Some? then env.scan(plan.start.value) else Some(0)
  }

  /** Lines 474-505: `None` is the `exit(1)` when no kind was chosen. */
  function DirectSecret(cfg: Config): (r: Option<Secret>)
    ensures r.None? <==> forall k | k in DirectOrder :: !Selected(cfg, k)
    ensures r.Some? ==> FirstSelected(cfg, DirectOrder, r.value.kind)
    ensures r.Some? ==> r.value.value == ValueOf(cfg, r.value.kind)
    ensures r.Some? ==> Measured(r.value)
  {
    assert DirectOrder[0] == Pin && DirectOrder[1] == Can && DirectOrder[2] == Mrz && DirectOrder[3] == Puk;
    assert Pin in DirectOrder && Can in DirectOrder && Mrz in DirectOrder && Puk in DirectOrder;
    if cfg.usePin then Some(SecretFrom(Pin, cfg.pin))
    else if cfg.useCan then Some(SecretFrom(Can, cfg.can))
    else if cfg.useMrz then Some(SecretFrom(Mrz, cfg.mrz))
    else if cfg.usePuk then Some(SecretFrom(Puk, cfg.puk))
    else None
  }

  /** The priority orders leave no choice: at most one kind is first. */
  lemma FirstSelectedUnique(cfg: Config, order: seq<SecretKind>, k1: SecretKind, k2: SecretKind)
    requires FirstSelected(cfg, order, k1) && FirstSelected(cfg, order, k2)
    ensures k1 == k2
  {
    var j1 :| 0 <= j1 < |order| && order[j1] == k1 && Selected(cfg, k1) && forall m | 0 <= m < j1 :: !Selected(cfg, order[m]);
    var j2 :| 0 <= j2 < |order| && order[j2] == k2 && Selected(cfg, k2) && forall m | 0 <= m < j2 :: !Selected(cfg, order[m]);
    assert j1 == j2;
  }
}
