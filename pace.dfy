/**
 * Entities shared by pace-tool's workflows: secrets, the two session-context
 * slots of `main` (sctx, tmpctx), the heap buffers of the establishment
 * output, the calls made into the PACE library and the card, and the trace
 * of those calls. The library, the card and the parsing helpers are oracles
 * gathered in `Env`.
 */
module Pace {
  import opened Wrappers

  type Bytes = seq<bv8>

  const U64: int := 0x1_0000_0000_0000_0000
  /** `unsigned long long`, the type `sscanf("%llu")` stores into. */
  type ULongLong = x: int | 0 <= x < U64

  /** `x++` on an `unsigned long long`: wraps from 2^64 - 1 to 0. */
  function Increment(x: ULongLong): (r: ULongLong)
    ensures r == (x + 1) % U64
  {
    if x + 1 < U64 then x + 1 else 0
  }

  /** OpenSC result codes used by the relay loop. */
  const SC_SUCCESS: int := 0
  const SC_ERROR_INTERNAL: int := -1400

  /** PACE_PIN, PACE_CAN, PACE_PUK, PACE_MRZ. */
  datatype SecretKind = Pin | Can | Puk | Mrz

  /**
   * The secret fields of `pace_input`: `pin_id`, `pin` (None is NULL: the
   * library asks for the secret interactively) and `pin_length`.
   */
  datatype Secret = Secret(kind: SecretKind, value: Option<string>, length: nat)

  /** `pin_length` agrees with `pin`: 0 for NULL, the length of the string otherwise. */
  predicate Measured(s: Secret)
  {
    (s.value.None? ==> s.length == 0) && (s.value.Some? ==> s.length == |s.value.value|)
  }

  /** The two `struct sm_ctx` locals of `main`. */
  datatype Slot = SCtx | TmpCtx

  /** The heap-owned pointers of `pace_output`, in the order cleanup frees them. */
  datatype Buffer = EfCardAccess | RecentCar | PreviousCar | IdIcc | IdPcd

  datatype Call =
    | Establish(prior: Option<Slot>, secret: Secret, into: Slot)  // EstablishPACEChannel
    | UnblockPin(ctx: Slot)                                        // pace_unblock_pin
    | ChangePin(ctx: Slot, newPin: Option<string>)                 // pace_change_pin
    | Transmit(ctx: Slot, apdu: Bytes)                             // sm_transmit_apdu

  datatype Event =
    | Called(call: Call, code: int, filled: set<Buffer>)  // a call, its result, and for an establish the buffers it leaves non-null (empty for other calls)
    | ClearFree(slot: Slot)                               // pace_sm_ctx_clear_free(slot.cipher_ctx)
    | Free(buffer: Buffer)                                // free(pace_output.buffer)

  /**
   * The collaborators. The card keeps state (retry counters, the channel),
   * so its answer may depend on everything sent before; since the tool is
   * deterministic, each run meets its answers in a fixed order, so the card
   * and the PACE library are given as the answer to the `k`-th call, for
   * every `k`. `outputs` are the buffers an establish leaves allocated.
   * `scan` is `sscanf("%llu")`, `hexToBin` is `sc_hex_to_bin` without the
   * capacity check (which the relay makes explicit) and `buildApdu` is
   * whether `build_apdu` accepts the bytes.
   */
  datatype Env = Env(
    reply: nat -> int,
    outputs: nat -> set<Buffer>,
    scan: string -> Option<ULongLong>,
    hexToBin: string -> Option<Bytes>,
    buildApdu: Bytes -> bool)

  /** The event recorded when `c` is made after `made` earlier calls. */
  function Perform(env: Env, made: nat, c: Call): Event
  {
    Called(c, env.reply(made), if c.Establish? then env.outputs(made) else {})
  }

  /** Every event of `t` from index `from` on is the environment's answer to its call. */
  ghost predicate Answered(env: Env, t: seq<Event>, from: nat)
  {
    from <= |t| &&
    forall j | from <= j < |t| :: t[j].Called? && t[j] == Perform(env, j, t[j].call)
  }

  /** The pointers of `pace_output` that are non-null after the calls of `t`. */
  function NonNull(t: seq<Event>): set<Buffer>
  {
    if t == [] then {}
    else if t[|t| - 1].Called? && t[|t| - 1].call.Establish? then t[|t| - 1].filled
    else NonNull(t[..|t| - 1])
  }

  predicate IsSuccessfulEstablish(e: Event, into: Slot)
  {
    e.Called? && e.call.Establish? && e.call.into == into && e.code >= 0
  }

  /** How many successful establishes populated `slot` in `t`. */
  function Successes(t: seq<Event>, slot: Slot): nat
  {
    if t == [] then 0
    else Successes(t[..|t| - 1], slot) + (if IsSuccessfulEstablish(t[|t| - 1], slot) then 1 else 0)
  }

  predicate OnlyCalls(t: seq<Event>)
  {
    forall j | 0 <= j < |t| :: t[j].Called?
  }

  lemma {:induction false} SuccessesAppend(a: seq<Event>, b: seq<Event>, slot: Slot)
    ensures Successes(a + b, slot) == Successes(a, slot) + Successes(b, slot)
  {
    if b != [] {
      assert (a + b)[..|a + b| - 1] == a + b[..|b| - 1];
      SuccessesAppend(a, b[..|b| - 1], slot);
    } else {
      assert a + b == a;
    }
  }

  /** Calls that populate no slot leave the success count alone. */
  lemma {:induction false} SuccessesNone(t: seq<Event>, slot: Slot)
    requires forall j | 0 <= j < |t| :: !IsSuccessfulEstablish(t[j], slot)
    ensures Successes(t, slot) == 0
  {
    if t != [] {
      SuccessesNone(t[..|t| - 1], slot);
    }
  }

  /** The output buffers are those of the latest establish, whatever follows it. */
  lemma {:induction false} NonNullAfterOtherCalls(a: seq<Event>, b: seq<Event>)
    requires forall j | 0 <= j < |b| :: !(b[j].Called? && b[j].call.Establish?)
    ensures NonNull(a + b) == NonNull(a)
  {
    if b != [] {
      assert (a + b)[..|a + b| - 1] == a + b[..|b| - 1];
      NonNullAfterOtherCalls(a, b[..|b| - 1]);
    } else {
      assert a + b == a;
    }
  }
}
