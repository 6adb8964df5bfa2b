# pace-tool: brute force, workflow sequencing and the secure APDU relay

This project models the control logic of `pace-tool`, the command-line tool of
the nPA library. PACE is the password-authenticated channel protocol of
BSI TR-03110 Part 2. The model covers three parts of the tool:

- **Break mode** (`--break`). It picks the secret kind and digit width: PIN 6,
  then CAN 6, then PUK 10. It reads an optional start value with
  `sscanf("%llu")` and counts up. Each counter is formatted with
  `sprintf("%0*llu")` and tried as the PACE secret. The loop stops at the first
  establish that succeeds, or at the first counter that no longer fits the width.
- **Sequencing in `main`**. The resume, unblock, change and direct/translate
  blocks run in fixed order, each guarded by its flag. Every negative result
  jumps to `err:`. There both session contexts (`sctx`, `tmpctx`) are released,
  the non-null buffers of the establishment output are freed, and `main`
  returns `-i`. An `exit` leaves without any of that.
- **The relay loop** `pace_translate_apdus`. It reads hex lines and cuts off
  their last character. Every line that decodes and builds into a C-APDU is sent
  through the secure messaging channel of `sctx`. The loop stops at the first
  line of at most one character (success) or at the first failed read
  (`SC_ERROR_INTERNAL`).

The PACE library, the card, `sscanf`, `sc_hex_to_bin` and `build_apdu` are
oracles, gathered in the datatype `Pace.Env`. The card keeps state (retry
counters, the open channel), so an answer may depend on everything sent before
it. Since the tool is deterministic, each run meets the answers in a fixed
order, and `Env.reply(k)` is the answer to the `k`-th call.

A run is recorded as a trace of `Pace.Event`s:

- every call, with its result and, for an establish, the output buffers it leaves non-null;
- `ClearFree(slot)` for each `pace_sm_ctx_clear_free`;
- `Free(buffer)` for each `free` at cleanup.

A context is populated by a successful establish into its slot.

Modules, one per concern:

- `Decimal`: `%0*llu` formatting and its inverse.
- `Pace`: entities, oracles and the trace.
- `Secrets`: the secret chosen from the options.
- `BruteForce`: the break loop.
- `Relay`: `pace_translate_apdus`.
- `Tool`: the blocks of `main` and the cleanup.
- `Workflows`: what the sequencing guarantees over all runs.
- `Scenarios`: concrete and boundary runs.

Each loop or block of the C code is an imperative method that follows the code
statement by statement (`while (true)` with `break`, a labelled block left with
`break err` in place of `goto err`). Its `ensures` ties it to a recursive or
compositional specification function, and the lemmas prove the properties about
that function.

## Model

| member | source | states |
|---|---|---|
| Pace.Increment | npa/src/pace-tool.c:375 | `can_nb++` on an `unsigned long long` is addition modulo 2^64 |
| Decimal.ZeroPaddedLength | npa/src/pace-tool.c:366-368 | the `%0*llu` form of `n` is never shorter than the width, and has at most `width` characters exactly when `n < 10^width` |
| Decimal.ZeroPaddedValue | npa/src/pace-tool.c:366 | the `%0*llu` form is all decimal digits and reads back as `n` |
| Decimal.ZeroPaddedInjective | npa/src/pace-tool.c:365-376 | distinct counters give distinct candidate strings |
| Secrets.BreakTarget | npa/src/pace-tool.c:329-360 | no kind is chosen (the `exit(1)`) iff none of PIN, CAN, PUK is selected; otherwise the first selected in the order PIN, CAN, PUK, with width 10 for PUK and 6 otherwise, and that kind's value as the start text |
| Workflows.BreakExits | npa/src/pace-tool.c:327-368 | break mode exits with 1 before any call iff none of PIN, CAN, PUK is selected, and with 2 iff the chosen kind has a value `sscanf` cannot read; otherwise the counter starts at the scanned value (0 without one), an attempt is made iff it fits the width, and the first attempt tries it |
| Secrets.DirectSecret | npa/src/pace-tool.c:474-505 | `exit(1)` iff none of PIN, CAN, MRZ, PUK is selected; otherwise the first selected in that order, with its value (NULL when absent) and the length of that value (0 when absent) |
| Secrets.FirstSelectedUnique | npa/src/pace-tool.c:329-360 | the priority order leaves exactly one choice: two kinds that are both first selected are the same kind |
| BruteForce.Fits | npa/src/pace-tool.c:366-368 | for widths 6 and 10, a formatted counter fits the width iff the counter is below 10^width, and 10^width is below 2^64 |
| BruteForce.BreakSecret | npa/src/pace-tool.c:362-376 | the `do ... while (0 > i)` loop with a wrapping counter returns the result and trace of the loop specification `BreakLoop` |
| BruteForce.BreakAttempt | npa/src/pace-tool.c:365-376 | attempt `k` of the loop is call number `|t| + k` and tries counter `start + k` |
| BruteForce.BreakEarlierFailed | npa/src/pace-tool.c:372-376 | every attempt before the last returned a negative result |
| BruteForce.BreakLength | npa/src/pace-tool.c:365-377 | no attempt (and `i` unchanged) iff the start is at least 10^width; otherwise at most 10^width - start attempts, the result is the last attempt's result, and a loop that ends without success made its last attempt at 10^width - 1 |
| BruteForce.BreakCandidate | npa/src/pace-tool.c:365-376 | every candidate is an unchained establish into `sctx` of the chosen kind with `pin_length` equal to the width; its text has exactly `width` digits and reads back as `start + k`, so the candidates increase by one |
| BruteForce.BreakBounds | npa/src/pace-tool.c:365-377 | from a start below 10^width, between 1 and 10^width - start attempts are made, and on failure the last one tried 10^width - 1 |
| BruteForce.BreakStopsAtFirstSuccess | npa/src/pace-tool.c:365-376 | the loop keeps the earlier calls, every attempt but the last failed, and `i` is the last attempt's result |
| BruteForce.BreakWideStart | npa/src/pace-tool.c:366-368 | a start value that is already too wide makes no call and leaves `i` as it was |
| BruteForce.BreakPopulatesOnce | npa/src/pace-tool.c:365-376 | the loop makes only unchained establishes into `sctx`, populates `sctx` at most once and never touches `tmpctx` |
| Relay.RelayTransmitsIff | npa/src/pace-tool.c:141-166 | a line read before the loop ends adds a transmit iff its text without the last character decodes into at most `sizeof buf` bytes and `build_apdu` accepts them; it then adds exactly one transmit on `sctx`, of those bytes, after the transmits of the earlier lines |
| Relay.TranslateApdus | npa/src/pace-tool.c:114-177 | the relay loop as written returns the result and trace of its specification `RelayLoop` |
| Relay.End | npa/src/pace-tool.c:129-140 | the read that ends the loop is the first failed read or line of at most one character |
| Relay.RelaySpec | npa/src/pace-tool.c:125-171 | the loop returns `SC_ERROR_INTERNAL` if the read that ends it failed and `SC_SUCCESS` if it was a short line, and it transmits on `sctx`, once each and in input order, exactly the C-APDUs of the lines before that read |
| Relay.SentShape | npa/src/pace-tool.c:161 | the `m`-th transmit sends the `m`-th C-APDU as call number `made + m` |
| Relay.RelayOnlyTransmits | npa/src/pace-tool.c:125-176 | the result is `SC_SUCCESS` iff the ending read is a line and `SC_ERROR_INTERNAL` iff it failed; the loop appends one transmit on `sctx` per C-APDU and nothing else, so it populates no context and leaves the output buffers as they were |
| Relay.RelayIgnoresReplies | npa/src/pace-tool.c:143-171 | failed transmits never end the loop: two cards that answer differently see the same calls and the loop returns the same value |
| Relay.RelayEmptyLine | npa/src/pace-tool.c:130-139 | an empty first line ends the loop at once with `SC_SUCCESS` and no transmit |
| Tool.BreakMode | npa/src/pace-tool.c:324-388 | break mode as written: an `exit` before any call, or the block's outcome per `BreakBlock` |
| Tool.ResumePin | npa/src/pace-tool.c:390-424 | resume as written gives the outcome of `ResumeBlock` |
| Tool.UnblockPinWithPuk | npa/src/pace-tool.c:426-448 | unblock as written gives the outcome of `UnblockBlock` |
| Tool.ChangePinWithPin | npa/src/pace-tool.c:450-472 | change as written gives the outcome of `ChangeBlock` |
| Tool.Direct | npa/src/pace-tool.c:474-531 | the direct block as written: `exit(1)` before any call, or the outcome of `DirectBlock` |
| Tool.Administer | npa/src/pace-tool.c:390-472 | resume, unblock and change in order, stopping at the first negative result, give the composed block outcome |
| Tool.Release | npa/src/pace-tool.c:533-545 | the cleanup appends the two context releases and a free of each non-null output buffer in field order |
| Tool.Run | npa/src/pace-tool.c:324-551 | `main` from the connected card on returns the exit status and trace of `RunSpec`: the blocks in order, then `-i` after cleanup, or the `exit` status without cleanup |
| Workflows.StepAdvances | npa/src/pace-tool.c:400-404 | one call whose negative result goes to `err:` keeps the run sound and counts its successful establish |
| Workflows.BreakAdvances | npa/src/pace-tool.c:324-388 | break mode keeps the run sound, populates `sctx` at most once and `tmpctx` never |
| Workflows.ResumeAdvances | npa/src/pace-tool.c:390-424 | resume keeps the run sound, and its chained establish comes right after a successful CAN establish into `tmpctx` |
| Workflows.UnblockAdvances | npa/src/pace-tool.c:426-448 | unblock keeps the run sound: `pace_unblock_pin` comes right after a successful PUK establish into `sctx` |
| Workflows.ChangeAdvances | npa/src/pace-tool.c:450-472 | change keeps the run sound: `pace_change_pin` comes right after a successful PIN establish into `sctx` |
| Workflows.RelayAdvances | npa/src/pace-tool.c:507-529 | the relay, started right after a successful establish into `sctx`, keeps the run sound (each transmit guarded) and populates nothing |
| Workflows.DirectAdvances | npa/src/pace-tool.c:474-531 | the direct block keeps the run sound and populates `sctx` at most once |
| Workflows.BodySound | npa/src/pace-tool.c:324-531 | after the blocks, `i >= 0` iff no failure, an `exit` status is 1 or 2, and every call is guarded; `sctx` is populated at most once per block that ran and `tmpctx` only by resume |
| Workflows.FreesContents | npa/src/pace-tool.c:536-545 | the frees are exactly the non-null buffers among the fields, each at most once |
| Workflows.CleanupIsFrees | npa/src/pace-tool.c:533-545 | the cleanup is the two context releases followed by the frees in field order |
| Workflows.CleanupReleasesOnce | npa/src/pace-tool.c:533-545 | the cleanup releases both contexts, frees a buffer iff it is non-null, does nothing twice and makes no call |
| Workflows.RunSecretsMeasured | npa/src/pace-tool.c:392-500 | every establish of a run passes `pin_length` 0 with a NULL `pin` and otherwise the length of the string passed, in every block (the width, for a break candidate) |
| Workflows.RunReleasesOnce | npa/src/pace-tool.c:533-551 | the status is positive iff the blocks did not finish normally; an `exit` gives 1 or 2 with no release; otherwise both contexts are released, exactly the non-null buffers are freed, nothing is released twice and no call follows a release |
| Workflows.RunGuarded | npa/src/pace-tool.c:390-551 | over a whole run every administrative, chained or transmit call is guarded, `sctx` is populated at most once per workflow block and `tmpctx` only by resume |
| Workflows.ResumeEstablishesTwice | npa/src/pace-tool.c:390-424 | resume establishes the CAN into `tmpctx`; only if that succeeds does it establish the PIN chained on `tmpctx` into `sctx`, and its result decides the outcome |
| Workflows.UnblockIffPukAccepted | npa/src/pace-tool.c:426-448 | `pace_unblock_pin` is called iff the PUK establish returned a non-negative result, right after it, and its result decides the outcome |
| Workflows.ChangeIffPinAccepted | npa/src/pace-tool.c:450-472 | `pace_change_pin` is called iff the PIN establish returned a non-negative result, right after it, and its result decides the outcome |
| Workflows.DirectEstablishIff | npa/src/pace-tool.c:474-526 | the direct establish is made iff translate was asked for or no other workflow was, and a secret kind is chosen; with none chosen the block exits with 1 before any call; any call after the establish is a transmit on `sctx`, made only when translating and only after the establish succeeded |
| Workflows.TransmitFollowsEstablish | npa/src/pace-tool.c:508-526 | in a guarded trace every transmit has a successful establish into `sctx` before it, with only transmits in between |
| Workflows.RunTransmitsAfterEstablish | npa/src/pace-tool.c:507-526 | over a whole run every `sm_transmit_apdu` goes to `sctx` and comes after a successful establish into `sctx`, with only transmits in between |
| Workflows.FailureSkipsLaterBlocks | npa/src/pace-tool.c:379-531 | a block that fails or exits ends the body: later blocks change nothing |
| Scenarios.WideStartReportsSuccess | npa/src/pace-tool.c:362-386 | a start value wider than the secret makes no attempt, keeps `initialize`'s result (line 312) and takes the success branch; the run ends with `-init` after releasing the unpopulated contexts |
| Scenarios.ResumeThenUnblockPopulatesSctxTwice | npa/src/pace-tool.c:390-448 | with both flags and an accepting card, `sctx` is populated twice with no release in between |
| Scenarios.DirectExitLeavesContexts | npa/src/pace-tool.c:474-505 | resume with translate and no secret kind populates both contexts, then exits with 1 without releasing either |
| Scenarios.ZeroPaddedSmall | npa/src/pace-tool.c:366 | 0 and 1 are padded to "000000" and "000001" |
| Scenarios.ZeroPaddedEdge | npa/src/pace-tool.c:366-368 | 999999 still fits six digits, and 1000000 is printed in full with seven |
| Scenarios.BreakPinFromZero | npa/src/pace-tool.c:329-386 | on a card that rejects only the first attempt, break mode tries "000000", then "000001", releases both contexts and returns 0 |

## Left out

- Option parsing (`getopt_long`), usage, help and `print_avail`, lines 195-310. The model starts from the parsed option record `Secrets.Config`.
  - That record holds whatever parsing stored, including the environment fallbacks as written: `pin = getenv("PUK")` at line 223, `can = getenv("MRZ")` at line 241, `pin = getenv("NEWPIN")` at line 268.
  - The chat, certificate description and TR-03110 version options only fill `pace_input` fields passed through to the library, so they are not modelled.
- Reader setup and teardown are transport I/O:
  - `initialize` at line 312 is represented only by its non-negative result `init`;
  - the connect failure at lines 312-322 is out;
  - `sc_reset`, `sc_disconnect_card` and `sc_release_context` at lines 547-549 are out.
- The PACE handshake, secure messaging, `pace_unblock_pin`, `pace_change_pin` and `pace_sm_ctx_clear_free` are foreign library calls. They are oracles, and the releases are trace events.
  - What `EstablishPACEChannel` does with a context that is already populated is not visible, so the model only counts how often each context is populated.
- The contexts and the establishment output are recorded in the trace (`ClearFree`, `Free` and the buffers after each establish), not kept in a mutable record, so that every property is a statement about one value.
- `sc_hex_to_bin` and `build_apdu` internals are oracles. The capacity check of `sc_hex_to_bin` against `sizeof buf` is made explicit in `Relay.Command`.
- Time and printing (`time`, `difftime`, `printf`, `sc_debug`, `bin_print`) are out: wall clock, floating point and output only.
- Opening and closing the APDU file (lines 516-527) is out. This includes using a NULL `input` after a failed `fopen`. The input is a sequence of reads, each a line or a failure, and reading past its end fails as at end of file.
- The `getline` buffer and the reuse of `buf` for the response (lines 117, 158-159, 173-174) are out: the response is only printed.
- BruteForce.BreakLoop counts with an unbounded counter, but `BruteForce.BreakSecret` uses the wrapping `Pace.Increment`. The two agree because the width check stops the loop at 10^10 at the latest, far below 2^64.
- Every establish writes into the same `pace_output`: up to 10^10 break attempts, two in resume, one in each later block. The cleanup frees only the buffers the last establish left non-null, as lines 536-545 do. Whether buffers set by earlier establishes are freed by the library or leak is not visible, so the model does not say.
- Tool.Run: the exit status is `main`'s return value `-i`; the truncation to 8 bits by the operating system is not modelled.
- Strings are C byte strings: every `string` of the model (secrets, `newpin`, the lines of the APDU file) is read as one `char` per byte with no NUL inside, so `|s|` is `strlen` (lines 394, 411, 430, 454, 481-499), the length `getline` returns (line 129), and dropping the last `char` is the one-byte cut of line 141. Multi-byte encodings are not modelled.
- Tool.Run: `i` is an unbounded integer, so `return -i` overflowing for `INT_MIN` (line 551) is not modelled; the results that reach it come from the library and the card.
- Workflows.RunReleasesOnce: "released exactly once" holds on the paths that reach `err:`. The `exit(1)`/`exit(2)` paths release nothing, even after an earlier block populated a context; `Scenarios.DirectExitLeavesContexts` shows this.
