# Optimistic debit protocol, modelled in Dafny

This project models the debit protocol of a small payment backend. An account's balance is an integer stored under the key `<account>/balance` in a Redis-like store. The backend has three operations:

- `charge` makes one optimistic attempt. It WATCHes the balance key and GETs the balance. If the balance is insufficient it declines without writing. Otherwise it commits `balance - charges` in a MULTI/EXEC transaction, which fails with a watch error if any other client has written the key since the WATCH.
- `chargeSafe` repeats `charge` on a watch error while the elapsed time is below the timeout. It rethrows every other error, and it rethrows a watch error once the deadline has passed.
- `reset` overwrites the balance with `DEFAULT_BALANCE` (100).

Files and modules:

- `keyvalue.dfy`, module `KeyValue`: the store. `Db` is a snapshot value holding a value map and a per-key version map. Every write bumps the key's version. A WATCH records a version, and EXEC commits only while that version is current. `Store` is the shared store as a class with the two maps as fields. Its methods (`Get`, `Set`, `Watch`, `ExecSet`, plus `RivalWrite` for another client's SET) are tied to the pure functions `Lookup`, `Put`, `Exec` and `Apply`.
- `app.dfy`, module `App`: the protocol. `Finish` is the pure sufficiency decision and commit. `Attempt` is the pure specification of one `charge`, and the method `Charge` follows the source step by step against a `Store`. `Retry` is the pure specification of `chargeSafe`, and the method `ChargeSafe` keeps the source's `while (retry)` loop. `AfterReset` and `Reset` model `reset`.
- `scenarios.dfy`, module `Scenarios`: the two tests in `backend/test.ts`. `bugTest` runs ten concurrent 100-unit charges after a reset. `basicLatencyTest` runs five default charges of 10.

Concurrency is made explicit rather than modelled. An `Env` gives, for one attempt:
- whether connecting fails;
- the write some other client makes between WATCH and GET;
- the write some other client makes between GET and EXEC.

For the race in `bugTest`, every connection first watches and reads the same version (`Begin`), and then they commit one after another (`FinishAll`).

The clock of `chargeSafe` is a sequence of readings of `performance.now() - start`, one per attempt in integer milliseconds, consulted only when that attempt throws a watch error. The precondition `ClockOracle` says the last reading has reached the timeout: time eventually passes the deadline. The number of readings left is the loop's termination measure.

Behaviour of `backend/app.ts` that the model keeps:

- A missing balance key parses to NaN (`backend/app.ts:68`). NaN `>=` anything is false, so the attempt declines with `remainingBalance` NaN and writes nothing (`Num.NaN`).
- When the deadline passes under contention, `chargeSafe` rethrows the `WatchError` (`backend/app.ts:49-54`). The zero-valued fallback `return` at `backend/app.ts:58` cannot be reached. `ChargeSafe` keeps that line behind `assert false`, and the verifier proves it dead. The `TimeoutError` class at `backend/app.ts:13-17` is never used.
- The remaining balance of an authorized charge comes from re-reading the key after EXEC (`backend/app.ts:72`). `Charge` performs that GET, and the model proves it yields `b - charges` when no write intervenes.

## Model

| member | source | states |
|---|---|---|
| KeyValue.Put | backend/app.ts:30 | SET leaves the key holding the new value and bumps only that key's version; every other key keeps its value and version |
| KeyValue.Apply | backend/app.ts:66-70 | another client's SET holds its value afterwards, never lowers a version, raises the version of the key it writes, and leaves unwritten keys untouched |
| KeyValue.Exec | backend/app.ts:70 | EXEC commits exactly when the watched key's version is the one the WATCH saw; on commit the key holds the value, otherwise the store is unchanged; other keys never change |
| KeyValue.Store.Get | backend/app.ts:68 | GET returns the stored value, or None for a missing key |
| KeyValue.Store.Set | backend/app.ts:30 | the store's new state is its old state with the SET applied |
| KeyValue.Store.Watch | backend/app.ts:66 | WATCH records the key and its current version and changes nothing in the store |
| KeyValue.Store.ExecSet | backend/app.ts:70 | the transaction leaves the store and the commit flag that `Exec` specifies: it commits iff the watch is still current, and the store changes only on commit |
| KeyValue.Store.RivalWrite | backend/app.ts:66-70 | a rival client's SET between watch and commit, as `Apply` |
| App.BalanceKeyInjective | backend/app.ts:66 | two different accounts never share a balance key |
| App.Finish | backend/app.ts:69-75 | authorized iff the read balance is at least the charge and the watch is still current; authorized stores and reports `b - charges` (never negative) with `charges` charged; insufficient balance declines with `{false, b, 0}` and no write; a sufficient read under a stale watch is a watch error with no write |
| App.Attempt | backend/app.ts:61-80 | a failed connection changes nothing; otherwise, whatever the rivals write: an insufficient read `b` (NaN for a missing key) declines `{false, b, 0}` without a write; a sufficient read that no rival write to the key disturbs stores and reports `b - charges`; a sufficient read whose key a rival wrote gives a watch error with the store exactly as the rival left it; the only error is that watch error; only the account's key and rival-written keys change; non-negative balances stay non-negative |
| App.Charge | backend/app.ts:61-80 | the step-by-step attempt (watch, get, decide, exec, re-read) leaves the store and returns the outcome that `Attempt` specifies |
| App.ChargeLeavesOtherAccounts | backend/app.ts:66-70 | charging one account leaves every other account's balance and version unchanged |
| App.AfterReset | backend/app.ts:27-34 | after reset the account's key holds 100 whatever it held, its version is bumped, and every other key is unchanged |
| App.Reset | backend/app.ts:27-34 | reset writes the store that `AfterReset` describes, or fails on connecting with no change |
| App.Retry | backend/app.ts:38-59 | every result keeps the ChargeResult invariant (authorized: full charge and a number left; declined: nothing charged); an attempt that returns, or one whose clock reading has reached the timeout, is final and is what `chargeSafe` gives; an escaping watch error is that of an attempt whose balance key a rival wrote, at the first reading that reached the timeout, all earlier readings being below it; a connection error comes from an attempt whose connection failed; non-negative balances stay non-negative; keys written neither by this account nor by a rival keep their value and version |
| App.ChargeSafe | backend/app.ts:38-59 | the `while (retry)` loop leaves the store and returns the outcome that `Retry` specifies, and the fallback after the loop is unreachable |
| App.RetryRun | backend/app.ts:43-56 | a run is a chain of attempts in which every attempt but the last was a watch error at a clock reading below the timeout, the last is not retryable, and its outcome (authorized, declined or thrown) is what `chargeSafe` returns or rethrows unchanged |
| App.RetryConverges | backend/app.ts:43-56 | if rival writes to the key stop before the deadline and no connection fails, `chargeSafe` ends with a result, not a watch error |
| App.RetryUnderContention | backend/app.ts:49-58 | if every attempt is contended, `chargeSafe` ends by rethrowing the watch error and never by declining |
| Scenarios.Begin | backend/app.ts:66-68 | a fresh connection's WATCH and GET: the watch is on the account's balance key and current, and the balance read is the stored value, NaN when missing |
| Scenarios.QuietAttemptIsBeginThenFinish | backend/app.ts:61-80 | an undisturbed `charge` is exactly a fresh session's WATCH and GET followed by its decision and commit |
| Scenarios.FinishAll | backend/test.ts:25-33 | connections committing one after another yield one outcome each, and only the keys they watched can change |
| Scenarios.StaleWatchesNeverCommit | backend/app.ts:66-70 | connections whose watch predates the key's last write never commit: each gets a watch error, or a decline if its read was insufficient, and the store is unchanged |
| Scenarios.AtMostOneCommits | backend/app.ts:66-70 | of connections that all watched the same version, at most one is authorized |
| Scenarios.FirstCommitWins | backend/app.ts:66-75 | of n connections that read the same sufficient balance `b`, the first is authorized with `b - charges` left and every other gets a watch error; exactly one is authorized |
| Scenarios.TenChargesAfterReset | backend/test.ts:17-36 | after reset, ten 100-unit charges give exactly one `{true, 0, 100}`, and a conflicted one retried by `chargeSafe` on the resulting store is declined as `{false, 0, 0}` |
| Scenarios.UndisturbedChargeSafe | backend/app.ts:43-47 | a `chargeSafe` whose first attempt is undisturbed returns that attempt's debit at once |
| Scenarios.BasicSequence | backend/test.ts:7-16 | reset and then five default charges of 10 are all authorized, leaving 90, 80, 70, 60 and 50 |

## Left out

- HTTP routing, JSON body parsing, the defaults for `account` and `charges`, and status codes (`backend/app.ts:82-108`). These are request plumbing. The scenarios pass the defaults explicitly: account `"account"`, charge 10, timeout 2000.
- Connecting to the store, environment variables, logging, and disconnecting in `finally`. The only trace of them is that connecting may fail (`Env.connectFails`, `Reset`'s `connectFails`), which yields a `ConnectionError` with no change. Transport failures at later steps are not modelled.
- The backoff of `chargeSafe`. `delay(waitTimeout)` is never awaited, and `waitTimeout` is a float multiplied by 1.6. Neither affects which attempts run or what is returned, so the model omits `waitTimeout`. The clock is an abstract sequence of integer readings. An awaited backoff would change only when the readings are taken.
- `UNWATCH` after a commit (`backend/app.ts:71`). EXEC has already dropped the watch, and the connection is closed next.
- Genuine concurrent interleaving. Rival writes happen only at the two points an `Env` names, and the race in `bugTest` is one interleaving (all watch, then all commit) rather than every schedule.
- A rival write between EXEC and the re-read at `backend/app.ts:72`. The model has no such step, so it cannot show the reported remaining balance diverging from the balance committed.
- JavaScript number semantics beyond NaN. Balances and charges are unbounded integers, so fractional charges, precision loss above 2^53 and non-numeric strings stored by other clients are not modelled.
- `async.times` and the latency timing in `backend/test.ts`.
