# Name-server pool of the trust-dns resolver, in Dafny

This project models how the trust-dns resolver chooses an upstream name server and tracks each server's health. It covers `resolver/src/name_server_pool.rs`:

- **`NameServerState`** (`state.dfy`): a connection is `Init`, `Established` or `Failed`. `to_usize` ranks these states 3, 2 and 1. Ordering and equality of states compare these ranks only.
- **`NameServerStats`** (`stats.dfy`): a state plus `successes` and `failures` counters.
  - `next_success` and `next_failure` update the record in place. The model has a class with these two methods, and pure functions (`AfterSuccess`, `AfterFailure`) that specify them.
  - The comparator the pool uses to rank servers is `ServerStats.Compare`.
- **`NameServer`** (`name_server.dfy`): one configured server. It holds its current connection and a lock around its statistics.
  - `try_reconnect` replaces the connection and the lock once a failed server's backoff window of 360 seconds has passed.
  - `send` makes the transport call and records its outcome.
  - `server_spec.dfy` states both as functions of a `ServerView`: the statistics plus the lock's poisoned flag. The class methods are proved against these functions.
  - `Run` and its lemmas describe several sends in a row.
- **`NameServerPool`** (`pool.dfy`): builds one server per configured address. It fails a send on an empty pool, and otherwise hands the send to the first server of its heap.

Opaque inputs become parameters:

- The transport's answer is passed into `send` as `outcome: Result<Message>`.
- The two clock readings of `send` are passed in as `start` and `finish`:
  - `try_reconnect` reads the clock at `start`;
  - `next_failure` records the failure at `finish`.
- `Instant` is a natural number of nanoseconds on the monotonic clock.

Facts about the code that the model keeps as written:

- **Backoff boundary.** `try_reconnect` compares the elapsed time with strict `>` (line 218). A send at exactly `when + 360 s` still returns the stored error.
- **Comparator.** `Greater` means preferred, because `BinaryHeap` is a max-heap. `ServerStats.Compare` states the rule exactly:
  - If the two records are equal (same state rank and both counters equal), the result is `Equal` (lines 133-135).
  - Otherwise, if the state ranks differ, the rank order decides (lines 139-142).
  - Otherwise, the left side is `Greater` whenever its failures are at most the other's (lines 147-149).
  - Otherwise (the left side has more failures), the successes decide: more successes is `Greater` (line 152). The comment at line 151 says "the lesser of successes", but the code prefers more.
  - Both sides are `Greater` than each other exactly when the ranks are equal and either the failures are tied and the successes differ (`TiedFailuresBothGreater`), or the side with more failures also has more successes (`MutuallyGreaterExactly`). Whenever the ranks are equal and one side has more failures, the other side is `Greater` than it. So the comparator is not a total order (`CompareIsNotAntisymmetric`, `EqualIsNotSymmetric`).
- **Poisoned lock.** The comment at line 223 says the mutex is reinitialised in case it was poisoned. But the `?` at line 212 returns the lock error before that line is reached, so a poisoned lock is never replaced. A poisoned server fails every later send with the lock error (`PoisonedLockIsPermanent`).
- **TLS.** `new_connection` reaches `unimplemented!()` for TLS (lines 183-184), a panic rather than an error. The model makes "not TLS" a precondition.
- **Reconnect cannot fail.** `new_connection` returns a client handle, not a `Result` (lines 171-186). So there is no "reconnect failed" path.

## Model

| member | source | states |
|---|---|---|
| `Types.CompareNat` | resolver/src/name_server_pool.rs:58-60 | `usize::cmp`: `Equal` exactly on equal numbers, `Less` exactly when the first is smaller |
| `State.Rank` | resolver/src/name_server_pool.rs:47-55 | `to_usize` is between 1 and 3; it is 3 exactly for Init and 1 exactly for Failed, so 2 exactly for Established |
| `State.Same` | resolver/src/name_server_pool.rs:69-73 | Two states are equal exactly when they are the same variant, whatever they carry |
| `State.Compare` | resolver/src/name_server_pool.rs:57-61 | Two states are `Equal` exactly when they are the same variant. `Greater` exactly when Init meets a non-Init state, or Established meets Failed |
| `State.CompareIgnoresPayload` | resolver/src/name_server_pool.rs:57-75 | Replacing either state by another of the same variant changes neither `cmp` nor `eq`. The EDNS record, the error and the time are never looked at |
| `State.CompareIsTotal` | resolver/src/name_server_pool.rs:57-73 | On states, `cmp` is `Equal` exactly when `eq` holds. Swapping the arguments reverses the answer |
| `ServerStats.Same` | resolver/src/name_server_pool.rs:77 | The derived equality of statistics: equal exactly when the states are the same variant and both counters are equal |
| `ServerStats.Compare` | resolver/src/name_server_pool.rs:129-154 | If the ranks differ, the rank order decides, whatever the counters. The result is `Equal` exactly when ranks and successes are equal and the left side has at least as many failures. It is `Less` exactly when the left rank is lower, or the ranks are equal and the left side has more failures and fewer successes |
| `ServerStats.AfterSuccess` | resolver/src/name_server_pool.rs:99-119 | `successes` goes up by exactly 1 and `failures` is unchanged. The state becomes Established. Its EDNS is the response's if present, else the previous Established EDNS, else none |
| `ServerStats.AfterFailure` | resolver/src/name_server_pool.rs:121-126 | `failures` goes up by exactly 1 and `successes` is unchanged. The state becomes `Failed` with the given error and time |
| `ServerStats.NameServerStats.Init` | resolver/src/name_server_pool.rs:90-97 | `init` gives state `Init{send_edns}` with the given counters |
| `ServerStats.NameServerStats.Default` | resolver/src/name_server_pool.rs:84-88 | `default` gives state `Init{None}` with both counters 0 |
| `ServerStats.NameServerStats.NextSuccess` | resolver/src/name_server_pool.rs:99-119 | The record's new value is `AfterSuccess` of its old value |
| `ServerStats.NameServerStats.NextFailure` | resolver/src/name_server_pool.rs:121-126 | The record's new value is `AfterFailure` of its old value |
| `ServerStats.CompareReflexive` | resolver/src/name_server_pool.rs:131-135 | A record compares `Equal` to itself |
| `ServerStats.CompareIgnoresPayload` | resolver/src/name_server_pool.rs:77-82 | Only the state's rank and the two counters affect the ranking. EDNS, error and time never do |
| `ServerStats.TiedFailuresBothGreater` | resolver/src/name_server_pool.rs:146-149 | Suppose two records have equal ranks and equal failures but different successes. Then each compares `Greater` than the other |
| `ServerStats.MutuallyGreaterExactly` | resolver/src/name_server_pool.rs:139-152 | Two records are each `Greater` than the other exactly when their ranks are equal and either the failures are tied and the successes differ, or the side with more failures has more successes |
| `ServerStats.CompareIsNotAntisymmetric` | resolver/src/name_server_pool.rs:146-149 | There exist two records that both compare `Greater` than each other |
| `ServerStats.EqualIsNotSymmetric` | resolver/src/name_server_pool.rs:146-152 | Suppose two records have equal ranks and successes, and the left has more failures. Then the left is `Equal` to the right, but the right is `Greater` than the left |
| `ServerStats.LessReverses` | resolver/src/name_server_pool.rs:139-152 | Whenever `a.cmp(b)` is `Less`, `b.cmp(a)` is `Greater` |
| `ServerStats.FailureRanksBelowHealthy` | resolver/src/name_server_pool.rs:121-142 | After `next_failure`, a record ranks `Less` than every record not in `Failed`, and they rank it `Greater` |
| `ServerSpec.Decide` | resolver/src/name_server_pool.rs:200-235 | `try_reconnect` has four outcomes. A poisoned lock gives the lock error. A state that is not `Failed` proceeds. A `Failed` state reconnects when strictly more than 360 s have passed, and otherwise replays its stored error |
| `ServerSpec.Reconnected` | resolver/src/name_server_pool.rs:220-227 | A reconnect installs a fresh, healthy lock around `Init{None}`. Both counters are preserved |
| `ServerSpec.Complete` | resolver/src/name_server_pool.rs:250-278 | A transport error always reaches the caller, even when the lock cannot be taken. With a healthy lock, the outcome is recorded by `AfterSuccess` or `AfterFailure`. On a poisoned lock, a response becomes the lock error and nothing changes |
| `ServerSpec.Send` | resolver/src/name_server_pool.rs:239-279 | If `try_reconnect` fails, no transport call is made, the state is unchanged and its error is returned. Otherwise the transport is called exactly once and the outcome is returned unchanged. The state then ends Established or `Failed{error, finish}`, and exactly one counter goes up by 1. On a response, the statistics are `AfterSuccess` of those the send started from (after any reconnect), so the EDNS record follows the response's |
| `ServerSpec.FailedRecoversOnlyByReconnect` | resolver/src/name_server_pool.rs:216-231 | A `Failed` server becomes Established only in a send that reconnected |
| `ServerSpec.Run` | resolver/src/name_server_pool.rs:239-279 | Over a run of sends, `successes + failures` grows by exactly the number of transport calls. Neither counter ever decreases. The poisoned flag never changes |
| `ServerSpec.BackoffSuppressesTransport` | resolver/src/name_server_pool.rs:200-243 | Take a failed server and any run of sends inside its window. No transport call is made, every send returns the stored error, and the server is unchanged |
| `ServerSpec.FirstSendAfterWindowReconnects` | resolver/src/name_server_pool.rs:216-228 | A send after the window reconnects and calls the transport. Its outcome is recorded on the reconnected, counter-preserving `Init` state |
| `ServerSpec.PoisonedLockIsPermanent` | resolver/src/name_server_pool.rs:200-212 | With a poisoned lock, every send of any run returns the lock error and makes no transport call. The server never changes |
| `ServerSpec.NegotiatedEdnsIsSticky` | resolver/src/name_server_pool.rs:104-118 | Start Established with an EDNS record, and receive any number of responses without EDNS. The server stays Established with the same record, and every response is returned |
| `ServerSpec.BackoffScenario` | resolver/src/name_server_pool.rs:239-279 | A new server's send times out at `t0`. A send at `t0 + 1 s` replays the timeout without a transport call. A send at `t0 + 361 s` reconnects and succeeds. Two transport calls are made, ending Established with 1 success and 1 failure |
| `NameServers.Connection.constructor` | resolver/src/name_server_pool.rs:171-186 | `new_connection` accepts only UDP or TCP. It gives a connection to the configured address on which nothing has been sent |
| `NameServers.Connection.Send` | resolver/src/name_server_pool.rs:250 | The transport call records the message and delivers the given outcome |
| `NameServers.StatsLock.constructor` | resolver/src/name_server_pool.rs:224-227 | `Mutex::new` gives a healthy lock around the given statistics |
| `NameServers.NameServer.constructor` | resolver/src/name_server_pool.rs:188-198 | `new` gives a fresh connection and a fresh lock around default statistics |
| `NameServers.NameServer.TryReconnect` | resolver/src/name_server_pool.rs:200-235 | After the window, the connection, lock and statistics are replaced by new objects holding `Reconnected` of the old view, and the result is `Ok`. Otherwise nothing changes, and the result is `Ok`, the lock error or the stored error, as `Decide` says |
| `NameServers.NameServer.Send` | resolver/src/name_server_pool.rs:238-279 | The result and the new view are those of `ServerSpec.Send`. On a reconnect the connection is new. The message is sent only when `ServerSpec.Send` calls the transport |
| `NameServers.NameServer.SameServer` | resolver/src/name_server_pool.rs:306-311 | Two servers are equal exactly when their configured address and protocol are equal; connection and statistics are not looked at |
| `NameServers.NameServer.Compare` | resolver/src/name_server_pool.rs:282-311 | Handles of the same configured server are `Equal`. Otherwise the statistics comparator decides. Both locks must be healthy, and two servers must not share one lock |
| `Pool.NameServerPool.FromConfig` | resolver/src/name_server_pool.rs:321-336 | One fresh server per configured name server, in the configured order, each with default statistics and an unused connection. No two share a connection or statistics |
| `Pool.NameServerPool.Send` | resolver/src/name_server_pool.rs:339-351 | An empty pool returns `NoConnections` and touches nothing. Otherwise only the first server sends, as `ServerSpec.Send` says, and its result is returned. Every other server is unchanged |
| `Pool.FreshServersCompareEqual` | resolver/src/name_server_pool.rs:282-297 | Servers not used yet compare `Equal` in both directions |
| `Pool.UnusedServerOutranksEstablished` | resolver/src/name_server_pool.rs:139-142 | A server still in `Init` outranks an Established one, however many successes the latter has |

## Left out

- Transport construction in `new_connection` (UDP and TCP client streams, the reactor handle) is not modelled. A connection only records what was sent on it. The TLS branch panics, so it is a precondition.
- Futures and their `and_then`/`or_else` chaining are not modelled. A send is atomic: it takes the transport's outcome and the two clock readings as parameters.
- Concurrency is not modelled: interleaved sends on one server, and last-writer-wins updates of the shared statistics.
- Lock poisoning is a flag on the lock that nothing in the model sets, because only a panic elsewhere can poison it. The `warn!` log line on the failure path is not modelled.
- `Clone` of `NameServer` and `NameServerPool` is not modelled. A server is one object, so clones that keep the old statistics after another clone reconnects are not represented.
- `NameServers.NameServer.Compare` does not model the deadlock when two different servers share one lock, nor the panic on a poisoned lock. Both can happen only for different configurations, and only there do its preconditions exclude them; handles of the same configuration are `Equal` whatever their locks.
- `Pool.NameServerPool.FromConfig` keeps the servers in the configured order. How `BinaryHeap` arranges elements that all compare `Equal` is decided by the standard library, which is not part of this model.
- `Pool.NameServerPool.Send`: the re-sifting of the `BinaryHeap` when `PeekMut` is dropped is not modelled. The selected server stays first, and servers are not reordered as their statistics change.
- The `PartialOrd` implementations are not modelled separately. Each only wraps `cmp` in `Some`.
- `ServerStats.NameServerStats.NextSuccess` uses unbounded counters. The `usize` overflow of `+= 1` (a panic in debug builds) is not modelled.
- `ServerStats.NameServerStats.NextFailure` uses unbounded counters. The `usize` overflow of `+= 1` is not modelled.
- `MIN_RETRY_DELAYms` is not modelled, because nothing uses it.
- `ResolverOpts` is stored and never read. `ResolverConfig` is reduced to its list of name servers.
- The network test that queries 8.8.8.8 is not modelled.
- `src/authority/mod.rs` is not part of this model. It holds only a type alias, a fieldless enum and re-exports.
