# hitman: the `Targets` registry in Dafny

`hitman` coordinates the shutdown of long-running goroutines. A worker
(a `Target`) is registered in a `Targets` map. Registering it calls its
`Start`, which hands back an unbuffered `KillChannel`. The map stores a
`Contract {Name, Done}` under the worker's name: either the name the worker
supplies through `Named` or a generated UUID. `Close` sends every contract
one `KillSignal` that carries the contract's name and a shared
`sync.WaitGroup`. It sizes that barrier at twice the number of entries,
because each entry reports done twice: once from the worker on receipt and
once from the sending goroutine. Then it waits for the barrier and returns
nil.

The model has two modules:

- `Hitman` (`hitman.dfy`) models `hitman.go`. It holds the datatypes
  `KillSignal`, `KillChannel` (an id standing for channel identity, a
  capacity and the buffered signals), `Contract` and `Target` (an optional
  name standing for the `Named` type assertion). `WaitGroup` is a small
  class with a counter, a tally of `Done` calls and two ghost records: the
  total ever added, and a log of who called `Done` (an entry's name and
  whether the worker or the sending goroutine called it). `Targets` is a class
  whose `entries: map<string, Contract>` the registration methods update in
  place. The specification function `Registered` describes one registration
  and `Replay` describes a sequence of them. Lemmas state what each one
  does, and the ones about `Replay` are proved by induction. A ghost log of
  the registered names ties the class to `Replay`: its invariant says the
  table is the replay of that log.
- `HitmanTest` (`hitman_test.dfy`) replays the scenarios of
  `hitman_test.go` against the contracts of `Targets` alone.

A duplicate name always overwrites the old entry after one warning
(hitman.go:96-103). The barrier is sized at `2 * len(targets)` because each
sending goroutine's deferred `Done` counts too (hitman.go:109, 112).

## Model

| member | source | states |
|---|---|---|
| `Hitman.NewKillChannel` | hitman.go:22-24 | a new kill channel has capacity 0 and holds no buffered signal |
| `Hitman.Contract.Kill` | hitman.go:35-40 | the kill signal goes on the contract's own channel and carries the contract's name and the caller's wait group |
| `Hitman.RegisteredFacts` | hitman.go:100-103 | after registering `name`, the table maps `name` to a contract with that name and the new channel; every other entry is kept; the keys gain exactly `name`; the size grows by one exactly when `name` was absent |
| `Hitman.ReplayKeys` | hitman.go:95-104 | after a sequence of registrations, a name is a key exactly when it was a key before or was registered |
| `Hitman.ReplaySnoc` | hitman.go:95-104 | one more registration on top of a sequence of registrations is the sequence extended by that name, its channel numbered after all earlier ones |
| `Hitman.ReplayUntouched` | hitman.go:100-103 | a name never registered keeps its entry, or stays absent |
| `Hitman.ReplayLastWins` | hitman.go:100-103 | the last registration of a name wins: its entry holds the channel started at that registration |
| `Hitman.ReplayFreshSize` | hitman.go:95-104 | registering k pairwise distinct, untaken names grows the table by exactly k |
| `Hitman.RegisteredWellFormed` | hitman.go:100-103 | registering with a fresh channel keeps every entry under its own name, on its own unbuffered channel, with no channel shared |
| `Hitman.AcksStep` | hitman.go:110-117 | when one more entry's worker and sender both report done, a log holding exactly one worker and one sender `Done` per finished entry (and nothing else) becomes such a log for the finished entries plus that one |
| `Hitman.Receive` | hitman_test.go:94-97 | a worker that receives its kill signal calls `Done` on the signal's barrier exactly once, logged under the signal's name as the worker |
| `Hitman.Killing` | hitman.go:111-116 | one sending goroutine delivers its contract's kill signal on the shared barrier; the worker's `Done` and then the goroutine's deferred `Done` are logged under the entry's name, and the counter drops by two |
| `Hitman.SendAll` | hitman.go:110-117 | the loop over the table sends each entry exactly one kill signal with its own name, and sends no other; every entry's name is logged exactly once as worker and once as sender, and nothing else is logged; the counter drops from twice the size to 0 |
| `Hitman.WaitGroup.constructor` | hitman.go:108 | a new barrier has counter 0, no `Done` calls, nothing added and an empty log |
| `Hitman.WaitGroup.Add` | hitman.go:109 | `Add` moves the counter and the added total by the given delta and never makes the counter negative |
| `Hitman.WaitGroup.Done` | hitman.go:112 | `Done` lowers a positive counter by one, counts the call and appends its caller to the log |
| `Hitman.Targets.constructor` | hitman.go:64-66 | `NewTargets` is an empty registry that has started nothing, registered no name and logged no warning |
| `Hitman.Targets.Start` | hitman.go:102 | each `Start` hands out a new unbuffered channel, logs the worker once, and leaves the table alone |
| `Hitman.Targets.Put` | hitman.go:95-104 | `Put` maps `name` to `Contract(name, ch)`, where `ch` is the channel of this call's single `Start`; other entries are kept; the size grows by one exactly when `name` was absent; a warning is logged exactly when `name` was already present; `name` is appended to the log of registered names, so the table stays the replay of that log |
| `Hitman.Targets.Add` | hitman.go:69-71 | `Add` is `Put` under the target's own name |
| `Hitman.Targets.AddTarget` | hitman.go:75-82 | a named target is put under its name, an unnamed one under the generated name; with an untaken generated name the size grows by one |
| `Hitman.Targets.AddOrPanic` | hitman.go:87-92 | a construction error is the panic: the table, the channel counter and both logs stay unchanged; with no error it is `AddTarget` |
| `Hitman.Targets.Close` | hitman.go:107-120 | a new barrier gets exactly twice the number of entries added; every entry receives exactly one kill signal, carrying its own name and that barrier, and no other signal is sent; each entry's name is logged exactly once as the worker's `Done` and once as the sender's, and nothing else, so the barrier ends at 0 and the wait is released; the result is nil |
| `HitmanTest.RegisterFour` | hitman_test.go:12-18 | four `Add` calls with distinct names log those four names, leave the replay of them as the table, and so give a registry of size 4 |
| `HitmanTest.FourDistinctNames` | hitman_test.go:12-18 | replaying four distinct names on an empty table gives exactly four entries |
| `HitmanTest.KillFourWorkers` | hitman_test.go:11-21 | four distinct named workers give a registry of size 4; `Close` returns nil after 4 kill signals and 8 `Done` calls |
| `HitmanTest.LookupByName` | hitman_test.go:39-49 | after one `Add` the size is 1 and the worker's name finds its contract |
| `HitmanTest.AddUnnamed` | hitman_test.go:56-61 | an unnamed target is registered under the generated name, giving size 1; the following `Close` returns nil after one kill signal |
| `HitmanTest.AddOrPanicWithoutError` | hitman_test.go:63-68 | `AddOrPanic` with no error registers the target and does not panic; the following `Close` returns nil after one kill signal |
| `HitmanTest.AddOrPanicWithError` | hitman_test.go:70-78 | `AddOrPanic` with an error panics with that error, registers nothing and starts nothing |
| `HitmanTest.SameNameTwice` | hitman.go:96-103 | two registrations under one name start two workers, log exactly one warning for that name, and leave one entry, holding the second worker's channel |
| `HitmanTest.CloseEmpty` | hitman.go:108-119 | `Close` on an empty registry sends nothing, needs no `Done` call and returns nil |

## Left out

- Goroutines, channel rendezvous and the concurrency of `sync.WaitGroup` (hitman.go:36, hitman.go:108-118). `Close` is modelled as one sequential loop. For each entry it records the send, then the worker's `Done`, then the sender's deferred `Done`. Map iteration order is a nondeterministic choice, and `Close`'s contract does not fix the order of the sends.
- `Close` liveness: a worker that never reads its channel blocks `Close` forever. This cannot be expressed in the sequential model. `WaitGroup.Wait` therefore requires a zero counter instead of blocking.
- `log.Printf` and `log.Println` output (hitman.go:98, hitman.go:113-115). The ghost `warnings` log records only the name that triggered the duplicate warning.
- `uuid.New()` (hitman.go:80) is not modelled. The generated name is a parameter of `AddTarget` and `AddOrPanic`. Its freshness is a hypothesis of the size clause, not a fact.
- `panic` (hitman.go:89) is returned as an `Option<Error>` with the state unchanged. Unwinding and `recover` are not modelled.
- The `m.(Named)` type assertion (hitman.go:76) is modelled as the optional `name` of `Target`. The `NamedTarget` parameter type of `Add` becomes the precondition `m.name.Some?`.
- What a user-supplied `Start` does (hitman_test.go:91-145). In the model, `Targets.Start` hands out a channel numbered by a counter, and `Receive` is the worker's reply to a kill signal. The example workers `Service`, `Unnamed` and `Worker`, the global `id` counter and the `fmt.Sprintf` names are not modelled. The scenarios take names as parameters instead.
- The worker orphaned by a duplicate name: it keeps running, and its `Start` appears in the ghost `starts` log. `Close`'s contract shows that it is never signalled, because only current entries are.
