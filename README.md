# Replicator of the mock store, in Dafny

This project models the replicator of the gocaves mock server's store
(`mock/store/replicator.go`). The replicator copies document mutations from a
list of source vbuckets into a paired list of destination vbuckets. A mutation
is copied only once the virtual clock has reached its modification time plus a
fixed latency. Each check pass works like this:

- for every pair, it reads the source's maximum sequence number;
- it skips the pair when the pair's cursor has caught up, or when the range
  fetch fails or returns nothing;
- otherwise it appends the fetched mutations, in fetched order, until it meets
  the first one that is not yet due;
- after all pairs, it arms one wake-up at the earliest such not-yet-due time.

`Pause` and `Resume` switch a `disabled` gate, and `Resume` and `Signal` each
run one pass.

Files:

- `wrappers.dfy`: `Option` and `Result`.
- `vbucket.dfy`: the part of a vbucket the replicator sees. A mutation `Doc`
  has a sequence number and a modification time. A source snapshot
  `SrcVbucket` has a reported maximum sequence number, a history, and a flag
  saying whether this pass's range fetch fails. `GetAllWithin` is that range
  fetch.
- `replication.dfy`: what a pass computes, as functions of the cursors, the
  source snapshots, the latency and the clock (`Walk`, `PairOutcome`,
  `EarliestWake`, `PassOutcomes`, `AppendOutcomes`), with the lemmas about
  them.
- `replicator.dfy`: the class `Replicator`, with the fields of the Go struct.
  Its methods are proved to do what `replication.dfy` specifies. The nested
  loops of `checkVbucketsLocked` are split into three methods:
  `CheckVbucketsLocked` is the loop over pairs, `CheckPair` is one iteration
  of it, and `ReplicateDocs` is the loop over the fetched documents.
- `scenarios.dfy`: client code that runs a replicator through a timeline, a
  count mismatch, pause and resume, and a failed fetch.

The clock is a parameter `now` of every operation that runs a pass. Virtual
time, modification times and the latency are integers. A pass returns the
wake time it arms as an `Option<int>`: `None` means no `AfterFunc` call. The
source snapshots are the class field `srcVbuckets`; a write to a source
vbucket is modelled by a client assigning that field. The destination
vbuckets are the field `dstVbuckets`, one append-only log per pair.

## Behaviour as written

The per-pair cursor `maxSeqNos[i]` is read into a local named
`replicatedSeqNo` (`replicator.go:63`). The skip at line 69 (`replicatedSeqNo
>= srcMaxSeqNo`) only makes sense if that cursor advances past replicated
mutations. The code never writes it back, so every cursor stays zero for the
replicator's life. So every pass that does not skip a pair calls
`addRepDocMutation` again for each of its due mutations. A pair is skipped
when the replicator is disabled, when the fetch fails or is empty, and when
the source reports a maximum sequence number of zero. Whether a destination
vbucket drops duplicate mutations is up to `addRepDocMutation`. That
function's file is not part of this model, and here it appends. The model
follows the code:

- every pass keeps `maxSeqNos` unchanged (the frame of `CheckVbucketsLocked`);
- `Scenarios.LatencyTimeline` shows the first mutation appended twice;
- `Scenarios.PauseResumeAppendsAgain` shows that `Pause` and then `Resume`,
  with no new mutation and no time passing, append both mutations a second
  time: the destination ends as `[D1, D2, D1, D2]`.

So, as written, cursors are monotone only in the trivial sense that they
never move. A mutation is not replicated exactly once. `Pause` followed by
`Resume` re-appends whatever a pass at that time finds due.

Two more things are kept as written:

- `hasTimerSet` is a field that nothing reads or writes after construction.
  It is the guard that would stop timers stacking up, and nothing uses it:
  every pass that finds an undue mutation calls `AfterFunc` (line 94), and
  no earlier timer is cancelled. One pass arms at most one wake-up, which is
  what the model returns. Across passes, several wake-ups can be pending at
  once: `Signal` at time 0 and again at time 1 leave two callbacks due at
  the same time. The model does not keep the set of pending timers (see
  "Left out").
- `Signal` ignores its vbucket index: its contract does not mention `vbIdx`.

## Model

| member | source | states |
|---|---|---|
| `Vbucket.Within` | mock/store/replicator.go:73 | the range query returns exactly the history's mutations with sequence number in `(lo, hi]`, each taken from the history, no more of them than the history holds; its order is `WithinSubsequence` |
| `Vbucket.WithinSubsequence` | mock/store/replicator.go:73 | the range query's result is a subsequence of the history: history order, no mutation repeated or reordered |
| `Vbucket.WithinAscending` | mock/store/replicator.go:73 | when the history's sequence numbers strictly increase, so do those of the fetched range |
| `Vbucket.GetAllWithin` | mock/store/replicator.go:73-77 | the fetch fails exactly when the snapshot says so; otherwise it yields exactly the mutations in `(lo, hi]` (the result of `Within`, so in history order), in ascending order when the history is |
| `Replication.ReplicationTime` | mock/store/replicator.go:80 | a mutation's replication time is its modification time plus the latency; `WalkMeaning` states what being due at that time means for the walk |
| `Replication.Walk` | mock/store/replicator.go:79-89 | the inner walk over the fetched mutations; its meaning is `WalkMeaning`, whose clauses determine the walk's result uniquely |
| `Replication.WalkMeaning` | mock/store/replicator.go:79-89 | the appended mutations are a prefix of the fetched list and every one is due (`modifiedTime + latency <= now`); a wake candidate exists exactly when the walk stopped early, and it is the replication time of the first mutation not appended, strictly later than `now` |
| `Replication.WalkStep` | mock/store/replicator.go:79-89 | a due mutation at position `k` is appended, and the walk goes on from position `k + 1` |
| `Replication.WalkSplit` | mock/store/replicator.go:79-89 | once the first `k` fetched mutations are all due, the walk appends them and then goes on exactly as a walk started at mutation `k` |
| `Replication.PairOutcome` | mock/store/replicator.go:60-89 | one pair of the pass: the skip at line 69, the fetch and its skip at lines 73-77, then the walk; its meaning is `PairMeaning` |
| `Replication.PairMeaning` | mock/store/replicator.go:60-89 | a caught-up pair (`cursor >= max`) or a failed fetch contributes no appends and no wake candidate; otherwise the appends are a prefix of the fetch of `(cursor, max]`, each from the source's history, each due, and the wake candidate is the first undue fetched mutation's replication time, later than `now` |
| `Replication.EarlierWake` | mock/store/replicator.go:82-84 | folding a candidate into the pending wake time gives one of the two, at most each of them, and `None` only when both are `None` |
| `Replication.EarliestWake` | mock/store/replicator.go:58-84 | the pending wake time after folding every pair's candidate in index order, starting from the zero time (`None`); its meaning is `EarliestWakeMeaning` |
| `Replication.EarliestWakeMeaning` | mock/store/replicator.go:58-90 | after all pairs the pending wake time is `Some` exactly when some pair had a candidate, it is the candidate of one of the pairs, and it is at most every pair's candidate |
| `Replication.EarliestWakeStep` | mock/store/replicator.go:82-84 | folding pair `i` onto the wake time of the pairs before it gives the wake time of the pairs up to `i` |
| `Replication.PassOutcomes` | mock/store/replicator.go:60 | the outcome of every pair of one pass, one per pair in index order, each given by `PairOutcome` on that pair's cursor and source |
| `Replication.AppendOutcomes` | mock/store/replicator.go:60-88 | the destination logs after a pass: each pair's appends at the end of its own log, no other log touched |
| `Replication.ArmedWakeIsEarliestPending` | mock/store/replicator.go:58-99 | an armed wake time is strictly later than `now` and is the minimum over pairs of the first undue fetched mutation's replication time; something is armed exactly when some pair has an undue mutation |
| `Replication.ArmedWakeOrigin` | mock/store/replicator.go:60-99 | an armed wake time belongs to a pair that is not caught up and whose fetch succeeded, and is the replication time of that pair's first fetched mutation not appended |
| `Replication.PairArmed` | mock/store/replicator.go:69-85 | a pair with a wake candidate was not skipped at line 69 or 74; its candidate is later than `now` and is the replication time of its first fetched mutation not appended |
| `Replication.WalkMonotone` | mock/store/replicator.go:79-89 | under a later clock, the mutations appended under an earlier clock are a prefix of those appended now |
| `Replication.WalkStable` | mock/store/replicator.go:79-89 | the walk's result does not change before the clock reaches its wake candidate |
| `Replication.WalkProgress` | mock/store/replicator.go:80-88 | once the clock reaches the wake candidate, the walk appends strictly more mutations |
| `Replication.PairOverTime` | mock/store/replicator.go:60-89 | for one pair under a later clock: earlier appends are a prefix of later ones; the result is unchanged before the wake candidate; strictly more mutations are appended once the candidate is reached |
| `Replication.SingleWakeSuffices` | mock/store/replicator.go:92-99 | between `now` and the armed wake time every pass computes the same appends and the same wake time; once the armed time is reached some pair appends more; no pair appends less under a later clock |
| `Replication.AllDueAllCopied` | mock/store/replicator.go:79-89 | when every mutation of a source is due, its pair arms nothing and, unless it was skipped, appends the whole fetched range |
| `Store.Replicator.Valid` | mock/store/replicator.go:19-41 | one source, one destination and one cursor per pair, as `newReplicator` sets up; every method keeps it |
| `Store.Replicator.Outcomes` | mock/store/replicator.go:60-63 | what each pair contributes to a pass at time `now`, read from the current cursors and source snapshots; the methods' contracts are stated through it |
| `Store.Replicator.constructor` | mock/store/replicator.go:41-49 | one zero cursor per pair, the given vbuckets and latency, `disabled` and `hasTimerSet` both false |
| `Store.NewReplicator` | mock/store/replicator.go:36-50 | construction fails exactly when the source and destination vbucket counts differ; otherwise the replicator is fresh and enabled, with one zero cursor per pair and no timer armed |
| `Store.Replicator.CheckVbucketsLocked` | mock/store/replicator.go:52-100 | when disabled, nothing changes and nothing is armed; otherwise each destination `i` gains exactly pair `i`'s appends and the returned wake time is `EarliestWake` over the pairs; cursors, sources and the gate are unchanged |
| `Store.Replicator.CheckPair` | mock/store/replicator.go:61-89 | only destination `vbIdx` changes: it gains exactly that pair's appends, and the pair's wake candidate is folded into the pending wake time |
| `Store.Replicator.ReplicateDocs` | mock/store/replicator.go:79-89 | destination `vbIdx` gains exactly the walk's appends, and the walk's wake candidate is folded into the pending wake time |
| `Store.Replicator.Pause` | mock/store/replicator.go:102-107 | sets `disabled`; its frame allows no other change, so calling it twice is the same as calling it once |
| `Store.Replicator.Resume` | mock/store/replicator.go:109-116 | clears `disabled`, then runs exactly one pass: each destination gains its pair's appends, and the returned wake time is the earliest candidate |
| `Store.Replicator.Signal` | mock/store/replicator.go:118-123 | runs one pass, with the same result as `CheckVbucketsLocked`; the contract does not depend on `vbIdx` |
| `Store.Replicator.TimerFired` | mock/store/replicator.go:94-98 | the armed callback reruns the pass; a disabled replicator does nothing when it fires |
| `Scenarios.PauseResumeAppendsAgain` | mock/store/replicator.go:102-116 | after one pass at time 10, `Pause` and `Resume` at the same time append both mutations again, because the cursor is still zero |
| `Scenarios.TwoDocsPasses` | mock/store/replicator.go:79-99 | for one pair with latency 5 and mutations modified at times 0 and 3: nothing is due at time 0 and the wake-up is at 5; the first mutation is due at 5 and the next wake-up is at 8; both are due at 8 and nothing is armed |

## Left out

- Locking (`sync.Mutex`, lines 23, 95-96, 103-104, 110-111, 119-120): each public operation is one atomic step.
- Asynchronous timer firing: a pass returns the wake time it arms. `TimerFired` is the callback, and the clock deciding when to call it is not modelled. Nor is the set of timers pending across passes: as written they stack up, since `hasTimerSet` is never consulted.
- The `chrono` field and the virtual clock's internals (`mocktime.Chrono`): `Now` is the parameter `now`. The source reads `Now` a second time at line 93 to compute the `AfterFunc` delay. Such a timer is due at the wake time itself, so the model returns that absolute time instead of a delay.
- `Vbucket` internals (`MaxSeqNo`, `GetAllWithin`, `addRepDocMutation`): the vbucket's source file is not part of this model. `MaxSeqNo` is a field of the source snapshot. `GetAllWithin` fails when the snapshot's flag says so, and otherwise filters the history by sequence number. `addRepDocMutation` appends to the destination's log.
- Aliasing between vbuckets (one vbucket used both as a source and a destination): sources and destinations are separate values.
- Go's `time.Time` and `time.Duration`: these are integers. The zero-time sentinel is `None`, so a replication time equal to Go's zero time, which the source would mistake for "no wake-up", is not modelled.
- `uint64` cursors: they are `nat`. The code never changes them, so wrap-around does not arise.
- Document fields other than the sequence number and modification time: the replicator forwards them unchanged.
- `mock/http.go` (`PeekBody` on HTTP requests and responses): I/O plumbing over `io.Reader` with no replication logic.
