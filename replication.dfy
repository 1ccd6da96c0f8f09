/** What one check pass of the replicator computes, stated as functions of
    the pass's inputs: the per-pair cursors, the source vbucket snapshots,
    the replication latency and the virtual time `now`.  The class in
    replicator.dfy is proved to do exactly this. */
module Replication {
  import opened Wrappers
  import opened Vbucket

  /** The earliest virtual time at which `d` may be copied. */
  function ReplicationTime(d: Doc, latency: int): int
  {
    d.modifiedTime + latency
  }

  /** What one pair contributes to a pass: the mutations appended to its
      destination, in order, and the replication time of the first mutation
      that was not yet due, if any. */
  datatype PairResult = PairResult(appended: seq<Doc>, wake: Option<int>)

  /** The contribution of a pair that is skipped. */
  const Idle := PairResult([], None)

  /** The inner walk over the fetched mutations: copy each one whose
      replication time has come, and stop at the first one whose time has not
      come, remembering that time.  What this means is `WalkMeaning`. */
  function Walk(docs: seq<Doc>, latency: int, now: int): PairResult
  {
    if docs == [] then Idle
    else if now < ReplicationTime(docs[0], latency) then PairResult([], Some(ReplicationTime(docs[0], latency)))
    else
      var rest := Walk(docs[1..], latency, now);
      PairResult([docs[0]] + rest.appended, rest.wake)
  }

  /** The walk copies a prefix of the fetched mutations, every one of them
      due; it stops early exactly when it records a wake time, and that time
      is the replication time of the first mutation it did not copy, which is
      strictly later than `now`. */
  lemma {:induction false} WalkMeaning(docs: seq<Doc>, latency: int, now: int)
    ensures var r := Walk(docs, latency, now);
      && |r.appended| <= |docs| && r.appended == docs[..|r.appended|]
      && (forall k :: 0 <= k < |r.appended| ==> ReplicationTime(r.appended[k], latency) <= now)
      && (r.wake.Some? <==> |r.appended| < |docs|)
      && (r.wake.Some? ==> r.wake.value == ReplicationTime(docs[|r.appended|], latency) && now < r.wake.value)
  {
    if docs != [] && ReplicationTime(docs[0], latency) <= now {
      var rest := Walk(docs[1..], latency, now);
      WalkMeaning(docs[1..], latency, now);
      assert docs[1..][..|rest.appended|] == docs[1..|rest.appended| + 1];
      assert [docs[0]] + docs[1..|rest.appended| + 1] == docs[..|rest.appended| + 1];
      var r := Walk(docs, latency, now);
      forall k | 0 <= k < |r.appended| ensures ReplicationTime(r.appended[k], latency) <= now {
        if k > 0 {
          assert r.appended[k] == rest.appended[k - 1];
        }
      }
    }
  }

  /** One pair of the pass: skip it when its cursor has caught up with the
      source's maximum sequence number, or when the fetch of `(cursor, max]`
      fails or is empty; otherwise walk the fetched mutations.  What this
      means is `PairMeaning`. */
  function PairOutcome(cursor: nat, v: SrcVbucket, latency: int, now: int): PairResult
  {
    if cursor >= v.maxSeqNo then Idle
    else
      match GetAllWithin(v, cursor, v.maxSeqNo)
      case Failure(_) => Idle
      case Success(docs) => if |docs| == 0 then Idle else Walk(docs, latency, now)
  }

  /** A caught-up pair or a failed fetch contributes nothing.  Otherwise the
      pair appends a prefix of the fetch of `(cursor, max]`, every appended
      mutation comes from the source's history within that range and is due,
      and the wake candidate, strictly later than `now`, is the replication
      time of the first fetched mutation not appended. */
  lemma PairMeaning(cursor: nat, v: SrcVbucket, latency: int, now: int)
    ensures var r := PairOutcome(cursor, v, latency, now);
      && (cursor >= v.maxSeqNo ==> r == Idle)
      && (v.fetchFails ==> r == Idle)
      && (forall k :: 0 <= k < |r.appended| ==>
            r.appended[k] in v.history && cursor < r.appended[k].seqNo <= v.maxSeqNo)
      && (forall k :: 0 <= k < |r.appended| ==> ReplicationTime(r.appended[k], latency) <= now)
      && (r.wake.Some? ==> now < r.wake.value)
      && (cursor < v.maxSeqNo && !v.fetchFails ==>
            var fetched := GetAllWithin(v, cursor, v.maxSeqNo).value;
            && r.appended <= fetched
            && (r.wake.Some? <==> |r.appended| < |fetched|)
            && (r.wake.Some? ==> r.wake.value == ReplicationTime(fetched[|r.appended|], latency)))
  {
    if cursor < v.maxSeqNo && !v.fetchFails {
      var fetched := GetAllWithin(v, cursor, v.maxSeqNo).value;
      WalkMeaning(fetched, latency, now);
      var r := PairOutcome(cursor, v, latency, now);
      forall k | 0 <= k < |r.appended|
        ensures r.appended[k] in v.history && cursor < r.appended[k].seqNo <= v.maxSeqNo
      {
        assert r.appended[k] == fetched[k];
      }
    }
  }

  /** Folding one candidate into the pending wake time: the candidate wins
      when nothing is pending yet or when it is strictly earlier. */
  function EarlierWake(pending: Option<int>, candidate: Option<int>): (r: Option<int>)
    ensures r.Some? <==> pending.Some? || candidate.Some?
    ensures r == pending || r == candidate
    ensures pending.Some? ==> r.value <= pending.value
    ensures candidate.Some? ==> r.value <= candidate.value
  {
    if candidate.None? then pending
    else if pending.None? || candidate.value < pending.value then candidate
    else pending
  }

  /** The wake time left after folding the pairs' candidates in index
      order.  What this means is `EarliestWakeMeaning`. */
  function EarliestWake(outs: seq<PairResult>): Option<int>
  {
    if outs == [] then None
    else EarlierWake(EarliestWake(outs[..|outs| - 1]), outs[|outs| - 1].wake)
  }

  /** The folded wake time is `Some` exactly when some pair has a candidate;
      it is then the candidate of one of the pairs and no later than any
      pair's candidate. */
  lemma {:induction false} EarliestWakeMeaning(outs: seq<PairResult>)
    ensures var r := EarliestWake(outs);
      && (r.Some? <==> exists i :: 0 <= i < |outs| && outs[i].wake.Some?)
      && (r.Some? ==> exists i :: 0 <= i < |outs| && outs[i].wake == r)
      && (forall i :: 0 <= i < |outs| && outs[i].wake.Some? ==> r.Some? && r.value <= outs[i].wake.value)
  {
    if outs != [] {
      var n := |outs| - 1;
      EarliestWakeMeaning(outs[..n]);
      assert forall i :: 0 <= i < n ==> outs[..n][i] == outs[i];
    }
  }

  /** Folding one more pair into the wake time of the pairs before it. */
  lemma EarliestWakeStep(outs: seq<PairResult>, i: nat)
    requires i < |outs|
    ensures EarliestWake(outs[..i + 1]) == EarlierWake(EarliestWake(outs[..i]), outs[i].wake)
  {
    assert outs[..i + 1][..i] == outs[..i];
  }

  /** Every pair's contribution to a pass. */
  function PassOutcomes(cursors: seq<nat>, srcs: seq<SrcVbucket>, latency: int, now: int): (outs: seq<PairResult>)
    requires |cursors| == |srcs|
  {
    seq(|srcs|, i requires 0 <= i < |srcs| => PairOutcome(cursors[i], srcs[i], latency, now))
  }

  /** A due mutation at position `k` is copied, and the walk goes on from
      position `k + 1`. */
  lemma WalkStep(docs: seq<Doc>, latency: int, now: int, k: nat)
    requires k < |docs| && ReplicationTime(docs[k], latency) <= now
    ensures Walk(docs[k..], latency, now) ==
      PairResult([docs[k]] + Walk(docs[k + 1..], latency, now).appended, Walk(docs[k + 1..], latency, now).wake)
  {
  }

  /** When the first `k` fetched mutations are all due, the walk copies
      them and then carries on as it would from the `k`-th mutation. */
  lemma {:induction false} WalkSplit(docs: seq<Doc>, latency: int, now: int, k: nat)
    requires k <= |docs|
    requires forall j :: 0 <= j < k ==> ReplicationTime(docs[j], latency) <= now
    ensures Walk(docs, latency, now).appended == docs[..k] + Walk(docs[k..], latency, now).appended
    ensures Walk(docs, latency, now).wake == Walk(docs[k..], latency, now).wake
  {
    if k == 0 {
      assert docs[..0] == [] && docs[0..] == docs;
    } else {
      WalkSplit(docs, latency, now, k - 1);
      WalkStep(docs, latency, now, k - 1);
      assert docs[..k] == docs[..k - 1] + [docs[k - 1]];
    }
  }

  /** The destination logs after a pass: each pair's appended mutations at
      the end of that pair's own log, and no other change. */
  function AppendOutcomes(logs: seq<seq<Doc>>, outs: seq<PairResult>): seq<seq<Doc>>
    requires |logs| == |outs|
  {
    seq(|logs|, i requires 0 <= i < |logs| => logs[i] + outs[i].appended)
  }

  /** A later clock copies at least what an earlier clock copies, in the same
      order: the walk's prefix only grows with time. */
  lemma {:induction false} WalkMonotone(docs: seq<Doc>, latency: int, now1: int, now2: int)
    requires now1 <= now2
    ensures Walk(docs, latency, now1).appended <= Walk(docs, latency, now2).appended
  {
    if docs != [] && ReplicationTime(docs[0], latency) <= now1 {
      WalkMonotone(docs[1..], latency, now1, now2);
    }
  }

  /** Until the clock reaches the recorded wake time nothing about the walk
      changes, so no pass in between has anything new to do. */
  lemma {:induction false} WalkStable(docs: seq<Doc>, latency: int, now1: int, now2: int)
    requires now1 <= now2
    requires var w := Walk(docs, latency, now1).wake; w.None? || now2 < w.value
    ensures Walk(docs, latency, now2) == Walk(docs, latency, now1)
  {
    if docs != [] && ReplicationTime(docs[0], latency) <= now1 {
      WalkStable(docs[1..], latency, now1, now2);
    }
  }

  /** Once the clock reaches the recorded wake time, the walk copies at least
      one more mutation: the wake-up is never spurious. */
  lemma WalkProgress(docs: seq<Doc>, latency: int, now1: int, now2: int)
    requires Walk(docs, latency, now1).wake.Some?
    requires Walk(docs, latency, now1).wake.value <= now2
    ensures |Walk(docs, latency, now1).appended| < |Walk(docs, latency, now2).appended|
  {
    WalkMeaning(docs, latency, now1);
    WalkMeaning(docs, latency, now2);
    WalkMonotone(docs, latency, now1, now2);
  }

  /** A pass arms its wake-up strictly after `now`, at the earliest of the
      pairs' first not-yet-due replication times; with no such mutation
      nothing is armed.  `ArmedWakeOrigin` says which pair it comes from. */
  lemma ArmedWakeIsEarliestPending(cursors: seq<nat>, srcs: seq<SrcVbucket>, latency: int, now: int)
    requires |cursors| == |srcs|
    ensures var outs := PassOutcomes(cursors, srcs, latency, now);
      var w := EarliestWake(outs);
      && (w.Some? <==> exists i :: 0 <= i < |srcs| && outs[i].wake.Some?)
      && (w.Some? ==> now < w.value)
      && (forall i :: 0 <= i < |srcs| && outs[i].wake.Some? ==> w.Some? && w.value <= outs[i].wake.value)
  {
    var outs := PassOutcomes(cursors, srcs, latency, now);
    var w := EarliestWake(outs);
    EarliestWakeMeaning(outs);
    if w.Some? {
      var i :| 0 <= i < |outs| && outs[i].wake == w;
      PairMeaning(cursors[i], srcs[i], latency, now);
    }
  }

  /** The armed wake time belongs to a pair that is not caught up and whose
      fetch succeeded: it is the replication time of that pair's first
      fetched mutation not appended. */
  lemma ArmedWakeOrigin(cursors: seq<nat>, srcs: seq<SrcVbucket>, latency: int, now: int)
    requires |cursors| == |srcs|
    ensures var outs := PassOutcomes(cursors, srcs, latency, now);
      var w := EarliestWake(outs);
      w.Some? ==> exists i ::
        && 0 <= i < |srcs| && cursors[i] < srcs[i].maxSeqNo && !srcs[i].fetchFails
        && var fetched := GetAllWithin(srcs[i], cursors[i], srcs[i].maxSeqNo).value;
           |outs[i].appended| < |fetched| && w.value == ReplicationTime(fetched[|outs[i].appended|], latency)
  {
    var outs := PassOutcomes(cursors, srcs, latency, now);
    var w := EarliestWake(outs);
    EarliestWakeMeaning(outs);
    if w.Some? {
      var i :| 0 <= i < |outs| && outs[i].wake == w;
      assert outs[i] == PairOutcome(cursors[i], srcs[i], latency, now);
      PairArmed(cursors[i], srcs[i], latency, now);
      var fetched := GetAllWithin(srcs[i], cursors[i], srcs[i].maxSeqNo).value;
      assert |outs[i].appended| < |fetched| && w.value == ReplicationTime(fetched[|outs[i].appended|], latency);
    }
  }

  /** A pair with a wake candidate was not skipped, and its candidate is
      the replication time of its first fetched mutation not appended. */
  lemma PairArmed(cursor: nat, v: SrcVbucket, latency: int, now: int)
    requires PairOutcome(cursor, v, latency, now).wake.Some?
    ensures var r := PairOutcome(cursor, v, latency, now);
      && now < r.wake.value
      && cursor < v.maxSeqNo && !v.fetchFails
      && var fetched := GetAllWithin(v, cursor, v.maxSeqNo).value;
         |r.appended| < |fetched| && r.wake.value == ReplicationTime(fetched[|r.appended|], latency)
  {
    PairMeaning(cursor, v, latency, now);
  }

  /** The same pair under a later clock: what was appended before is a prefix
      of what is appended now, nothing changes before the pair's wake time,
      and something more is appended once it is reached. */
  lemma PairOverTime(cursor: nat, v: SrcVbucket, latency: int, now1: int, now2: int)
    requires now1 <= now2
    ensures var r1, r2 := PairOutcome(cursor, v, latency, now1), PairOutcome(cursor, v, latency, now2);
      && r1.appended <= r2.appended
      && (r1.wake.None? || now2 < r1.wake.value ==> r2 == r1)
      && (r1.wake.Some? && r1.wake.value <= now2 ==> |r1.appended| < |r2.appended|)
  {
    if cursor < v.maxSeqNo && !v.fetchFails {
      var docs := GetAllWithin(v, cursor, v.maxSeqNo).value;
      if |docs| > 0 {
        WalkMeaning(docs, latency, now1);
        WalkMonotone(docs, latency, now1, now2);
        var w := Walk(docs, latency, now1).wake;
        if w.None? || now2 < w.value {
          WalkStable(docs, latency, now1, now2);
        } else {
          WalkProgress(docs, latency, now1, now2);
        }
      }
    }
  }

  /** One armed wake-up is enough.  Between `now1` and the armed time every
      pass computes the same appends and the same wake time; once the clock
      reaches the armed time some pair appends more than before; and no pair
      ever appends less under a later clock. */
  lemma SingleWakeSuffices(cursors: seq<nat>, srcs: seq<SrcVbucket>, latency: int, now1: int, now2: int)
    requires |cursors| == |srcs|
    requires now1 <= now2
    ensures var outs1, outs2 := PassOutcomes(cursors, srcs, latency, now1), PassOutcomes(cursors, srcs, latency, now2);
      var w := EarliestWake(outs1);
      && (forall i :: 0 <= i < |srcs| ==> outs1[i].appended <= outs2[i].appended)
      && (w.None? || now2 < w.value ==> outs2 == outs1)
      && (w.Some? && w.value <= now2 ==> exists i :: 0 <= i < |srcs| && |outs1[i].appended| < |outs2[i].appended|)
  {
    var outs1, outs2 := PassOutcomes(cursors, srcs, latency, now1), PassOutcomes(cursors, srcs, latency, now2);
    var w := EarliestWake(outs1);
    EarliestWakeMeaning(outs1);
    forall i | 0 <= i < |srcs|
      ensures outs1[i].appended <= outs2[i].appended
      ensures w.None? || now2 < w.value ==> outs2[i] == outs1[i]
    {
      PairOverTime(cursors[i], srcs[i], latency, now1, now2);
    }
    if w.Some? && w.value <= now2 {
      var i :| 0 <= i < |outs1| && outs1[i].wake == w;
      PairOverTime(cursors[i], srcs[i], latency, now1, now2);
    }
  }

  /** When every mutation of a source is already due, its pair arms nothing
      and, unless it was skipped, copies the whole fetched range. */
  lemma AllDueAllCopied(cursor: nat, v: SrcVbucket, latency: int, now: int)
    requires forall d :: d in v.history ==> ReplicationTime(d, latency) <= now
    ensures PairOutcome(cursor, v, latency, now).wake.None?
    ensures cursor < v.maxSeqNo && !v.fetchFails ==>
      PairOutcome(cursor, v, latency, now).appended == GetAllWithin(v, cursor, v.maxSeqNo).value
  {
    var r := PairOutcome(cursor, v, latency, now);
    PairMeaning(cursor, v, latency, now);
    if r.wake.Some? {
      assert false;
    }
  }
}
