/** The replicator of the mock store: it copies document mutations from a
    list of source vbuckets into the paired destination vbuckets once the
    virtual clock has passed each mutation's modification time plus a fixed
    latency.  Locking is left out: each public operation is one atomic step.
    The virtual clock is a parameter `now`, and the timer a pass would arm
    with `AfterFunc` is returned as the absolute time it is due. */
module Store {
  import opened Wrappers
  import opened Vbucket
  import opened Replication

  /** The construction parameters of a replicator. */
  datatype Config = Config(srcVbuckets: seq<SrcVbucket>, dstVbuckets: seq<seq<Doc>>, latency: int)

  class Replicator {
    /** The source vbuckets, as the next pass will observe them.  Writes to a
        source vbucket are modelled by a client assigning this field. */
    var srcVbuckets: seq<SrcVbucket>
    /** The replicated mutations of each destination vbucket, in append order. */
    var dstVbuckets: seq<seq<Doc>>
    const latency: int

    var disabled: bool
    /** Declared by the source and never read or written after construction. */
    var hasTimerSet: bool
    /** The per-pair cursors.  As written, a pass reads them and never
        advances them, so they stay zero for the replicator's whole life. */
    var maxSeqNos: seq<nat>

    /** One source, one destination and one cursor per pair. */
    ghost predicate Valid()
      reads this`srcVbuckets, this`dstVbuckets, this`maxSeqNos
    {
      |srcVbuckets| == |dstVbuckets| == |maxSeqNos|
    }

    /** What each pair contributes to a pass run at virtual time `now`. */
    ghost function Outcomes(now: int): seq<PairResult>
      reads this`srcVbuckets, this`maxSeqNos
      requires |maxSeqNos| == |srcVbuckets|
    {
      PassOutcomes(maxSeqNos, srcVbuckets, latency, now)
    }

    /** The struct literal of `newReplicator`, once the counts are known to match. */
    constructor (config: Config)
      requires |config.srcVbuckets| == |config.dstVbuckets|
      ensures Valid()
      ensures srcVbuckets == config.srcVbuckets && dstVbuckets == config.dstVbuckets && latency == config.latency
      ensures |maxSeqNos| == |config.srcVbuckets| && forall i :: 0 <= i < |maxSeqNos| ==> maxSeqNos[i] == 0
      ensures !disabled && !hasTimerSet
    {
      srcVbuckets := config.srcVbuckets;
      dstVbuckets := config.dstVbuckets;
      latency := config.latency;
      maxSeqNos := seq(|config.srcVbuckets|, _ => 0);
      disabled := false;
      hasTimerSet := false;
    }

    /** One check pass.  A disabled replicator does nothing.  Otherwise every
        pair is visited in index order and its due mutations are appended to
        its own destination; the result is the wake time the pass arms, the
        earliest replication time among the pairs' first mutations not yet
        due, or `None` when no pair has such a mutation. */
    method CheckVbucketsLocked(now: int) returns (wake: Option<int>)
      requires Valid()
      modifies this`dstVbuckets
      ensures Valid()
      ensures |dstVbuckets| == |old(dstVbuckets)|
      ensures maxSeqNos == old(maxSeqNos) && srcVbuckets == old(srcVbuckets) && disabled == old(disabled)
      ensures old(disabled) ==> dstVbuckets == old(dstVbuckets) && wake == None
      ensures !old(disabled) ==>
        && dstVbuckets == AppendOutcomes(old(dstVbuckets), Outcomes(now))
        && wake == EarliestWake(Outcomes(now))
    {
      if disabled {
        return None;
      }

      ghost var outs := Outcomes(now);
      var curTime := now;
      var nextReplicateWake: Option<int> := None;

      for vbIdx := 0 to |srcVbuckets|
        invariant |dstVbuckets| == |old(dstVbuckets)|
        invariant forall i :: 0 <= i < vbIdx ==> dstVbuckets[i] == old(dstVbuckets[i]) + outs[i].appended
        invariant forall i :: vbIdx <= i < |dstVbuckets| ==> dstVbuckets[i] == old(dstVbuckets[i])
        invariant nextReplicateWake == EarliestWake(outs[..vbIdx])
      {
        EarliestWakeStep(outs, vbIdx);
        nextReplicateWake := CheckPair(vbIdx, curTime, nextReplicateWake);
      }
      assert outs[..|srcVbuckets|] == outs;
      assert dstVbuckets == AppendOutcomes(old(dstVbuckets), outs);

      // The source arms `AfterFunc(nextReplicateWake - Now())`, which is due
      // at `nextReplicateWake` itself; at most one timer is armed per pass.
      if nextReplicateWake.Some? {
        wake := nextReplicateWake;
      } else {
        wake := None;
      }
    }

    /** `Pause`: disable the replicator; nothing else changes.  An armed
        timer is not cancelled, but its pass will do nothing. */
    method Pause()
      modifies this`disabled
      ensures disabled
    {
      disabled := true;
    }

    /** `Resume`: enable the replicator and run one pass at once. */
    method Resume(now: int) returns (wake: Option<int>)
      requires Valid()
      modifies this`disabled, this`dstVbuckets
      ensures Valid() && !disabled
      ensures |dstVbuckets| == |old(dstVbuckets)|
      ensures dstVbuckets == AppendOutcomes(old(dstVbuckets), Outcomes(now))
      ensures wake == EarliestWake(Outcomes(now))
    {
      disabled := false;
      wake := CheckVbucketsLocked(now);
    }

    /** `Signal`: run one pass.  The vbucket index is ignored, as in the
        source: the pass visits every pair, and nothing in the contract
        depends on `vbIdx`. */
    method Signal(vbIdx: nat, now: int) returns (wake: Option<int>)
      requires Valid()
      modifies this`dstVbuckets
      ensures Valid()
      ensures |dstVbuckets| == |old(dstVbuckets)|
      ensures disabled ==> dstVbuckets == old(dstVbuckets) && wake == None
      ensures !disabled ==>
        && dstVbuckets == AppendOutcomes(old(dstVbuckets), Outcomes(now))
        && wake == EarliestWake(Outcomes(now))
    {
      wake := CheckVbucketsLocked(now);
    }

    /** The callback armed with `AfterFunc`: when the clock reaches the wake
        time it reruns the pass. */
    method TimerFired(now: int) returns (wake: Option<int>)
      requires Valid()
      modifies this`dstVbuckets
      ensures Valid()
      ensures |dstVbuckets| == |old(dstVbuckets)|
      ensures disabled ==> dstVbuckets == old(dstVbuckets) && wake == None
      ensures !disabled ==>
        && dstVbuckets == AppendOutcomes(old(dstVbuckets), Outcomes(now))
        && wake == EarliestWake(Outcomes(now))
    {
      wake := CheckVbucketsLocked(now);
    }

    /** One iteration of the pass's loop over pairs: skip pair `vbIdx` when
        its cursor has caught up or its fetch fails or is empty, otherwise
        walk the fetched mutations. */
    method CheckPair(vbIdx: nat, curTime: int, pending: Option<int>) returns (next: Option<int>)
      requires Valid() && vbIdx < |srcVbuckets|
      modifies this`dstVbuckets
      ensures var out := PairOutcome(maxSeqNos[vbIdx], srcVbuckets[vbIdx], latency, curTime);
        && dstVbuckets == old(dstVbuckets)[vbIdx := old(dstVbuckets[vbIdx]) + out.appended]
        && next == EarlierWake(pending, out.wake)
    {
      var srcVbucket := srcVbuckets[vbIdx];
      // The cursor is only read: nothing below writes it back, so later
      // passes fetch (and may append) the same mutations again.
      var replicatedSeqNo := maxSeqNos[vbIdx];
      assert dstVbuckets[vbIdx] + [] == dstVbuckets[vbIdx];
      assert dstVbuckets[vbIdx := dstVbuckets[vbIdx]] == dstVbuckets;

      // Grab the maximum sequence number for this vbucket.
      var srcMaxSeqNo := srcVbucket.maxSeqNo;

      // A pair whose cursor has caught up is skipped.
      if replicatedSeqNo >= srcMaxSeqNo {
        return pending;
      }

      // A failed or empty fetch skips the pair too.
      var fetched := GetAllWithin(srcVbucket, replicatedSeqNo, srcMaxSeqNo);
      if fetched.Failure? || |fetched.value| == 0 {
        return pending;
      }

      next := ReplicateDocs(vbIdx, fetched.value, curTime, pending);
    }

    /** The walk over one pair's fetched mutations: append each mutation
        whose replication time has come to destination `vbIdx`, in fetched
        order, and stop at the first one whose time has not come, folding its
        replication time into the pending wake time. */
    method ReplicateDocs(vbIdx: nat, docs: seq<Doc>, curTime: int, pending: Option<int>) returns (next: Option<int>)
      requires vbIdx < |dstVbuckets|
      modifies this`dstVbuckets
      ensures dstVbuckets == old(dstVbuckets)[vbIdx := old(dstVbuckets[vbIdx]) + Walk(docs, latency, curTime).appended]
      ensures next == EarlierWake(pending, Walk(docs, latency, curTime).wake)
    {
      next := pending;
      var k := 0;
      assert old(dstVbuckets[vbIdx]) + docs[..0] == old(dstVbuckets[vbIdx]);
      while k < |docs|
        invariant 0 <= k <= |docs|
        invariant dstVbuckets == old(dstVbuckets)[vbIdx := old(dstVbuckets[vbIdx]) + docs[..k]]
        invariant forall j :: 0 <= j < k ==> ReplicationTime(docs[j], latency) <= curTime
        invariant next == pending
      {
        var doc := docs[k];
        var replicationTime := ReplicationTime(doc, latency);
        if curTime < replicationTime {
          if next.None? || replicationTime < next.value {
            next := Some(replicationTime);
          }
          WalkSplit(docs, latency, curTime, k);
          assert docs[k..][0] == doc;
          assert Walk(docs[k..], latency, curTime) == PairResult([], Some(replicationTime));
          assert docs[..k] + [] == docs[..k];
          return;
        }
        assert old(dstVbuckets[vbIdx]) + docs[..k + 1] == old(dstVbuckets[vbIdx]) + docs[..k] + [doc];
        dstVbuckets := dstVbuckets[vbIdx := dstVbuckets[vbIdx] + [doc]];
        k := k + 1;
      }
      WalkSplit(docs, latency, curTime, k);
      assert docs[k..] == [] && docs[..k] + [] == docs[..k];
    }
  }

  /** `newReplicator`: fails exactly when the source and destination vbucket
      counts differ; otherwise a fresh, enabled replicator whose cursors are
      all zero, one per pair. */
  method NewReplicator(config: Config) returns (r: Result<Replicator, string>)
    ensures r.Failure? <==> |config.srcVbuckets| != |config.dstVbuckets|
    ensures r.Success? ==>
      && fresh(r.value) && r.value.Valid()
      && r.value.srcVbuckets == config.srcVbuckets && r.value.dstVbuckets == config.dstVbuckets
      && r.value.latency == config.latency
      && |r.value.maxSeqNos| == |config.srcVbuckets|
      && (forall i :: 0 <= i < |config.srcVbuckets| ==> r.value.maxSeqNos[i] == 0)
      && !r.value.disabled && !r.value.hasTimerSet
  {
    if |config.srcVbuckets| != |config.dstVbuckets| {
      return Failure("vbucket counts must match");
    }
    var rep := new Replicator(config);
    return Success(rep);
  }
}
