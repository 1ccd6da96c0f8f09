/** Client code that drives a replicator through a latency timeline, a
    vbucket count mismatch, pause and resume, and a failed fetch, using
    nothing but the contracts of its operations. */
module Scenarios {
  import opened Wrappers
  import opened Vbucket
  import opened Replication
  import opened Store

  const D1 := Doc(1, 0)
  const D2 := Doc(2, 3)
  /** A source vbucket holding two mutations, modified at times 0 and 3. */
  const TwoDocs := SrcVbucket(2, [D1, D2], false)
  /** The same vbucket on a pass whose range fetch fails. */
  const FailingDocs := TwoDocs.(fetchFails := true)

  /** The passes over `TwoDocs` with latency 5 and the cursor at zero. */
  lemma TwoDocsPasses()
    ensures PassOutcomes([0], [TwoDocs], 5, 0) == [PairResult([], Some(5))]
    ensures PassOutcomes([0], [TwoDocs], 5, 5) == [PairResult([D1], Some(8))]
    ensures PassOutcomes([0], [TwoDocs], 5, 8) == [PairResult([D1, D2], None)]
    ensures PassOutcomes([0], [TwoDocs], 5, 10) == [PairResult([D1, D2], None)]
    ensures EarliestWake([PairResult([], Some(5))]) == Some(5)
    ensures EarliestWake([PairResult([D1], Some(8))]) == Some(8)
    ensures EarliestWake([PairResult([D1, D2], None)]) == None
  {
    assert Within([D2], 0, 2) == [D2];
    assert Within([D1, D2], 0, 2) == [D1, D2];
    assert Walk([D1, D2], 5, 0) == PairResult([], Some(5));
    assert Walk([D2], 5, 5) == PairResult([], Some(8));
    assert Walk([D1, D2], 5, 5) == PairResult([D1], Some(8));
    assert Walk([D2], 5, 8) == PairResult([D2], None);
    assert Walk([D1, D2], 5, 8) == PairResult([D1, D2], None);
    assert Walk([D2], 5, 10) == PairResult([D2], None);
    assert Walk([D1, D2], 5, 10) == PairResult([D1, D2], None);
  }

  /** With a single pair, a pass appends that pair's mutations to its log. */
  lemma AppendSingle(log: seq<Doc>, out: PairResult, after: seq<Doc>)
    requires log + out.appended == after
    ensures AppendOutcomes([log], [out]) == [after]
  {
  }

  /** A fresh replicator over `TwoDocs`, latency 5, empty destination. */
  method NewTwoDocsReplicator() returns (r: Replicator)
    ensures fresh(r) && r.Valid() && !r.disabled
    ensures r.srcVbuckets == [TwoDocs] && r.dstVbuckets == [[]] && r.maxSeqNos == [0] && r.latency == 5
  {
    var res := NewReplicator(Config([TwoDocs], [[]], 5));
    r := res.value;
    assert r.maxSeqNos == [0];
  }

  /** At time 10 both mutations of `TwoDocs` are due: a pass copies both
      and arms nothing. */
  lemma TwoDocsAt10(r: Replicator)
    requires r.srcVbuckets == [TwoDocs] && r.maxSeqNos == [0] && r.latency == 5
    ensures r.Outcomes(10) == [PairResult([D1, D2], None)]
    ensures EarliestWake(r.Outcomes(10)) == None
  {
    TwoDocsPasses();
  }

  /** A pass over `FailingDocs` skips the pair: nothing copied or armed. */
  lemma FailingAt10(r: Replicator)
    requires r.srcVbuckets == [FailingDocs] && r.maxSeqNos == [0] && r.latency == 5
    ensures r.Outcomes(10) == [Idle]
    ensures EarliestWake(r.Outcomes(10)) == None
  {
  }

  /** One pair, latency 5: the timer-driven timeline. */
  method LatencyTimeline() {
    TwoDocsPasses();
    var res := NewReplicator(Config([TwoDocs], [[]], 5));
    var r := res.value;
    assert r.maxSeqNos == [0];

    // At time 0 neither mutation is due; the wake-up is armed for time 5.
    var w := r.Signal(0, 0);
    AppendSingle([], PairResult([], Some(5)), []);
    assert r.dstVbuckets == [[]] && w == Some(5);

    // At time 5 the first mutation is copied and the next wake-up is at 8.
    w := r.TimerFired(5);
    AppendSingle([], PairResult([D1], Some(8)), [D1]);
    assert r.dstVbuckets == [[D1]] && w == Some(8);

    // At time 8 the cursor is still zero, so the first mutation is copied
    // again together with the second, and nothing is left to wake up for.
    w := r.TimerFired(8);
    AppendSingle([D1], PairResult([D1, D2], None), [D1, D1, D2]);
    assert r.dstVbuckets == [[D1, D1, D2]] && w == None;
  }

  /** Pausing and resuming with no new mutation and no time passing still
      appends everything due a second time: resuming runs a pass, and the
      cursor it reads is still zero. */
  method PauseResumeAppendsAgain() {
    var r := NewTwoDocsReplicator();
    var w := r.Signal(0, 10);
    assert r.dstVbuckets == [[D1, D2]] by {
      TwoDocsAt10(r);
      AppendSingle([], PairResult([D1, D2], None), [D1, D2]);
    }
    r.Pause();
    w := r.Resume(10);
    assert r.dstVbuckets == [[D1, D2, D1, D2]] && w == None by {
      TwoDocsAt10(r);
      AppendSingle([D1, D2], PairResult([D1, D2], None), [D1, D2, D1, D2]);
    }
  }

  /** Two source vbuckets and one destination: construction fails. */
  method MismatchedCounts() {
    var res := NewReplicator(Config([TwoDocs, TwoDocs], [[]], 5));
    assert res.Failure?;
  }

  /** A paused replicator ignores signals and timers; resuming catches up on
      everything that became due in the meantime, in sequence order. */
  method PauseThenResume() {
    var r := NewTwoDocsReplicator();
    r.Pause();
    var w := r.TimerFired(10);
    assert r.dstVbuckets == [[]] && w == None;
    w := r.Resume(10);
    assert r.dstVbuckets == [[D1, D2]] && w == None by {
      TwoDocsAt10(r);
      AppendSingle([], PairResult([D1, D2], None), [D1, D2]);
    }
  }

  /** A failed fetch skips the pair without moving its cursor; once the
      fetch succeeds the next signal copies everything from the same
      position. */
  method FailedFetchLosesNothing() {
    var r := NewTwoDocsReplicator();
    // The range fetch fails on the first pass.
    r.srcVbuckets := [FailingDocs];
    var w := r.Signal(0, 10);
    assert r.dstVbuckets == [[]] && w == None by {
      FailingAt10(r);
      AppendSingle([], Idle, []);
    }
    r.srcVbuckets := [TwoDocs];
    w := r.Signal(0, 10);
    assert r.dstVbuckets == [[D1, D2]] && w == None by {
      TwoDocsAt10(r);
      AppendSingle([], PairResult([D1, D2], None), [D1, D2]);
    }
  }
}
