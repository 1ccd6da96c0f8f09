/** The part of a vbucket that the replicator sees.  A vbucket is an ordered
    shard of document mutations; the replicator reads a source vbucket's
    maximum sequence number and the mutations inside a sequence-number range,
    and appends replicated mutations to a destination vbucket.  The vbucket
    itself is not part of this model: its state is given here as a value. */
module Vbucket {
  import opened Wrappers

  /** A document mutation: its sequence number in the source vbucket and the
      virtual time at which it was modified.  The document's other fields are
      forwarded unchanged and play no part in replication. */
  datatype Doc = Doc(seqNo: nat, modifiedTime: int)

  /** A snapshot of a source vbucket as one check pass observes it: the
      maximum sequence number it reports, its mutation history in stored
      order, and whether a range fetch fails during this pass. */
  datatype SrcVbucket = SrcVbucket(maxSeqNo: nat, history: seq<Doc>, fetchFails: bool)

  /** Sequence numbers strictly increase along a list of mutations. */
  predicate Ascending(docs: seq<Doc>)
  {
    forall j, k :: 0 <= j < k < |docs| ==> docs[j].seqNo < docs[k].seqNo
  }

  /** `sub` is `docs` with some of its elements left out: the same
      elements, each used once, in the same order. */
  predicate IsSubsequence(sub: seq<Doc>, docs: seq<Doc>)
    decreases |docs|
  {
    if sub == [] then true
    else if docs == [] then false
    else (sub[0] == docs[0] && IsSubsequence(sub[1..], docs[1..])) || IsSubsequence(sub, docs[1..])
  }

  /** The mutations of `history` whose sequence number lies in `(lo, hi]`,
      in history order. */
  function Within(history: seq<Doc>, lo: nat, hi: nat): (r: seq<Doc>)
    ensures |r| <= |history|
    ensures forall k :: 0 <= k < |r| ==> r[k] in history && lo < r[k].seqNo <= hi
    ensures forall d :: d in history && lo < d.seqNo <= hi ==> d in r
  {
    if history == [] then []
    else
      var rest := Within(history[1..], lo, hi);
      assert forall d :: d in history[1..] ==> d in history;
      if lo < history[0].seqNo <= hi then [history[0]] + rest else rest
  }

  /** The range query keeps history order and repeats nothing: its result
      is a subsequence of the history. */
  lemma {:induction false} WithinSubsequence(history: seq<Doc>, lo: nat, hi: nat)
    ensures IsSubsequence(Within(history, lo, hi), history)
  {
    if history != [] {
      var rest := Within(history[1..], lo, hi);
      WithinSubsequence(history[1..], lo, hi);
      if lo < history[0].seqNo <= hi {
        assert ([history[0]] + rest)[1..] == rest;
      }
    }
  }

  /** In an ascending history every later mutation has a larger sequence
      number than the first one. */
  lemma AscendingHead(history: seq<Doc>, d: Doc)
    requires Ascending(history) && |history| > 0 && d in history[1..]
    ensures history[0].seqNo < d.seqNo
  {
  }

  /** Dropping the first mutation keeps a history ascending. */
  lemma AscendingTail(history: seq<Doc>)
    requires Ascending(history) && |history| > 0
    ensures Ascending(history[1..])
  {
  }

  /** Putting a smaller sequence number in front keeps a list ascending. */
  lemma AscendingCons(d: Doc, rest: seq<Doc>)
    requires Ascending(rest)
    requires forall k :: 0 <= k < |rest| ==> d.seqNo < rest[k].seqNo
    ensures Ascending([d] + rest)
  {
  }

  /** Filtering an ascending history keeps it ascending. */
  lemma {:induction false} WithinAscending(history: seq<Doc>, lo: nat, hi: nat)
    ensures Ascending(history) ==> Ascending(Within(history, lo, hi))
  {
    if history != [] && Ascending(history) {
      var rest := Within(history[1..], lo, hi);
      AscendingTail(history);
      WithinAscending(history[1..], lo, hi);
      if lo < history[0].seqNo <= hi {
        forall k | 0 <= k < |rest| ensures history[0].seqNo < rest[k].seqNo {
          AscendingHead(history, rest[k]);
        }
        AscendingCons(history[0], rest);
      }
    }
  }

  /** `GetAllWithin(lo, hi)`: either an error (the fetch fails on this pass)
      or every mutation of the history with a sequence number in `(lo, hi]`,
      nothing else, in history order. */
  function GetAllWithin(v: SrcVbucket, lo: nat, hi: nat): (r: Result<seq<Doc>, string>)
    ensures r.Failure? <==> v.fetchFails
    ensures r.Success? ==> forall k :: 0 <= k < |r.value| ==> r.value[k] in v.history && lo < r.value[k].seqNo <= hi
    ensures r.Success? ==> forall d :: d in v.history && lo < d.seqNo <= hi ==> d in r.value
    ensures r.Success? && Ascending(v.history) ==> Ascending(r.value)
  {
    if v.fetchFails then Failure("fetch failed")
    else
      WithinAscending(v.history, lo, hi);
      Success(Within(v.history, lo, hi))
  }
}
