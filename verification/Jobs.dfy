/** A worker job as a run: it takes its candidates one by one, and others commit in between. */
module Jobs {
  /** The steps up to and including the first n candidates; `between[i]` is what others commit before
      candidate i is looked at. */
  function JobSteps<S>(work: seq<S>, between: seq<seq<S>>, n: nat): seq<S>
    requires n <= |work| == |between|
  {
    if n == 0 then [] else JobSteps(work, between, n - 1) + between[n - 1] + [work[n - 1]]
  }

  lemma {:induction false} LaterSteps<S>(work: seq<S>, between: seq<seq<S>>, i: nat, j: nat) returns (tail: seq<S>)
    requires i <= j <= |work| == |between|
    ensures JobSteps(work, between, j) == JobSteps(work, between, i) + tail
    ensures forall s :: s in tail ==> s in work || exists k :: 0 <= k < j && s in between[k]
    decreases j - i
  {
    if i == j {
      tail := [];
    } else {
      tail := LaterSteps(work, between, i, j - 1);
      tail := tail + between[j - 1] + [work[j - 1]];
    }
  }
}
