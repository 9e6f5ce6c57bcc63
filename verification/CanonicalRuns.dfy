/** The canonical map over whole runs: every name has what was promoted for it last, and nothing else changes it. */
module CanonicalRuns {
  import opened ChainModel
  import opened Domains
  import opened Hex
  import opened Histories
  import opened PendingChanges
  import opened QueueLaws
  import opened Times
  import opened VoteQueues

  /** Step l is a promotion that finds the change pending for the delay then in force. */
  ghost predicate Promotes(h: History, l: nat, p: PendingKey<Domain>)
    requires |h.states| == |h.steps| + 1 && l < |h.steps|
  {
    && h.steps[l] == PromoteCanonicalStep
    && p in h.states[l].oracle.pending
    && h.states[l].time.Some? && h.states[l].config.Some?
    && Due(h.states[l].time.value, p.sec, h.states[l].config.value.oracles.voting.delay)
  }

  ghost predicate LeavesName(h: History, l: nat, d: Domain)
    requires |h.states| == |h.steps| + 1 && l < |h.steps|
  {
    forall p :: Promotes(h, l, p) ==> p.key != d
  }

  ghost predicate SameEntry(c: Chain, e: Chain, d: Domain) {
    && (d in c.canonical <==> d in e.canonical)
    && (d in c.canonical ==> e.canonical[d] == c.canonical[d])
  }

  lemma PromotionLeaves(c: Chain, d: Domain)
    requires Invariant(Reconfigured, c)
    requires forall p :: p in c.oracle.pending && p.key == d ==>
      !Due(c.time.value, p.sec, c.config.value.oracles.voting.delay)
    ensures SameEntry(c, PromoteCanonical(c), d)
  {
    PromotePartitions(c.oracle, c.time.value, c.config.value.oracles.voting.delay);
    assert d !in ChangesOf(c.oracle, RipeObservations(c));
  }

  lemma OtherStepsLeave(c: Chain, s: Step, d: Domain)
    requires Enabled(c, s) && s != PromoteCanonicalStep
    ensures SameEntry(c, Apply(c, s), d)
  {}

  lemma StepLeavesName(h: History, l: nat, d: Domain)
    requires IsHistory(h) && l < |h.steps| && |h.states| == |h.steps| + 1 && LeavesName(h, l, d)
    ensures SameEntry(h.states[l], h.states[l + 1], d)
  {
    StepAt(h, l);
    hide IsHistory, Apply, Enabled, SameEntry, PromoteCanonical;
    var c := h.states[l];
    if h.steps[l] == PromoteCanonicalStep {
      forall p | p in c.oracle.pending && p.key == d
        ensures !Due(c.time.value, p.sec, c.config.value.oracles.voting.delay)
      {
        assert !Promotes(h, l, p);
      }
      PromotionLeaves(c, d);
      PromotionSteps(c);
    } else {
      OtherStepsLeave(c, h.steps[l], d);
    }
  }

  /** An enrolled name stays enrolled with its hash, and an absent one absent, until a change for it is promoted. */
  lemma {:induction false} CanonicalStays(h: History, i: nat, n: nat, d: Domain)
    requires IsHistory(h) && i <= n < |h.states| && |h.states| == |h.steps| + 1
    requires forall l :: i <= l < n ==> LeavesName(h, l, d)
    ensures d in h.states[i].canonical <==> d in h.states[n].canonical
    ensures d in h.states[i].canonical ==> h.states[n].canonical[d] == h.states[i].canonical[d]
  {
    hide IsHistory, LeavesName;
    if i < n {
      CanonicalStays(h, i, n - 1, d);
      StepLeavesName(h, n - 1, d);
    }
  }

  /** Before state n, step l was the last to promote a change for the name. */
  ghost predicate LastPromoted(h: History, l: nat, n: nat, p: PendingKey<Domain>)
    requires |h.states| == |h.steps| + 1 && n < |h.states|
  {
    && l < n && Promotes(h, l, p)
    && forall k :: l < k < n ==> LeavesName(h, k, p.key)
  }

  lemma PromotedNow(h: History, l: nat, p: PendingKey<Domain>)
    requires IsHistory(h) && |h.states| == |h.steps| + 1 && l < |h.steps| && Promotes(h, l, p)
    ensures var observed := h.states[l].oracle.pending[p].hashObserved;
            && (p.key in h.states[l + 1].canonical <==> observed.Hash?)
            && (observed.Hash? ==> h.states[l + 1].canonical[p.key] == observed.bytes)
  {
    StepAt(h, l);
    PromotionSteps(h.states[l]);
    hide IsHistory, Apply, Enabled, PromoteCanonical;
    PromotionOf(h.states[l], p);
  }

  /** What was promoted last for a name is what the name has. */
  lemma LastPromotionCounts(h: History, l: nat, n: nat, p: PendingKey<Domain>)
    requires IsHistory(h) && |h.states| == |h.steps| + 1 && n < |h.states| && LastPromoted(h, l, n, p)
    ensures var observed := h.states[l].oracle.pending[p].hashObserved;
            && (p.key in h.states[n].canonical <==> observed.Hash?)
            && (observed.Hash? ==> h.states[n].canonical[p.key] == observed.bytes)
  {
    hide IsHistory, LeavesName;
    PromotedNow(h, l, p);
    CanonicalStays(h, l + 1, n, p.key);
  }

  lemma FindLastPromotion(h: History, n: nat, d: Domain) returns (l: nat, p: PendingKey<Domain>)
    requires |h.states| == |h.steps| + 1 && n < |h.states|
    requires exists k: nat :: k < n && !LeavesName(h, k, d)
    ensures LastPromoted(h, l, n, p) && p.key == d
  {
    l := n - 1;
    while LeavesName(h, l, d)
      invariant l < n
      invariant exists k: nat :: k <= l && !LeavesName(h, k, d)
      invariant forall k :: l < k < n ==> LeavesName(h, k, d)
      decreases l
    {
      l := l - 1;
    }
    p :| Promotes(h, l, p) && p.key == d;
  }

  lemma NothingAtGenesis(h: History)
    requires IsHistory(h)
    ensures |h.states| == |h.steps| + 1 && h.states[0].canonical == map[]
  {}

  /** A name is enrolled with a hash if and only if the last change promoted for it was to this hash. */
  lemma EnrolledIffPromotedLast(h: History, n: nat, d: Domain, hash: Bytes)
    requires IsHistory(h) && n < |h.states|
    ensures |h.states| == |h.steps| + 1
    ensures d in h.states[n].canonical && h.states[n].canonical[d] == hash <==>
      exists l: nat, p ::
        LastPromoted(h, l, n, p) && p.key == d && h.states[l].oracle.pending[p].hashObserved == HashObserved.Hash(hash)
  {
    hide IsHistory, LeavesName;
    NothingAtGenesis(h);
    if l: nat, p :| LastPromoted(h, l, n, p) && p.key == d
                    && h.states[l].oracle.pending[p].hashObserved == HashObserved.Hash(hash) {
      LastPromotionCounts(h, l, n, p);
    }
    if exists k: nat :: k < n && !LeavesName(h, k, d) {
      var l, p := FindLastPromotion(h, n, d);
      LastPromotionCounts(h, l, n, p);
    } else {
      CanonicalStays(h, 0, n, d);
    }
  }
}
