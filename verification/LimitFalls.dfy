/** Exactly when a vote for a configuration can lead to a lower subdomain limit. */
module LimitFalls {
  import opened Agreement
  import opened Basics
  import opened ChainModel
  import opened ConfigChain
  import opened Configs
  import opened Hex
  import opened Histories
  import opened QueueLaws
  import opened Times
  import opened Uniqueness
  import opened VoteQueues

  /**
    A queued proposal with a limit below the one in force has the quorum in force among the votes of
    other admins than the one who is about to vote.
   */
  ghost predicate LowerProposalWaits(c: Chain, r: Reconfigure)
    requires c.config.Some?
  {
    exists a ::
      && a in c.admin.votes
      && c.admin.votes[a].oracles.maxEnrolledSubdomains < c.config.value.oracles.maxEnrolledSubdomains
      && Larger(1, c.config.value.admins.voting.quorum)
         <= |OtherSupporters(c.admin, (), c.admin.votes[a], Encode(r.admin))|
  }

  /** Some tally of the reconfiguration leaves a configuration pending that lowers the limit. */
  ghost predicate LimitCanFall(c: Chain, r: Reconfigure)
    requires c.config.Some?
  {
    exists w :: Enabled(c, ReconfigureStep(r, w)) && LowersLimit(c, Apply(c, ReconfigureStep(r, w)))
  }

  ghost predicate LowersLimit(c: Chain, d: Chain)
    requires c.config.Some?
  {
    exists p :: p in d.admin.pending
      && d.admin.pending[p].oracles.maxEnrolledSubdomains < c.config.value.oracles.maxEnrolledSubdomains
  }

  /** A winner with a lower limit is not the proposal just checked, and so had the quorum before. */
  lemma LowerWinnerWaited(c: Chain, r: Reconfigure, w: Config)
    requires MayReconfigure(c, r) && Enabled(c, ReconfigureStep(r, Some(w)))
    requires w.oracles.maxEnrolledSubdomains < c.config.value.oracles.maxEnrolledSubdomains
    ensures LowerProposalWaits(c, r)
  {
    var v, quorum := ReconfigurationVote(c, r), c.config.value.admins.voting.quorum;
    OtherValueMayWinIff(c.admin, v, quorum, w);
    var others := OtherSupporters(c.admin, (), w, v.party);
    hide LegalWinner, PutVote;
    assert others != {};
    var a :| a in others;
    assert a in c.admin.votes && c.admin.votes[a] == w;
  }

  lemma WaitingProposalLowersLimit(c: Chain, r: Reconfigure, a: VoteKey<()>)
    requires c.config.Some? && c.time.Some?
    requires r.config.oracles.maxEnrolledSubdomains >= c.config.value.oracles.maxEnrolledSubdomains
    requires ValidChain(c) && MayReconfigure(c, r) && a in c.admin.votes
    requires c.admin.votes[a].oracles.maxEnrolledSubdomains < c.config.value.oracles.maxEnrolledSubdomains
    requires Larger(1, c.config.value.admins.voting.quorum)
             <= |OtherSupporters(c.admin, (), c.admin.votes[a], Encode(r.admin))|
    ensures LimitCanFall(c, r)
  {
    hide MayReconfigure, OtherSupporters, PutVote, Apply, Enabled;
    var w := c.admin.votes[a];
    OtherValueMayWinIff(c.admin, ReconfigurationVote(c, r), c.config.value.admins.voting.quorum, w);
    WinnerIsPending(c, r, w);
    assert LowersLimit(c, Apply(c, ReconfigureStep(r, Some(w))));
  }

  lemma WinnerIsPending(c: Chain, r: Reconfigure, w: Config)
    requires c.config.Some? && c.time.Some? && ValidChain(c) && MayReconfigure(c, r)
    requires var q := PutVote(c.admin, ReconfigurationVote(c, r));
             LegalWinner(q, (), c.config.value.admins.voting.quorum, Some(w))
    ensures Enabled(c, ReconfigureStep(r, Some(w)))
    ensures PendingAs(Apply(c, ReconfigureStep(r, Some(w))).admin, (), w)
  {
    hide MayReconfigure, LegalWinner, PutVote, Settle, PendingAs, Valid;
    var v := ReconfigurationVote(c, r);
    PutVoteKeepsValid(c.admin, v);
    SettledIsPending(PutVote(c.admin, v), Second(v.time), w);
  }

  lemma LowerPendingWon(c: Chain, r: Reconfigure, w: Option<Config>)
    requires ValidChain(c) && MayReconfigure(c, r) && PendingKeepsLimit(c)
    requires Enabled(c, ReconfigureStep(r, w)) && LowersLimit(c, Apply(c, ReconfigureStep(r, w)))
    ensures w.Some? && w.value.oracles.maxEnrolledSubdomains < c.config.value.oracles.maxEnrolledSubdomains
  {
    CastPending(c.admin, ReconfigurationVote(c, r), w, NoLimit());
    hide CastVote, MayReconfigure, Valid, LegalWinner;
    assert forall p: PendingKey<()> :: p.key == ();
  }

  /**
    When nothing pending lowers the limit in force, a reconfiguration that passes the checks can make
    it so if and only if a proposal with a lower limit waits with the quorum reached without this vote.
   */
  lemma LimitCanFallIff(c: Chain, r: Reconfigure)
    requires c.config.Some? && ValidChain(c) && MayReconfigure(c, r) && PendingKeepsLimit(c)
    ensures LimitCanFall(c, r) <==> LowerProposalWaits(c, r)
  {
    hide MayReconfigure, Enabled, Apply, LowersLimit, PendingKeepsLimit, OtherSupporters, ValidChain;
    if LimitCanFall(c, r) {
      var w :| Enabled(c, ReconfigureStep(r, w)) && LowersLimit(c, Apply(c, ReconfigureStep(r, w)));
      LowerPendingWon(c, r, w);
      LowerWinnerWaited(c, r, w.value);
    }
    if LowerProposalWaits(c, r) {
      var a :| a in c.admin.votes
        && c.admin.votes[a].oracles.maxEnrolledSubdomains < c.config.value.oracles.maxEnrolledSubdomains
        && Larger(1, c.config.value.admins.voting.quorum)
           <= |OtherSupporters(c.admin, (), c.admin.votes[a], Encode(r.admin))|;
      ProposalKeepsLimit(c, r);
      WaitingProposalLowersLimit(c, r, a);
    }
  }

  lemma ProposalKeepsLimit(c: Chain, r: Reconfigure)
    requires MayReconfigure(c, r)
    ensures c.config.Some? && c.time.Some?
    ensures c.config.value.oracles.maxEnrolledSubdomains <= r.config.oracles.maxEnrolledSubdomains
  {}

  /**
    Over every run: whenever the limit falls, the configuration that lowers it had won a cast, under
    the configuration that it replaces, in which such a proposal was waiting.
   */
  lemma LimitFallsByWaitingProposal(h: History, j: nat) returns (i: nat)
    requires IsHistory(h) && j < |h.steps|
    requires ConfigAt(h, j + 1).oracles.maxEnrolledSubdomains < ConfigAt(h, j).oracles.maxEnrolledSubdomains
    ensures i < j && ConfigAt(h, i) == ConfigAt(h, j) && h.states[i].config.Some?
    ensures h.steps[i].ReconfigureStep? && h.steps[i].choice == Some(ConfigAt(h, j + 1))
    ensures MayReconfigure(h.states[i], h.steps[i].reconfigure)
    ensures LowerProposalWaits(h.states[i], h.steps[i].reconfigure)
  {
    var p := ChangeIsRipe(h, j);
    var admins;
    i, admins := ConfigReplacesItsApprover(h, j, p);
    ConfigOf(h, i);
    StepAt(h, i);
    hide IsHistory, ConfigAt, Enabled, MayReconfigure, LowerProposalWaits;
    LowerWinnerWaited(h.states[i], h.steps[i].reconfigure, ConfigAt(h, j + 1));
  }
}
