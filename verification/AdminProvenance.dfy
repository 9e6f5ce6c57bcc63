/** Who approved a configuration: the counterpart for admins of the approvals in module Provenance. */
module AdminProvenance {
  import opened Basics
  import opened ChainModel
  import opened Configs
  import opened Hex
  import opened Histories
  import opened Provenance
  import opened QueueLaws
  import opened QueueRuns
  import opened Times
  import opened VoteQueues

  /**
    The admin, authorized at the time unless there were no admins yet, proposed this configuration at
    this step, within the time window of the proposal.
   */
  ghost predicate ProposedAt(h: History, m: nat, admin: Bytes, w: Config)
    requires |h.states| == |h.steps| + 1 && m < |h.steps|
  {
    && h.steps[m].ReconfigureStep?
    && MayReconfigure(h.states[m], h.steps[m].reconfigure)
    && h.states[m].config.Some? && h.states[m].time.Some?
    && (var admins := h.states[m].config.value.admins.authorized; admins == [] || admin in admins)
    && h.steps[m].reconfigure.notBefore <= h.states[m].time.value <= h.steps[m].reconfigure.notAfter
    && h.steps[m].reconfigure.admin == admin && h.steps[m].reconfigure.config == w
  }

  /**
    The step is neither a newer proposal by the admin, nor a decision that uses up the votes, nor a
    timeout pass that catches the vote.
   */
  ghost predicate LeavesProposal(h: History, l: nat, admin: Bytes, cast: Seconds)
    requires |h.states| == |h.steps| + 1 && l < |h.steps|
    requires Enabled(h.states[l], h.steps[l])
  {
    match h.steps[l]
    case ReconfigureStep(r, choice) =>
      !MayReconfigure(h.states[l], r) || (r.admin != admin && choice.None?)
    case BeginBlock(_, time) => !Due(time, cast, h.states[l].config.value.admins.voting.timeout)
    case _ => true
  }

  /** At step i the proposal of step m is the latest of this admin, not expired and not used up. */
  ghost predicate Endorses(h: History, m: nat, i: nat, admin: Bytes, w: Config)
    requires IsHistory(h) && i < |h.steps|
  {
    && m <= i && ProposedAt(h, m, admin, w)
    && (forall l :: m < l < i ==> IsStep(h, l) && LeavesProposal(h, l, admin, Second(h.states[m].time.value)))
    && (m < i ==> h.steps[m].choice.None? && h.steps[i].ReconfigureStep? && h.steps[i].reconfigure.admin != admin)
  }

  ghost predicate Endorsed(h: History, i: nat, admin: Bytes, w: Config)
    requires IsHistory(h) && i < |h.steps|
  {
    exists m: nat :: Endorses(h, m, i, admin, w)
  }

  /** At step i a quorum of distinct admins, as then in force, endorsed the configuration. */
  ghost predicate ApprovedByAdmins(h: History, i: nat, w: Config, admins: set<Bytes>)
    requires IsHistory(h) && i < |h.steps|
  {
    && h.steps[i].ReconfigureStep? && h.steps[i].choice == Some(w)
    && MayReconfigure(h.states[i], h.steps[i].reconfigure)
    && h.states[i].config.value.admins.voting.quorum <= |admins| && admins != {}
    && forall k :: k in admins ==> Endorsed(h, i, k, w)
  }

  lemma AdminEventAt(h: History, i: nat)
    requires IsHistory(h) && i < |h.steps|
    ensures |h.states| == |h.steps| + 1 == |AdminEvents(h)| + 1
    ensures IsStep(h, i) && Enabled(h.states[i], h.steps[i])
    ensures AdminEvents(h)[i] == AdminEvent(h.states[i], h.steps[i])
  {
    assert IsStep(h, i);
  }

  lemma CastIsProposal(h: History, m: nat)
    requires IsHistory(h) && m < |h.steps| && AdminEvents(h)[m].CastEvent?
    ensures |h.states| == |h.steps| + 1 && h.states[m].time.Some?
    ensures h.steps[m].ReconfigureStep? && MayReconfigure(h.states[m], h.steps[m].reconfigure)
    ensures AdminEvents(h)[m].vote == ReconfigurationVote(h.states[m], h.steps[m].reconfigure)
    ensures AdminEvents(h)[m].quorum == h.states[m].config.value.admins.voting.quorum
    ensures AdminEvents(h)[m].winner == h.steps[m].choice
    ensures ProposedAt(h, m, h.steps[m].reconfigure.admin, AdminEvents(h)[m].vote.value)
  {
    AdminEventAt(h, m);
    hide IsHistory, AdminEvents;
  }

  lemma SparedProposal(h: History, l: nat, admin: Bytes, a: VoteKey<()>)
    requires IsHistory(h) && l < |h.steps| && Encode(admin) == a.party
    requires Spares(AdminEvents(h)[l], a)
    ensures IsStep(h, l) && LeavesProposal(h, l, admin, a.sec)
  {
    AdminEventAt(h, l);
    assert a.key == ();
    hide IsHistory, MayReconfigure, AdminEvents;
  }

  lemma BackedIsEndorsed(h: History, m: nat, i: nat, party: string, w: Config)
    requires IsHistory(h) && i < |h.steps|
    requires BackedSince(AdminEvents(h), m, i, (), party, w)
    requires AdminEvents(h)[i].CastEvent?
    ensures m <= i && h.steps[m].ReconfigureStep? && Encode(h.steps[m].reconfigure.admin) == party
    ensures Endorses(h, m, i, h.steps[m].reconfigure.admin, w)
  {
    hide IsHistory, MayReconfigure, ProposedAt, AdminEvents, Spares, LeavesProposal, Enabled, Apply, Scheduled;
    var es := AdminEvents(h);
    CastIsProposal(h, m);
    CastIsProposal(h, i);
    var a := VoteKey((), party, Second(es[m].vote.time));
    assert es[i].vote.key == a.key;
    forall l | m < l < i
      ensures IsStep(h, l) && LeavesProposal(h, l, h.steps[m].reconfigure.admin, a.sec)
    {
      assert Spares(es[l], a);
      SparedProposal(h, l, h.steps[m].reconfigure.admin, a);
    }
  }

  lemma BackerIsAdmin(h: History, i: nat, party: string, w: Config) returns (admin: Bytes)
    requires IsHistory(h) && i < |h.steps| && AdminEvents(h)[i].CastEvent?
    requires Backed(AdminEvents(h), i, (), party, w)
    ensures Encode(admin) == party && Endorsed(h, i, admin, w)
  {
    hide IsHistory, AdminEvents, Endorses, BackedSince, Encode;
    var m: nat :| BackedSince(AdminEvents(h), m, i, (), party, w);
    BackedIsEndorsed(h, m, i, party, w);
    admin := h.steps[m].reconfigure.admin;
  }

  lemma {:induction false} BackersAreAdmins(h: History, i: nat, w: Config, parties: set<string>)
    returns (admins: set<Bytes>)
    requires IsHistory(h) && i < |h.steps| && AdminEvents(h)[i].CastEvent?
    requires forall party :: party in parties ==> Backed(AdminEvents(h), i, (), party, w)
    ensures |admins| == |parties|
    ensures forall k :: k in admins ==> Encode(k) in parties && Endorsed(h, i, k, w)
  {
    hide IsHistory, AdminEvents, Endorsed, Backed, Encode;
    if parties == {} {
      admins := {};
    } else {
      var party :| party in parties;
      var k := BackerIsAdmin(h, i, party, w);
      var others := BackersAreAdmins(h, i, w, parties - {party});
      admins := others + {k};
    }
  }

  /** A decision of the admin queue is the approval of a quorum of distinct admin keys. */
  lemma DecidedByAdmins(h: History, i: nat, w: Config) returns (admins: set<Bytes>)
    requires IsHistory(h) && i < |h.steps|
    requires Decided(AdminQueues(h), AdminEvents(h), i, (), w)
    ensures ApprovedByAdmins(h, i, w, admins)
  {
    hide IsHistory, AdminEvents, AdminQueues, AdminEvent, Endorsed, Backed, MayReconfigure, PutVote, Backers, Encode;
    CastIsProposal(h, i);
    var parties := Backers(PutVote(AdminQueues(h)[i], AdminEvents(h)[i].vote), (), w);
    admins := BackersAreAdmins(h, i, w, parties);
  }
}
