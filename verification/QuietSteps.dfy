/** Steps that find nothing expired and nothing ripe, for building examples of histories. */
module QuietSteps {
  import opened Basics
  import opened ChainModel
  import opened Domains
  import opened Hex
  import opened Histories
  import opened Times
  import opened VoteQueues

  ghost predicate NothingExpires<K, V>(q: Queue<K, V>, now: Time, timeout: nat) {
    forall a :: a in q.voteIndex ==> !Due(now, a.sec, timeout)
  }

  ghost predicate NothingRipe<K, V>(q: Queue<K, V>, now: Time, delay: nat) {
    q.pending == q.pendingIndex && forall p :: p in q.pending ==> !Due(now, p.sec, delay)
  }

  lemma ExpireNothing<K, V>(q: Queue<K, V>, now: Time, timeout: nat)
    requires NothingExpires(q, now, timeout)
    ensures Expire(q, now, timeout) == q
  {
    assert ExpiredVotes(q, now, timeout) == {};
  }

  lemma PromoteNothing<K, V>(q: Queue<K, V>, now: Time, delay: nat)
    requires NothingRipe(q, now, delay)
    ensures RipeChanges(q, now, delay) == {} && Promote(q, now, delay) == q
  {
    assert RipeChanges(q, now, delay) == {};
  }

  lemma BlockBegins(phase: Phase, c: Chain, height: nat, time: Time)
    requires c.config.Some? && Scheduled(phase, c, BeginBlock(height, time))
    requires NothingExpires(c.admin, time, c.config.value.admins.voting.timeout)
    requires NothingExpires(c.oracle, time, c.config.value.oracles.voting.timeout)
    ensures Takes(phase, c, BeginBlock(height, time),
                  c.(height := Some(height), time := Some(time), blockTimes := c.blockTimes[height := time]))
  {
    hide Expire, NothingExpires;
    ExpireNothing(c.admin, time, c.config.value.admins.voting.timeout);
    ExpireNothing(c.oracle, time, c.config.value.oracles.voting.timeout);
  }

  lemma NoConfigChange(c: Chain)
    requires c.config.Some? && c.time.Some?
    requires NothingRipe(c.admin, c.time.value, c.config.value.admins.voting.delay)
    ensures Takes(InBlock, c, PromoteConfigStep, c)
  {
    hide Promote, RipeChanges, NothingRipe;
    PromoteNothing(c.admin, c.time.value, c.config.value.admins.voting.delay);
  }

  lemma OverlayNothing(canonical: map<Domain, Bytes>)
    ensures Overlay(canonical, map[]) == canonical
  {}

  lemma ChangesOfNothing(q: Queue<Domain, OracleVoteValue>)
    requires Valid(q)
    ensures ChangesOf(q, {}) == map[]
  {
    hide Valid;
  }

  lemma NoCanonicalChange(c: Chain)
    requires ValidChain(c) && c.config.Some? && c.time.Some?
    requires NothingRipe(c.oracle, c.time.value, c.config.value.oracles.voting.delay)
    ensures Takes(Reconfigured, c, PromoteCanonicalStep, c)
  {
    hide Promote, RipeChanges, NothingRipe, Valid, ChangesOf, Overlay;
    PromoteNothing(c.oracle, c.time.value, c.config.value.oracles.voting.delay);
    ChangesOfNothing(c.oracle);
    OverlayNothing(c.canonical);
  }

  lemma HashRecorded(c: Chain, hash: Bytes)
    requires c.height.Some? && c.height.value != 0
    ensures Takes(Between, c, RecordHash(hash), c.(appHashes := c.appHashes[c.height.value - 1 := hash]))
  {}
}
