/**
  A run in which the subdomain limit falls from ten to one, although every proposal was checked
  against the configuration then in force: between the vote for the lower limit and its victory, a
  configuration was installed that raised the limit and lowered the admin quorum.
 */
module LoweredQuorum {
  import opened Agreement
  import opened Basics
  import opened ChainModel
  import opened ConfigChain
  import opened Configs
  import opened Hex
  import opened Histories
  import opened QuietSteps
  import opened Times
  import opened VoteQueues

  const ALICE: Bytes := [1]
  const BOB: Bytes := [2]
  const ORACLE: Bytes := [3]

  /** Two admins and one oracle; votes live for an hour. */
  function Proposal(version: nat, quorum: nat, delay: nat, limit: nat): Config {
    Config(
      version,
      AdminConfig(VotingConfig(2, quorum, 3600, delay), [ALICE, BOB]),
      OracleConfig(true, VotingConfig(1, 1, 3600, 0), limit, 3600, [Oracle(ORACLE, "oracle")]),
      false)
  }

  function Initial(): Config { Proposal(1, 2, 1, 1) }
  function Generous(): Config { Proposal(2, 1, 0, 10) }
  function Stingy(): Config { Proposal(3, 1, 0, 1) }
  function Trigger(): Config { Proposal(4, 1, 0, 10) }

  const T1: Time := 0
  const T2: Time := NANOS

  ghost function VotesBy(votes: map<VoteKey<()>, Config>): Queue<(), Config> {
    Queue(votes, votes, map[], map[])
  }

  ghost function WithPending(q: Queue<(), Config>, pending: map<PendingKey<()>, Config>): Queue<(), Config> {
    q.(pending := pending, pendingIndex := pending)
  }

  const HASH: Bytes := []

  ghost function At(
      config: Config, height: nat, time: Time, times: map<nat, Time>, hashes: map<nat, Bytes>, admin: Queue<(), Config>)
    : Chain
  {
    EmptyChain().(config := Some(config), height := Some(height), time := Some(time), blockTimes := times,
                  appHashes := hashes, admin := admin)
  }

  function Proposes(admin: Bytes, config: Config): Reconfigure {
    Reconfigure(admin, config, T1, T2)
  }

  function Key(admin: Bytes, sec: Seconds): VoteKey<()> {
    VoteKey((), Encode(admin), sec)
  }

  // ---------- The states ----------

  ghost function AliceVoted(w: Config): Queue<(), Config> {
    VotesBy(map[Key(ALICE, 0) := w])
  }

  ghost function GenerousPending(): Queue<(), Config> {
    WithPending(Empty(), map[PendingKey((), 0) := Generous()])
  }

  ghost function Waiting(): Queue<(), Config> {
    WithPending(AliceVoted(Stingy()), map[PendingKey((), 0) := Generous()])
  }

  ghost function TriggerPending(): Queue<(), Config> {
    WithPending(Empty(), map[PendingKey((), 1) := Trigger()])
  }

  ghost function StingyPending(): Queue<(), Config> {
    WithPending(Empty(), map[PendingKey((), 1) := Stingy()])
  }

  ghost function BlockOne(q: Queue<(), Config>): Chain {
    At(Initial(), 1, T1, map[1 := T1], map[], q)
  }

  ghost function BlockTwo(config: Config, q: Queue<(), Config>): Chain {
    At(config, 2, T2, map[1 := T1, 2 := T2], map[0 := HASH], q)
  }

  ghost function BlockThree(config: Config, q: Queue<(), Config>): Chain {
    At(config, 3, T2, map[1 := T1, 2 := T2, 3 := T2], map[0 := HASH, 1 := HASH], q)
  }

  ghost function Genesis(): Chain {
    EmptyChain().(config := Some(Initial()))
  }

  // ---------- The steps ----------

  lemma NamesDiffer()
    ensures Encode(ALICE) != Encode(BOB)
  {
    if Encode(ALICE) == Encode(BOB) {
      EncodeInjective(ALICE, BOB);
    }
  }

  lemma ProposalsAreSound(version: nat, quorum: nat, delay: nat, limit: nat)
    requires 1 <= quorum <= 2 && 1 <= limit
    ensures Sound(Proposal(version, quorum, delay, limit))
  {
    assert ALICE[0] != 0 && BOB[0] != 0 && ORACLE[0] != 0;
  }

  /** The proposal passes every check of a reconfiguration. */
  lemma MayPropose(c: Chain, admin: Bytes, w: Config)
    requires c.time == Some(T1) || c.time == Some(T2)
    requires c.config.Some? && c.config.value.admins.authorized == [ALICE, BOB]
    requires admin == ALICE || admin == BOB
    requires w == Generous() || w == Stingy() || w == Trigger()
    requires c.config.value.version < w.version
    requires c.config.value.oracles.maxEnrolledSubdomains <= w.oracles.maxEnrolledSubdomains
    requires forall p :: p in c.admin.pending ==> c.admin.pending[p].version < w.version
    ensures MayReconfigure(c, Proposes(admin, w))
  {
    ProposalsAreSound(w.version, w.admins.voting.quorum, w.admins.voting.delay, w.oracles.maxEnrolledSubdomains);
    hide Sound;
  }

  lemma AliceVotes(q: Queue<(), Config>, w: Config)
    requires q.votes == map[] == q.voteIndex
    ensures var r := PutVote(q, Vote(Encode(ALICE), T1, (), w));
            && r == q.(votes := AliceVoted(w).votes, voteIndex := AliceVoted(w).voteIndex)
            && LegalWinner(r, (), 2, None)
  {
    var r := PutVote(q, Vote(Encode(ALICE), T1, (), w));
    assert Supporters(r, (), w) == {Key(ALICE, 0)};
  }

  lemma AliceProposes(c: Chain, w: Config, pending: map<PendingKey<()>, Config>)
    requires c == BlockOne(WithPending(Empty(), pending)) && (w == Generous() || w == Stingy())
    requires forall p :: p in pending ==> pending[p].version < w.version
    ensures Takes(InBlock, c, ReconfigureStep(Proposes(ALICE, w), None), BlockOne(WithPending(AliceVoted(w), pending)))
  {
    hide MayReconfigure, PutVote, LegalWinner, Settle;
    MayPropose(c, ALICE, w);
    AliceVotes(c.admin, w);
    NobodyWins(PutVote(c.admin, Vote(Encode(ALICE), T1, (), w)));
  }

  lemma NobodyWins(q: Queue<(), Config>)
    ensures Settle(q, (), 0, None, NoLimit()).0 == q
  {}

  lemma BobVotes(q: Queue<(), Config>)
    requires q == AliceVoted(Generous())
    ensures var r := PutVote(q, Vote(Encode(BOB), T1, (), Generous()));
            && LegalWinner(r, (), 2, Some(Generous()))
            && r.pending == map[] == r.pendingIndex && r.votes == r.voteIndex
  {
    NamesDiffer();
    hide Generous, Encode;
    var r := PutVote(q, Vote(Encode(BOB), T1, (), Generous()));
    assert r.votes == map[Key(ALICE, 0) := Generous(), Key(BOB, 0) := Generous()];
    assert Supporters(r, (), Generous()) == {Key(ALICE, 0), Key(BOB, 0)};
    assert |{Key(ALICE, 0), Key(BOB, 0)}| == 2;
  }

  lemma BobAgrees(c: Chain)
    requires c == BlockOne(AliceVoted(Generous()))
    ensures Takes(InBlock, c, ReconfigureStep(Proposes(BOB, Generous()), Some(Generous())), BlockOne(GenerousPending()))
  {
    hide MayReconfigure, PutVote, LegalWinner, Settle;
    MayPropose(c, BOB, Generous());
    BobVotes(c.admin);
    BecomesPending(PutVote(c.admin, Vote(Encode(BOB), T1, (), Generous())), 0, Generous());
  }

  /** A winner over votes that are all for the one key there is, with nothing pending. */
  lemma BecomesPending(q: Queue<(), Config>, sec: Seconds, w: Config)
    requires q.pending == map[] == q.pendingIndex && q.votes == q.voteIndex
    ensures Settle(q, (), sec, Some(w), NoLimit()).0 == WithPending(Empty(), map[PendingKey((), sec) := w])
  {
    assert forall a :: a in q.votes ==> a.key == ();
    assert ClearVotes(q, ()) == Empty();
    assert ClearPending(Empty<(), Config>(), ()) == Empty();
  }

  /** Both values have the lowered quorum of one, so the older one may win. */
  lemma OlderValueMayWin(q: Queue<(), Config>)
    requires q == AliceVoted(Stingy())
    ensures var r := PutVote(q, Vote(Encode(BOB), T2, (), Trigger()));
            && LegalWinner(r, (), 1, Some(Stingy())) && LegalWinner(r, (), 1, Some(Trigger()))
            && r.pending == map[] == r.pendingIndex && r.votes == r.voteIndex
  {
    NamesDiffer();
    var stingy, trigger := Stingy(), Trigger();
    assert stingy != trigger;
    hide Stingy, Trigger, Encode;
    var r := PutVote(q, Vote(Encode(BOB), T2, (), trigger));
    assert r.votes == map[Key(ALICE, 0) := stingy, Key(BOB, 1) := trigger];
    assert Supporters(r, (), stingy) == {Key(ALICE, 0)};
    assert Supporters(r, (), trigger) == {Key(BOB, 1)};
  }

  lemma BobTriggers(c: Chain)
    requires c == BlockThree(Generous(), AliceVoted(Stingy()))
    ensures Takes(InBlock, c, ReconfigureStep(Proposes(BOB, Trigger()), Some(Stingy())),
                  BlockThree(Generous(), StingyPending()))
    ensures Takes(InBlock, c, ReconfigureStep(Proposes(BOB, Trigger()), Some(Trigger())),
                  BlockThree(Generous(), TriggerPending()))
  {
    hide MayReconfigure, PutVote, LegalWinner, Settle;
    MayPropose(c, BOB, Trigger());
    OlderValueMayWin(c.admin);
    BecomesPending(PutVote(c.admin, Vote(Encode(BOB), T2, (), Trigger())), 1, Stingy());
    BecomesPending(PutVote(c.admin, Vote(Encode(BOB), T2, (), Trigger())), 1, Trigger());
  }

  lemma Installed(c: Chain, p: PendingKey<()>, w: Config)
    requires c.config.Some? && c.time.Some?
    requires c.admin.pending == map[p := w] == c.admin.pendingIndex
    requires 0 <= p.sec && Due(c.time.value, p.sec, c.config.value.admins.voting.delay)
    requires c.config.value.version < w.version
    ensures Takes(InBlock, c, PromoteConfigStep,
                  c.(config := Some(w), admin := c.admin.(pending := map[], pendingIndex := map[])))
  {
    assert RipeConfigs(c) == {p};
  }

  // ---------- The blocks ----------

  lemma FirstBlock() returns (h: History)
    ensures EndsWith(h, InBlock, BlockOne(Waiting())) && |h.steps| == 4
  {
    hide EndsWith, Takes, Generous, Stingy, Genesis;
    h := History([Genesis()], []);
    assert EndsWith(h, Between, Genesis()) by { GenesisIsHistory(); }
    BeginsBlockOne();
    h := Extend(h, Between, Genesis(), BeginBlock(1, T1), BlockOne(Empty()));
    AliceProposes(BlockOne(Empty()), Generous(), map[]);
    h := Extend(h, InBlock, BlockOne(Empty()), ReconfigureStep(Proposes(ALICE, Generous()), None),
                BlockOne(AliceVoted(Generous())));
    BobAgrees(BlockOne(AliceVoted(Generous())));
    h := Extend(h, InBlock, BlockOne(AliceVoted(Generous())),
                ReconfigureStep(Proposes(BOB, Generous()), Some(Generous())), BlockOne(GenerousPending()));
    AliceProposesStingy();
    h := Extend(h, InBlock, BlockOne(GenerousPending()), ReconfigureStep(Proposes(ALICE, Stingy()), None),
                BlockOne(Waiting()));
  }

  lemma GenesisIsHistory()
    ensures EndsWith(History([Genesis()], []), Between, Genesis())
  {}

  lemma BeginsBlockOne()
    ensures Takes(Between, Genesis(), BeginBlock(1, T1), BlockOne(Empty()))
  {
    BlockBegins(Between, Genesis(), 1, T1);
  }

  lemma AliceProposesStingy()
    ensures Takes(InBlock, BlockOne(GenerousPending()), ReconfigureStep(Proposes(ALICE, Stingy()), None), BlockOne(Waiting()))
  {
    hide Takes;
    AliceProposes(BlockOne(GenerousPending()), Stingy(), map[PendingKey((), 0) := Generous()]);
  }

  ghost function Recorded1(): Chain {
    BlockOne(Waiting()).(appHashes := map[0 := HASH])
  }

  ghost function Recorded2(): Chain {
    BlockTwo(Generous(), AliceVoted(Stingy())).(appHashes := map[0 := HASH, 1 := HASH])
  }

  lemma NothingRipeInBlockOne()
    ensures Takes(InBlock, BlockOne(Waiting()), PromoteConfigStep, BlockOne(Waiting()))
  {
    hide Takes;
    NoConfigChange(BlockOne(Waiting()));
  }

  lemma EndOfBlockOne()
    ensures Takes(Reconfigured, BlockOne(Waiting()), PromoteCanonicalStep, BlockOne(Waiting()))
    ensures Takes(Between, BlockOne(Waiting()), RecordHash(HASH), Recorded1())
  {
    hide Takes;
    NoCanonicalChange(BlockOne(Waiting()));
    HashRecorded(BlockOne(Waiting()), HASH);
  }

  lemma BeginsBlockTwo()
    ensures Takes(Phase.Recorded, Recorded1(), BeginBlock(2, T2), BlockTwo(Initial(), Waiting()))
  {
    hide Takes;
    BlockBegins(Phase.Recorded, Recorded1(), 2, T2);
  }

  /** The end of a block in which nothing is ripe, the record of its hash, and the start of the next block. */
  lemma FirstToSecond(h: History) returns (g: History)
    requires EndsWith(h, InBlock, BlockOne(Waiting()))
    ensures EndsWith(g, InBlock, BlockTwo(Initial(), Waiting())) && |g.steps| == |h.steps| + 4
  {
    hide EndsWith, Takes, BlockOne, BlockTwo, Recorded1, Waiting, Initial;
    NothingRipeInBlockOne();
    EndOfBlockOne();
    BeginsBlockTwo();
    g := Extend(h, InBlock, BlockOne(Waiting()), PromoteConfigStep, BlockOne(Waiting()));
    g := Extend(g, Reconfigured, BlockOne(Waiting()), PromoteCanonicalStep, BlockOne(Waiting()));
    g := Extend(g, Between, BlockOne(Waiting()), RecordHash(HASH), Recorded1());
    g := Extend(g, Phase.Recorded, Recorded1(), BeginBlock(2, T2), BlockTwo(Initial(), Waiting()));
  }

  lemma InstalledInBlockTwo()
    ensures Takes(InBlock, BlockTwo(Initial(), Waiting()), PromoteConfigStep, BlockTwo(Generous(), AliceVoted(Stingy())))
  {
    hide Takes;
    Installed(BlockTwo(Initial(), Waiting()), PendingKey((), 0), Generous());
  }

  lemma EndOfBlockTwo()
    ensures var two := BlockTwo(Generous(), AliceVoted(Stingy()));
            && Takes(Reconfigured, two, PromoteCanonicalStep, two)
            && Takes(Between, two, RecordHash(HASH), Recorded2())
  {
    hide Takes;
    NoCanonicalChange(BlockTwo(Generous(), AliceVoted(Stingy())));
    HashRecorded(BlockTwo(Generous(), AliceVoted(Stingy())), HASH);
  }

  lemma BeginsBlockThree()
    ensures Takes(Phase.Recorded, Recorded2(), BeginBlock(3, T2), BlockThree(Generous(), AliceVoted(Stingy())))
  {
    hide Takes;
    BlockBegins(Phase.Recorded, Recorded2(), 3, T2);
  }

  /** The second block installs the generous configuration; the third begins. */
  lemma SecondToThird(h: History) returns (g: History)
    requires EndsWith(h, InBlock, BlockTwo(Initial(), Waiting()))
    ensures EndsWith(g, InBlock, BlockThree(Generous(), AliceVoted(Stingy()))) && |g.steps| == |h.steps| + 4
  {
    hide EndsWith, Takes, BlockTwo, BlockThree, Recorded2, Waiting, Initial, Generous, AliceVoted;
    InstalledInBlockTwo();
    EndOfBlockTwo();
    BeginsBlockThree();
    var two := BlockTwo(Generous(), AliceVoted(Stingy()));
    g := Extend(h, InBlock, BlockTwo(Initial(), Waiting()), PromoteConfigStep, two);
    g := Extend(g, Reconfigured, two, PromoteCanonicalStep, two);
    g := Extend(g, Between, two, RecordHash(HASH), Recorded2());
    g := Extend(g, Phase.Recorded, Recorded2(), BeginBlock(3, T2), BlockThree(Generous(), AliceVoted(Stingy())));
  }

  /** The third block has begun: alice's vote for the stingy configuration waits under a quorum of one. */
  lemma ThirdBlock() returns (h: History)
    ensures EndsWith(h, InBlock, BlockThree(Generous(), AliceVoted(Stingy()))) && |h.steps| == 12
  {
    hide EndsWith;
    h := FirstBlock();
    h := FirstToSecond(h);
    h := SecondToThird(h);
  }

  // ---------- The results ----------

  lemma LastStates(h: History, c: Chain, e: Chain, d: Chain, s: Step, t: Step)
    requires EndsWith(h, InBlock, c)
    requires EndsWith(History(h.states + [d] + [e], h.steps + [s] + [t]), Reconfigured, e)
    requires c.config.Some? && e.config.Some?
    ensures var g := History(h.states + [d] + [e], h.steps + [s] + [t]);
            && IsHistory(g)
            && ConfigAt(g, |h.steps|) == c.config.value
            && ConfigAt(g, |h.steps| + 2) == e.config.value
  {
    var g := History(h.states + [d] + [e], h.steps + [s] + [t]);
    assert g.states[|h.steps|] == c && g.states[|h.steps| + 2] == e;
  }

  /**
    A history in which the limit goes from one to ten and back to one: without the assumption that
    the admin quorum is not lowered, the limit can decrease.
   */
  lemma LimitCanDecrease() returns (h: History)
    ensures IsHistory(h) && |h.states| == 15
    ensures ConfigAt(h, 12).oracles.maxEnrolledSubdomains == 10
    ensures ConfigAt(h, 14).oracles.maxEnrolledSubdomains == 1
  {
    hide EndsWith, Takes, IsHistory, ConfigAt;
    var f := ThirdBlock();
    var c := BlockThree(Generous(), AliceVoted(Stingy()));
    var s := ReconfigureStep(Proposes(BOB, Trigger()), Some(Stingy()));
    BobTriggers(c);
    var g := Extend(f, InBlock, c, s, BlockThree(Generous(), StingyPending()));
    Installed(BlockThree(Generous(), StingyPending()), PendingKey((), 1), Stingy());
    h := Extend(g, InBlock, BlockThree(Generous(), StingyPending()), PromoteConfigStep, BlockThree(Stingy(), Empty()));
    LengthOf(f, c);
    LastStates(f, c, BlockThree(Stingy(), Empty()), BlockThree(Generous(), StingyPending()), s, PromoteConfigStep);
  }

  lemma LengthOf(h: History, c: Chain)
    requires EndsWith(h, InBlock, c)
    ensures |h.states| == |h.steps| + 1
  {}

  lemma EndOf(h: History, c: Chain)
    requires EndsWith(h, InBlock, c)
    ensures IsHistory(h) && |h.states| == |h.steps| + 1 && h.states[|h.steps|] == c
  {}

  /** Two replicas that process the same inputs from the same genesis can end in different states. */
  lemma ReplicasCanDiverge() returns (g: History, h: History)
    ensures IsHistory(g) && IsHistory(h)
    ensures |g.steps| == |h.steps| == 13 && g.states[0] == h.states[0]
    ensures forall i :: 0 <= i < |g.steps| ==> SameInput(g.steps[i], h.steps[i])
    ensures g.states[13] != h.states[13]
  {
    hide EndsWith, Takes, IsHistory;
    var f := ThirdBlock();
    var c := BlockThree(Generous(), AliceVoted(Stingy()));
    BobTriggers(c);
    EndOf(f, c);
    var d, e := BlockThree(Generous(), StingyPending()), BlockThree(Generous(), TriggerPending());
    g := Extend(f, InBlock, c, ReconfigureStep(Proposes(BOB, Trigger()), Some(Stingy())), d);
    h := Extend(f, InBlock, c, ReconfigureStep(Proposes(BOB, Trigger()), Some(Trigger())), e);
    EndOf(g, d);
    EndOf(h, e);
    OutcomesDiffer();
    hide BlockThree;
  }

  lemma OutcomesDiffer()
    ensures BlockThree(Generous(), StingyPending()) != BlockThree(Generous(), TriggerPending())
  {
    var p := PendingKey((), 1);
    assert StingyPending().pending[p] != TriggerPending().pending[p];
  }
}
