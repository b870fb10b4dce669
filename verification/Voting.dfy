/** Proposals, votes and their lifecycle as a machine over storage. Each call
    carries the ledger number at which it is made. */
module VotingMachine {
  import opened Panics
  import opened Host
  import opened Integers
  import opened SquareRoot

  datatype Strategy = Weighted | Quadratic | Flat

  datatype State = Pending | Active | Succeeded | Defeated | Executed | Cancelled

  datatype Support = For | Against | Abstain

  datatype Proposal = Proposal(
    id: u64,
    votingStart: u32,
    votingEnd: u32,
    timelock: u32,
    votesFor: i128,
    votesAgainst: i128,
    votesAbstain: i128,
    quorum: i128,
    strategy: Strategy,
    state: State,
    createdAt: u64,
    supplySnapshot: i128)
  {
    function Votes(side: Support): i128
    {
      match side case For => votesFor case Against => votesAgainst case Abstain => votesAbstain
    }

    function WithVotes(side: Support, votes: i128): Proposal
    {
      match side
      case For => this.(votesFor := votes)
      case Against => this.(votesAgainst := votes)
      case Abstain => this.(votesAbstain := votes)
    }

    /** The proposal with one more vote counted. */
    function Counted(side: Support, weight: i128): Option<Proposal>
    {
      var votes :- Checked(Votes(side) + weight);
      Some(this.(state := Active).WithVotes(side, votes))
    }

    /** A proposal that can still be voted on, finalised or cancelled. */
    predicate Open() { state == Pending || state == Active }

    predicate Passed()
    {
      votesFor + votesAgainst + votesAbstain >= quorum && votesFor > votesAgainst
    }
  }

  datatype VoteRecord = VoteRecord(voter: Address, support: Support, weight: i128, castAt: u32)

  function VoteRoot(x: i128): Option<i128>
  {
    if x == I128_MAX then None else Some(if x <= 0 then 0 else RootInRange(x))
  }

  function RootInRange(x: i128): i128
    requires x >= 0
  {
    RootAtMostArgument(x);
    Isqrt(x)
  }

  function Weight(strategy: Strategy, balance: i128): Option<i128>
  {
    match strategy
    case Weighted => Some(balance)
    case Quadratic => VoteRoot(balance)
    case Flat => Some(if balance > 0 then 1 else 0)
  }

  datatype Governance = Governance(
    proposals: map<u64, Proposal>,
    records: map<(u64, Address), VoteRecord>,
    nextId: u64,
    votingDelay: u32,
    totalSupply: i128,
    quorumPercentage: i128)
  {
    function CreateProposal(now: u32, timestamp: u64, votingEnd: u32, strategy: Strategy, timelock: u32)
      : Option<(Governance, u64)>
    {
      var _ :- Require(votingEnd > now);
      var _ :- Require(timelock >= votingEnd);
      var quorum :- MulDiv(totalSupply, quorumPercentage, 100);
      var next :- CheckedU64(nextId + 1);
      var p := Proposal(nextId, Min(now + votingDelay, U32_MAX), votingEnd, timelock,
                        0, 0, 0, quorum, strategy, Pending, timestamp, totalSupply);
      Some((this.(proposals := proposals[nextId := p], nextId := next), nextId))
    }

    function CastVote(now: u32, id: u64, voter: Address, support: Support, balance: i128): Option<(Governance, ())>
    {
      var _ :- Require(balance >= 0);
      var _ :- Require(id in proposals);
      var p := proposals[id];
      var _ :- Require(p.votingStart <= now < p.votingEnd);
      var _ :- Require(p.Open());
      var _ :- Require((id, voter) !in records);
      var weight :- Weight(p.strategy, balance);
      var counted :- p.Counted(support, weight);
      Some((this.(proposals := proposals[id := counted],
                  records := records[(id, voter) := VoteRecord(voter, support, weight, now)]), ()))
    }

    function FinaliseProposal(now: u32, id: u64): Option<(Governance, bool)>
    {
      var _ :- Require(id in proposals);
      var p := proposals[id];
      var _ :- Require(p.Open());
      var _ :- Require(now >= p.votingEnd);
      var sum :- Checked(p.votesFor + p.votesAgainst);
      var _ :- Checked(sum + p.votesAbstain);
      Some((this.(proposals := proposals[id := p.(state := if p.Passed() then Succeeded else Defeated)]), p.Passed()))
    }

    function ExecuteProposal(now: u32, id: u64): Option<(Governance, ())>
    {
      var _ :- Require(id in proposals);
      var p := proposals[id];
      var _ :- Require(p.state == Succeeded);
      var _ :- Require(now >= p.timelock);
      Some((this.(proposals := proposals[id := p.(state := Executed)]), ()))
    }

    function CancelProposal(id: u64): Option<(Governance, ())>
    {
      var _ :- Require(id in proposals);
      var p := proposals[id];
      var _ :- Require(p.Open());
      Some((this.(proposals := proposals[id := p.(state := Cancelled)]), ()))
    }

    function SetQuorumPercentage(percentage: i128): Option<(Governance, ())>
    {
      var _ :- Require(0 < percentage <= 100);
      Some((this.(quorumPercentage := percentage), ()))
    }
  }

  const INITIAL := Governance(map[], map[], 1, 0, 1_000_000_000_000_000, 20)

  datatype Call =
    | Create(now: u32, timestamp: u64, votingEnd: u32, strategy: Strategy, timelock: u32)
    | Cast(now: u32, id: u64, voter: Address, support: Support, balance: i128)
    | Finalise(now: u32, id: u64)
    | Execute(now: u32, id: u64)
    | Cancel(id: u64)
    | SetDelay(delay: u32)
    | SetSupply(supply: i128)
    | SetQuorum(percentage: i128)

  function After<T>(before: Governance, result: Option<(Governance, T)>): Governance
  {
    if result.Some? then result.value.0 else before
  }

  function Step(g: Governance, call: Call): Governance
  {
    match call
    case Create(now, timestamp, votingEnd, strategy, timelock) =>
      After(g, g.CreateProposal(now, timestamp, votingEnd, strategy, timelock))
    case Cast(now, id, voter, support, balance) => After(g, g.CastVote(now, id, voter, support, balance))
    case Finalise(now, id) => After(g, g.FinaliseProposal(now, id))
    case Execute(now, id) => After(g, g.ExecuteProposal(now, id))
    case Cancel(id) => After(g, g.CancelProposal(id))
    case SetDelay(delay) => g.(votingDelay := delay)
    case SetSupply(supply) => g.(totalSupply := supply)
    case SetQuorum(percentage) => After(g, g.SetQuorumPercentage(percentage))
  }

  function Run(g: Governance, calls: seq<Call>): Governance
    decreases |calls|
  {
    if calls == [] then g else Run(Step(g, calls[0]), calls[1..])
  }
}

/** What every run of the voting machine keeps. */
module VotingSafety {
  import opened Panics
  import opened Host
  import opened Integers
  import opened Sums
  import opened SquareRoot
  import opened VotingMachine

  /** A vote weighs its balance, the floor root of it, or one. The weight is
      monotone in the balance, never above the weighted one, and undefined for
      one input alone. */
  lemma WeightLaws(strategy: Strategy, a: i128, b: i128)
    requires 0 <= a <= b
    ensures Weight(strategy, b).None? <==> strategy == Quadratic && b == I128_MAX
    ensures Weight(strategy, b).Some? ==> Weight(strategy, a).Some?
    ensures Weight(strategy, b).Some? ==> 0 <= Weight(strategy, a).value <= Weight(strategy, b).value
    ensures Weight(strategy, b).Some? ==> Weight(strategy, b).value <= Weight(Weighted, b).value
    ensures Weight(strategy, b).Some? ==>
      match strategy
      case Weighted => Weight(strategy, b).value == b
      case Quadratic => IsRoot(b, Weight(strategy, b).value)
      case Flat => Weight(strategy, b).value == if b == 0 then 0 else 1
  {
    if strategy == Quadratic {
      RootMonotone(a, b);
      RootAtMostArgument(b);
      RootAtMostArgument(0);
    }
  }

  // ---- tallies --------------------------------------------------------------

  /** The weights of the stored votes on one side of one proposal. */
  function SideWeights(records: map<(u64, Address), VoteRecord>, id: u64, side: Support)
    : map<(u64, Address), int>
  {
    map k | k in records && k.0 == id && records[k].support == side :: records[k].weight
  }

  ghost function Tally(records: map<(u64, Address), VoteRecord>, id: u64, side: Support): int
  {
    MapSum(SideWeights(records, id, side))
  }

  /** A new record adds its weight to its own side of its own proposal and to
      nothing else. */
  lemma TallyOfNewRecord(records: map<(u64, Address), VoteRecord>, key: (u64, Address), r: VoteRecord,
                         id: u64, side: Support)
    requires key !in records
    ensures Tally(records[key := r], id, side)
         == Tally(records, id, side) + (if key.0 == id && r.support == side then r.weight else 0)
  {
    var old' := SideWeights(records, id, side);
    var new' := SideWeights(records[key := r], id, side);
    if key.0 == id && r.support == side {
      assert new' == old'[key := r.weight];
      MapSumSet(old', key, r.weight);
    } else {
      assert new' == old';
    }
  }

  /** The votes met the quorum, and those in favour are the strict majority. */
  predicate Carried(p: Proposal)
  {
    p.votesFor + p.votesAgainst + p.votesAbstain >= p.quorum && p.votesFor > p.votesAgainst
  }

  /** One proposal against the stored records. */
  ghost predicate ProposalSound(g: Governance, id: u64)
    requires id in g.proposals
  {
    var p := g.proposals[id];
    && p.id == id && id < g.nextId && p.timelock >= p.votingEnd
    && (forall side :: p.Votes(side) == Tally(g.records, id, side))
    && p.votesFor >= 0 && p.votesAgainst >= 0 && p.votesAbstain >= 0
    && (p.state == Pending ==> forall k :: k in g.records ==> k.0 != id)
    && (p.state == Succeeded || p.state == Executed ==> Carried(p))
    && (p.state == Defeated ==> !Carried(p))
  }

  /** Every record belongs to a stored proposal and was cast in its window. */
  ghost predicate RecordsSound(g: Governance)
  {
    forall k :: k in g.records ==>
      && k.0 in g.proposals && g.records[k].voter == k.1 && g.records[k].weight >= 0
      && g.proposals[k.0].votingStart <= g.records[k].castAt < g.proposals[k.0].votingEnd
  }

  ghost predicate Consistent(g: Governance)
  {
    RecordsSound(g) && forall id :: id in g.proposals ==> ProposalSound(g, id)
  }

  /** Accepting a vote on a proposal with sound tallies. */
  lemma CastKeepsConsistent(g: Governance, now: u32, id: u64, voter: Address, support: Support, balance: i128)
    requires Consistent(g) && g.CastVote(now, id, voter, support, balance).Some?
    ensures Consistent(g.CastVote(now, id, voter, support, balance).value.0)
  {
    var p, next := g.proposals[id], g.CastVote(now, id, voter, support, balance).value.0;
    WeightNonNegative(p.strategy, balance);
    var record := VoteRecord(voter, support, Weight(p.strategy, balance).value, now);
    assert next == g.(proposals := g.proposals[id := p.Counted(support, record.weight).value],
                      records := g.records[(id, voter) := record]);
    forall other | other in next.proposals
      ensures ProposalSound(next, other)
    {
      assert ProposalSound(g, other);
      CountedVoteSound(g, id, (id, voter), record, other);
    }
  }

  lemma CountedVoteSound(g: Governance, id: u64, key: (u64, Address), record: VoteRecord, other: u64)
    requires id in g.proposals && other in g.proposals && ProposalSound(g, other)
    requires key.0 == id && key !in g.records && record.weight >= 0
    requires g.proposals[id].Open() && g.proposals[id].Counted(record.support, record.weight).Some?
    ensures ProposalSound(g.(proposals := g.proposals[id := g.proposals[id].Counted(record.support, record.weight).value],
                             records := g.records[key := record]), other)
  {
    var counted := g.proposals[id].Counted(record.support, record.weight).value;
    var records := g.records[key := record];
    var q := g.proposals[id := counted][other];
    forall side
      ensures q.Votes(side) == Tally(records, other, side)
    {
      TallyOfNewRecord(g.records, key, record, other, side);
      assert g.proposals[other].Votes(side) == Tally(g.records, other, side);
    }
  }

  lemma WeightNonNegative(strategy: Strategy, balance: i128)
    requires balance >= 0
    ensures Weight(strategy, balance).Some? ==> Weight(strategy, balance).value >= 0
  {
  }

  lemma NoVotesNoTally(records: map<(u64, Address), VoteRecord>, id: u64, side: Support)
    requires forall k :: k in records ==> k.0 != id
    ensures Tally(records, id, side) == 0
  {
    assert SideWeights(records, id, side) == map[];
  }

  /** A proposal nobody voted on cannot pass. */
  lemma PendingCannotPass(g: Governance, id: u64)
    requires id in g.proposals && ProposalSound(g, id) && g.proposals[id].state == Pending
    ensures !Carried(g.proposals[id])
  {
    NoVotesNoTally(g.records, id, For);
    NoVotesNoTally(g.records, id, Against);
    assert g.proposals[id].Votes(For) == g.proposals[id].Votes(Against);
  }

  lemma CreateKeepsConsistent(g: Governance, now: u32, ts: u64, votingEnd: u32, strategy: Strategy, timelock: u32)
    requires Consistent(g) && g.CreateProposal(now, ts, votingEnd, strategy, timelock).Some?
    ensures Consistent(g.CreateProposal(now, ts, votingEnd, strategy, timelock).value.0)
  {
    var next := g.CreateProposal(now, ts, votingEnd, strategy, timelock).value.0;
    forall id | id in g.proposals
      ensures id < g.nextId
    {
      assert ProposalSound(g, id);
    }
    forall id | id in next.proposals
      ensures ProposalSound(next, id)
    {
      if id == g.nextId {
        forall side { NoVotesNoTally(g.records, id, side); }
      } else {
        assert ProposalSound(g, id);
      }
    }
  }

  lemma MoveKeepsConsistent(g: Governance, id: u64, state: State)
    requires Consistent(g) && id in g.proposals && state != Pending
    requires state == Succeeded || state == Executed ==> Carried(g.proposals[id])
    requires state == Defeated ==> !Carried(g.proposals[id])
    ensures Consistent(g.(proposals := g.proposals[id := g.proposals[id].(state := state)]))
  {
    var next := g.(proposals := g.proposals[id := g.proposals[id].(state := state)]);
    forall other | other in next.proposals
      ensures ProposalSound(next, other)
    {
      MovedSound(g, id, state, other);
    }
  }

  lemma MovedSound(g: Governance, id: u64, state: State, other: u64)
    requires Consistent(g) && id in g.proposals && other in g.proposals && state != Pending
    requires state == Succeeded || state == Executed ==> Carried(g.proposals[id])
    requires state == Defeated ==> !Carried(g.proposals[id])
    ensures ProposalSound(g.(proposals := g.proposals[id := g.proposals[id].(state := state)]), other)
  {
    var next := g.(proposals := g.proposals[id := g.proposals[id].(state := state)]);
    assert ProposalSound(g, other);
    assert forall side :: next.proposals[other].Votes(side) == g.proposals[other].Votes(side);
  }

  lemma SettingsKeepConsistent(g: Governance, next: Governance)
    requires Consistent(g)
    requires next.proposals == g.proposals && next.records == g.records && next.nextId == g.nextId
    ensures Consistent(next)
  {
    forall id | id in next.proposals
      ensures ProposalSound(next, id)
    {
      assert ProposalSound(g, id);
    }
  }

  lemma StepKeepsConsistent(g: Governance, call: Call)
    requires Consistent(g)
    ensures Consistent(Step(g, call))
  {
    var next := Step(g, call);
    match call
    case Create(now, ts, votingEnd, strategy, timelock) =>
      if next != g { CreateKeepsConsistent(g, now, ts, votingEnd, strategy, timelock); }
    case Cast(now, id, voter, support, balance) =>
      if next != g { CastKeepsConsistent(g, now, id, voter, support, balance); }
    case Finalise(now, id) =>
      if next != g { MoveKeepsConsistent(g, id, next.proposals[id].state); }
    case Execute(now, id) =>
      if next != g { MoveKeepsConsistent(g, id, Executed); }
    case Cancel(id) =>
      if next != g { MoveKeepsConsistent(g, id, Cancelled); }
    case SetDelay(_) => SettingsKeepConsistent(g, next);
    case SetSupply(_) => SettingsKeepConsistent(g, next);
    case SetQuorum(_) => SettingsKeepConsistent(g, next);
  }

  /** In every reachable state the tallies are the sums of the stored votes,
      every vote was cast inside its window, and a proposal that succeeded or
      was executed met its quorum and its strict majority. */
  lemma {:induction false} RunKeepsConsistent(g: Governance, calls: seq<Call>)
    requires Consistent(g)
    ensures Consistent(Run(g, calls))
    decreases |calls|
  {
    if calls != [] {
      StepKeepsConsistent(g, calls[0]);
      RunKeepsConsistent(Step(g, calls[0]), calls[1..]);
    }
  }

  lemma ReachableConsistent(calls: seq<Call>)
    ensures Consistent(Run(INITIAL, calls))
  {
    RunKeepsConsistent(INITIAL, calls);
  }

  // ---- lifecycle ------------------------------------------------------------

  /** The moves a single call can make. */
  predicate Edge(a: State, b: State)
  {
    || a == b
    || (a == Pending && (b == Active || b == Defeated || b == Cancelled))
    || (a == Active && (b == Succeeded || b == Defeated || b == Cancelled))
    || (a == Succeeded && b == Executed)
  }

  /** The states a run can lead to. */
  predicate Later(a: State, b: State)
  {
    a == b || a == Pending || (a == Active && b != Pending) || (a == Succeeded && b == Executed)
  }

  /** What a call, or a run of calls, leaves of a stored proposal: the terms it
      was created with, every vote already cast, and, once it is closed, the
      tallies and the votes themselves. */
  ghost predicate Preserved(g: Governance, h: Governance, id: u64)
    requires id in g.proposals
  {
    && id in h.proposals
    && var p, q := g.proposals[id], h.proposals[id];
    && q.(state := p.state, votesFor := p.votesFor, votesAgainst := p.votesAgainst, votesAbstain := p.votesAbstain) == p
    && (forall v :: (id, v) in g.records ==> (id, v) in h.records && h.records[(id, v)] == g.records[(id, v)])
    && (!p.Open() ==> q.(state := p.state) == p && forall v :: (id, v) in h.records ==> (id, v) in g.records)
  }

  lemma StepMovesForward(g: Governance, call: Call, id: u64)
    requires Consistent(g) && id in g.proposals
    ensures Preserved(g, Step(g, call), id)
    ensures Edge(g.proposals[id].state, Step(g, call).proposals[id].state)
  {
    assert ProposalSound(g, id);
    if call.Cast? {
      CastPreserves(g, call.now, call.id, call.voter, call.support, call.balance, id);
    } else {
      OnlyVotesCount(g, call, id);
      StepTakesEdge(g, call, id);
    }
  }

  lemma StepTakesEdge(g: Governance, call: Call, id: u64)
    requires id in g.proposals && ProposalSound(g, id) && !call.Cast?
    ensures id in Step(g, call).proposals
    ensures Edge(g.proposals[id].state, Step(g, call).proposals[id].state)
  {
    if call.Finalise? && g.proposals[id].state == Pending { PendingCannotPass(g, id); }
  }

  lemma CastPreserves(g: Governance, now: u32, other: u64, voter: Address, support: Support, balance: i128, id: u64)
    requires id in g.proposals
    ensures var next := Step(g, Cast(now, other, voter, support, balance));
      Preserved(g, next, id) && Edge(g.proposals[id].state, next.proposals[id].state)
  {
    if g.CastVote(now, other, voter, support, balance).Some? && other == id {
      var p, q := g.proposals[id], g.CastVote(now, other, voter, support, balance).value.0.proposals[id];
      assert p.Open() && q.state == Active;
    }
  }

  /** Over every run a proposal's state only moves forward, and a closed
      proposal keeps its tallies and its votes for good. */
  lemma {:induction false} RunMovesForward(g: Governance, calls: seq<Call>, id: u64)
    requires Consistent(g) && id in g.proposals
    ensures Preserved(g, Run(g, calls), id)
    ensures Later(g.proposals[id].state, Run(g, calls).proposals[id].state)
    decreases |calls|
  {
    if calls != [] {
      var next := Step(g, calls[0]);
      StepMovesForward(g, calls[0], id);
      StepKeepsConsistent(g, calls[0]);
      RunMovesForward(next, calls[1..], id);
    }
  }

  /** Only votes change tallies and records. */
  lemma OnlyVotesCount(g: Governance, call: Call, id: u64)
    requires id in g.proposals && id < g.nextId && !call.Cast?
    ensures Step(g, call).records == g.records && id in Step(g, call).proposals
    ensures Step(g, call).proposals[id].(state := g.proposals[id].state) == g.proposals[id]
  {
  }

  lemma CastTouchesOne(g: Governance, call: Call, id: u64)
    requires id in g.proposals && call.Cast?
    requires call.id != id || call.now >= g.proposals[id].votingEnd
    ensures id in Step(g, call).proposals && Step(g, call).proposals[id] == g.proposals[id]
    ensures forall v :: (id, v) in Step(g, call).records <==> (id, v) in g.records
  {
  }

  lemma StepAfterWindow(g: Governance, call: Call, id: u64)
    requires Consistent(g) && id in g.proposals
    requires call.Cast? ==> call.now >= g.proposals[id].votingEnd
    ensures id in Step(g, call).proposals
    ensures Step(g, call).proposals[id].votingEnd == g.proposals[id].votingEnd
    ensures forall side :: Step(g, call).proposals[id].Votes(side) == g.proposals[id].Votes(side)
    ensures forall v :: (id, v) in Step(g, call).records <==> (id, v) in g.records
  {
    if call.Cast? {
      CastTouchesOne(g, call, id);
    } else {
      assert ProposalSound(g, id);
      OnlyVotesCount(g, call, id);
      var p, q := g.proposals[id], Step(g, call).proposals[id];
      assert q.votesFor == p.votesFor && q.votesAgainst == p.votesAgainst && q.votesAbstain == p.votesAbstain;
    }
  }

  /** From the first ledger at or past the end of the voting window on, no run
      changes the tallies or the votes of a proposal, finalised or not. */
  lemma {:induction false} WindowClosesTallies(g: Governance, calls: seq<Call>, id: u64)
    requires Consistent(g) && id in g.proposals
    requires forall i :: 0 <= i < |calls| && calls[i].Cast? ==> calls[i].now >= g.proposals[id].votingEnd
    ensures id in Run(g, calls).proposals
    ensures forall side :: Run(g, calls).proposals[id].Votes(side) == g.proposals[id].Votes(side)
    ensures forall v :: (id, v) in Run(g, calls).records <==> (id, v) in g.records
    decreases |calls|
  {
    if calls != [] {
      StepAfterWindow(g, calls[0], id);
      StepKeepsConsistent(g, calls[0]);
      WindowClosesTallies(Step(g, calls[0]), calls[1..], id);
    }
  }

  /** The ledgers at which executions of a proposal went through. */
  function Executions(g: Governance, calls: seq<Call>, id: u64): seq<u32>
    decreases |calls|
  {
    if calls == [] then [] else
      var c := calls[0];
      var rest := Executions(Step(g, c), calls[1..], id);
      if c.Execute? && c.id == id && g.ExecuteProposal(c.now, id).Some? then [c.now] + rest else rest
  }

  /** Over every run a proposal is executed at most once, at a ledger no
      earlier than its timelock and so no earlier than the end of its voting
      window, and only after passing. */
  lemma {:induction false} ExecutedAtMostOnce(g: Governance, calls: seq<Call>, id: u64)
    requires Consistent(g)
    ensures var ledgers := Executions(g, calls, id);
      && |ledgers| <= 1
      && (id in g.proposals && g.proposals[id].state !in {Pending, Active, Succeeded} ==> ledgers == [])
      && (ledgers != [] ==>
            && id in Run(g, calls).proposals
            && var p := Run(g, calls).proposals[id];
            && p.state == Executed && Carried(p) && ledgers[0] >= p.timelock >= p.votingEnd)
    decreases |calls|
  {
    if calls != [] {
      var c := calls[0];
      var next := Step(g, c);
      StepKeepsConsistent(g, c);
      if id in g.proposals { StepMovesForward(g, c, id); }
      ExecutedAtMostOnce(next, calls[1..], id);
      if c.Execute? && c.id == id && g.ExecuteProposal(c.now, id).Some? {
        RunMovesForward(next, calls[1..], id);
        RunKeepsConsistent(next, calls[1..]);
        assert ProposalSound(Run(next, calls[1..]), id);
      }
    }
  }

  // ---- creating, voting and deciding ----------------------------------------

  /** What a created proposal holds: a window that opens after the delay, the
      quorum as its part of the supply, rounded toward zero, and no votes. */
  lemma CreateExact(g: Governance, now: u32, ts: u64, votingEnd: u32, strategy: Strategy, timelock: u32)
    ensures g.CreateProposal(now, ts, votingEnd, strategy, timelock).Some? <==>
      && votingEnd > now && timelock >= votingEnd && g.nextId < U64_MAX
      && I128_MIN <= g.totalSupply * g.quorumPercentage <= I128_MAX
    ensures g.CreateProposal(now, ts, votingEnd, strategy, timelock).Some? ==>
      var (next, id) := g.CreateProposal(now, ts, votingEnd, strategy, timelock).value;
      && id == g.nextId && next.nextId == id + 1 && next.records == g.records
      && next.proposals.Keys == g.proposals.Keys + {id}
      && (forall other :: other in g.proposals && other != id ==> next.proposals[other] == g.proposals[other])
      && (next.votingDelay, next.totalSupply, next.quorumPercentage) == (g.votingDelay, g.totalSupply, g.quorumPercentage)
      && var p := next.proposals[id];
      && p.id == id && p.state == Pending && p.strategy == strategy && p.createdAt == ts
      && p.votingStart == (if now + g.votingDelay <= U32_MAX then now + g.votingDelay else U32_MAX)
      && p.votingEnd == votingEnd && p.timelock == timelock && p.supplySnapshot == g.totalSupply
      && p.votesFor == 0 && p.votesAgainst == 0 && p.votesAbstain == 0
      && IsPercentage(p.quorum, g.totalSupply * g.quorumPercentage)
  {
    QuorumPart(g.totalSupply, g.quorumPercentage);
  }

  lemma QuorumPart(supply: i128, percentage: i128)
    ensures MulDiv(supply, percentage, 100).Some? <==> I128_MIN <= supply * percentage <= I128_MAX
    ensures MulDiv(supply, percentage, 100).Some? ==> IsPercentage(MulDiv(supply, percentage, 100).value, supply * percentage)
  {
    TruncatedPercentage(supply * percentage);
  }

  /** q is n hundredths, rounded toward zero. */
  predicate IsPercentage(q: int, n: int)
  {
    if n >= 0 then q * 100 <= n < (q + 1) * 100 else (q - 1) * 100 < n <= q * 100
  }

  lemma TruncatedPercentage(n: int)
    ensures IsPercentage(TruncDiv(n, 100), n)
    ensures I128_MIN <= n <= I128_MAX ==> I128_MIN <= TruncDiv(n, 100) <= I128_MAX
  {
  }

  /** Whatever happens after a proposal was created, its votes lie inside its
      window, and so none before the delay has passed. */
  lemma NoVoteBeforeDelay(g: Governance, now: u32, ts: u64, votingEnd: u32, strategy: Strategy, timelock: u32,
                          calls: seq<Call>, voter: Address)
    requires Consistent(g) && g.CreateProposal(now, ts, votingEnd, strategy, timelock).Some?
    requires var (next, id) := g.CreateProposal(now, ts, votingEnd, strategy, timelock).value;
      (id, voter) in Run(next, calls).records
    ensures var (next, id) := g.CreateProposal(now, ts, votingEnd, strategy, timelock).value;
      now + g.votingDelay <= Run(next, calls).records[(id, voter)].castAt < votingEnd
  {
    var (next, id) := g.CreateProposal(now, ts, votingEnd, strategy, timelock).value;
    CreateKeepsConsistent(g, now, ts, votingEnd, strategy, timelock);
    CreateExact(g, now, ts, votingEnd, strategy, timelock);
    RunMovesForward(next, calls, id);
    RunKeepsConsistent(next, calls);
    assert RecordsSound(Run(next, calls));
  }

  /** The votes that are accepted, and all that one changes. */
  lemma CastExact(g: Governance, now: u32, id: u64, voter: Address, support: Support, balance: i128)
    ensures g.CastVote(now, id, voter, support, balance).Some? <==>
      && balance >= 0 && id in g.proposals && (id, voter) !in g.records
      && g.proposals[id].votingStart <= now < g.proposals[id].votingEnd
      && (g.proposals[id].state == Pending || g.proposals[id].state == Active)
      && Weight(g.proposals[id].strategy, balance).Some?
      && I128_MIN <= g.proposals[id].Votes(support) + Weight(g.proposals[id].strategy, balance).value <= I128_MAX
    ensures g.CastVote(now, id, voter, support, balance).Some? ==>
      var next, w := g.CastVote(now, id, voter, support, balance).value.0, Weight(g.proposals[id].strategy, balance).value;
      && next == g.(proposals := next.proposals, records := g.records[(id, voter) := VoteRecord(voter, support, w, now)])
      && next.proposals.Keys == g.proposals.Keys
      && (forall other :: other in g.proposals && other != id ==> next.proposals[other] == g.proposals[other])
      && var p, q := g.proposals[id], next.proposals[id];
      && q.state == Active
      && (forall side :: q.Votes(side) == p.Votes(side) + (if side == support then w else 0))
      && q.(state := p.state, votesFor := p.votesFor, votesAgainst := p.votesAgainst, votesAbstain := p.votesAbstain) == p
  {
  }

  /** The votes in the records decide: an accepted finalisation answers true,
      and stores Succeeded, exactly when they meet the quorum and those in
      favour outweigh those against; otherwise it stores Defeated. */
  lemma FinaliseDecides(g: Governance, now: u32, id: u64)
    requires Consistent(g)
    ensures g.FinaliseProposal(now, id).Some? <==>
      && id in g.proposals && (g.proposals[id].state == Pending || g.proposals[id].state == Active)
      && now >= g.proposals[id].votingEnd
      && Tally(g.records, id, For) + Tally(g.records, id, Against) + Tally(g.records, id, Abstain) <= I128_MAX
    ensures g.FinaliseProposal(now, id).Some? ==>
      var (next, passed) := g.FinaliseProposal(now, id).value;
      && (passed <==>
            && Tally(g.records, id, For) + Tally(g.records, id, Against) + Tally(g.records, id, Abstain) >= g.proposals[id].quorum
            && Tally(g.records, id, For) > Tally(g.records, id, Against))
      && next == g.(proposals := g.proposals[id := g.proposals[id].(state := if passed then Succeeded else Defeated)])
  {
    if id in g.proposals {
      TalliesStored(g, id);
    }
  }

  lemma TalliesStored(g: Governance, id: u64)
    requires Consistent(g) && id in g.proposals
    ensures g.proposals[id].votesFor == Tally(g.records, id, For) >= 0
    ensures g.proposals[id].votesAgainst == Tally(g.records, id, Against) >= 0
    ensures g.proposals[id].votesAbstain == Tally(g.records, id, Abstain) >= 0
  {
    assert ProposalSound(g, id);
    assert g.proposals[id].Votes(For) == Tally(g.records, id, For);
    assert g.proposals[id].Votes(Against) == Tally(g.records, id, Against);
    assert g.proposals[id].Votes(Abstain) == Tally(g.records, id, Abstain);
  }

  lemma InitialFinalise(calls: seq<Call>, now: u32, id: u64)
    requires Run(INITIAL, calls).FinaliseProposal(now, id).Some?
    ensures var g := Run(INITIAL, calls);
      id in g.proposals &&
      (g.FinaliseProposal(now, id).value.1 <==>
         && Tally(g.records, id, For) + Tally(g.records, id, Against) + Tally(g.records, id, Abstain) >= g.proposals[id].quorum
         && Tally(g.records, id, For) > Tally(g.records, id, Against))
  {
    ReachableConsistent(calls);
    FinaliseDecides(Run(INITIAL, calls), now, id);
  }

  /** In every reachable state the outcome that is stored is the outcome of the
      votes that are stored. */
  lemma StoredOutcome(calls: seq<Call>, id: u64)
    requires id in Run(INITIAL, calls).proposals
    ensures var g := Run(INITIAL, calls);
      var p := g.proposals[id];
      var carried :=
        && Tally(g.records, id, For) + Tally(g.records, id, Against) + Tally(g.records, id, Abstain) >= p.quorum
        && Tally(g.records, id, For) > Tally(g.records, id, Against);
      && (p.state == Succeeded || p.state == Executed ==> carried)
      && (p.state == Defeated ==> !carried)
  {
    ReachableConsistent(calls);
    TalliesStored(Run(INITIAL, calls), id);
    assert ProposalSound(Run(INITIAL, calls), id);
  }

  /** The closing calls: when they go through, and that they change the state of
      the one proposal alone. */
  lemma CloseExact(g: Governance, now: u32, id: u64)
    ensures g.ExecuteProposal(now, id).Some? <==>
      id in g.proposals && g.proposals[id].state == Succeeded && now >= g.proposals[id].timelock
    ensures g.ExecuteProposal(now, id).Some? ==>
      g.ExecuteProposal(now, id).value.0 == g.(proposals := g.proposals[id := g.proposals[id].(state := Executed)])
    ensures g.CancelProposal(id).Some? <==>
      id in g.proposals && (g.proposals[id].state == Pending || g.proposals[id].state == Active)
    ensures g.CancelProposal(id).Some? ==>
      g.CancelProposal(id).value.0 == g.(proposals := g.proposals[id := g.proposals[id].(state := Cancelled)])
  {
  }

  /** A proposal that is carried when its window has ended can be finalised and,
      from its timelock on, executed; one that is not is defeated for good. */
  lemma CarriedIsExecuted(g: Governance, id: u64, now: u32, later: u32, calls: seq<Call>)
    requires Consistent(g) && g.FinaliseProposal(now, id).Some?
    ensures Carried(g.proposals[id]) && later >= g.proposals[id].timelock ==>
      Step(Step(g, Finalise(now, id)), Execute(later, id)).proposals[id].state == Executed
    ensures !Carried(g.proposals[id]) ==>
      var end := Run(Step(g, Finalise(now, id)), calls);
      id in end.proposals && end.proposals[id].state == Defeated
  {
    var next := Step(g, Finalise(now, id));
    TalliesStored(g, id);
    FinaliseDecides(g, now, id);
    StepKeepsConsistent(g, Finalise(now, id));
    RunMovesForward(next, calls, id);
    CloseExact(next, later, id);
  }

  /** The quorum percentage stays between 1 and 100 on every run. */
  lemma {:induction false} QuorumInRange(g: Governance, calls: seq<Call>)
    requires 0 < g.quorumPercentage <= 100
    ensures 0 < Run(g, calls).quorumPercentage <= 100
    decreases |calls|
  {
    if calls != [] {
      SettingsExact(g, calls[0]);
      QuorumInRange(Step(g, calls[0]), calls[1..]);
    }
  }

  /** Each setting is what its setter was last given, if that was allowed. */
  lemma SettingsExact(g: Governance, call: Call)
    ensures var next := Step(g, call);
      && next.votingDelay == (if call.SetDelay? then call.delay else g.votingDelay)
      && next.totalSupply == (if call.SetSupply? then call.supply else g.totalSupply)
      && next.quorumPercentage == (if call.SetQuorum? && 1 <= call.percentage <= 100 then call.percentage
                                   else g.quorumPercentage)
      && (call.SetDelay? || call.SetSupply? || call.SetQuorum? ==>
            next.proposals == g.proposals && next.records == g.records && next.nextId == g.nextId)
  {
  }

  /** Under the default settings one vote is far from the quorum of a fifth of
      the supply. */
  lemma DefaultQuorumRun()
    ensures var g := Run(INITIAL, [Create(5, 7, 100, Weighted, 200)] + ([Cast(5, 1, "v", For, 1)] + ([Finalise(100, 1)] + [])));
      && 1 in g.proposals && g.proposals[1].quorum == 200_000_000_000_000
      && g.proposals[1].supplySnapshot == 1_000_000_000_000_000
      && g.proposals[1].votingStart == 5 && g.proposals[1].votesFor == 1 && g.proposals[1].state == Defeated
  {
    var create, cast, finalise := Create(5, 7, 100, Weighted, 200), Cast(5, 1, "v", For, 1), Finalise(100, 1);
    RunStep(INITIAL, create, [cast] + ([finalise] + []));
    var created := Step(INITIAL, create);
    RunStep(created, cast, [finalise] + []);
    RunStep(Step(created, cast), finalise, []);
    CreateExact(INITIAL, 5, 7, 100, Weighted, 200);
    assert 1 in created.proposals && created.proposals[1].quorum == 200_000_000_000_000
        && created.proposals[1].supplySnapshot == 1_000_000_000_000_000;
    OneVote(created);
  }

  lemma OneVote(g: Governance)
    requires 1 in g.proposals && (1, "v") !in g.records
    requires var p := g.proposals[1];
      && p.votingStart == 5 && p.votingEnd == 100 && p.state == Pending && p.strategy == Weighted
      && p.quorum == 200_000_000_000_000 && p.supplySnapshot == 1_000_000_000_000_000 && p.votesFor == 0 && p.votesAgainst == 0 && p.votesAbstain == 0
    ensures var end := Step(Step(g, Cast(5, 1, "v", For, 1)), Finalise(100, 1));
      && 1 in end.proposals && end.proposals[1].quorum == 200_000_000_000_000
      && end.proposals[1].supplySnapshot == 1_000_000_000_000_000
      && end.proposals[1].votingStart == 5 && end.proposals[1].votesFor == 1 && end.proposals[1].state == Defeated
  {
  }

  lemma RunStep(g: Governance, call: Call, calls: seq<Call>)
    ensures Run(g, [call] + calls) == Run(Step(g, call), calls)
  {
    assert ([call] + calls)[1..] == calls;
  }

  // ---- order of ballots -----------------------------------------------------

  datatype Ballot = Ballot(now: u32, voter: Address, support: Support, balance: i128)
  {
    /** The ballot without the ledger it is cast at. */
    function Choice(): (Address, Support, i128) { (voter, support, balance) }
  }

  function Choices(ballots: seq<Ballot>): seq<(Address, Support, i128)>
  {
    seq(|ballots|, i requires 0 <= i < |ballots| => ballots[i].Choice())
  }

  function CastOne(g: Governance, id: u64, b: Ballot): Option<Governance>
  {
    var (next, _) :- g.CastVote(b.now, id, b.voter, b.support, b.balance);
    Some(next)
  }

  /** Casting a sequence of ballots, rejected as soon as one of them is. */
  function CastAll(g: Governance, id: u64, ballots: seq<Ballot>): Option<Governance>
    decreases |ballots|
  {
    if ballots == [] then Some(g) else
      var next :- CastOne(g, id, ballots[0]);
      CastAll(next, id, ballots[1..])
  }

  ghost predicate TalliesNonNegative(g: Governance, id: u64)
  {
    id in g.proposals ==> forall side :: g.proposals[id].Votes(side) >= 0
  }

  lemma CastOneKeepsNonNegative(g: Governance, id: u64, b: Ballot)
    requires TalliesNonNegative(g, id)
    ensures CastOne(g, id, b).Some? ==> TalliesNonNegative(CastOne(g, id, b).value, id)
  {
    if CastOne(g, id, b).Some? {
      WeightNonNegative(g.proposals[id].strategy, b.balance);
      var w := Weight(g.proposals[id].strategy, b.balance).value;
      assert g.proposals[id].Votes(b.support) >= 0;
      forall side
        ensures CastOne(g, id, b).value.proposals[id].Votes(side) >= 0
      {
        assert g.proposals[id].Votes(side) >= 0;
      }
    }
  }

  /** Counting two votes commutes, overflow included. */
  lemma CountingCommutes(p: Proposal, s: Support, v: i128, t: Support, w: i128)
    requires v >= 0 && w >= 0 && p.Votes(s) >= 0 && p.Votes(t) >= 0
    requires p.Counted(s, v).Some? && p.Counted(s, v).value.Counted(t, w).Some?
    ensures p.Counted(t, w).Some?
    ensures p.Counted(t, w).value.Counted(s, v) == p.Counted(s, v).value.Counted(t, w)
  {
  }

  /** When a ballot is accepted. */
  predicate Acceptable(g: Governance, id: u64, b: Ballot)
  {
    && b.balance >= 0 && id in g.proposals && (id, b.voter) !in g.records
    && var p := g.proposals[id];
    && p.votingStart <= b.now < p.votingEnd && p.Open()
    && Weight(p.strategy, b.balance).Some?
    && p.Counted(b.support, Weight(p.strategy, b.balance).value).Some?
  }

  /** What it then stores. */
  function Stored(g: Governance, id: u64, b: Ballot): Governance
    requires Acceptable(g, id, b)
  {
    var p, w := g.proposals[id], Weight(g.proposals[id].strategy, b.balance).value;
    g.(proposals := g.proposals[id := p.Counted(b.support, w).value],
       records := g.records[(id, b.voter) := VoteRecord(b.voter, b.support, w, b.now)])
  }

  lemma StoredByCasting(g: Governance, id: u64, b: Ballot)
    ensures CastOne(g, id, b).Some? <==> Acceptable(g, id, b)
    ensures Acceptable(g, id, b) ==> CastOne(g, id, b) == Some(Stored(g, id, b))
  {
  }

  lemma AcceptableInEitherOrder(g: Governance, id: u64, a: Ballot, b: Ballot)
    requires TalliesNonNegative(g, id)
    requires Acceptable(g, id, a) && Acceptable(Stored(g, id, a), id, b)
    ensures Acceptable(g, id, b) && Acceptable(Stored(g, id, b), id, a)
    ensures Stored(Stored(g, id, b), id, a).proposals == Stored(Stored(g, id, a), id, b).proposals
  {
    WeightsCommute(g.proposals[id], a, b);
  }

  lemma WeightsCommute(p: Proposal, a: Ballot, b: Ballot)
    requires forall side :: p.Votes(side) >= 0
    requires a.balance >= 0 && b.balance >= 0
    requires Weight(p.strategy, a.balance).Some? && Weight(p.strategy, b.balance).Some?
    requires var v, w := Weight(p.strategy, a.balance).value, Weight(p.strategy, b.balance).value;
      p.Counted(a.support, v).Some? && p.Counted(a.support, v).value.Counted(b.support, w).Some?
    ensures var v, w := Weight(p.strategy, a.balance).value, Weight(p.strategy, b.balance).value;
      && p.Counted(b.support, w).Some?
      && p.Counted(b.support, w).value.Counted(a.support, v) == p.Counted(a.support, v).value.Counted(b.support, w)
  {
    WeightNonNegative(p.strategy, a.balance);
    WeightNonNegative(p.strategy, b.balance);
    CountingCommutes(p, a.support, Weight(p.strategy, a.balance).value, b.support, Weight(p.strategy, b.balance).value);
  }

  /** Storing a and then b is storing b and then a. */
  lemma StoredCommutes(g: Governance, id: u64, a: Ballot, b: Ballot)
    requires TalliesNonNegative(g, id)
    requires Acceptable(g, id, a) && Acceptable(Stored(g, id, a), id, b)
    ensures Acceptable(g, id, b) && Acceptable(Stored(g, id, b), id, a)
    ensures Stored(Stored(g, id, b), id, a) == Stored(Stored(g, id, a), id, b)
  {
    AcceptableInEitherOrder(g, id, a, b);
    var strategy := g.proposals[id].strategy;
    var v, w := Weight(strategy, a.balance).value, Weight(strategy, b.balance).value;
    UpdatesCommute(g.records, (id, a.voter), VoteRecord(a.voter, a.support, v, a.now),
                   (id, b.voter), VoteRecord(b.voter, b.support, w, b.now));
  }

  lemma AcceptedPairSwaps(g: Governance, id: u64, a: Ballot, b: Ballot)
    requires TalliesNonNegative(g, id)
    requires CastOne(g, id, a).Some? && CastOne(CastOne(g, id, a).value, id, b).Some?
    ensures CastOne(g, id, b).Some?
    ensures CastOne(CastOne(g, id, b).value, id, a) == CastOne(CastOne(g, id, a).value, id, b)
  {
    StoredByCasting(g, id, a);
    StoredByCasting(Stored(g, id, a), id, b);
    StoredCommutes(g, id, a, b);
    StoredByCasting(g, id, b);
    StoredByCasting(Stored(g, id, b), id, a);
  }

  lemma UpdatesCommute<K, V>(m: map<K, V>, j: K, x: V, k: K, y: V)
    requires j != k
    ensures m[j := x][k := y] == m[k := y][j := x]
  {
  }

  /** A ballot can be moved to the front of the queue. */
  lemma {:induction false} MoveToFront(g: Governance, id: u64, front: seq<Ballot>, b: Ballot, back: seq<Ballot>)
    requires TalliesNonNegative(g, id)
    ensures CastAll(g, id, front + [b] + back) == CastAll(g, id, [b] + (front + back))
    decreases |front|
  {
    if front == [] {
      assert front + [b] + back == [b] + (front + back);
    } else {
      var a, rest := front[0], front[1..];
      var queue := front + [b] + back;
      assert queue[0] == a && queue[1..] == rest + [b] + back;
      assert ([b] + (front + back))[1..] == front + back;
      assert (front + back)[0] == a && (front + back)[1..] == rest + back;
      assert ([b] + (rest + back))[1..] == rest + back;
      CastOneKeepsNonNegative(g, id, a);
      CastOneKeepsNonNegative(g, id, b);
      if CastOne(g, id, a).Some? {
        MoveToFront(CastOne(g, id, a).value, id, rest, b, back);
        if CastOne(CastOne(g, id, a).value, id, b).Some? {
          AcceptedPairSwaps(g, id, a, b);
        }
      }
      if CastOne(g, id, b).Some? && CastOne(CastOne(g, id, b).value, id, a).Some? {
        AcceptedPairSwaps(g, id, b, a);
      }
    }
  }

  lemma CancelElement<T>(x: T, a: multiset<T>, b: multiset<T>)
    requires multiset{x} + a == multiset{x} + b
    ensures a == b
  {
    assert a == multiset{x} + a - multiset{x};
  }

  lemma ChoicesJoin(xs: seq<Ballot>, ys: seq<Ballot>)
    ensures Choices(xs + ys) == Choices(xs) + Choices(ys)
  {
  }

  /** Queues with the same head up to its ledger, and with multisets that agree
      up to ledgers: taking the head out of both leaves the rest in agreement. */
  lemma HeadInOtherQueue(xs: seq<Ballot>, ys: seq<Ballot>) returns (i: nat)
    requires xs != [] && multiset(Choices(xs)) == multiset(Choices(ys))
    ensures i < |ys| && xs[0].Choice() == ys[i].Choice()
    ensures multiset(Choices(xs[1..])) == multiset(Choices(ys[..i] + ys[i + 1..]))
  {
    var cs, ds := Choices(xs), Choices(ys);
    assert cs[0] in multiset(ds);
    i :| 0 <= i < |ds| && ds[i] == cs[0];
    var front, back := ys[..i], ys[i + 1..];
    assert cs == [cs[0]] + Choices(xs[1..]);
    assert ys == front + [ys[i]] + back && Choices([ys[i]]) == [ds[i]];
    ChoicesJoin(front + [ys[i]], back);
    ChoicesJoin(front, [ys[i]]);
    ChoicesJoin(front, back);
    CancelElement(cs[0], multiset(Choices(xs[1..])), multiset(Choices(front + back)));
  }

  /** Storage that differs at most in the ledgers at which votes were cast. */
  ghost predicate SameVotes(g: Governance, h: Governance)
  {
    && h.(records := g.records) == g && h.records.Keys == g.records.Keys
    && forall k :: k in g.records ==> h.records[k].(castAt := 0) == g.records[k].(castAt := 0)
  }

  ghost predicate CastInWindow(g: Governance, id: u64, ballots: seq<Ballot>)
  {
    id in g.proposals ==> forall i :: 0 <= i < |ballots| ==>
      g.proposals[id].votingStart <= ballots[i].now < g.proposals[id].votingEnd
  }

  /** One vote at two ledgers of the window. */
  lemma LedgerIrrelevant(g: Governance, h: Governance, id: u64, a: Ballot, b: Ballot)
    requires SameVotes(g, h) && a.Choice() == b.Choice()
    requires CastInWindow(g, id, [a]) && CastInWindow(h, id, [b])
    ensures CastOne(g, id, a).Some? <==> CastOne(h, id, b).Some?
    ensures CastOne(g, id, a).Some? ==> SameVotes(CastOne(g, id, a).value, CastOne(h, id, b).value)
    ensures CastOne(g, id, a).Some? ==>
      && id in g.proposals && id in CastOne(g, id, a).value.proposals
      && var p, q := g.proposals[id], CastOne(g, id, a).value.proposals[id];
      && q.votingStart == p.votingStart && q.votingEnd == p.votingEnd
  {
    StoredByCasting(g, id, a);
    StoredByCasting(h, id, b);
    assert [a][0] == a && [b][0] == b;
    assert Acceptable(g, id, a) <==> Acceptable(h, id, b);
  }

  /** The same votes in any order, at any ledgers of the window: either both
      queues are rejected, or both leave storage that differs in the ledgers
      of the votes alone, so finalising answers the same at every ledger. */
  lemma {:induction false} BallotOrderIrrelevant(g: Governance, h: Governance, id: u64, xs: seq<Ballot>, ys: seq<Ballot>)
    requires TalliesNonNegative(g, id) && SameVotes(g, h)
    requires multiset(Choices(xs)) == multiset(Choices(ys))
    requires CastInWindow(g, id, xs) && CastInWindow(h, id, ys)
    ensures CastAll(g, id, xs).Some? <==> CastAll(h, id, ys).Some?
    ensures CastAll(g, id, xs).Some? ==>
      && var gx, hy := CastAll(g, id, xs).value, CastAll(h, id, ys).value;
      && SameVotes(gx, hy)
      && forall now: u32 :: SameOutcome(gx.FinaliseProposal(now, id), hy.FinaliseProposal(now, id))
    decreases |xs|
  {
    if xs == [] {
      assert |multiset(Choices(ys))| == |ys|;
    } else {
      var x := xs[0];
      var i := HeadInOtherQueue(xs, ys);
      var y, rest := ys[i], ys[..i] + ys[i + 1..];
      assert ys == ys[..i] + [y] + ys[i + 1..];
      MoveToFront(h, id, ys[..i], y, ys[i + 1..]);
      assert ([y] + rest)[1..] == rest;
      LedgerIrrelevant(g, h, id, x, y);
      CastOneKeepsNonNegative(g, id, x);
      if CastOne(g, id, x).Some? {
        BallotOrderIrrelevant(CastOne(g, id, x).value, CastOne(h, id, y).value, id, xs[1..], rest);
      }
    }
  }

  ghost predicate SameOutcome(x: Option<(Governance, bool)>, y: Option<(Governance, bool)>)
  {
    && (x.Some? <==> y.Some?)
    && (x.Some? ==> x.value.1 == y.value.1 && SameVotes(x.value.0, y.value.0))
  }

  function CastCalls(id: u64, ballots: seq<Ballot>): seq<Call>
  {
    if ballots == [] then [] else
      var b := ballots[0];
      [Cast(b.now, id, b.voter, b.support, b.balance)] + CastCalls(id, ballots[1..])
  }

  /** An accepted queue is a run of the contract. */
  lemma {:induction false} AcceptedQueueIsRun(g: Governance, id: u64, ballots: seq<Ballot>)
    requires CastAll(g, id, ballots).Some?
    ensures Run(g, CastCalls(id, ballots)) == CastAll(g, id, ballots).value
    decreases |ballots|
  {
    if ballots != [] {
      var b := ballots[0];
      var next := CastOne(g, id, b).value;
      assert Step(g, Cast(b.now, id, b.voter, b.support, b.balance)) == next;
      AcceptedQueueIsRun(next, id, ballots[1..]);
      assert CastCalls(id, ballots)[1..] == CastCalls(id, ballots[1..]);
    }
  }

  /** In every consistent state, so in every reachable one: if each vote of one
      order is accepted, so is each vote of the other, and the two runs of the
      contract end with the same proposals and the same answers. */
  lemma RunsAgreeOnBallots(g: Governance, id: u64, xs: seq<Ballot>, ys: seq<Ballot>)
    requires Consistent(g)
    requires multiset(Choices(xs)) == multiset(Choices(ys))
    requires CastInWindow(g, id, xs) && CastInWindow(g, id, ys)
    requires CastAll(g, id, xs).Some?
    ensures CastAll(g, id, ys).Some?
    ensures var gx, gy := Run(g, CastCalls(id, xs)), Run(g, CastCalls(id, ys));
      && SameVotes(gx, gy) && gx.proposals == gy.proposals
      && forall now: u32 :: SameOutcome(gx.FinaliseProposal(now, id), gy.FinaliseProposal(now, id))
  {
    ConsistentNonNegative(g, id);
    BallotOrderIrrelevant(g, g, id, xs, ys);
    AcceptedQueueIsRun(g, id, xs);
    AcceptedQueueIsRun(g, id, ys);
  }

  lemma ConsistentNonNegative(g: Governance, id: u64)
    requires Consistent(g)
    ensures TalliesNonNegative(g, id)
  {
    if id in g.proposals {
      assert ProposalSound(g, id);
    }
  }

  /** With the ledgers kept, the very same storage. */
  lemma {:induction false} ReorderedBallotsAgree(g: Governance, id: u64, xs: seq<Ballot>, ys: seq<Ballot>)
    requires TalliesNonNegative(g, id)
    requires multiset(xs) == multiset(ys)
    ensures CastAll(g, id, xs) == CastAll(g, id, ys)
    decreases |xs|
  {
    if xs == [] {
      assert |multiset(ys)| == 0;
    } else {
      var x := xs[0];
      assert x in multiset(ys);
      var i :| 0 <= i < |ys| && ys[i] == x;
      var front, back := ys[..i], ys[i + 1..];
      assert ys == front + [x] + back;
      assert xs == [x] + xs[1..];
      assert multiset(xs) == multiset{x} + multiset(xs[1..]);
      assert multiset(ys) == multiset{x} + multiset(front + back);
      CancelElement(x, multiset(xs[1..]), multiset(front + back));
      MoveToFront(g, id, front, x, back);
      assert ([x] + (front + back))[1..] == front + back;
      CastOneKeepsNonNegative(g, id, x);
      if CastOne(g, id, x).Some? {
        ReorderedBallotsAgree(CastOne(g, id, x).value, id, xs[1..], front + back);
      }
    }
  }
}

/** The contract itself. */
module VotingContract {
  import opened Panics
  import opened Host
  import opened Integers
  import opened SquareRoot
  import opened VotingMachine

  method ComputeWeight(strategy: Strategy, balance: i128) returns (r: Option<i128>)
    ensures r == Weight(strategy, balance)
  {
    match strategy
    case Weighted => r := Some(balance);
    case Quadratic => r := IntegerSqrt(balance);
    case Flat => r := Some(if balance > 0 then 1 else 0);
  }

  class Voting {
    var proposals: map<u64, Proposal>
    var records: map<(u64, Address), VoteRecord>
    var nextId: u64
    var votingDelay: u32
    var totalSupply: i128
    var quorumPercentage: i128

    ghost function View(): Governance
      reads this
    {
      Governance(proposals, records, nextId, votingDelay, totalSupply, quorumPercentage)
    }

    constructor ()
      ensures View() == INITIAL
    {
      proposals, records, nextId := map[], map[], 1;
      votingDelay, totalSupply, quorumPercentage := 0, 1_000_000_000_000_000, 20;
    }

    method CreateProposal(now: u32, timestamp: u64, votingEnd: u32, strategy: Strategy, timelock: u32)
      returns (r: Option<u64>)
      modifies this
      ensures Commits(old(View()).CreateProposal(now, timestamp, votingEnd, strategy, timelock), old(View()), View(), r)
    {
      var _ :- Require(votingEnd > now);
      var _ :- Require(timelock >= votingEnd);
      var votingStart: u32 := Min(now + votingDelay, U32_MAX);
      var quorum: i128 :- MulDiv(totalSupply, quorumPercentage, 100);
      var id: u64 := nextId;
      var next: u64 :- CheckedU64(nextId + 1);
      proposals := proposals[id := Proposal(id, votingStart, votingEnd, timelock, 0, 0, 0,
                                            quorum, strategy, Pending, timestamp, totalSupply)];
      nextId := next;
      r := Some(id);
    }

    method CastVote(now: u32, id: u64, voter: Address, support: Support, balance: i128) returns (r: Option<()>)
      modifies this
      ensures Commits(old(View()).CastVote(now, id, voter, support, balance), old(View()), View(), r)
    {
      var _ :- Require(balance >= 0);
      var _ :- Require(id in proposals);
      var p := proposals[id];
      var _ :- Require(now >= p.votingStart);
      var _ :- Require(now < p.votingEnd);
      var _ :- Require(p.state == Pending || p.state == Active);
      if p.state == Pending {
        p := p.(state := Active);
      }
      var _ :- Require((id, voter) !in records);
      var weight: i128 :- ComputeWeight(p.strategy, balance);
      match support {
        case For =>
          var votes: i128 :- Checked(p.votesFor + weight);
          p := p.(votesFor := votes);
        case Against =>
          var votes: i128 :- Checked(p.votesAgainst + weight);
          p := p.(votesAgainst := votes);
        case Abstain =>
          var votes: i128 :- Checked(p.votesAbstain + weight);
          p := p.(votesAbstain := votes);
      }
      records := records[(id, voter) := VoteRecord(voter, support, weight, now)];
      proposals := proposals[id := p];
      r := Some(());
    }

    method FinaliseProposal(now: u32, id: u64) returns (r: Option<bool>)
      modifies this
      ensures Commits(old(View()).FinaliseProposal(now, id), old(View()), View(), r)
    {
      var _ :- Require(id in proposals);
      var p := proposals[id];
      var _ :- Require(p.state == Active || p.state == Pending);
      var _ :- Require(now >= p.votingEnd);
      var sum: i128 :- Checked(p.votesFor + p.votesAgainst);
      var participating: i128 :- Checked(sum + p.votesAbstain);
      var quorumMet := participating >= p.quorum;
      var passed := p.votesFor > p.votesAgainst;
      if quorumMet && passed {
        proposals := proposals[id := p.(state := Succeeded)];
        r := Some(true);
      } else {
        proposals := proposals[id := p.(state := Defeated)];
        r := Some(false);
      }
    }

    method ExecuteProposal(now: u32, id: u64) returns (r: Option<()>)
      modifies this
      ensures Commits(old(View()).ExecuteProposal(now, id), old(View()), View(), r)
    {
      var _ :- Require(id in proposals);
      var p := proposals[id];
      var _ :- Require(p.state == Succeeded);
      var _ :- Require(now >= p.timelock);
      proposals := proposals[id := p.(state := Executed)];
      r := Some(());
    }

    method CancelProposal(id: u64) returns (r: Option<()>)
      modifies this
      ensures Commits(old(View()).CancelProposal(id), old(View()), View(), r)
    {
      var _ :- Require(id in proposals);
      var p := proposals[id];
      var _ :- Require(p.state == Pending || p.state == Active);
      proposals := proposals[id := p.(state := Cancelled)];
      r := Some(());
    }

    method SetVotingDelay(delay: u32)
      modifies this
      ensures View() == Step(old(View()), SetDelay(delay))
    {
      votingDelay := delay;
    }

    method SetTotalSupplySnapshot(supply: i128)
      modifies this
      ensures View() == Step(old(View()), SetSupply(supply))
    {
      totalSupply := supply;
    }

    method SetQuorumPercentage(percentage: i128) returns (r: Option<()>)
      modifies this
      ensures Commits(old(View()).SetQuorumPercentage(percentage), old(View()), View(), r)
    {
      var _ :- Require(percentage > 0 && percentage <= 100);
      quorumPercentage := percentage;
      r := Some(());
    }
  }
}
