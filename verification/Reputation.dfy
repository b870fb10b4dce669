/** Reputation scores with decay, slashing and a leaderboard as a machine over
    storage. */
module ReputationMachine {
  import opened Panics
  import opened Host
  import opened Integers

  const LEVEL_THRESHOLDS: seq<int> := [0, 100, 400, 900, 1600]

  function CalculateLevel(score: i128): u32
  {
    if score >= 1600 then 5 else if score >= 900 then 4 else if score >= 400 then 3
    else if score >= 100 then 2 else 1
  }

  datatype Record = Record(user: Address, score: i128, level: u32, lastUpdated: u32, totalUpdates: u32)

  datatype HistoryEntry = HistoryEntry(timestamp: u64, change: i128, reason: Symbol, course: Option<u64>)

  datatype DecayConfig = DecayConfig(enabled: bool, rate: i128, interval: u32)
  {
    /** The record with the decay due at a ledger taken off. A zero interval
        divides by zero as soon as decay is enabled. */
    function Decay(rep: Record, now: u32): Option<Record>
    {
      if !enabled then Some(rep) else
        var elapsed := Max(now - rep.lastUpdated, 0);
        if elapsed < interval then Some(rep) else
          var _ :- Require(interval != 0);
          var decay := Saturated(rate * (elapsed / interval));
          Some(rep.(score := Max(Saturated(rep.score + decay), 0), lastUpdated := now))
    }
  }

  datatype Reputation = Reputation(
    records: map<Address, Record>,
    history: map<Address, seq<HistoryEntry>>,
    total: i128,
    board: seq<Address>,
    config: DecayConfig)
  {
    function History(user: Address): seq<HistoryEntry>
    {
      if user in history then history[user] else []
    }

    function RecordOrNew(user: Address, now: u32): Record
    {
      if user in records then records[user] else Record(user, 0, 1, now, 0)
    }

    function Scored(now: u32, user: Address, change: i128): Option<Record>
    {
      var rep :- config.Decay(RecordOrNew(user, now), now);
      var changed :- Checked(rep.score + change);
      var updates :- CheckedU32(rep.totalUpdates + 1);
      var score := Max(changed, 0);
      Some(Record(rep.user, score, CalculateLevel(score), now, updates))
    }

    function Update(now: u32, timestamp: u64, user: Address, change: i128, reason: Symbol, course: Option<u64>)
      : Option<(Reputation, ())>
    {
      var rep :- Scored(now, user, change);
      var _ :- CheckedU32(|History(user)| + 1);
      var newTotal :- Checked(total + change);
      Some((this.(records := records[user := rep],
                  history := history[user := History(user) + [HistoryEntry(timestamp, change, reason, course)]],
                  total := newTotal,
                  board := if user in board then board else board + [user]), ()))
    }

    /** Stores nothing when the score does not change. */
    function ApplyDecay(now: u32, timestamp: u64, user: Address): Option<(Reputation, ())>
    {
      var _ :- Require(user in records);
      var rep :- config.Decay(records[user], now);
      if rep.score == records[user].score then Some((this, ())) else
        var change :- Checked(rep.score - records[user].score);
        var _ :- CheckedU32(|History(user)| + 1);
        var newTotal :- Checked(total + change);
        Some((this.(records := records[user := rep],
                    history := history[user := History(user) + [HistoryEntry(timestamp, change, "decay", None)]],
                    total := newTotal), ()))
    }

    function GetReputation(now: u32, user: Address): Option<i128>
    {
      if user !in records then Some(0) else
        var rep :- config.Decay(records[user], now);
        Some(rep.score)
    }

    /** Takes the amount off the stored score and forgets any decay due. */
    function Slash(now: u32, user: Address, amount: i128): Option<(Reputation, ())>
    {
      var rep := RecordOrNew(user, now);
      var score := Max(Saturated(rep.score - amount), 0);
      Some((this.(records := records[user := rep.(score := score, level := CalculateLevel(score), lastUpdated := now)]), ()))
    }
  }

  const INITIAL := Reputation(map[], map[], 0, [], DecayConfig(true, -1, 1000))

  datatype Call =
    | UpdateReputation(now: u32, timestamp: u64, user: Address, change: i128, reason: Symbol, course: Option<u64>)
    | DecayReputation(now: u32, timestamp: u64, user: Address)
    | SlashReputation(now: u32, user: Address, amount: i128)
    | SetDecayConfig(config: DecayConfig)

  function After<T>(before: Reputation, result: Option<(Reputation, T)>): Reputation
  {
    if result.Some? then result.value.0 else before
  }

  function Step(s: Reputation, call: Call): Reputation
  {
    match call
    case UpdateReputation(now, timestamp, user, change, reason, course) =>
      After(s, s.Update(now, timestamp, user, change, reason, course))
    case DecayReputation(now, timestamp, user) => After(s, s.ApplyDecay(now, timestamp, user))
    case SlashReputation(now, user, amount) => After(s, s.Slash(now, user, amount))
    case SetDecayConfig(config) => s.(config := config)
  }

  function Run(s: Reputation, calls: seq<Call>): Reputation
    decreases |calls|
  {
    if calls == [] then s else Run(Step(s, calls[0]), calls[1..])
  }

  /** The stored records of the users on the board, in board order. */
  function Collected(board: seq<Address>, records: map<Address, Record>): seq<Record>
  {
    if board == [] then [] else
      var n := |board| - 1;
      Collected(board[..n], records) + (if board[n] in records then [records[board[n]]] else [])
  }
}

/** Sorting by score, stably and from the top. */
module Ranking {
  import opened ReputationMachine

  ghost predicate Descending(s: seq<Record>)
  {
    forall i, j :: 0 <= i < j < |s| ==> s[i].score >= s[j].score
  }

  /** The records with one score, in the order they stand. */
  function WithScore(s: seq<Record>, score: int): seq<Record>
  {
    if s == [] then []
    else if s[0].score == score then [s[0]] + WithScore(s[1..], score)
    else WithScore(s[1..], score)
  }

  /** r is s put in descending order, equal scores left in their order. */
  ghost predicate StableDescending(r: seq<Record>, s: seq<Record>)
  {
    Descending(r) && forall v :: WithScore(r, v) == WithScore(s, v)
  }

  lemma {:induction false} WithScoreConcat(s: seq<Record>, t: seq<Record>, v: int)
    ensures WithScore(s + t, v) == WithScore(s, v) + WithScore(t, v)
  {
    if s == [] {
      assert s + t == t;
    } else {
      assert (s + t)[1..] == s[1..] + t;
      WithScoreConcat(s[1..], t, v);
    }
  }

  /** Swapping two neighbours of different scores keeps every score's order. */
  lemma SwapNeighbours(s: seq<Record>, j: nat, v: int)
    requires 0 < j < |s| && s[j - 1].score != s[j].score
    ensures WithScore(s[j - 1 := s[j]][j := s[j - 1]], v) == WithScore(s, v)
  {
    var front, back := s[..j - 1], s[j + 1..];
    var a, b := s[j - 1], s[j];
    assert s == front + ([a, b] + back);
    assert s[j - 1 := b][j := a] == front + ([b, a] + back);
    WithScoreConcat(front, [a, b] + back, v);
    WithScoreConcat(front, [b, a] + back, v);
    WithScoreConcat([a, b], back, v);
    WithScoreConcat([b, a], back, v);
    assert [a, b][1..] == [b] && [b, a][1..] == [a];
  }

  lemma {:induction false} WithScoreMembers(s: seq<Record>, v: int)
    ensures forall x :: x in WithScore(s, v) <==> x in s && x.score == v
  {
    if s != [] {
      WithScoreMembers(s[1..], v);
      assert forall x :: x in s <==> x == s[0] || x in s[1..];
    }
  }

  /** There is only one stable descending order, so the predicate pins the
      result of the sort down completely. */
  lemma {:induction false} StableDescendingUnique(r: seq<Record>, t: seq<Record>)
    requires Descending(r) && Descending(t)
    requires forall v :: WithScore(r, v) == WithScore(t, v)
    ensures r == t
    decreases |r|
  {
    if r == [] || t == [] {
      if r != [] { WithScoreMembers(r, r[0].score); }
      if t != [] { WithScoreMembers(t, t[0].score); }
    } else {
      HeadsAgree(r, t);
      forall v
        ensures WithScore(r[1..], v) == WithScore(t[1..], v)
      {
        assert WithScore(r, v) == WithScore(t, v);
        if r[0].score == v {
          assert WithScore(r, v)[1..] == WithScore(r[1..], v);
          assert WithScore(t, v)[1..] == WithScore(t[1..], v);
        }
      }
      StableDescendingUnique(r[1..], t[1..]);
      assert r == [r[0]] + r[1..] && t == [t[0]] + t[1..];
    }
  }

  lemma HeadsAgree(r: seq<Record>, t: seq<Record>)
    requires r != [] && t != [] && Descending(r) && Descending(t)
    requires forall v :: WithScore(r, v) == WithScore(t, v)
    ensures r[0] == t[0]
  {
    var v, w := r[0].score, t[0].score;
    WithScoreMembers(r, v);
    WithScoreMembers(t, v);
    WithScoreMembers(r, w);
    WithScoreMembers(t, w);
    assert r[0] in WithScore(r, v) && t[0] in WithScore(t, w);
    assert WithScore(r, v) == WithScore(t, v) && WithScore(r, w) == WithScore(t, w);
    assert r[0] in t && t[0] in r;
    assert v == w;
    assert WithScore(r, v)[0] == r[0] && WithScore(t, v)[0] == t[0];
  }

  /** The nested loops of the leaderboard: each record sinks toward the front
      past the lower scores before it. */
  method SortByScore(input: seq<Record>) returns (records: seq<Record>)
    ensures StableDescending(records, input) && |records| == |input|
  {
    records := input;
    var i := 1;
    while i < |records|
      invariant |records| == |input| && 1 <= i && (i <= |records| || i == 1)
      invariant forall a, b :: 0 <= a < b < i && b < |records| ==> records[a].score >= records[b].score
      invariant forall v :: WithScore(records, v) == WithScore(input, v)
    {
      var j := i;
      while j > 0
        invariant 0 <= j <= i < |records| == |input|
        invariant forall a, b :: 0 <= a < b <= i && b != j ==> records[a].score >= records[b].score
        invariant forall v :: WithScore(records, v) == WithScore(input, v)
      {
        if records[j - 1].score < records[j].score {
          forall v { SwapNeighbours(records, j, v); }
          records := records[j - 1 := records[j]][j := records[j - 1]];
          j := j - 1;
        } else {
          break;
        }
      }
      i := i + 1;
    }
  }

  /** Whatever is cut off below a limit does not beat anything kept. */
  lemma NothingOmittedBeats(r: seq<Record>, s: seq<Record>, limit: nat, kept: Record, omitted: Record)
    requires StableDescending(r, s) && limit <= |r|
    requires kept in r[..limit] && omitted in r[limit..]
    ensures omitted.score <= kept.score && omitted in s && kept in s
  {
    WithScoreMembers(r, kept.score);
    WithScoreMembers(s, kept.score);
    WithScoreMembers(r, omitted.score);
    WithScoreMembers(s, omitted.score);
    assert WithScore(r, kept.score) == WithScore(s, kept.score);
    assert WithScore(r, omitted.score) == WithScore(s, omitted.score);
    var i :| 0 <= i < limit && r[..limit][i] == kept;
    var j :| 0 <= j < |r| - limit && r[limit..][j] == omitted;
    assert r[i] == kept && r[limit + j] == omitted;
  }
}

/** What decay, levels and the board come to on every run. */
module ReputationSafety {
  import opened Panics
  import opened Host
  import opened Integers
  import opened Sums
  import opened Lists
  import opened SquareRoot
  import opened ReputationMachine
  import opened Ranking

  /** The level table is a square root: the level of a score is one plus the
      root of its hundreds, up to five. */
  lemma LevelFormula(score: i128)
    requires score >= 0
    ensures CalculateLevel(score) == 1 + Min(4, Isqrt(score / 100))
  {
    var h := score / 100;
    var r := Isqrt(h);
    RootIsLargest(h, r, 1);
    RootIsLargest(h, r, 2);
    RootIsLargest(h, r, 3);
    RootIsLargest(h, r, 4);
  }

  // ---- decay ----------------------------------------------------------------

  /** The lazily computed score at a ledger is the one that an accepted eager
      decay stores there, and reading it again there changes nothing. */
  lemma LazyIsEager(s: Reputation, now: u32, ts: u64, user: Address)
    requires s.ApplyDecay(now, ts, user).Some?
    ensures var next := s.ApplyDecay(now, ts, user).value.0;
      && user in next.records
      && s.GetReputation(now, user) == Some(next.records[user].score)
      && next.GetReputation(now, user) == s.GetReputation(now, user)
  {
  }

  predicate Lossy(config: DecayConfig)
  {
    config.enabled && config.rate <= 0 && config.interval > 0
  }

  /** Whole intervals between an update and a ledger. */
  function Periods(config: DecayConfig, last: u32, now: u32): int
    requires config.interval > 0
  {
    Max(now - last, 0) / config.interval
  }

  /** With a non-positive rate saturation never shows: the score drops by the
      rate for each whole interval, down to zero. */
  lemma DecayIsLinear(config: DecayConfig, rep: Record, now: u32)
    requires Lossy(config) && rep.score >= 0
    ensures config.Decay(rep, now).Some?
    ensures config.Decay(rep, now).value.score
         == Max(rep.score + config.rate * Periods(config, rep.lastUpdated, now), 0)
    ensures config.Decay(rep, now).value.lastUpdated
         == if Periods(config, rep.lastUpdated, now) == 0 then rep.lastUpdated else now
  {
    var elapsed := Max(now - rep.lastUpdated, 0);
    var p := elapsed / config.interval;
    QuotientBounds(elapsed, config.interval);
    if elapsed < config.interval {
      CompareScaled(p, 1, config.interval);
      assert p == 0;
    } else {
      CompareScaled(1, p + 1, config.interval);
      NonPositiveProduct(config.rate, p);
    }
  }

  lemma NonPositiveProduct(rate: int, p: int)
    requires rate <= 0 && p >= 0
    ensures rate * p <= 0
  {
    ProductMonotone(0, 0 - rate, 0, p);
  }

  /** Splitting a stretch of time in two loses at most one whole interval. */
  lemma SplitPeriods(a: nat, b: nat, interval: int)
    requires interval > 0
    ensures a / interval + b / interval <= (a + b) / interval <= a / interval + b / interval + 1
  {
    var p, q, r := a / interval, b / interval, (a + b) / interval;
    QuotientBounds(a, interval);
    QuotientBounds(b, interval);
    QuotientBounds(a + b, interval);
    assert (p + q) * interval == p * interval + q * interval;
    assert (p + 1 + (q + 1)) * interval == (p + 1) * interval + (q + 1) * interval;
    CompareScaled(p + q, r + 1, interval);
    CompareScaled(r, p + 1 + (q + 1), interval);
  }

  lemma PeriodsThrough(config: DecayConfig, last: u32, middle: u32, now: u32)
    requires config.interval > 0 && middle <= now
    ensures var p := Periods(config, last, middle);
      var rest := Periods(config, if p == 0 then last else middle, now);
      p >= 0 && p + rest <= Periods(config, last, now) <= p + rest + 1
  {
    QuotientBounds(Max(middle - last, 0), config.interval);
    if middle >= last {
      SplitPeriods(middle - last, now - middle, config.interval);
    } else {
      assert 0 / config.interval == 0;
    }
  }

  /** One decay in between: the final score is no lower than without it, and
      higher by at most one interval's worth. */
  lemma OneDecayBetween(config: DecayConfig, rep: Record, middle: u32, now: u32)
    requires Lossy(config) && rep.score >= 0 && middle <= now
    ensures config.Decay(rep, now).Some? && config.Decay(rep, middle).Some?
    ensures var between := config.Decay(rep, middle).value;
      && between.score >= 0 && config.Decay(between, now).Some?
      && config.Decay(rep, now).value.score <= config.Decay(between, now).value.score
           <= config.Decay(rep, now).value.score - config.rate
  {
    DecayIsLinear(config, rep, now);
    DecayIsLinear(config, rep, middle);
    var between := config.Decay(rep, middle).value;
    DecayIsLinear(config, between, now);
    PeriodsThrough(config, rep.lastUpdated, middle, now);
    var p := Periods(config, rep.lastUpdated, middle);
    var q := Periods(config, between.lastUpdated, now);
    var whole := Periods(config, rep.lastUpdated, now);
    QuotientBounds(Max(now - between.lastUpdated, 0), config.interval);
    StepsOfRate(config.rate, p, q, whole);
    ClampedSteps(rep.score, config.rate, config.rate * p, config.rate * q, config.rate * whole);
  }

  lemma StepsOfRate(rate: int, p: int, q: int, whole: int)
    requires rate <= 0 && p >= 0 && q >= 0 && p + q <= whole <= p + q + 1
    ensures rate * p <= 0 && rate * q <= 0
    ensures rate * whole <= rate * p + rate * q <= rate * whole - rate
  {
    NonPositiveProduct(rate, p);
    NonPositiveProduct(rate, q);
    assert rate * (p + q) == rate * p + rate * q;
    assert rate * (p + q + 1) == rate * (p + q) + rate;
  }

  /** Clamping at zero in the middle of two losses does not show at the end. */
  lemma ClampedSteps(score: int, rate: int, first: int, second: int, whole: int)
    requires first <= 0 && second <= 0 && whole <= first + second <= whole - rate
    ensures Max(score + whole, 0) <= Max(Max(score + first, 0) + second, 0) <= Max(score + whole, 0) - rate
  {
  }

  /** Eager decays at any ledgers up to now, in any order and accepted or not,
      never leave a lower score at the end than none would, and leave at most
      one interval's worth more for each of them. */
  lemma {:induction false} EagerDecaysNeverCost(s: Reputation, user: Address, ledgers: seq<u32>, ts: u64, now: u32)
    requires Lossy(s.config) && user in s.records && s.records[user].score >= 0
    requires forall i :: 0 <= i < |ledgers| ==> ledgers[i] <= now
    ensures var t := DecayAt(s, user, ledgers, ts);
      && s.GetReputation(now, user).Some? && t.GetReputation(now, user).Some?
      && s.GetReputation(now, user).value <= t.GetReputation(now, user).value
           <= s.GetReputation(now, user).value - |ledgers| * s.config.rate
    decreases |ledgers|
  {
    DecayIsLinear(s.config, s.records[user], now);
    if ledgers != [] {
      var next := Step(s, DecayReputation(ledgers[0], ts, user));
      OneEagerDecay(s, user, ledgers[0], ts, now);
      EagerDecaysNeverCost(next, user, ledgers[1..], ts, now);
      assert |ledgers| * s.config.rate == (|ledgers| - 1) * s.config.rate + s.config.rate;
    }
  }

  lemma OneEagerDecay(s: Reputation, user: Address, middle: u32, ts: u64, now: u32)
    requires Lossy(s.config) && user in s.records && s.records[user].score >= 0 && middle <= now
    ensures var t := Step(s, DecayReputation(middle, ts, user));
      && t.config == s.config && user in t.records && t.records[user].score >= 0
      && s.GetReputation(now, user).Some? && t.GetReputation(now, user).Some?
      && s.GetReputation(now, user).value <= t.GetReputation(now, user).value
           <= s.GetReputation(now, user).value - s.config.rate
  {
    OneDecayBetween(s.config, s.records[user], middle, now);
  }

  function DecayAt(s: Reputation, user: Address, ledgers: seq<u32>, ts: u64): Reputation
    decreases |ledgers|
  {
    if ledgers == [] then s else DecayAt(Step(s, DecayReputation(ledgers[0], ts, user)), user, ledgers[1..], ts)
  }

  // ---- records and board ----------------------------------------------------

  /** Records stand under their users, scores are never negative, and while decay only lowers scores a stored
      level is never below the level of the stored score. */
  ghost predicate RecordsSound(s: Reputation)
  {
    && s.config.rate <= 0
    && forall user :: user in s.records ==>
         && s.records[user].user == user && s.records[user].score >= 0
         && s.records[user].level >= CalculateLevel(s.records[user].score)
  }

  lemma DecayLowers(config: DecayConfig, rep: Record, now: u32)
    requires config.rate <= 0 && rep.score >= 0 && config.Decay(rep, now).Some?
    ensures 0 <= config.Decay(rep, now).value.score <= rep.score
    ensures config.Decay(rep, now).value.level == rep.level
  {
    if config.enabled && config.interval > 0 {
      DecayIsLinear(config, rep, now);
      QuotientBounds(Max(now - rep.lastUpdated, 0), config.interval);
      NonPositiveProduct(config.rate, Periods(config, rep.lastUpdated, now));
    }
  }

  lemma StepKeepsRecords(s: Reputation, call: Call)
    requires RecordsSound(s)
    requires call.SetDecayConfig? ==> call.config.rate <= 0
    ensures RecordsSound(Step(s, call))
  {
    match call
    case UpdateReputation(_, _, _, _, _, _) =>
    case DecayReputation(now, _, user) =>
      if user in s.records && s.config.Decay(s.records[user], now).Some? {
        DecayLowers(s.config, s.records[user], now);
      }
    case SlashReputation(_, _, _) =>
    case SetDecayConfig(_) =>
  }

  lemma {:induction false} RunKeepsRecords(s: Reputation, calls: seq<Call>)
    requires RecordsSound(s)
    requires forall i :: 0 <= i < |calls| && calls[i].SetDecayConfig? ==> calls[i].config.rate <= 0
    ensures RecordsSound(Run(s, calls))
    decreases |calls|
  {
    if calls != [] {
      StepKeepsRecords(s, calls[0]);
      RunKeepsRecords(Step(s, calls[0]), calls[1..]);
    }
  }

  // ---- stored levels --------------------------------------------------------

  /** The score a user was last given by an accepted update or a slash: the
      calls that recompute the level. */
  function LastGiven(s: Reputation, calls: seq<Call>, user: Address, given: i128): i128
    decreases |calls|
  {
    if calls == [] then given else
      var next := Step(s, calls[0]);
      LastGiven(next, calls[1..], user, if Gives(s, calls[0], user) then next.records[user].score else given)
  }

  predicate Gives(s: Reputation, call: Call, user: Address)
    ensures Gives(s, call, user) ==> user in Step(s, call).records
  {
    match call
    case UpdateReputation(now, timestamp, who, change, reason, course) =>
      who == user && s.Update(now, timestamp, who, change, reason, course).Some?
    case SlashReputation(_, who, _) => who == user
    case DecayReputation(_, _, _) => false
    case SetDecayConfig(_) => false
  }

  /** Over every run and under any configuration, a stored level is the level
      of the score last given, whatever decay has stored since. */
  lemma {:induction false} LevelOfLastGiven(s: Reputation, calls: seq<Call>, user: Address, given: i128)
    requires user in s.records ==> s.records[user].level == CalculateLevel(given)
    ensures user in Run(s, calls).records ==>
      Run(s, calls).records[user].level == CalculateLevel(LastGiven(s, calls, user, given))
    decreases |calls|
  {
    if calls != [] {
      var next := Step(s, calls[0]);
      StepKeepsLevel(s, calls[0], user);
      LevelOfLastGiven(next, calls[1..], user, if Gives(s, calls[0], user) then next.records[user].score else given);
    }
  }

  lemma StepKeepsLevel(s: Reputation, call: Call, user: Address)
    ensures var next := Step(s, call);
      if Gives(s, call, user) then next.records[user].level == CalculateLevel(next.records[user].score)
      else (user in next.records <==> user in s.records)
           && (user in s.records ==> next.records[user].level == s.records[user].level)
  {
  }

  /** Over every run, under any configuration, the stored level of a user that
      had no record at the start is out of date exactly when one of the upper
      thresholds lies between its stored score and the score last given. */
  lemma StaleLevelExactly(s: Reputation, calls: seq<Call>, user: Address)
    requires user !in s.records && user in Run(s, calls).records
    ensures var rep, given := Run(s, calls).records[user], LastGiven(s, calls, user, 0);
      rep.level != CalculateLevel(rep.score) <==> Crossed(Min(rep.score, given), Max(rep.score, given))
  {
    LevelOfLastGiven(s, calls, user, 0);
    var rep, given := Run(s, calls).records[user], LastGiven(s, calls, user, 0);
    ThresholdBetween(Min(rep.score, given), Max(rep.score, given));
  }

  /** Some threshold is above low and not above high. */
  ghost predicate Crossed(low: int, high: int)
  {
    exists i :: 0 < i < |LEVEL_THRESHOLDS| && low < LEVEL_THRESHOLDS[i] <= high
  }

  lemma ThresholdBetween(low: i128, high: i128)
    requires low <= high
    ensures CalculateLevel(low) != CalculateLevel(high) <==> Crossed(low, high)
  {
    assert LEVEL_THRESHOLDS[1] == 100 && LEVEL_THRESHOLDS[2] == 400
        && LEVEL_THRESHOLDS[3] == 900 && LEVEL_THRESHOLDS[4] == 1600;
    assert |LEVEL_THRESHOLDS| == 5;
  }

  /** While decay only lowers scores, it can only have crossed it downward. */
  lemma {:induction false} ScoreBelowLastGiven(s: Reputation, calls: seq<Call>, user: Address, given: i128)
    requires RecordsSound(s)
    requires forall i :: 0 <= i < |calls| && calls[i].SetDecayConfig? ==> calls[i].config.rate <= 0
    requires user in s.records ==> s.records[user].score <= given
    ensures user in Run(s, calls).records ==>
      Run(s, calls).records[user].score <= LastGiven(s, calls, user, given)
    decreases |calls|
  {
    if calls != [] {
      var next := Step(s, calls[0]);
      StepKeepsRecords(s, calls[0]);
      if !Gives(s, calls[0], user) { StepLowers(s, calls[0], user); }
      ScoreBelowLastGiven(next, calls[1..], user, if Gives(s, calls[0], user) then next.records[user].score else given);
    }
  }

  lemma StepLowers(s: Reputation, call: Call, user: Address)
    requires RecordsSound(s) && !Gives(s, call, user)
    ensures user in Step(s, call).records ==>
      user in s.records && Step(s, call).records[user].score <= s.records[user].score
  {
    if call.DecayReputation? && call.user in s.records && s.config.Decay(s.records[call.user], call.now).Some? {
      DecayLowers(s.config, s.records[call.user], call.now);
    }
  }

  // ---- the board ------------------------------------------------------------

  /** The users of the accepted updates of a run. */
  function Updated(s: Reputation, calls: seq<Call>): set<Address>
    decreases |calls|
  {
    if calls == [] then {} else
      var c := calls[0];
      var rest := Updated(Step(s, c), calls[1..]);
      if c.UpdateReputation? && s.Update(c.now, c.timestamp, c.user, c.change, c.reason, c.course).Some?
      then {c.user} + rest else rest
  }

  /** The board has no user twice and a record for each. */
  ghost predicate BoardSound(s: Reputation)
  {
    NoDuplicates(s.board) && forall user :: user in s.board ==> user in s.records
  }

  /** Over every run the board holds each user that was ever passed to an
      accepted update exactly once, and nobody else. */
  lemma {:induction false} BoardIsUpdatedUsers(s: Reputation, calls: seq<Call>)
    requires BoardSound(s)
    ensures BoardSound(Run(s, calls))
    ensures forall user :: user in Run(s, calls).board <==> user in s.board || user in Updated(s, calls)
    decreases |calls|
  {
    if calls != [] {
      StepBoard(s, calls[0]);
      BoardIsUpdatedUsers(Step(s, calls[0]), calls[1..]);
    }
  }

  lemma StepBoard(s: Reputation, call: Call)
    requires BoardSound(s)
    ensures BoardSound(Step(s, call))
    ensures forall user :: user in Step(s, call).board <==> user in s.board || user in Updated(s, [call])
  {
  }

  /** So the leaderboard starts from one record for each board user. */
  lemma {:induction false} CollectedIsComplete(board: seq<Address>, records: map<Address, Record>)
    requires forall user :: user in board ==> user in records
    ensures |Collected(board, records)| == |board|
    ensures forall i :: 0 <= i < |board| ==> Collected(board, records)[i] == records[board[i]]
  {
    if board != [] {
      CollectedIsComplete(board[..|board| - 1], records);
    }
  }

  /** What decay takes off a record at a ledger, before clamping. */
  function Due(config: DecayConfig, rep: Record, now: u32): int
    requires config.enabled ==> config.interval > 0
  {
    if config.enabled then 0 - config.rate * Periods(config, rep.lastUpdated, now) else 0
  }

  lemma CurrentScore(config: DecayConfig, rep: Record, now: u32)
    requires config.rate <= 0 && (config.enabled ==> config.interval > 0) && rep.score >= 0
    ensures Due(config, rep, now) >= 0
    ensures config.Decay(rep, now).Some? && config.Decay(rep, now).value.score == Max(rep.score - Due(config, rep, now), 0)
  {
    if config.enabled {
      DecayIsLinear(config, rep, now);
      QuotientBounds(Max(now - rep.lastUpdated, 0), config.interval);
      NonPositiveProduct(config.rate, Periods(config, rep.lastUpdated, now));
    }
  }

  /** b's lead in unstored decay outweighs a's lead in stored score, and decay
      leaves b something. */
  ghost predicate Overtaken(config: DecayConfig, a: Record, b: Record, now: u32)
    requires config.enabled ==> config.interval > 0
  {
    a.score - b.score < Due(config, a, now) - Due(config, b, now) && Due(config, b, now) < b.score
  }

  ghost predicate InCurrentOrder(s: Reputation, sorted: seq<Record>, now: u32)
  {
    forall i, j :: 0 <= i < j < |sorted| ==> PairInOrder(s, sorted[i], sorted[j], now)
  }

  ghost predicate PairInOrder(s: Reputation, a: Record, b: Record, now: u32)
  {
    var x, y := s.GetReputation(now, a.user), s.GetReputation(now, b.user);
    x.Some? && y.Some? && x.value >= y.value
  }

  ghost predicate NoneOvertaken(s: Reputation, sorted: seq<Record>, now: u32)
    requires s.config.enabled ==> s.config.interval > 0
  {
    forall i, j :: 0 <= i < j < |sorted| ==> !Overtaken(s.config, sorted[i], sorted[j], now)
  }

  /** The leaderboard ranks stored scores. It stands in the order of the
      current ones exactly when nobody on it is overtaken by somebody below,
      as nobody is when decay takes the same off all of them. */
  lemma LeaderboardCurrentExactly(s: Reputation, sorted: seq<Record>, now: u32)
    requires RecordsSound(s) && BoardSound(s) && (s.config.enabled ==> s.config.interval > 0)
    requires StableDescending(sorted, Collected(s.board, s.records))
    ensures InCurrentOrder(s, sorted, now) <==> NoneOvertaken(s, sorted, now)
    ensures (forall i, j :: 0 <= i < j < |sorted| ==> Due(s.config, sorted[i], now) == Due(s.config, sorted[j], now)) ==>
      InCurrentOrder(s, sorted, now)
  {
    forall i, j | 0 <= i < j < |sorted|
      ensures PairInOrder(s, sorted[i], sorted[j], now) <==> !Overtaken(s.config, sorted[i], sorted[j], now)
    {
      RankedIsStored(s, sorted, i);
      RankedIsStored(s, sorted, j);
      OvertakenExactly(s.config, sorted[i], sorted[j], now);
    }
  }

  lemma OvertakenExactly(config: DecayConfig, a: Record, b: Record, now: u32)
    requires config.rate <= 0 && (config.enabled ==> config.interval > 0)
    requires a.score >= b.score >= 0
    ensures config.Decay(a, now).Some? && config.Decay(b, now).Some?
    ensures config.Decay(a, now).value.score < config.Decay(b, now).value.score <==> Overtaken(config, a, b, now)
  {
    CurrentScore(config, a, now);
    CurrentScore(config, b, now);
  }

  lemma RankedIsStored(s: Reputation, sorted: seq<Record>, i: nat)
    requires RecordsSound(s) && BoardSound(s) && i < |sorted|
    requires StableDescending(sorted, Collected(s.board, s.records))
    ensures sorted[i].user in s.records && s.records[sorted[i].user] == sorted[i]
  {
    var stored, v := Collected(s.board, s.records), sorted[i].score;
    WithScoreMembers(sorted, v);
    WithScoreMembers(stored, v);
    assert WithScore(sorted, v) == WithScore(stored, v) && sorted[i] in WithScore(sorted, v);
    CollectedIsComplete(s.board, s.records);
    var k :| 0 <= k < |stored| && stored[k] == sorted[i];
    assert stored[k] == s.records[s.board[k]];
  }

  /** Two updates that leave a board whose first record is now the lower one. */
  lemma OvertakenRun()
    ensures var s := Run(INITIAL, [UpdateReputation(0, 0, "a", 200, "r", None), UpdateReputation(100_000, 0, "b", 150, "r", None)]);
      var a, b := Record("a", 200, 2, 0, 1), Record("b", 150, 2, 100_000, 1);
      && Collected(s.board, s.records) == [a, b] && Ranking.Descending([a, b])
      && s.GetReputation(100_000, "a") == Some(100) && s.GetReputation(100_000, "b") == Some(150)
  {
    var first := UpdateReputation(0, 0, "a", 200, "r", None);
    var second := UpdateReputation(100_000, 0, "b", 150, "r", None);
    RunTwo(INITIAL, first, second);
    FirstUpdate(INITIAL, 0, "a", 200, 2);
    FirstUpdate(Step(INITIAL, first), 100_000, "b", 150, 2);
    OvertakenOnBoard(Step(Step(INITIAL, first), second));
  }

  lemma OvertakenOnBoard(s: Reputation)
    requires s.config == INITIAL.config && s.board == ["a"] + ["b"]
    requires s.records == map["a" := Record("a", 200, 2, 0, 1), "b" := Record("b", 150, 2, 100_000, 1)]
    ensures Collected(s.board, s.records) == [s.records["a"], s.records["b"]]
    ensures s.GetReputation(100_000, "a") == Some(100) && s.GetReputation(100_000, "b") == Some(150)
  {
    TwoOnBoard(s, s.records["a"], s.records["b"]);
  }

  /** The first update of a user that is not on the board. */
  lemma FirstUpdate(s: Reputation, now: u32, user: Address, score: i128, level: u32)
    requires user !in s.records && user !in s.board && user !in s.history
    requires s.config.interval > 0 && CalculateLevel(score) == level && 0 <= s.total <= 1000 && 0 <= score <= 1000
    ensures Step(s, UpdateReputation(now, 0, user, score, "r", None)) == s.(
      records := s.records[user := Record(user, score, level, now, 1)],
      history := s.history[user := [HistoryEntry(0, score, "r", None)]],
      total := s.total + score,
      board := s.board + [user])
  {
    var entry := HistoryEntry(0, score, "r", None);
    assert s.History(user) + [entry] == [entry];
  }

  lemma TwoOnBoard(s: Reputation, a: Record, b: Record)
    requires s.board == [a.user] + [b.user] && a.user in s.records && b.user in s.records
    requires s.records[a.user] == a && s.records[b.user] == b
    ensures Collected(s.board, s.records) == [a, b]
  {
    assert s.board[..1] == [a.user] && [a.user][..0] == [];
    assert Collected([a.user], s.records) == Collected([], s.records) + [a];
    assert [a] + [b] == [a, b];
  }

  /** An update, and a decay that takes the score below the level's threshold. */
  lemma StaleLevelRun()
    ensures var s := Run(INITIAL, [UpdateReputation(0, 0, "a", 100, "r", None), DecayReputation(1000, 0, "a")]);
      && "a" in s.records && s.records["a"].score == 99
      && s.records["a"].level == 2 && CalculateLevel(99) == 1
  {
    RunTwo(INITIAL, UpdateReputation(0, 0, "a", 100, "r", None), DecayReputation(1000, 0, "a"));
  }

  lemma RunTwo(s: Reputation, first: Call, second: Call)
    ensures Run(s, [first, second]) == Step(Step(s, first), second)
  {
    assert [first, second][1..] == [second];
    assert Run(Step(s, first), [second]) == Run(Step(Step(s, first), second), []);
  }

  // ---- updates, decays and slashes ------------------------------------------

  /** Nothing of a user but the given record and entries, and the total, is
      different afterwards. */
  ghost predicate OnlyUser(s: Reputation, t: Reputation, user: Address, record: Record, entries: seq<HistoryEntry>, change: int)
  {
    && t.records == s.records[user := record] && t.config == s.config && t.total == s.total + change
    && (forall who :: t.History(who) == if who == user then s.History(user) + entries else s.History(who))
  }

  /** An update takes off the decay due before it adds the change: the score at
      its ledger is the one that could be read there, moved by the change and
      no lower than zero. It is one more update of the user, made there, and
      one more entry; a new user comes last on the board. */
  lemma UpdateExact(s: Reputation, now: u32, ts: u64, user: Address, change: i128, reason: Symbol, course: Option<u64>)
    ensures var before := s.GetReputation(now, user);
      s.Update(now, ts, user, change, reason, course).Some? <==>
        && (s.config.enabled ==> s.config.interval > 0)
        && before.Some? && I128_MIN <= before.value + change <= I128_MAX
        && s.RecordOrNew(user, now).totalUpdates < U32_MAX && |s.History(user)| < U32_MAX
        && I128_MIN <= s.total + change <= I128_MAX
    ensures s.Update(now, ts, user, change, reason, course).Some? ==>
      var t, before := s.Update(now, ts, user, change, reason, course).value.0, s.GetReputation(now, user);
      && user in t.records && before.Some?
      && t.GetReputation(now, user) == Some(Max(before.value + change, 0))
      && var rep, was := t.records[user], s.RecordOrNew(user, now);
      && rep.score == Max(before.value + change, 0) && rep.level == CalculateLevel(rep.score)
      && rep.user == was.user && rep.lastUpdated == now && rep.totalUpdates == was.totalUpdates + 1
      && OnlyUser(s, t, user, rep, [HistoryEntry(ts, change, reason, course)], change)
      && t.board == if user in s.board then s.board else s.board + [user]
  {
  }

  /** A decay stores the score that can be read, with the difference as its
      entry, and nothing when there is none. */
  lemma ApplyDecayExact(s: Reputation, now: u32, ts: u64, user: Address)
    requires user in s.records && s.GetReputation(now, user).Some?
    ensures var change := s.GetReputation(now, user).value - s.records[user].score;
      && (s.ApplyDecay(now, ts, user).Some? <==>
            (change != 0 ==> && I128_MIN <= change <= I128_MAX && |s.History(user)| < U32_MAX
                             && I128_MIN <= s.total + change <= I128_MAX))
      && (s.ApplyDecay(now, ts, user).Some? ==>
            var t := s.ApplyDecay(now, ts, user).value.0;
            if change == 0 then t == s
            else t.board == s.board &&
                 OnlyUser(s, t, user, s.records[user].(score := s.GetReputation(now, user).value, lastUpdated := now),
                          [HistoryEntry(ts, change, "decay", None)], change))
  {
  }

  /** A slash takes its amount off the stored score, within zero and the
      largest i128, and forgets the decay due. A new user starts from zero. */
  lemma SlashExact(s: Reputation, now: u32, user: Address, amount: i128)
    ensures s.Slash(now, user, amount).Some?
    ensures user !in s.records ==> s.RecordOrNew(user, now).(level := 1) == Record(user, 0, 1, now, 0)
    ensures var t, was := s.Slash(now, user, amount).value.0, s.RecordOrNew(user, now);
      && user in t.records && t.board == s.board
      && var rep := t.records[user];
      && rep.score == Max(Min(was.score - amount, I128_MAX), 0) && rep.level == CalculateLevel(rep.score)
      && rep.user == was.user && rep.lastUpdated == now && rep.totalUpdates == was.totalUpdates
      && OnlyUser(s, t, user, rep, [], 0)
  {
  }

  /** At any rate, one clamp of the exact result does what the two saturating
      operations do, and nothing else of the record changes. */
  lemma DecayClampsOnce(config: DecayConfig, rep: Record, now: u32)
    requires config.enabled && config.interval > 0 && rep.score >= 0
    ensures config.Decay(rep, now).Some?
    ensures var periods := Periods(config, rep.lastUpdated, now);
      config.Decay(rep, now).value == rep.(
        score := Max(Min(rep.score + config.rate * periods, I128_MAX), 0),
        lastUpdated := if periods == 0 then rep.lastUpdated else now)
  {
    var elapsed := Max(now - rep.lastUpdated, 0);
    var p := elapsed / config.interval;
    QuotientBounds(elapsed, config.interval);
    if elapsed < config.interval {
      CompareScaled(p, 1, config.interval);
      assert p == 0;
    } else {
      CompareScaled(1, p + 1, config.interval);
    }
  }

  /** Without decay, and with a zero interval. */
  lemma DecayOffExact(config: DecayConfig, rep: Record, now: u32)
    ensures !config.enabled ==> config.Decay(rep, now) == Some(rep)
    ensures config.enabled && config.interval == 0 ==> config.Decay(rep, now).None?
  {
  }

  /** The configuration is the one that was last set, and setting it changes
      nothing else. */
  lemma ConfigExact(s: Reputation, call: Call)
    ensures Step(s, call).config == if call.SetDecayConfig? then call.config else s.config
    ensures call.SetDecayConfig? ==> Step(s, call) == s.(config := call.config)
  {
  }

  // ---- the total ------------------------------------------------------------

  function Changes(entries: seq<HistoryEntry>): (changes: seq<int>)
  {
    seq(|entries|, i requires 0 <= i < |entries| => entries[i].change)
  }

  /** What the entries of each user add up to. */
  function Recorded(history: map<Address, seq<HistoryEntry>>): map<Address, int>
  {
    map user | user in history :: SeqSum(Changes(history[user]))
  }

  lemma EntryRecorded(history: map<Address, seq<HistoryEntry>>, user: Address, before: seq<HistoryEntry>, entry: HistoryEntry)
    requires before == if user in history then history[user] else []
    ensures MapSum(Recorded(history[user := before + [entry]])) == MapSum(Recorded(history)) + entry.change
  {
    var after := before + [entry];
    assert Recorded(history[user := after]) == Recorded(history)[user := SeqSum(Changes(after))];
    MapSumSet(Recorded(history), user, SeqSum(Changes(after)));
    ChangesAppend(before, entry);
  }

  lemma ChangesAppend(before: seq<HistoryEntry>, entry: HistoryEntry)
    ensures SeqSum(Changes(before + [entry])) == SeqSum(Changes(before)) + entry.change
    ensures SeqSum(Changes([])) == 0
  {
    assert Changes(before + [entry]) == Changes(before) + [entry.change];
    SeqSumAppend(Changes(before), entry.change);
  }

  lemma DecayKeepsTotal(s: Reputation, now: u32, ts: u64, user: Address)
    requires s.total == MapSum(Recorded(s.history)) && user in s.records && s.ApplyDecay(now, ts, user).Some?
    ensures var t := s.ApplyDecay(now, ts, user).value.0; t.total == MapSum(Recorded(t.history))
  {
    var t := s.ApplyDecay(now, ts, user).value.0;
    if t != s {
      var entry := HistoryEntry(ts, t.total - s.total, "decay", None);
      assert t.history == s.history[user := s.History(user) + [entry]];
      EntryRecorded(s.history, user, s.History(user), entry);
    }
  }

  lemma StepKeepsTotal(s: Reputation, call: Call)
    requires s.total == MapSum(Recorded(s.history))
    ensures Step(s, call).total == MapSum(Recorded(Step(s, call).history))
  {
    match call
    case UpdateReputation(now, ts, user, change, reason, course) =>
      EntryRecorded(s.history, user, s.History(user), HistoryEntry(ts, change, reason, course));
    case DecayReputation(now, ts, user) =>
      if user in s.records && s.ApplyDecay(now, ts, user).Some? { DecayKeepsTotal(s, now, ts, user); }
    case SlashReputation(_, _, _) =>
    case SetDecayConfig(_) =>
  }

  /** Over every run the stored total is the sum of all recorded changes. */
  lemma {:induction false} TotalIsRecorded(s: Reputation, calls: seq<Call>)
    requires s.total == MapSum(Recorded(s.history))
    ensures Run(s, calls).total == MapSum(Recorded(Run(s, calls).history))
    decreases |calls|
  {
    if calls != [] {
      StepKeepsTotal(s, calls[0]);
      TotalIsRecorded(Step(s, calls[0]), calls[1..]);
    }
  }

  lemma InitialTotal(calls: seq<Call>)
    ensures Run(INITIAL, calls).total == MapSum(Recorded(Run(INITIAL, calls).history))
  {
    NothingRecorded(INITIAL);
    TotalIsRecorded(INITIAL, calls);
  }

  lemma NothingRecorded(s: Reputation)
    requires s.history == map[] && s.total == 0
    ensures s.total == MapSum(Recorded(s.history))
  {
    assert Recorded(s.history) == map[];
  }

  /** The defaults decay by one per thousand ledgers: an update of 10 after
      100 intervals turns 200 into 110. */
  lemma DecayedUpdateRun()
    ensures var s := Run(INITIAL, [UpdateReputation(0, 0, "a", 200, "r", None), UpdateReputation(100_000, 0, "a", 10, "r", None)]);
      "a" in s.records && s.records["a"].score == 110
  {
    var first := UpdateReputation(0, 0, "a", 200, "r", None);
    RunTwo(INITIAL, first, UpdateReputation(100_000, 0, "a", 10, "r", None));
    FirstUpdate(INITIAL, 0, "a", 200, 2);
    UpdatedAgain(Step(INITIAL, first));
  }

  lemma UpdatedAgain(s: Reputation)
    requires "a" in s.records && s.records["a"] == Record("a", 200, 2, 0, 1)
    requires s.config == DecayConfig(true, -1, 1000) && s.total == 200 && |s.History("a")| == 1
    ensures var t := Step(s, UpdateReputation(100_000, 0, "a", 10, "r", None));
      "a" in t.records && t.records["a"].score == 110
  {
    DecayClampsOnce(s.config, s.records["a"], 100_000);
    UpdateExact(s, 100_000, 0, "a", 10, "r", None);
  }
}

/** The contract itself. */
module ReputationContract {
  import opened Panics
  import opened Host
  import opened Integers
  import opened ReputationMachine
  import opened Ranking

  /** The reverse search of the threshold table. */
  method LevelOf(score: i128) returns (level: u32)
    ensures level == CalculateLevel(score)
  {
    assert LEVEL_THRESHOLDS[0] == 0 && LEVEL_THRESHOLDS[1] == 100 && LEVEL_THRESHOLDS[2] == 400
        && LEVEL_THRESHOLDS[3] == 900 && LEVEL_THRESHOLDS[4] == 1600;
    var i := |LEVEL_THRESHOLDS|;
    while i > 0
      invariant 0 <= i <= |LEVEL_THRESHOLDS|
      invariant forall k :: i <= k < |LEVEL_THRESHOLDS| ==> score < LEVEL_THRESHOLDS[k]
    {
      i := i - 1;
      if score >= LEVEL_THRESHOLDS[i] {
        return i + 1;
      }
    }
    level := 1;
  }

  class ReputationStore {
    var records: map<Address, Record>
    var history: map<Address, seq<HistoryEntry>>
    var total: i128
    var board: seq<Address>
    var config: DecayConfig

    ghost function View(): Reputation
      reads this
    {
      Reputation(records, history, total, board, config)
    }

    constructor ()
      ensures View() == INITIAL
    {
      records, history, total, board := map[], map[], 0, [];
      config := DecayConfig(true, -1, 1000);
    }

    method DecayRecord(rep: Record, now: u32) returns (r: Option<Record>)
      ensures r == config.Decay(rep, now)
    {
      if !config.enabled {
        return Some(rep);
      }
      var elapsed: u32 := Max(now - rep.lastUpdated, 0);
      var decayed := rep;
      if elapsed >= config.interval {
        var _ :- Require(config.interval != 0);
        var periods := elapsed / config.interval;
        var decay: i128 := Saturated(config.rate * periods);
        decayed := decayed.(score := Max(Saturated(decayed.score + decay), 0));
        decayed := decayed.(lastUpdated := now);
      }
      r := Some(decayed);
    }

    /** The record of a user with the decay due and a change applied. */
    method ScoredRecord(now: u32, user: Address, change: i128) returns (r: Option<Record>)
      ensures r == View().Scored(now, user, change)
    {
      var rep := Record(user, 0, 1, now, 0);
      if user in records {
        rep := records[user];
      }
      rep :- DecayRecord(rep, now);
      var score: i128 :- Checked(rep.score + change);
      rep := rep.(score := Max(score, 0), lastUpdated := now);
      var updates: u32 :- CheckedU32(rep.totalUpdates + 1);
      var level := LevelOf(rep.score);
      rep := rep.(totalUpdates := updates, level := level);
      r := Some(rep);
    }

    method UpdateReputation(now: u32, timestamp: u64, user: Address, change: i128, reason: Symbol, course: Option<u64>)
      returns (r: Option<()>)
      modifies this
      ensures Commits(old(View()).Update(now, timestamp, user, change, reason, course), old(View()), View(), r)
    {
      var rep: Record :- ScoredRecord(now, user, change);
      var entries := [];
      if user in history {
        entries := history[user];
      }
      var count: u32 :- CheckedU32(|entries| + 1);
      var newTotal: i128 :- Checked(total + change);
      records := records[user := rep];
      history := history[user := entries + [HistoryEntry(timestamp, change, reason, course)]];
      total := newTotal;
      if user !in board {
        board := board + [user];
      }
      r := Some(());
    }

    method ApplyDecay(now: u32, timestamp: u64, user: Address) returns (r: Option<()>)
      modifies this
      ensures Commits(old(View()).ApplyDecay(now, timestamp, user), old(View()), View(), r)
    {
      var _ :- Require(user in records);
      var oldScore: i128 := records[user].score;
      var rep: Record :- DecayRecord(records[user], now);
      if oldScore != rep.score {
        var change: i128 :- Checked(rep.score - oldScore);
        var entries := [];
        if user in history {
          entries := history[user];
        }
        var count: u32 :- CheckedU32(|entries| + 1);
        var newTotal: i128 :- Checked(total + change);
        records := records[user := rep];
        history := history[user := entries + [HistoryEntry(timestamp, change, "decay", None)]];
        total := newTotal;
      }
      r := Some(());
    }

    method GetReputation(now: u32, user: Address) returns (r: Option<i128>)
      ensures r == View().GetReputation(now, user)
    {
      if user !in records {
        return Some(0);
      }
      var rep: Record :- DecayRecord(records[user], now);
      r := Some(rep.score);
    }

    method Slash(now: u32, user: Address, amount: i128) returns (r: Option<()>)
      modifies this
      ensures Commits(old(View()).Slash(now, user, amount), old(View()), View(), r)
    {
      var rep := Record(user, 0, 1, now, 0);
      if user in records {
        rep := records[user];
      }
      rep := rep.(score := Max(Saturated(rep.score - amount), 0));
      var level := LevelOf(rep.score);
      rep := rep.(level := level, lastUpdated := now);
      records := records[user := rep];
      r := Some(());
    }

    /** The first limit records of the one stable descending order of the
        records of the board. */
    method GetLeaderboard(limit: u32) returns (top: seq<Record>)
      ensures exists sorted ::
        && StableDescending(sorted, Collected(board, records)) && |sorted| == |Collected(board, records)|
        && top == sorted[..Min(|sorted|, limit)]
    {
      var collected := [];
      var i := 0;
      while i < |board|
        invariant 0 <= i <= |board|
        invariant collected == Collected(board[..i], records)
      {
        assert board[..i + 1][..i] == board[..i];
        if board[i] in records {
          collected := collected + [records[board[i]]];
        }
        i := i + 1;
      }
      assert board[..i] == board;
      var sorted := SortByScore(collected);
      top := [];
      i := 0;
      while i < Min(|sorted|, limit)
        invariant 0 <= i <= Min(|sorted|, limit)
        invariant top == sorted[..i]
      {
        top := top + [sorted[i]];
        i := i + 1;
      }
    }
  }
}
