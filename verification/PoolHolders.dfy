/** What a run of the pool keeps for the holders of its shares. */
module PoolHolders {
  import opened Panics
  import opened Host
  import opened Integers
  import opened Sums
  import opened PoolMachine
  import opened PoolSafety

  // ---- one call -------------------------------------------------------------

  /** Nobody holds a negative number of shares. */
  ghost predicate NoDebts(p: Pool)
  {
    forall who :: Get(p.liquidity, who) >= 0
  }

  /** The shares are backed, and the balances account for all of them. */
  ghost predicate Held(p: Pool)
  {
    Solvent(p) && NoDebts(p) && MapSum<Address>(p.liquidity) == p.totalLiquidity
  }

  lemma BalanceAtMostSupply(p: Pool, who: Address)
    requires Held(p)
    ensures 0 <= Get(p.liquidity, who) <= p.totalLiquidity
  {
    forall j | j in p.liquidity
      ensures p.liquidity[j] >= 0
    {
      assert Get(p.liquidity, j) >= 0;
    }
    EntryAtMostSum<Address>(p.liquidity, who);
  }

  /** The source never compares a removal with the balance of its caller. An
      accepted one leaves nobody in debt exactly when it would pass. */
  lemma RemovalWithinBalanceExactly(p: Pool, provider: Address, shares: i128)
    requires NoDebts(p) && p.RemoveLiquidity(provider, shares).Some?
    ensures NoDebts(p.RemoveLiquidity(provider, shares).value.0) <==> shares <= Get(p.liquidity, provider)
  {
    var q := p.RemoveLiquidity(provider, shares).value.0;
    assert Get(q.liquidity, provider) == Get(p.liquidity, provider) - shares;
    assert forall who :: who != provider ==> Get(q.liquidity, who) == Get(p.liquidity, who);
  }

  /** A removal of own shares goes through exactly when its two products stay
      in range. */
  lemma OwnRemovalAccepted(p: Pool, who: Address, shares: i128)
    requires Held(p) && 0 < shares <= Get(p.liquidity, who)
    ensures Sound(p, Remove(who, shares))
    ensures p.RemoveLiquidity(who, shares).Some? <==>
      shares * p.reserveA <= I128_MAX && shares * p.reserveB <= I128_MAX
  {
    BalanceAtMostSupply(p, who);
    DivisionsDefined(p, shares);
    PaidWithinReserve(p.reserveA, p.totalLiquidity, shares);
    PaidWithinReserve(p.reserveB, p.totalLiquidity, shares);
  }

  lemma PaidWithinReserve(r: int, t: int, m: int)
    requires r >= 0 && 0 < m <= t
    ensures MulDiv(m, r, t).Some? ==> 0 <= MulDiv(m, r, t).value <= r
  {
    FloorOfProduct(m, r, t);
    ProductMonotone(m, t, r, r);
    if MulDiv(m, r, t).Some? {
      assert t * r == r * t;
      CompareScaled(MulDiv(m, r, t).value, r, t);
    }
  }

  /** The condition under which a call leaves the shares backed and accounted
      for: a deposit is sound, a removal is of own shares, a negative one is
      sound, and nobody drains a pool that has shares. */
  ghost predicate Rightful(p: Pool, call: Call)
  {
    match call
    case Add(_, _, _, _, _) => Sound(p, call)
    case Remove(provider, shares) =>
      p.RemoveLiquidity(provider, shares).Some? ==>
        shares <= Get(p.liquidity, provider) && (shares < 0 ==> Sound(p, call))
    case Trade(_, _, _, _, _) => true
    case Collect => true
    case Drain => p.totalLiquidity == 0
  }

  lemma RightfulIsSound(p: Pool, call: Call)
    requires Held(p) && Rightful(p, call)
    ensures Sound(p, call)
  {
    if call.Remove? {
      BalanceAtMostSupply(p, call.provider);
    }
  }

  lemma BalancesFollowSupply(p: Pool, call: Call)
    requires MapSum<Address>(p.liquidity) == p.totalLiquidity && call != Drain
    ensures MapSum<Address>(Step(p, call).liquidity) == Step(p, call).totalLiquidity
  {
    var next := Step(p, call);
    if call.Add? || call.Remove? {
      MapSumSet<Address>(p.liquidity, call.provider, Get(next.liquidity, call.provider));
    }
  }

  lemma DepositNoDebt(p: Pool, call: Call)
    requires Held(p) && call.Add? && Sound(p, call)
    ensures NoDebts(Step(p, call))
  {
    var next := Step(p, call);
    if p.AddLiquidity(call.provider, call.a, call.b, call.aMin, call.bMin).Some? {
      MintNotNegative(p, call);
      assert Get(p.liquidity, call.provider) >= 0;
      assert forall who :: who != call.provider ==> Get(next.liquidity, who) == Get(p.liquidity, who);
    }
  }

  lemma MintNotNegative(p: Pool, call: Call)
    requires Solvent(p) && call.Add? && Sound(p, call)
    requires p.AddLiquidity(call.provider, call.a, call.b, call.aMin, call.bMin).Some?
    ensures p.AddLiquidity(call.provider, call.a, call.b, call.aMin, call.bMin).value.1 >= 0
  {
    SoundStep(p, call);
    if p.totalLiquidity > 0 {
      DepositDilutesExactlyWhenUnsound(p, call.provider, call.a, call.b, call.aMin, call.bMin);
    }
  }

  lemma RightfulStep(p: Pool, call: Call)
    requires Held(p) && Rightful(p, call)
    ensures Held(Step(p, call))
  {
    RightfulIsSound(p, call);
    SoundStep(p, call);
    match call
    case Add(_, _, _, _, _) =>
      BalancesFollowSupply(p, call);
      DepositNoDebt(p, call);
    case Remove(provider, shares) =>
      BalancesFollowSupply(p, call);
      if p.RemoveLiquidity(provider, shares).Some? {
        RemovalWithinBalanceExactly(p, provider, shares);
      }
    case Trade(_, _, _, _, _) => BalancesFollowSupply(p, call);
    case Collect =>
    case Drain =>
  }

  /** The condition is exact: the rightful calls are those that leave each
      reserve keeping up with the supply, and the shares accounted for. */
  lemma RightfulExactly(p: Pool, call: Call)
    requires Held(p)
    ensures Rightful(p, call) <==> Kept(p, call) && Held(Step(p, call))
  {
    SoundExactly(p, call);
    if Rightful(p, call) {
      RightfulIsSound(p, call);
      RightfulStep(p, call);
    } else if call.Remove? && p.RemoveLiquidity(call.provider, call.shares).Some? {
      RemovalWithinBalanceExactly(p, call.provider, call.shares);
    }
  }

  // ---- runs -----------------------------------------------------------------

  ghost predicate AllRightful(p: Pool, calls: seq<Call>)
    decreases |calls|
  {
    calls == [] || (Rightful(p, calls[0]) && AllRightful(Step(p, calls[0]), calls[1..]))
  }

  ghost predicate AlwaysHeld(p: Pool, calls: seq<Call>)
    decreases |calls|
  {
    calls == [] ||
    (Kept(p, calls[0]) && Held(Step(p, calls[0])) && AlwaysHeld(Step(p, calls[0]), calls[1..]))
  }

  lemma {:induction false} RightfulRunExactly(p: Pool, calls: seq<Call>)
    requires Held(p)
    ensures AllRightful(p, calls) <==> AlwaysHeld(p, calls)
    decreases |calls|
  {
    if calls != [] {
      RightfulExactly(p, calls[0]);
      if Rightful(p, calls[0]) {
        RightfulRunExactly(Step(p, calls[0]), calls[1..]);
      }
    }
  }

  /** Over every rightful run nobody is in debt, the balances are the supply,
      and so each balance is within it. */
  lemma {:induction false} RightfulRun(p: Pool, calls: seq<Call>)
    requires Held(p) && AllRightful(p, calls)
    ensures AllSound(p, calls) && Held(Run(p, calls))
    ensures forall who :: 0 <= Get(Run(p, calls).liquidity, who) <= Run(p, calls).totalLiquidity
    decreases |calls|
  {
    if calls == [] {
      forall who { BalanceAtMostSupply(p, who); }
    } else {
      RightfulIsSound(p, calls[0]);
      RightfulStep(p, calls[0]);
      RightfulRun(Step(p, calls[0]), calls[1..]);
    }
  }

  lemma InitialHeld(calls: seq<Call>)
    requires AllRightful(INITIAL, calls)
    ensures AllSound(INITIAL, calls) && Held(Run(INITIAL, calls))
  {
    NothingHeld(INITIAL);
    RightfulRun(INITIAL, calls);
  }

  lemma NothingHeld(p: Pool)
    requires p.liquidity == map[] && p.reserveA == p.reserveB == p.totalLiquidity == 0 && p.feeNumerator == 3
    ensures Held(p)
  {
  }

  /** Somebody who neither deposits nor removes. */
  ghost predicate Idle(calls: seq<Call>, who: Address)
  {
    forall i :: 0 <= i < |calls| && (calls[i].Add? || calls[i].Remove?) ==> calls[i].provider != who
  }

  lemma IdleStep(p: Pool, call: Call, who: Address)
    requires call.Add? || call.Remove? ==> call.provider != who
    ensures Get(Step(p, call).liquidity, who) == Get(p.liquidity, who)
  {
  }

  /** Whatever the others do rightfully, a holder who does nothing keeps its
      shares, the pool stays funded, and the value behind a share does not
      fall. */
  lemma IdleHolderKept(p: Pool, calls: seq<Call>, who: Address)
    requires Held(p) && AllRightful(p, calls) && Idle(calls, who) && Get(p.liquidity, who) > 0
    ensures Get(Run(p, calls).liquidity, who) == Get(p.liquidity, who)
    ensures AlwaysFunded(p, calls) && ShareValueKept(p, Run(p, calls))
  {
    HolderFunds(p, calls, who);
    RightfulRun(p, calls);
    SoundRun(p, calls);
  }

  lemma {:induction false} HolderFunds(p: Pool, calls: seq<Call>, who: Address)
    requires Held(p) && AllRightful(p, calls) && Idle(calls, who) && Get(p.liquidity, who) > 0
    ensures Get(Run(p, calls).liquidity, who) == Get(p.liquidity, who)
    ensures AlwaysFunded(p, calls)
    decreases |calls|
  {
    BalanceAtMostSupply(p, who);
    if calls != [] {
      IdleStep(p, calls[0], who);
      RightfulStep(p, calls[0]);
      HolderFunds(Step(p, calls[0]), calls[1..], who);
    }
  }

  // ---- runs that are not rightful -------------------------------------------

  /** Somebody without shares removes those of the only depositor: the run is
      sound, and the pool is empty with shares outstanding. */
  lemma ForeignRemovalRun()
    ensures var first, second := Add("p", 1_000_000, 1_000_000, 0, 0), Remove("q", 999_000);
      var q := Run(INITIAL, [first, second]);
      && AllSound(INITIAL, [first, second])
      && q.reserveA == q.reserveB == q.totalLiquidity == 0
      && Get(q.liquidity, "p") == 999_000 && Get(q.liquidity, "q") == -999_000
  {
    var first, second := Add("p", 1_000_000, 1_000_000, 0, 0), Remove("q", 999_000);
    Founding(1_000_000, 1_000_000, 1_000_000);
    TwoCalls(INITIAL, first, second);
    TwoSound(INITIAL, first, second);
    var founded := Founded(1_000_000, 1_000_000, 999_000);
    var q := Step(founded, second);
    assert q.reserveA == 0 && q.reserveB == 0 && q.totalLiquidity == 0;
  }

  lemma TwoSound(p: Pool, first: Call, second: Call)
    ensures AllSound(p, [first, second]) <==> Sound(p, first) && Sound(Step(p, first), second)
  {
    assert [first, second][1..] == [second] && [second][1..] == [];
    assert AllSound(Step(p, first), [second]) <==> Sound(Step(p, first), second);
  }

  /** A drain voids the shares but not the balances. The earlier depositor
      then removes what a later one brought, within its own balance. */
  lemma DrainedRun()
    ensures var first, second := Add("p", 1_000_000, 1_000_000, 0, 0), Add("q", 1_000_000, 1_000_000, 0, 0);
      var q := Run(INITIAL, [first] + ([Drain] + ([second] + ([Remove("p", 999_000)] + []))));
      && q.reserveA == q.reserveB == q.totalLiquidity == 0
      && Get(q.liquidity, "p") == 0 && Get(q.liquidity, "q") == 999_000
  {
    var first, second := Add("p", 1_000_000, 1_000_000, 0, 0), Add("q", 1_000_000, 1_000_000, 0, 0);
    var last := Remove("p", 999_000);
    Founding(1_000_000, 1_000_000, 1_000_000);
    RunStep(INITIAL, first, [Drain] + ([second] + ([last] + [])));
    var founded := Founded(1_000_000, 1_000_000, 999_000);
    RunStep(founded, Drain, [second] + ([last] + []));
    var drained := Step(founded, Drain);
    RunStep(drained, second, [last] + []);
    var again := Step(drained, second);
    RunStep(again, last, []);
    Refounded(drained);
  }

  lemma Refounded(p: Pool)
    requires p.reserveA == p.reserveB == p.totalLiquidity == 0 && p.liquidity == map["p" := 999_000]
    ensures var q := Step(Step(p, Add("q", 1_000_000, 1_000_000, 0, 0)), Remove("p", 999_000));
      && q.reserveA == q.reserveB == q.totalLiquidity == 0
      && Get(q.liquidity, "p") == 0 && Get(q.liquidity, "q") == 999_000
  {
    SecondFounding(p);
    var q := Step(p, Add("q", 1_000_000, 1_000_000, 0, 0));
    var r := Step(q, Remove("p", 999_000));
    assert r.reserveA == 0 && r.reserveB == 0 && r.totalLiquidity == 0;
  }

  lemma SecondFounding(p: Pool)
    requires p.reserveA == p.reserveB == p.totalLiquidity == 0 && p.liquidity == map["p" := 999_000]
    ensures Step(p, Add("q", 1_000_000, 1_000_000, 0, 0)) == p.(
      reserveA := 1_000_000, reserveB := 1_000_000, totalLiquidity := 999_000,
      liquidity := map["p" := 999_000, "q" := 999_000])
  {
    MillionRoot();
  }

  lemma MillionRoot()
    ensures FirstMint(1_000_000, 1_000_000) == Some(999_000)
  {
    Founding(1_000_000, 1_000_000, 1_000_000);
  }
}
