/** Royalty splits, balances and payments as a machine over storage. */
module RoyaltyMachine {
  import opened Panics
  import opened Host
  import opened Integers
  import opened Sums

  datatype Split = Split(creator: u32, contributor: u32, platform: u32)

  datatype Payment = Payment(course: u64, amount: i128, timestamp: u64)

  datatype Shares = Shares(creator: i128, contributor: i128, platform: i128)

  function SplitAmount(total: i128, percentage: u32): Option<i128>
  {
    MulDiv(total, percentage, 100)
  }

  /** The platform gets what the other two floors leave. */
  function Divide(split: Split, total: i128): Option<Shares>
  {
    var creator :- SplitAmount(total, split.creator);
    var contributor :- SplitAmount(total, split.contributor);
    var rest := Checked(total - creator);
    var platform := if rest.Some? then Checked(rest.value - contributor) else None;
    Some(Shares(creator, contributor, if platform.Some? then platform.value else 0))
  }

  function Credit(balances: map<Address, i128>, who: Address, amount: i128): Option<map<Address, i128>>
  {
    var balance :- Checked(Get(balances, who) + amount);
    Some(balances[who := balance])
  }

  /** The three slots may name the same address, and with one recipient the
      first slot is also the last. */
  function CreditAll(balances: map<Address, i128>, slots: seq<Address>, shares: Shares): Option<map<Address, i128>>
    requires slots != []
  {
    var afterCreator :- Credit(balances, slots[0], shares.creator);
    var afterContributor :-
      if |slots| > 1 then Credit(afterCreator, slots[1], shares.contributor) else Some(afterCreator);
    Credit(afterContributor, slots[|slots| - 1], shares.platform)
  }

  datatype Royalties = Royalties(
    splits: map<u64, Split>,
    recipients: map<u64, seq<Address>>,
    balances: map<Address, i128>,
    payments: seq<Payment>)
  {
    function Slots(course: u64): seq<Address>
    {
      if course in recipients then recipients[course] else []
    }

    function SetSplit(course: u64, split: Split): Option<(Royalties, ())>
    {
      var two :- CheckedU32(split.creator + split.contributor);
      var sum :- CheckedU32(two + split.platform);
      var _ :- Require(sum == 100);
      Some((this.(splits := splits[course := split]), ()))
    }

    function AddRecipient(course: u64, recipient: Address): Option<(Royalties, ())>
    {
      var _ :- CheckedU32(|Slots(course)| + 1);
      Some((this.(recipients := recipients[course := Slots(course) + [recipient]]), ()))
    }

    function Distribute(course: u64, total: i128, timestamp: u64): Option<(Royalties, ())>
    {
      var _ :- Require(total > 0);
      var _ :- Require(course in splits);
      var shares :- Divide(splits[course], total);
      var _ :- Require(Slots(course) != []);
      var credited :- CreditAll(balances, Slots(course), shares);
      var _ :- CheckedU64(|payments| + 1);
      Some((this.(balances := credited, payments := payments + [Payment(course, total, timestamp)]), ()))
    }

    function Withdraw(recipient: Address): Option<(Royalties, i128)>
    {
      var _ :- Require(Get(balances, recipient) > 0);
      Some((this.(balances := balances[recipient := 0]), Get(balances, recipient)))
    }
  }

  const INITIAL := Royalties(map[], map[], map[], [])

  datatype Call =
    | SetRoyaltySplit(course: u64, split: Split)
    | AddRoyaltyRecipient(course: u64, recipient: Address)
    | DistributeRoyalties(course: u64, total: i128, timestamp: u64)
    | WithdrawRoyalties(recipient: Address)

  function After<T>(before: Royalties, result: Option<(Royalties, T)>): Royalties
  {
    if result.Some? then result.value.0 else before
  }

  function Step(s: Royalties, call: Call): Royalties
  {
    match call
    case SetRoyaltySplit(course, split) => After(s, s.SetSplit(course, split))
    case AddRoyaltyRecipient(course, recipient) => After(s, s.AddRecipient(course, recipient))
    case DistributeRoyalties(course, total, timestamp) => After(s, s.Distribute(course, total, timestamp))
    case WithdrawRoyalties(recipient) => After(s, s.Withdraw(recipient))
  }

  function Run(s: Royalties, calls: seq<Call>): Royalties
    decreases |calls|
  {
    if calls == [] then s else Run(Step(s, calls[0]), calls[1..])
  }

  function Amounts(payments: seq<Payment>): (amounts: seq<int>)
  {
    seq(|payments|, i requires 0 <= i < |payments| => payments[i].amount)
  }

  function CourseTotal(payments: seq<Payment>, course: u64): int
  {
    if payments == [] then 0 else
      var last := payments[|payments| - 1];
      CourseTotal(payments[..|payments| - 1], course) + (if last.course == course then last.amount else 0)
  }
}

/** Where the money is, on every run. */
module RoyaltySafety {
  import opened Panics
  import opened Host
  import opened Integers
  import opened Sums
  import opened RoyaltyMachine

  predicate ValidSplit(split: Split)
  {
    split.creator + split.contributor + split.platform == 100
  }

  /** The three shares of a positive payment are non-negative and add up to
      it. The platform's is its percentage rounded down plus at most two: its
      excess over the exact percentage is what the other two floors cut off. */
  lemma SharesAddUp(split: Split, total: i128)
    requires ValidSplit(split) && total > 0 && Divide(split, total).Some?
    ensures var s := Divide(split, total).value;
      && s.creator >= 0 && s.contributor >= 0 && s.platform >= 0
      && s.creator + s.contributor + s.platform == total
      && s.creator == total * split.creator / 100
      && s.contributor == total * split.contributor / 100
      && s.platform * 100 == total * split.platform + (total * split.creator) % 100 + (total * split.contributor) % 100
      && total * split.platform / 100 <= s.platform <= total * split.platform / 100 + 2
  {
    var c, k, p := total * split.creator, total * split.contributor, total * split.platform;
    ProductMonotone(0, total, 0, split.creator);
    ProductMonotone(0, total, 0, split.contributor);
    ProductMonotone(0, total, 0, split.platform);
    Distributes(total, split.creator, split.contributor, split.platform);
    RestOfFloors(total, c, k, p);
  }

  lemma Distributes(t: int, a: int, b: int, c: int)
    ensures t * a + t * b + t * c == t * (a + b + c)
  {
  }

  /** What two floors leave of a total is the third part and their remainders. */
  lemma RestOfFloors(total: int, c: int, k: int, p: int)
    requires c >= 0 && k >= 0 && p >= 0 && c + k + p == total * 100
    ensures var rest := total - c / 100 - k / 100;
      && 0 <= rest <= total && rest * 100 == p + c % 100 + k % 100
      && p / 100 <= rest <= p / 100 + 2
  {
  }

  // ---- one distribution -----------------------------------------------------

  /** What one address earns from a distribution, slot by slot. */
  function Earned(slots: seq<Address>, shares: Shares, who: Address): int
    requires slots != []
  {
    (if slots[0] == who then shares.creator else 0)
    + (if |slots| > 1 && slots[1] == who then shares.contributor else 0)
    + (if slots[|slots| - 1] == who then shares.platform else 0)
  }

  /** The part of a distribution that no slot receives. */
  function Unallocated(slots: seq<Address>, shares: Shares): int
  {
    if |slots| == 1 then shares.contributor else 0
  }

  /** However the slots alias, each address is credited with what it earns. */
  lemma CreditsAreEarnings(balances: map<Address, i128>, slots: seq<Address>, shares: Shares, who: Address)
    requires slots != [] && CreditAll(balances, slots, shares).Some?
    ensures Get(CreditAll(balances, slots, shares).value, who) == Get(balances, who) + Earned(slots, shares, who)
  {
  }

  lemma CreditMovesSum(balances: map<Address, i128>, who: Address, amount: i128)
    requires Credit(balances, who, amount).Some?
    ensures MapSum<Address>(Credit(balances, who, amount).value) == MapSum<Address>(balances) + amount
  {
    MapSumSet(balances, who, Get(balances, who) + amount);
  }

  lemma CreditsMoveSum(balances: map<Address, i128>, slots: seq<Address>, shares: Shares)
    requires slots != [] && CreditAll(balances, slots, shares).Some?
    ensures MapSum<Address>(CreditAll(balances, slots, shares).value)
         == MapSum<Address>(balances) + shares.creator + shares.contributor + shares.platform - Unallocated(slots, shares)
  {
    var b1 := Credit(balances, slots[0], shares.creator).value;
    CreditMovesSum(balances, slots[0], shares.creator);
    var b2 := if |slots| > 1 then Credit(b1, slots[1], shares.contributor).value else b1;
    if |slots| > 1 { CreditMovesSum(b1, slots[1], shares.contributor); }
    CreditMovesSum(b2, slots[|slots| - 1], shares.platform);
  }

  /** An accepted distribution allocates the whole payment exactly when the
      course has a second recipient or the contributor's share rounds to zero. */
  lemma WholePaymentAllocatedExactly(s: Royalties, course: u64, total: i128, ts: u64)
    requires AllSplitsValid(s) && s.Distribute(course, total, ts).Some?
    ensures MapSum<Address>(s.Distribute(course, total, ts).value.0.balances) == MapSum<Address>(s.balances) + total
        <==> |s.Slots(course)| >= 2 || total * s.splits[course].contributor < 100
  {
    var shares := Divide(s.splits[course], total).value;
    SharesAddUp(s.splits[course], total);
    CreditsMoveSum(s.balances, s.Slots(course), shares);
  }

  // ---- runs -----------------------------------------------------------------

  ghost predicate AllSplitsValid(s: Royalties)
  {
    forall course :: course in s.splits ==> ValidSplit(s.splits[course])
  }

  /** A run with the totals that have left the balances. */
  datatype Books = Books(royalties: Royalties, withdrawn: int, unallocated: int)

  function BookStep(k: Books, call: Call): Books
  {
    var s, next := k.royalties, Step(k.royalties, call);
    match call
    case DistributeRoyalties(course, total, ts) =>
      if s.Distribute(course, total, ts).Some? then
        Books(next, k.withdrawn, k.unallocated + Unallocated(s.Slots(course), Divide(s.splits[course], total).value))
      else k
    case WithdrawRoyalties(recipient) =>
      var answer := s.Withdraw(recipient);
      Books(next, k.withdrawn + (if answer.Some? then answer.value.1 else 0), k.unallocated)
    case _ => Books(next, k.withdrawn, k.unallocated)
  }

  function BookRun(k: Books, calls: seq<Call>): Books
    decreases |calls|
  {
    if calls == [] then k else BookRun(BookStep(k, calls[0]), calls[1..])
  }

  ghost predicate Conserved(k: Books)
  {
    && MapSum<Address>(k.royalties.balances) + k.withdrawn + k.unallocated == SeqSum(Amounts(k.royalties.payments))
    && AllSplitsValid(k.royalties)
    && (forall i :: 0 <= i < |k.royalties.payments| ==> k.royalties.payments[i].amount > 0)
    && (forall who :: Get(k.royalties.balances, who) >= 0)
  }

  lemma DistributionConserves(k: Books, course: u64, total: i128, ts: u64)
    requires Conserved(k)
    ensures Conserved(BookStep(k, DistributeRoyalties(course, total, ts)))
  {
    if k.royalties.Distribute(course, total, ts).Some? {
      PaymentConserves(k.royalties, course, total, ts);
    }
  }

  /** What one payment does to the two sums. */
  lemma PaymentConserves(s: Royalties, course: u64, total: i128, ts: u64)
    requires AllSplitsValid(s) && s.Distribute(course, total, ts).Some?
    requires forall who :: Get(s.balances, who) >= 0
    ensures course in s.splits && s.Slots(course) != [] && Divide(s.splits[course], total).Some?
    ensures var next := s.Distribute(course, total, ts).value.0;
      && total > 0 && next.splits == s.splits && next.payments == s.payments + [Payment(course, total, ts)]
      && SeqSum(Amounts(next.payments)) == SeqSum(Amounts(s.payments)) + total
      && MapSum<Address>(next.balances)
         == MapSum<Address>(s.balances) + total - Unallocated(s.Slots(course), Divide(s.splits[course], total).value)
      && forall who :: Get(next.balances, who) >= 0
  {
    var next := s.Distribute(course, total, ts).value.0;
    var shares := Divide(s.splits[course], total).value;
    SharesAddUp(s.splits[course], total);
    CreditsMoveSum(s.balances, s.Slots(course), shares);
    CreditsNonNegative(s.balances, s.Slots(course), shares);
    assert Amounts(next.payments) == Amounts(s.payments) + [total];
    SeqSumAppend(Amounts(s.payments), total);
  }

  lemma CreditsNonNegative(balances: map<Address, i128>, slots: seq<Address>, shares: Shares)
    requires slots != [] && CreditAll(balances, slots, shares).Some?
    requires forall who :: Get(balances, who) >= 0
    requires shares.creator >= 0 && shares.contributor >= 0 && shares.platform >= 0
    ensures forall who :: Get(CreditAll(balances, slots, shares).value, who) >= 0
  {
    forall who
      ensures Get(CreditAll(balances, slots, shares).value, who) >= 0
    {
      CreditsAreEarnings(balances, slots, shares, who);
      assert Get(balances, who) >= 0;
    }
  }

  lemma BookStepConserves(k: Books, call: Call)
    requires Conserved(k)
    ensures Conserved(BookStep(k, call))
  {
    match call
    case SetRoyaltySplit(course, split) =>
    case AddRoyaltyRecipient(course, recipient) =>
    case DistributeRoyalties(course, total, ts) => DistributionConserves(k, course, total, ts);
    case WithdrawRoyalties(recipient) =>
      MapSumSet(k.royalties.balances, recipient, 0);
      forall who
        ensures Get(Step(k.royalties, call).balances, who) >= 0
      {
        assert Get(k.royalties.balances, who) >= 0;
      }
  }

  /** Over every run, with no condition on the calls, the balances, the
      withdrawals and the contributor shares of payments to one-recipient
      courses add up to the payments; balances are never negative. */
  lemma {:induction false} MoneyConserved(k: Books, calls: seq<Call>)
    requires Conserved(k)
    ensures Conserved(BookRun(k, calls))
    ensures BookRun(k, calls).royalties == Run(k.royalties, calls)
    decreases |calls|
  {
    if calls != [] {
      BookStepConserves(k, calls[0]);
      MoneyConserved(BookStep(k, calls[0]), calls[1..]);
    }
  }

  /** No accepted distribution of the run goes to a one-recipient course. */
  ghost predicate TwoRecipients(s: Royalties, calls: seq<Call>)
    decreases |calls|
  {
    calls == [] ||
    (&& (calls[0].DistributeRoyalties? ==> |s.Slots(calls[0].course)| != 1)
     && TwoRecipients(Step(s, calls[0]), calls[1..]))
  }

  lemma {:induction false} NothingUnallocated(k: Books, calls: seq<Call>)
    requires TwoRecipients(k.royalties, calls)
    ensures BookRun(k, calls).unallocated == k.unallocated
    decreases |calls|
  {
    if calls != [] {
      NothingUnallocated(BookStep(k, calls[0]), calls[1..]);
    }
  }

  ghost predicate NothingLost(k: Books)
  {
    MapSum<Address>(k.royalties.balances) + k.withdrawn == SeqSum(Amounts(k.royalties.payments))
  }

  /** With at least two recipients on every course that distributes, all the
      money that was paid in is in balances or withdrawn. */
  lemma NothingLostWithTwoRecipients(k: Books, calls: seq<Call>)
    requires Conserved(k) && k.unallocated == 0
    requires TwoRecipients(k.royalties, calls)
    ensures NothingLost(BookRun(k, calls))
  {
    MoneyConserved(k, calls);
    NothingUnallocated(k, calls);
  }

  /** The same in books opened at initialisation. */
  lemma {:induction false} InitialConserved(calls: seq<Call>)
    ensures Conserved(BookRun(Books(INITIAL, 0, 0), calls))
    ensures BookRun(Books(INITIAL, 0, 0), calls).royalties == Run(INITIAL, calls)
  {
    FreshBooks(Books(INITIAL, 0, 0));
    MoneyConserved(Books(INITIAL, 0, 0), calls);
  }

  lemma {:induction false} InitialNothingLost(calls: seq<Call>)
    requires TwoRecipients(INITIAL, calls)
    ensures NothingLost(BookRun(Books(INITIAL, 0, 0), calls))
  {
    FreshBooks(Books(INITIAL, 0, 0));
    NothingLostWithTwoRecipients(Books(INITIAL, 0, 0), calls);
  }

  lemma FreshBooks(k: Books)
    requires k.royalties.splits == map[] && k.royalties.balances == map[] && k.royalties.payments == []
    requires k.withdrawn == 0 && k.unallocated == 0
    ensures Conserved(k)
  {
  }

  /** With one recipient the contributor's half of a payment reaches nobody. */
  lemma OneRecipientRun()
    ensures Run(INITIAL, [SetRoyaltySplit(1, Split(50, 50, 0)), AddRoyaltyRecipient(1, "a"),
                          DistributeRoyalties(1, 100, 0)]).balances == map["a" := 50]
  {
    var split, add, pay := SetRoyaltySplit(1, Split(50, 50, 0)), AddRoyaltyRecipient(1, "a"),
                           DistributeRoyalties(1, 100, 0);
    assert [split, add, pay] == [split] + ([add] + ([pay] + []));
    RunStep(INITIAL, split, [add] + ([pay] + []));
    RunStep(Step(INITIAL, split), add, [pay] + []);
    RunStep(Step(Step(INITIAL, split), add), pay, []);
  }

  lemma RunStep(s: Royalties, call: Call, calls: seq<Call>)
    ensures Run(s, [call] + calls) == Run(Step(s, call), calls)
  {
    assert ([call] + calls)[1..] == calls;
  }

  /** What one address has earned, and what it has withdrawn, over a run. */
  function EarnedBy(s: Royalties, calls: seq<Call>, who: Address): int
    decreases |calls|
  {
    if calls == [] then 0 else
      var c := calls[0];
      EarnedBy(Step(s, c), calls[1..], who)
      + (if c.DistributeRoyalties? && s.Distribute(c.course, c.total, c.timestamp).Some?
         then Earned(s.Slots(c.course), Divide(s.splits[c.course], c.total).value, who) else 0)
  }

  function WithdrawnBy(s: Royalties, calls: seq<Call>, who: Address): int
    decreases |calls|
  {
    if calls == [] then 0 else
      var c := calls[0];
      WithdrawnBy(Step(s, c), calls[1..], who)
      + (if c == WithdrawRoyalties(who) && s.Withdraw(who).Some? then s.Withdraw(who).value.1 else 0)
  }

  /** Each address on its own: what it holds plus what it took out is what its
      slots earned, and nobody else's call moves it. */
  lemma {:induction false} EachAddressConserved(s: Royalties, calls: seq<Call>, who: Address)
    ensures Get(Run(s, calls).balances, who) + WithdrawnBy(s, calls, who)
         == Get(s.balances, who) + EarnedBy(s, calls, who)
    decreases |calls|
  {
    if calls != [] {
      var c := calls[0];
      if c.DistributeRoyalties? && s.Distribute(c.course, c.total, c.timestamp).Some? {
        CreditsAreEarnings(s.balances, s.Slots(c.course), Divide(s.splits[c.course], c.total).value, who);
      }
      EachAddressConserved(Step(s, c), calls[1..], who);
    }
  }

  // ---- who earns what -------------------------------------------------------

  /** The recipients that the accepted calls of a run add to a course, in call
      order. */
  function Added(s: Royalties, calls: seq<Call>, course: u64): seq<Address>
    decreases |calls|
  {
    if calls == [] then [] else
      var c := calls[0];
      var rest := Added(Step(s, c), calls[1..], course);
      if c.AddRoyaltyRecipient? && c.course == course && s.AddRecipient(course, c.recipient).Some?
      then [c.recipient] + rest else rest
  }

  lemma {:induction false} SlotsInCallOrder(s: Royalties, calls: seq<Call>, course: u64)
    ensures Run(s, calls).Slots(course) == s.Slots(course) + Added(s, calls, course)
    decreases |calls|
  {
    if calls != [] {
      SlotsStep(s, calls[0], course);
      SlotsInCallOrder(Step(s, calls[0]), calls[1..], course);
    }
  }

  lemma SlotsStep(s: Royalties, call: Call, course: u64)
    ensures Step(s, call).Slots(course) == s.Slots(course) +
      (if call.AddRoyaltyRecipient? && call.course == course && s.AddRecipient(course, call.recipient).Some?
       then [call.recipient] else [])
  {
  }

  /** A recipient is added unless the counter is at its end, a split is set
      exactly when its percentages make 100, and both change one course. */
  lemma SettingsExact(s: Royalties, course: u64, recipient: Address, split: Split)
    ensures s.AddRecipient(course, recipient).Some? <==> |s.Slots(course)| < U32_MAX
    ensures s.SetSplit(course, split).Some? <==> split.creator + split.contributor + split.platform == 100
    ensures s.SetSplit(course, split).Some? ==>
      s.SetSplit(course, split).value.0 == s.(splits := s.splits[course := split])
    ensures s.AddRecipient(course, recipient).Some? ==>
      var next := s.AddRecipient(course, recipient).value.0;
      next == s.(recipients := next.recipients) && forall other :: other != course ==> next.Slots(other) == s.Slots(other)
  {
  }

  function SplitOf(s: Royalties, course: u64): Option<Split>
  {
    if course in s.splits then Some(s.splits[course]) else None
  }

  /** The last split that was set with percentages that make 100. */
  function SplitInForce(calls: seq<Call>, course: u64, before: Option<Split>): Option<Split>
  {
    if calls == [] then before else
      var c := calls[0];
      var hit := c.SetRoyaltySplit? && c.course == course && c.split.creator + c.split.contributor + c.split.platform == 100;
      SplitInForce(calls[1..], course, if hit then Some(c.split) else before)
  }

  lemma {:induction false} SplitsInForce(s: Royalties, calls: seq<Call>, course: u64)
    ensures SplitOf(Run(s, calls), course) == SplitInForce(calls, course, SplitOf(s, course))
    decreases |calls|
  {
    if calls != [] {
      SplitsInForce(Step(s, calls[0]), calls[1..], course);
    }
  }

  /** What an address earns from a payment, in figures: the creator's share as
      the first, the contributor's as the second, and as the last what the two
      floors leave. */
  function EarnedOf(slots: seq<Address>, split: Split, total: int, who: Address): int
    requires slots != []
  {
    (if slots[0] == who then total * split.creator / 100 else 0)
    + (if |slots| > 1 && slots[1] == who then total * split.contributor / 100 else 0)
    + (if slots[|slots| - 1] == who then total - total * split.creator / 100 - total * split.contributor / 100 else 0)
  }

  /** The distributions that go through, when no balance is negative. */
  lemma DistributionAcceptedExactly(s: Royalties, course: u64, total: i128, ts: u64)
    requires AllSplitsValid(s) && forall who :: Get(s.balances, who) >= 0
    ensures s.Distribute(course, total, ts).Some? <==>
      && total > 0 && course in s.splits && s.Slots(course) != []
      && total * s.splits[course].creator <= I128_MAX && total * s.splits[course].contributor <= I128_MAX
      && |s.payments| < U64_MAX
      && forall who :: Get(s.balances, who) + EarnedOf(s.Slots(course), s.splits[course], total, who) <= I128_MAX
  {
    if total > 0 && course in s.splits && s.Slots(course) != [] {
      var split := s.splits[course];
      SharesDefined(split, total);
      if Divide(split, total).Some? {
        var shares := Divide(split, total).value;
        SharesAddUp(split, total);
        CreditsFit(s.balances, s.Slots(course), shares);
        assert forall who :: EarnedOf(s.Slots(course), split, total, who) == Earned(s.Slots(course), shares, who);
      }
    }
  }

  lemma SharesDefined(split: Split, total: i128)
    requires ValidSplit(split) && total > 0
    ensures Divide(split, total).Some? <==> total * split.creator <= I128_MAX && total * split.contributor <= I128_MAX
  {
    PartDefined(total, split.creator);
    PartDefined(total, split.contributor);
  }

  lemma PartDefined(total: i128, percentage: u32)
    requires total > 0 && percentage <= 100
    ensures SplitAmount(total, percentage).Some? <==> total * percentage <= I128_MAX
    ensures SplitAmount(total, percentage).Some? ==> 0 <= SplitAmount(total, percentage).value <= total
  {
    ProductMonotone(total, total, 0, percentage);
    ProductMonotone(total, total, percentage, 100);
  }

  /** Credits fit one by one exactly when they fit for each address. */
  lemma CreditsFit(balances: map<Address, i128>, slots: seq<Address>, shares: Shares)
    requires slots != [] && forall who :: Get(balances, who) >= 0
    requires shares.creator >= 0 && shares.contributor >= 0 && shares.platform >= 0
    ensures CreditAll(balances, slots, shares).Some? <==>
      forall who :: Get(balances, who) + Earned(slots, shares, who) <= I128_MAX
  {
    var last := slots[|slots| - 1];
    assert Get(balances, slots[0]) >= 0 && Get(balances, last) >= 0;
    if |slots| > 1 { assert Get(balances, slots[1]) >= 0; }
    if CreditAll(balances, slots, shares).Some? {
      forall who
        ensures Get(balances, who) + Earned(slots, shares, who) <= I128_MAX
      {
        CreditsAreEarnings(balances, slots, shares, who);
      }
    }
    if forall who :: Get(balances, who) + Earned(slots, shares, who) <= I128_MAX {
      assert Get(balances, slots[0]) + Earned(slots, shares, slots[0]) <= I128_MAX;
      assert Get(balances, last) + Earned(slots, shares, last) <= I128_MAX;
      if |slots| > 1 { assert Get(balances, slots[1]) + Earned(slots, shares, slots[1]) <= I128_MAX; }
    }
  }

  /** A payment credits each address with what it earns, and is recorded. */
  lemma DistributionExact(s: Royalties, course: u64, total: i128, ts: u64)
    requires AllSplitsValid(s) && s.Distribute(course, total, ts).Some?
    ensures s.Slots(course) != [] && course in s.splits
    ensures var next := s.Distribute(course, total, ts).value.0;
      && next.payments == s.payments + [Payment(course, total, ts)]
      && next.splits == s.splits && next.recipients == s.recipients
      && forall who :: Get(next.balances, who)
                    == Get(s.balances, who) + EarnedOf(s.Slots(course), s.splits[course], total, who)
  {
    var shares := Divide(s.splits[course], total).value;
    SharesAddUp(s.splits[course], total);
    forall who
      ensures Get(s.Distribute(course, total, ts).value.0.balances, who)
           == Get(s.balances, who) + EarnedOf(s.Slots(course), s.splits[course], total, who)
    {
      CreditsAreEarnings(s.balances, s.Slots(course), shares, who);
    }
  }

  /** From initialisation: of a payment that is accepted after a run, the first
      recipient that was added earns the creator's share of the split in
      force, the second the contributor's and the last the platform's. */
  lemma PaymentAfterRun(calls: seq<Call>, course: u64, total: i128, ts: u64)
    requires Run(INITIAL, calls).Distribute(course, total, ts).Some?
    ensures Added(INITIAL, calls, course) != [] && SplitInForce(calls, course, None).Some?
    ensures forall who ::
      Get(Run(INITIAL, calls).Distribute(course, total, ts).value.0.balances, who)
        == Get(Run(INITIAL, calls).balances, who)
           + EarnedOf(Added(INITIAL, calls, course), SplitInForce(calls, course, None).value, total, who)
  {
    InitialConserved(calls);
    SlotsInCallOrder(INITIAL, calls, course);
    SplitsInForce(INITIAL, calls, course);
    DistributionExact(Run(INITIAL, calls), course, total, ts);
  }

  /** A withdrawal pays the whole positive balance, and no other balance. */
  lemma WithdrawExact(s: Royalties, recipient: Address)
    ensures s.Withdraw(recipient).Some? <==> Get(s.balances, recipient) > 0
    ensures s.Withdraw(recipient).Some? ==>
      var (next, paid) := s.Withdraw(recipient).value;
      && paid == Get(s.balances, recipient) && next == s.(balances := next.balances)
      && forall who :: Get(next.balances, who) == if who == recipient then 0 else Get(s.balances, who)
  {
  }

  /** Three recipients, a split of 70, 20 and 10, and a payment of 1000. */
  lemma ThreeRecipientsRun()
    ensures var s := Run(INITIAL, [SetRoyaltySplit(1, Split(70, 20, 10))] + ([AddRoyaltyRecipient(1, "creator")] +
        ([AddRoyaltyRecipient(1, "contributor")] + ([AddRoyaltyRecipient(1, "platform")] + ([DistributeRoyalties(1, 1000, 0)] + [])))));
      && s.Withdraw("creator").Some? && s.Withdraw("creator").value.1 == 700
      && Get(s.balances, "contributor") == 200 && Get(s.balances, "platform") == 100
  {
    var split, pay := SetRoyaltySplit(1, Split(70, 20, 10)), DistributeRoyalties(1, 1000, 0);
    var first, second, third := AddRoyaltyRecipient(1, "creator"), AddRoyaltyRecipient(1, "contributor"), AddRoyaltyRecipient(1, "platform");
    RunStep(INITIAL, split, [first] + ([second] + ([third] + ([pay] + []))));
    var s := Step(INITIAL, split);
    ThreeAdded(s);
    RunStep(s, first, [second] + ([third] + ([pay] + [])));
    RunStep(Step(s, first), second, [third] + ([pay] + []));
    RunStep(Step(Step(s, first), second), third, [pay] + []);
    RunStep(Step(Step(Step(s, first), second), third), pay, []);
  }

  lemma ThreeAdded(s: Royalties)
    requires s.splits == map[1 := Split(70, 20, 10)] && s.recipients == map[] && s.balances == map[] && s.payments == []
    ensures var added := Step(Step(Step(s, AddRoyaltyRecipient(1, "creator")), AddRoyaltyRecipient(1, "contributor")),
                              AddRoyaltyRecipient(1, "platform"));
      var t := Step(added, DistributeRoyalties(1, 1000, 0));
      && Get(t.balances, "creator") == 700 && Get(t.balances, "contributor") == 200 && Get(t.balances, "platform") == 100
  {
    var added := Step(Step(Step(s, AddRoyaltyRecipient(1, "creator")), AddRoyaltyRecipient(1, "contributor")),
                      AddRoyaltyRecipient(1, "platform"));
    assert added.Slots(1) == ["creator", "contributor", "platform"];
    PaidToThree(added);
  }

  lemma PaidToThree(s: Royalties)
    requires s.splits == map[1 := Split(70, 20, 10)] && s.balances == map[] && s.payments == []
    requires s.Slots(1) == ["creator", "contributor", "platform"]
    ensures var t := Step(s, DistributeRoyalties(1, 1000, 0));
      && Get(t.balances, "creator") == 700 && Get(t.balances, "contributor") == 200 && Get(t.balances, "platform") == 100
  {
    var slots, split := s.Slots(1), s.splits[1];
    assert EarnedOf(slots, split, 1000, "creator") == 700 && EarnedOf(slots, split, 1000, "contributor") == 200
        && EarnedOf(slots, split, 1000, "platform") == 100;
    DistributionAcceptedExactly(s, 1, 1000, 0);
    DistributionExact(s, 1, 1000, 0);
  }

  /** What the accepted payments of a run bring to one course. */
  function PaidTo(s: Royalties, calls: seq<Call>, course: u64): int
    decreases |calls|
  {
    if calls == [] then 0 else
      var c := calls[0];
      (if c.DistributeRoyalties? && c.course == course && s.Distribute(course, c.total, c.timestamp).Some? then c.total else 0)
      + PaidTo(Step(s, c), calls[1..], course)
  }

  /** The total of a course, as it is queried, is what was paid to it. */
  lemma {:induction false} CourseTotalIsPaid(s: Royalties, calls: seq<Call>, course: u64)
    ensures CourseTotal(Run(s, calls).payments, course) == CourseTotal(s.payments, course) + PaidTo(s, calls, course)
    ensures CourseTotal([], course) == 0
    decreases |calls|
  {
    if calls != [] {
      var c := calls[0];
      if c.DistributeRoyalties? && s.Distribute(c.course, c.total, c.timestamp).Some? {
        var p := Payment(c.course, c.total, c.timestamp);
        assert (s.payments + [p])[..|s.payments|] == s.payments;
      }
      CourseTotalIsPaid(Step(s, c), calls[1..], course);
    }
  }
}

/** The contract itself. */
module RoyaltyContract {
  import opened Panics
  import opened Host
  import opened Integers
  import opened Sums
  import opened RoyaltyMachine

  class RoyaltyDistribution {
    var splits: map<u64, Split>
    var recipients: map<u64, seq<Address>>
    var balances: map<Address, i128>
    var payments: seq<Payment>

    ghost function View(): Royalties
      reads this
    {
      Royalties(splits, recipients, balances, payments)
    }

    constructor ()
      ensures View() == INITIAL
    {
      splits, recipients, balances, payments := map[], map[], map[], [];
    }

    method SetRoyaltySplit(course: u64, split: Split) returns (r: Option<()>)
      modifies this
      ensures Commits(old(View()).SetSplit(course, split), old(View()), View(), r)
    {
      var two: u32 :- CheckedU32(split.creator + split.contributor);
      var sum: u32 :- CheckedU32(two + split.platform);
      var _ :- Require(sum == 100);
      splits := splits[course := split];
      r := Some(());
    }

    method AddRoyaltyRecipient(course: u64, recipient: Address) returns (r: Option<()>)
      modifies this
      ensures Commits(old(View()).AddRecipient(course, recipient), old(View()), View(), r)
    {
      var slots := [];
      if course in recipients {
        slots := recipients[course];
      }
      var count: u32 :- CheckedU32(|slots| + 1);
      recipients := recipients[course := slots + [recipient]];
      r := Some(());
    }

    /** The balances are updated slot by slot in a working copy, so that a
        panic at a later slot takes the earlier credits back. */
    static method CreditSlots(balances: map<Address, i128>, slots: seq<Address>, shares: Shares)
      returns (r: Option<map<Address, i128>>)
      requires slots != []
      ensures r == CreditAll(balances, slots, shares)
    {
      var working := balances;
      var creatorBalance: i128 :- Checked(Get(working, slots[0]) + shares.creator);
      working := working[slots[0] := creatorBalance];
      assert Credit(balances, slots[0], shares.creator) == Some(working);
      if |slots| > 1 {
        var contributorBalance: i128 :- Checked(Get(working, slots[1]) + shares.contributor);
        working := working[slots[1] := contributorBalance];
      }
      ghost var credited := working;
      var last := slots[|slots| - 1];
      var platformBalance: i128 :- Checked(Get(working, last) + shares.platform);
      r := Some(working[last := platformBalance]);
      assert r == Credit(credited, last, shares.platform);
    }

    method DistributeRoyalties(course: u64, total: i128, timestamp: u64) returns (r: Option<()>)
      modifies this
      ensures Commits(old(View()).Distribute(course, total, timestamp), old(View()), View(), r)
    {
      var _ :- Require(total > 0);
      var _ :- Require(course in splits);
      var shares: Shares :- Divide(splits[course], total);
      var _ :- Require(course in recipients);
      var slots := recipients[course];
      var _ :- Require(|slots| > 0);
      var working: map<Address, i128> :- CreditSlots(balances, slots, shares);
      var count: u64 :- CheckedU64(|payments| + 1);
      balances := working;
      payments := payments + [Payment(course, total, timestamp)];
      r := Some(());
    }

    method WithdrawRoyalties(recipient: Address) returns (r: Option<i128>)
      modifies this
      ensures Commits(old(View()).Withdraw(recipient), old(View()), View(), r)
    {
      var balance := Get(balances, recipient);
      var _ :- Require(balance > 0);
      balances := balances[recipient := 0];
      r := Some(balance);
    }

    /** The scan over all payments. It panics only if a running total of the
        course leaves the i128 range, which for the positive amounts that are
        ever stored means that the whole total does. */
    method GetTotalDistributed(course: u64) returns (r: Option<i128>)
      ensures r.Some? ==> r.value == CourseTotal(payments, course)
      ensures (forall i :: 0 <= i < |payments| ==> payments[i].amount > 0) ==>
        (r.None? <==> CourseTotal(payments, course) > I128_MAX)
    {
      var total: i128 := 0;
      var i := 0;
      while i < |payments|
        invariant 0 <= i <= |payments|
        invariant total == CourseTotal(payments[..i], course)
      {
        assert payments[..i + 1][..i] == payments[..i];
        if payments[i].course == course {
          if Checked(total + payments[i].amount).None? {
            CourseTotalGrows(payments, i + 1, course);
            return None;
          }
          total := total + payments[i].amount;
        }
        i := i + 1;
      }
      assert payments[..i] == payments;
      r := Some(total);
    }

    /** With positive amounts a prefix of the history never totals more. */
    static lemma {:induction false} CourseTotalGrows(payments: seq<Payment>, n: nat, course: u64)
      requires n <= |payments|
      ensures (forall i :: 0 <= i < |payments| ==> payments[i].amount > 0) ==>
        0 <= CourseTotal(payments[..n], course) <= CourseTotal(payments, course)
      decreases |payments|
    {
      if n < |payments| {
        var m := |payments| - 1;
        assert payments[..m][..n] == payments[..n];
        CourseTotalGrows(payments[..m], n, course);
      } else {
        assert payments[..n] == payments;
        if n > 0 {
          CourseTotalGrows(payments[..n - 1], n - 1, course);
          assert payments[..n - 1][..n - 1] == payments[..n - 1];
        }
      }
    }
  }
}
