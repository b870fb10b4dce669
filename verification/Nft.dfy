/** Course NFTs: owners, metadata, per-owner lists and listings as a machine
    over storage. */
module NftMachine {
  import opened Panics
  import opened Host
  import opened Integers
  import opened Lists

  datatype Metadata = Metadata(
    course: Symbol, courseName: string, owner: Address, purchaseDate: u64, royaltyBasis: u32)

  datatype Listing = Listing(seller: Address, price: i128, listedAt: u64)

  function RoyaltyPart(price: i128, basis: u32): Option<i128>
  {
    MulDiv(price, basis, 10000)
  }

  datatype Nfts = Nfts(
    owners: map<u32, Address>,
    metadata: map<u32, Metadata>,
    lists: map<Address, seq<u32>>,
    nextId: u32,
    royaltyBasis: map<u32, u32>,
    royaltyRecipient: map<u32, Address>,
    listings: map<u32, Listing>,
    burned: set<u32>)
  {
    function List(owner: Address): seq<u32>
    {
      if owner in lists then lists[owner] else []
    }

    function Mint(owner: Address, course: Symbol, name: string, instructor: Address, basis: u32, now: u64)
      : Option<(Nfts, u32)>
    {
      var _ :- Require(3 <= |name| <= 100);
      var _ :- Require(basis <= 10000);
      var next :- CheckedU32(nextId + 1);
      Some((this.(owners := owners[nextId := owner],
                  metadata := metadata[nextId := Metadata(course, name, owner, now, basis)],
                  lists := lists[owner := List(owner) + [nextId]],
                  nextId := next,
                  royaltyBasis := royaltyBasis[nextId := basis],
                  royaltyRecipient := royaltyRecipient[nextId := instructor]), nextId))
    }

    function Transfer(from: Address, to: Address, id: u32): Option<(Nfts, ())>
    {
      var _ :- Require(id in owners);
      var _ :- Require(owners[id] == from);
      var _ :- Require(id in metadata);
      var without := WithoutListed(from, id);
      Some((without.(owners := owners[id := to],
                     metadata := metadata[id := metadata[id].(owner := to)],
                     lists := without.lists[to := without.List(to) + [id]]), ()))
    }

    /** The id taken off the list of an owner that has one. */
    function WithoutListed(owner: Address, id: u32): Nfts
    {
      if owner in lists then this.(lists := lists[owner := RemoveFirst(lists[owner], id)]) else this
    }

    function Burn(owner: Address, id: u32): Option<(Nfts, ())>
    {
      var _ :- Require(id in owners);
      var _ :- Require(owners[id] == owner);
      var _ :- Require(id !in burned);
      Some((WithoutListed(owner, id).(listings := listings - {id}, burned := burned + {id},
                                      owners := owners - {id}, metadata := metadata - {id}), ()))
    }

    function ListForSale(seller: Address, id: u32, price: i128, now: u64): Option<(Nfts, ())>
    {
      var _ :- Require(price > 0);
      var _ :- Require(id in owners);
      var _ :- Require(owners[id] == seller);
      var _ :- Require(id !in listings);
      Some((this.(listings := listings[id := Listing(seller, price, now)]), ()))
    }

    function Delist(seller: Address, id: u32): Option<(Nfts, ())>
    {
      var _ :- Require(id in listings);
      var _ :- Require(listings[id].seller == seller);
      Some((this.(listings := listings - {id}), ()))
    }

    /** The answer is what the sale announces: the seller's amount and the
        royalty. */
    function Buy(buyer: Address, id: u32): Option<(Nfts, (i128, i128))>
    {
      var _ :- Require(id in listings);
      var listing := listings[id];
      var (moved, _) :- this.(listings := listings - {id}).Transfer(listing.seller, buyer, id);
      var royalty :- RoyaltyPart(listing.price, if id in royaltyBasis then royaltyBasis[id] else 0);
      var sellerAmount :- Checked(listing.price - royalty);
      Some((moved, (sellerAmount, royalty)))
    }
  }

  const INITIAL := Nfts(map[], map[], map[], 0, map[], map[], map[], {})

  datatype Call =
    | MintNft(owner: Address, course: Symbol, name: string, instructor: Address, basis: u32, now: u64)
    | TransferNft(from: Address, to: Address, id: u32)
    | BurnNft(owner: Address, id: u32)
    | ListNft(seller: Address, id: u32, price: i128, now: u64)
    | DelistNft(seller: Address, id: u32)
    | BuyNft(buyer: Address, id: u32)

  function After<T>(before: Nfts, result: Option<(Nfts, T)>): Nfts
  {
    if result.Some? then result.value.0 else before
  }

  function Step(n: Nfts, call: Call): Nfts
  {
    match call
    case MintNft(owner, course, name, instructor, basis, now) =>
      After(n, n.Mint(owner, course, name, instructor, basis, now))
    case TransferNft(from, to, id) => After(n, n.Transfer(from, to, id))
    case BurnNft(owner, id) => After(n, n.Burn(owner, id))
    case ListNft(seller, id, price, now) => After(n, n.ListForSale(seller, id, price, now))
    case DelistNft(seller, id) => After(n, n.Delist(seller, id))
    case BuyNft(buyer, id) => After(n, n.Buy(buyer, id))
  }

  function Run(n: Nfts, calls: seq<Call>): Nfts
    decreases |calls|
  {
    if calls == [] then n else Run(Step(n, calls[0]), calls[1..])
  }
}

/** The owner map and the per-owner lists agree on every run. */
module NftSafety {
  import opened Host
  import opened Integers
  import opened Lists
  import opened NftMachine

  /** The list of an owner is exactly the ids it owns, each once. */
  ghost predicate ListExact(n: Nfts, owner: Address)
  {
    && NoDuplicates(n.List(owner))
    && forall id :: id in n.List(owner) <==> id in n.owners && n.owners[id] == owner
  }

  /** Every id below the counter is live or burned and not both; live ids have
      metadata with their owner in it; only live ids are listed. */
  ghost predicate IdsSound(n: Nfts)
  {
    && (forall id: u32 :: id < n.nextId <==> id in n.owners || id in n.burned)
    && (forall id :: id in n.owners ==> id !in n.burned)
    && n.metadata.Keys == n.owners.Keys
    && (forall id :: id in n.owners ==> n.metadata[id].owner == n.owners[id])
    && n.listings.Keys <= n.owners.Keys
    && (forall id :: id in n.listings ==> n.listings[id].price > 0)
    && (forall id :: id in n.royaltyBasis ==> n.royaltyBasis[id] <= 10000)
  }

  ghost predicate Indexed(n: Nfts)
  {
    IdsSound(n) && forall owner :: ListExact(n, owner)
  }

  lemma MintKeepsIndexed(n: Nfts, owner: Address, course: Symbol, name: string, instructor: Address, basis: u32, now: u64)
    requires Indexed(n) && n.Mint(owner, course, name, instructor, basis, now).Some?
    ensures Indexed(n.Mint(owner, course, name, instructor, basis, now).value.0)
    ensures n.nextId !in n.owners && n.nextId !in n.burned
  {
    var next := n.Mint(owner, course, name, instructor, basis, now).value.0;
    forall a
      ensures ListExact(next, a)
    {
      assert ListExact(n, a);
      AppendExact(n.List(owner), n.nextId);
    }
  }

  lemma AppendExact(s: seq<u32>, x: u32)
    ensures forall y :: y in s + [x] <==> y in s || y == x
    ensures NoDuplicates(s) && x !in s ==> NoDuplicates(s + [x])
  {
  }

  /** Taking an id off its owner's list changes no other list. */
  lemma WithoutListedExact(n: Nfts, from: Address, id: u32, a: Address)
    requires ListExact(n, from) && ListExact(n, a)
    ensures NoDuplicates(n.WithoutListed(from, id).List(a))
    ensures forall x :: x in n.WithoutListed(from, id).List(a) <==> x in n.List(a) && !(a == from && x == id)
  {
    RemoveFirstElements(n.List(from), id);
  }

  /** Moving an id, to a new owner or to the same one. */
  lemma TransferKeepsIndexed(n: Nfts, from: Address, to: Address, id: u32)
    requires Indexed(n) && n.Transfer(from, to, id).Some?
    ensures Indexed(n.Transfer(from, to, id).value.0)
  {
    var next := n.Transfer(from, to, id).value.0;
    var rest := n.WithoutListed(from, id).List(to);
    forall a
      ensures ListExact(next, a)
    {
      assert ListExact(n, a) && ListExact(n, from) && ListExact(n, to);
      WithoutListedExact(n, from, id, a);
      if a == to {
        assert next.List(a) == rest + [id];
        AppendExact(rest, id);
      } else {
        assert next.List(a) == n.WithoutListed(from, id).List(a);
      }
    }
  }

  lemma BurnKeepsIndexed(n: Nfts, owner: Address, id: u32)
    requires Indexed(n) && n.Burn(owner, id).Some?
    ensures Indexed(n.Burn(owner, id).value.0)
  {
    var next := n.Burn(owner, id).value.0;
    forall a
      ensures ListExact(next, a)
    {
      assert ListExact(n, a) && ListExact(n, owner);
      RemoveFirstElements(n.List(owner), id);
    }
  }

  lemma ListingsKeepIndexed(n: Nfts, listings: map<u32, Listing>)
    requires Indexed(n) && listings.Keys <= n.owners.Keys
    requires forall id :: id in listings ==> listings[id].price > 0
    ensures Indexed(n.(listings := listings))
  {
    forall a
      ensures ListExact(n.(listings := listings), a)
    {
      assert ListExact(n, a);
    }
  }

  lemma BuyKeepsIndexed(n: Nfts, buyer: Address, id: u32)
    requires Indexed(n) && n.Buy(buyer, id).Some?
    ensures Indexed(n.Buy(buyer, id).value.0)
  {
    ListingsKeepIndexed(n, n.listings - {id});
    TransferKeepsIndexed(n.(listings := n.listings - {id}), n.listings[id].seller, buyer, id);
  }

  lemma StepKeepsIndexed(n: Nfts, call: Call)
    requires Indexed(n)
    ensures Indexed(Step(n, call))
  {
    match call
    case MintNft(owner, course, name, instructor, basis, now) =>
      if n.Mint(owner, course, name, instructor, basis, now).Some? {
        MintKeepsIndexed(n, owner, course, name, instructor, basis, now);
      }
    case TransferNft(from, to, id) =>
      if n.Transfer(from, to, id).Some? { TransferKeepsIndexed(n, from, to, id); }
    case BurnNft(owner, id) =>
      if n.Burn(owner, id).Some? { BurnKeepsIndexed(n, owner, id); }
    case ListNft(_, _, _, _) => ListingStepKeepsIndexed(n, call);
    case DelistNft(_, _) => ListingStepKeepsIndexed(n, call);
    case BuyNft(buyer, id) =>
      if n.Buy(buyer, id).Some? { BuyKeepsIndexed(n, buyer, id); }
  }

  lemma ListingStepKeepsIndexed(n: Nfts, call: Call)
    requires Indexed(n) && (call.ListNft? || call.DelistNft?)
    ensures Indexed(Step(n, call))
  {
    if call.ListNft? {
      if n.ListForSale(call.seller, call.id, call.price, call.now).Some? {
        ListingsKeepIndexed(n, n.listings[call.id := Listing(call.seller, call.price, call.now)]);
      }
    } else {
      ListingsKeepIndexed(n, n.listings - {call.id});
    }
  }

  /** In every reachable state the owner map and the lists are inverse, and
      each id below the counter is either live or burned. */
  lemma {:induction false} RunKeepsIndexed(n: Nfts, calls: seq<Call>)
    requires Indexed(n)
    ensures Indexed(Run(n, calls))
    decreases |calls|
  {
    if calls != [] {
      StepKeepsIndexed(n, calls[0]);
      RunKeepsIndexed(Step(n, calls[0]), calls[1..]);
    }
  }

  lemma InitialIndexed(calls: seq<Call>)
    ensures Indexed(Run(INITIAL, calls))
  {
    RunKeepsIndexed(INITIAL, calls);
  }

  /** The ids that the accepted mints of a run hand out. */
  function Minted(n: Nfts, calls: seq<Call>): seq<u32>
    decreases |calls|
  {
    if calls == [] then [] else
      var c := calls[0];
      var rest := Minted(Step(n, c), calls[1..]);
      if c.MintNft? then
        var answer := n.Mint(c.owner, c.course, c.name, c.instructor, c.basis, c.now);
        if answer.Some? then [answer.value.1] + rest else rest
      else rest
  }

  lemma BurnedIsGone(n: Nfts)
    requires Indexed(n)
    ensures forall id, a :: id in n.burned ==>
      id !in n.owners && id !in n.metadata && id !in n.listings && id !in n.List(a)
  {
    forall id, a | id in n.burned
      ensures id !in n.List(a)
    {
      assert ListExact(n, a);
    }
  }

  lemma StepCounts(n: Nfts, call: Call)
    ensures n.nextId <= Step(n, call).nextId <= n.nextId + 1
    ensures Step(n, call).nextId == n.nextId + |Minted(n, [call])|
  {
  }

  lemma BurnedGrows(n: Nfts, call: Call)
    ensures n.burned <= Step(n, call).burned
  {
  }

  /** The mints of a run count up from the counter. */
  lemma {:induction false} MintsCountUp(n: Nfts, calls: seq<Call>)
    ensures Run(n, calls).nextId == n.nextId + |Minted(n, calls)|
    ensures forall i :: 0 <= i < |Minted(n, calls)| ==> Minted(n, calls)[i] == n.nextId + i
    ensures n.burned <= Run(n, calls).burned
    decreases |calls|
  {
    if calls != [] {
      StepCounts(n, calls[0]);
      BurnedGrows(n, calls[0]);
      MintsCountUp(Step(n, calls[0]), calls[1..]);
    }
  }

  /** No run reissues an id: every mint of the run gets one that was never
      handed out before, and an id once burned stays without owner, list
      entry, metadata and listing. */
  lemma NeverReissued(n: Nfts, calls: seq<Call>)
    requires Indexed(n)
    ensures NoDuplicates(Minted(n, calls))
    ensures forall id :: id in Minted(n, calls) ==> id !in n.owners && id !in n.burned
    ensures var m := Run(n, calls);
      forall id, a :: id in n.burned ==>
        id !in m.owners && id !in m.metadata && id !in m.listings && id !in m.List(a)
  {
    MintsCountUp(n, calls);
    RunKeepsIndexed(n, calls);
    BurnedIsGone(Run(n, calls));
  }

  /** A transfer leaves the listing in place. A listed id is sold exactly when
      the seller still owns it (or owns it again) and the royalty product is in
      range; the price is then split without remainder, the royalty being the
      floor of its ten-thousandths. */
  lemma SaleExact(n: Nfts, buyer: Address, id: u32)
    requires Indexed(n) && id in n.listings
    ensures n.Buy(buyer, id).Some?
        <==> n.owners[id] == n.listings[id].seller
             && n.listings[id].price * (if id in n.royaltyBasis then n.royaltyBasis[id] else 0) <= I128_MAX
    ensures n.Buy(buyer, id).Some? ==>
      var (m, split) := n.Buy(buyer, id).value;
      && m.owners[id] == buyer && id !in m.listings && id in m.List(buyer)
      && split.0 + split.1 == n.listings[id].price && 0 <= split.1 <= n.listings[id].price
      && split.1 * 10000 <= n.listings[id].price * (if id in n.royaltyBasis then n.royaltyBasis[id] else 0) < (split.1 + 1) * 10000
  {
    var price, basis := n.listings[id].price, if id in n.royaltyBasis then n.royaltyBasis[id] else 0;
    ProductMonotone(0, price, 0, basis);
    ProductMonotone(price, price, basis, 10000);
    var part := TruncDiv(price * basis, 10000);
    assert part * 10000 <= price * basis <= price * 10000;
    assert n.metadata.Keys == n.owners.Keys;
  }

  // ---- what each call does --------------------------------------------------

  /** Nothing is different but the owners, the metadata, the lists and the
      listings. */
  ghost predicate TermsKept(n: Nfts, m: Nfts)
  {
    && m.nextId == n.nextId && m.royaltyBasis == n.royaltyBasis && m.royaltyRecipient == n.royaltyRecipient
  }

  ghost predicate OtherListsKept(n: Nfts, m: Nfts, a: Address, b: Address)
  {
    forall who :: who != a && who != b ==> m.List(who) == n.List(who)
  }

  /** One list is another with one id taken out, the rest in its order. */
  ghost predicate TakenOut(before: seq<u32>, after: seq<u32>, id: u32)
  {
    exists i :: 0 <= i < |before| && before[i] == id && after == before[..i] + before[i + 1..]
  }

  /** A mint takes the next id, at the end of its owner's list, with the terms
      it was given. */
  lemma MintExact(n: Nfts, owner: Address, course: Symbol, name: string, instructor: Address, basis: u32, now: u64)
    ensures n.Mint(owner, course, name, instructor, basis, now).Some? <==>
      3 <= |name| <= 100 && basis <= 10000 && n.nextId < U32_MAX
    ensures n.Mint(owner, course, name, instructor, basis, now).Some? ==>
      var (m, id) := n.Mint(owner, course, name, instructor, basis, now).value;
      && id == n.nextId && m.nextId == id + 1
      && m.owners == n.owners[id := owner]
      && m.metadata == n.metadata[id := Metadata(course, name, owner, now, basis)]
      && m.List(owner) == n.List(owner) + [id] && OtherListsKept(n, m, owner, owner)
      && m.royaltyBasis == n.royaltyBasis[id := basis] && m.royaltyRecipient == n.royaltyRecipient[id := instructor]
      && m.listings == n.listings && m.burned == n.burned
  {
  }

  lemma RemoveTakesOut(s: seq<u32>, id: u32)
    requires id in s
    ensures TakenOut(s, RemoveFirst(s, id), id)
  {
    var i := FirstPosition(s, id);
    RemoveFirstAt(s, id, i);
  }

  /** A transfer goes through exactly for the owner. The id comes out of the
      old list and last in the new one; a listing stays. */
  lemma TransferExact(n: Nfts, from: Address, to: Address, id: u32)
    requires Indexed(n)
    ensures n.Transfer(from, to, id).Some? <==> id in n.owners && n.owners[id] == from
    ensures n.Transfer(from, to, id).Some? ==>
      var m := n.Transfer(from, to, id).value.0;
      && m.owners == n.owners[id := to] && m.metadata == n.metadata[id := n.metadata[id].(owner := to)]
      && OtherListsKept(n, m, from, to) && TermsKept(n, m) && m.listings == n.listings && m.burned == n.burned
      && (exists rest :: TakenOut(n.List(from), rest, id) &&
            if from == to then m.List(to) == rest + [id] else m.List(from) == rest && m.List(to) == n.List(to) + [id])
  {
    if id in n.owners && n.owners[id] == from {
      assert ListExact(n, from) && n.metadata.Keys == n.owners.Keys;
      RemoveTakesOut(n.List(from), id);
      var m := n.Transfer(from, to, id).value.0;
      var rest := RemoveFirst(n.List(from), id);
      assert TakenOut(n.List(from), rest, id);
      assert if from == to then m.List(to) == rest + [id] else m.List(from) == rest && m.List(to) == n.List(to) + [id];
    }
  }

  /** A burn goes through exactly for the owner, and takes the id out of every
      place. */
  lemma BurnExact(n: Nfts, owner: Address, id: u32)
    requires Indexed(n)
    ensures n.Burn(owner, id).Some? <==> id in n.owners && n.owners[id] == owner
    ensures n.Burn(owner, id).Some? ==>
      var m := n.Burn(owner, id).value.0;
      && m.owners == n.owners - {id} && m.metadata == n.metadata - {id} && m.listings == n.listings - {id}
      && m.burned == n.burned + {id} && TakenOut(n.List(owner), m.List(owner), id)
      && OtherListsKept(n, m, owner, owner) && TermsKept(n, m)
  {
    if id in n.owners && n.owners[id] == owner {
      assert ListExact(n, owner);
      RemoveTakesOut(n.List(owner), id);
    }
  }

  /** Listing and delisting change the one listing alone. */
  lemma ListingExact(n: Nfts, seller: Address, id: u32, price: i128, now: u64)
    ensures n.ListForSale(seller, id, price, now).Some? <==>
      price > 0 && id in n.owners && n.owners[id] == seller && id !in n.listings
    ensures n.ListForSale(seller, id, price, now).Some? ==>
      n.ListForSale(seller, id, price, now).value.0 == n.(listings := n.listings[id := Listing(seller, price, now)])
    ensures n.Delist(seller, id).Some? <==> id in n.listings && n.listings[id].seller == seller
    ensures n.Delist(seller, id).Some? ==> n.Delist(seller, id).value.0 == n.(listings := n.listings - {id})
  {
  }

  /** A sale is the transfer from the lister with the listing gone. */
  lemma BuyIsTransfer(n: Nfts, buyer: Address, id: u32)
    requires n.Buy(buyer, id).Some?
    ensures id in n.listings && n.Transfer(n.listings[id].seller, buyer, id).Some?
    ensures n.Buy(buyer, id).value.0
         == n.Transfer(n.listings[id].seller, buyer, id).value.0.(listings := n.listings - {id})
  {
  }

  /** Over every run a live id keeps the terms of its mint, whoever owns it. */
  lemma {:induction false} MintTermsKept(n: Nfts, calls: seq<Call>, id: u32)
    requires Indexed(n) && id < n.nextId && id in Run(n, calls).owners
    ensures id in n.owners && id in n.metadata && id in Run(n, calls).metadata
    ensures var m := Run(n, calls);
      && m.metadata[id].(owner := n.metadata[id].owner) == n.metadata[id]
      && (id in n.royaltyBasis ==> id in m.royaltyBasis && m.royaltyBasis[id] == n.royaltyBasis[id])
    decreases |calls|
  {
    RunKeepsIndexed(n, calls);
    if calls != [] {
      StepKeepsIndexed(n, calls[0]);
      StepCounts(n, calls[0]);
      MintTermsKept(Step(n, calls[0]), calls[1..], id);
      StepKeepsTerms(n, calls[0], id);
      if id in n.royaltyBasis { StepKeepsBasis(n, calls[0], id); }
    }
  }

  lemma StepKeepsTerms(n: Nfts, call: Call, id: u32)
    requires Indexed(n) && id < n.nextId && id in Step(n, call).owners
    ensures id in n.owners && id in n.metadata && id in Step(n, call).metadata
    ensures Step(n, call).metadata[id].(owner := n.metadata[id].owner) == n.metadata[id]
  {
    assert n.metadata.Keys == n.owners.Keys;
    StepKeepsIndexed(n, call);
    assert Step(n, call).metadata.Keys == Step(n, call).owners.Keys;
  }

  lemma StepKeepsBasis(n: Nfts, call: Call, id: u32)
    requires id < n.nextId && id in n.royaltyBasis
    ensures id in Step(n, call).royaltyBasis && Step(n, call).royaltyBasis[id] == n.royaltyBasis[id]
  {
  }
}

/** The NFT contract itself. */
module NftContracts {
  import opened Panics
  import opened Host
  import opened Integers
  import opened Lists
  import opened NftMachine

  class NftContract {
    var owners: map<u32, Address>
    var metadata: map<u32, Metadata>
    var lists: map<Address, seq<u32>>
    var nextId: u32
    var royaltyBasis: map<u32, u32>
    var royaltyRecipient: map<u32, Address>
    var listings: map<u32, Listing>
    var burned: set<u32>

    ghost function View(): Nfts
      reads this
    {
      Nfts(owners, metadata, lists, nextId, royaltyBasis, royaltyRecipient, listings, burned)
    }

    constructor ()
      ensures View() == INITIAL
    {
      owners, metadata, lists, nextId := map[], map[], map[], 0;
      royaltyBasis, royaltyRecipient, listings, burned := map[], map[], map[], {};
    }

    method MintCourseNft(owner: Address, course: Symbol, name: string, instructor: Address, basis: u32, now: u64)
      returns (r: Option<u32>)
      modifies this
      ensures Commits(old(View()).Mint(owner, course, name, instructor, basis, now), old(View()), View(), r)
    {
      var _ :- Require(3 <= |name| <= 100);
      var _ :- Require(basis <= 10000);
      var id: u32 := nextId;
      var next: u32 :- CheckedU32(nextId + 1);
      metadata := metadata[id := Metadata(course, name, owner, now, basis)];
      owners := owners[id := owner];
      royaltyBasis := royaltyBasis[id := basis];
      royaltyRecipient := royaltyRecipient[id := instructor];
      nextId := next;
      var ids := [];
      if owner in lists {
        ids := lists[owner];
      }
      lists := lists[owner := ids + [id]];
      r := Some(id);
    }

    method TransferNft(from: Address, to: Address, id: u32) returns (r: Option<()>)
      modifies this
      ensures Commits(old(View()).Transfer(from, to, id), old(View()), View(), r)
    {
      var _ :- Require(id in owners);
      var _ :- Require(owners[id] == from);
      var _ :- Require(id in metadata);
      owners := owners[id := to];
      metadata := metadata[id := metadata[id].(owner := to)];
      if from in lists {
        var ids := Remove(lists[from], id);
        lists := lists[from := ids];
      }
      var toIds := [];
      if to in lists {
        toIds := lists[to];
      }
      lists := lists[to := toIds + [id]];
      r := Some(());
    }

    method BurnNft(owner: Address, id: u32) returns (r: Option<()>)
      modifies this
      ensures Commits(old(View()).Burn(owner, id), old(View()), View(), r)
    {
      var _ :- Require(id in owners);
      var _ :- Require(owners[id] == owner);
      var _ :- Require(id !in burned);
      if owner in lists {
        var ids := Remove(lists[owner], id);
        lists := lists[owner := ids];
      }
      listings := listings - {id};
      burned := burned + {id};
      owners := owners - {id};
      metadata := metadata - {id};
      r := Some(());
    }

    method ListNft(seller: Address, id: u32, price: i128, now: u64) returns (r: Option<()>)
      modifies this
      ensures Commits(old(View()).ListForSale(seller, id, price, now), old(View()), View(), r)
    {
      var _ :- Require(price > 0);
      var _ :- Require(id in owners);
      var _ :- Require(owners[id] == seller);
      var _ :- Require(id !in listings);
      listings := listings[id := Listing(seller, price, now)];
      r := Some(());
    }

    method DelistNft(seller: Address, id: u32) returns (r: Option<()>)
      modifies this
      ensures Commits(old(View()).Delist(seller, id), old(View()), View(), r)
    {
      var _ :- Require(id in listings);
      var _ :- Require(listings[id].seller == seller);
      listings := listings - {id};
      r := Some(());
    }

    /** The amounts are computed before anything is written; when the transfer
        panics the listing is put back, as the host would. */
    method BuyNft(buyer: Address, id: u32) returns (r: Option<(i128, i128)>)
      modifies this
      ensures Commits(old(View()).Buy(buyer, id), old(View()), View(), r)
    {
      var _ :- Require(id in listings);
      var listing := listings[id];
      var basis: u32 := 0;
      if id in royaltyBasis {
        basis := royaltyBasis[id];
      }
      var royalty: i128 :- RoyaltyPart(listing.price, basis);
      var sellerAmount: i128 :- Checked(listing.price - royalty);
      var before := listings;
      listings := listings - {id};
      var moved := TransferNft(listing.seller, buyer, id);
      if moved.None? {
        listings := before;
        return None;
      }
      r := Some((sellerAmount, royalty));
    }
  }
}
