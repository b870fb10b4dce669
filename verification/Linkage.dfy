/** Credentials linked to NFTs: the NFT storage together with the two link
    maps. The NFT contract keeps taking calls from everyone else. */
module LinkageMachine {
  import opened Panics
  import opened Host
  import opened Integers
  import Nft = NftMachine

  datatype Link = Link(credential: u64, nft: u32, linkedAt: u64)

  datatype Linkage = Linkage(nfts: Nft.Nfts, links: map<u64, Link>, credentials: map<u32, u64>)
  {
    function Issue(credential: u64, owner: Address, course: Symbol, name: string, instructor: Address,
                   basis: u32, now: u64): Option<(Linkage, u32)>
    {
      var _ :- Require(credential !in links);
      var (minted, id) :- nfts.Mint(owner, course, name, instructor, basis, now);
      Some((Linkage(minted, links[credential := Link(credential, id, now)], credentials[id := credential]), id))
    }

    function Unlink(credential: u64): Option<(Linkage, ())>
    {
      var _ :- Require(credential in links);
      Some((this.(links := links - {credential}, credentials := credentials - {links[credential].nft}), ()))
    }

    function NftOf(credential: u64): Option<u32>
    {
      if credential in links then Some(links[credential].nft) else None
    }

    function CredentialOf(id: u32): Option<u64>
    {
      if id in credentials then Some(credentials[id]) else None
    }
  }

  const INITIAL := Linkage(Nft.INITIAL, map[], map[])

  datatype Call =
    | IssueCredential(credential: u64, owner: Address, course: Symbol, name: string, instructor: Address, basis: u32, now: u64)
    | UnlinkCredential(credential: u64)
    | NftCall(call: Nft.Call)

  function After<T>(before: Linkage, result: Option<(Linkage, T)>): Linkage
  {
    if result.Some? then result.value.0 else before
  }

  function Step(l: Linkage, call: Call): Linkage
  {
    match call
    case IssueCredential(credential, owner, course, name, instructor, basis, now) =>
      After(l, l.Issue(credential, owner, course, name, instructor, basis, now))
    case UnlinkCredential(credential) => After(l, l.Unlink(credential))
    case NftCall(c) => l.(nfts := Nft.Step(l.nfts, c))
  }

  function Run(l: Linkage, calls: seq<Call>): Linkage
    decreases |calls|
  {
    if calls == [] then l else Run(Step(l, calls[0]), calls[1..])
  }
}

/** The two lookups are inverse on every run. */
module LinkageSafety {
  import opened Panics
  import opened Host
  import opened Integers
  import opened LinkageMachine
  import NftSafety

  /** Both maps tell the same pairs, and only of ids already handed out. */
  ghost predicate Linked(l: Linkage)
  {
    && NftSafety.Indexed(l.nfts)
    && (forall c :: c in l.links ==>
          l.links[c].credential == c && l.links[c].nft in l.credentials && l.credentials[l.links[c].nft] == c)
    && (forall i :: i in l.credentials ==>
          l.credentials[i] in l.links && l.links[l.credentials[i]].nft == i && i < l.nfts.nextId)
  }

  lemma StepKeepsLinked(l: Linkage, call: Call)
    requires Linked(l)
    ensures Linked(Step(l, call))
  {
    match call
    case IssueCredential(credential, owner, course, name, instructor, basis, now) =>
      if l.Issue(credential, owner, course, name, instructor, basis, now).Some? {
        NftSafety.MintKeepsIndexed(l.nfts, owner, course, name, instructor, basis, now);
        assert l.nfts.nextId !in l.credentials;
      }
    case UnlinkCredential(credential) =>
    case NftCall(c) =>
      NftSafety.StepKeepsIndexed(l.nfts, c);
      NftSafety.StepCounts(l.nfts, c);
  }

  /** On every run of issues, unlinks and any NFT calls in between, a
      credential looks up an NFT exactly when the NFT looks up the credential;
      so both lookups are injective. */
  lemma {:induction false} LookupsInverse(l: Linkage, calls: seq<Call>)
    requires Linked(l)
    ensures Linked(Run(l, calls))
    ensures forall c: u64, i: u32 :: Run(l, calls).NftOf(c) == Some(i) <==> Run(l, calls).CredentialOf(i) == Some(c)
    decreases |calls|
  {
    if calls != [] {
      StepKeepsLinked(l, calls[0]);
      LookupsInverse(Step(l, calls[0]), calls[1..]);
    }
  }

  lemma InitialLookups(calls: seq<Call>)
    ensures forall c: u64, i: u32 :: Run(INITIAL, calls).NftOf(c) == Some(i) <==> Run(INITIAL, calls).CredentialOf(i) == Some(c)
  {
    assert NftSafety.Indexed(Nft.Run(Nft.INITIAL, [])) by { NftSafety.InitialIndexed([]); }
    LookupsInverse(INITIAL, calls);
  }

  /** Unlinking undoes the links of an issue, though not the mint. */
  lemma UnlinkUndoesIssue(l: Linkage, credential: u64, owner: Address, course: Symbol, name: string,
                          instructor: Address, basis: u32, now: u64)
    requires Linked(l)
    requires l.Issue(credential, owner, course, name, instructor, basis, now).Some?
    ensures var (issued, id) := l.Issue(credential, owner, course, name, instructor, basis, now).value;
      && issued.NftOf(credential) == Some(id) && issued.CredentialOf(id) == Some(credential)
      && issued.Unlink(credential).Some?
      && var after := issued.Unlink(credential).value.0;
      && after.links == l.links && after.credentials == l.credentials
      && after.nfts == issued.nfts && id in after.nfts.owners
  {
    var (issued, id) := l.Issue(credential, owner, course, name, instructor, basis, now).value;
    assert id !in l.credentials;
    assert issued.links - {credential} == l.links;
    assert issued.credentials - {id} == l.credentials;
  }

  /** An issue goes through exactly for an unlinked credential and a mint that
      does. It is that mint, and one link made then. */
  lemma IssueExact(l: Linkage, credential: u64, owner: Address, course: Symbol, name: string,
                   instructor: Address, basis: u32, now: u64)
    ensures l.Issue(credential, owner, course, name, instructor, basis, now).Some? <==>
      credential !in l.links && 3 <= |name| <= 100 && basis <= 10000 && l.nfts.nextId < U32_MAX
    ensures l.Issue(credential, owner, course, name, instructor, basis, now).Some? ==>
      var (next, id) := l.Issue(credential, owner, course, name, instructor, basis, now).value;
      && id == l.nfts.nextId && l.nfts.Mint(owner, course, name, instructor, basis, now) == Some((next.nfts, id))
      && next.links == l.links[credential := Link(credential, id, now)]
      && next.credentials == l.credentials[id := credential]
  {
  }

  /** An unlinking goes through exactly for a linked credential, and touches no
      other link and no NFT. */
  lemma UnlinkExact(l: Linkage, credential: u64)
    requires Linked(l)
    ensures l.Unlink(credential).Some? <==> l.NftOf(credential).Some?
    ensures l.Unlink(credential).Some? ==>
      var next := l.Unlink(credential).value.0;
      && next.nfts == l.nfts
      && (forall c: u64 :: next.NftOf(c) == if c == credential then None else l.NftOf(c))
      && (forall i: u32 :: next.CredentialOf(i) == if l.NftOf(credential) == Some(i) then None else l.CredentialOf(i))
  {
  }
}

/** The linkage part of the credential contract, holding the NFT contract it
    calls. */
module LinkageContract {
  import opened Panics
  import opened Host
  import opened Integers
  import opened LinkageMachine
  import opened NftContracts

  class CredentialLinkage {
    const nft: NftContract
    var links: map<u64, Link>
    var credentials: map<u32, u64>

    ghost function View(): Linkage
      reads this, nft
    {
      Linkage(nft.View(), links, credentials)
    }

    constructor (nft: NftContract)
      ensures this.nft == nft && links == map[] && credentials == map[]
    {
      this.nft := nft;
      links, credentials := map[], map[];
    }

    method IssueAndMintNft(credential: u64, owner: Address, course: Symbol, name: string, instructor: Address,
                           basis: u32, now: u64) returns (r: Option<u32>)
      modifies this, nft
      ensures Commits(old(View()).Issue(credential, owner, course, name, instructor, basis, now), old(View()), View(), r)
    {
      var _ :- Require(credential !in links);
      var id: u32 :- nft.MintCourseNft(owner, course, name, instructor, basis, now);
      links := links[credential := Link(credential, id, now)];
      credentials := credentials[id := credential];
      r := Some(id);
    }

    method Unlink(credential: u64) returns (r: Option<()>)
      modifies this
      ensures Commits(old(View()).Unlink(credential), old(View()), View(), r)
    {
      var _ :- Require(credential in links);
      var link := links[credential];
      links := links - {credential};
      credentials := credentials - {link.nft};
      r := Some(());
    }
  }
}
