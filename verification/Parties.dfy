/** Party identities (tss/ecdsa/common/utils.go): the integer key of a peer, and the party list
    every node derives from a peer list. */
module Parties {
  import opened Sorting
  import opened Peers

  /** The big-endian integer read from the bytes of a peer ID. */
  function Key(peerID: PeerId): nat {
    if peerID == "" then 0
    else 256 * Key(peerID[..|peerID| - 1]) + peerID[|peerID| - 1] as int
  }

  /** A string of bytes that does not start with a zero byte; base58 text is one. */
  predicate PlainBytes(p: PeerId) {
    (forall i | 0 <= i < |p| :: p[i] as int < 256) && (p != "" ==> p[0] as int != 0)
  }

  lemma PlainInit(p: PeerId)
    requires PlainBytes(p) && p != ""
    ensures PlainBytes(p[..|p| - 1]) && p[|p| - 1] as int < 256
  {
  }

  lemma {:induction false} KeyPositive(p: PeerId)
    requires PlainBytes(p) && p != ""
    ensures Key(p) > 0
  {
    if |p| > 1 {
      PlainInit(p);
      KeyPositive(p[..|p| - 1]);
    }
  }

  /** Without leading zero bytes the key determines the peer. */
  lemma {:induction false} KeyInjective(p: PeerId, q: PeerId)
    requires PlainBytes(p) && PlainBytes(q) && Key(p) == Key(q)
    ensures p == q
  {
    if p == "" || q == "" {
      if p != "" { KeyPositive(p); }
      if q != "" { KeyPositive(q); }
    } else {
      var p', q' := p[..|p| - 1], q[..|q| - 1];
      var c, d := p[|p| - 1], q[|q| - 1];
      PlainInit(p);
      PlainInit(q);
      KeyInjective(p', q');
      assert p == p' + [c] && q == q' + [d];
    }
  }

  /** The number without its last `k` bytes. */
  function Shifted(n: nat, k: nat): nat {
    if k == 0 then n else Shifted(n / 256, k - 1)
  }

  /** The key is the big-endian number: from the most significant byte on, its bytes are those of
      the ID, and there are no more. */
  lemma {:induction false} KeyBytes(p: PeerId, k: nat)
    requires Bytes(p) && k <= |p|
    ensures Shifted(Key(p), |p|) == 0
    ensures k < |p| ==> Shifted(Key(p), |p| - 1 - k) % 256 == p[k] as int
  {
    if p != "" {
      var init := p[..|p| - 1];
      assert Key(p) / 256 == Key(init) && Key(p) % 256 == p[|p| - 1] as int;
      KeyBytes(init, if k < |init| then k else 0);
    }
  }

  predicate Bytes(p: PeerId) { forall i | 0 <= i < |p| :: p[i] as int < 256 }

  /** The ID without its leading zero bytes. */
  function Stripped(p: PeerId): (s: PeerId)
    ensures Bytes(p) ==> PlainBytes(s)
  {
    if p != "" && p[0] as int == 0 then Stripped(p[1..]) else p
  }

  lemma {:induction false} LeadingZero(p: PeerId)
    requires p != "" && p[0] as int == 0
    ensures Key(p) == Key(p[1..])
  {
    if |p| > 1 {
      LeadingZero(p[..|p| - 1]);
      assert p[..|p| - 1][1..] == p[1..][..|p| - 2];
    }
  }

  lemma {:induction false} KeyStripped(p: PeerId)
    ensures Key(Stripped(p)) == Key(p)
  {
    if p != "" && p[0] as int == 0 {
      LeadingZero(p);
      KeyStripped(p[1..]);
    }
  }

  /** Two IDs share a key exactly when they differ in leading zero bytes only. */
  lemma KeysCollideExactly(p: PeerId, q: PeerId)
    requires Bytes(p) && Bytes(q)
    ensures Key(p) == Key(q) <==> Stripped(p) == Stripped(q)
  {
    KeyStripped(p);
    KeyStripped(q);
    if Key(p) == Key(q) {
      KeyInjective(Stripped(p), Stripped(q));
    }
  }

  function KeyLe(): (PeerId, PeerId) -> bool { (p, q) => Key(p) <= Key(q) }

  class Party {
    const id: PeerId
    const key: nat := Key(id)
    var index: int

    /** The index is the one `tss.SortPartyIDs` assigns. */
    constructor CreatePartyID(peerID: PeerId, index: int)
      ensures id == peerID && this.index == index
    {
      id, this.index := peerID, index;
    }
  }

  function PartyIds(parties: seq<Party>): (ids: seq<PeerId>)
    ensures |ids| == |parties| && forall i | 0 <= i < |ids| :: ids[i] == parties[i].id
  {
    Mapped((p: Party) => p.id, parties)
  }

  /** The party at each position carries that position as its index. */
  ghost predicate IndexedByPosition(parties: seq<Party>)
    reads parties
  {
    forall i | 0 <= i < |parties| :: parties[i].index == i
  }

  lemma IndexedNoDup(parties: seq<Party>)
    requires IndexedByPosition(parties)
    ensures NoDup(parties)
  {
    forall i, j | 0 <= i < j < |parties| ensures parties[i] != parties[j] {
      assert parties[i].index == i && parties[j].index == j;
    }
  }

  /** Builds one party per peer; `tss.SortPartyIDs` puts them in key order and numbers them. */
  method PartiesFromPeers(peers: seq<PeerId>) returns (parties: seq<Party>)
    ensures SortedPermutation(KeyLe(), peers, PartyIds(parties))
    ensures IndexedByPosition(parties) && NoDup(parties) && fresh(parties)
    ensures forall i, j | 0 <= i < j < |parties| :: parties[i].key <= parties[j].key
  {
    var order := Sort(KeyLe(), peers);
    parties := [];
    for i := 0 to |order|
      invariant |parties| == i && fresh(parties)
      invariant forall j | 0 <= j < i :: parties[j].id == order[j] && parties[j].index == j
    {
      var party := new Party.CreatePartyID(order[i], i);
      parties := parties + [party];
    }
    assert PartyIds(parties) == order;
    IndexedNoDup(parties);
    forall i, j | 0 <= i < j < |parties| ensures parties[i].key <= parties[j].key {
      assert KeyLe()(order[i], order[j]);
    }
  }

  /** Rearranging a list of peers does not change the party list built from it. */
  lemma PartyListOfMultiset(peers1: seq<PeerId>, ids1: seq<PeerId>, peers2: seq<PeerId>, ids2: seq<PeerId>)
    requires multiset(peers1) == multiset(peers2)
    requires forall p | p in peers1 :: PlainBytes(p)
    requires SortedPermutation(KeyLe(), peers1, ids1) && SortedPermutation(KeyLe(), peers2, ids2)
    ensures ids1 == ids2
  {
    PermutationMembers(peers1, ids1);
    forall p, q | p in ids1 && q in ids1 && KeyLe()(p, q) && KeyLe()(q, p) ensures p == q {
      assert p in ToSet(peers1) && q in ToSet(peers1);
      KeyInjective(p, q);
    }
    SortedUnique(KeyLe(), ids1, ids2);
  }

  /** Every node that holds the same peers builds the same party list, whatever the order its
      own list is in; positions, hence indexes, agree too. */
  lemma PartyListUnique(peers1: seq<PeerId>, ids1: seq<PeerId>, peers2: seq<PeerId>, ids2: seq<PeerId>)
    requires NoDup(peers1) && NoDup(peers2) && ToSet(peers1) == ToSet(peers2)
    requires forall p | p in peers1 :: PlainBytes(p)
    requires SortedPermutation(KeyLe(), peers1, ids1) && SortedPermutation(KeyLe(), peers2, ids2)
    ensures ids1 == ids2
  {
    SameMembers(peers1, peers2);
    PartyListOfMultiset(peers1, ids1, peers2, ids2);
  }
}
