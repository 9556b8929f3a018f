/** The session order of peers (tss/util) and the static leader election built on it
    (comm/elector). The 64-bit big-endian prefix of the keccak hash is a parameter `hash`:
    every result holds for whichever function it is. */
module PeerOrder {
  import opened Sorting
  import opened Peers

  type Prefix64 = n: nat | n < 0x1_0000_0000_0000_0000
  type Hash = string -> Prefix64

  datatype PeerMsg = PeerMsg(id: PeerId, sessionID: string)

  function Rank(hash: Hash, sid: string, p: PeerId): Prefix64 { hash(p + sid) }

  /** `a` may stand before `b`: the negation of `Less(b, a)`. */
  function SessionLe(hash: Hash, sid: string): (PeerId, PeerId) -> bool {
    (a, b) => Rank(hash, sid, a) >= Rank(hash, sid, b)
  }

  ghost predicate IsSessionOrder(hash: Hash, sid: string, peers: seq<PeerId>, out: seq<PeerId>) {
    SortedPermutation(SessionLe(hash, sid), peers, out)
  }

  /** The hash prefixes of the listed peers are pairwise distinct for this session. */
  ghost predicate DistinctRanks(hash: Hash, sid: string, peers: seq<PeerId>) {
    forall p, q | p in peers && q in peers && Rank(hash, sid, p) == Rank(hash, sid, q) :: p == q
  }

  function Ids(msgs: seq<PeerMsg>): seq<PeerId> { Mapped((m: PeerMsg) => m.id, msgs) }

  function MsgLe(hash: Hash): (PeerMsg, PeerMsg) -> bool {
    (a: PeerMsg, b: PeerMsg) => Rank(hash, a.sessionID, a.id) >= Rank(hash, b.sessionID, b.id)
  }

  lemma {:induction false} IdsMultiset(msgs: seq<PeerMsg>, sid: string)
    requires forall m | m in msgs :: m.sessionID == sid
    ensures forall p :: multiset(Ids(msgs))[p] == multiset(msgs)[PeerMsg(p, sid)]
  {
    if msgs != [] {
      var init, last := msgs[..|msgs| - 1], msgs[|msgs| - 1];
      IdsMultiset(init, sid);
      assert msgs == init + [last];
      assert Ids(msgs) == Ids(init) + [last.id];
    }
  }

  lemma SortedMsgs(hash: Hash, sid: string, before: seq<PeerMsg>, after: seq<PeerMsg>)
    requires forall m | m in before :: m.sessionID == sid
    requires SortedPermutation(MsgLe(hash), before, after)
    ensures forall m | m in after :: m.sessionID == sid
    ensures IsSessionOrder(hash, sid, Ids(before), Ids(after))
  {
    forall m | m in after ensures m.sessionID == sid {
      assert m in multiset(before);
    }
    IdsMultiset(before, sid);
    IdsMultiset(after, sid);
    assert multiset(Ids(after)) == multiset(Ids(before));
    forall i, j | 0 <= i < j < |after|
      ensures SessionLe(hash, sid)(Ids(after)[i], Ids(after)[j])
    {
      assert MsgLe(hash)(after[i], after[j]);
    }
  }

  method SortPeersForSession(hash: Hash, peers: seq<PeerId>, sid: string) returns (sorted: array<PeerMsg>)
    ensures fresh(sorted)
    ensures forall i | 0 <= i < sorted.Length :: sorted[i].sessionID == sid
    ensures IsSessionOrder(hash, sid, peers, Ids(sorted[..]))
    ensures forall i, j | 0 <= i < j < sorted.Length :: hash(sorted[i].id + sid) >= hash(sorted[j].id + sid)
  {
    sorted := new PeerMsg[|peers|](_ => PeerMsg("", sid));
    for i := 0 to |peers|
      invariant forall j | 0 <= j < i :: sorted[j] == PeerMsg(peers[j], sid)
    {
      sorted[i] := PeerMsg(peers[i], sid);
    }
    ghost var before := sorted[..];
    assert Ids(before) == peers;
    SortInPlace(MsgLe(hash), s => Sort(MsgLe(hash), s), sorted);
    SortedMsgs(hash, sid, before, sorted[..]);
    forall i, j | 0 <= i < j < sorted.Length ensures hash(sorted[i].id + sid) >= hash(sorted[j].id + sid) {
      assert SessionLe(hash, sid)(Ids(sorted[..])[i], Ids(sorted[..])[j]);
    }
  }

  /** The static elector: the head of the sorted list, or the empty peer when there is none. */
  method Coordinator(hash: Hash, sid: string, peers: seq<PeerId>) returns (leader: PeerId)
    ensures IsLeader(hash, sid, peers, leader)
  {
    var sortedPeers := SortPeersForSession(hash, peers, sid);
    assert |Ids(sortedPeers[..])| == |multiset(Ids(sortedPeers[..]))| == |multiset(peers)| == |peers|;
    if sortedPeers.Length == 0 {
      return "";
    }
    assert Ids(sortedPeers[..])[0] in multiset(peers);
    forall p | p in peers ensures Rank(hash, sid, p) <= Rank(hash, sid, sortedPeers[0].id) {
      assert p in multiset(Ids(sortedPeers[..]));
    }
    return sortedPeers[0].id;
  }

  /** What electing means, without reference to sorting: a peer of greatest rank. */
  ghost predicate IsLeader(hash: Hash, sid: string, peers: seq<PeerId>, leader: PeerId) {
    if peers == [] then leader == ""
    else leader in peers && forall p | p in peers :: Rank(hash, sid, p) <= Rank(hash, sid, leader)
  }

  /** Heads of sorted lists are exactly the leaders: each peer of greatest rank heads some
      session order, so which of them wins is up to the library sort. */
  lemma LeadersAreHeads(hash: Hash, sid: string, peers: seq<PeerId>, leader: PeerId)
    requires peers != []
    ensures IsLeader(hash, sid, peers, leader) <==>
            exists out :: IsSessionOrder(hash, sid, peers, out) && out != [] && out[0] == leader
  {
    if IsLeader(hash, sid, peers, leader) {
      var out := OrderHeadedBy(hash, sid, peers, leader);
    }
    if out :| IsSessionOrder(hash, sid, peers, out) && out != [] && out[0] == leader {
      assert leader in multiset(peers);
      forall p | p in peers ensures Rank(hash, sid, p) <= Rank(hash, sid, leader) {
        assert p in multiset(out);
        var i :| 0 <= i < |out| && out[i] == p;
        assert i > 0 ==> SessionLe(hash, sid)(out[0], out[i]);
      }
    }
  }

  lemma OrderHeadedBy(hash: Hash, sid: string, peers: seq<PeerId>, leader: PeerId) returns (out: seq<PeerId>)
    requires peers != [] && IsLeader(hash, sid, peers, leader)
    ensures IsSessionOrder(hash, sid, peers, out) && out != [] && out[0] == leader
  {
    var le := SessionLe(hash, sid);
    var k :| 0 <= k < |peers| && peers[k] == leader;
    var others := peers[..k] + peers[k + 1..];
    assert peers == peers[..k] + [leader] + peers[k + 1..];
    assert multiset([leader] + others) == multiset(peers);
    var rest := Sort(le, others);
    forall y | y in rest ensures le(leader, y) {
      assert y in multiset(others);
      assert y in multiset(peers);
    }
    PrependLeast(le, leader, rest);
    out := [leader] + rest;
  }

  /** Session order depends on the set of peers only: two duplicate-free lists of the same
      peers with distinct hash prefixes sort to the same sequence. */
  lemma SessionOrderUnique(hash: Hash, sid: string, peers1: seq<PeerId>, out1: seq<PeerId>,
                           peers2: seq<PeerId>, out2: seq<PeerId>)
    requires NoDup(peers1) && NoDup(peers2) && ToSet(peers1) == ToSet(peers2)
    requires DistinctRanks(hash, sid, peers1)
    requires IsSessionOrder(hash, sid, peers1, out1) && IsSessionOrder(hash, sid, peers2, out2)
    ensures out1 == out2
  {
    SameMembers(peers1, peers2);
    PermutationMembers(peers1, out1);
    assert forall p | p in out1 :: p in ToSet(peers1);
    SortedUnique(SessionLe(hash, sid), out1, out2);
  }

  /** Two peers share the greatest rank. */
  ghost predicate TopTie(hash: Hash, sid: string, peers: seq<PeerId>) {
    exists a, b :: a != b && IsLeader(hash, sid, peers, a) && IsLeader(hash, sid, peers, b)
  }

  /** Any two nodes holding the same peers, in whatever orders, elect the same leader exactly
      when no two peers tie for the greatest hash prefix. */
  lemma ElectionOrderIndependent(hash: Hash, sid: string, peers: seq<PeerId>)
    ensures (forall peers', l, l' | ToSet(peers') == ToSet(peers)
               && IsLeader(hash, sid, peers, l) && IsLeader(hash, sid, peers', l') :: l == l')
            <==> !TopTie(hash, sid, peers)
  {
    forall peers', l, l' | ToSet(peers') == ToSet(peers) && IsLeader(hash, sid, peers, l)
        && IsLeader(hash, sid, peers', l') && !TopTie(hash, sid, peers)
      ensures l == l'
    {
      assert forall p :: p in peers <==> p in ToSet(peers');
      assert peers == [] <==> peers' == [] by {
        if peers != [] { assert peers[0] in ToSet(peers'); }
        if peers' != [] { assert peers'[0] in ToSet(peers); }
      }
      assert IsLeader(hash, sid, peers, l');
    }
    if TopTie(hash, sid, peers) {
      var a, b :| a != b && IsLeader(hash, sid, peers, a) && IsLeader(hash, sid, peers, b);
      assert ToSet(peers) == ToSet(peers);
    }
  }
}
