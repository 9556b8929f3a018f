/** A tss process as the session coordinator sees it (the `TssProcess` interface): the signing
    process of tss/ecdsa/signing/signing.go in full, and of keygen and resharing what the
    coordinator asks of them. */
module Process {
  import opened Wrappers
  import opened Peers
  import opened PeerOrder
  import opened Parties
  import opened Session
  import opened Readiness
  import opened Sorting

  datatype StartParams = Subset(peers: seq<PeerId>) | NoParams | OldKey(threshold: int, peers: seq<PeerId>)

  datatype RunResult = ErrProcessStarted | BadParams | SubsetError(peer: PeerId) | Running

  ghost predicate IsParamsFor(kind: Kind, hash: Hash, sid: string, c: Conf, ready: seq<PeerId>, params: StartParams) {
    match kind
    case Signing => params.Subset? && IsStartParams(hash, sid, c, ready, params.peers)
    case Keygen => params == NoParams
    case Resharing => params == OldKey(c.threshold, Keep(c.keyPeers, c.peerstore))
  }

  /** Who may lead: the holders of key shares, for resharing those of them in the peerstore, and
      for keygen everybody. */
  function Candidates(kind: Kind, c: Conf): seq<PeerId> {
    match kind
    case Signing => c.keyPeers
    case Keygen => c.peerstore
    case Resharing => Keep(c.peerstore, c.keyPeers)
  }

  /** The params of a signing: ready holders, `threshold + 1` of them if there are that many, and
      none of the others has a greater hash prefix than one of these. */
  lemma TopParams(hash: Hash, sid: string, c: Conf, ready: seq<PeerId>, params: seq<PeerId>)
    requires IsStartParams(hash, sid, c, ready, params)
    ensures |params| == if 0 <= c.threshold < |Keep(ready, c.keyPeers)| then c.threshold + 1
                        else |Keep(ready, c.keyPeers)|
    ensures forall p | p in params :: p in ready && p in c.keyPeers
    ensures forall p, q | p in params && q in ready && q in c.keyPeers && q !in params :: hash(p + sid) >= hash(q + sid)
  {
    var keep := Keep(ready, c.keyPeers);
    var sorted :| IsSessionOrder(hash, sid, keep, sorted) && params == FirstOf(sorted, c.threshold);
    KeepMembers(ready, c.keyPeers);
    PermutationMembers(sorted, keep);
    forall p | p in params ensures p in ready && p in c.keyPeers {
      assert p in ToSet(sorted);
    }
    forall p, q | p in params && q in ready && q in c.keyPeers && q !in params ensures hash(p + sid) >= hash(q + sid) {
      assert q in ToSet(keep);
      FirstRanksHigher(hash, sid, sorted, |params|, p, q);
    }
  }

  lemma FirstRanksHigher(hash: Hash, sid: string, sorted: seq<PeerId>, k: nat, p: PeerId, q: PeerId)
    requires Sorted(SessionLe(hash, sid), sorted) && k <= |sorted|
    requires p in sorted[..k] && q in sorted && q !in sorted[..k]
    ensures hash(p + sid) >= hash(q + sid)
  {
    var i :| 0 <= i < k && sorted[i] == p;
    assert sorted == sorted[..k] + sorted[k..];
    var j :| k <= j < |sorted| && sorted[j] == q;
    assert SessionLe(hash, sid)(sorted[i], sorted[j]);
  }

  method IsParticipant(peer: PeerId, peers: seq<PeerId>) returns (found: bool)
    ensures found <==> peer in peers
  {
    for i := 0 to |peers|
      invariant peer !in peers[..i]
    {
      if peers[i] == peer {
        return true;
      }
    }
    return false;
  }

  /** Keeps the members of `peers` found in `allowed`, appending them one by one. */
  method PeersIntersection(peers: seq<PeerId>, allowed: seq<PeerId>) returns (included: seq<PeerId>)
    ensures included == Keep(peers, allowed)
  {
    included := [];
    for i := 0 to |peers|
      invariant included == Keep(peers[..i], allowed)
    {
      KeepSnoc(peers[..i], peers[i], allowed);
      assert peers[..i + 1] == peers[..i] + [peers[i]];
      if peers[i] in allowed {
        included := included + [peers[i]];
      }
    }
    assert peers[..|peers|] == peers;
  }

  class TssProcess {
    const kind: Kind
    const hash: Hash
    const sid: string
    const conf: Conf

    var started: bool
    var coordinator: bool
    var peers: seq<PeerId>
    var party: Option<seq<Party>>

    constructor (kind: Kind, hash: Hash, sid: string, conf: Conf)
      ensures this.kind == kind && this.hash == hash && this.sid == sid && this.conf == conf
      ensures Valid() && !started && PartyView() == None
    {
      this.kind, this.hash, this.sid, this.conf := kind, hash, sid, conf;
      started, coordinator := false, false;
      peers := if kind == Signing then conf.keyPeers else conf.peerstore;
      party := None;
    }

    predicate Valid()
      reads this
    {
      party.Some? ==> started
    }

    /** The subset the running party was built from. */
    ghost function PartyView(): Option<seq<PeerId>>
      reads this
    {
      if party.Some? then Some(peers) else None
    }

    method ValidCoordinators() returns (peers: seq<PeerId>)
      ensures peers == Candidates(kind, conf)
    {
      match kind
      case Signing => peers := conf.keyPeers;
      case Keygen => peers := conf.peerstore;
      case Resharing => peers := PeersIntersection(conf.peerstore, conf.keyPeers);
    }

    method ReadyParticipants(readyPeers: seq<PeerId>) returns (participants: seq<PeerId>)
      ensures participants == Keep(readyPeers, conf.keyPeers)
    {
      participants := PeersIntersection(readyPeers, conf.keyPeers);
    }

    method Ready(readyPeers: seq<PeerId>, excludedPeers: seq<PeerId>) returns (ready: Option<bool>)
      ensures ready == ReadyTest(kind, conf, readyPeers, excludedPeers)
      ensures kind == Signing && NoDup(readyPeers) ==>
                ready == Some(|ToSet(readyPeers) * ToSet(conf.keyPeers)| == conf.threshold + 1)
      ensures kind == Resharing || (kind == Keygen && excludedPeers == []) ==>
                ready == Some(|readyPeers| == |conf.peerstore|)
      ensures ready.None? <==> kind == Keygen && excludedPeers != []
    {
      ReadyAnswers(kind, conf, readyPeers, excludedPeers);
      match kind
      case Signing =>
        var participants := ReadyParticipants(readyPeers);
        ready := Some(|participants| == conf.threshold + 1);
      case Keygen =>
        if |excludedPeers| > 0 {
          return None;
        }
        ready := Some(|readyPeers| == |conf.peerstore|);
      case Resharing =>
        ready := Some(|readyPeers| == |conf.peerstore|);
    }

    method StartParams(readyPeers: seq<PeerId>) returns (params: StartParams)
      ensures IsParamsFor(kind, hash, sid, conf, readyPeers, params)
      ensures kind == Signing ==>
                && params.Subset?
                && (var holders := |Keep(readyPeers, conf.keyPeers)|;
                    |params.peers| == if 0 <= conf.threshold < holders then conf.threshold + 1 else holders)
                && (forall p | p in params.peers :: p in readyPeers && p in conf.keyPeers)
                && forall p, q | p in params.peers && q in readyPeers && q in conf.keyPeers && q !in params.peers ::
                     hash(p + sid) >= hash(q + sid)
      ensures kind == Keygen ==> params == NoParams
      ensures kind == Resharing ==>
                && params.OldKey? && params.threshold == conf.threshold
                && forall p :: multiset(params.peers)[p] ==
                               if p in conf.peerstore then multiset(conf.keyPeers)[p] else 0
    {
      match kind
      case Signing =>
        var participants := ReadyParticipants(readyPeers);
        var subset := FirstForSession(participants);
        params := Subset(subset);
        TopParams(hash, sid, conf, readyPeers, subset);
      case Keygen =>
        params := NoParams;
      case Resharing =>
        var oldSubset := PeersIntersection(conf.keyPeers, conf.peerstore);
        params := OldKey(conf.threshold, oldSubset);
        KeepMembers(conf.keyPeers, conf.peerstore);
    }

    /** Takes peers in session order until there are `threshold + 1` of them. */
    method FirstForSession(participants: seq<PeerId>) returns (subset: seq<PeerId>)
      ensures exists sorted :: IsSessionOrder(hash, sid, participants, sorted)
                               && subset == FirstOf(sorted, conf.threshold)
    {
      var sortedPeers := SortPeersForSession(hash, participants, sid);
      ghost var sorted := Ids(sortedPeers[..]);
      subset := [];
      for i := 0 to sortedPeers.Length
        invariant subset == sorted[..i]
        invariant conf.threshold + 1 > 0 ==> i < conf.threshold + 1
      {
        subset := subset + [sortedPeers[i].id];
        if |subset| == conf.threshold + 1 {
          break;
        }
      }
      assert sorted[..sortedPeers.Length] == sorted;
      assert subset == FirstOf(sorted, conf.threshold);
    }

    /** `Run` of the signing process up to the creation of its local party. Whatever the abstract
        node was before, this is its launch step. */
    method Run(coordinator: bool, params: Option<seq<PeerId>>) returns (result: RunResult)
      requires kind == Signing && Valid()
      modifies this
      ensures Valid()
      ensures result == ErrProcessStarted <==> old(started)
      ensures old(started) ==> unchanged(this)
      ensures !old(started) ==> this.coordinator == coordinator && started
      ensures !old(started) ==>
                result == if params.None? then BadParams
                          else if conf.host !in params.value then SubsetError(conf.host)
                          else Running
      ensures result == Running ==>
                && party.Some? && peers == params.value
                && SortedPermutation(KeyLe(), peers, PartyIds(party.value))
                && IndexedByPosition(party.value)
      ensures result != Running ==> party == old(party) && peers == old(peers)
      ensures forall n: Node | n.started == old(started) && n.party == old(PartyView()) && params in n.pending ::
                OnLaunch(conf, n, params,
                         n.(started := started, party := PartyView(), pending := n.pending - multiset{params}))
    {
      if started {
        return ErrProcessStarted;
      }
      started := true;
      this.coordinator := coordinator;
      if params.None? {
        return BadParams;
      }
      var found := IsParticipant(conf.host, params.value);
      if !found {
        return SubsetError(conf.host);
      }
      peers := params.value;
      var parties := PartiesFromPeers(peers);
      party := Some(parties);
      return Running;
    }
  }

  /** What agreement comes to for the signing itself: the parties of one session, each built by its
      own node from the subset it was sent, are the same list with the same indexes, even if hash
      prefixes tie and the subsets arrive in different orders. */
  lemma AgreedParties(w: World, run: seq<State>, i: nat, a: PeerId, p: seq<PeerId>, aIds: seq<PeerId>,
                      j: nat, b: PeerId, q: seq<PeerId>, bIds: seq<PeerId>)
    requires IsRun(w, run) && "" !in w.honest
    requires IsParty(w, run, i, a, p) && IsParty(w, run, j, b, q)
    requires w.honest[a].coordinator == w.honest[b].coordinator && w.honest[a].coordinator in w.honest
    requires forall m | m in p :: PlainBytes(m)
    requires SortedPermutation(KeyLe(), p, aIds) && SortedPermutation(KeyLe(), q, bIds)
    ensures aIds == bIds
  {
    PartySubset(w, run, i, a, p);
    PartySubset(w, run, j, b, q);
    Agreement(w, run, i, a, p, j, b, q);
    PartyListUnique(p, aIds, q, bIds);
  }
}
