/** Committee arithmetic of resharing (tss/ecdsa/resharing/resharing.go): validation of the start
    params and the party list that keeps the old committee in front. */
module Resharing {
  import opened Wrappers
  import opened Sorting
  import opened Peers
  import opened Parties
  import opened Process
  import opened Readiness

  // ---- an order on peer IDs -------------------------------------------------------------

  /** The order `slices.Sort` uses; any total order would do, as only the equality of two
      sorted lists matters. */
  predicate StringLe(a: string, b: string) {
    a == "" || (b != "" && (a[0] < b[0] || (a[0] == b[0] && StringLe(a[1..], b[1..]))))
  }

  lemma {:induction false} StringLeTotal(a: string, b: string)
    ensures StringLe(a, b) || StringLe(b, a)
    ensures StringLe(a, b) && StringLe(b, a) ==> a == b
  {
    if a != "" && b != "" && a[0] == b[0] {
      StringLeTotal(a[1..], b[1..]);
      assert a == [a[0]] + a[1..] && b == [b[0]] + b[1..];
    }
  }

  lemma {:induction false} StringLeTransitive(a: string, b: string, c: string)
    requires StringLe(a, b) && StringLe(b, c)
    ensures StringLe(a, c)
  {
    if a != "" && a[0] == b[0] == c[0] {
      StringLeTransitive(a[1..], b[1..], c[1..]);
    }
  }

  lemma StringOrder()
    ensures TotalPreorder(StringLe)
  {
    forall a, b ensures StringLe(a, b) || StringLe(b, a) {
      StringLeTotal(a, b);
    }
    forall a, b, c | StringLe(a, b) && StringLe(b, c) ensures StringLe(a, c) {
      StringLeTransitive(a, b, c);
    }
  }

  lemma SortedStringsEqual(a: seq<string>, b: seq<string>)
    requires Sorted(StringLe, a) && Sorted(StringLe, b)
    ensures a == b <==> multiset(a) == multiset(b)
  {
    if multiset(a) == multiset(b) {
      StringOrder();
      forall x, y | x in a && y in a && StringLe(x, y) && StringLe(y, x) ensures x == y {
        StringLeTotal(x, y);
      }
      SortedUnique(StringLe, a, b);
    }
  }

  method SortStrings(a: array<string>)
    modifies a
    ensures SortedPermutation(StringLe, old(a[..]), a[..])
  {
    StringOrder();
    SortInPlace(StringLe, s => Sort(StringLe, s), a);
  }

  lemma {:induction false} KeepSorted(s: seq<PeerId>, allowed: seq<PeerId>)
    requires Sorted(StringLe, s)
    ensures Sorted(StringLe, Keep(s, allowed))
  {
    if s != [] {
      var init, last := s[..|s| - 1], s[|s| - 1];
      KeepSorted(init, allowed);
      KeepMembers(init, allowed);
      var kept := Keep(init, allowed);
      forall i | 0 <= i < |kept| ensures StringLe(kept[i], last) {
        assert kept[i] in init;
      }
    }
  }

  lemma SameMultisetKeep(s: seq<PeerId>, t: seq<PeerId>, allowed: seq<PeerId>)
    requires multiset(s) == multiset(t)
    ensures multiset(Keep(s, allowed)) == multiset(Keep(t, allowed))
  {
    KeepMembers(s, allowed);
    KeepMembers(t, allowed);
  }

  // ---- validation -----------------------------------------------------------------------

  datatype Verdict = Accepted | ThresholdTooSmall | ThresholdBiggerThanSubset | InvalidSubset

  /** The subset is a rearrangement of the node's own old committee restricted to its peerstore,
      and the threshold is positive and can be met; a node without a key share has no committee
      to compare with. */
  predicate Acceptable(keyPeers: seq<PeerId>, peerstore: seq<PeerId>, threshold: int, subset: seq<PeerId>) {
    && 0 < threshold <= |subset|
    && (keyPeers != [] ==> multiset(subset) == multiset(Keep(keyPeers, peerstore)))
  }

  /** Who has no key share accepts every list that is long enough; who has one, exactly those that
      list its old committee, as far as it is in the peerstore, without duplicates. */
  lemma AcceptableMeans(keyPeers: seq<PeerId>, peerstore: seq<PeerId>, threshold: int, subset: seq<PeerId>)
    ensures keyPeers == [] ==> (Acceptable(keyPeers, peerstore, threshold, subset) <==> 0 < threshold <= |subset|)
    ensures keyPeers != [] && NoDup(keyPeers) ==>
              (Acceptable(keyPeers, peerstore, threshold, subset) <==>
               0 < threshold <= |subset| && NoDup(subset) && ToSet(subset) == ToSet(keyPeers) * ToSet(peerstore))
  {
    var own := Keep(keyPeers, peerstore);
    KeepMembers(keyPeers, peerstore);
    assert ToSet(own) == ToSet(keyPeers) * ToSet(peerstore);
    if NoDup(keyPeers) {
      KeepNoDup(keyPeers, peerstore);
      if multiset(subset) == multiset(own) {
        PermutationMembers(own, subset);
      }
      if NoDup(subset) && ToSet(subset) == ToSet(own) {
        SameMembers(subset, own);
      }
    }
  }

  /** What `validateStartParams` compares after sorting both lists decides whether the subset is
      a rearrangement of the own committee. */
  lemma SortedComparison(keyPeers: seq<PeerId>, sortedKey: seq<PeerId>, peerstore: seq<PeerId>,
                         subset: seq<PeerId>, sortedSubset: seq<PeerId>)
    requires SortedPermutation(StringLe, keyPeers, sortedKey) && SortedPermutation(StringLe, subset, sortedSubset)
    ensures sortedSubset == Keep(sortedKey, peerstore) <==> multiset(subset) == multiset(Keep(keyPeers, peerstore))
  {
    SameMultisetKeep(keyPeers, sortedKey, peerstore);
    KeepSorted(sortedKey, peerstore);
    SortedStringsEqual(sortedSubset, Keep(sortedKey, peerstore));
  }

  // ---- arranging the parties ------------------------------------------------------------

  /** The members of `peers` that are not in `others`, in order. */
  function Drop(peers: seq<PeerId>, others: seq<PeerId>): seq<PeerId> {
    if peers == [] then []
    else
      var init := Drop(peers[..|peers| - 1], others);
      var last := peers[|peers| - 1];
      if last in others then init else init + [last]
  }

  lemma DropSnoc(peers: seq<PeerId>, x: PeerId, others: seq<PeerId>)
    ensures Drop(peers + [x], others) == if x in others then Drop(peers, others) else Drop(peers, others) + [x]
  {
    assert (peers + [x])[..|peers|] == peers;
  }

  lemma {:induction false} DropPrefix(peers: seq<PeerId>, k: nat, others: seq<PeerId>)
    requires k <= |peers|
    ensures |Drop(peers[..k], others)| <= |Drop(peers, others)|
  {
    if k < |peers| {
      var init := peers[..|peers| - 1];
      DropPrefix(init, k, others);
      assert init[..k] == peers[..k];
    } else {
      assert peers[..k] == peers;
    }
  }

  lemma {:induction false} DropMembers(peers: seq<PeerId>, others: seq<PeerId>)
    ensures forall x :: multiset(Drop(peers, others))[x] == if x in others then 0 else multiset(peers)[x]
  {
    if peers != [] {
      var init, last := peers[..|peers| - 1], peers[|peers| - 1];
      DropMembers(init, others);
      assert peers == init + [last];
    }
  }

  lemma {:induction false} DropOrKeep(peers: seq<PeerId>, others: seq<PeerId>)
    ensures |peers| == |Drop(peers, others)| + |Keep(peers, others)|
  {
    if peers != [] {
      DropOrKeep(peers[..|peers| - 1], others);
    }
  }

  lemma NextParty(parties: seq<Party>, i: nat, oldIds: seq<PeerId>)
    requires i < |parties|
    ensures parties[..i + 1] == parties[..i] + [parties[i]]
    ensures var ids := PartyIds(parties);
            Drop(ids[..i + 1], oldIds) ==
            if parties[i].id in oldIds then Drop(ids[..i], oldIds) else Drop(ids[..i], oldIds) + [parties[i].id]
  {
    var ids := PartyIds(parties);
    DropSnoc(ids[..i], ids[i], oldIds);
    assert ids[..i + 1] == ids[..i] + [ids[i]];
  }

  lemma NotYetSeen(parties: seq<Party>, i: nat)
    requires NoDup(parties) && i < |parties|
    ensures parties[i] !in parties[..i]
  {}

  /** The write at the moving index would leave the new list. */
  predicate Overflows(ids: seq<PeerId>, oldIds: seq<PeerId>) {
    Drop(ids, oldIds) != [] && |oldIds| + |Drop(ids, oldIds)| > |ids|
  }

  /** Without duplicates, the old committee fits in front of the others exactly when it is part
      of the new one; then the arrangement is a permutation of the new committee. Otherwise the
      index leaves the list as soon as there is a party to place. */
  lemma FitsExactly(ids: seq<PeerId>, oldIds: seq<PeerId>)
    requires NoDup(ids) && NoDup(oldIds)
    ensures ToSet(oldIds) <= ToSet(ids) <==> |oldIds| + |Drop(ids, oldIds)| == |ids|
    ensures ToSet(oldIds) <= ToSet(ids) ==> multiset(oldIds + Drop(ids, oldIds)) == multiset(ids)
    ensures Overflows(ids, oldIds) <==> !(ToSet(oldIds) <= ToSet(ids)) && Drop(ids, oldIds) != []
  {
    DropMembers(ids, oldIds);
    DropOrKeep(ids, oldIds);
    KeepMembers(ids, oldIds);
    KeepNoDup(ids, oldIds);
    var kept := Keep(ids, oldIds);
    NoDupMultiset(kept);
    NoDupMultiset(oldIds);
    NoDupMultiset(ids);
    assert ToSet(kept) <= ToSet(oldIds);
    CardinalityMonotone(ToSet(kept), ToSet(oldIds));
    if ToSet(oldIds) <= ToSet(ids) {
      assert ToSet(kept) == ToSet(oldIds) by {
        forall x | x in ToSet(oldIds) ensures x in ToSet(kept) { assert x in ToSet(ids); }
      }
      assert multiset(oldIds + Drop(ids, oldIds)) == multiset(ids);
    }
    if ToSet(kept) == ToSet(oldIds) {
      forall x | x in oldIds ensures x in ids { assert x in ToSet(kept); }
    }
  }

  /** `newParties` holds the old parties, then parties from `seen` with the IDs `rest`, numbered
      by their positions, then nothing. */
  ghost predicate Placed(seen: seq<Party>, oldParties: seq<Party>, newParties: seq<Party?>, rest: seq<PeerId>)
    reads newParties
  {
    && (forall j | 0 <= j < |oldParties| && j < |newParties| :: newParties[j] == oldParties[j])
    && (forall j | |oldParties| <= j < |oldParties| + |rest| && j < |newParties| ::
          && newParties[j] != null && newParties[j] in seen
          && newParties[j].id == rest[j - |oldParties|] && newParties[j].index == j)
    && (forall j | |oldParties| + |rest| <= j < |newParties| :: newParties[j] == null)
  }

  datatype Outcome = AlreadyStarted | Invalid(reason: Verdict) | OutOfRange | Arranged

  class Resharing {
    const peerstore: seq<PeerId>
    const keyPeers: array<PeerId>
    const keyThreshold: int
    var started: bool

    constructor (keyPeers: array<PeerId>, keyThreshold: int, peerstore: seq<PeerId>)
      ensures this.keyPeers == keyPeers && this.keyThreshold == keyThreshold && this.peerstore == peerstore
      ensures !started
    {
      this.keyPeers, this.keyThreshold, this.peerstore, started := keyPeers, keyThreshold, peerstore, false;
    }

    /** Sorts both lists in place before comparing them. */
    method ValidateStartParams(oldThreshold: int, oldSubset: array<PeerId>) returns (verdict: Verdict)
      requires oldSubset != keyPeers
      modifies oldSubset, keyPeers
      ensures verdict == Accepted <==> Acceptable(old(keyPeers[..]), peerstore, oldThreshold, old(oldSubset[..]))
      ensures keyPeers.Length == 0 ==> (verdict == Accepted <==> 0 < oldThreshold <= oldSubset.Length)
      ensures keyPeers.Length > 0 && NoDup(old(keyPeers[..])) ==>
                (verdict == Accepted <==>
                 && 0 < oldThreshold <= oldSubset.Length && NoDup(old(oldSubset[..]))
                 && ToSet(old(oldSubset[..])) == ToSet(old(keyPeers[..])) * ToSet(peerstore))
      ensures verdict == ThresholdTooSmall <==> oldThreshold <= 0
      ensures verdict == ThresholdBiggerThanSubset <==> oldThreshold > 0 && oldSubset.Length < oldThreshold
      ensures multiset(oldSubset[..]) == multiset(old(oldSubset[..]))
      ensures multiset(keyPeers[..]) == multiset(old(keyPeers[..]))
    {
      AcceptableMeans(keyPeers[..], peerstore, oldThreshold, oldSubset[..]);
      if oldThreshold <= 0 {
        return ThresholdTooSmall;
      }
      if oldSubset.Length < oldThreshold {
        return ThresholdBiggerThanSubset;
      }
      ghost var key, subset := keyPeers[..], oldSubset[..];
      SortStrings(oldSubset);
      SortStrings(keyPeers);
      SortedComparison(key, keyPeers[..], peerstore, subset, oldSubset[..]);
      if keyPeers.Length != 0 {
        var own := PeersIntersection(keyPeers[..], peerstore);
        if oldSubset[..] != own {
          return InvalidSubset;
        }
      }
      return Accepted;
    }

    /** Assigns the old parties their old positions and all others the positions after them.
        `None` stands for the index that would be out of range. */
    method SortParties(parties: seq<Party>, oldParties: seq<Party>) returns (newParties: array?<Party?>)
      requires NoDup(parties) && forall p | p in parties :: p !in oldParties
      modifies parties
      ensures forall p | p in oldParties :: p.index == old(p.index)
      ensures newParties == null <==> Overflows(PartyIds(parties), PartyIds(oldParties))
      ensures newParties != null ==>
                && fresh(newParties) && newParties.Length == |parties|
                && Placed(parties, oldParties, newParties[..], Drop(PartyIds(parties), PartyIds(oldParties)))
    {
      newParties := new Party?[|parties|](_ => null);
      CopyParties(newParties, oldParties);
      var index := |oldParties|;
      ghost var ids, oldIds := PartyIds(parties), PartyIds(oldParties);
      for i := 0 to |parties|
        invariant index == |oldParties| + |Drop(ids[..i], oldIds)|
        invariant index <= |parties| || Drop(ids[..i], oldIds) == []
        invariant Placed(parties[..i], oldParties, newParties[..], Drop(ids[..i], oldIds))
        invariant forall p | p in oldParties :: p.index == old(p.index)
      {
        var next := PlaceNext(newParties, parties, i, index, oldParties);
        if next.None? {
          DropPrefix(ids, i + 1, oldIds);
          return null;
        }
        index := next.value;
      }
      assert ids[..|parties|] == ids && parties[..|parties|] == parties;
    }

    /** Skips the i-th party if it is an old one, and otherwise places it at `index`; `None` if that
        is beyond the list. */
    method PlaceNext(newParties: array<Party?>, parties: seq<Party>, i: nat, index: nat, oldParties: seq<Party>)
      returns (next: Option<nat>)
      requires i < |parties| == newParties.Length && NoDup(parties) && parties[i] !in oldParties
      requires var rest := Drop(PartyIds(parties)[..i], PartyIds(oldParties));
               index == |oldParties| + |rest| && Placed(parties[..i], oldParties, newParties[..], rest)
      modifies newParties, parties[i]
      ensures forall p | p in oldParties :: p.index == old(p.index)
      ensures var rest, rest' := Drop(PartyIds(parties)[..i], PartyIds(oldParties)),
                                 Drop(PartyIds(parties)[..i + 1], PartyIds(oldParties));
              if next.None? then |rest'| == |rest| + 1 && index >= |parties|
              else
                && next.value == |oldParties| + |rest'| && (rest' == rest || index < |parties|)
                && |rest'| <= |rest| + 1 && Placed(parties[..i + 1], oldParties, newParties[..], rest')
    {
      ghost var ids, oldIds := PartyIds(parties), PartyIds(oldParties);
      ghost var rest := Drop(ids[..i], oldIds);
      NextParty(parties, i, oldIds);
      NotYetSeen(parties, i);
      var known := IsParticipant(parties[i].id, PartyIds(oldParties));
      if known {
        PlacedMore(parties[..i], oldParties, newParties[..], rest, parties[i]);
        return Some(index);
      }
      if index >= newParties.Length {
        return None;
      }
      PlaceParty(newParties, parties[i], index, parties[..i], oldParties, rest);
      return Some(index + 1);
    }

    /** Copies as many old parties as the new list has room for. */
    method CopyParties(newParties: array<Party?>, oldParties: seq<Party>)
      requires forall j | 0 <= j < newParties.Length :: newParties[j] == null
      modifies newParties
      ensures Placed([], oldParties, newParties[..], [])
    {
      var copied := if |oldParties| < newParties.Length then |oldParties| else newParties.Length;
      for i := 0 to copied
        invariant forall j | 0 <= j < i :: newParties[j] == oldParties[j]
        invariant forall j | i <= j < newParties.Length :: newParties[j] == null
      {
        newParties[i] := oldParties[i];
      }
    }

    method PlaceParty(newParties: array<Party?>, party: Party, index: nat,
                      ghost seen: seq<Party>, ghost oldParties: seq<Party>, ghost rest: seq<PeerId>)
      requires index == |oldParties| + |rest| < newParties.Length
      requires party !in seen && party !in oldParties
      requires Placed(seen, oldParties, newParties[..], rest)
      modifies newParties, party`index
      ensures Placed(seen + [party], oldParties, newParties[..], rest + [party.id])
      ensures forall p | p in oldParties :: p.index == old(p.index)
    {
      newParties[index] := party;
      newParties[index].index := index;
      assert newParties[..] == old(newParties[..])[index := party];
    }

    /** `Run` up to the new party list: the params are validated, the old committee becomes the
        old parties and the peerstore the new ones. */
    method Run(oldThreshold: int, oldSubset: array<PeerId>) returns (result: Outcome, newParties: array?<Party?>)
      requires oldSubset != keyPeers
      modifies this, oldSubset, keyPeers
      ensures started
      ensures result == AlreadyStarted <==> old(started)
      ensures result == AlreadyStarted ==> oldSubset[..] == old(oldSubset[..]) && keyPeers[..] == old(keyPeers[..])
      ensures !old(started) ==>
                (result.Invalid? <==> !Acceptable(old(keyPeers[..]), peerstore, oldThreshold, old(oldSubset[..])))
      ensures !old(started) && keyPeers.Length == 0 ==>
                (result.Invalid? <==> !(0 < oldThreshold <= oldSubset.Length))
      ensures !old(started) && keyPeers.Length > 0 && NoDup(old(keyPeers[..])) ==>
                (result.Invalid? <==>
                 !(0 < oldThreshold <= oldSubset.Length && NoDup(old(oldSubset[..]))
                   && ToSet(old(oldSubset[..])) == ToSet(old(keyPeers[..])) * ToSet(peerstore)))
      ensures result.Invalid? ==>
                result.reason == if oldThreshold <= 0 then ThresholdTooSmall
                                 else if oldSubset.Length < oldThreshold then ThresholdBiggerThanSubset
                                 else InvalidSubset
      ensures result == Arranged <==> newParties != null
      ensures result in {Arranged, OutOfRange} ==>
                exists oldIds, ids | IsPartyList(old(oldSubset[..]), oldIds) && IsPartyList(peerstore, ids) ::
                  && (result == OutOfRange <==> Overflows(ids, oldIds))
                  && (result == Arranged ==> HoldsParties(newParties[..], oldIds, Drop(ids, oldIds)))
    {
      newParties := null;
      if started {
        return AlreadyStarted, null;
      }
      started := true;
      ghost var subset := oldSubset[..];
      var verdict := ValidateStartParams(oldThreshold, oldSubset);
      if verdict != Accepted {
        return Invalid(verdict), null;
      }
      ghost var oldIds, ids;
      newParties, oldIds, ids := ArrangeParties(oldSubset[..]);
      assert IsPartyList(subset, oldIds) && IsPartyList(peerstore, ids);
      result := if newParties == null then OutOfRange else Arranged;
    }

    method ArrangeParties(oldSubset: seq<PeerId>)
      returns (newParties: array?<Party?>, ghost oldIds: seq<PeerId>, ghost ids: seq<PeerId>)
      ensures IsPartyList(oldSubset, oldIds) && IsPartyList(peerstore, ids)
      ensures newParties == null <==> Overflows(ids, oldIds)
      ensures newParties != null ==> fresh(newParties) && HoldsParties(newParties[..], oldIds, Drop(ids, oldIds))
    {
      var oldParties := PartiesFromPeers(oldSubset);
      var parties := PartiesFromPeers(peerstore);
      newParties := SortParties(parties, oldParties);
      oldIds, ids := PartyIds(oldParties), PartyIds(parties);
      if newParties != null {
        PlacedHolds(parties, oldParties, newParties[..], Drop(ids, oldIds));
      }
    }
  }

  ghost predicate IsPartyList(peers: seq<PeerId>, ids: seq<PeerId>) {
    SortedPermutation(KeyLe(), peers, ids)
  }

  /** As far as there is room, the list holds parties with the IDs `oldIds`, then `rest`, each
      indexed by its position, then nothing. */
  ghost predicate HoldsParties(newParties: seq<Party?>, oldIds: seq<PeerId>, rest: seq<PeerId>)
    reads newParties
  {
    forall j | 0 <= j < |newParties| ::
      if j < |oldIds + rest| then
        newParties[j] != null && newParties[j].id == (oldIds + rest)[j] && newParties[j].index == j
      else newParties[j] == null
  }

  /** With the old committee in the new one and neither list repeating a peer, the result is
      complete: every new party is there with the index of its place, the old committee first. */
  lemma CompleteList(newParties: seq<Party?>, oldIds: seq<PeerId>, ids: seq<PeerId>)
    requires NoDup(oldIds) && NoDup(ids) && ToSet(oldIds) <= ToSet(ids) && |newParties| == |ids|
    requires HoldsParties(newParties, oldIds, Drop(ids, oldIds))
    ensures forall j | 0 <= j < |newParties| :: newParties[j] != null && newParties[j].index == j
    ensures forall j | 0 <= j < |newParties| :: j < |oldIds| <==> newParties[j].id in oldIds
    ensures forall p | p in ids :: exists j | 0 <= j < |newParties| :: newParties[j].id == p
  {
    var all := oldIds + Drop(ids, oldIds);
    ArrangedIds(ids, oldIds);
    forall p | p in ids ensures exists j | 0 <= j < |newParties| :: newParties[j].id == p {
      var j :| 0 <= j < |all| && all[j] == p;
      assert newParties[j].id == p;
    }
  }

  /** Either part of the list is in ascending order of keys. */
  lemma KeysAscend(newParties: seq<Party>, oldIds: seq<PeerId>, ids: seq<PeerId>, i: nat, j: nat)
    requires Sorted(KeyLe(), oldIds) && Sorted(KeyLe(), ids)
    requires PartyIds(newParties) == oldIds + Drop(ids, oldIds)
    requires i < j < |newParties| && (j < |oldIds| || |oldIds| <= i)
    ensures newParties[i].key <= newParties[j].key
  {
    DropSorted(ids, oldIds);
    SortedParts(KeyLe(), oldIds, Drop(ids, oldIds), i, j);
  }

  lemma ArrangedIds(ids: seq<PeerId>, oldIds: seq<PeerId>)
    requires NoDup(oldIds) && NoDup(ids) && ToSet(oldIds) <= ToSet(ids)
    ensures var all := oldIds + Drop(ids, oldIds);
      && |all| == |ids|
      && (forall p | p in ids :: p in all)
      && forall j | 0 <= j < |all| :: j < |oldIds| <==> all[j] in oldIds
  {
    var rest := Drop(ids, oldIds);
    FitsExactly(ids, oldIds);
    DropMembers(ids, oldIds);
    forall p | p in ids ensures p in oldIds + rest {
      assert p in multiset(oldIds + rest);
    }
    forall p | p in rest ensures p !in oldIds {
      assert multiset(rest)[p] > 0;
    }
  }

  lemma SortedParts<T>(le: (T, T) -> bool, s: seq<T>, t: seq<T>, i: nat, j: nat)
    requires Sorted(le, s) && Sorted(le, t) && i < j < |s + t| && (j < |s| || |s| <= i)
    ensures le((s + t)[i], (s + t)[j])
  {}

  lemma {:induction false} DropSorted(ids: seq<PeerId>, others: seq<PeerId>)
    requires Sorted(KeyLe(), ids)
    ensures Sorted(KeyLe(), Drop(ids, others))
  {
    if ids != [] {
      var init, last := ids[..|ids| - 1], ids[|ids| - 1];
      DropSorted(init, others);
      DropMembers(init, others);
      forall p | p in Drop(init, others) ensures KeyLe()(p, last) {
        assert multiset(Drop(init, others))[p] > 0;
        assert p in init;
      }
      AppendGreatest(KeyLe(), Drop(init, others), last);
    }
  }

  lemma PlacedMore(seen: seq<Party>, oldParties: seq<Party>, newParties: seq<Party?>, rest: seq<PeerId>, p: Party)
    requires Placed(seen, oldParties, newParties, rest)
    ensures Placed(seen + [p], oldParties, newParties, rest)
  {
  }

  lemma PlacedHolds(seen: seq<Party>, oldParties: seq<Party>, newParties: seq<Party?>, rest: seq<PeerId>)
    requires IndexedByPosition(oldParties) && Placed(seen, oldParties, newParties, rest)
    ensures HoldsParties(newParties, PartyIds(oldParties), rest)
  {
  }

  // ---- what the nodes agree on ----------------------------------------------------------

  /** What one old member's `StartParams` emits is accepted by every old member that has the same
      peers, in whatever order, exactly when the threshold is positive and can be met. */
  lemma EmittedParamsPass(threshold: int, key1: seq<PeerId>, peerstore1: seq<PeerId>,
                          key2: seq<PeerId>, peerstore2: seq<PeerId>)
    requires NoDup(key1) && NoDup(key2) && ToSet(key1) == ToSet(key2) && ToSet(peerstore1) == ToSet(peerstore2)
    ensures Acceptable(key2, peerstore2, threshold, Keep(key1, peerstore1))
            <==> 0 < threshold <= |ToSet(key1) * ToSet(peerstore1)|
  {
    var own, emitted := Keep(key2, peerstore2), Keep(key1, peerstore1);
    KeepMembers(key1, peerstore1);
    KeepMembers(key2, peerstore2);
    KeepNoDup(key1, peerstore1);
    KeepNoDup(key2, peerstore2);
    forall p ensures p in ToSet(own) <==> p in ToSet(emitted) {
      assert p in key1 <==> p in ToSet(key1);
      assert p in key2 <==> p in ToSet(key2);
      assert p in peerstore1 <==> p in ToSet(peerstore1);
      assert p in peerstore2 <==> p in ToSet(peerstore2);
    }
    SameMembers(own, emitted);
    NoDupMultiset(emitted);
    assert ToSet(emitted) == ToSet(key1) * ToSet(peerstore1);
  }

  /** A list with a duplicate is longer than its set. */
  lemma {:induction false} DuplicateLonger(s: seq<PeerId>)
    ensures |ToSet(s)| <= |s|
    ensures NoDup(s) <==> |s| == |ToSet(s)|
  {
    if s != [] {
      var init, last := s[..|s| - 1], s[|s| - 1];
      DuplicateLonger(init);
      assert s == init + [last];
      assert ToSet(s) == ToSet(init) + {last};
      if last in init {
        assert ToSet(s) == ToSet(init);
      }
    }
  }

  /** The count with duplicates in the old committee: what is kept of the new committee can make
      room for all of it only if there are none, and all are members. */
  lemma RoomExactly(ids: seq<PeerId>, oldIds: seq<PeerId>)
    requires NoDup(ids)
    ensures |oldIds| + |Drop(ids, oldIds)| <= |ids| <==> NoDup(oldIds) && ToSet(oldIds) <= ToSet(ids)
  {
    var kept := Keep(ids, oldIds);
    DropMembers(ids, oldIds);
    DropOrKeep(ids, oldIds);
    KeepMembers(ids, oldIds);
    KeepNoDup(ids, oldIds);
    NoDupMultiset(kept);
    DuplicateLonger(oldIds);
    CardinalityMonotone(ToSet(kept), ToSet(oldIds));
    if NoDup(oldIds) && ToSet(oldIds) <= ToSet(ids) {
      FitsExactly(ids, oldIds);
    }
    if |oldIds| <= |kept| {
      forall x | x in oldIds ensures x in ids { assert x in ToSet(kept); }
    }
  }

  /** The index stays within the new list exactly when there is nobody else to place, or the old
      committee is duplicate-free and part of the new one. */
  lemma OverflowsExactly(ids: seq<PeerId>, oldIds: seq<PeerId>)
    requires NoDup(ids)
    ensures !Overflows(ids, oldIds) <==>
            ToSet(ids) <= ToSet(oldIds) || (NoDup(oldIds) && ToSet(oldIds) <= ToSet(ids))
  {
    RoomExactly(ids, oldIds);
    DropEmpty(ids, oldIds);
  }

  /** Whatever list a node is sent, its `sortParties` stays in range exactly when the list covers
      the peerstore or is a duplicate-free part of it. */
  lemma SentSubsetFits(peerstore: seq<PeerId>, subset: seq<PeerId>, oldIds: seq<PeerId>, ids: seq<PeerId>)
    requires NoDup(peerstore)
    requires IsPartyList(subset, oldIds) && IsPartyList(peerstore, ids)
    ensures !Overflows(ids, oldIds) <==>
            ToSet(peerstore) <= ToSet(subset) || (NoDup(subset) && ToSet(subset) <= ToSet(peerstore))
  {
    PermutationMembers(subset, oldIds);
    PermutationMembers(oldIds, subset);
    PermutationMembers(peerstore, ids);
    OverflowsExactly(ids, oldIds);
  }

  /** What validation buys. On a node that has a key share, accepted params never make
      `sortParties` write out of range: its arrangement is a permutation of the peerstore with
      the old committee in front. A node without a key share accepts every list that is long
      enough, and then `SentSubsetFits` is all there is. */
  lemma AcceptedParamsFit(keyPeers: seq<PeerId>, peerstore: seq<PeerId>, threshold: int, subset: seq<PeerId>,
                          oldIds: seq<PeerId>, ids: seq<PeerId>)
    requires NoDup(keyPeers) && NoDup(peerstore)
    requires Acceptable(keyPeers, peerstore, threshold, subset)
    requires IsPartyList(subset, oldIds) && IsPartyList(peerstore, ids)
    ensures keyPeers != [] ==> !Overflows(ids, oldIds) && multiset(oldIds + Drop(ids, oldIds)) == multiset(peerstore)
    ensures keyPeers == [] ==>
              (Overflows(ids, oldIds) <==>
               !(ToSet(peerstore) <= ToSet(subset)) && (NoDup(subset) ==> !(ToSet(subset) <= ToSet(peerstore))))
  {
    SentSubsetFits(peerstore, subset, oldIds, ids);
    if keyPeers != [] {
      AcceptedSubset(keyPeers, peerstore, subset);
      PermutationMembers(subset, oldIds);
      PermutationMembers(peerstore, ids);
      FitsExactly(ids, oldIds);
    }
  }

  lemma AcceptedSubset(keyPeers: seq<PeerId>, peerstore: seq<PeerId>, subset: seq<PeerId>)
    requires NoDup(keyPeers) && multiset(subset) == multiset(Keep(keyPeers, peerstore))
    ensures NoDup(subset) && ToSet(subset) <= ToSet(peerstore)
  {
    var own := Keep(keyPeers, peerstore);
    KeepMembers(keyPeers, peerstore);
    KeepNoDup(keyPeers, peerstore);
    PermutationMembers(own, subset);
    forall p | p in ToSet(subset) ensures p in ToSet(peerstore) {
      assert p in ToSet(own);
    }
  }

  lemma DropEmpty(peers: seq<PeerId>, others: seq<PeerId>)
    ensures Drop(peers, others) == [] <==> ToSet(peers) <= ToSet(others)
  {
    DropMembers(peers, others);
    if Drop(peers, others) == [] {
      forall p | p in peers ensures p in others {
        assert multiset(peers)[p] > 0;
        assert multiset(Drop(peers, others))[p] == 0;
      }
    } else {
      var p := Drop(peers, others)[0];
      assert multiset(Drop(peers, others))[p] > 0;
      assert multiset(peers)[p] > 0 && p !in others;
      assert p in ToSet(peers);
    }
  }

  /** All nodes with the same peerstore set that are sent the same old subset, even one with
      duplicates, number the parties alike, whatever the order of their lists. */
  lemma SameResharingParties(peerstore1: seq<PeerId>, subset1: seq<PeerId>, oldIds1: seq<PeerId>, ids1: seq<PeerId>,
                             peerstore2: seq<PeerId>, subset2: seq<PeerId>, oldIds2: seq<PeerId>, ids2: seq<PeerId>)
    requires NoDup(peerstore1) && NoDup(peerstore2) && ToSet(peerstore1) == ToSet(peerstore2)
    requires multiset(subset1) == multiset(subset2)
    requires forall p | p in peerstore1 || p in subset1 :: PlainBytes(p)
    requires IsPartyList(subset1, oldIds1) && IsPartyList(peerstore1, ids1)
    requires IsPartyList(subset2, oldIds2) && IsPartyList(peerstore2, ids2)
    ensures oldIds1 + Drop(ids1, oldIds1) == oldIds2 + Drop(ids2, oldIds2)
    ensures Overflows(ids1, oldIds1) <==> Overflows(ids2, oldIds2)
  {
    PartyListOfMultiset(subset1, oldIds1, subset2, oldIds2);
    PartyListUnique(peerstore1, ids1, peerstore2, ids2);
  }
}
