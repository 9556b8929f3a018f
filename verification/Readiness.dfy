/** When `initiate` fires: what a process's `Ready` says over the growing list of ready peers
    (tss/coordinator.go, and `Ready` in signing, keygen and resharing). */
module Readiness {
  import opened Wrappers
  import opened Peers
  import opened Session

  /** The ready list after the ready messages of `senders`, in order of arrival. */
  function ReadyAfter(host: PeerId, excluded: seq<PeerId>, senders: seq<PeerId>): seq<PeerId> {
    if senders == [] then [host]
    else AddReady(ReadyAfter(host, excluded, senders[..|senders| - 1]), excluded, senders[|senders| - 1])
  }

  lemma {:induction false} ReadyAfterMembers(host: PeerId, excluded: seq<PeerId>, senders: seq<PeerId>)
    ensures NoDup(ReadyAfter(host, excluded, senders))
    ensures ToSet(ReadyAfter(host, excluded, senders)) == {host} + (ToSet(senders) - ToSet(excluded))
  {
    if senders != [] {
      var init, last := senders[..|senders| - 1], senders[|senders| - 1];
      ReadyAfterMembers(host, excluded, init);
      assert senders == init + [last];
      var before := ReadyAfter(host, excluded, init);
      assert last in ToSet(excluded) <==> last in excluded;
      assert last in before <==> last in ToSet(before);
      assert ToSet(before + [last]) == ToSet(before) + {last};
      assert ToSet(senders) == ToSet(init) + {last};
    }
  }

  // ---- signing: exactly threshold + 1 key-share peers -----------------------------------

  function Holders(c: Conf, excluded: seq<PeerId>, senders: seq<PeerId>): seq<PeerId> {
    Keep(ReadyAfter(c.host, excluded, senders), c.keyPeers)
  }

  /** The k-th ready message makes the coordinator broadcast the start message. */
  predicate FiresAt(c: Conf, excluded: seq<PeerId>, senders: seq<PeerId>, k: nat)
    requires k <= |senders|
  {
    k > 0 && EnoughReady(c, ReadyAfter(c.host, excluded, senders[..k]))
  }

  ghost predicate Fired(c: Conf, excluded: seq<PeerId>, senders: seq<PeerId>) {
    exists k: nat | k <= |senders| :: FiresAt(c, excluded, senders, k)
  }

  lemma HoldersStep(c: Conf, excluded: seq<PeerId>, senders: seq<PeerId>, k: nat)
    requires k < |senders|
    ensures var before, after := Holders(c, excluded, senders[..k]), Holders(c, excluded, senders[..k + 1]);
            before <= after && |after| <= |before| + 1
  {
    assert senders[..k + 1][..k] == senders[..k];
    KeepSnoc(ReadyAfter(c.host, excluded, senders[..k]), senders[k], c.keyPeers);
  }

  lemma {:induction false} HoldersGrow(c: Conf, excluded: seq<PeerId>, senders: seq<PeerId>, j: nat, k: nat)
    requires j <= k <= |senders|
    ensures Holders(c, excluded, senders[..j]) <= Holders(c, excluded, senders[..k])
    decreases k - j
  {
    if j < k {
      HoldersGrow(c, excluded, senders, j, k - 1);
      HoldersStep(c, excluded, senders, k - 1);
    }
  }

  /** Every firing sees the very same list of ready key-share peers, so `StartParams` is asked
      the same question each time. */
  lemma SameHoldersAtEveryFiring(c: Conf, excluded: seq<PeerId>, senders: seq<PeerId>, j: nat, k: nat)
    requires j <= k <= |senders| && FiresAt(c, excluded, senders, j) && FiresAt(c, excluded, senders, k)
    ensures Holders(c, excluded, senders[..j]) == Holders(c, excluded, senders[..k])
  {
    HoldersGrow(c, excluded, senders, j, k);
  }

  /** The first check at which enough key-share peers are ready finds exactly enough of them,
      unless the check after the very first message already finds too many. */
  lemma {:induction false} FindFiring(c: Conf, excluded: seq<PeerId>, senders: seq<PeerId>, k: nat)
    requires 0 < k <= |senders|
    requires |Holders(c, excluded, senders[..1])| <= c.threshold + 1 <= |Holders(c, excluded, senders[..k])|
    ensures Fired(c, excluded, senders)
  {
    if |Holders(c, excluded, senders[..k])| == c.threshold + 1 {
      assert FiresAt(c, excluded, senders, k);
    } else {
      HoldersStep(c, excluded, senders, k - 1);
      FindFiring(c, excluded, senders, k - 1);
    }
  }

  /** The key-share peers that are ready once all messages have arrived. */
  function ReadyHolders(c: Conf, excluded: seq<PeerId>, senders: seq<PeerId>): set<PeerId> {
    ({c.host} + (ToSet(senders) - ToSet(excluded))) * ToSet(c.keyPeers)
  }

  lemma HoldersAreReadyHolders(c: Conf, excluded: seq<PeerId>, senders: seq<PeerId>)
    ensures ToSet(Holders(c, excluded, senders)) == ReadyHolders(c, excluded, senders)
    ensures |Holders(c, excluded, senders)| == |ReadyHolders(c, excluded, senders)|
  {
    ReadyAfterMembers(c.host, excluded, senders);
    var ready := ReadyAfter(c.host, excluded, senders);
    KeepMembers(ready, c.keyPeers);
    KeepNoDup(ready, c.keyPeers);
    NoDupMultiset(Holders(c, excluded, senders));
    forall p ensures p in ToSet(Holders(c, excluded, senders)) <==> p in ReadyHolders(c, excluded, senders) {
      assert p in ready <==> p in ToSet(ready);
    }
  }

  /** For every threshold: the start message goes out iff the final number of ready key-share
      peers reaches `threshold + 1` and the number after the first message does not exceed it. */
  lemma FiredExactly(c: Conf, excluded: seq<PeerId>, senders: seq<PeerId>)
    requires senders != []
    ensures Fired(c, excluded, senders) <==>
            |ReadyHolders(c, excluded, senders[..1])| <= c.threshold + 1 <= |ReadyHolders(c, excluded, senders)|
  {
    HoldersAreReadyHolders(c, excluded, senders[..1]);
    HoldersAreReadyHolders(c, excluded, senders);
    assert senders[..|senders|] == senders;
    if Fired(c, excluded, senders) {
      var k: nat :| k <= |senders| && FiresAt(c, excluded, senders, k);
      HoldersGrow(c, excluded, senders, 1, k);
      HoldersGrow(c, excluded, senders, k, |senders|);
    } else if |ReadyHolders(c, excluded, senders[..1])| <= c.threshold + 1 <= |ReadyHolders(c, excluded, senders)| {
      FindFiring(c, excluded, senders, |senders|);
    }
  }

  /** With a threshold of at least one, as the topology demands, the exact `==` test is never
      jumped over: the start has been broadcast iff `threshold + 1` key-share peers are ready. */
  lemma NeverJumpedOver(c: Conf, excluded: seq<PeerId>, senders: seq<PeerId>)
    requires c.threshold >= 1
    ensures Fired(c, excluded, senders) <==> c.threshold + 1 <= |ReadyHolders(c, excluded, senders)|
  {
    HoldersAreReadyHolders(c, excluded, []);
    KeepNoDup([c.host], c.keyPeers);
    if senders == [] {
    } else {
      HoldersStep(c, excluded, senders, 0);
      HoldersAreReadyHolders(c, excluded, senders[..1]);
      assert senders[..0] == [];
      FiredExactly(c, excluded, senders);
    }
  }

  /** The bound on the threshold is needed: with threshold zero a coordinator that holds a share
      itself goes from one ready holder to two, and the test for one never succeeds. */
  lemma ThresholdZeroNeverFires(c: Conf, p: PeerId, senders: seq<PeerId>)
    requires c.threshold == 0 && c.host in c.keyPeers && p in c.keyPeers && p != c.host
    ensures !Fired(c, [], [p] + senders) && |ReadyHolders(c, [], [p] + senders)| > c.threshold + 1
  {
    var all := [p] + senders;
    assert all[..1] == [p];
    HoldersAreReadyHolders(c, [], [p]);
    HoldersAreReadyHolders(c, [], all);
    TwoHolders(c, p);
    HoldersGrow(c, [], all, 1, |all|);
    assert all[..|all|] == all;
    FiredExactly(c, [], all);
  }

  lemma TwoHolders(c: Conf, p: PeerId)
    requires c.host in c.keyPeers && p in c.keyPeers && p != c.host
    ensures |ReadyHolders(c, [], [p])| >= 2
  {
    assert p in [p];
    CardinalityMonotone({c.host, p}, ReadyHolders(c, [], [p]));
  }

  lemma {:induction false} CardinalityMonotone<T>(s: set<T>, t: set<T>)
    requires s <= t
    ensures |s| <= |t| && (|s| == |t| ==> s == t)
  {
    assert t == s + (t - s);
    assert |t| == |s| + |t - s|;
  }

  // ---- keygen and resharing: everyone ---------------------------------------------------

  datatype Kind = Signing | Keygen | Resharing

  /** `Ready` of the three processes; `None` is keygen's error for excluded peers. */
  function ReadyTest(kind: Kind, c: Conf, ready: seq<PeerId>, excluded: seq<PeerId>): Option<bool> {
    match kind
    case Signing => Some(EnoughReady(c, ready))
    case Keygen => if |excluded| > 0 then None else Some(|ready| == |c.peerstore|)
    case Resharing => Some(|ready| == |c.peerstore|)
  }

  /** What the answers are, whatever lists they are worked out from: a signing is told yes or no by
      the number of distinct ready holders, and never fails; resharing goes by the lengths alone;
      keygen fails exactly if somebody is excluded. */
  lemma ReadyAnswers(kind: Kind, c: Conf, ready: seq<PeerId>, excluded: seq<PeerId>)
    ensures kind == Signing && NoDup(ready) ==>
              ReadyTest(kind, c, ready, excluded) == Some(|ToSet(ready) * ToSet(c.keyPeers)| == c.threshold + 1)
    ensures kind == Resharing || (kind == Keygen && excluded == []) ==>
              ReadyTest(kind, c, ready, excluded) == Some(|ready| == |c.peerstore|)
    ensures ReadyTest(kind, c, ready, excluded).None? <==> kind == Keygen && excluded != []
  {
    if kind == Signing && NoDup(ready) {
      KeepMembers(ready, c.keyPeers);
      KeepNoDup(ready, c.keyPeers);
      NoDupMultiset(Keep(ready, c.keyPeers));
      assert ToSet(Keep(ready, c.keyPeers)) == ToSet(ready) * ToSet(c.keyPeers);
    }
  }

  /** The peers that are ready once the messages of `senders` have arrived. */
  function ReadySet(c: Conf, excluded: seq<PeerId>, senders: seq<PeerId>): set<PeerId> {
    {c.host} + (ToSet(senders) - ToSet(excluded))
  }

  /** Whoever sends: the length test of keygen and resharing succeeds exactly when as many
      outsiders are ready as members of the peerstore are missing. */
  lemma LengthTestExactly(kind: Kind, c: Conf, excluded: seq<PeerId>, senders: seq<PeerId>)
    requires kind != Signing && NoDup(c.peerstore)
    ensures var r, p := ReadySet(c, excluded, senders), ToSet(c.peerstore);
            ReadyTest(kind, c, ReadyAfter(c.host, excluded, senders), excluded) == Some(true) <==>
              (kind == Keygen ==> excluded == []) && |r - p| == |p - r|
  {
    var ready := ReadyAfter(c.host, excluded, senders);
    ReadyAfterMembers(c.host, excluded, senders);
    NoDupMultiset(ready);
    NoDupMultiset(c.peerstore);
    CommonPart(ToSet(ready), ToSet(c.peerstore));
  }

  lemma CommonPart<T>(r: set<T>, p: set<T>)
    ensures |r| - |r - p| == |p| - |p - r|
    ensures |r - p| == |p - r| == 0 <==> r == p
  {
    assert r == (r - p) + r * p && p == (p - r) + r * p;
    assert r == p <==> r - p == {} && p - r == {};
  }

  /** The test says yes exactly when it should: when everyone is ready, and for keygen nobody is
      excluded. */
  ghost predicate TestIsRight(kind: Kind, c: Conf, excluded: seq<PeerId>, senders: seq<PeerId>) {
    ReadyTest(kind, c, ReadyAfter(c.host, excluded, senders), excluded) == Some(true) <==>
    (kind == Keygen ==> excluded == []) && ReadySet(c, excluded, senders) == ToSet(c.peerstore)
  }

  /** The test is wrong exactly when some outsiders are ready and equally many members missing. */
  lemma TestWrongExactly(kind: Kind, c: Conf, excluded: seq<PeerId>, senders: seq<PeerId>)
    requires kind != Signing && NoDup(c.peerstore) && (kind == Keygen ==> excluded == [])
    ensures var r, p := ReadySet(c, excluded, senders), ToSet(c.peerstore);
            !TestIsRight(kind, c, excluded, senders) <==> |r - p| == |p - r| != 0
  {
    LengthTestExactly(kind, c, excluded, senders);
    CommonPart(ReadySet(c, excluded, senders), ToSet(c.peerstore));
  }

  /** In every reachable state of `initiate`, the length test of keygen and resharing succeeds
      exactly when the whole peerstore is ready. */
  lemma StartsOnlyWithEveryone(kind: Kind, c: Conf, excluded: seq<PeerId>, senders: seq<PeerId>)
    requires kind != Signing && NoDup(c.peerstore) && c.host in c.peerstore
    requires forall p | p in senders :: p in c.peerstore
    ensures ReadyTest(kind, c, ReadyAfter(c.host, excluded, senders), excluded) == Some(true) <==>
            (kind == Keygen ==> excluded == []) && ReadySet(c, excluded, senders) == ToSet(c.peerstore)
  {
    LengthTestExactly(kind, c, excluded, senders);
    var r, p := ReadySet(c, excluded, senders), ToSet(c.peerstore);
    CommonPart(r, p);
    assert r - p == {};
  }

  lemma {:induction false} Listed<T>(members: set<T>) returns (s: seq<T>)
    ensures ToSet(s) == members
  {
    if members == {} {
      s := [];
    } else {
      var x :| x in members;
      var rest := Listed(members - {x});
      s := [x] + rest;
      assert ToSet(s) == {x} + ToSet(rest);
    }
  }

  /** Let ready messages of all peers in `network` arrive, in any order, or be lost. If none of
      the peerstore is excluded, the length test is right whatever arrives exactly when nobody
      but members of the peerstore and excluded peers can send: one outsider is enough to take
      the place of a missing member. */
  lemma OutsiderBreaksEveryone(kind: Kind, c: Conf, excluded: seq<PeerId>, network: set<PeerId>)
    requires kind != Signing && NoDup(c.peerstore) && c.host in c.peerstore && |c.peerstore| >= 2
    requires kind == Keygen ==> excluded == []
    requires ToSet(c.peerstore) - {c.host} <= network && ToSet(excluded) !! ToSet(c.peerstore)
    ensures (forall senders | ToSet(senders) <= network :: TestIsRight(kind, c, excluded, senders))
            <==> network - ToSet(excluded) <= ToSet(c.peerstore)
  {
    if network - ToSet(excluded) <= ToSet(c.peerstore) {
      forall senders | ToSet(senders) <= network ensures TestIsRight(kind, c, excluded, senders) {
        TestWrongExactly(kind, c, excluded, senders);
        assert ReadySet(c, excluded, senders) - ToSet(c.peerstore) == {};
      }
    } else {
      var x :| x in network - ToSet(excluded) && x !in ToSet(c.peerstore);
      var senders := Impostor(kind, c, excluded, network, x);
    }
  }

  lemma Impostor(kind: Kind, c: Conf, excluded: seq<PeerId>, network: set<PeerId>, x: PeerId)
    returns (senders: seq<PeerId>)
    requires kind != Signing && NoDup(c.peerstore) && c.host in c.peerstore && |c.peerstore| >= 2
    requires kind == Keygen ==> excluded == []
    requires ToSet(c.peerstore) - {c.host} <= network && ToSet(excluded) !! ToSet(c.peerstore)
    requires x in network && x !in ToSet(excluded) && x !in ToSet(c.peerstore)
    ensures ToSet(senders) <= network && !TestIsRight(kind, c, excluded, senders)
  {
    var b := SomeoneElse(c.peerstore, c.host);
    senders := Listed(ToSet(c.peerstore) - {c.host, b} + {x});
    Replaced(c.host, ToSet(c.peerstore), ToSet(excluded), b, x);
    TestWrongExactly(kind, c, excluded, senders);
  }

  lemma SomeoneElse(peers: seq<PeerId>, host: PeerId) returns (b: PeerId)
    requires NoDup(peers) && |peers| >= 2
    ensures b in ToSet(peers) && b != host
  {
    b := if peers[0] == host then peers[1] else peers[0];
  }

  /** Of everyone but the host, `x` answers in place of `b`. */
  lemma Replaced(host: PeerId, p: set<PeerId>, excluded: set<PeerId>, b: PeerId, x: PeerId)
    requires host in p && b in p && b != host && x !in p && x !in excluded && excluded !! p
    ensures var r := {host} + (p - {host, b} + {x} - excluded);
            |r - p| == |p - r| != 0
  {
    var r := {host} + (p - {host, b} + {x} - excluded);
    assert r - p == {x};
    assert p - r == {b};
  }
}
