/** Peer lists. A peer is identified with the printed form of its ID, which is what every
    comparison in the program comes down to. */
module Peers {

  type PeerId = string

  ghost predicate NoDup<T>(s: seq<T>) {
    forall i, j | 0 <= i < j < |s| :: s[i] != s[j]
  }

  function ToSet<T>(s: seq<T>): set<T> { set x | x in s }

  function Mapped<A, B>(f: A -> B, s: seq<A>): (r: seq<B>)
    ensures |r| == |s| && forall i | 0 <= i < |s| :: r[i] == f(s[i])
  {
    seq(|s|, i requires 0 <= i < |s| => f(s[i]))
  }

  /** The members of `peers` that also occur in `allowed`, in order: what
      `readyParticipants` and `PeersIntersection` build. */
  function Keep(peers: seq<PeerId>, allowed: seq<PeerId>): seq<PeerId> {
    if peers == [] then []
    else
      var init := Keep(peers[..|peers| - 1], allowed);
      var last := peers[|peers| - 1];
      if last in allowed then init + [last] else init
  }

  lemma KeepSnoc(peers: seq<PeerId>, x: PeerId, allowed: seq<PeerId>)
    ensures Keep(peers + [x], allowed) == if x in allowed then Keep(peers, allowed) + [x] else Keep(peers, allowed)
  {
    assert (peers + [x])[..|peers|] == peers;
  }

  lemma {:induction false} KeepMembers(peers: seq<PeerId>, allowed: seq<PeerId>)
    ensures forall x :: x in Keep(peers, allowed) <==> x in peers && x in allowed
    ensures forall x :: multiset(Keep(peers, allowed))[x] == if x in allowed then multiset(peers)[x] else 0
  {
    if peers != [] {
      var init, last := peers[..|peers| - 1], peers[|peers| - 1];
      KeepMembers(init, allowed);
      assert peers == init + [last];
    }
  }

  lemma {:induction false} KeepNoDup(peers: seq<PeerId>, allowed: seq<PeerId>)
    requires NoDup(peers)
    ensures NoDup(Keep(peers, allowed))
    ensures |Keep(peers, allowed)| <= |peers|
  {
    if peers != [] {
      var init := peers[..|peers| - 1];
      KeepNoDup(init, allowed);
      KeepMembers(init, allowed);
      assert forall x | x in init :: x != peers[|peers| - 1];
    }
  }

  lemma {:induction false} NoDupMultiset<T>(s: seq<T>)
    requires NoDup(s)
    ensures multiset(s) == multiset(ToSet(s))
    ensures |ToSet(s)| == |s|
  {
    if s != [] {
      var init, last := s[..|s| - 1], s[|s| - 1];
      NoDupMultiset(init);
      assert s == init + [last];
      assert last !in init;
      assert ToSet(s) == ToSet(init) + {last};
    }
  }

  /** Duplicate-free lists with the same members are permutations of each other. */
  lemma SameMembers<T>(s: seq<T>, t: seq<T>)
    requires NoDup(s) && NoDup(t) && ToSet(s) == ToSet(t)
    ensures multiset(s) == multiset(t) && |s| == |t|
  {
    NoDupMultiset(s);
    NoDupMultiset(t);
  }

  lemma PermutationMembers<T>(s: seq<T>, t: seq<T>)
    requires multiset(s) == multiset(t)
    ensures ToSet(s) == ToSet(t) && |s| == |t|
    ensures NoDup(s) ==> NoDup(t)
  {
    assert |s| == |multiset(s)| == |multiset(t)| == |t|;
    forall x ensures x in s <==> x in t {
      assert x in multiset(s) <==> x in multiset(t);
    }
    if NoDup(s) {
      NoDupMultiset(s);
      forall x | x in t ensures multiset(t)[x] == 1 {}
      OnceEach(t);
    }
  }

  lemma {:induction false} OnceEach<T>(t: seq<T>)
    requires forall x | x in t :: multiset(t)[x] == 1
    ensures NoDup(t)
  {
    forall i, j | 0 <= i < j < |t| ensures t[i] != t[j] {
      assert t == t[..j] + t[j..];
      assert t[i] in t[..j] && t[j] in t[j..];
      assert multiset(t)[t[i]] == multiset(t[..j])[t[i]] + multiset(t[j..])[t[i]];
    }
  }
}
