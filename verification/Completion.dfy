/** The session can come to an end: from every configuration in which a leader and enough honest
    share holders follow each other, some run makes all of them parties. So the safety results
    about parties speak of runs that exist. */
module Completion {
  import opened Wrappers
  import opened Sorting
  import opened Peers
  import opened PeerOrder
  import opened Session

  ghost predicate Reachable(w: World, s: State) {
    exists run :: IsRun(w, run) && run[|run| - 1] == s
  }

  /** `r` holds initially and is kept by every step; the states built below are shown to satisfy
      every such `r`. */
  ghost predicate Tracks(w: World, r: State -> bool) {
    && (forall s {:trigger Init(w, s)} | Init(w, s) :: r(s))
    && forall s, s' {:trigger Next(w, s, s')} | r(s) && Next(w, s, s') :: r(s')
  }

  lemma ReachableTracks(w: World)
    ensures Tracks(w, s => Reachable(w, s))
  {
    forall s | Init(w, s) ensures Reachable(w, s) {
      assert IsRun(w, [s]) && [s][|[s]| - 1] == s;
    }
    forall s, s' | Reachable(w, s) && Next(w, s, s') ensures Reachable(w, s') {
      Extend(w, s, s');
    }
  }

  lemma Extend(w: World, s: State, s': State)
    requires Reachable(w, s) && Next(w, s, s')
    ensures Reachable(w, s')
  {
    var run :| IsRun(w, run) && run[|run| - 1] == s;
    var longer := run + [s'];
    forall i | 0 < i < |longer| ensures StepTo(w, longer, i) {
      if i < |run| {
        assert StepTo(w, run, i);
      }
    }
    assert IsRun(w, longer);
  }

  /** Takes one step of a node. */
  lemma Take(w: World, r: State -> bool, s: State, h: PeerId, input: Input, n': Node, out: set<Msg>) returns (s': State)
    requires Tracks(w, r) && r(s) && h in w.honest && h in s.nodes
    requires input.Deliver? ==> input.msg in s.net && input.msg.to == h
    requires LocalStep(w.hash, w.sid, w.honest[h], s.nodes[h], input, n', out)
    ensures r(s') && s' == State(s.nodes[h := n'], s.net + out)
  {
    s' := State(s.nodes[h := n'], s.net + out);
    assert NodeStep(w, s, s', h, input, n', out);
    assert Next(w, s, s');
  }

  /** `c` leads the honest peers `others`, who all hold key shares and are known to `c`, and
      together with `c` they are exactly as many as the subset needs. */
  ghost predicate Quorum(w: World, c: PeerId, others: seq<PeerId>) {
    && (forall h | h in w.honest :: w.honest[h].host == h)
    && Leads(w, c) && c in w.honest[c].keyPeers && c !in others
    && NoDup(others) && |others| == w.honest[c].threshold > 0
    && forall o | o in others ::
         && o in w.honest && w.honest[o].coordinator == c
         && o in w.honest[c].keyPeers && o in w.honest[c].peerstore
  }

  /** All nodes are as they joined, except that `c` has heard from the first `i` of `others`. */
  ghost predicate Gathered(w: World, s: State, c: PeerId, others: seq<PeerId>, i: nat)
    requires i <= |others|
  {
    && s.nodes.Keys == w.honest.Keys && c in w.honest
    && (forall h | h in w.honest && h != c :: s.nodes[h] == Joining(h))
    && s.nodes[c] == Joining(c).(ready := [c] + others[..i])
    && forall o | o in others :: Initiate(c, o) in s.net
  }

  lemma Called(w: World, r: State -> bool, c: PeerId, others: seq<PeerId>) returns (s: State)
    requires Tracks(w, r) && Quorum(w, c, others)
    ensures r(s) && Gathered(w, s, c, others, 0)
  {
    var s0 := State(map h | h in w.honest :: Joining(h), {});
    assert Init(w, s0);
    s := Take(w, r, s0, c, Tick, Joining(c), InitiateMsgs(w.honest[c]));
    assert [c] + others[..0] == [c];
  }

  /** `o` answers the call. */
  lemma Answered(w: World, r: State -> bool, s: State, c: PeerId, others: seq<PeerId>, i: nat) returns (s': State)
    requires Tracks(w, r) && Quorum(w, c, others) && i < |others| && r(s) && Gathered(w, s, c, others, i)
    ensures r(s') && Gathered(w, s', c, others, i) && Ready(others[i], c) in s'.net
  {
    var o := others[i];
    assert o in others;
    s' := Take(w, r, s, o, Deliver(Initiate(c, o)), s.nodes[o], {Ready(o, c)});
  }

  lemma {:induction false} KeepAll(peers: seq<PeerId>, allowed: seq<PeerId>)
    requires forall p | p in peers :: p in allowed
    ensures Keep(peers, allowed) == peers
  {
    if peers != [] {
      KeepAll(peers[..|peers| - 1], allowed);
    }
  }

  lemma ReadyGrows(w: World, c: PeerId, others: seq<PeerId>, i: nat)
    requires Quorum(w, c, others) && i < |others|
    ensures AddReady([c] + others[..i], [], others[i]) == [c] + others[..i + 1]
    ensures Keep([c] + others[..i + 1], w.honest[c].keyPeers) == [c] + others[..i + 1]
  {
    assert others[i] in others;
    assert [c] + others[..i] + [others[i]] == [c] + others[..i + 1];
    KeepAll([c] + others[..i + 1], w.honest[c].keyPeers);
  }

  /** `c` hears the answer of `others[i]`, and that is not enough yet. */
  lemma Heard(w: World, r: State -> bool, s: State, c: PeerId, others: seq<PeerId>, i: nat) returns (s': State)
    requires Tracks(w, r) && Quorum(w, c, others) && i + 1 < |others| && r(s) && Gathered(w, s, c, others, i)
    requires Ready(others[i], c) in s.net
    ensures r(s') && Gathered(w, s', c, others, i + 1)
  {
    ReadyGrows(w, c, others, i);
    var n' := s.nodes[c].(ready := [c] + others[..i + 1]);
    s' := Take(w, r, s, c, Deliver(Ready(others[i], c)), n', {});
  }

  lemma {:induction false} AllButOne(w: World, r: State -> bool, c: PeerId, others: seq<PeerId>, i: nat)
    returns (s: State)
    requires Tracks(w, r) && Quorum(w, c, others) && i < |others|
    ensures r(s) && Gathered(w, s, c, others, i) && Ready(others[i], c) in s.net
  {
    if i == 0 {
      s := Called(w, r, c, others);
    } else {
      s := AllButOne(w, r, c, others, i - 1);
      s := Heard(w, r, s, c, others, i - 1);
    }
    s := Answered(w, r, s, c, others, i);
  }

  /** The start message naming `params` is out, `c` is about to run, and the first `i` of
      `others` are parties. */
  ghost predicate Started(w: World, s: State, c: PeerId, others: seq<PeerId>, params: seq<PeerId>, i: nat)
    requires i <= |others|
  {
    && s.nodes.Keys == w.honest.Keys && c in w.honest
    && multiset(params) == multiset([c] + others)
    && Some(params) in s.nodes[c].pending && !s.nodes[c].started
    && (forall o | o in others :: o in w.honest && Start(c, o, Params(Some(params))) in s.net)
    && (forall j | 0 <= j < i :: s.nodes[others[j]].party == Some(params))
    && forall j | i <= j < |others| :: s.nodes[others[j]] == Joining(others[j])
  }

  /** The answer that completes the quorum makes `c` send the start message. */
  lemma LastAnswer(hash: Hash, sid: string, c: Conf, n: Node, from: PeerId) returns (params: seq<PeerId>, n': Node)
    requires n.listening && c.coordinator == c.host && EnoughReady(c, AddReady(n.ready, [], from))
    requires Keep(AddReady(n.ready, [], from), c.keyPeers) == AddReady(n.ready, [], from)
    ensures multiset(params) == multiset(AddReady(n.ready, [], from))
    ensures LocalStep(hash, sid, c, n, Deliver(Ready(from, c.host)), n', StartMsgs(c, params))
    ensures n'.started == n.started && Some(params) in n'.pending
  {
    var ready := AddReady(n.ready, [], from);
    params := Sort(SessionLe(hash, sid), ready);
    assert |params| == |multiset(params)| == |multiset(ready)| == |ready|;
    assert params == FirstOf(params, c.threshold);
    assert IsStartParams(hash, sid, c, ready, params);
    n' := n.(ready := ready, pending := n.pending + multiset{Some(params)});
  }

  lemma Fires(w: World, r: State -> bool, c: PeerId, others: seq<PeerId>) returns (s: State, params: seq<PeerId>)
    requires Tracks(w, r) && Quorum(w, c, others)
    ensures r(s) && Started(w, s, c, others, params, 0)
  {
    var t := |others|;
    s := AllButOne(w, r, c, others, t - 1);
    ReadyGrows(w, c, others, t - 1);
    assert others[..t] == others;
    var n';
    params, n' := LastAnswer(w.hash, w.sid, w.honest[c], s.nodes[c], others[t - 1]);
    var s' := Take(w, r, s, c, Deliver(Ready(others[t - 1], c)), n', StartMsgs(w.honest[c], params));
    StartSent(w, s, s', c, others, params, n');
    s := s';
  }

  lemma StartSent(w: World, s: State, s': State, c: PeerId, others: seq<PeerId>, params: seq<PeerId>, n': Node)
    requires Quorum(w, c, others) && Gathered(w, s, c, others, |others| - 1)
    requires s' == State(s.nodes[c := n'], s.net + StartMsgs(w.honest[c], params))
    requires multiset(params) == multiset([c] + others) && Some(params) in n'.pending && !n'.started
    ensures Started(w, s', c, others, params, 0)
  {
    forall o | o in others ensures Start(c, o, Params(Some(params))) in s'.net {
      assert Start(c, o, Params(Some(params))) in StartMsgs(w.honest[c], params);
    }
    forall j | 0 <= j < |others| ensures s'.nodes[others[j]] == Joining(others[j]) {
      assert others[j] in others;
    }
  }

  /** A launch with a subset that contains the node makes it a party. */
  lemma Launched(w: World, r: State -> bool, s: State, h: PeerId, params: seq<PeerId>)
    returns (s': State)
    requires Tracks(w, r) && r(s) && h in w.honest && h in s.nodes && w.honest[h].host == h && h in params
    requires Some(params) in s.nodes[h].pending && !s.nodes[h].started
    ensures r(s') && s'.net == s.net
    ensures exists n' :: s'.nodes == s.nodes[h := n'] && n'.party == Some(params)
  {
    var n := s.nodes[h];
    var n' := n.(pending := n.pending - multiset{Some(params)}, started := true, party := Some(params));
    s' := Take(w, r, s, h, Launch(Some(params)), n', {});
  }

  lemma Joins(w: World, r: State -> bool, s: State, c: PeerId, others: seq<PeerId>, params: seq<PeerId>, i: nat)
    returns (s': State)
    requires Tracks(w, r) && Quorum(w, c, others) && i < |others| && r(s) && Started(w, s, c, others, params, i)
    ensures r(s') && Started(w, s', c, others, params, i + 1)
  {
    var o := others[i];
    assert o in others;
    assert o in multiset(params);
    var input := Deliver(Start(c, o, Params(Some(params))));
    var n := Joining(o).(pending := multiset{} + multiset{Some(params)});
    s' := Take(w, r, s, o, input, n, {});
    s' := Launched(w, r, s', o, params);
  }

  lemma {:induction false} AllJoin(w: World, r: State -> bool, c: PeerId, others: seq<PeerId>, i: nat)
    returns (s: State, params: seq<PeerId>)
    requires Tracks(w, r) && Quorum(w, c, others) && i <= |others|
    ensures r(s) && Started(w, s, c, others, params, i)
  {
    if i == 0 {
      s, params := Fires(w, r, c, others);
    } else {
      s, params := AllJoin(w, r, c, others, i - 1);
      s := Joins(w, r, s, c, others, params, i - 1);
    }
  }

  /** All members of the quorum are parties with the subset `params`, which lists them. */
  ghost predicate Complete(w: World, s: State, c: PeerId, others: seq<PeerId>, params: seq<PeerId>) {
    && s.nodes.Keys == w.honest.Keys
    && multiset(params) == multiset([c] + others)
    && forall m | m in [c] + others :: m in s.nodes && s.nodes[m].party == Some(params)
  }

  ghost predicate AllParties(w: World, s: State, c: PeerId, others: seq<PeerId>) {
    exists params :: Complete(w, s, c, others, params)
  }

  lemma AllRun(w: World, r: State -> bool, c: PeerId, others: seq<PeerId>) returns (s: State, params: seq<PeerId>)
    requires Tracks(w, r) && Quorum(w, c, others)
    ensures r(s) && Complete(w, s, c, others, params)
  {
    s, params := AllJoin(w, r, c, others, |others|);
    assert c in multiset([c] + others);
    assert c in multiset(params);
    s := Launched(w, r, s, c, params);
    forall m | m in [c] + others ensures m in s.nodes && s.nodes[m].party == Some(params) {
      if m != c {
        var j :| 0 <= j < |others| && others[j] == m;
      }
    }
  }

  /** Every quorum can be brought to run one party per member, all with the same subset, which is
      the quorum itself. */
  lemma QuorumCompletes(w: World, c: PeerId, others: seq<PeerId>)
    requires Quorum(w, c, others)
    ensures exists run :: IsRun(w, run) && AllParties(w, run[|run| - 1], c, others)
  {
    ReachableTracks(w);
    var s, params := AllRun(w, s => Reachable(w, s), c, others);
    assert Reachable(w, s);
    var run :| IsRun(w, run) && run[|run| - 1] == s;
    assert AllParties(w, s, c, others);
  }

  /** A node that was started without a coordinator takes the start message of anybody, so whoever
      is not honest can still make it a party to any subset it is in. */
  lemma NoCoordinatorTrustsAnyone(w: World, s: State, h: PeerId, stranger: PeerId, params: seq<PeerId>)
    requires Reachable(w, s) && h in w.honest && h in s.nodes
    requires w.honest[h].host == h != "" && w.honest[h].coordinator == ""
    requires s.nodes[h].listening && !s.nodes[h].started && stranger !in w.honest && h in params
    ensures exists s' :: Reachable(w, s') && h in s'.nodes && s'.nodes[h].party == Some(params)
  {
    ReachableTracks(w);
    var s' := StrangerStarts(w, s => Reachable(w, s), s, h, stranger, params);
  }

  /** Whatever start message names `params` to `h` comes from `sender`. */
  ghost predicate OnlyFrom(sender: PeerId, h: PeerId, params: seq<PeerId>, net: set<Msg>) {
    forall m | m in net && m.Start? && m.to == h && m.payload == Params(Some(params)) :: m.from == sender
  }

  /** `h` has become a party with `params`, which nobody but `sender` has named to it. */
  ghost predicate StartedBy(w: World, s: State, sender: PeerId, h: PeerId, params: seq<PeerId>) {
    Reachable(w, s) && h in s.nodes && s.nodes[h].party == Some(params) && OnlyFrom(sender, h, params, s.net)
  }

  /** Agreement needs a coordinator: for a node that waits for a start message, a dishonest peer
      can make it a party to a subset of its own, with nobody else naming that subset, exactly if
      the node has no coordinator or that peer is its coordinator. */
  lemma StrangerStartsExactly(w: World, s: State, h: PeerId, stranger: PeerId, params: seq<PeerId>)
    requires Reachable(w, s) && h in w.honest && h in s.nodes && w.honest[h].host == h != ""
    requires w.honest[h].coordinator != h
    requires s.nodes[h].listening && !s.nodes[h].started && OnlyFrom(stranger, h, params, s.net)
    requires stranger !in w.honest && h in params
    ensures (exists s' :: StartedBy(w, s', stranger, h, params)) <==> w.honest[h].coordinator in {"", stranger}
  {
    if w.honest[h].coordinator in {"", stranger} {
      var s' := StrangerCan(w, s, h, stranger, params);
    } else if s' :| StartedBy(w, s', stranger, h, params) {
      StartedByCoordinator(w, s', stranger, h, params);
    }
  }

  lemma StrangerCan(w: World, s: State, h: PeerId, stranger: PeerId, params: seq<PeerId>) returns (s': State)
    requires Reachable(w, s) && h in w.honest && h in s.nodes && w.honest[h].host == h != ""
    requires w.honest[h].coordinator != h && w.honest[h].coordinator in {"", stranger}
    requires s.nodes[h].listening && !s.nodes[h].started && OnlyFrom(stranger, h, params, s.net)
    requires stranger !in w.honest && h in params
    ensures StartedBy(w, s', stranger, h, params)
  {
    ReachableTracks(w);
    s' := StrangerStarts(w, s => Reachable(w, s), s, h, stranger, params);
  }

  lemma StartedByCoordinator(w: World, s: State, sender: PeerId, h: PeerId, params: seq<PeerId>)
    requires StartedBy(w, s, sender, h, params) && h in w.honest && w.honest[h].coordinator !in {"", h}
    ensures sender == w.honest[h].coordinator
  {
    ReachableCoordinator(w, s);
    assert Uses(s.nodes[h], Some(params));
    assert Start(w.honest[h].coordinator, h, Params(Some(params))) in s.net;
  }

  lemma ReachableCoordinator(w: World, s: State)
    requires Reachable(w, s)
    ensures WellFormed(w, s) && CoordinatorInv(w, s)
  {
    var run :| IsRun(w, run) && run[|run| - 1] == s;
    RunCoordinatorInv(w, run, |run| - 1);
  }

  lemma StrangerStarts(w: World, r: State -> bool, s: State, h: PeerId, stranger: PeerId, params: seq<PeerId>)
    returns (s': State)
    requires Tracks(w, r) && r(s) && h in w.honest && h in s.nodes && w.honest[h].host == h != ""
    requires w.honest[h].coordinator != h && w.honest[h].coordinator in {"", stranger}
    requires s.nodes[h].listening && !s.nodes[h].started && stranger !in w.honest && h in params
    ensures r(s') && h in s'.nodes && s'.nodes[h].party == Some(params)
    ensures s'.net == s.net + {Start(stranger, h, Params(Some(params)))}
  {
    var msg := Start(stranger, h, Params(Some(params)));
    var s1 := s.(net := s.net + {msg});
    assert FaultyStep(w, s, s1, msg);
    assert Next(w, s, s1);
    var n := s.nodes[h];
    s' := Take(w, r, s1, h, Deliver(msg), n.(pending := n.pending + multiset{Some(params)}), {});
    s' := Launched(w, r, s', h, params);
  }
}
