/** When the start message goes out, over whole runs of the session system, and on what the params
    in it depend (tss/coordinator.go, tss/ecdsa/signing/signing.go). */
module Starting {
  import opened Wrappers
  import opened Peers
  import opened PeerOrder
  import opened Session

  /** The leader `h` has sent everyone in its peerstore a start message naming `params`, and has
      launched its own process with them or with earlier ones. */
  predicate SentAndLaunched(w: World, s: State, h: PeerId, params: seq<PeerId>)
    requires WellFormed(w, s) && h in w.honest
  {
    StartMsgs(w.honest[h], params) <= s.net && (s.nodes[h].started || Some(params) in s.nodes[h].pending)
  }

  /** Enough holders of key shares are ready, in the eyes of `h`. */
  predicate QuorumReady(c: Conf, n: Node) { c.threshold + 1 <= |Keep(n.ready, c.keyPeers)| }

  /** No leader with a positive threshold sits on a quorum without having sent the start. */
  ghost predicate SentInv(w: World, s: State)
    requires WellFormed(w, s)
  {
    forall h | Leads(w, h) && w.honest[h].threshold >= 1 && QuorumReady(w.honest[h], s.nodes[h]) ::
      exists params :: SentAndLaunched(w, s, h, params)
  }

  lemma InitSent(w: World, s: State)
    requires Init(w, s)
    ensures WellFormed(w, s) && SentInv(w, s)
  {
    forall h | Leads(w, h) && w.honest[h].threshold >= 1 ensures !QuorumReady(w.honest[h], s.nodes[h]) {
      KeepNoDup([h], w.honest[h].keyPeers);
    }
  }

  /** Of the leader's own steps, the one that makes the quorum sends the start. */
  lemma OwnStepSends(w: World, s: State, s': State, h: PeerId, input: Input, n': Node, out: set<Msg>)
    returns (params: seq<PeerId>)
    requires WellFormed(w, s) && NodeStep(w, s, s', h, input, n', out) && Leads(w, h)
    requires !QuorumReady(w.honest[h], s.nodes[h]) && QuorumReady(w.honest[h], n')
    ensures WellFormed(w, s') && SentAndLaunched(w, s', h, params)
  {
    var c, n := w.honest[h], s.nodes[h];
    ReadyListStep(w.hash, w.sid, c, n, input, n', out);
    KeepSnoc(n.ready, input.msg.from, c.keyPeers);
    assert EnoughReady(c, AddReady(n.ready, [], input.msg.from));
    params :| n'.pending == n.pending + multiset{Some(params)} && out == StartMsgs(c, params);
  }

  lemma OwnStepKeeps(w: World, s: State, s': State, h: PeerId, input: Input, n': Node, out: set<Msg>,
                     params: seq<PeerId>)
    requires WellFormed(w, s) && NodeStep(w, s, s', h, input, n', out) && SentAndLaunched(w, s, h, params)
    ensures WellFormed(w, s') && SentAndLaunched(w, s', h, params)
  {
    LaunchStays(w.hash, w.sid, w.honest[h], s.nodes[h], input, n', out, Some(params));
  }

  lemma LaunchStays(hash: Hash, sid: string, c: Conf, n: Node, input: Input, n': Node, out: set<Msg>,
                    params: Option<seq<PeerId>>)
    requires LocalStep(hash, sid, c, n, input, n', out)
    ensures n.started ==> n'.started
    ensures params in n.pending ==> n'.started || params in n'.pending
  {}

  lemma StepKeepsSent(w: World, s: State, s': State, h: PeerId, input: Input, n': Node, out: set<Msg>)
    requires WellFormed(w, s) && SentInv(w, s) && NodeStep(w, s, s', h, input, n', out)
    ensures WellFormed(w, s') && SentInv(w, s')
  {
    forall l | Leads(w, l) && w.honest[l].threshold >= 1 && QuorumReady(w.honest[l], s'.nodes[l])
      ensures exists params :: SentAndLaunched(w, s', l, params)
    {
      if QuorumReady(w.honest[l], s.nodes[l]) {
        var params :| SentAndLaunched(w, s, l, params);
        if l == h {
          OwnStepKeeps(w, s, s', h, input, n', out, params);
        }
        assert SentAndLaunched(w, s', l, params);
      } else {
        var params := OwnStepSends(w, s, s', h, input, n', out);
      }
    }
  }

  lemma {:induction false} RunSent(w: World, run: seq<State>, i: nat)
    requires IsRun(w, run) && i < |run|
    ensures WellFormed(w, run[i]) && SentInv(w, run[i])
  {
    if i == 0 {
      InitSent(w, run[0]);
    } else {
      RunSent(w, run, i - 1);
      var s, s' := run[i - 1], run[i];
      assert StepTo(w, run, i);
      if h, input, n', out :| NodeStep(w, s, s', h, input, n', out) {
        StepKeepsSent(w, s, s', h, input, n', out);
      } else {
        var msg :| FaultyStep(w, s, s', msg);
        FaultyKeepsSent(w, s, s', msg);
      }
    }
  }

  lemma FaultyKeepsSent(w: World, s: State, s': State, msg: Msg)
    requires WellFormed(w, s) && SentInv(w, s) && FaultyStep(w, s, s', msg)
    ensures WellFormed(w, s') && SentInv(w, s')
  {
    forall l | Leads(w, l) && w.honest[l].threshold >= 1 && QuorumReady(w.honest[l], s'.nodes[l])
      ensures exists params :: SentAndLaunched(w, s', l, params)
    {
      var params :| SentAndLaunched(w, s, l, params);
      assert SentAndLaunched(w, s', l, params);
    }
  }

  ghost predicate StartSentTo(s: State, h: PeerId, q: PeerId) {
    exists payload :: Start(h, q, payload) in s.net
  }

  /** In every state of every run, a leader with a threshold of at least one has sent the start
      message to each other peer it knows exactly when `threshold + 1` holders of key shares are
      on its ready list; the loop cannot run past the moment. */
  lemma StartSentExactly(w: World, run: seq<State>, i: nat, h: PeerId, q: PeerId)
    requires IsRun(w, run) && "" !in w.honest && i < |run|
    requires Leads(w, h) && w.honest[h].threshold >= 1 && q in w.honest[h].peerstore && q != h
    ensures h in run[i].nodes && (StartSentTo(run[i], h, q) <==> QuorumReady(w.honest[h], run[i].nodes[h]))
  {
    RunSent(w, run, i);
    RunInv(w, run, i);
    if QuorumReady(w.honest[h], run[i].nodes[h]) {
      var params :| SentAndLaunched(w, run[i], h, params);
      assert Start(h, q, Params(Some(params))) in StartMsgs(w.honest[h], params);
    }
    if payload :| Start(h, q, payload) in run[i].net {
      assert Chosen(w, w.honest[h], run[i].nodes[h].ready, payload.subset.value);
    }
  }

  /** The params depend on who is ready and who holds key shares, not on the order in which the
      answers arrived or a node lists its peers. */
  lemma ParamsOfSet(hash: Hash, sid: string, c: Conf, ready: seq<PeerId>, params: seq<PeerId>,
                    c': Conf, ready': seq<PeerId>, params': seq<PeerId>)
    requires NoDup(ready) && NoDup(ready') && ToSet(ready) == ToSet(ready')
    requires ToSet(c.keyPeers) == ToSet(c'.keyPeers) && c.threshold == c'.threshold
    requires DistinctRanks(hash, sid, c.keyPeers)
    requires IsStartParams(hash, sid, c, ready, params) && IsStartParams(hash, sid, c', ready', params')
    ensures params == params'
  {
    SameKept(ready, c.keyPeers, ready', c'.keyPeers);
    KeepMembers(ready, c.keyPeers);
    var keep, keep' := Keep(ready, c.keyPeers), Keep(ready', c'.keyPeers);
    var sorted :| IsSessionOrder(hash, sid, keep, sorted) && params == FirstOf(sorted, c.threshold);
    var sorted' :| IsSessionOrder(hash, sid, keep', sorted') && params' == FirstOf(sorted', c.threshold);
    SessionOrderUnique(hash, sid, keep, sorted, keep', sorted');
  }

  lemma SameKept(ready: seq<PeerId>, key: seq<PeerId>, ready': seq<PeerId>, key': seq<PeerId>)
    requires NoDup(ready) && NoDup(ready') && ToSet(ready) == ToSet(ready') && ToSet(key) == ToSet(key')
    ensures NoDup(Keep(ready, key)) && NoDup(Keep(ready', key')) && ToSet(Keep(ready, key)) == ToSet(Keep(ready', key'))
  {
    KeepNoDup(ready, key);
    KeepNoDup(ready', key');
    KeepMembers(ready, key);
    KeepMembers(ready', key');
    forall p ensures p in ToSet(Keep(ready, key)) <==> p in ToSet(Keep(ready', key')) {
      assert p in ready <==> p in ToSet(ready');
      assert p in key <==> p in ToSet(key');
    }
  }
}
