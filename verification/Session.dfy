/** The signing session as a step system: every honest node runs `initiate` or `waitForStart`
    (tss/coordinator.go) around one signing process (tss/ecdsa/signing/signing.go). The network
    is the set of messages sent so far, so a message may be lost, duplicated or reordered.
    Peers that are not honest may send anything, but only under their own name: the receiver
    takes `From` from the connection (comm/p2p/libp2p.go:166). */
module Session {
  import opened Wrappers
  import opened Peers
  import opened PeerOrder

  /** A start message: `Malformed` does not decode at all, and the params inside a decodable one
      may themselves fail to decode (`None`). */
  datatype Payload = Malformed | Params(subset: Option<seq<PeerId>>)

  datatype Msg =
    | Initiate(from: PeerId, to: PeerId)
    | Ready(from: PeerId, to: PeerId)
    | Start(from: PeerId, to: PeerId, payload: Payload)

  /** What one node brings to the session: its host ID, the coordinator it was given or elected,
      its own key share and its own peerstore. Lists of different nodes may be ordered
      differently. */
  datatype Conf = Conf(host: PeerId, coordinator: PeerId, keyPeers: seq<PeerId>, threshold: int,
                       peerstore: seq<PeerId>)

  /** `pending` holds the `startProcess` goroutines that have not reached `Run` yet. */
  datatype Node = Node(ready: seq<PeerId>, listening: bool, pending: multiset<Option<seq<PeerId>>>,
                       started: bool, party: Option<seq<PeerId>>)

  datatype Input =
    | Deliver(msg: Msg)
    | Tick
    | Launch(params: Option<seq<PeerId>>)
    | Leave

  function Joining(host: PeerId): Node { Node([host], true, multiset{}, false, None) }

  // ---- what the signing process decides -------------------------------------------------

  /** A ready message adds its sender once. */
  function AddReady(ready: seq<PeerId>, excluded: seq<PeerId>, from: PeerId): seq<PeerId> {
    if from !in excluded && from !in ready then ready + [from] else ready
  }

  predicate EnoughReady(c: Conf, ready: seq<PeerId>) {
    |Keep(ready, c.keyPeers)| == c.threshold + 1
  }

  /** The loop of `StartParams` stops as soon as the subset has `threshold + 1` members. */
  function FirstOf(sorted: seq<PeerId>, threshold: int): seq<PeerId> {
    if 0 < threshold + 1 <= |sorted| then sorted[..threshold + 1] else sorted
  }

  ghost predicate IsStartParams(hash: Hash, sid: string, c: Conf, ready: seq<PeerId>, params: seq<PeerId>) {
    exists sorted :: IsSessionOrder(hash, sid, Keep(ready, c.keyPeers), sorted)
                     && params == FirstOf(sorted, c.threshold)
  }

  // ---- one step of one node -------------------------------------------------------------

  function InitiateMsgs(c: Conf): set<Msg> {
    set q | q in c.peerstore && q != c.host :: Initiate(c.host, q)
  }

  function StartMsgs(c: Conf, params: seq<PeerId>): set<Msg> {
    set q | q in c.peerstore && q != c.host :: Start(c.host, q, Params(Some(params)))
  }

  ghost predicate OnReady(hash: Hash, sid: string, c: Conf, n: Node, from: PeerId, n': Node, out: set<Msg>) {
    var ready := AddReady(n.ready, [], from);
    if EnoughReady(c, ready) then
      exists params :: IsStartParams(hash, sid, c, ready, params)
                       && n' == n.(ready := ready, pending := n.pending + multiset{Some(params)})
                       && out == StartMsgs(c, params)
    else
      n' == n.(ready := ready) && out == {}
  }

  ghost predicate OnInitiate(c: Conf, n: Node, from: PeerId, n': Node, out: set<Msg>) {
    && n' == n
    && out == if (c.coordinator != "" && from != c.coordinator) || from == c.host then {} else {Ready(c.host, from)}
  }

  ghost predicate OnStart(c: Conf, n: Node, from: PeerId, payload: Payload, n': Node, out: set<Msg>) {
    && out == {}
    && n' == if c.coordinator != "" && from != c.coordinator then n
             else if payload.Malformed? then n.(listening := false)
             else n.(pending := n.pending + multiset{payload.subset})
  }

  /** `Run`: only the first launch passes the `Started` guard, and it makes the node a party
      only if the node is in the subset it was given. */
  ghost predicate OnLaunch(c: Conf, n: Node, params: Option<seq<PeerId>>, n': Node) {
    && params in n.pending
    && var rest := n.(pending := n.pending - multiset{params});
       n' == if n.started then rest
             else if params.Some? && c.host in params.value then rest.(started := true, party := params)
             else rest.(started := true)
  }

  ghost predicate LocalStep(hash: Hash, sid: string, c: Conf, n: Node, input: Input, n': Node, out: set<Msg>) {
    match input
    case Launch(params) => OnLaunch(c, n, params, n') && out == {}
    case Leave => n' == n.(listening := false) && out == {}
    case Tick => n' == n && out == if n.listening && c.coordinator == c.host then InitiateMsgs(c) else {}
    case Deliver(msg) =>
      if !n.listening then n' == n && out == {}
      else match msg
        case Ready(from, _) =>
          if c.coordinator == c.host then OnReady(hash, sid, c, n, from, n', out) else n' == n && out == {}
        case Initiate(from, _) =>
          if c.coordinator != c.host then OnInitiate(c, n, from, n', out) else n' == n && out == {}
        case Start(from, _, payload) =>
          if c.coordinator != c.host then OnStart(c, n, from, payload, n', out) else n' == n && out == {}
  }

  // ---- the whole system -----------------------------------------------------------------

  datatype World = World(hash: Hash, sid: string, honest: map<PeerId, Conf>)

  datatype State = State(nodes: map<PeerId, Node>, net: set<Msg>)

  ghost predicate Init(w: World, s: State) {
    && (forall h | h in w.honest :: w.honest[h].host == h)
    && s.nodes.Keys == w.honest.Keys
    && (forall h | h in s.nodes :: s.nodes[h] == Joining(h))
    && (forall m | m in s.net :: m.from !in w.honest)
  }

  ghost predicate NodeStep(w: World, s: State, s': State, h: PeerId, input: Input, n': Node, out: set<Msg>) {
    && h in w.honest && h in s.nodes
    && (input.Deliver? ==> input.msg in s.net && input.msg.to == h)
    && LocalStep(w.hash, w.sid, w.honest[h], s.nodes[h], input, n', out)
    && s' == State(s.nodes[h := n'], s.net + out)
  }

  ghost predicate FaultyStep(w: World, s: State, s': State, msg: Msg) {
    msg.from !in w.honest && s' == s.(net := s.net + {msg})
  }

  ghost predicate Next(w: World, s: State, s': State) {
    || (exists h, input, n', out :: NodeStep(w, s, s', h, input, n', out))
    || (exists msg :: FaultyStep(w, s, s', msg))
  }

  ghost predicate StepTo(w: World, run: seq<State>, i: nat)
    requires 0 < i < |run|
  {
    Next(w, run[i - 1], run[i])
  }

  ghost predicate IsRun(w: World, run: seq<State>) {
    && run != [] && Init(w, run[0])
    && forall i | 0 < i < |run| :: StepTo(w, run, i)
  }

  // ---- invariants -----------------------------------------------------------------------

  /** `params` lists, in session order, the first `threshold + 1` ready peers that hold a key
      share. Ready peers are only ever appended, so these never change. */
  ghost predicate Chosen(w: World, c: Conf, ready: seq<PeerId>, params: seq<PeerId>) {
    var keep := Keep(ready, c.keyPeers);
    0 <= c.threshold + 1 <= |keep| && IsSessionOrder(w.hash, w.sid, keep[..c.threshold + 1], params)
  }

  ghost predicate Leads(w: World, h: PeerId) { h in w.honest && w.honest[h].coordinator == h }

  ghost predicate WellFormed(w: World, s: State) {
    s.nodes.Keys == w.honest.Keys && forall h | h in w.honest :: w.honest[h].host == h
  }

  /** The ready list of a leader: itself, then senders of ready messages, each once. */
  ghost predicate ReadyInv(w: World, s: State)
    requires WellFormed(w, s)
  {
    forall h | Leads(w, h) ::
      && NoDup(s.nodes[h].ready)
      && forall p | p in s.nodes[h].ready :: p == h || Ready(p, h) in s.net
  }

  /** A ready message of an honest node answers an initiate message of a peer it accepts as
      coordinator. */
  ghost predicate AnswerInv(w: World, s: State) {
    forall m | m in s.net && m.Ready? && m.from in w.honest ::
      && w.honest[m.from].coordinator in {"", m.to}
      && Initiate(m.to, m.from) in s.net
  }

  /** Only leaders send start messages, and they carry chosen params. */
  ghost predicate StartInv(w: World, s: State)
    requires WellFormed(w, s)
  {
    forall m | m in s.net && m.Start? && m.from in w.honest ::
      && Leads(w, m.from)
      && m.payload.Params? && m.payload.subset.Some?
      && Chosen(w, w.honest[m.from], s.nodes[m.from].ready, m.payload.subset.value)
  }

  /** The node is about to run, or runs, with these params. */
  predicate Uses(n: Node, params: Option<seq<PeerId>>) {
    params in n.pending || (n.party.Some? && params == n.party)
  }

  /** What a node with an honest coordinator is about to run, or runs, was chosen by it. */
  ghost predicate FollowInv(w: World, s: State)
    requires WellFormed(w, s)
  {
    forall h, params | h in w.honest && w.honest[h].coordinator in w.honest
        && Uses(s.nodes[h], params) ::
      && Leads(w, w.honest[h].coordinator)
      && params.Some?
      && Chosen(w, w.honest[w.honest[h].coordinator], s.nodes[w.honest[h].coordinator].ready, params.value)
  }

  ghost predicate PartyInv(w: World, s: State)
    requires WellFormed(w, s)
  {
    forall h | h in w.honest && s.nodes[h].party.Some? ::
      s.nodes[h].started && h in s.nodes[h].party.value
  }

  ghost predicate Inv(w: World, s: State) {
    && "" !in w.honest
    && WellFormed(w, s) && ReadyInv(w, s) && AnswerInv(w, s) && StartInv(w, s) && FollowInv(w, s) && PartyInv(w, s)
  }

  /** The chosen params stay chosen when the ready list grows. */
  lemma ChosenGrows(w: World, c: Conf, ready: seq<PeerId>, from: PeerId, params: seq<PeerId>)
    requires Chosen(w, c, ready, params)
    ensures Chosen(w, c, AddReady(ready, [], from), params)
  {
    KeepSnoc(ready, from, c.keyPeers);
    var k := c.threshold + 1;
    var keep, keep' := Keep(ready, c.keyPeers), Keep(AddReady(ready, [], from), c.keyPeers);
    assert keep'[..k] == keep[..k];
  }

  /** When `Ready` holds, `StartParams` returns all ready key-share peers, sorted. */
  lemma FiringChooses(w: World, c: Conf, ready: seq<PeerId>, params: seq<PeerId>)
    requires EnoughReady(c, ready) && IsStartParams(w.hash, w.sid, c, ready, params)
    ensures Chosen(w, c, ready, params)
  {
    var keep := Keep(ready, c.keyPeers);
    var sorted :| IsSessionOrder(w.hash, w.sid, keep, sorted) && params == FirstOf(sorted, c.threshold);
    assert |sorted| == |multiset(sorted)| == |multiset(keep)| == |keep|;
    assert keep[..c.threshold + 1] == keep && sorted[..|keep|] == sorted;
  }

  // ---- the invariant holds in every run -------------------------------------------------

  lemma InitInv(w: World, s: State)
    requires Init(w, s) && "" !in w.honest
    ensures Inv(w, s)
  {}

  lemma FaultyKeepsInv(w: World, s: State, s': State, msg: Msg)
    requires Inv(w, s) && FaultyStep(w, s, s', msg)
    ensures Inv(w, s')
  {}

  /** What a node sends is sent under its own name. */
  lemma OwnName(w: World, h: PeerId, n: Node, input: Input, n': Node, out: set<Msg>)
    requires h in w.honest && w.honest[h].host == h
    requires LocalStep(w.hash, w.sid, w.honest[h], n, input, n', out)
    ensures forall m | m in out :: m.from == h
  {}

  /** A ready list only ever changes by a ready message that was delivered to a leader. */
  lemma ReadyListStep(hash: Hash, sid: string, c: Conf, n: Node, input: Input, n': Node, out: set<Msg>)
    requires LocalStep(hash, sid, c, n, input, n', out) && n'.ready != n.ready
    ensures input.Deliver? && input.msg.Ready? && c.coordinator == c.host
    ensures n'.ready == n.ready + [input.msg.from] && input.msg.from !in n.ready
  {}

  lemma StepKeepsReady(w: World, s: State, s': State, h: PeerId, input: Input, n': Node, out: set<Msg>)
    requires Inv(w, s) && NodeStep(w, s, s', h, input, n', out)
    ensures WellFormed(w, s') && ReadyInv(w, s')
  {
    if n'.ready != s.nodes[h].ready {
      ReadyListStep(w.hash, w.sid, w.honest[h], s.nodes[h], input, n', out);
      assert input.msg == Ready(input.msg.from, h);
      ReadyInvGrows(w, s, s', h, n', input.msg.from);
    } else {
      ReadyInvStays(w, s, s', h, n');
    }
  }

  lemma ReadyInvStays(w: World, s: State, s': State, h: PeerId, n': Node)
    requires WellFormed(w, s) && ReadyInv(w, s) && h in w.honest
    requires s'.nodes == s.nodes[h := n'] && s.net <= s'.net && n'.ready == s.nodes[h].ready
    ensures WellFormed(w, s') && ReadyInv(w, s')
  {}

  lemma ReadyInvGrows(w: World, s: State, s': State, h: PeerId, n': Node, from: PeerId)
    requires WellFormed(w, s) && ReadyInv(w, s) && h in w.honest
    requires s'.nodes == s.nodes[h := n'] && s.net <= s'.net && Ready(from, h) in s.net
    requires n'.ready == s.nodes[h].ready + [from] && from !in s.nodes[h].ready
    ensures WellFormed(w, s') && ReadyInv(w, s')
  {
    forall l | Leads(w, l)
      ensures NoDup(s'.nodes[l].ready) && forall p | p in s'.nodes[l].ready :: p == l || Ready(p, l) in s'.net
    {
      assert NoDup(s.nodes[l].ready) && forall p | p in s.nodes[l].ready :: p == l || Ready(p, l) in s.net;
    }
  }

  lemma StepKeepsAnswers(w: World, s: State, s': State, h: PeerId, input: Input, n': Node, out: set<Msg>)
    requires Inv(w, s) && NodeStep(w, s, s', h, input, n', out)
    ensures AnswerInv(w, s')
  {
    OwnName(w, h, s.nodes[h], input, n', out);
    forall m | m in out && m.Ready?
      ensures w.honest[h].coordinator in {"", m.to} && Initiate(m.to, m.from) in s.net
    {
      assert input.Deliver? && input.msg.Initiate? && out == {Ready(h, input.msg.from)};
    }
  }

  lemma StepKeepsParty(w: World, s: State, s': State, h: PeerId, input: Input, n': Node, out: set<Msg>)
    requires Inv(w, s) && NodeStep(w, s, s', h, input, n', out)
    ensures PartyInv(w, s')
  {
    if input.Deliver? && n' != s.nodes[h] {
      assert n'.party == s.nodes[h].party && n'.started == s.nodes[h].started;
    }
  }

  lemma StepGrows(w: World, s: State, s': State, h: PeerId, input: Input, n': Node, out: set<Msg>, c: PeerId,
                  params: seq<PeerId>)
    requires Inv(w, s) && NodeStep(w, s, s', h, input, n', out) && c in w.honest
    requires Chosen(w, w.honest[c], s.nodes[c].ready, params)
    ensures Chosen(w, w.honest[c], s'.nodes[c].ready, params)
  {
    if c == h && n'.ready != s.nodes[h].ready {
      ChosenGrows(w, w.honest[c], s.nodes[c].ready, input.msg.from, params);
    }
  }

  /** A step that fires the start message chooses the params from the ready list it ends with. */
  lemma FiringStep(w: World, s: State, s': State, h: PeerId, input: Input, n': Node, out: set<Msg>, params: seq<PeerId>)
    requires Inv(w, s) && NodeStep(w, s, s', h, input, n', out)
    requires input.Deliver? && input.msg.Ready? && Leads(w, h) && s.nodes[h].listening
    requires (Some(params) in n'.pending && Some(params) !in s.nodes[h].pending)
             || exists q :: Start(h, q, Params(Some(params))) in out
    ensures Chosen(w, w.honest[h], n'.ready, params)
  {
    var c := w.honest[h];
    var ready := AddReady(s.nodes[h].ready, [], input.msg.from);
    assert EnoughReady(c, ready);
    var ps :| IsStartParams(w.hash, w.sid, c, ready, ps)
              && n' == s.nodes[h].(ready := ready, pending := s.nodes[h].pending + multiset{Some(ps)})
              && out == StartMsgs(c, ps);
    FiringChooses(w, c, ready, ps);
  }

  lemma StepKeepsStart(w: World, s: State, s': State, h: PeerId, input: Input, n': Node, out: set<Msg>)
    requires Inv(w, s) && NodeStep(w, s, s', h, input, n', out)
    ensures WellFormed(w, s') && StartInv(w, s')
  {
    OwnName(w, h, s.nodes[h], input, n', out);
    forall m | m in s'.net && m.Start? && m.from in w.honest
      ensures Leads(w, m.from) && m.payload.Params? && m.payload.subset.Some?
              && Chosen(w, w.honest[m.from], s'.nodes[m.from].ready, m.payload.subset.value)
    {
      if m in s.net {
        StepGrows(w, s, s', h, input, n', out, m.from, m.payload.subset.value);
      } else {
        assert m in out;
        assert input.Deliver? && input.msg.Ready? && Leads(w, h);
        FiringStep(w, s, s', h, input, n', out, m.payload.subset.value);
      }
    }
  }

  lemma StepKeepsFollow(w: World, s: State, s': State, h: PeerId, input: Input, n': Node, out: set<Msg>)
    requires Inv(w, s) && NodeStep(w, s, s', h, input, n', out)
    ensures WellFormed(w, s') && FollowInv(w, s')
  {
    forall x, params | x in w.honest && w.honest[x].coordinator in w.honest
        && Uses(s'.nodes[x], params)
      ensures Leads(w, w.honest[x].coordinator) && params.Some?
              && Chosen(w, w.honest[w.honest[x].coordinator], s'.nodes[w.honest[x].coordinator].ready, params.value)
    {
      var c := w.honest[x].coordinator;
      if Uses(s.nodes[x], params) {
        StepGrows(w, s, s', h, input, n', out, c, params.value);
      } else {
        FreshPending(w, s, s', h, input, n', out, params);
        assert x == h;
      }
    }
  }

  /** Params new to a node either fired at it or came in a start message of its coordinator. */
  lemma FreshPending(w: World, s: State, s': State, h: PeerId, input: Input, n': Node, out: set<Msg>,
                     params: Option<seq<PeerId>>)
    requires Inv(w, s) && NodeStep(w, s, s', h, input, n', out)
    requires w.honest[h].coordinator in w.honest
    requires Uses(n', params) && !Uses(s.nodes[h], params)
    ensures Leads(w, w.honest[h].coordinator) && params.Some?
    ensures Chosen(w, w.honest[w.honest[h].coordinator], s'.nodes[w.honest[h].coordinator].ready, params.value)
  {
    assert input.Deliver? && n'.party == s.nodes[h].party && n'.pending != s.nodes[h].pending;
    if w.honest[h].coordinator == h {
      assert input.msg.Ready? && params.Some?;
      FiringStep(w, s, s', h, input, n', out, params.value);
    } else {
      DeliveredStart(w, s, s', h, input, n', out, params);
    }
  }

  lemma DeliveredStart(w: World, s: State, s': State, h: PeerId, input: Input, n': Node, out: set<Msg>,
                       params: Option<seq<PeerId>>)
    requires Inv(w, s) && NodeStep(w, s, s', h, input, n', out)
    requires w.honest[h].coordinator in w.honest && w.honest[h].coordinator != h
    requires input.Deliver? && params in n'.pending && params !in s.nodes[h].pending
    ensures Leads(w, w.honest[h].coordinator) && params.Some?
    ensures Chosen(w, w.honest[w.honest[h].coordinator], s'.nodes[w.honest[h].coordinator].ready, params.value)
  {
    var c := w.honest[h].coordinator;
    assert input.msg.Start? && input.msg.from == c;
    assert params == input.msg.payload.subset;
    StepGrows(w, s, s', h, input, n', out, c, params.value);
  }

  lemma NextKeepsInv(w: World, s: State, s': State)
    requires Inv(w, s) && Next(w, s, s')
    ensures Inv(w, s')
  {
    if h, input, n', out :| NodeStep(w, s, s', h, input, n', out) {
      StepKeepsReady(w, s, s', h, input, n', out);
      StepKeepsAnswers(w, s, s', h, input, n', out);
      StepKeepsParty(w, s, s', h, input, n', out);
      StepKeepsStart(w, s, s', h, input, n', out);
      StepKeepsFollow(w, s, s', h, input, n', out);
    } else {
      var msg :| FaultyStep(w, s, s', msg);
      FaultyKeepsInv(w, s, s', msg);
    }
  }

  lemma {:induction false} RunInv(w: World, run: seq<State>, i: nat)
    requires IsRun(w, run) && "" !in w.honest && i < |run|
    ensures Inv(w, run[i])
  {
    if i == 0 {
      InitInv(w, run[0]);
    } else {
      RunInv(w, run, i - 1);
      assert StepTo(w, run, i);
      NextKeepsInv(w, run[i - 1], run[i]);
    }
  }

  // ---- who starts a node ----------------------------------------------------------------

  /** What a node that follows somebody else is about to run, or runs, came in a start message of
      that very peer, honest or not. */
  ghost predicate CoordinatorInv(w: World, s: State)
    requires WellFormed(w, s)
  {
    forall h, params | h in w.honest && w.honest[h].coordinator !in {"", h} && Uses(s.nodes[h], params) ::
      Start(w.honest[h].coordinator, h, Params(params)) in s.net
  }

  lemma StepKeepsCoordinator(w: World, s: State, s': State, h: PeerId, input: Input, n': Node, out: set<Msg>)
    requires WellFormed(w, s) && CoordinatorInv(w, s) && NodeStep(w, s, s', h, input, n', out)
    ensures WellFormed(w, s') && CoordinatorInv(w, s')
  {
    forall x, params | x in w.honest && w.honest[x].coordinator !in {"", x} && Uses(s'.nodes[x], params)
      ensures Start(w.honest[x].coordinator, x, Params(params)) in s'.net
    {
      if !Uses(s.nodes[x], params) {
        NewlyUsed(w, s, s', h, input, n', out, params);
      }
    }
  }

  lemma NewlyUsed(w: World, s: State, s': State, h: PeerId, input: Input, n': Node, out: set<Msg>,
                  params: Option<seq<PeerId>>)
    requires WellFormed(w, s) && NodeStep(w, s, s', h, input, n', out)
    requires w.honest[h].coordinator !in {"", h} && Uses(n', params) && !Uses(s.nodes[h], params)
    ensures Start(w.honest[h].coordinator, h, Params(params)) in s.net
  {
    assert input.Deliver? && input.msg.Start? && input.msg.from == w.honest[h].coordinator;
    assert input.msg == Start(w.honest[h].coordinator, h, Params(params));
  }

  lemma {:induction false} RunCoordinatorInv(w: World, run: seq<State>, i: nat)
    requires IsRun(w, run) && i < |run|
    ensures WellFormed(w, run[i]) && CoordinatorInv(w, run[i])
  {
    if i > 0 {
      RunCoordinatorInv(w, run, i - 1);
      var s, s' := run[i - 1], run[i];
      assert StepTo(w, run, i);
      if h, input, n', out :| NodeStep(w, s, s', h, input, n', out) {
        StepKeepsCoordinator(w, s, s', h, input, n', out);
      }
    }
  }

  // ---- what only grows ------------------------------------------------------------------

  lemma PartyStays(w: World, s: State, s': State, h: PeerId)
    requires WellFormed(w, s) && PartyInv(w, s) && Next(w, s, s')
    requires h in w.honest && s.nodes[h].party.Some?
    ensures h in s'.nodes && s'.nodes[h].party == s.nodes[h].party
  {
    if k, input, n', out :| NodeStep(w, s, s', k, input, n', out) {
      if k == h {
        assert n'.party == s.nodes[h].party;
      }
    }
  }

  lemma PartyStaysInRun(w: World, run: seq<State>, h: PeerId, j: nat)
    requires IsRun(w, run) && "" !in w.honest && j + 1 < |run| && h in w.honest
    requires h in run[j].nodes && run[j].nodes[h].party.Some?
    ensures h in run[j + 1].nodes && run[j + 1].nodes[h].party == run[j].nodes[h].party
  {
    RunInv(w, run, j);
    assert StepTo(w, run, j + 1);
    PartyStays(w, run[j], run[j + 1], h);
  }

  /** The `Started` guard: a node that has become a party stays that party to the end. */
  lemma {:induction false} OnceAParty(w: World, run: seq<State>, h: PeerId, i: nat, j: nat)
    requires IsRun(w, run) && "" !in w.honest && i <= j < |run| && h in w.honest
    requires h in run[i].nodes && run[i].nodes[h].party.Some?
    ensures h in run[j].nodes && run[j].nodes[h].party == run[i].nodes[h].party
    decreases j - i
  {
    if i < j {
      OnceAParty(w, run, h, i, j - 1);
      PartyStaysInRun(w, run, h, j - 1);
    }
  }

  lemma {:induction false} NetGrows(w: World, run: seq<State>, i: nat, j: nat)
    requires IsRun(w, run) && i <= j < |run|
    ensures run[i].net <= run[j].net
    decreases j - i
  {
    if i < j {
      NetGrows(w, run, i, j - 1);
      assert StepTo(w, run, j);
    }
  }

  // ---- theorems -------------------------------------------------------------------------

  /** What every chosen subset is. */
  lemma ChosenSubset(w: World, c: Conf, ready: seq<PeerId>, params: seq<PeerId>)
    requires NoDup(ready) && Chosen(w, c, ready, params)
    ensures NoDup(params) && |params| == c.threshold + 1
    ensures forall p | p in params :: p in ready && p in c.keyPeers
  {
    var keep := Keep(ready, c.keyPeers);
    var first := keep[..c.threshold + 1];
    KeepNoDup(ready, c.keyPeers);
    KeepMembers(ready, c.keyPeers);
    PermutationMembers(first, params);
    forall p | p in params ensures p in ready && p in c.keyPeers {
      assert p in ToSet(first);
    }
  }

  lemma ChosenTwice(w: World, c: Conf, ready: seq<PeerId>, p: seq<PeerId>, q: seq<PeerId>)
    requires NoDup(ready) && Chosen(w, c, ready, p) && Chosen(w, c, ready, q)
    ensures ToSet(p) == ToSet(q)
    ensures DistinctRanks(w.hash, w.sid, c.keyPeers) ==> p == q
  {
    var first := Keep(ready, c.keyPeers)[..c.threshold + 1];
    PermutationMembers(first, p);
    PermutationMembers(first, q);
    if DistinctRanks(w.hash, w.sid, c.keyPeers) {
      KeepMembers(ready, c.keyPeers);
      KeepNoDup(ready, c.keyPeers);
      SessionOrderUnique(w.hash, w.sid, first, p, first, q);
    }
  }

  /** Node `h` is a party with subset `p` at step `i` of the run. */
  ghost predicate IsParty(w: World, run: seq<State>, i: nat, h: PeerId, p: seq<PeerId>) {
    i < |run| && h in w.honest && h in run[i].nodes && run[i].nodes[h].party == Some(p)
  }

  /** What a party can rely on when its coordinator `c` is honest: `c` leads the session, the
      subset has exactly `threshold + 1` distinct key-share peers of `c`, the node is one of
      them, and every other member has told `c` that it is ready; an honest member did so only
      after `c` asked it, and accepts `c` as coordinator. */
  lemma PartySubset(w: World, run: seq<State>, i: nat, h: PeerId, p: seq<PeerId>)
    requires IsRun(w, run) && "" !in w.honest && IsParty(w, run, i, h, p)
    requires w.honest[h].coordinator in w.honest
    ensures var c := w.honest[h].coordinator;
      && Leads(w, c)
      && NoDup(p) && |p| == w.honest[c].threshold + 1 && h in p
      && (forall m | m in p :: m in w.honest[c].keyPeers)
      && (forall m | m in p && m != c :: Ready(m, c) in run[i].net)
      && (forall m | m in p && m != c && m in w.honest ::
            Initiate(c, m) in run[i].net && w.honest[m].coordinator in {"", c})
  {
    RunInv(w, run, i);
    var c := w.honest[h].coordinator;
    assert Uses(run[i].nodes[h], Some(p));
    ChosenSubset(w, w.honest[c], run[i].nodes[c].ready, p);
  }

  /** A party that follows somebody else was told its subset by that very peer in a start message,
      whether that peer is honest or not. */
  lemma OnlyCoordinatorStarts(w: World, run: seq<State>, i: nat, h: PeerId, p: seq<PeerId>)
    requires IsRun(w, run) && IsParty(w, run, i, h, p) && w.honest[h].coordinator !in {"", h}
    ensures Start(w.honest[h].coordinator, h, Params(Some(p))) in run[i].net
  {
    RunCoordinatorInv(w, run, i);
    assert Uses(run[i].nodes[h], Some(p));
  }

  lemma AgreementInState(w: World, s: State, a: PeerId, p: seq<PeerId>, b: PeerId, q: seq<PeerId>)
    requires Inv(w, s) && a in w.honest && b in w.honest
    requires s.nodes[a].party == Some(p) && s.nodes[b].party == Some(q)
    requires w.honest[a].coordinator == w.honest[b].coordinator && w.honest[a].coordinator in w.honest
    ensures ToSet(p) == ToSet(q) && a in q && b in p
    ensures DistinctRanks(w.hash, w.sid, w.honest[w.honest[a].coordinator].keyPeers) ==> p == q
  {
    var c := w.honest[a].coordinator;
    assert Uses(s.nodes[a], Some(p)) && Uses(s.nodes[b], Some(q));
    ChosenTwice(w, w.honest[c], s.nodes[c].ready, p, q);
    assert a in ToSet(p) && b in ToSet(q);
  }

  /** Agreement: all nodes that follow one honest coordinator and ever become a party, at
      whatever points of the run, use the same subset; with distinct hash prefixes even in the
      same order. */
  lemma Agreement(w: World, run: seq<State>, i: nat, a: PeerId, p: seq<PeerId>, j: nat, b: PeerId, q: seq<PeerId>)
    requires IsRun(w, run) && "" !in w.honest
    requires IsParty(w, run, i, a, p) && IsParty(w, run, j, b, q)
    requires w.honest[a].coordinator == w.honest[b].coordinator && w.honest[a].coordinator in w.honest
    ensures ToSet(p) == ToSet(q) && a in q && b in p
    ensures DistinctRanks(w.hash, w.sid, w.honest[w.honest[a].coordinator].keyPeers) ==> p == q
  {
    var k := if i < j then j else i;
    OnceAParty(w, run, a, i, k);
    OnceAParty(w, run, b, j, k);
    RunInv(w, run, k);
    AgreementInState(w, run[k], a, p, b, q);
  }

  /** A node outside the subset that some party uses never becomes a party. */
  lemma OutsiderNeverJoins(w: World, run: seq<State>, i: nat, a: PeerId, p: seq<PeerId>, j: nat, b: PeerId)
    requires IsRun(w, run) && "" !in w.honest && IsParty(w, run, i, a, p)
    requires j < |run| && b in w.honest && b in run[j].nodes && b !in p
    requires w.honest[a].coordinator == w.honest[b].coordinator && w.honest[a].coordinator in w.honest
    ensures run[j].nodes[b].party.None?
  {
    if run[j].nodes[b].party.Some? {
      var q := run[j].nodes[b].party.value;
      Agreement(w, run, i, a, p, j, b, q);
    }
  }

  /** Although the loop goes on after the start message and may send it again, all start messages
      of one honest coordinator name the same subset. */
  lemma SingleSubset(w: World, run: seq<State>, i: nat, m: Msg, j: nat, m': Msg)
    requires IsRun(w, run) && "" !in w.honest && i < |run| && j < |run|
    requires m in run[i].net && m.Start? && m' in run[j].net && m'.Start?
    requires m.from == m'.from && m.from in w.honest
    ensures m.payload.Params? && m.payload.subset.Some? && m'.payload.Params? && m'.payload.subset.Some?
    ensures ToSet(m.payload.subset.value) == ToSet(m'.payload.subset.value)
    ensures DistinctRanks(w.hash, w.sid, w.honest[m.from].keyPeers) ==> m.payload == m'.payload
  {
    var k := if i < j then j else i;
    NetGrows(w, run, i, k);
    NetGrows(w, run, j, k);
    RunInv(w, run, k);
    var c := m.from;
    ChosenTwice(w, w.honest[c], run[k].nodes[c].ready, m.payload.subset.value, m'.payload.subset.value);
  }

  /** Every node elected its coordinator from its own key-share list, all lists hold the same
      peers, and no two of them share a hash prefix. */
  ghost predicate Elected(w: World) {
    && (forall h | h in w.honest ::
          IsLeader(w.hash, w.sid, w.honest[h].keyPeers, w.honest[h].coordinator)
          && DistinctRanks(w.hash, w.sid, w.honest[h].keyPeers))
    && (forall h, g | h in w.honest && g in w.honest ::
          ToSet(w.honest[h].keyPeers) == ToSet(w.honest[g].keyPeers))
  }

  lemma ElectedSame(w: World, a: PeerId, b: PeerId)
    requires Elected(w) && a in w.honest && b in w.honest
    ensures w.honest[a].coordinator == w.honest[b].coordinator
  {
    var pa, pb := w.honest[a].keyPeers, w.honest[b].keyPeers;
    ElectionOrderIndependent(w.hash, w.sid, pa);
    assert !TopTie(w.hash, w.sid, pa);
    assert ToSet(pb) == ToSet(pa);
  }

  /** With an elected coordinator no two nodes of the session can be parties to different
      subsets, although each node ran the election on its own ordering of the peers. */
  lemma ElectedAgreement(w: World, run: seq<State>, i: nat, a: PeerId, p: seq<PeerId>, j: nat, b: PeerId,
                         q: seq<PeerId>)
    requires IsRun(w, run) && "" !in w.honest && Elected(w)
    requires IsParty(w, run, i, a, p) && IsParty(w, run, j, b, q)
    requires w.honest[a].coordinator in w.honest
    ensures p == q
  {
    ElectedSame(w, a, b);
    Agreement(w, run, i, a, p, j, b, q);
  }
}
