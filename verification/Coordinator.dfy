/** The two event loops of tss/coordinator.go, `initiate` and `waitForStart`. A `select` picks
    among whatever is available; here the picks are given as a sequence of events, and the loops
    are proved for every such sequence. */
module Coordinator {
  import opened Wrappers
  import opened Peers
  import opened PeerOrder
  import opened Process
  import opened Readiness
  import S = Session

  datatype Content = InitiateMsg | ReadyMsg | StartMsg(params: StartParams)

  datatype Envelope = Envelope(to: PeerId, content: Content)

  /** Messages to all of `peers` except the sender itself. */
  function Envelopes(host: PeerId, peers: seq<PeerId>, content: Content): seq<Envelope> {
    if peers == [] then []
    else
      var init := Envelopes(host, peers[..|peers| - 1], content);
      var last := peers[|peers| - 1];
      if last == host then init else init + [Envelope(last, content)]
  }

  class Communication {
    const host: PeerId
    var sent: seq<Envelope>

    constructor (host: PeerId)
      ensures this.host == host && sent == []
    {
      this.host, sent := host, [];
    }

    method Broadcast(peers: seq<PeerId>, content: Content)
      modifies this
      ensures sent == old(sent) + Envelopes(host, peers, content)
    {
      for i := 0 to |peers|
        invariant sent == old(sent) + Envelopes(host, peers[..i], content)
      {
        assert peers[..i + 1][..i] == peers[..i];
        if peers[i] != host {
          sent := sent + [Envelope(peers[i], content)];
        }
      }
      assert peers[..|peers|] == peers;
    }
  }

  /** How a loop was left; `Unfinished` means the given events ran out first. */
  datatype Exit = Unfinished | Returned | Failed

  // ---- who coordinates ------------------------------------------------------------------

  /** The coordinator of a call: the one it was given, or else the elected one. */
  method ChooseCoordinator(process: TssProcess, given: PeerId) returns (coordinator: PeerId)
    ensures given != "" ==> coordinator == given
    ensures given == "" ==>
              var candidates := match process.kind
                                case Signing => ToSet(process.conf.keyPeers)
                                case Keygen => ToSet(process.conf.peerstore)
                                case Resharing => ToSet(process.conf.keyPeers) * ToSet(process.conf.peerstore);
              if candidates == {} then coordinator == ""
              else coordinator in candidates && forall p | p in candidates ::
                     process.hash(p + process.sid) <= process.hash(coordinator + process.sid)
  {
    if given != "" {
      return given;
    }
    var peers := process.ValidCoordinators();
    coordinator := PeerOrder.Coordinator(process.hash, process.sid, peers);
    CandidateSet(process.kind, process.conf);
    EmptyList(peers);
    assert forall p :: p in peers <==> p in ToSet(peers);
  }

  lemma CandidateSet(kind: Kind, c: S.Conf)
    ensures ToSet(Candidates(kind, c)) ==
            match kind
            case Signing => ToSet(c.keyPeers)
            case Keygen => ToSet(c.peerstore)
            case Resharing => ToSet(c.keyPeers) * ToSet(c.peerstore)
  {
    KeepMembers(c.peerstore, c.keyPeers);
  }

  /** Two nodes that hold the same key-share peers and the same peerstore, in any order, elect the
      same coordinator for any kind of process if no two of its candidates tie for the top. */
  lemma SameCoordinator(kind: Kind, hash: Hash, sid: string, c: S.Conf, d: S.Conf, l: PeerId, l': PeerId)
    requires ToSet(c.keyPeers) == ToSet(d.keyPeers) && ToSet(c.peerstore) == ToSet(d.peerstore)
    requires !TopTie(hash, sid, Candidates(kind, c))
    requires IsLeader(hash, sid, Candidates(kind, c), l) && IsLeader(hash, sid, Candidates(kind, d), l')
    ensures l == l'
  {
    CandidateSet(kind, c);
    CandidateSet(kind, d);
    ElectionOrderIndependent(hash, sid, Candidates(kind, c));
  }

  /** A resharing node has nobody to elect, and then waits for whichever peer sends it a start
      message first, exactly if it knows of no old member in its peerstore, as a newcomer without a
      key share. */
  lemma NewcomerHasNoCoordinator(hash: Hash, sid: string, c: S.Conf, l: PeerId)
    requires "" !in c.peerstore
    ensures IsLeader(hash, sid, Candidates(Resharing, c), l) ==>
              (l == "" <==> ToSet(c.keyPeers) * ToSet(c.peerstore) == {})
  {
    CandidateSet(Resharing, c);
    assert l in Candidates(Resharing, c) ==> l in ToSet(Candidates(Resharing, c));
    EmptyList(Candidates(Resharing, c));
  }

  lemma EmptyList(peers: seq<PeerId>)
    ensures peers == [] <==> ToSet(peers) == {}
  {
    if peers != [] {
      assert peers[0] in ToSet(peers);
    }
  }

  // ---- initiate -------------------------------------------------------------------------

  datatype InitiateEvent = ReadyFrom(from: PeerId) | Ticked | ProcessEnded | Done

  /** One round of the loop: the event, and the params of the start message if one went out. */
  datatype Round = Round(event: InitiateEvent, params: Option<StartParams>)

  function Senders(log: seq<Round>): seq<PeerId> {
    if log == [] then []
    else
      var init := Senders(log[..|log| - 1]);
      var last := log[|log| - 1].event;
      if last.ReadyFrom? then init + [last.from] else init
  }

  function RoundSends(c: S.Conf, round: Round): seq<Envelope> {
    match round.event
    case Ticked => Envelopes(c.host, c.peerstore, InitiateMsg)
    case ReadyFrom(_) =>
      if round.params.Some? then Envelopes(c.host, c.peerstore, StartMsg(round.params.value)) else []
    case _ => []
  }

  function LogSends(c: S.Conf, log: seq<Round>): seq<Envelope> {
    if log == [] then [] else LogSends(c, log[..|log| - 1]) + RoundSends(c, log[|log| - 1])
  }

  /** A start goes out in exactly those rounds that take a ready message after which the process
      is ready, and carries params the process gives for the ready list of that round. */
  ghost predicate RoundOk(p: TssProcess, excluded: seq<PeerId>, before: seq<Round>, round: Round) {
    var ready := ReadyAfter(p.conf.host, excluded, Senders(before + [round]));
    && (round.params.Some? <==> round.event.ReadyFrom? && ReadyTest(p.kind, p.conf, ready, excluded) == Some(true))
    && (round.params.Some? ==> IsParamsFor(p.kind, p.hash, p.sid, p.conf, ready, round.params.value))
  }

  ghost predicate LogOk(p: TssProcess, excluded: seq<PeerId>, log: seq<Round>) {
    forall i | 0 <= i < |log| :: RoundOk(p, excluded, log[..i], log[i])
  }

  /** How the loop is left after the last round of the log, if it is. */
  function ExitOf(p: TssProcess, excluded: seq<PeerId>, log: seq<Round>): Exit {
    if log == [] then Unfinished
    else match log[|log| - 1].event
      case ProcessEnded => Returned
      case Done => Returned
      case Ticked => Unfinished
      case ReadyFrom(_) =>
        if ReadyTest(p.kind, p.conf, ReadyAfter(p.conf.host, excluded, Senders(log)), excluded).None?
        then Failed else Unfinished
  }

  /** The process or the context is done. */
  predicate Returns(e: InitiateEvent) { e.ProcessEnded? || e.Done? }

  lemma ExitMeans(p: TssProcess, excluded: seq<PeerId>, log: seq<Round>)
    ensures var exit := ExitOf(p, excluded, log);
      && (exit == Returned <==> log != [] && Returns(log[|log| - 1].event))
      && (exit == Failed <==> log != [] && log[|log| - 1].event.ReadyFrom? && p.kind == Keygen && excluded != [])
  {
    ReadyAnswers(p.kind, p.conf, ReadyAfter(p.conf.host, excluded, Senders(log)), excluded);
  }

  /** The log takes the events in order, each round as it should be, and no round but the last
      ends the loop. */
  ghost predicate Follows(p: TssProcess, excluded: seq<PeerId>, events: seq<InitiateEvent>, log: seq<Round>) {
    && LogOk(p, excluded, log)
    && |log| <= |events|
    && forall i | 0 <= i < |log| :: log[i].event == events[i] && ExitOf(p, excluded, log[..i]) == Unfinished
  }

  /** When the loop is left after `n` events: it returns if the process or the context is done, it
      fails only for keygen with excluded peers, at a ready message, and else it takes all events,
      however long it has to wait for peers. */
  predicate LeftProperly(p: TssProcess, excluded: seq<PeerId>, events: seq<InitiateEvent>, n: nat, exit: Exit) {
    && n <= |events|
    && (exit == Returned <==> n > 0 && Returns(events[n - 1]))
    && (exit == Failed <==> n > 0 && events[n - 1].ReadyFrom? && p.kind == Keygen && excluded != [])
    && (exit == Unfinished ==> n == |events|)
    && ((p.kind != Keygen || excluded == []) && (forall e | e in events :: e.ReadyFrom? || e.Ticked?) ==>
          exit == Unfinished)
  }

  lemma FollowsLeave(p: TssProcess, excluded: seq<PeerId>, events: seq<InitiateEvent>, log: seq<Round>)
    requires Follows(p, excluded, events, log)
    requires ExitOf(p, excluded, log) == Unfinished ==> |log| == |events|
    ensures LeftProperly(p, excluded, events, |log|, ExitOf(p, excluded, log))
  {
    ExitMeans(p, excluded, log);
  }

  method Initiate(process: TssProcess, excludedPeers: seq<PeerId>, events: seq<InitiateEvent>, net: Communication)
    returns (readyPeers: seq<PeerId>, log: seq<Round>, exit: Exit)
    requires net.host == process.conf.host
    modifies net
    ensures Follows(process, excludedPeers, events, log)
    ensures exit == ExitOf(process, excludedPeers, log)
    ensures exit == Unfinished ==> |log| == |events|
    ensures LeftProperly(process, excludedPeers, events, |log|, exit)
    ensures readyPeers == ReadyAfter(net.host, excludedPeers, Senders(log))
    ensures net.sent == old(net.sent) + Envelopes(net.host, process.conf.peerstore, InitiateMsg)
                        + LogSends(process.conf, log)
  {
    readyPeers := [net.host];
    log, exit := [], Unfinished;
    net.Broadcast(process.conf.peerstore, InitiateMsg);
    ghost var start := net.sent;
    for k := 0 to |events|
      invariant |log| == k && exit == Unfinished == ExitOf(process, excludedPeers, log)
      invariant Follows(process, excludedPeers, events, log)
      invariant readyPeers == ReadyAfter(net.host, excludedPeers, Senders(log))
      invariant net.sent == start + LogSends(process.conf, log)
    {
      var round;
      readyPeers, round, exit := Handle(process, excludedPeers, readyPeers, events[k], net, log);
      FollowsSnoc(process, excludedPeers, events, log, round);
      LogSendsSnoc(process.conf, start, log, round);
      log := log + [round];
      if exit != Unfinished {
        break;
      }
    }
    FollowsLeave(process, excludedPeers, events, log);
  }

  /** One pass through the `select`. */
  method Handle(process: TssProcess, excludedPeers: seq<PeerId>, readyPeers: seq<PeerId>, event: InitiateEvent,
                net: Communication, ghost log: seq<Round>)
    returns (newReady: seq<PeerId>, round: Round, exit: Exit)
    requires net.host == process.conf.host
    requires readyPeers == ReadyAfter(net.host, excludedPeers, Senders(log))
    modifies net
    ensures round.event == event && RoundOk(process, excludedPeers, log, round)
    ensures newReady == ReadyAfter(net.host, excludedPeers, Senders(log + [round]))
    ensures net.sent == old(net.sent) + RoundSends(process.conf, round)
    ensures exit == ExitOf(process, excludedPeers, log + [round])
  {
    newReady, round, exit := readyPeers, Round(event, None), Unfinished;
    SendersSnoc(log, round);
    match event
    case ReadyFrom(from) =>
      ReadyAfterSnoc(net.host, excludedPeers, Senders(log), from);
      newReady := S.AddReady(readyPeers, excludedPeers, from);
      var ready := process.Ready(newReady, excludedPeers);
      if ready.None? {
        return newReady, round, Failed;
      }
      if ready.value {
        var startParams := process.StartParams(newReady);
        net.Broadcast(process.conf.peerstore, StartMsg(startParams));
        round := round.(params := Some(startParams));
        SendersSnoc(log, round);
      }
    case Ticked =>
      net.Broadcast(process.conf.peerstore, InitiateMsg);
    case _ =>
      exit := Returned;
  }

  lemma SendersSnoc(log: seq<Round>, round: Round)
    ensures Senders(log + [round]) == if round.event.ReadyFrom? then Senders(log) + [round.event.from] else Senders(log)
  {
    assert (log + [round])[..|log|] == log;
  }

  lemma ReadyAfterSnoc(host: PeerId, excluded: seq<PeerId>, senders: seq<PeerId>, from: PeerId)
    ensures ReadyAfter(host, excluded, senders + [from]) ==
            S.AddReady(ReadyAfter(host, excluded, senders), excluded, from)
  {
    assert (senders + [from])[..|senders|] == senders;
  }

  lemma FollowsSnoc(p: TssProcess, excluded: seq<PeerId>, events: seq<InitiateEvent>, log: seq<Round>, round: Round)
    requires Follows(p, excluded, events, log) && ExitOf(p, excluded, log) == Unfinished && |log| < |events|
    requires RoundOk(p, excluded, log, round) && round.event == events[|log|]
    ensures Follows(p, excluded, events, log + [round])
  {
    LogOkSnoc(p, excluded, log, round);
    var log' := log + [round];
    forall i | 0 <= i < |log'| ensures ExitOf(p, excluded, log'[..i]) == Unfinished {
      Prefix(log, round, i);
    }
  }

  lemma Prefix<T>(s: seq<T>, x: T, i: nat)
    requires i <= |s|
    ensures (s + [x])[..i] == s[..i] && (i == |s| ==> s[..i] == s)
  {}

  lemma LogOkSnoc(p: TssProcess, excluded: seq<PeerId>, log: seq<Round>, round: Round)
    requires LogOk(p, excluded, log) && RoundOk(p, excluded, log, round)
    ensures LogOk(p, excluded, log + [round])
  {
    var log' := log + [round];
    forall i | 0 <= i < |log'| ensures RoundOk(p, excluded, log'[..i], log'[i]) {
      Prefix(log, round, i);
    }
  }

  lemma LogSendsSnoc(c: S.Conf, start: seq<Envelope>, log: seq<Round>, round: Round)
    ensures start + LogSends(c, log + [round]) == (start + LogSends(c, log)) + RoundSends(c, round)
  {
    assert (log + [round])[..|log|] == log;
  }

  /** What has gone out besides the first call: initiate messages in the rounds with a tick, and in
      the rounds with params the start message naming them, each to all other peers, whatever the
      kind of process. */
  lemma {:induction false} SentExactly(c: S.Conf, log: seq<Round>, q: PeerId, content: Content)
    requires forall i | 0 <= i < |log| && log[i].params.Some? :: log[i].event.ReadyFrom?
    ensures Envelope(q, content) in LogSends(c, log) <==>
            q in c.peerstore && q != c.host && exists i | 0 <= i < |log| :: RoundSendsContent(log[i], content)
  {
    if log != [] {
      var init, round := log[..|log| - 1], log[|log| - 1];
      assert log == init + [round];
      SentExactly(c, init, q, content);
      SentInRound(c, round, q, content);
      assert (exists i | 0 <= i < |log| :: RoundSendsContent(log[i], content)) <==>
             (exists i | 0 <= i < |init| :: RoundSendsContent(init[i], content))
             || RoundSendsContent(round, content) by {
        if i :| 0 <= i < |init| && RoundSendsContent(init[i], content) {
          assert log[i] == init[i];
        }
        if i :| 0 <= i < |log| && RoundSendsContent(log[i], content) {
          assert i < |init| ==> log[i] == init[i];
        }
      }
    }
  }

  predicate RoundSendsContent(round: Round, content: Content) {
    match content
    case InitiateMsg => round.event == Ticked
    case ReadyMsg => false
    case StartMsg(params) => round.params == Some(params)
  }

  lemma SentInRound(c: S.Conf, round: Round, q: PeerId, content: Content)
    requires round.params.Some? ==> round.event.ReadyFrom?
    ensures Envelope(q, content) in RoundSends(c, round) <==>
            q in c.peerstore && q != c.host && RoundSendsContent(round, content)
  {
    EnvelopeMembers(c.host, c.peerstore, InitiateMsg);
    if round.params.Some? {
      EnvelopeMembers(c.host, c.peerstore, StartMsg(round.params.value));
    }
  }

  // ---- when a signing process starts ----------------------------------------------------

  predicate SendsStart(log: seq<Round>) { exists i | 0 <= i < |log| :: log[i].params.Some? }

  lemma FiresAtPrefix(c: S.Conf, excluded: seq<PeerId>, senders: seq<PeerId>, from: PeerId, k: nat)
    requires k <= |senders|
    ensures FiresAt(c, excluded, senders + [from], k) <==> FiresAt(c, excluded, senders, k)
  {
    assert (senders + [from])[..k] == senders[..k];
  }

  lemma FiresAtEnd(c: S.Conf, excluded: seq<PeerId>, senders: seq<PeerId>, from: PeerId)
    ensures var all := senders + [from];
            FiresAt(c, excluded, all, |all|) <==> S.EnoughReady(c, ReadyAfter(c.host, excluded, all))
  {
    var all := senders + [from];
    assert all[..|all|] == all;
  }

  lemma FiredSnoc(c: S.Conf, excluded: seq<PeerId>, senders: seq<PeerId>, from: PeerId)
    ensures Fired(c, excluded, senders + [from]) <==>
            Fired(c, excluded, senders) || S.EnoughReady(c, ReadyAfter(c.host, excluded, senders + [from]))
  {
    var all := senders + [from];
    FiresAtEnd(c, excluded, senders, from);
    if Fired(c, excluded, all) {
      var k: nat :| k <= |all| && FiresAt(c, excluded, all, k);
      if k <= |senders| {
        FiresAtPrefix(c, excluded, senders, from, k);
      }
    }
    if Fired(c, excluded, senders) {
      var k: nat :| k <= |senders| && FiresAt(c, excluded, senders, k);
      FiresAtPrefix(c, excluded, senders, from, k);
    }
  }

  /** What the log of a signing coordinator shows: a start message has gone out exactly if the
      test for `threshold + 1` ready holders has succeeded after some ready message. */
  lemma {:induction false} SendsStartIffFired(p: TssProcess, excluded: seq<PeerId>, log: seq<Round>)
    requires p.kind == Signing && LogOk(p, excluded, log)
    ensures SendsStart(log) <==> Fired(p.conf, excluded, Senders(log))
  {
    if log != [] {
      var init, round := log[..|log| - 1], log[|log| - 1];
      LogOkPrefix(p, excluded, log);
      SendsStartIffFired(p, excluded, init);
      assert log == init + [round];
      assert SendsStart(log) <==> SendsStart(init) || round.params.Some? by {
        if i :| 0 <= i < |log| && log[i].params.Some? {
          assert i < |init| ==> init[i].params.Some?;
        }
      }
      SendersSnoc(init, round);
      if round.event.ReadyFrom? {
        FiredSnoc(p.conf, excluded, Senders(init), round.event.from);
      }
    }
  }

  lemma LogOkPrefix(p: TssProcess, excluded: seq<PeerId>, log: seq<Round>)
    requires LogOk(p, excluded, log) && log != []
    ensures LogOk(p, excluded, log[..|log| - 1])
    ensures RoundOk(p, excluded, log[..|log| - 1], log[|log| - 1])
  {
    var init := log[..|log| - 1];
    forall i | 0 <= i < |init| ensures RoundOk(p, excluded, init[..i], init[i]) {
      assert init[..i] == log[..i] && init[i] == log[i];
    }
  }

  /** The exact `==` test is never jumped over: with a threshold of at least one, the start message
      has gone out exactly if `threshold + 1` distinct holders of key shares are ready; for any
      threshold, exactly if moreover the first ready message did not already bring too many. */
  lemma StartGoesOut(p: TssProcess, excluded: seq<PeerId>, log: seq<Round>)
    requires p.kind == Signing && LogOk(p, excluded, log)
    ensures var ready := ReadyHolders(p.conf, excluded, Senders(log));
      && (p.conf.threshold >= 1 ==> (SendsStart(log) <==> p.conf.threshold + 1 <= |ready|))
      && (Senders(log) != [] ==>
            (SendsStart(log) <==>
             |ReadyHolders(p.conf, excluded, Senders(log)[..1])| <= p.conf.threshold + 1 <= |ready|))
  {
    SendsStartIffFired(p, excluded, log);
    if p.conf.threshold >= 1 {
      NeverJumpedOver(p.conf, excluded, Senders(log));
    }
    if Senders(log) != [] {
      FiredExactly(p.conf, excluded, Senders(log));
    }
  }

  // ---- waitForStart ---------------------------------------------------------------------

  datatype WaitEvent =
    | InitiateFrom(from: PeerId)
    | StartFrom(from: PeerId, payload: S.Payload)
    | RunEnded
    | Cancelled

  /** Messages of anyone but the coordinator are ignored, unless no coordinator is known. */
  predicate Accepts(c: S.Conf, from: PeerId) { c.coordinator == "" || from == c.coordinator }

  /** The process has ended with an error, or an accepted start message does not decode. */
  predicate Breaks(c: S.Conf, e: WaitEvent) {
    e.RunEnded? || (e.StartFrom? && e.payload.Malformed? && (c.coordinator == "" || e.from == c.coordinator))
  }

  predicate EndsWait(c: S.Conf, e: WaitEvent) { e.Cancelled? || Breaks(c, e) }

  /** What one event makes `waitForStart` send, and what it launches. */
  function AnswerTo(c: S.Conf, e: WaitEvent): seq<Envelope> {
    if e.InitiateFrom? && Accepts(c, e.from) then Envelopes(c.host, [e.from], ReadyMsg) else []
  }

  function LaunchFor(c: S.Conf, e: WaitEvent): seq<Option<seq<PeerId>>> {
    if e.StartFrom? && Accepts(c, e.from) && e.payload.Params? then [e.payload.subset] else []
  }

  /** Ready messages the node sends in answer to the events. */
  function Answers(c: S.Conf, events: seq<WaitEvent>): seq<Envelope> {
    if events == [] then []
    else Answers(c, events[..|events| - 1]) + AnswerTo(c, events[|events| - 1])
  }

  /** Params of the start messages for which the node launches its process. */
  function Launches(c: S.Conf, events: seq<WaitEvent>): seq<Option<seq<PeerId>>> {
    if events == [] then []
    else Launches(c, events[..|events| - 1]) + LaunchFor(c, events[|events| - 1])
  }

  lemma AnswersSnoc(c: S.Conf, start: seq<Envelope>, events: seq<WaitEvent>, i: nat)
    requires i < |events|
    ensures start + Answers(c, events[..i + 1]) == (start + Answers(c, events[..i])) + AnswerTo(c, events[i])
    ensures Launches(c, events[..i + 1]) == Launches(c, events[..i]) + LaunchFor(c, events[i])
  {
    assert events[..i + 1][..i] == events[..i];
  }

  /** What `waitForStart` makes of the events: it answers exactly the initiate messages, and
      launches exactly the params of the decodable start messages, of the coordinator, or of anybody
      if there is none. */
  lemma {:induction false} AnswersAndLaunches(c: S.Conf, events: seq<WaitEvent>)
    ensures forall e :: e in Answers(c, events) <==>
              (e.content == ReadyMsg && e.to != c.host && InitiateFrom(e.to) in events
               && (c.coordinator == "" || e.to == c.coordinator))
    ensures forall params :: params in Launches(c, events) <==>
              exists from :: StartFrom(from, S.Params(params)) in events
                             && (c.coordinator == "" || from == c.coordinator)
  {
    if events != [] {
      var init, last := events[..|events| - 1], events[|events| - 1];
      assert events == init + [last];
      AnswersAndLaunches(c, init);
      if last.InitiateFrom? {
        EnvelopeMembers(c.host, [last.from], ReadyMsg);
      }
    }
  }

  /** Launches come in the order of the events that cause them, one for each. */
  lemma {:induction false} InOrderOfEvents(c: S.Conf, before: seq<WaitEvent>, after: seq<WaitEvent>)
    ensures Launches(c, before + after) == Launches(c, before) + Launches(c, after)
  {
    if after == [] {
      assert before + after == before;
    } else {
      var init, e := after[..|after| - 1], after[|after| - 1];
      InOrderOfEvents(c, before, init);
      assert after == init + [e];
      LaunchSnoc(c, init, e);
      assert before + after == (before + init) + [e];
      LaunchSnoc(c, before + init, e);
      Regroup(Launches(c, before), Launches(c, init), LaunchFor(c, e));
    }
  }

  lemma Regroup<T>(s: seq<T>, t: seq<T>, u: seq<T>)
    ensures (s + t) + u == s + (t + u)
  {}

  lemma LaunchSnoc(c: S.Conf, events: seq<WaitEvent>, e: WaitEvent)
    ensures Launches(c, events + [e]) == Launches(c, events) + LaunchFor(c, e)
  {
    assert (events + [e])[..|events|] == events;
  }

  lemma OneLaunch(c: S.Conf, e: WaitEvent)
    ensures Launches(c, [e]) ==
            if e.StartFrom? && e.payload.Params? && (c.coordinator == "" || e.from == c.coordinator)
            then [e.payload.subset] else []
  {
    assert [e][..0] == [];
  }

  /** None of the first `n` events ends the loop. */
  predicate Waits(c: S.Conf, events: seq<WaitEvent>, n: nat)
    requires n <= |events|
  {
    forall i | 0 <= i < n :: !EndsWait(c, events[i])
  }

  method WaitForStart(c: S.Conf, events: seq<WaitEvent>, net: Communication)
    returns (launched: seq<Option<seq<PeerId>>>, handled: nat, exit: Exit)
    requires net.host == c.host
    modifies net
    ensures handled <= |events|
    ensures launched == Launches(c, events[..handled])
    ensures net.sent == old(net.sent) + Answers(c, events[..handled])
    ensures exit == Unfinished ==> handled == |events|
    ensures exit == Returned <==> handled > 0 && events[handled - 1].Cancelled?
    ensures exit == Failed <==> handled > 0 && Breaks(c, events[handled - 1])
    ensures Waits(c, events, if exit == Unfinished then handled else handled - 1)
  {
    launched, handled, exit := [], 0, Unfinished;
    ghost var start := net.sent;
    while handled < |events|
      invariant handled <= |events| && exit == Unfinished
      invariant launched == Launches(c, events[..handled])
      invariant net.sent == start + Answers(c, events[..handled])
      invariant Waits(c, events, handled)
    {
      AnswersSnoc(c, start, events, handled);
      var launch;
      launch, exit := HandleWait(c, events[handled], net);
      launched := launched + launch;
      handled := handled + 1;
      if exit != Unfinished {
        return;
      }
    }
    assert events[..handled] == events;
  }

  /** One pass through the `select`. */
  method HandleWait(c: S.Conf, event: WaitEvent, net: Communication)
    returns (launch: seq<Option<seq<PeerId>>>, exit: Exit)
    requires net.host == c.host
    modifies net
    ensures launch == LaunchFor(c, event)
    ensures exit == if event.Cancelled? then Returned else if Breaks(c, event) then Failed else Unfinished
    ensures net.sent == old(net.sent) + AnswerTo(c, event)
  {
    launch, exit := [], Unfinished;
    match event
    case InitiateFrom(from) =>
      if c.coordinator != "" && from != c.coordinator {
        return;
      }
      net.Broadcast([from], ReadyMsg);
    case RunEnded =>
      exit := Failed;
    case StartFrom(from, payload) =>
      if c.coordinator != "" && from != c.coordinator {
        return;
      }
      if payload.Malformed? {
        return [], Failed;
      }
      launch := [payload.subset];
    case Cancelled =>
      exit := Returned;
  }

  // ---- both loops take the steps of the session system ----------------------------------

  function AsMsg(host: PeerId, e: Envelope): S.Msg {
    match e.content
    case InitiateMsg => S.Initiate(host, e.to)
    case ReadyMsg => S.Ready(host, e.to)
    case StartMsg(params) => S.Start(host, e.to, S.Params(if params.Subset? then Some(params.peers) else None))
  }

  function AsMsgs(host: PeerId, es: seq<Envelope>): set<S.Msg> { set e | e in es :: AsMsg(host, e) }

  lemma {:induction false} EnvelopeMembers(host: PeerId, peers: seq<PeerId>, content: Content)
    ensures forall e :: e in Envelopes(host, peers, content) <==>
                        e.content == content && e.to in peers && e.to != host
  {
    if peers != [] {
      EnvelopeMembers(host, peers[..|peers| - 1], content);
      assert peers == peers[..|peers| - 1] + [peers[|peers| - 1]];
    }
  }

  /** Without the host in the list there is one envelope for each entry, in order; the host's own
      entries add nothing, wherever they stand (`EnvelopesSkipHost`). */
  lemma {:induction false} EnvelopesInOrder(host: PeerId, peers: seq<PeerId>, content: Content)
    ensures host !in peers ==>
              |Envelopes(host, peers, content)| == |peers|
              && forall i | 0 <= i < |peers| :: Envelopes(host, peers, content)[i] == Envelope(peers[i], content)
  {
    if peers != [] {
      EnvelopesInOrder(host, peers[..|peers| - 1], content);
      assert host !in peers ==> host !in peers[..|peers| - 1];
    }
  }

  lemma {:induction false} EnvelopesSkipHost(host: PeerId, before: seq<PeerId>, after: seq<PeerId>, content: Content)
    ensures Envelopes(host, before + [host] + after, content) == Envelopes(host, before + after, content)
  {
    var all := before + [host] + after;
    if after == [] {
      assert all[..|all| - 1] == before && before + after == before;
    } else {
      var init := after[..|after| - 1];
      EnvelopesSkipHost(host, before, init, content);
      assert all[..|all| - 1] == before + [host] + init;
      assert (before + after)[..|before + after| - 1] == before + init;
    }
  }

  function AsInput(host: PeerId, event: InitiateEvent): S.Input {
    match event
    case ReadyFrom(from) => S.Deliver(S.Ready(from, host))
    case Ticked => S.Tick
    case _ => S.Leave
  }

  function AfterRound(p: TssProcess, n: S.Node, round: Round): S.Node {
    match round.event
    case ReadyFrom(from) =>
      n.(ready := S.AddReady(n.ready, [], from),
         pending := n.pending + if round.params.Some? && round.params.value.Subset?
                                then multiset{Some(round.params.value.peers)} else multiset{})
    case Ticked => n
    case _ => n.(listening := false)
  }

  /** Whatever the node's goroutines have done meanwhile, a round of `Initiate` for signing is a
      step of the session system, and it sends what the step sends. */
  lemma InitiateRoundIsStep(p: TssProcess, log: seq<Round>, i: nat, n: S.Node)
    requires p.kind == Signing && p.conf.coordinator == p.conf.host && LogOk(p, [], log) && i < |log|
    requires n.listening && n.ready == ReadyAfter(p.conf.host, [], Senders(log[..i]))
    ensures var n' := AfterRound(p, n, log[i]);
      && S.LocalStep(p.hash, p.sid, p.conf, n, AsInput(p.conf.host, log[i].event), n',
                     AsMsgs(p.conf.host, RoundSends(p.conf, log[i])))
      && n'.ready == ReadyAfter(p.conf.host, [], Senders(log[..i + 1]))
  {
    var round, c := log[i], p.conf;
    assert log[..i + 1] == log[..i] + [round];
    SendersSnoc(log[..i], round);
    if round.event.ReadyFrom? {
      ReadyAfterSnoc(p.conf.host, [], Senders(log[..i]), round.event.from);
    }
    match round.event
    case Ticked =>
      InitiateEnvelopes(c);
    case ReadyFrom(from) =>
      assert RoundOk(p, [], log[..i], round);
      if round.params.Some? {
        StartEnvelopes(c, round.params.value.peers);
      }
      ReadyRoundIsStep(p, n, from, round.params);
    case _ =>
  }

  lemma ReadyRoundIsStep(p: TssProcess, n: S.Node, from: PeerId, params: Option<StartParams>)
    requires p.kind == Signing && p.conf.coordinator == p.conf.host && n.listening
    requires var ready := S.AddReady(n.ready, [], from);
             && (params.Some? <==> S.EnoughReady(p.conf, ready))
             && (params.Some? ==> IsParamsFor(p.kind, p.hash, p.sid, p.conf, ready, params.value))
    ensures S.LocalStep(p.hash, p.sid, p.conf, n, S.Deliver(S.Ready(from, p.conf.host)),
                        AfterRound(p, n, Round(ReadyFrom(from), params)),
                        if params.Some? then S.StartMsgs(p.conf, params.value.peers) else {})
  {
    if params.Some? {
      assert S.IsStartParams(p.hash, p.sid, p.conf, S.AddReady(n.ready, [], from), params.value.peers);
    }
  }

  lemma InitiateEnvelopes(c: S.Conf)
    ensures AsMsgs(c.host, Envelopes(c.host, c.peerstore, InitiateMsg)) == S.InitiateMsgs(c)
  {
    var es := Envelopes(c.host, c.peerstore, InitiateMsg);
    EnvelopeMembers(c.host, c.peerstore, InitiateMsg);
    forall m | m in S.InitiateMsgs(c) ensures m in AsMsgs(c.host, es) {
      assert Envelope(m.to, InitiateMsg) in es;
    }
  }

  lemma StartEnvelopes(c: S.Conf, params: seq<PeerId>)
    ensures AsMsgs(c.host, Envelopes(c.host, c.peerstore, StartMsg(Subset(params)))) == S.StartMsgs(c, params)
  {
    var es := Envelopes(c.host, c.peerstore, StartMsg(Subset(params)));
    EnvelopeMembers(c.host, c.peerstore, StartMsg(Subset(params)));
    forall m | m in S.StartMsgs(c, params) ensures m in AsMsgs(c.host, es) {
      assert Envelope(m.to, StartMsg(Subset(params))) in es;
    }
  }

  function AsWaitInput(host: PeerId, event: WaitEvent): S.Input {
    match event
    case InitiateFrom(from) => S.Deliver(S.Initiate(from, host))
    case StartFrom(from, payload) => S.Deliver(S.Start(from, host, payload))
    case _ => S.Leave
  }

  /** Handling one event is the step of the session system that delivers the message. */
  lemma WaitEventIsStep(hash: Hash, sid: string, c: S.Conf, e: WaitEvent, n: S.Node)
    requires c.coordinator != c.host && n.listening
    ensures S.LocalStep(hash, sid, c, n, AsWaitInput(c.host, e),
                        n.(listening := !EndsWait(c, e), pending := n.pending + multiset(LaunchFor(c, e))),
                        AsMsgs(c.host, AnswerTo(c, e)))
  {
    match e
    case InitiateFrom(from) =>
      AnswerEnvelopes(c, from);
    case _ =>
  }

  lemma AnswerEnvelopes(c: S.Conf, from: PeerId)
    ensures AsMsgs(c.host, Envelopes(c.host, [from], ReadyMsg)) ==
            if from == c.host then {} else {S.Ready(c.host, from)}
  {
    var es := Envelopes(c.host, [from], ReadyMsg);
    EnvelopeMembers(c.host, [from], ReadyMsg);
    assert from != c.host ==> Envelope(from, ReadyMsg) in es;
  }
}
