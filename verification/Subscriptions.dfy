/** The subscription map of a node (comm/p2p/subscription.go) against the list of subscribe and
    unsubscribe calls it has seen. */
module Subscriptions {
  import opened Wrappers
  import opened Strings
  import opened SubscriptionID

  /** Channels are known by identity only. */
  type Channel = nat

  type Table = map<string, map<int, map<string, Channel>>>

  datatype Op = Subscribe(sessionID: string, msgType: nat, channel: Channel, now: nat) | Unsubscribe(id: string)

  function Entries(t: Table, sessionID: string, msgType: int): map<string, Channel> {
    if sessionID in t && msgType in t[sessionID] then t[sessionID][msgType] else map[]
  }

  function WithEntries(t: Table, sessionID: string, msgType: int, entries: map<string, Channel>): Table {
    var types := if sessionID in t then t[sessionID] else map[];
    t[sessionID := types[msgType := entries]]
  }

  function Apply(t: Table, op: Op): Table {
    match op
    case Subscribe(s, m, channel, now) =>
      var key := SubscriptionIdentifier(NewSubscriptionID(s, m, now));
      WithEntries(t, s, m, Entries(t, s, m)[key := channel])
    case Unsubscribe(id) =>
      match Unwrap(id)
      case None => t
      case Some(p) =>
        if p.identifier !in Entries(t, p.sessionID, p.msgType) then t
        else WithEntries(t, p.sessionID, p.msgType, Entries(t, p.sessionID, p.msgType) - {p.identifier})
  }

  function After(ops: seq<Op>): Table {
    if ops == [] then map[] else Apply(After(ops[..|ops| - 1]), ops[|ops| - 1])
  }

  /** Creating the missing inner maps first makes no difference. */
  lemma SameWithEntries(t: Table, created: Table, sessionID: string, msgType: int, entries: map<string, Channel>)
    requires sessionID in created && msgType in created[sessionID]
    requires var t' := if sessionID in t then t else t[sessionID := map[]];
             created == if msgType in t'[sessionID] then t' else t'[sessionID := t'[sessionID][msgType := map[]]]
    ensures created[sessionID := created[sessionID][msgType := entries]] == WithEntries(t, sessionID, msgType, entries)
    ensures created[sessionID][msgType] == Entries(t, sessionID, msgType)
  {
    var types := if sessionID in t then t[sessionID] else map[];
    assert created[sessionID][msgType := entries] == types[msgType := entries];
  }

  class SessionSubscriptionManager {
    var subscribersMap: Table

    constructor ()
      ensures subscribersMap == After([])
    {
      subscribersMap := map[];
    }

    method SubscribeTo(sessionID: string, msgType: nat, channel: Channel, now: nat) returns (id: string)
      modifies this
      ensures id == NewSubscriptionID(sessionID, msgType, now)
      ensures id == sessionID + "-" + Decimal(msgType) + "-" + Decimal(now)
      ensures subscribersMap == Apply(old(subscribersMap), Subscribe(sessionID, msgType, channel, now))
    {
      if sessionID !in subscribersMap {
        subscribersMap := subscribersMap[sessionID := map[]];
      }
      if msgType !in subscribersMap[sessionID] {
        subscribersMap := subscribersMap[sessionID := subscribersMap[sessionID][msgType := map[]]];
      }
      id := NewSubscriptionID(sessionID, msgType, now);
      var entries := subscribersMap[sessionID][msgType];
      ghost var before, created := old(subscribersMap), subscribersMap;
      subscribersMap := subscribersMap[sessionID :=
        subscribersMap[sessionID][msgType := entries[SubscriptionIdentifier(id) := channel]]];
      SameWithEntries(before, created, sessionID, msgType, entries[SubscriptionIdentifier(id) := channel]);
    }

    method UnSubscribeFrom(id: string)
      modifies this
      ensures subscribersMap == Apply(old(subscribersMap), Unsubscribe(id))
    {
      match Unwrap(id)
      case None =>
        return;
      case Some(Parts(s, m, key)) =>
        if s !in subscribersMap || m !in subscribersMap[s] || key !in subscribersMap[s][m] {
          return;
        }
        subscribersMap := subscribersMap[s := subscribersMap[s][m := subscribersMap[s][m] - {key}]];
    }

    /** The channels in whatever order the map is walked, one for each entry. */
    method GetSubscribers(sessionID: string, msgType: nat) returns (subs: seq<Channel>)
      ensures forall channel :: multiset(subs)[channel] ==
                |KeysOf(Entries(subscribersMap, sessionID, msgType), channel)|
    {
      subs := [];
      if sessionID !in subscribersMap || msgType !in subscribersMap[sessionID] {
        return;
      }
      var entries := subscribersMap[sessionID][msgType];
      var left := entries.Keys;
      while left != {}
        invariant left <= entries.Keys
        invariant forall channel :: multiset(subs)[channel] == |KeysOf(entries, channel) - left|
        decreases left
      {
        var key :| key in left;
        KeyDone(entries, left, key);
        left := left - {key};
        subs := subs + [entries[key]];
      }
    }
  }

  /** The identifiers under which a channel is stored. */
  function KeysOf(entries: map<string, Channel>, channel: Channel): set<string> {
    set k | k in entries && entries[k] == channel
  }

  lemma KeyDone(entries: map<string, Channel>, left: set<string>, key: string)
    requires key in left && key in entries
    ensures forall channel :: |KeysOf(entries, channel) - (left - {key})| ==
              |KeysOf(entries, channel) - left| + if channel == entries[key] then 1 else 0
  {
    forall channel ensures |KeysOf(entries, channel) - (left - {key})| ==
        |KeysOf(entries, channel) - left| + if channel == entries[key] then 1 else 0 {
      var keys := KeysOf(entries, channel);
      assert keys - (left - {key}) == if channel == entries[key] then (keys - left) + {key} else keys - left;
    }
  }

  // ---- which subscriptions are live -----------------------------------------------------

  /** Sessions and types whose printed identifiers can be parsed. */
  predicate Plain(sessionID: string, msgType: nat) { '-' !in sessionID && msgType <= UNKNOWN }

  /** The call replaces or removes the subscription made at time `now`. */
  predicate Ends(op: Op, sessionID: string, msgType: nat, now: nat) {
    match op
    case Subscribe(s, m, _, n) => s == sessionID && m == msgType && n == now
    case Unsubscribe(id) => Unwrap(id) == Some(Parts(sessionID, msgType, Decimal(now)))
  }

  /** The i-th call subscribed the channel at time `now`, and no later call ended that. */
  ghost predicate LiveSince(ops: seq<Op>, i: nat, sessionID: string, msgType: nat, channel: Channel, now: nat) {
    && i < |ops| && ops[i] == Subscribe(sessionID, msgType, channel, now)
    && forall j | i < j < |ops| :: !Ends(ops[j], sessionID, msgType, now)
  }

  lemma ApplyEnds(t: Table, op: Op, sessionID: string, msgType: nat, now: nat)
    requires Plain(sessionID, msgType)
    ensures var before, after := Entries(t, sessionID, msgType), Entries(Apply(t, op), sessionID, msgType);
            var key := Decimal(now);
            if !Ends(op, sessionID, msgType, now) then
              (key in after <==> key in before) && (key in before ==> after[key] == before[key])
            else if op.Subscribe? then key in after && after[key] == op.channel
            else key !in after
  {
    match op
    case Subscribe(s, m, _, n) =>
      if s == sessionID && m == msgType {
        RoundTrip(s, m, n);
        DecimalInjective(n, now);
      }
    case Unsubscribe(_) =>
  }

  /** For a session without dashes, after any sequence of calls the map holds under each
      timestamp exactly the channel subscribed then and not unsubscribed or replaced since. */
  lemma {:induction false} PlainEntries(ops: seq<Op>, sessionID: string, msgType: nat, channel: Channel, now: nat)
    requires Plain(sessionID, msgType)
    ensures var entries := Entries(After(ops), sessionID, msgType);
            (Decimal(now) in entries && entries[Decimal(now)] == channel)
            <==> exists i: nat :: LiveSince(ops, i, sessionID, msgType, channel, now)
  {
    if ops != [] {
      var init, op := ops[..|ops| - 1], ops[|ops| - 1];
      PlainEntries(init, sessionID, msgType, channel, now);
      LiveSnoc(init, op, sessionID, msgType, channel, now);
      assert ops == init + [op];
      ApplyEnds(After(init), op, sessionID, msgType, now);
    }
  }

  lemma LiveSnocAt(init: seq<Op>, op: Op, i: nat, sessionID: string, msgType: nat, channel: Channel, now: nat)
    requires i < |init|
    ensures LiveSince(init + [op], i, sessionID, msgType, channel, now) <==>
            LiveSince(init, i, sessionID, msgType, channel, now) && !Ends(op, sessionID, msgType, now)
  {
    var ops := init + [op];
    assert forall j | 0 <= j < |init| :: ops[j] == init[j];
    assert ops[|init|] == op;
    if LiveSince(ops, i, sessionID, msgType, channel, now) {
      forall j | i < j < |init| ensures !Ends(init[j], sessionID, msgType, now) {
        assert ops[j] == init[j];
      }
    }
  }

  lemma LiveSnoc(init: seq<Op>, op: Op, sessionID: string, msgType: nat, channel: Channel, now: nat)
    ensures (exists i: nat :: LiveSince(init + [op], i, sessionID, msgType, channel, now)) <==>
            if Ends(op, sessionID, msgType, now) then op == Subscribe(sessionID, msgType, channel, now)
            else exists i: nat :: LiveSince(init, i, sessionID, msgType, channel, now)
  {
    var ops := init + [op];
    if i: nat :| LiveSince(init, i, sessionID, msgType, channel, now) {
      LiveSnocAt(init, op, i, sessionID, msgType, channel, now);
    }
    if i: nat :| LiveSince(ops, i, sessionID, msgType, channel, now) {
      if i < |init| {
        LiveSnocAt(init, op, i, sessionID, msgType, channel, now);
      }
    }
    if op == Subscribe(sessionID, msgType, channel, now) {
      assert LiveSince(ops, |init|, sessionID, msgType, channel, now);
    }
  }

  lemma {:induction false} PlainKeys(ops: seq<Op>, sessionID: string, msgType: nat, key: string)
    requires Plain(sessionID, msgType) && key in Entries(After(ops), sessionID, msgType)
    ensures exists now: nat :: key == Decimal(now)
  {
    var init, op := ops[..|ops| - 1], ops[|ops| - 1];
    if key in Entries(After(init), sessionID, msgType) {
      PlainKeys(init, sessionID, msgType, key);
    } else {
      RoundTrip(sessionID, msgType, op.now);
    }
  }

  /** No two subscriptions to the session and type were made at the same time. */
  ghost predicate DistinctTimes(ops: seq<Op>, sessionID: string, msgType: nat) {
    forall i, j | 0 <= i < j < |ops| && ops[i].Subscribe? && ops[j].Subscribe?
        && ops[i].sessionID == ops[j].sessionID == sessionID && ops[i].msgType == ops[j].msgType == msgType ::
      ops[i].now != ops[j].now
  }

  /** The i-th call subscribed the channel, and its identifier was not unsubscribed later. */
  ghost predicate Subscribed(ops: seq<Op>, i: nat, sessionID: string, msgType: nat, channel: Channel) {
    && i < |ops| && ops[i].Subscribe?
    && ops[i].sessionID == sessionID && ops[i].msgType == msgType && ops[i].channel == channel
    && forall j | i < j < |ops| && ops[j].Unsubscribe? ::
         Unwrap(ops[j].id) != Unwrap(NewSubscriptionID(sessionID, msgType, ops[i].now))
  }

  /** `GetSubscribers` of a session without dashes yields exactly the channels subscribed and not
      yet unsubscribed. */
  lemma LiveChannels(ops: seq<Op>, sessionID: string, msgType: nat, channel: Channel)
    requires Plain(sessionID, msgType) && DistinctTimes(ops, sessionID, msgType)
    ensures channel in Entries(After(ops), sessionID, msgType).Values
            <==> exists i: nat :: Subscribed(ops, i, sessionID, msgType, channel)
  {
    var entries := Entries(After(ops), sessionID, msgType);
    if channel in entries.Values {
      var key :| key in entries && entries[key] == channel;
      PlainKeys(ops, sessionID, msgType, key);
      var now: nat :| key == Decimal(now);
      PlainEntries(ops, sessionID, msgType, channel, now);
      var i: nat :| LiveSince(ops, i, sessionID, msgType, channel, now);
      RoundTrip(sessionID, msgType, now);
      assert Subscribed(ops, i, sessionID, msgType, channel);
    }
    if i: nat :| Subscribed(ops, i, sessionID, msgType, channel) {
      var now := ops[i].now;
      RoundTrip(sessionID, msgType, now);
      assert LiveSince(ops, i, sessionID, msgType, channel, now);
      PlainEntries(ops, sessionID, msgType, channel, now);
      assert Decimal(now) in entries;
    }
  }

  // ---- sessions with dashes -------------------------------------------------------------

  predicate IsSubscription(op: Op, sessionID: string, msgType: nat) {
    op.Subscribe? && op.sessionID == sessionID && op.msgType == msgType
  }

  /** The channel of the last subscription to the session and type, if any. */
  function Latest(ops: seq<Op>, sessionID: string, msgType: nat): Option<Channel> {
    if ops == [] then None
    else
      var op := ops[|ops| - 1];
      if IsSubscription(op, sessionID, msgType) then Some(op.channel)
      else Latest(ops[..|ops| - 1], sessionID, msgType)
  }

  /** With a dash in the session every subscription is stored under the empty key: the map holds
      the latest channel only, and no unsubscribe call, whatever it is given, takes it out. */
  lemma {:induction false} DashedEntries(ops: seq<Op>, sessionID: string, msgType: nat)
    requires !Plain(sessionID, msgType)
    ensures Entries(After(ops), sessionID, msgType) ==
            match Latest(ops, sessionID, msgType) case None => map[] case Some(channel) => map["" := channel]
  {
    if ops != [] {
      var init, op := ops[..|ops| - 1], ops[|ops| - 1];
      DashedEntries(init, sessionID, msgType);
      ApplyDashed(After(init), op, sessionID, msgType);
    }
  }

  lemma ApplyDashed(t: Table, op: Op, sessionID: string, msgType: nat)
    requires !Plain(sessionID, msgType)
    ensures Entries(Apply(t, op), sessionID, msgType) ==
            if IsSubscription(op, sessionID, msgType) then Entries(t, sessionID, msgType)["" := op.channel]
            else Entries(t, sessionID, msgType)
  {
    match op
    case Subscribe(s, m, _, now) =>
      RoundTrip(s, m, now);
    case Unsubscribe(id) =>
      PiecesFree(id, '-');
  }

  /** Unsubscribing an identifier of such a session changes nothing. */
  lemma DashedUnsubscribe(t: Table, sessionID: string, msgType: nat, now: nat)
    requires !Plain(sessionID, msgType)
    ensures Apply(t, Unsubscribe(NewSubscriptionID(sessionID, msgType, now))) == t
  {
    RoundTrip(sessionID, msgType, now);
  }
}
