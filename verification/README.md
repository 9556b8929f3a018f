# Verified model of the signing relayer

The relayer lets a committee of peers sign together. This project models, in Dafny, how the
relayers of one session agree on a leader, gather ready peers, fix one signing subset and start
exactly one party each, and four smaller pieces of logic around that: resharing committees, loading
the environment, message routing, and the borrow limit with its confirmations.

`dafny verify dfyconfig.toml` checks everything.

## The session protocol

`Session.dfy` is a step system. Each honest node has the state that `initiate` or `waitForStart` and
its signing process keep; the network is the set of messages sent, so any message may be lost,
duplicated or reordered. Peers that are not honest may send anything, at any time, but only under
their own name, because the receiver takes the sender from the connection. Nodes hold their peer
lists in whatever order. The hash prefix that ranks peers is a parameter; where distinct prefixes
are needed this is a hypothesis (`DistinctRanks`), and the choice among ties is left open.

The main results hold in every run:

- nodes that follow one honest coordinator and become parties use the same subset (`Agreement`),
  whatever the other peers do; the subset has exactly `threshold + 1` distinct key-share peers, each
  of which, the coordinator apart, has told the coordinator that it is ready (`PartySubset`); a
  node outside it never becomes a party (`OutsiderNeverJoins`); the resulting party lists and
  indexes are identical (`AgreedParties`);
- all start messages of one coordinator name one subset although its loop goes on (`SingleSubset`);
- with an elected leader, nodes that hold the same peers in different orders cannot diverge
  (`ElectedAgreement`, resting on `ElectionOrderIndependent`, an equivalence);
- the exact test for `threshold + 1` ready holders is never jumped over when the threshold is at
  least one: in every state the start message is out exactly if that many are ready
  (`StartSentExactly`, and `StartGoesOut` for the loop itself); for every threshold it goes out under
  one exact condition (`FiredExactly`, `ThresholdZeroNeverFires`), and what it names depends on the
  ready set only (`ParamsOfSet`);
- what a node that follows somebody else runs, that very peer has told it, honest or not
  (`OnlyCoordinatorStarts`);
- every quorum of honest peers can be brought to the end (`QuorumCompletes`), so the above is not
  about runs that do not exist.

`Process.dfy` and `Coordinator.dfy` hold the imperative code: the process with its `Started` guard
and the two event loops, proved for every sequence of events the `select` may pick.
`InitiateRoundIsStep`, `WaitEventIsStep` and the contract of `TssProcess.Run` show that what they do
is what the step system does. `Execute.dfy` interleaves whole `Execute` calls of one node.

`Borrowing.dfy` carries the borrow limit (`Amounts.dfy`) and the confirmations (`Confirmations.dfy`)
through the Across and LiFi handlers: a signing is started exactly if the borrow is within the limit
and the deposit was seen, in time, as deep as the bucket of its order value asks.

## Where the code does not keep what one would expect

- With threshold zero the coordinator can go from one ready holder to two without a check in
  between and never start (`ThresholdZeroNeverFires`); topology loading rejects such thresholds.
- A waiting node takes a start message of a stranger exactly if it has no coordinator or the stranger
  is its coordinator (`NoCoordinatorTrustsAnyone`, `StrangerStartsExactly`); a resharing newcomer,
  which has no key peers, is in the first position (`NewcomerHasNoCoordinator`).
- The length tests of keygen and resharing are wrong exactly when as many outsiders are ready as
  members are missing, at least one (`TestWrongExactly`); so they are right whatever arrives exactly if
  nobody from outside the peerstore can send (`OutsiderBreaksEveryone`).
- The timeout branch releases the key share lock once more than it was taken; a keygen process that
  is stopped before its `Run` has the lock releases a lock it does not hold, which ends the
  program if nobody else holds it; a rejected resharing keeps the lock; only the first process of a call is ever run. `LockDiscipline`
  and `LockBalance` have the exact cases.
- A node without a key share compares the old subset it is sent with nothing and drops no duplicates
  from it; its party list then overflows exactly when the subset neither covers the peerstore nor is
  a duplicate-free part of it (`SentSubsetFits`, `AcceptedParamsFit`).
- Of two values for one variable name the later one stays; loading depends on the order exactly if
  this happens at a name that no other variable shadows (`OrderIndependentExactly`).
- Sessions whose name contains a dash, as those of the message handlers do, store every subscription
  under the empty key and cannot be unsubscribed (`DashedEntries`, `DashedUnsubscribe`).
- A LiFi order without outputs or generic inputs passes the checks for multiple ones and then makes
  the handler read the first of them (`ValidOrders` has the exact case).
- When the observed head is behind the receipt, or the product does not fit 64 bits, the waiting time
  is not a block time per missing confirmation (`SleepExactly`).
- The comment above `Ready` in signing says "if threshold+1 parties are ready"; the code asks for
  exactly that many, and the model follows the code.

## Model

| member | source | states |
|---|---|---|
| PeerOrder.SortPeersForSession | tss/util/util.go:12-23 | the in-place sort of the filled slice yields a permutation of the peers in which `hash(id + session)` never increases, with the session kept in every entry |
| PeerOrder.Coordinator | comm/elector/static.go:21-27 | the elected peer is one of greatest rank among the given ones, or the empty peer if there is none |
| PeerOrder.LeadersAreHeads | tss/util/sort.go:29-34 | the peers that can stand first after sorting are exactly those of greatest rank |
| PeerOrder.SessionOrderUnique | tss/util/sort.go:29-34 | lists of the same peers with distinct prefixes sort to one sequence, whatever their orders |
| PeerOrder.ElectionOrderIndependent | comm/elector/static.go:21-27 | every reordering elects the same leader iff no two peers tie for the greatest rank |
| Parties.KeyInjective | tss/ecdsa/common/utils.go:14-17 | the integer party key determines the peer among byte strings without a leading zero |
| Parties.KeysCollideExactly | tss/ecdsa/common/utils.go:14-17 | two byte strings share a key iff they are equal up to leading zero bytes |
| Parties.KeyBytes | tss/ecdsa/common/utils.go:14-17 | read in base 256 from the most significant digit on, the key has exactly the bytes of the ID as digits |
| Parties.PartiesFromPeers | tss/ecdsa/common/utils.go:33-41 | the parties are the given peers, keys ascending, each fresh and indexed by its position |
| Parties.PartyListUnique | tss/ecdsa/common/utils.go:33-41 | nodes with the same peers in any order build the same party list |
| Session.PartySubset | tss/coordinator.go:198-314 | in every run a party with an honest coordinator has a duplicate-free subset of exactly threshold+1 of its key-share peers including itself, and every other member's ready message was sent, by honest members only in answer to that coordinator |
| Session.Agreement | tss/coordinator.go:198-314 | two nodes following one honest coordinator that become parties, at any times, use the same subset, in the same order if prefixes are distinct |
| Session.OutsiderNeverJoins | tss/ecdsa/signing/signing.go:113-115 | a node outside a party's subset is never a party |
| Session.OnceAParty | tss/ecdsa/signing/signing.go:95-102 | a node that became a party keeps that subset for the rest of the run |
| Session.SingleSubset | tss/coordinator.go:216-244 | any two start messages of one honest coordinator in a run decode and name the same subset |
| Session.ElectedAgreement | tss/coordinator.go:107-110 | with each node electing from its own ordering of the same peers, all parties of the session have one and the same subset |
| Session.OnlyCoordinatorStarts | tss/coordinator.go:294-310 | in every run, a party whose coordinator is another peer, honest or not, was sent its subset in a start message by that peer |
| Session.RunInv | tss/coordinator.go:198-332 | every state of every run satisfies the invariant on ready lists, messages, pending launches and parties |
| Starting.StartSentExactly | tss/coordinator.go:216-244 | in every state of every run, a leader with a threshold of at least one has sent the start to each other peer it knows iff threshold+1 holders are on its ready list |
| Starting.ParamsOfSet | tss/ecdsa/signing/signing.go:181-197 | with distinct prefixes, equal ready sets, holders and thresholds give the same params, whatever the orders |
| Completion.QuorumCompletes | tss/coordinator.go:198-332 | for every leader with threshold honest followers some run makes all of them parties with exactly that subset |
| Completion.NoCoordinatorTrustsAnyone | tss/coordinator.go:294-299 | a listening node without a coordinator can be made a party to any subset containing it by any stranger |
| Completion.StrangerStartsExactly | tss/coordinator.go:294-299 | a dishonest peer can make a waiting node a party to a subset nobody else names to it iff the node has no coordinator or that peer is its coordinator |
| Readiness.ReadyAfterMembers | tss/coordinator.go:204-225 | the ready list is duplicate-free and holds the host and all senders not excluded |
| Readiness.SameHoldersAtEveryFiring | tss/ecdsa/signing/signing.go:168-197 | every time the start fires the list of ready key-share peers is the same |
| Readiness.FiredExactly | tss/ecdsa/signing/signing.go:168-171 | for any threshold the test succeeds after some ready message iff the ready holders finally reach threshold+1 and do not exceed it after the first message |
| Readiness.NeverJumpedOver | tss/ecdsa/signing/signing.go:168-171 | for thresholds of at least one the exact test has succeeded after some ready message iff threshold+1 distinct key-share peers are ready |
| Readiness.ThresholdZeroNeverFires | topology/topology.go:127-129 | with threshold zero, a share-holding coordinator that first hears another holder never starts, though enough are ready |
| Readiness.ReadyAnswers | tss/ecdsa/signing/signing.go:168-171 | a signing is told yes or no by the number of distinct ready holders and never fails; resharing goes by lengths alone; keygen fails iff somebody is excluded |
| Readiness.StartsOnlyWithEveryone | tss/ecdsa/keygen/keygen.go:130-136 | in every state of the loop the length test of keygen and resharing succeeds iff the ready set is the whole peerstore, and for keygen nobody is excluded |
| Readiness.LengthTestExactly | tss/ecdsa/resharing/resharing.go:160-162 | whoever sends, the length test of keygen and resharing succeeds iff as many outsiders are ready as members are missing, and for keygen nobody is excluded |
| Readiness.TestWrongExactly | tss/ecdsa/keygen/keygen.go:130-136 | the test disagrees with everyone being ready iff those two numbers are equal and not zero |
| Readiness.OutsiderBreaksEveryone | tss/ecdsa/resharing/resharing.go:160-162 | for a peerstore of at least two, none of them excluded, the test is right for all messages that may arrive iff nobody outside the peerstore, except excluded peers, can send |
| Process.IsParticipant | tss/util/util.go:25-33 | finds a peer iff it is in the list |
| Process.PeersIntersection | tss/ecdsa/common/utils.go:70-80 | the loop keeps the members found in the other list, in order |
| Process.TssProcess.Ready | tss/ecdsa/signing/signing.go:168-171 | the answer of each kind of process over the given lists, and keygen's error iff peers are excluded |
| Process.TssProcess.StartParams | tss/ecdsa/signing/signing.go:181-197 | threshold+1 ready holders, or all if they are fewer, and none left out has a greater hash prefix than one chosen; for resharing the old threshold and each old member as often as listed, if in the peerstore; for keygen nothing |
| Process.TopParams | tss/ecdsa/signing/signing.go:181-197 | the same of all params a signing may give for any ready list |
| Process.TssProcess.Run | tss/ecdsa/signing/signing.go:89-123 | only the first call gets past the guard; the result tells bad params from an absent host; a party is built from the subset alone; the call is the launch step of the session system |
| Process.AgreedParties | tss/ecdsa/signing/signing.go:117-121 | the parties of one session, built independently by their nodes, have the same list and indexes even when prefixes tie |
| Coordinator.Communication.Broadcast | comm/p2p/libp2p.go:71-114 | one message to each given peer except the sender, in order |
| Coordinator.EnvelopesInOrder | comm/p2p/libp2p.go:71-114 | without the sender in the list, one envelope for each entry at its place |
| Coordinator.ChooseCoordinator | tss/coordinator.go:107-110 | a given coordinator is kept; otherwise a peer with the greatest `hash(id + session)` is elected among the key peers for signing, the peerstore for keygen, the peers in both for resharing, and nobody if there is none |
| Coordinator.SameCoordinator | tss/ecdsa/resharing/resharing.go:166-178 | for every kind of process, nodes holding the same key-share peers and peerstore in any order elect the same coordinator if the candidates do not tie at the top |
| Coordinator.NewcomerHasNoCoordinator | tss/ecdsa/resharing/resharing.go:166-178 | a resharing node ends up with the empty coordinator iff none of its key peers is in its peerstore |
| Coordinator.Initiate | tss/coordinator.go:198-255 | for every event sequence: the ready list is the one the senders determine, start messages go out in exactly the rounds in which the process is ready and carry its params for that round; the loop returns iff process or context is done, fails iff keygen hears a ready message with peers excluded, and otherwise waits through all ready messages and ticks |
| Coordinator.SentExactly | tss/coordinator.go:226-250 | for every kind of process, exactly the rounds with a tick call everyone again and exactly those with params send them to everyone else |
| Coordinator.StartGoesOut | tss/coordinator.go:216-244 | the log of a signing coordinator holds a start message iff threshold+1 distinct holders are ready, for thresholds of at least one; for any threshold iff also the first ready message did not bring too many |
| Coordinator.InitiateRoundIsStep | tss/coordinator.go:216-253 | each round of the loop is a step of the session system, with the same messages |
| Coordinator.WaitForStart | tss/coordinator.go:259-314 | answers and launches are those of the events handled; the loop returns iff cancelled and fails iff the process ended or an accepted start message does not decode, at the first such event |
| Coordinator.AnswersAndLaunches | tss/coordinator.go:274-312 | exactly the initiate messages are answered, and the decodable start messages launched, that come from the coordinator, or from anybody if there is none |
| Coordinator.InOrderOfEvents | tss/coordinator.go:290-310 | the launches of a sequence of events are those of its parts in order |
| Coordinator.OneLaunch | tss/coordinator.go:294-310 | one event launches something iff it is a decodable start message of the coordinator, or of anybody if there is none |
| Coordinator.WaitEventIsStep | tss/coordinator.go:274-312 | handling one event is a step of the session system, with the same messages and launches |
| Execute.Coordinator.Enter | tss/coordinator.go:83-91 | accepts iff the session is not pending, marks it, and leaves everything alone on rejection |
| Execute.Coordinator.Leave | tss/coordinator.go:99-101 | clears the mark of its own session and nothing else |
| Execute.MutualExclusion | tss/coordinator.go:83-105 | under any interleaving a session is pending iff a call holds it, and at most one call does |
| Execute.OnlyHolderClears | tss/coordinator.go:83-105 | a mark disappears only in the step in which its holder leaves |
| Execute.LockDiscipline | tss/coordinator.go:96-153 | over the whole run up to the end of an accepted call, a process never releases the key share lock more often than it took it iff it is a signing, or there was no timeout for it and, for keygen, its `Run` had the lock before the first `Stop` |
| Execute.LockBalance | tss/coordinator.go:96-153 | after a call a process has never released too often and has released as often as it took iff, for an accepted call, that same condition holds, and for a rejected one, it is not a resharing |
| Execute.BothHappen | tss/coordinator.go:96-153 | from any beginning a resharing or keygen call can end properly, and can end with a release too many |
| Execute.LateRun | tss/ecdsa/keygen/keygen.go:68-84 | a keygen `Run` after the end of its call evens the totals out, with a release of a lock not held before |
| Resharing.Resharing.ValidateStartParams | tss/ecdsa/resharing/resharing.go:206-223 | without a key share it accepts iff the threshold is positive and met; with one iff moreover the subset lists the key peers in the peerstore without duplicates; which error otherwise; both lists are only reordered |
| Resharing.AcceptableMeans | tss/ecdsa/resharing/resharing.go:206-223 | the same for all lists and thresholds |
| Resharing.EmittedParamsPass | tss/ecdsa/resharing/resharing.go:181-189 | what one old member emits passes on every old member with the same peers in any order iff the threshold is positive and met |
| Resharing.Resharing.SortParties | tss/ecdsa/resharing/resharing.go:248-263 | old parties keep their places and indexes, the others follow indexed by position; it runs out of range iff the stated count exceeds the list |
| Resharing.FitsExactly | tss/ecdsa/resharing/resharing.go:248-263 | without duplicates the arrangement is a permutation iff the old committee is part of the new, and otherwise runs out of range as soon as there is someone to place |
| Resharing.CompleteList | tss/ecdsa/resharing/resharing.go:248-263 | with the old committee in the new one and no duplicates, every new party is in the list with the index of its place, the old committee first |
| Resharing.KeysAscend | tss/ecdsa/resharing/resharing.go:248-263 | in either part of the list the keys ascend |
| Resharing.SentSubsetFits | tss/ecdsa/resharing/resharing.go:248-263 | for whatever list is sent, duplicates included, the arrangement stays in range iff the list covers the peerstore or is a duplicate-free part of it |
| Resharing.AcceptedParamsFit | tss/ecdsa/resharing/resharing.go:216-220 | on a node with a key share accepted params give a permutation of the peerstore; on one without they run out of range iff the subset neither covers the peerstore nor is a duplicate-free part of it |
| Resharing.Resharing.Run | tss/ecdsa/resharing/resharing.go:85-111 | guard, validation and arrangement together: which params are invalid and why, with and without a key share, when the index runs out of range, and what list results |
| Resharing.SameResharingParties | tss/ecdsa/resharing/resharing.go:107-111 | nodes with equal peerstore and old subset, duplicates included, in any order, compute the same new party list |
| SubscriptionID.RoundTrip | comm/subID.go:18-62 | unwrapping a printed identifier gives back its parts iff the session has no dash and the type is one of 0 to 19, and fails otherwise |
| Subscriptions.SessionSubscriptionManager.SubscribeTo | comm/p2p/subscription.go:45-66 | returns session, type and time joined by dashes; the nested map changes by the one entry under it |
| Subscriptions.SessionSubscriptionManager.UnSubscribeFrom | comm/p2p/subscription.go:68-85 | removes the entry the identifier unwraps to, if there is one, and changes nothing else |
| Subscriptions.SessionSubscriptionManager.GetSubscribers | comm/p2p/subscription.go:28-43 | every channel is returned exactly as often as there are entries of the session and type that hold it |
| Subscriptions.PlainEntries | comm/p2p/subscription.go:45-85 | for dash-free sessions, after any calls, the entry of a timestamp holds a channel iff it was subscribed then and not ended since |
| Subscriptions.LiveChannels | comm/p2p/subscription.go:28-85 | with distinct timestamps the channels of a dash-free session are exactly those subscribed and not unsubscribed |
| Subscriptions.DashedEntries | comm/subID.go:38-44 | for sessions with a dash only the latest channel is held, under the empty key, whatever is unsubscribed |
| Subscriptions.DashedUnsubscribe | comm/p2p/subscription.go:74-77 | unsubscribing such an identifier changes nothing |
| Framing.Stream.WriteStream | comm/p2p/util.go:28-39 | appends the message and a newline to what is unread |
| Framing.Stream.ReadStream | comm/p2p/util.go:13-25 | takes the text before the first newline off the stream, or reports its end |
| Framing.Stream.ReadMessages | comm/p2p/libp2p.go:152-165 | takes the messages in order until the stream ends or one does not decode |
| Framing.FramingRoundTrip | comm/p2p/util.go:13-39 | what is taken is what was written iff no message contains a newline and all decode |
| Framing.ArrivesUpToFirstBad | comm/p2p/libp2p.go:161-165 | of messages without newlines exactly those before the first undecodable one arrive |
| Environment.EnvMap.MountMap | config/env.go:64-77 | the recursion on nested maps changed in place computes the mounting of one variable |
| Environment.LookupMount | config/env.go:64-77 | mounting under an existing leaf changes nothing; otherwise it sets its path, hides what lay below, and changes nothing else |
| Environment.BuildHoldsUnshadowed | config/env.go:52-77 | the tree of variables with distinct names holds exactly those without another variable as proper prefix, at their own paths |
| Environment.BuildLookup | config/env.go:52-77 | for any variables the tree holds at a path the last value given to it, unless a proper prefix is also a variable |
| Environment.Confluent | config/env.go:52-77 | the same variables in any order give the same tree if no unshadowed path has two values |
| Environment.OrderIndependentExactly | config/env.go:52-77 | all orders of the variables give one tree iff no unshadowed path has two values |
| Environment.LoadENV | config/env.go:52-62 | the loop mounts exactly the selected entries; with distinct names the result holds a value at a path iff some entry assigns it there and none assigns to a proper prefix |
| Environment.AssignsMeans | config/env.go:54-58 | an entry is mounted with a path and value iff "SYG" occurs in it and it reads name=value, cut at the first equals sign, with the name made of the pieces of the path and underscores |
| Environment.LoadedStructure | config/env.go:52-62 | the loaded structure of an environment with distinct names is independent of its order, and holds a value at a path iff some name=value entry assigns it there and none assigns to a proper prefix |
| Amounts.BorrowBound | chains/util.go:25-35 | for any decimals a borrow is within the scaled input iff borrow*10^src <= input*10^dst |
| Amounts.ScaleByDecimals | chains/util.go:25-35 | a decimal more on the source divides by ten, one more on the destination multiplies by ten, equal decimals change nothing |
| Amounts.Pow10Written | chains/util.go:29-33 | the scale for n decimals is written as a one with n zeros |
| Amounts.ScaleDownComposes | chains/util.go:25-35 | scaling down through intermediate decimals equals scaling down at once |
| Amounts.ScaleUpThenDown | chains/util.go:25-35 | up then down is the identity |
| Amounts.ScaleDownThenUp | chains/util.go:25-35 | down then up loses less than 10^(src-dst) |
| Amounts.SameBorrowLimit | chains/evm/message/lifiEscrow.go:275-278 | the Across and the LiFi check reject exactly the same borrows, those above the limit |
| Borrowing.ValidOrders | chains/evm/message/lifiEscrow.go:257-285 | a LiFi order passes iff it has one input, one output, a generic input, known tokens, a borrow within the limit and the library's consent; and exactly when reading beyond a list happens |
| Borrowing.LimitByDecimals | chains/evm/message/across.go:159-164 | with equal decimals the limit is the input; a decimal more on either side shifts it by one digit |
| Borrowing.ConfirmedMeans | chains/evm/message/confirmations.go:87-137 | a deposit counts as confirmed iff the smallest bucket strictly above its value exists and some observation before the end of the time has the head that many blocks ahead of the receipt |
| Borrowing.MessageHandler.HandleAcross | chains/evm/message/across.go:107-217 | signing starts iff the repayer is known, the borrow is within the limit and the deposit was observed in time as deep as its order's bucket demands, and hash and key share are there; then last, after the wait and the nil report; one report unless the wait goes on |
| Borrowing.MessageHandler.HandleLifi | chains/evm/message/lifiEscrow.go:94-195 | the same for an order that passes `verifyOrder`; a panic before any report exactly in the out-of-range case |
| Borrowing.MessageHandler.Notify | chains/evm/message/across.go:252-264 | only a message without coordinator is announced, and then the host is its coordinator |
| Borrowing.CoverageMonotone | chains/evm/message/across.go:159-174 | with a monotone table, a deposit that covers a borrow goes on to cover any smaller one, at any smaller order value, with any later observations |
| Confirmations.MinimalConfirmations | chains/evm/message/confirmations.go:127-137 | the count of the smallest bucket strictly above the value, or an error iff there is none |
| Confirmations.LargerOrdersWaitLonger | chains/evm/message/confirmations.go:127-137 | a monotone table never asks fewer confirmations for a larger order |
| Confirmations.Wait | chains/evm/message/confirmations.go:87-123 | the outcome is decided by the first observation that is deep enough or finds the context done; after every other one a block time is slept, or the computed time if confirmations are missing |
| Confirmations.WaitedExactly | chains/evm/message/confirmations.go:87-123 | the wait succeeds iff some observation is deep enough with no cancellation before it, and goes on iff there is neither |
| Confirmations.WaitForConfirmations | chains/evm/message/confirmations.go:45-66 | refuses iff no bucket is above the value, and otherwise waits by the smallest such bucket |
| Confirmations.SleepExactly | chains/evm/message/confirmations.go:112-120 | the 64-bit computation gives one block time per missing confirmation iff the head is not behind the receipt and the product fits |
| Confirmations.OneSleepSuffices | chains/evm/message/confirmations.go:87-123 | the loop has returned with success by the second answer of the chain client, if in between the chain added a block per block time slept, however many requests failed |

## Left out

- The threshold cryptography, the rounds of its messages and the creation of its parameters: foreign code; a party is modelled by the list it is built from.
- Marshalling: start messages are taken to arrive as they were sent, or not to decode at all.
- A second `Execute` of one session on the same node after the first has ended: the session system has one run of each loop per node.
- The ticker being stopped after the start message: initiate messages may be repeated at any time.
- Results of `startProcess`, which are dropped when nobody receives them: ending a loop is a step that may happen at any time.
- `Execute` as one body, with its pool, contexts and the watch loop's fail messages: its critical sections and the calls between them are steps of an interleaving.
- Blocking on the key share lock, and the end of the program at an unlock too many: the calls are counted and the run goes on.
- Execute.LockBalance: is about the run up to its last state; lock and unlock calls are counted per process, so another process that holds the same lock meanwhile is not seen.
- Session.ElectedAgreement: is about nodes whose lists hold the same peers; nodes with different key shares are outside it.
- Peer IDs are identified with their printed form; the order `slices.Sort` uses on them is some total order.
- The library sorts are one sorted permutation each; what is proved of results of sorting holds for any other.
- `orderValue` in floating point: the integer order value is an input.
- `big.Int.Uint64` outside its range is undefined by its documentation; the model takes the low 64 bits of the magnitude, as the library does.
- `calldata`, hashing and storage of signatures, the Lighter, credit and unlock handlers, price and order clients: calls into libraries or easy branches.
- The pricing and validation of LiFi orders by the order library: its verdict is an input of `VerifyOrder`, as are the lookups of the two tokens; so are whether a hash can be made and a key share is at hand.
- Unmarshalling of received messages: which texts decode is a parameter of `ReadMessages`.
- HTTP handlers, command line, metrics, health checks, caches and configuration stores.
