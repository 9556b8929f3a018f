/** The Across and LiFi message handlers (chains/evm/message/across.go, lifiEscrow.go): how the
    borrow limit, the confirmations of the deposit and the signing hang together. */
module Borrowing {
  import opened Wrappers
  import opened Amounts
  import opened Confirmations

  // ---- the LiFi order -------------------------------------------------------------------

  /** What `verifyOrder` looks at. `genericInputs` lists the amounts of the order's generic inputs,
      a list of its own beside `inputs` and `outputs`; the decimals are those of the first generic
      input's token, if known, on either chain; `accepted` is what the order library thinks. */
  datatype Order = Order(inputs: nat, outputs: nat, genericInputs: seq<int>, srcDecimals: Option<nat>,
                         dstDecimals: Option<nat>, accepted: bool)

  /** `OutOfRange` stands for the access to a first element that is not there. */
  datatype Verdict = Valid | Invalid | OutOfRange

  function VerifyOrder(order: Order, borrow: int): Verdict {
    if order.inputs > 1 || order.inputs == 0 then Invalid
    else if order.outputs > 1 then Invalid
    else if order.genericInputs == [] then OutOfRange
    else if order.srcDecimals.None? then Invalid
    else if order.outputs == 0 then OutOfRange
    else if order.dstDecimals.None? then Invalid
    else if LifiRejects(borrow, order.genericInputs[0], order.srcDecimals.value, order.dstDecimals.value) then Invalid
    else if order.accepted then Valid
    else Invalid
  }

  /** The borrow is worth no more than the input, in units of both tokens' smallest fractions. */
  predicate WithinLimit(borrow: int, input: int, src: Option<nat>, dst: Option<nat>) {
    src.Some? && dst.Some? && borrow * Pow10(src.value) <= input * Pow10(dst.value)
  }

  /** With equal decimals the limit is the input itself; a decimal more on the source chain means
      one digit less to borrow, one more on the destination chain one digit more. */
  lemma LimitByDecimals(borrow: int, input: int, src: nat, dst: nat)
    ensures WithinLimit(borrow, input, Some(dst), Some(dst)) <==> borrow <= input
    ensures WithinLimit(borrow, input, Some(src + 1), Some(dst)) <==>
            WithinLimit(10 * borrow, input, Some(src), Some(dst))
    ensures WithinLimit(borrow, input, Some(src), Some(dst + 1)) <==>
            WithinLimit(borrow, 10 * input, Some(src), Some(dst))
  {
    MulMonotone(borrow, input, Pow10(dst));
    MulAssociative(borrow, 10, Pow10(src));
    MulAssociative(input, 10, Pow10(dst));
  }

  /** An order passes exactly with one input, one output, a generic input, known tokens, a borrow
      within the limit and the library's consent. It makes the check read beyond a list exactly if
      it gets past the checks for multiple inputs and outputs but has no generic input, or no
      output while the source token is known. */
  lemma ValidOrders(order: Order, borrow: int)
    ensures VerifyOrder(order, borrow) == Valid <==>
            (order.inputs == 1 && order.outputs == 1 && order.genericInputs != []
             && WithinLimit(borrow, order.genericInputs[0], order.srcDecimals, order.dstDecimals) && order.accepted)
    ensures VerifyOrder(order, borrow) == OutOfRange <==>
            (order.inputs == 1 && order.outputs <= 1
             && (order.genericInputs == [] || (order.outputs == 0 && order.srcDecimals.Some?)))
  {
    if order.genericInputs != [] && order.srcDecimals.Some? && order.dstDecimals.Some? {
      SameBorrowLimit(borrow, order.genericInputs[0], order.srcDecimals.value, order.dstDecimals.value);
    }
  }

  // ---- waiting for the deposit ----------------------------------------------------------

  /** The block of the deposit was seen, in time, at least as deep as the smallest bucket above the
      value of the order asks. */
  ghost predicate DepositConfirmed(confirmations: map<nat, nat>, value: int, observations: seq<Observation>) {
    exists b | IsBucket(confirmations, value, b) :: DeepInTime(confirmations[b], observations)
  }

  /** Spelled out: the table has a bucket strictly above the value, and some observation made
      before the time was over has the head as far ahead of the receipt as that table entry. */
  lemma ConfirmedMeans(confirmations: map<nat, nat>, value: int, observations: seq<Observation>)
    ensures DepositConfirmed(confirmations, value, observations) <==>
            exists b, i | b in confirmations && 0 <= i < |observations| ::
              && value < b && (forall c | c in confirmations && value < c :: b <= c)
              && observations[i].Observed? && observations[i].head >= observations[i].receipt + confirmations[b]
              && forall j | 0 <= j < i :: observations[j] != Cancelled
  {
    if DepositConfirmed(confirmations, value, observations) {
      var b :| IsBucket(confirmations, value, b) && DeepInTime(confirmations[b], observations);
      var i :| 0 <= i < |observations| && Deep(observations[i], confirmations[b])
               && forall j | 0 <= j < i :: !observations[j].Cancelled?;
      assert b in confirmations && 0 <= i < |observations|;
    }
    if b, i :| (b in confirmations && 0 <= i < |observations|
                && value < b && (forall c | c in confirmations && value < c :: b <= c)
                && observations[i].Observed? && observations[i].head >= observations[i].receipt + confirmations[b]
                && forall j | 0 <= j < i :: observations[j] != Cancelled) {
      assert IsBucket(confirmations, value, b) && Deep(observations[i], confirmations[b]);
    }
  }

  /** So far neither enough confirmations nor the end of the time allowed were seen. */
  ghost predicate DepositPending(confirmations: map<nat, nat>, value: int, observations: seq<Observation>) {
    exists b | IsBucket(confirmations, value, b) ::
      forall o | o in observations :: !o.Cancelled? && !Deep(o, confirmations[b])
  }

  lemma OneBucket(confirmations: map<nat, nat>, value: int, b: nat, observations: seq<Observation>)
    requires IsBucket(confirmations, value, b)
    ensures DepositConfirmed(confirmations, value, observations) <==>
            Waited(confirmations[b], observations) == Confirmed
    ensures DepositPending(confirmations, value, observations) <==>
            Waited(confirmations[b], observations) == StillWaiting
  {
    WaitedExactly(confirmations[b], observations);
    assert forall c | IsBucket(confirmations, value, c) :: c == b;
  }

  /** With a monotone table, what confirms the deposit of one order confirms it for any smaller
      order. */
  lemma SmallerOrderConfirmed(confirmations: map<nat, nat>, v: int, w: int, observations: seq<Observation>)
    requires Monotone(confirmations) && v <= w && DepositConfirmed(confirmations, w, observations)
    ensures DepositConfirmed(confirmations, v, observations)
  {
    var c :| IsBucket(confirmations, w, c) && DeepInTime(confirmations[c], observations);
    LargerOrdersWaitLonger(confirmations, v, w, c);
    var b :| IsBucket(confirmations, v, b) && confirmations[b] <= confirmations[c];
    WaitedExactly(confirmations[c], observations);
    WaitedFewer(confirmations[c], confirmations[b], observations);
    OneBucket(confirmations, v, b, observations);
  }

  // ---- the handlers ---------------------------------------------------------------------

  datatype Action = AwaitConfirmations | ReportError | ReportNil | Sign(coordinator: string)

  /** How handling a message ends, if it has ended. */
  datatype End = InProgress | Refused | Approved | Panicked

  /** What the rest of the world answers the Across handler. */
  datatype Deposit = Deposit(amount: int, srcDecimals: Option<nat>, dstDecimals: Option<nat>, value: Option<int>)

  /** The deposit is confirmed and of an amount that covers the borrow. */
  ghost predicate Covered(confirmations: map<nat, nat>, deposit: Deposit, borrow: int, observations: seq<Observation>) {
    && WithinLimit(borrow, deposit.amount, deposit.srcDecimals, deposit.dstDecimals)
    && deposit.value.Some? && DepositConfirmed(confirmations, deposit.value.value, observations)
  }

  /** A deposit that covers a borrow covers every smaller one, also if its order value has fallen
      and however long the observations go on. */
  lemma CoverageMonotone(confirmations: map<nat, nat>, deposit: Deposit, value: int, borrow: int, smaller: int,
                         observations: seq<Observation>, more: seq<Observation>)
    requires Monotone(confirmations) && Covered(confirmations, deposit, borrow, observations)
    requires smaller <= borrow && value <= deposit.value.value
    ensures Covered(confirmations, deposit.(value := Some(value)), smaller, observations + more)
  {
    MulMonotone(smaller, borrow, Pow10(deposit.srcDecimals.value));
    SmallerOrderConfirmed(confirmations, value, deposit.value.value, observations);
    var b :| IsBucket(confirmations, value, b) && DeepInTime(confirmations[b], observations);
    DeepStays(confirmations[b], observations, more);
  }

  lemma DeepStays(required: nat, observations: seq<Observation>, more: seq<Observation>)
    requires DeepInTime(required, observations)
    ensures DeepInTime(required, observations + more)
  {
    var i :| 0 <= i < |observations| && Deep(observations[i], required)
             && forall j | 0 <= j < i :: !observations[j].Cancelled?;
    var all := observations + more;
    assert Deep(all[i], required);
    assert forall j | 0 <= j < i :: all[j] == observations[j];
  }

  class MessageHandler {
    const host: string
    const confirmations: map<nat, nat>
    const blocktime: nat
    /** The coordinator named in the message. */
    var coordinator: string

    constructor (host: string, confirmations: map<nat, nat>, blocktime: nat, coordinator: string)
      ensures this.host == host && this.confirmations == confirmations && this.blocktime == blocktime
      ensures this.coordinator == coordinator
    {
      this.host, this.confirmations, this.blocktime, this.coordinator := host, confirmations, blocktime, coordinator;
    }

    /** Who gets a message without a coordinator first makes itself coordinator and tells all. */
    method Notify() returns (notified: bool)
      modifies this`coordinator
      ensures notified <==> old(coordinator) == ""
      ensures coordinator == if notified then host else old(coordinator)
    {
      if coordinator != "" {
        return false;
      }
      coordinator := host;
      return true;
    }

    /** The common end of both handlers: waits for the deposit, reports, and signs what `signable`
        says can be hashed and has a key share. */
    method AwaitAndSign(value: int, signable: bool, observations: seq<Observation>)
      returns (done: seq<Action>, end: End)
      ensures end == Approved <==> DepositConfirmed(confirmations, value, observations)
      ensures end == InProgress <==> DepositPending(confirmations, value, observations)
      ensures end != Panicked
      ensures end == Refused ==> done == [AwaitConfirmations, ReportError]
      ensures end == InProgress ==> done == [AwaitConfirmations]
      ensures end == Approved ==>
                done == [AwaitConfirmations, ReportNil] + if signable then [Sign(coordinator)] else []
    {
      var outcome := WaitForConfirmations(confirmations, value, blocktime, observations);
      if outcome.None? {
        return [AwaitConfirmations, ReportError], Refused;
      }
      ghost var b :| IsBucket(confirmations, value, b) && outcome.value == Waited(confirmations[b], observations);
      OneBucket(confirmations, value, b, observations);
      if outcome.value == StillWaiting {
        return [AwaitConfirmations], InProgress;
      }
      if outcome.value != Confirmed {
        return [AwaitConfirmations, ReportError], Refused;
      }
      done := [AwaitConfirmations, ReportNil];
      if signable {
        done := done + [Sign(coordinator)];
      }
      end := Approved;
    }

    /** Handles one Across message. Signing happens exactly if the message may be repaid, the
        deposit covers the borrow and hash and key share are there, after the deposit has been
        confirmed and nil reported; whoever waits for the report gets exactly one, unless the wait
        for confirmations goes on. */
    method HandleAcross(repayer: bool, deposit: Option<Deposit>, borrow: int, signable: bool,
                        observations: seq<Observation>)
      returns (notified: bool, done: seq<Action>, end: End)
      modifies this`coordinator
      ensures notified <==> repayer && old(coordinator) == ""
      ensures coordinator == if notified then host else old(coordinator)
      ensures end == Approved <==>
              repayer && deposit.Some? && Covered(confirmations, deposit.value, borrow, observations)
      ensures end == InProgress <==>
              (repayer && deposit.Some?
               && WithinLimit(borrow, deposit.value.amount, deposit.value.srcDecimals, deposit.value.dstDecimals)
               && deposit.value.value.Some? && DepositPending(confirmations, deposit.value.value.value, observations))
      ensures end != Panicked
      ensures forall c :: Sign(c) in done <==>
                          (c == coordinator && signable && repayer && deposit.Some?
                           && Covered(confirmations, deposit.value, borrow, observations))
      ensures AwaitConfirmations in done <==>
              (repayer && deposit.Some?
               && WithinLimit(borrow, deposit.value.amount, deposit.value.srcDecimals, deposit.value.dstDecimals))
      ensures end == Refused ==> done in {[ReportError], [AwaitConfirmations, ReportError]}
      ensures end == InProgress ==> done == [AwaitConfirmations]
      ensures end == Approved ==>
                done == [AwaitConfirmations, ReportNil] + if signable then [Sign(coordinator)] else []
    {
      if !repayer {
        return false, [ReportError], Refused;
      }
      notified := Notify();
      if deposit.None? {
        return notified, [ReportError], Refused;
      }
      var d := deposit.value;
      if d.srcDecimals.None? || d.dstDecimals.None? {
        return notified, [ReportError], Refused;
      }
      SameBorrowLimit(borrow, d.amount, d.srcDecimals.value, d.dstDecimals.value);
      if AcrossRejects(borrow, d.amount, d.srcDecimals.value, d.dstDecimals.value) {
        return notified, [ReportError], Refused;
      }
      if d.value.None? {
        return notified, [AwaitConfirmations, ReportError], Refused;
      }
      done, end := AwaitAndSign(d.value.value, signable, observations);
    }

    /** Handles one LiFi message, with the same outcome for an order that passes, and in the one
        case of `ValidOrders` a panic before anything is reported. */
    method HandleLifi(order: Option<Order>, value: Option<int>, borrow: int, signable: bool,
                      observations: seq<Observation>)
      returns (notified: bool, done: seq<Action>, end: End)
      modifies this`coordinator
      ensures notified <==> old(coordinator) == ""
      ensures coordinator == if notified then host else old(coordinator)
      ensures end == Approved <==>
              (order.Some? && VerifyOrder(order.value, borrow) == Valid && value.Some?
               && DepositConfirmed(confirmations, value.value, observations))
      ensures end == Approved ==>
                WithinLimit(borrow, order.value.genericInputs[0], order.value.srcDecimals, order.value.dstDecimals)
      ensures end == InProgress <==>
              (order.Some? && VerifyOrder(order.value, borrow) == Valid && value.Some?
               && DepositPending(confirmations, value.value, observations))
      ensures forall c :: Sign(c) in done <==> c == coordinator && signable && end == Approved
      ensures end == Panicked <==> order.Some? && VerifyOrder(order.value, borrow) == OutOfRange
      ensures AwaitConfirmations in done <==>
              order.Some? && VerifyOrder(order.value, borrow) == Valid && value.Some?
      ensures end == Panicked ==> done == []
      ensures end == Refused ==> done in {[ReportError], [AwaitConfirmations, ReportError]}
      ensures end == InProgress ==> done == [AwaitConfirmations]
      ensures end == Approved ==>
                done == [AwaitConfirmations, ReportNil] + if signable then [Sign(coordinator)] else []
    {
      notified := Notify();
      if order.None? {
        return notified, [ReportError], Refused;
      }
      ValidOrders(order.value, borrow);
      match VerifyOrder(order.value, borrow)
      case OutOfRange =>
        return notified, [], Panicked;
      case Invalid =>
        return notified, [ReportError], Refused;
      case Valid =>
        if value.None? {
          return notified, [ReportError], Refused;
        }
        done, end := AwaitAndSign(value.value, signable, observations);
    }
  }
}
