/** Subscription identifiers (comm/subID.go): session, message type and a timestamp, printed with
    dashes in between and parsed by splitting at dashes. */
module SubscriptionID {
  import opened Wrappers
  import opened Strings

  /** Message types are the integers from 0, the last, 19, being `Unknown` (comm/messages.go). */
  const UNKNOWN: nat := 19

  datatype Parts = Parts(sessionID: string, msgType: int, identifier: string)

  /** The printed form; `now` is the clock reading in nanoseconds. */
  function NewSubscriptionID(sessionID: string, msgType: nat, now: nat): string {
    sessionID + "-" + Decimal(msgType) + "-" + Decimal(now)
  }

  function Unwrap(id: string): (r: Option<Parts>)
    ensures r.Some? ==> r.value.msgType <= UNKNOWN
  {
    var parts := Split(id, '-');
    if |parts| != 3 then None
    else match ParseInt8(parts[1])
      case None => None
      case Some(msgType) => if msgType > UNKNOWN then None else Some(Parts(parts[0], msgType, parts[2]))
  }

  /** What callers that drop the error see: the empty string. */
  function SubscriptionIdentifier(id: string): string {
    match Unwrap(id)
    case None => ""
    case Some(p) => p.identifier
  }

  lemma SplitPrinted(sessionID: string, msgType: nat, now: nat)
    ensures Split(NewSubscriptionID(sessionID, msgType, now), '-')
            == Split(sessionID, '-') + [Decimal(msgType), Decimal(now)]
  {
    DecimalDigits(msgType);
    DecimalDigits(now);
    var front := sessionID + "-" + Decimal(msgType);
    SplitFree(Decimal(msgType), '-');
    SplitFree(Decimal(now), '-');
    SplitConcat(sessionID, Decimal(msgType), '-');
    SplitConcat(front, Decimal(now), '-');
    assert front == sessionID + ['-'] + Decimal(msgType);
    assert NewSubscriptionID(sessionID, msgType, now) == front + ['-'] + Decimal(now);
  }

  /** For every message type: unwrapping a printed identifier gives back what was printed exactly
      when the session has no dash and the type is one of the twenty defined ones; otherwise it is
      rejected. */
  lemma RoundTrip(sessionID: string, msgType: nat, now: nat)
    ensures Unwrap(NewSubscriptionID(sessionID, msgType, now)) ==
            if '-' !in sessionID && msgType <= 19
            then Some(Parts(sessionID, msgType, Decimal(now))) else None
  {
    ParseDecimal(msgType);
    PartsOfPrinted(sessionID, msgType, now);
  }

  lemma PartsOfPrinted(sessionID: string, msgType: nat, now: nat)
    ensures var parts := Split(NewSubscriptionID(sessionID, msgType, now), '-');
            if '-' in sessionID then |parts| > 3 else parts == [sessionID, Decimal(msgType), Decimal(now)]
  {
    SplitPrinted(sessionID, msgType, now);
    SplitFree(sessionID, '-');
  }
}
