/** Waiting for block confirmations (chains/evm/message/confirmations.go). */
module Confirmations {
  import opened Wrappers
  import opened Sorting
  import Amounts

  // ---- the number of confirmations to wait for ------------------------------------------

  function NatLe(): (nat, nat) -> bool { (a, b) => a <= b }

  /** `b` is the smallest bucket strictly above the order value. */
  ghost predicate IsBucket(confirmations: map<nat, nat>, value: int, b: nat) {
    b in confirmations && value < b && forall c | c in confirmations && value < c :: b <= c
  }

  /** The keys of a map, each once, in whatever order. */
  method Keys(confirmations: map<nat, nat>) returns (keys: seq<nat>)
    ensures forall k :: k in keys <==> k in confirmations
  {
    keys := [];
    var left := confirmations.Keys;
    while left != {}
      invariant left <= confirmations.Keys
      invariant forall k :: k in keys <==> k in confirmations && k !in left
      decreases left
    {
      var k :| k in left;
      left := left - {k};
      keys := keys + [k];
    }
  }

  method MinimalConfirmations(confirmations: map<nat, nat>, orderValue: int) returns (required: Option<nat>)
    ensures required.None? <==> forall b | b in confirmations :: b <= orderValue
    ensures required.Some? ==> exists b :: IsBucket(confirmations, orderValue, b) && required.value == confirmations[b]
  {
    var keys := Keys(confirmations);
    var buckets := Sort(NatLe(), keys);
    SameElements(keys, buckets);
    required := FirstBucket(confirmations, orderValue, buckets);
  }

  /** Scans the sorted buckets for the first one above the value. */
  method FirstBucket(confirmations: map<nat, nat>, orderValue: int, buckets: seq<nat>) returns (required: Option<nat>)
    requires Sorted(NatLe(), buckets) && forall b :: b in buckets <==> b in confirmations
    ensures required.None? <==> forall b | b in confirmations :: b <= orderValue
    ensures required.Some? ==> exists b :: IsBucket(confirmations, orderValue, b) && required.value == confirmations[b]
  {
    for i := 0 to |buckets|
      invariant forall j | 0 <= j < i :: buckets[j] <= orderValue
    {
      if orderValue < buckets[i] {
        FirstAbove(confirmations, orderValue, buckets, i);
        return Some(confirmations[buckets[i]]);
      }
    }
    return None;
  }

  lemma SameElements(s: seq<nat>, t: seq<nat>)
    requires multiset(s) == multiset(t)
    ensures forall x :: x in s <==> x in t
  {
    forall x ensures x in s <==> x in t {
      assert x in multiset(s) <==> x in multiset(t);
    }
  }

  lemma FirstAbove(confirmations: map<nat, nat>, value: int, buckets: seq<nat>, i: nat)
    requires Sorted(NatLe(), buckets) && forall b :: b in buckets <==> b in confirmations
    requires i < |buckets| && value < buckets[i] && forall j | 0 <= j < i :: buckets[j] <= value
    ensures IsBucket(confirmations, value, buckets[i])
  {
    forall c | c in confirmations && value < c ensures buckets[i] <= c {
      var j :| 0 <= j < |buckets| && buckets[j] == c;
      assert j > i ==> NatLe()(buckets[i], buckets[j]);
    }
  }

  ghost predicate Monotone(confirmations: map<nat, nat>) {
    forall b, c | b in confirmations && c in confirmations && b <= c :: confirmations[b] <= confirmations[c]
  }

  /** With a table that grows with the bucket, a larger order never waits for fewer blocks; it may
      be refused where a smaller one is not, never the other way round. */
  lemma LargerOrdersWaitLonger(confirmations: map<nat, nat>, v: int, w: int, c: nat)
    requires Monotone(confirmations) && v <= w && IsBucket(confirmations, w, c)
    ensures exists b :: IsBucket(confirmations, v, b) && confirmations[b] <= confirmations[c]
  {
    var b := Smallest(confirmations, v, c);
  }

  lemma {:induction false} Smallest(confirmations: map<nat, nat>, v: int, c: nat) returns (b: nat)
    requires c in confirmations && v < c
    ensures IsBucket(confirmations, v, b) && b <= c
    decreases c
  {
    if d :| d in confirmations && v < d && d < c {
      b := Smallest(confirmations, v, d);
    } else {
      b := c;
    }
  }

  // ---- the waiting loop -----------------------------------------------------------------

  const TWO64: nat := 0x1_0000_0000_0000_0000

  /** One pass of the loop: what the context and the chain client answered. */
  datatype Observation =
    | Cancelled
    | NoAnswer
    | Observed(head: int, receipt: int)

  datatype Outcome = Confirmed | TimedOut | StillWaiting

  /** `big.Int.Uint64`: the low 64 bits of the absolute value. */
  function Uint64(x: int): nat { (if x < 0 then -x else x) % TWO64 }

  function AsInt64(x: nat): (r: int)
    requires x < TWO64
    ensures -0x8000_0000_0000_0000 <= r < 0x8000_0000_0000_0000 && r % TWO64 == x
  {
    if x < TWO64 / 2 then x else x - TWO64
  }

  /** The duration slept when confirmations are missing, in 64-bit arithmetic. */
  function Sleep(blocktime: nat, required: nat, confirmations: int): int {
    AsInt64((blocktime * ((required - Uint64(confirmations)) % TWO64)) % TWO64)
  }

  /** The observation shows the required number of confirmations. */
  predicate Deep(o: Observation, required: nat) { o.Observed? && o.head - o.receipt >= required }

  /** The loop ends at the first observation that is deep enough or finds the context done. */
  function Waited(required: nat, observations: seq<Observation>): Outcome {
    if observations == [] then StillWaiting
    else if observations[0].Cancelled? then TimedOut
    else if Deep(observations[0], required) then Confirmed
    else Waited(required, observations[1..])
  }

  /** Some observation is deep enough, and the context was not done before. */
  ghost predicate DeepInTime(required: nat, observations: seq<Observation>) {
    exists i | 0 <= i < |observations| && Deep(observations[i], required) ::
      forall j | 0 <= j < i :: !observations[j].Cancelled?
  }

  lemma {:induction false} WaitedExactly(required: nat, observations: seq<Observation>)
    ensures Waited(required, observations) == Confirmed <==> DeepInTime(required, observations)
    ensures Waited(required, observations) == StillWaiting <==>
            forall o | o in observations :: !o.Cancelled? && (o.Observed? ==> o.head < o.receipt + required)
  {
    if observations != [] {
      var first, rest := observations[0], observations[1..];
      WaitedExactly(required, rest);
      assert observations == [first] + rest;
      if !first.Cancelled? && !Deep(first, required) {
        DeepLater(required, first, rest);
      } else if Deep(first, required) {
        assert Deep(observations[0], required);
      }
    }
  }

  lemma DeepLater(required: nat, first: Observation, rest: seq<Observation>)
    requires !first.Cancelled? && !Deep(first, required)
    ensures DeepInTime(required, [first] + rest) <==> DeepInTime(required, rest)
  {
    var all := [first] + rest;
    if DeepInTime(required, all) {
      var i :| 0 <= i < |all| && Deep(all[i], required) && forall j | 0 <= j < i :: !all[j].Cancelled?;
      assert Deep(rest[i - 1], required);
      forall j | 0 <= j < i - 1 ensures !rest[j].Cancelled? { assert rest[j] == all[j + 1]; }
    }
    if DeepInTime(required, rest) {
      var i :| 0 <= i < |rest| && Deep(rest[i], required) && forall j | 0 <= j < i :: !rest[j].Cancelled?;
      assert Deep(all[i + 1], required);
      forall j | 0 <= j < i + 1 ensures !all[j].Cancelled? { assert j > 0 ==> all[j] == rest[j - 1]; }
    }
  }

  /** The loop; `slept` lists the durations of its sleeps. */
  method Wait(blocktime: nat, required: nat, observations: seq<Observation>)
    returns (outcome: Outcome, slept: seq<int>, passes: nat)
    ensures outcome == Waited(required, observations)
    ensures passes <= |observations| && |slept| == if outcome == StillWaiting then passes else passes - 1
    ensures outcome == StillWaiting ==> passes == |observations|
    ensures outcome == Confirmed ==>
              && observations[passes - 1].Observed?
              && observations[passes - 1].head - observations[passes - 1].receipt >= required
    ensures outcome == TimedOut ==> observations[passes - 1] == Cancelled
    ensures forall i | 0 <= i < |slept| :: SleptAfter(blocktime, required, observations[i], slept[i])
    ensures forall i | 0 <= i < |slept| :: observations[i] != Cancelled &&
              match observations[i]
              case Observed(head, receipt) =>
                head - receipt < required && slept[i] == Sleep(blocktime, required, head - receipt)
              case _ => slept[i] == blocktime
  {
    slept, passes := [], 0;
    while passes < |observations|
      invariant passes == |slept| <= |observations|
      invariant Waited(required, observations) == Waited(required, observations[passes..])
      invariant forall i | 0 <= i < |slept| :: SleptAfter(blocktime, required, observations[i], slept[i])
    {
      var observation := observations[passes];
      assert observations[passes..][1..] == observations[passes + 1..];
      passes := passes + 1;
      match observation
      case Cancelled =>
        return TimedOut, slept, passes;
      case NoAnswer =>
        slept := slept + [blocktime];
      case Observed(head, receipt) =>
        var confirmations := head - receipt;
        if confirmations >= required {
          return Confirmed, slept, passes;
        }
        slept := slept + [Sleep(blocktime, required, confirmations)];
    }
    outcome := StillWaiting;
  }

  /** What is slept after an observation that does not end the loop. */
  predicate SleptAfter(blocktime: nat, required: nat, o: Observation, duration: int) {
    match o
    case Cancelled => false
    case NoAnswer => duration == blocktime
    case Observed(head, receipt) =>
      head - receipt < required && duration == Sleep(blocktime, required, head - receipt)
  }

  /** An order above all buckets is refused without waiting; for any other the wait goes by the
      smallest bucket above its value. */
  method WaitForConfirmations(confirmations: map<nat, nat>, orderValue: int, blocktime: nat,
                              observations: seq<Observation>)
    returns (outcome: Option<Outcome>)
    ensures outcome.None? <==> forall b | b in confirmations :: b <= orderValue
    ensures outcome.Some? ==>
              exists b :: IsBucket(confirmations, orderValue, b)
                          && outcome.value == Waited(confirmations[b], observations)
  {
    var required := MinimalConfirmations(confirmations, orderValue);
    if required.None? {
      return None;
    }
    var result, slept, passes := Wait(blocktime, required.value, observations);
    return Some(result);
  }

  /** When confirmations are missing, the loop sleeps exactly one block time per missing
      confirmation if and only if the head is not behind the receipt and the product fits a
      duration. With the head behind, the magnitude of the difference is subtracted instead; a
      product that does not fit wraps around. */
  lemma SleepExactly(blocktime: nat, required: nat, confirmations: int)
    requires 0 < blocktime && confirmations < required < TWO64
    ensures Sleep(blocktime, required, confirmations) == blocktime * (required - confirmations) <==>
            confirmations >= 0 && blocktime * (required - confirmations) < TWO64 / 2
  {
    if blocktime * (required - confirmations) < TWO64 / 2 {
      if confirmations >= 0 {
        NotBehindHead(blocktime, required, confirmations);
      } else {
        BehindHead(blocktime, required, confirmations);
      }
    }
  }

  lemma NotBehindHead(blocktime: nat, required: nat, confirmations: int)
    requires 0 <= confirmations < required < TWO64 && blocktime * (required - confirmations) < TWO64 / 2
    ensures Sleep(blocktime, required, confirmations) == blocktime * (required - confirmations)
  {
    var missing: nat := required - confirmations;
    SmallMod(confirmations);
    SmallMod(missing);
    SmallMod(blocktime * missing);
    assert Uint64(confirmations) == confirmations;
  }

  lemma SmallMod(x: nat)
    requires x < TWO64
    ensures x % TWO64 == x
  {}

  lemma SmallFactor(b: nat, m: nat, limit: nat)
    requires b > 0 && b * m < limit
    ensures m < limit
  {
    assert b * m == m + (b - 1) * m;
    assert (b - 1) * m >= 0;
  }

  lemma BehindHead(blocktime: nat, required: nat, confirmations: int)
    requires 0 < blocktime && confirmations < 0 && blocktime * (required - confirmations) < TWO64 / 2
    ensures Sleep(blocktime, required, confirmations) != blocktime * (required - confirmations)
  {
    SmallFactor(blocktime, required - confirmations, TWO64 / 2);
    var wanted, got := blocktime * (required - confirmations), blocktime * (required + confirmations);
    assert Uint64(confirmations) == -confirmations;
    Gap(blocktime, required, confirmations);
    ModApart(got, wanted);
    ModProduct(blocktime, required + confirmations);
  }

  lemma Gap(b: nat, r: nat, c: int)
    requires b > 0 && c < 0
    ensures 0 < b * (r - c) - b * (r + c) <= 2 * (b * (r - c))
  {
    var x := b * (0 - c);
    assert x > 0 && b * (r - c) == b * r + x && b * (r + c) == b * r - x;
    assert b * r >= 0;
  }

  lemma ModProduct(b: int, d: int)
    ensures (b * (d % TWO64)) % TWO64 == (b * d) % TWO64
  {
    var q, r := d / TWO64, d % TWO64;
    assert b * d == b * r + (b * q) * TWO64 by {
      assert d == q * TWO64 + r;
      Amounts.MulAssociative(b, q, TWO64);
    }
    ModShift(b * r, b * q);
  }

  lemma ModShift(x: int, k: int)
    ensures (x + k * TWO64) % TWO64 == x % TWO64
  {
    var q, r := x / TWO64, x % TWO64;
    var y := x + k * TWO64;
    assert y == (q + k) * TWO64 + r;
    assert (q + k - y / TWO64) * TWO64 == y % TWO64 - r;
  }

  lemma ModApart(got: int, wanted: int)
    requires 0 < wanted - got < TWO64 && 0 <= wanted < TWO64
    ensures got % TWO64 != wanted
  {
    assert got == (got / TWO64) * TWO64 + got % TWO64;
  }

  /** Between two observations the receipt stays where it is and, as far as the loop slept after
      the first, the chain adds a block per block time; nothing overflows. */
  predicate Follows(blocktime: nat, required: nat, first: Observation, second: Observation) {
    && first.Observed? && second.Observed? && second.receipt == first.receipt
    && 0 <= first.head - first.receipt
    && (first.head - first.receipt < required ==>
          && blocktime * (required - (first.head - first.receipt)) < TWO64 / 2
          && (second.head - first.head) * blocktime >= Sleep(blocktime, required, first.head - first.receipt))
  }

  lemma DeepAfterSleep(blocktime: nat, required: nat, first: Observation, second: Observation)
    requires 0 < blocktime && required < TWO64 && Follows(blocktime, required, first, second)
    ensures Deep(first, required) || Deep(second, required)
  {
    if !Deep(first, required) {
      var missing := required - (first.head - first.receipt);
      SleepExactly(blocktime, required, first.head - first.receipt);
      Amounts.MulMonotone(missing, second.head - first.head, blocktime);
    }
  }

  /** The loop terminates: once the chain client has answered twice in time, it has returned with
      success, however many of its requests failed before and in between. */
  lemma OneSleepSuffices(blocktime: nat, required: nat, observations: seq<Observation>, i: nat, j: nat)
    requires 0 < blocktime && required < TWO64 && i < j < |observations|
    requires Follows(blocktime, required, observations[i], observations[j])
    requires forall k | 0 <= k <= j :: !observations[k].Cancelled?
    ensures Waited(required, observations[..j + 1]) == Confirmed
  {
    DeepAfterSleep(blocktime, required, observations[i], observations[j]);
    WaitedExactly(required, observations[..j + 1]);
    var k := if Deep(observations[i], required) then i else j;
    assert Deep(observations[..j + 1][k], required);
  }

  lemma {:induction false} WaitedFewer(required: nat, fewer: nat, observations: seq<Observation>)
    requires fewer <= required && Waited(required, observations) == Confirmed
    ensures Waited(fewer, observations) == Confirmed
  {
    if !Deep(observations[0], fewer) {
      WaitedFewer(required, fewer, observations[1..]);
    }
  }
}
