/** Token amounts across chains with different decimals (chains/util.go), and the borrow check of
    the Across and LiFi handlers (chains/evm/message). */
module Amounts {
  import opened Strings

  function Pow10(n: nat): (p: nat)
    ensures p > 0
  {
    if n == 0 then 1 else 10 * Pow10(n - 1)
  }

  lemma {:induction false} Pow10Add(m: nat, n: nat)
    ensures Pow10(m + n) == Pow10(m) * Pow10(n)
  {
    if m > 0 {
      Pow10Add(m - 1, n);
      assert Pow10(m + n) == 10 * (Pow10(m - 1) * Pow10(n)) == Pow10(m) * Pow10(n);
    }
  }

  /** `big.Int.Div` by a positive number is Euclidean, as division is here. */
  function ScaleTokenAmount(amount: int, srcDecimals: nat, dstDecimals: nat): int {
    if srcDecimals == dstDecimals then amount
    else if srcDecimals > dstDecimals then amount / Pow10(srcDecimals - dstDecimals)
    else amount * Pow10(dstDecimals - srcDecimals)
  }

  lemma FloorBound(b: int, a: int, k: nat)
    requires k > 0
    ensures b <= a / k <==> b * k <= a
  {
    var q, r := a / k, a % k;
    assert a == q * k + r && 0 <= r < k;
    if b <= q {
      assert b * k <= q * k;
    } else {
      assert b * k >= (q + 1) * k == q * k + k;
    }
  }

  lemma MulMonotone(x: int, y: int, k: nat)
    requires k > 0
    ensures x <= y <==> x * k <= y * k
  {
    Distribute(y - x, x, k);
    Distribute(x - y, y, k);
    if x < y {
      Positive(y - x, k);
    } else if y < x {
      Positive(x - y, k);
    }
  }

  lemma Positive(d: int, k: int)
    requires d > 0 && k > 0
    ensures d * k > 0
  {}

  lemma Distribute(d: int, x: int, k: int)
    ensures (d + x) * k == d * k + x * k
  {}

  /** A decimal more on the source chain divides by ten, one more on the destination chain
      multiplies by ten. */
  lemma ScaleByDecimals(amount: int, src: nat, dst: nat)
    ensures ScaleTokenAmount(amount, dst, dst) == amount
    ensures src >= dst ==> ScaleTokenAmount(amount, src + 1, dst) == ScaleTokenAmount(amount, src, dst) / 10
    ensures src <= dst ==> ScaleTokenAmount(amount, src, dst + 1) == 10 * ScaleTokenAmount(amount, src, dst)
  {
    assert Pow10(0) == 1 && Pow10(1) == 10 * Pow10(0);
    if src >= dst {
      DivideTwice(amount, Pow10(src - dst));
    }
    if src <= dst {
      assert Pow10(dst + 1 - src) == 10 * Pow10(dst - src);
    }
  }

  lemma DivideTwice(amount: int, k: nat)
    requires k > 0
    ensures amount / (10 * k) == (amount / k) / 10
  {
    var q := (amount / k) / 10;
    FloorBound(q, amount / k, 10);
    FloorBound(q + 1, amount / k, 10);
    FloorBound(q * 10, amount, k);
    FloorBound((q + 1) * 10, amount, k);
    FloorBound(q, amount, 10 * k);
    FloorBound(q + 1, amount, 10 * k);
    MulAssociative(q, 10, k);
    MulAssociative(q + 1, 10, k);
  }

  /** Written out, the scale is a one with as many zeros as there are decimals in between. */
  lemma {:induction false} Pow10Written(n: nat)
    ensures Decimal(Pow10(n)) == "1" + seq(n, _ => '0')
  {
    if n > 0 {
      Pow10Written(n - 1);
      DecimalNotation(Pow10(n - 1), 0);
      assert seq(n, _ => '0') == seq(n - 1, _ => '0') + "0";
    } else {
      DecimalNotation(0, 1);
    }
  }

  /** Whichever chain has more decimals: a borrow stays within the scaled input exactly when its
      value, counted in units of `10^-(src+dst)`, does not exceed the value of the input. */
  lemma BorrowBound(borrow: int, input: int, src: nat, dst: nat)
    ensures borrow <= ScaleTokenAmount(input, src, dst) <==> borrow * Pow10(src) <= input * Pow10(dst)
  {
    if src > dst {
      BoundDown(borrow, input, src, dst);
    } else if src == dst {
      MulMonotone(borrow, input, Pow10(src));
    } else {
      BoundUp(borrow, input, src, dst);
    }
  }

  lemma BoundDown(borrow: int, input: int, src: nat, dst: nat)
    requires src > dst
    ensures borrow <= input / Pow10(src - dst) <==> borrow * Pow10(src) <= input * Pow10(dst)
  {
    var k := Pow10(src - dst);
    Pow10Add(src - dst, dst);
    FloorBound(borrow, input, k);
    MulMonotone(borrow * k, input, Pow10(dst));
    MulAssociative(borrow, k, Pow10(dst));
  }

  lemma BoundUp(borrow: int, input: int, src: nat, dst: nat)
    requires src < dst
    ensures borrow <= input * Pow10(dst - src) <==> borrow * Pow10(src) <= input * Pow10(dst)
  {
    var k := Pow10(dst - src);
    Pow10Add(dst - src, src);
    MulMonotone(borrow, input * k, Pow10(src));
    MulAssociative(input, k, Pow10(src));
  }

  lemma MulAssociative(x: int, y: int, z: int)
    ensures (x * y) * z == x * (y * z)
  {}

  /** Scaling down in two steps through any intermediate decimals loses no more than scaling down
      at once. */
  lemma ScaleDownComposes(amount: int, src: nat, mid: nat, dst: nat)
    requires src >= mid >= dst
    ensures ScaleTokenAmount(ScaleTokenAmount(amount, src, mid), mid, dst) == ScaleTokenAmount(amount, src, dst)
  {
    var once, first := ScaleTokenAmount(amount, src, dst), ScaleTokenAmount(amount, src, mid);
    var twice := ScaleTokenAmount(first, mid, dst);
    BoundTwice(twice, amount, src, mid, dst);
    BoundTwice(once, amount, src, mid, dst);
  }

  lemma BoundTwice(b: int, amount: int, src: nat, mid: nat, dst: nat)
    requires src >= mid >= dst
    ensures b <= ScaleTokenAmount(ScaleTokenAmount(amount, src, mid), mid, dst) <==>
            b <= ScaleTokenAmount(amount, src, dst)
  {
    var first := ScaleTokenAmount(amount, src, mid);
    var k, l := Pow10(src - mid), Pow10(mid - dst);
    Pow10Add(src - mid, mid - dst);
    FloorBound(b, first, l);
    FloorBound(b * l, amount, k);
    FloorBound(b, amount, k * l);
    assert b * l * k == b * (k * l);
    assert Pow10(0) == 1;
  }

  lemma ScaleUpThenDown(amount: int, src: nat, dst: nat)
    requires src <= dst
    ensures ScaleTokenAmount(ScaleTokenAmount(amount, src, dst), dst, src) == amount
  {
    var k := Pow10(dst - src);
    FloorBound(amount, amount * k, k);
    FloorBound(amount + 1, amount * k, k);
    assert (amount + 1) * k == amount * k + k;
  }

  lemma ScaleDownThenUp(amount: int, src: nat, dst: nat)
    requires src >= dst
    ensures 0 <= amount - ScaleTokenAmount(ScaleTokenAmount(amount, src, dst), dst, src) < Pow10(src - dst)
  {
    assert Pow10(0) == 1;
  }

  // ---- the borrow limit -----------------------------------------------------------------

  /** `Cmp` of two big integers. */
  function Cmp(x: int, y: int): int { if x < y then -1 else if x == y then 0 else 1 }

  predicate AcrossRejects(borrow: int, input: int, src: nat, dst: nat) {
    Cmp(borrow, ScaleTokenAmount(input, src, dst)) > 0
  }

  predicate LifiRejects(borrow: int, input: int, src: nat, dst: nat) {
    Cmp(ScaleTokenAmount(input, src, dst), borrow) == -1
  }

  /** Both handlers, though they compare in opposite directions, enforce the same limit. */
  lemma SameBorrowLimit(borrow: int, input: int, src: nat, dst: nat)
    ensures AcrossRejects(borrow, input, src, dst) <==> borrow * Pow10(src) > input * Pow10(dst)
    ensures LifiRejects(borrow, input, src, dst) <==> borrow * Pow10(src) > input * Pow10(dst)
  {
    BorrowBound(borrow, input, src, dst);
  }
}
