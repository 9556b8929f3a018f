/** `strings.Split` on a one-character separator, decimal printing and `strconv.ParseInt`. */
module Strings {
  import opened Wrappers

  /** The pieces between separators; there is always at least one. */
  function Split(s: string, sep: char): (parts: seq<string>)
    ensures |parts| > 0
  {
    if s == "" then [""]
    else
      var init, last := Split(s[..|s| - 1], sep), s[|s| - 1];
      if last == sep then init + [""] else init[|init| - 1 := init[|init| - 1] + [last]]
  }

  function Join(parts: seq<string>, sep: char): string
    requires |parts| > 0
  {
    if |parts| == 1 then parts[0]
    else Join(parts[..|parts| - 1], sep) + [sep] + parts[|parts| - 1]
  }

  lemma {:induction false} SplitFree(s: string, sep: char)
    ensures sep !in s ==> Split(s, sep) == [s]
    ensures sep in s ==> |Split(s, sep)| > 1
  {
    if s != "" {
      var init, last := s[..|s| - 1], s[|s| - 1];
      SplitFree(init, sep);
      assert s == init + [last];
    }
  }

  lemma AppendToLast(front: seq<string>, parts: seq<string>, c: char)
    requires |parts| > 0
    ensures var all := front + parts;
            && all + [""] == front + (parts + [""])
            && all[|all| - 1 := all[|all| - 1] + [c]] == front + parts[|parts| - 1 := parts[|parts| - 1] + [c]]
  {}

  lemma SplitSnoc(s: string, c: char, sep: char)
    ensures var parts := Split(s, sep);
            Split(s + [c], sep) ==
            if c == sep then parts + [""] else parts[|parts| - 1 := parts[|parts| - 1] + [c]]
  {
    assert (s + [c])[..|s|] == s;
  }

  /** A separator splits the text into what its two sides split into. */
  lemma {:induction false} SplitConcat(a: string, b: string, sep: char)
    ensures Split(a + [sep] + b, sep) == Split(a, sep) + Split(b, sep)
  {
    if b == "" {
      assert a + [sep] + b == a + [sep];
      SplitSnoc(a, sep, sep);
    } else {
      var init, last := b[..|b| - 1], b[|b| - 1];
      SplitConcat(a, init, sep);
      assert a + [sep] + b == (a + [sep] + init) + [last];
      SplitSnoc(a + [sep] + init, last, sep);
      AppendToLast(Split(a, sep), Split(init, sep), last);
    }
  }

  lemma JoinExtended(parts: seq<string>, c: char, sep: char)
    requires |parts| > 0
    ensures Join(parts + [""], sep) == Join(parts, sep) + [sep]
    ensures Join(parts[|parts| - 1 := parts[|parts| - 1] + [c]], sep) == Join(parts, sep) + [c]
  {
    assert (parts + [""])[..|parts|] == parts;
    var parts' := parts[|parts| - 1 := parts[|parts| - 1] + [c]];
    assert parts'[..|parts| - 1] == parts[..|parts| - 1];
  }

  lemma {:induction false} JoinSplit(s: string, sep: char)
    ensures Join(Split(s, sep), sep) == s
  {
    if s != "" {
      var init, last := s[..|s| - 1], s[|s| - 1];
      JoinSplit(init, sep);
      JoinExtended(Split(init, sep), last, sep);
    }
  }

  lemma {:induction false} PiecesFree(s: string, sep: char)
    ensures forall p | p in Split(s, sep) :: sep !in p
  {
    if s != "" {
      PiecesFree(s[..|s| - 1], sep);
    }
  }

  /** Distinct texts split differently. */
  lemma SplitInjective(s: string, t: string, sep: char)
    requires Split(s, sep) == Split(t, sep)
    ensures s == t
  {
    JoinSplit(s, sep);
    JoinSplit(t, sep);
  }

  /** Joining pieces without separators and splitting again gives the pieces. */
  lemma {:induction false} SplitJoin(parts: seq<string>, sep: char)
    requires |parts| > 0 && forall p | p in parts :: sep !in p
    ensures Split(Join(parts, sep), sep) == parts
  {
    var last := parts[|parts| - 1];
    SplitFree(last, sep);
    if |parts| > 1 {
      var init := parts[..|parts| - 1];
      SplitJoin(init, sep);
      SplitConcat(Join(init, sep), last, sep);
    }
  }

  // ---- decimal numbers ------------------------------------------------------------------

  function Digit(d: nat): char
    requires d < 10
  {
    '0' + d as char
  }

  predicate IsDigit(c: char) { '0' <= c <= '9' }

  function Decimal(n: nat): string {
    if n < 10 then [Digit(n)] else Decimal(n / 10) + [Digit(n % 10)]
  }

  /** The value of a non-empty text of digits. */
  function DigitsValue(s: string): Option<nat> {
    if s == "" || !IsDigit(s[|s| - 1]) then None
    else
      var d := s[|s| - 1] as nat - '0' as nat;
      if |s| == 1 then Some(d)
      else match DigitsValue(s[..|s| - 1])
        case None => None
        case Some(v) => Some(10 * v + d)
  }

  /** `strconv.ParseInt(s, 10, 8)`: an optional sign, digits, and the range of int8. */
  function ParseInt8(s: string): (r: Option<int>)
    ensures r.Some? ==> -128 <= r.value <= 127
  {
    var negative := s != "" && s[0] == '-';
    var digits := if s != "" && s[0] in {'+', '-'} then s[1..] else s;
    match DigitsValue(digits)
    case None => None
    case Some(v) =>
      var value := v * if negative then -1 else 1;
      if -128 <= value <= 127 then Some(value) else None
  }

  lemma {:induction false} DecimalDigits(n: nat)
    ensures Decimal(n) != "" && DigitsValue(Decimal(n)) == Some(n)
    ensures forall c | c in Decimal(n) :: IsDigit(c)
  {
    if n >= 10 {
      DecimalDigits(n / 10);
      var s := Decimal(n);
      assert s[..|s| - 1] == Decimal(n / 10);
    }
  }

  /** The usual notation: ten times a positive number plus a digit is written by appending it. */
  lemma DecimalNotation(n: nat, d: nat)
    requires d < 10
    ensures Decimal(d) == ["0123456789"[d]]
    ensures n > 0 ==> Decimal(10 * n + d) == Decimal(n) + ["0123456789"[d]]
  {
    assert (10 * n + d) / 10 == n && (10 * n + d) % 10 == d;
    assert '1' == '0' + 1 as char && '2' == '0' + 2 as char && '3' == '0' + 3 as char && '4' == '0' + 4 as char;
    assert '5' == '0' + 5 as char && '6' == '0' + 6 as char && '7' == '0' + 7 as char && '8' == '0' + 8 as char;
  }

  lemma DecimalInjective(m: nat, n: nat)
    ensures Decimal(m) == Decimal(n) ==> m == n
  {
    DecimalDigits(m);
    DecimalDigits(n);
  }

  lemma ParseDecimal(n: nat)
    ensures ParseInt8(Decimal(n)) == if n <= 127 then Some(n) else None
  {
    DecimalDigits(n);
    assert Decimal(n)[0] in Decimal(n);
  }

  lemma ParseSigned(n: nat)
    ensures ParseInt8("+" + Decimal(n)) == if n <= 127 then Some(n) else None
    ensures var r := ParseInt8("-" + Decimal(n)); if n <= 128 then r.Some? && r.value + n == 0 else r.None?
  {
    DecimalDigits(n);
  }
}
