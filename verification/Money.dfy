/** Rupiah formatting: thousands grouped with dots. */
module Money {
  import opened Common
  import opened Decimal

  type uint64 = x: int | 0 <= x <= 0xFFFF_FFFF_FFFF_FFFF

  /** Dots before every group of three digits counted from the right. */
  function Grouped(digits: string): string {
    if |digits| <= 3 then digits
    else Grouped(digits[..|digits| - 3]) + "." + digits[|digits| - 3..]
  }

  function Sign(n: int): string {
    if n < 0 then "-" else ""
  }

  function WithoutDots(s: string): string {
    if s == "" then "" else WithoutDots(s[..|s| - 1]) + (if s[|s| - 1] == '.' then "" else [s[|s| - 1]])
  }

  /** Reads a formatted amount: drop the dots, then an optional sign and a numeral. */
  function Parsed(s: string): Option<int> {
    var t := WithoutDots(s);
    if t != "" && t[0] == '-' && NumeralOnly(t[1..]) then var v: int := Value(t[1..]); Some(-v)
    else if NumeralOnly(t) then Some(Value(t))
    else None
  }

  lemma {:induction false} WithoutDotsConcat(a: string, b: string)
    ensures WithoutDots(a + b) == WithoutDots(a) + WithoutDots(b)
  {
    if b == "" {
      assert a + b == a;
    } else {
      WithoutDotsConcat(a, b[..|b| - 1]);
      assert (a + b)[..|a + b| - 1] == a + b[..|b| - 1];
    }
  }

  lemma {:induction false} WithoutDotsKeeps(s: string)
    requires forall i :: 0 <= i < |s| ==> s[i] != '.'
    ensures WithoutDots(s) == s
  {
    if s != "" {
      WithoutDotsKeeps(s[..|s| - 1]);
    }
  }

  lemma {:induction false} GroupWithoutDot(front: string, group: string)
    requires NumeralOnly(group)
    ensures WithoutDots(front + "." + group) == WithoutDots(front) + group
  {
    WithoutDotsConcat(front + ".", group);
    WithoutDotsConcat(front, ".");
    WithoutDotsKeeps(group);
  }

  lemma {:induction false} UngroupGrouped(digits: string)
    requires NumeralOnly(digits)
    ensures WithoutDots(Grouped(digits)) == digits
  {
    if |digits| <= 3 {
      WithoutDotsKeeps(digits);
    } else {
      var front, last := digits[..|digits| - 3], digits[|digits| - 3..];
      UngroupGrouped(front);
      GroupWithoutDot(Grouped(front), last);
      assert digits == front + last;
    }
  }

  lemma {:induction false} GroupedLength(digits: string)
    requires digits != ""
    ensures |Grouped(digits)| == |digits| + (|digits| - 1) / 3
  {
    if |digits| > 3 {
      GroupedLength(digits[..|digits| - 3]);
    }
  }

  /** A dot stands at every fourth place from the right and nowhere else, and never in front: every
      group but the first has exactly three digits, and the first has one to three. */
  lemma {:induction false} DotsEveryFourth(digits: string)
    requires digits != "" && NumeralOnly(digits)
    ensures |Grouped(digits)| % 4 != 0
    ensures forall i :: 0 <= i < |Grouped(digits)| ==> (Grouped(digits)[i] == '.' <==> (|Grouped(digits)| - i) % 4 == 0)
  {
    if |digits| > 3 {
      DotsEveryFourth(digits[..|digits| - 3]);
    }
  }

  function Formatted(n: int): string {
    Sign(n) + Grouped(Digits(Magnitude(n)))
  }

  lemma FormatWithoutDots(n: int)
    ensures WithoutDots(Formatted(n)) == Sign(n) + Digits(Magnitude(n))
  {
    UngroupGrouped(Digits(Magnitude(n)));
    WithoutDotsConcat(Sign(n), Grouped(Digits(Magnitude(n))));
    WithoutDotsKeeps(Sign(n));
  }

  /** Formatting loses nothing: reading the text back gives the amount. */
  lemma FormatRoundTrip(n: int)
    ensures Parsed(Formatted(n)) == Some(n)
  {
    var digits := Digits(Magnitude(n));
    FormatWithoutDots(n);
    ValueOfDigits(Magnitude(n));
    if n < 0 {
      assert ("-" + digits)[1..] == digits;
    } else {
      assert "" + digits == digits;
      assert IsDigit(digits[0]);
    }
  }

  /** The buffer once i digits are written: the formatted text so far, within the reserved capacity. */
  predicate Built(sign: string, digits: string, i: nat, buf: string)
    requires i <= |digits|
  {
    && buf == sign + Grouped(digits[..i])
    && |buf| <= |sign| + |digits| + (|digits| - 1) / 3
  }

  lemma AppendedGroup(sign: string, digits: string, i: nat, buf: string)
    requires 0 < i && i + 3 <= |digits| && Built(sign, digits, i, buf)
    ensures Built(sign, digits, i + 3, buf + ['.'] + digits[i..i + 3])
  {
    var next := digits[..i + 3];
    assert next[..i] == digits[..i] && next[i..] == digits[i..i + 3];
    assert Grouped(next) == Grouped(digits[..i]) + "." + digits[i..i + 3];
    GroupedLength(next);
  }

  /** The magnitude without overflow, even of the least 64-bit integer. */
  method Absolute(n: int64) returns (abs: uint64)
    ensures abs == Magnitude(n)
  {
    if n < 0 {
      var shifted: int64 := -(n + 1);
      abs := shifted + 1;
    } else {
      abs := n;
    }
  }

  /** Appends sign, leading group and further groups to a byte buffer, which never outgrows what was
      reserved for it. */
  method Grouping(negative: bool, digits: string) returns (text: string)
    requires digits != ""
    ensures text == (if negative then "-" else "") + Grouped(digits)
    ensures |text| <= |digits| + (|digits| - 1) / 3 + (if negative then 1 else 0)
  {
    var n3 := |digits|;
    var sep := (n3 - 1) / 3;
    if sep == 0 {
      return if negative then "-" + digits else digits;
    }
    ghost var sign := if negative then "-" else "";
    var buf := "";
    if negative {
      buf := buf + ['-'];
    }
    assert buf == sign;
    var lead := n3 % 3;
    if lead == 0 {
      lead := 3;
    }
    buf := buf + digits[..lead];
    var i := lead;
    while i < n3
      invariant 0 < i <= n3 && (n3 - i) % 3 == 0
      invariant Built(sign, digits, i, buf)
    {
      AppendedGroup(sign, digits, i, buf);
      buf := buf + ['.'];
      buf := buf + digits[i..i + 3];
      i := i + 3;
    }
    assert digits[..n3] == digits;
    return buf;
  }

  /** Formats every 64-bit amount: the intermediate values fit their machine types, and the buffer
      never outgrows the capacity reserved for it. */
  method GroupIDR(n: int64) returns (text: string)
    ensures text == Formatted(n)
  {
    var abs := Absolute(n);
    text := Grouping(n < 0, Digits(abs));
  }
}
