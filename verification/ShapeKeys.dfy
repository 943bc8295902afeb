/** The colours that the shape publishers use as keys: a base colour, followed for every
    instance but the first by the instance number in decimal. */
module ShapeKeys {

  /** Longest colour that a sample of the C port can hold. */
  const COLOR_LIMIT := 128

  function Digit(d: nat): char
    requires d < 10
  {
    (48 + d) as char
  }

  function Decimal(n: nat): (s: string)
    ensures |s| >= 1
  {
    if n < 10 then [Digit(n)] else Decimal(n / 10) + [Digit(n % 10)]
  }

  /** The colour without a length limit, as the C++ and Java ports build it. */
  function InstanceColor(base: string, inst: nat): string {
    if inst == 0 then base else base + Decimal(inst)
  }

  function Truncate(s: string): string {
    if |s| <= COLOR_LIMIT then s else s[..COLOR_LIMIT]
  }

  /** The key as it ends up in a sample of the C port. */
  function Key(base: string, inst: nat): string {
    Truncate(InstanceColor(base, inst))
  }

  /** The number that a string of decimal digits denotes. */
  function Value(s: string): nat {
    if s == [] then 0
    else 10 * Value(s[..|s| - 1]) + if '0' <= s[|s| - 1] <= '9' then (s[|s| - 1] as int) - ('0' as int) else 0
  }

  predicate IsNumeral(s: string) {
    && |s| > 0 && (|s| > 1 ==> s[0] != '0')
    && forall i :: 0 <= i < |s| ==> '0' <= s[i] <= '9'
  }

  /** A number is printed as the numeral that denotes it, without leading zeros. */
  lemma {:induction false} DecimalReadsBack(n: nat)
    ensures IsNumeral(Decimal(n)) && Value(Decimal(n)) == n
    ensures n > 0 ==> Decimal(n)[0] != '0'
  {
    var s := Decimal(n);
    if n < 10 {
      assert s[..0] == [];
    } else {
      DecimalReadsBack(n / 10);
      assert s[..|s| - 1] == Decimal(n / 10);
    }
  }

  /** The colour of the first instance is the base colour itself, that of any other one the
      base colour followed by its number; a C sample holds the first 128 characters of it. */
  lemma KeyContents(base: string, inst: nat)
    ensures var color := InstanceColor(base, inst);
            && (inst == 0 ==> color == base)
            && (inst > 0 ==> base <= color && IsNumeral(color[|base|..]) && Value(color[|base|..]) == inst)
            && Key(base, inst) == if |color| <= 128 then color else color[..128]
  {
    if inst > 0 {
      DecimalReadsBack(inst);
      assert InstanceColor(base, inst)[|base|..] == Decimal(inst);
    }
  }

  lemma {:induction false} DecimalIsInjective(a: nat, b: nat)
    requires Decimal(a) == Decimal(b)
    ensures a == b
  {
    var s, t := Decimal(a), Decimal(b);
    assert s[|s| - 1] == t[|t| - 1];
    if a >= 10 && b >= 10 {
      assert s[..|s| - 1] == Decimal(a / 10) && t[..|t| - 1] == Decimal(b / 10);
      DecimalIsInjective(a / 10, b / 10);
    }
  }

  /** Different instances have different colours, whatever the base colour. */
  lemma InstanceColorIsInjective(base: string, a: nat, b: nat)
    requires InstanceColor(base, a) == InstanceColor(base, b)
    ensures a == b
  {
    if a != 0 && b != 0 {
      assert InstanceColor(base, a)[|base|..] == Decimal(a);
      assert InstanceColor(base, b)[|base|..] == Decimal(b);
      DecimalIsInjective(a, b);
    }
  }

  lemma {:induction false} DecimalGrows(a: nat, b: nat)
    requires a <= b
    ensures |Decimal(a)| <= |Decimal(b)|
  {
    if a >= 10 {
      DecimalGrows(a / 10, b / 10);
    }
  }

  /** Dropping digits from the right reaches every shorter length. */
  lemma {:induction false} ShorterNumber(x: nat, digits: nat) returns (y: nat)
    requires 1 <= digits <= |Decimal(x)|
    ensures y <= x && |Decimal(y)| == digits
  {
    if digits == |Decimal(x)| {
      y := x;
    } else {
      y := ShorterNumber(x / 10, digits);
    }
  }

  predicate KeysDistinct(base: string, n: nat) {
    forall i: nat, j: nat :: i < j < n ==> Key(base, i) != Key(base, j)
  }

  /** The keys of n instances differ exactly when the longest of them still fits: the
      C port cuts colours at COLOR_LIMIT characters. */
  lemma KeysDistinctIff(base: string, n: nat)
    ensures KeysDistinct(base, n) <==> n <= 1 || |base| + |Decimal(n - 1)| <= COLOR_LIMIT
  {
    if n >= 2 && |base| + |Decimal(n - 1)| <= COLOR_LIMIT {
      forall i: nat, j: nat | i < j < n
        ensures Key(base, i) != Key(base, j)
      {
        DecimalGrows(i, n - 1);
        DecimalGrows(j, n - 1);
        if InstanceColor(base, i) == InstanceColor(base, j) {
          InstanceColorIsInjective(base, i, j);
        }
      }
    } else if n >= 2 {
      var i, j := SameKey(base, n);
    }
  }

  lemma SameKey(base: string, n: nat) returns (i: nat, j: nat)
    requires n >= 2 && |base| + |Decimal(n - 1)| > COLOR_LIMIT
    ensures i < j < n && Key(base, i) == Key(base, j)
  {
    if |base| >= COLOR_LIMIT {
      i, j := 0, 1;
      assert (base + Decimal(1))[..COLOR_LIMIT] == base[..COLOR_LIMIT];
    } else {
      var room := COLOR_LIMIT - |base|;
      j := ShorterNumber(n - 1, room + 1);
      i := j / 10;
      assert Decimal(j) == Decimal(i) + [Digit(j % 10)];
      assert (base + Decimal(j))[..COLOR_LIMIT] == base + Decimal(i);
    }
  }
}
