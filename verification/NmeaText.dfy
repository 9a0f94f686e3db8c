/** Decimal formatting as printf does it, and reading it back; splitting a sentence at its commas. */
module NmeaText {
  import opened Sequences

  function Digit(n: nat): char
    requires n < 10
  {
    '0' + n as char
  }

  function Digits(n: nat): (s: string)
    ensures s != []
  {
    if n < 10 then [Digit(n)] else Digits(n / 10) + [Digit(n % 10)]
  }

  function PadTo(s: string, width: nat): string
    decreases width - |s|
  {
    if |s| >= width then s else PadTo("0" + s, width)
  }

  /** `%d` for width 0, else `%0<width>d`: the sign counts towards the width. */
  function Decimal(n: int, width: nat): string {
    if n >= 0 then PadTo(Digits(n), width)
    else "-" + PadTo(Digits(-n), if width == 0 then 0 else width - 1)
  }

  function Natural(s: string): int {
    if s == [] then 0 else 10 * Natural(s[..|s| - 1]) + (s[|s| - 1] as int - '0' as int)
  }

  function Number(s: string): int {
    if s != [] && s[0] == '-' then -Natural(s[1..]) else Natural(s)
  }

  predicate AllDigits(s: string) {
    forall c | c in s :: '0' <= c <= '9'
  }

  lemma {:induction false} DigitsRead(n: nat)
    ensures AllDigits(Digits(n)) && Natural(Digits(n)) == n
  {
    if n >= 10 {
      DigitsRead(n / 10);
      assert Digits(n)[..|Digits(n)| - 1] == Digits(n / 10);
    } else {
      assert Digits(n)[..0] == [];
    }
  }

  lemma {:induction false} ZeroInFront(s: string)
    ensures Natural("0" + s) == Natural(s)
  {
    if s == [] {
      assert ("0" + s)[..0] == [];
    } else {
      assert ("0" + s)[..|s|] == "0" + s[..|s| - 1];
      ZeroInFront(s[..|s| - 1]);
    }
  }

  lemma {:induction false} PadReads(s: string, width: nat)
    requires AllDigits(s)
    ensures AllDigits(PadTo(s, width)) && Natural(PadTo(s, width)) == Natural(s)
    ensures |PadTo(s, width)| == if |s| >= width then |s| else width
    decreases width - |s|
  {
    if |s| < width {
      ZeroInFront(s);
      PadReads("0" + s, width);
    }
  }

  /** What is printed reads back, whatever the width, and holds no comma. */
  lemma DecimalReads(n: int, width: nat)
    ensures Number(Decimal(n, width)) == n && ',' !in Decimal(n, width)
  {
    var m: nat, w: nat := if n >= 0 then n else -n, if n >= 0 then width else if width == 0 then 0 else width - 1;
    DigitsRead(m);
    PadReads(Digits(m), w);
    var padded := PadTo(Digits(m), w);
    if n < 0 {
      assert Decimal(n, width)[1..] == padded;
    } else {
      assert padded[0] in padded;
    }
  }

  /** Zeros pad a number up to `width` places and no further; the sign comes first. */
  predicate Padded(f: string, width: nat) {
    && |f| >= width && |f| > 0
    && (|f| > width && |f| > 1 ==> f[0] != '0')
    && (|f| > width && |f| > 2 && f[0] == '-' ==> f[1] != '0')
  }

  lemma {:induction false} NoLeadingZero(n: nat)
    ensures |Digits(n)| > 1 ==> Digits(n)[0] != '0'
  {
    if n >= 10 { NoLeadingZero(n / 10); }
  }

  lemma {:induction false} PadIsExact(s: string, width: nat)
    ensures |PadTo(s, width)| == (if |s| >= width then |s| else width)
    ensures |s| >= width ==> PadTo(s, width) == s
    decreases width - |s|
  {
    if |s| < width { PadIsExact("0" + s, width); }
  }

  lemma DecimalIsPadded(n: int, width: nat)
    ensures Padded(Decimal(n, width), width)
  {
    var m: nat, w: nat := if n >= 0 then n else -n, if n >= 0 then width else if width == 0 then 0 else width - 1;
    NoLeadingZero(m);
    PadIsExact(Digits(m), w);
    DigitsRead(m);
    PadReads(Digits(m), w);
    var padded := PadTo(Digits(m), w);
    if n < 0 {
      assert Decimal(n, width) == "-" + padded;
    } else {
      assert padded[0] in padded;
    }
  }

  /** Some numbers as printf writes them. */
  lemma Examples()
    ensures Decimal(5, 2) == "05" && Decimal(40, 2) == "40" && Decimal(83, 3) == "083" && Decimal(-5, 3) == "-05"
    ensures Decimal(129, 2) == "129" && Decimal(0, 0) == "0"
  {
    assert Digits(40) == Digits(4) + "0" && Digits(83) == Digits(8) + "3";
    assert Digits(12) == Digits(1) + "2" && Digits(129) == Digits(12) + "9";
    assert PadTo("83", 3) == PadTo("0" + "83", 3) && PadTo("5", 2) == PadTo("0" + "5", 2);
  }

  function Pow10(k: nat): nat {
    if k == 0 then 1 else 10 * Pow10(k - 1)
  }

  lemma {:induction false} DigitsFit(n: nat, k: nat)
    requires 0 < k && n < Pow10(k)
    ensures |Digits(n)| <= k
  {
    if n >= 10 { DigitsFit(n / 10, k - 1); }
  }

  /** A number of at most `k` digits takes at most `k` places, and one more for a sign. */
  lemma DecimalFits(n: int, width: nat, k: nat)
    requires 0 < k && width <= k && -(Pow10(k) as int) < n < Pow10(k)
    ensures |Decimal(n, width)| <= if n < 0 then k + 1 else k
  {
    var m: nat := if n >= 0 then n else -n;
    DigitsFit(m, k);
    DigitsRead(m);
    PadReads(Digits(m), if n >= 0 then width else if width == 0 then 0 else width - 1);
  }

  // ---------- Fields ----------

  function Fields(s: string): (fs: seq<string>)
    ensures fs != []
  {
    if s == [] then [""]
    else if s[0] == ',' then [""] + Fields(s[1..])
    else
      var fs := Fields(s[1..]);
      [[s[0]] + fs[0]] + fs[1..]
  }

  lemma {:induction false} OneField(s: string)
    requires ',' !in s
    ensures Fields(s) == [s]
  {
    if s != [] {
      OneField(s[1..]);
      assert [s[0]] + s[1..] == s;
    }
  }

  /** A comma-free piece in front of a comma is a field of its own. */
  lemma {:induction false} FieldThenRest(piece: string, rest: string)
    requires ',' !in piece
    ensures Fields(piece + "," + rest) == [piece] + Fields(rest)
  {
    var s := piece + "," + rest;
    if piece == [] {
      assert s[0] == ',' && s[1..] == rest;
    } else {
      assert s[0] == piece[0] && s[1..] == piece[1..] + "," + rest;
      FieldThenRest(piece[1..], rest);
      assert [piece[0]] + piece[1..] == piece;
      assert ([piece[1..]] + Fields(rest))[1..] == Fields(rest);
    }
  }

  function Join(fs: seq<string>): string
    requires fs != []
  {
    if |fs| == 1 then fs[0] else fs[0] + "," + Join(fs[1..])
  }

  /** Splitting at the commas undoes joining with commas. */
  lemma {:induction false} FieldsOfJoin(fs: seq<string>)
    requires fs != [] && forall f | f in fs :: ',' !in f
    ensures Fields(Join(fs)) == fs
  {
    assert fs[0] in fs;
    if |fs| == 1 {
      OneField(fs[0]);
    } else {
      FieldsOfJoin(fs[1..]);
      FieldThenRest(fs[0], Join(fs[1..]));
    }
  }

  lemma {:induction false} JoinOneMore(fs: seq<string>, f: string)
    requires fs != []
    ensures Join(fs + [f]) == Join(fs) + "," + f
  {
    if |fs| == 1 {
      assert (fs + [f])[1..] == [f];
    } else {
      assert (fs + [f])[1..] == fs[1..] + [f];
      JoinOneMore(fs[1..], f);
      Regroup(fs[0] + ",", Join(fs[1..]), "," + f);
    }
  }
}
