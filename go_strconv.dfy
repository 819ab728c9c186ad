/**
  Go's `strconv.Atoi` on a 64-bit platform, and its inverse `strconv.Itoa`.
 */
module GoStrconv {
  import opened Wrappers

  /** Bounds of Go's 64-bit `int`. */
  const MinInt: int := -0x8000_0000_0000_0000
  const MaxInt: int := 0x7FFF_FFFF_FFFF_FFFF

  predicate IsDigit(c: char) {
    '0' <= c <= '9'
  }

  predicate AllDigits(s: string) {
    forall k :: 0 <= k < |s| ==> IsDigit(s[k])
  }

  /** The value of a run of decimal digits, most significant first. */
  function DigitsValue(s: string): nat
    requires AllDigits(s)
  {
    if s == [] then 0 else DigitsValue(s[..|s| - 1]) * 10 + (s[|s| - 1] as int - '0' as int)
  }

  /** `s` without its leading `+` or `-`, if it has one. */
  function Unsigned(s: string): (digits: string)
    ensures digits == s || (s != [] && (s[0] == '+' || s[0] == '-') && digits == s[1..])
  {
    if s != [] && (s[0] == '+' || s[0] == '-') then s[1..] else s
  }

  /** `strconv.Atoi`: an optional `+` or `-`, then one or more decimal digits
      (no spaces, no underscores, no base prefix), whose value must fit a
      64-bit `int`. Every other input is an error (`None`): the empty string,
      a lone sign, any other character, and overflow. */
  function Atoi(s: string): (r: Option<int>)
    ensures r.Some? ==> MinInt <= r.value <= MaxInt
    ensures r.Some? ==> s != [] && (IsDigit(s[0]) || s[0] == '+' || s[0] == '-')
    ensures r.Some? ==> AllDigits(s[1..]) && IsDigit(s[|s| - 1])
    ensures s == "" || s == "+" || s == "-" ==> r.None?
    ensures (exists k :: 0 < k < |s| && !IsDigit(s[k])) ==> r.None?
  {
    if s == [] then None
    else
      var digits := Unsigned(s);
      if digits == [] || !AllDigits(digits) then None
      else
        assert s[1..] == digits || s[1..] == digits[1..];
        var v: int := DigitsValue(digits);
        var n := if s[0] == '-' then -v else v;
        if MinInt <= n <= MaxInt then Some(n) else None
  }

  /** The decimal digits of a natural number, without leading zeros. */
  function NatDigits(n: nat): (s: string)
    ensures s != [] && AllDigits(s)
  {
    var d := ['0' + ((n % 10) as char)];
    if n < 10 then d else NatDigits(n / 10) + d
  }

  /** `strconv.Itoa`: the canonical decimal form, with `-` for negative numbers. */
  function Itoa(n: int): (s: string)
    ensures s != [] && forall k :: 0 <= k < |s| ==> IsDigit(s[k]) || s[k] == '-'
  {
    if n < 0 then "-" + NatDigits(-n) else NatDigits(n)
  }

  lemma {:induction false} DigitsValueOfNatDigits(n: nat)
    ensures DigitsValue(NatDigits(n)) == n
  {
    var s := NatDigits(n);
    if n >= 10 {
      DigitsValueOfNatDigits(n / 10);
      assert s[..|s| - 1] == NatDigits(n / 10);
    }
  }

  /** `Atoi` reads back every 64-bit integer that `Itoa` writes. */
  lemma AtoiItoa(n: int)
    requires MinInt <= n <= MaxInt
    ensures Atoi(Itoa(n)) == Some(n)
  {
    if n < 0 {
      DigitsValueOfNatDigits(-n);
      assert Itoa(n)[1..] == NatDigits(-n);
    } else {
      DigitsValueOfNatDigits(n);
    }
  }

  /** Outside the 64-bit range even a well-formed decimal string is an error. */
  lemma AtoiOverflow(n: int)
    requires n < MinInt || MaxInt < n
    ensures Atoi(Itoa(n)) == None
  {
    var s := Itoa(n);
    if n < 0 {
      var digits := NatDigits(-n);
      assert s[0] == '-' && s[1..] == digits;
      DigitsValueOfNatDigits(-n);
    } else {
      assert IsDigit(s[0]);
      DigitsValueOfNatDigits(n);
    }
  }

  /** `k` zeros. */
  function Zeros(k: nat): (z: string)
    ensures |z| == k && AllDigits(z)
  {
    if k == 0 then "" else "0" + Zeros(k - 1)
  }

  /** Redundant leading zeros do not change the value of a digit run. */
  lemma {:induction false} ZerosValue(k: nat, d: string)
    requires AllDigits(d)
    ensures AllDigits(Zeros(k) + d) && DigitsValue(Zeros(k) + d) == DigitsValue(d)
  {
    if k == 0 {
      assert Zeros(k) + d == d;
    } else {
      var rest := Zeros(k - 1) + d;
      assert Zeros(k) + d == "0" + rest;
      ZerosValue(k - 1, d);
      LeadingZeroValue(rest);
    }
  }

  /** A signed value as written with `sign`, which is `""`, `"+"` or `"-"`. */
  function Signed(sign: string, v: nat): int {
    if sign == "-" then -(v as int) else v as int
  }

  lemma AtoiSignedDigits(sign: string, digits: string)
    requires sign == "" || sign == "+" || sign == "-"
    requires digits != [] && AllDigits(digits)
    requires MinInt <= Signed(sign, DigitsValue(digits)) <= MaxInt
    ensures Atoi(sign + digits) == Some(Signed(sign, DigitsValue(digits)))
  {
    var s := sign + digits;
    if sign == "" {
      assert s == digits && IsDigit(s[0]) && Unsigned(s) == digits;
    } else {
      assert s[0] == sign[0] && s[1..] == digits && Unsigned(s) == digits;
    }
  }

  /** `Atoi` accepts an optional sign, any number of redundant leading zeros
      and a decimal numeral, with the signed value, whenever it fits 64 bits. */
  lemma AtoiAccepts(sign: string, k: nat, m: nat)
    requires sign == "" || sign == "+" || sign == "-"
    requires MinInt <= Signed(sign, m) <= MaxInt
    ensures Atoi(sign + (Zeros(k) + NatDigits(m))) == Some(Signed(sign, m))
  {
    DigitsValueOfNatDigits(m);
    ZerosValue(k, NatDigits(m));
    AtoiSignedDigits(sign, Zeros(k) + NatDigits(m));
  }

  lemma {:induction false} LeadingZeroValue(s: string)
    requires AllDigits(s)
    ensures AllDigits("0" + s) && DigitsValue("0" + s) == DigitsValue(s)
  {
    if s != [] {
      LeadingZeroValue(s[..|s| - 1]);
      assert ("0" + s)[..|s|] == "0" + s[..|s| - 1];
    }
  }

  /** A run of digits without its redundant leading zeros; a run of zeros keeps one. */
  function StripZeros(d: string): (r: string)
    ensures |r| <= |d|
  {
    if |d| > 1 && d[0] == '0' then StripZeros(d[1..]) else d
  }

  lemma {:induction false} StripZerosValue(d: string)
    requires d != [] && AllDigits(d)
    ensures var r := StripZeros(d);
      r != [] && AllDigits(r) && (r[0] != '0' || |r| == 1) && DigitsValue(r) == DigitsValue(d)
  {
    if |d| > 1 && d[0] == '0' {
      StripZerosValue(d[1..]);
      LeadingZeroValue(d[1..]);
      assert d == "0" + d[1..];
    }
  }

  /** A digit run without redundant leading zeros is the canonical numeral of its value. */
  lemma {:induction false} NatDigitsOfValue(d: string)
    requires d != [] && AllDigits(d) && (d[0] != '0' || |d| == 1)
    ensures NatDigits(DigitsValue(d)) == d
    ensures d[0] != '0' ==> DigitsValue(d) >= 1
  {
    if |d| > 1 {
      var init := d[..|d| - 1];
      NatDigitsOfValue(init);
      var v := DigitsValue(d);
      assert v == DigitsValue(init) * 10 + (d[|d| - 1] as int - '0' as int);
      assert v / 10 == DigitsValue(init) && v % 10 == d[|d| - 1] as int - '0' as int;
      assert d == init + [d[|d| - 1]];
    }
  }

  /** The converse of `AtoiItoa`: whatever `Atoi` accepts is the canonical
      numeral of its value, up to an explicit sign and leading zeros, and a
      negative value comes only from a `-`, a positive one never does. */
  lemma AtoiCanonical(s: string)
    ensures Atoi(s).Some? ==> StripZeros(Unsigned(s)) == NatDigits(if Atoi(s).value < 0 then -Atoi(s).value else Atoi(s).value)
    ensures Atoi(s).Some? && Atoi(s).value < 0 ==> s[0] == '-'
    ensures Atoi(s).Some? && Atoi(s).value > 0 ==> s[0] != '-'
  {
    if Atoi(s).Some? {
      var digits := Unsigned(s);
      StripZerosValue(digits);
      NatDigitsOfValue(StripZeros(digits));
    }
  }
}
