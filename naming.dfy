/**
 * Port keys.  ngspice is case-insensitive, so every key is lower-cased
 * (`std::transform(..., ::tolower)` in the C locale); the bits of a vector
 * port are keyed `base[i]` (`create_indexed_name`, `std::to_string`).
 */
module Naming {

  /** `::tolower` in the C locale: only 'A'..'Z' change. */
  function LowerChar(c: char): (r: char)
    ensures 'A' <= c <= 'Z' ==> r as int == c as int + 32
    ensures !('A' <= c <= 'Z') ==> r == c
  {
    if 'A' <= c <= 'Z' then (c as int + 32) as char else c
  }

  function Lower(s: string): (r: string)
    ensures |r| == |s|
  {
    if s == [] then [] else [LowerChar(s[0])] + Lower(s[1..])
  }

  /** Lower-casing maps every character on its own, in place. */
  lemma {:induction false} LowerSpec(s: string)
    ensures forall i :: 0 <= i < |s| ==> Lower(s)[i] == LowerChar(s[i])
    decreases |s|
  {
    if s != [] {
      LowerSpec(s[1..]);
      var r := Lower(s);
      forall i | 0 <= i < |s| ensures r[i] == LowerChar(s[i]) {
        if i > 0 {
          assert r[i] == Lower(s[1..])[i - 1];
          assert s[1..][i - 1] == s[i];
        }
      }
    }
  }

  predicate IsLower(s: string) {
    forall i :: 0 <= i < |s| ==> !('A' <= s[i] <= 'Z')
  }

  /** Lower-casing yields a lower-case key and is idempotent. */
  lemma LowerIsNormal(s: string)
    ensures IsLower(Lower(s))
    ensures Lower(Lower(s)) == Lower(s)
  {
    LowerSpec(s);
    LowerSpec(Lower(s));
  }

  /**
   * The registry key of a port: `module_path + "." + name` in full-path
   * discovery mode, otherwise the bare name; lower-cased either way.
   */
  function PortKey(fullPathDiscovery: bool, modulePath: string, name: string): (r: string)
    ensures IsLower(r)
    ensures fullPathDiscovery ==> r == Lower(modulePath) + "." + Lower(name)
    ensures !fullPathDiscovery ==> r == Lower(name)
  {
    var k := if fullPathDiscovery then modulePath + "." + name else name;
    LowerOfConcat(modulePath + ".", name);
    LowerOfConcat(modulePath, ".");
    LowerDot();
    LowerIsNormal(k);
    Lower(k)
  }

  lemma LowerDot()
    ensures Lower(".") == "."
  {
    LowerSpec(".");
    assert Lower(".")[0] == '.';
  }

  lemma LowerOfConcat(a: string, b: string)
    ensures Lower(a + b) == Lower(a) + Lower(b)
  {
    LowerSpec(a + b);
    LowerSpec(a);
    LowerSpec(b);
    assert |Lower(a + b)| == |Lower(a) + Lower(b)|;
    forall i | 0 <= i < |a + b| ensures Lower(a + b)[i] == (Lower(a) + Lower(b))[i] {
      if i < |a| { assert (a + b)[i] == a[i]; } else { assert (a + b)[i] == b[i - |a|]; }
    }
  }

  // ---------------------------------------------------------------------------
  // std::to_string for int

  function DigitChar(d: nat): (c: char)
    requires d < 10
    ensures '0' <= c <= '9'
  {
    "0123456789"[d]
  }

  function DigitValue(c: char): nat {
    if '0' <= c <= '9' then c as int - '0' as int else 0
  }

  predicate AllDigits(s: string) {
    forall i :: 0 <= i < |s| ==> '0' <= s[i] <= '9'
  }

  /** Decimal digits of `n`, most significant first, no leading zeros. */
  function NatToString(n: nat): (s: string)
    ensures |s| > 0
    decreases n
  {
    if n < 10 then [DigitChar(n)] else NatToString(n / 10) + [DigitChar(n % 10)]
  }

  /** `std::to_string` of a natural number writes only decimal digits. */
  lemma {:induction false} NatToStringDigits(n: nat)
    ensures AllDigits(NatToString(n))
    decreases n
  {
    if n >= 10 {
      NatToStringDigits(n / 10);
      var s := NatToString(n / 10);
      assert forall k :: 0 <= k < |s| ==> (s + [DigitChar(n % 10)])[k] == s[k];
    }
  }

  /** The value of a string of decimal digits. */
  function ParseDigits(s: string): nat
    decreases |s|
  {
    if s == [] then 0 else 10 * ParseDigits(s[..|s| - 1]) + DigitValue(s[|s| - 1])
  }

  /** Reading back the digits `std::to_string` writes gives the number again. */
  lemma {:induction false} ParseNatToString(n: nat)
    ensures ParseDigits(NatToString(n)) == n
    decreases n
  {
    var s := NatToString(n);
    if n < 10 {
      assert DigitValue(DigitChar(n)) == n by { DigitRoundTrip(n); }
    } else {
      ParseNatToString(n / 10);
      assert s[..|s| - 1] == NatToString(n / 10);
      DigitRoundTrip(n % 10);
    }
  }

  lemma DigitRoundTrip(d: nat)
    requires d < 10
    ensures DigitValue(DigitChar(d)) == d
  {
    var digits := "0123456789";
    assert digits[d] as int - '0' as int == d;
  }

  /** `std::to_string(int)`. */
  function IntToString(i: int): (s: string)
    ensures |s| > 0
  {
    if i < 0 then "-" + NatToString(-i) else NatToString(i)
  }

  lemma {:induction false} IntToStringInjective(i: int, j: int)
    requires IntToString(i) == IntToString(j)
    ensures i == j
  {
    var si, sj := IntToString(i), IntToString(j);
    if i < 0 {
      NegativeString(i);
      if j < 0 {
        NegativeString(j);
        var a: nat, b: nat := -i, -j;
        assert NatToString(a) == si[1..] == sj[1..] == NatToString(b);
        ParseNatToString(a);
        ParseNatToString(b);
      } else {
        NatToStringDigits(j);
      }
    } else if j < 0 {
      NegativeString(j);
      NatToStringDigits(i);
    } else {
      ParseNatToString(i);
      ParseNatToString(j);
    }
  }

  lemma NegativeString(i: int)
    requires i < 0
    ensures IntToString(i)[0] == '-' && IntToString(i)[1..] == NatToString(-i)
  {
    var t := NatToString(-i);
    assert ("-" + t)[1..] == t;
  }

  /** `create_indexed_name`: `base + "[" + std::to_string(index) + "]"`. */
  function IndexedName(base: string, index: int): string {
    base + "[" + IntToString(index) + "]"
  }

  /** `base[i]` starts with the base and `[`, ends with `]`, and holds the index's digits between. */
  lemma IndexedNameShape(base: string, index: int)
    ensures var r := IndexedName(base, index);
      && |r| >= |base| + 3 && r[..|base|] == base
      && r[|base|] == '[' && r[|r| - 1] == ']'
      && r[|base| + 1 .. |r| - 1] == IntToString(index)
  {
    var r := IndexedName(base, index);
    assert r == base + ("[" + IntToString(index) + "]");
  }

  /** Bit names of one base are pairwise distinct: the index can be read back. */
  lemma {:induction false} IndexedNameInjective(base: string, i: int, j: int)
    requires IndexedName(base, i) == IndexedName(base, j)
    ensures i == j
  {
    IndexedNameShape(base, i);
    IndexedNameShape(base, j);
    IntToStringInjective(i, j);
  }

  /** A lower-case base gives lower-case bit names, so they are valid keys. */
  lemma IndexedNameIsLower(base: string, index: int)
    requires IsLower(base)
    ensures IsLower(IndexedName(base, index))
  {
    var s := IntToString(index);
    if index < 0 { NatToStringDigits(-index); } else { NatToStringDigits(index); }
    assert forall k :: 0 <= k < |s| ==> s[k] == '-' || '0' <= s[k] <= '9';
    var r := IndexedName(base, index);
    forall k | 0 <= k < |r| ensures !('A' <= r[k] <= 'Z') {
      if k < |base| { assert r[k] == base[k]; }
      else if k == |base| { }
      else if k < |r| - 1 { assert r[k] == s[k - |base| - 1]; }
    }
  }
}
