/** Cache keys (cache/entry.go): the canonical name, a colon and the decimal query type. */
module Keys {

  function Lower(c: char): char
  {
    if 'A' <= c <= 'Z' then c - 'A' + 'a' else c
  }

  function LowerAll(s: string): (r: string)
    ensures |r| == |s|
  {
    if s == "" then "" else [Lower(s[0])] + LowerAll(s[1..])
  }

  /** dns.CanonicalName (section 6.2 of RFC 4034): ASCII letters in lower case, fully qualified. */
  function CanonicalName(name: string): string
  {
    var n := LowerAll(name);
    if n != "" && n[|n| - 1] == '.' then n else n + "."
  }

  function Digit(d: nat): char
    requires d < 10
  {
    "0123456789"[d]
  }

  function Decimal(n: nat): string
  {
    if n < 10 then [Digit(n)] else Decimal(n / 10) + [Digit(n % 10)]
  }

  function Key(name: string, qtype: nat): string
  {
    CanonicalName(name) + ":" + Decimal(qtype)
  }

  // ---------------------------------------------------------------------------
  // Canonical names
  // ---------------------------------------------------------------------------

  lemma {:induction false} LowerAllAt(s: string, i: nat)
    requires i < |s|
    ensures LowerAll(s)[i] == Lower(s[i])
  {
    if i > 0 {
      LowerAllAt(s[1..], i - 1);
    }
  }

  lemma LowerAllIdempotent(s: string)
    ensures LowerAll(LowerAll(s)) == LowerAll(s)
  {
    forall i: nat | i < |s|
      ensures LowerAll(LowerAll(s))[i] == LowerAll(s)[i]
    {
      LowerAllAt(s, i);
      LowerAllAt(LowerAll(s), i);
    }
  }

  lemma LowerAllDot(s: string)
    ensures LowerAll(s + ".") == LowerAll(s) + "."
  {
    forall i: nat | i < |s| + 1
      ensures LowerAll(s + ".")[i] == (LowerAll(s) + ".")[i]
    {
      LowerAllAt(s + ".", i);
      if i < |s| {
        LowerAllAt(s, i);
      }
    }
  }

  lemma CanonicalIdempotent(name: string)
    ensures CanonicalName(CanonicalName(name)) == CanonicalName(name)
  {
    var n := LowerAll(name);
    LowerAllIdempotent(name);
    if !(n != "" && n[|n| - 1] == '.') {
      LowerAllDot(n);
    }
  }

  /** The handler looks up the client's name, Set stores under the canonical one: the keys agree. */
  lemma KeyOfCanonical(name: string, qtype: nat)
    ensures Key(CanonicalName(name), qtype) == Key(name, qtype)
  {
    CanonicalIdempotent(name);
  }

  lemma KeyNotEmpty(name: string, qtype: nat)
    ensures Key(name, qtype) != ""
  {
  }

  // ---------------------------------------------------------------------------
  // Distinct questions have distinct keys
  // ---------------------------------------------------------------------------

  lemma {:induction false} DecimalHasNoColon(n: nat, i: nat)
    requires i < |Decimal(n)|
    ensures Decimal(n)[i] != ':'
  {
    if n >= 10 && i < |Decimal(n / 10)| {
      DecimalHasNoColon(n / 10, i);
    }
  }

  lemma {:induction false} DecimalInjective(m: nat, n: nat)
    requires Decimal(m) == Decimal(n)
    ensures m == n
  {
    var a, b := Decimal(m), Decimal(n);
    assert a[|a| - 1] == Digit(m % 10) && b[|b| - 1] == Digit(n % 10);
    DigitInjective(m % 10, n % 10);
    OneDigit(m);
    OneDigit(n);
    if m >= 10 {
      assert Decimal(m / 10) == a[..|a| - 1] && Decimal(n / 10) == b[..|b| - 1];
      DecimalInjective(m / 10, n / 10);
    }
  }

  lemma OneDigit(n: nat)
    ensures |Decimal(n)| == 1 <==> n < 10
  {
    if n >= 10 {
      assert |Decimal(n / 10)| > 0;
    }
  }

  lemma DigitInjective(c: nat, d: nat)
    requires c < 10 && d < 10 && Digit(c) == Digit(d)
    ensures c == d
  {
  }

  /** The colon before the type is the last one, however many the name contains. */
  lemma SplitAtLastColon(name1: string, type1: nat, name2: string, type2: nat)
    requires name1 + ":" + Decimal(type1) == name2 + ":" + Decimal(type2)
    ensures |Decimal(type1)| <= |Decimal(type2)|
  {
    var key := name1 + ":" + Decimal(type1);
    var d1, d2 := Decimal(type1), Decimal(type2);
    if |d1| > |d2| {
      var colon := |name2|;
      assert key[colon] == ':';
      assert key[colon] == d1[colon - |name1| - 1];
      DecimalHasNoColon(type1, colon - |name1| - 1);
    }
  }

  /** A key determines the canonical name and the type, and they determine it. */
  lemma KeyFaithful(name1: string, type1: nat, name2: string, type2: nat)
    ensures Key(name1, type1) == Key(name2, type2)
            <==> CanonicalName(name1) == CanonicalName(name2) && type1 == type2
  {
    if Key(name1, type1) == Key(name2, type2) {
      var c1, c2 := CanonicalName(name1), CanonicalName(name2);
      var d1, d2 := Decimal(type1), Decimal(type2);
      SplitAtLastColon(c1, type1, c2, type2);
      SplitAtLastColon(c2, type2, c1, type1);
      var key := Key(name1, type1);
      assert c1 == key[..|key| - |d1| - 1] && c2 == key[..|key| - |d2| - 1];
      assert d1 == key[|key| - |d1|..] && d2 == key[|key| - |d2|..];
      DecimalInjective(type1, type2);
    }
  }

  // ---------------------------------------------------------------------------
  // Keys letter by letter
  // ---------------------------------------------------------------------------

  /** The same ASCII letter in upper and lower case, or the same character. */
  predicate SameLetter(a: char, b: char)
  {
    || a == b
    || (65 <= a as int <= 90 && b as int == a as int + 32)
    || (65 <= b as int <= 90 && a as int == b as int + 32)
  }

  predicate SameLetters(a: string, b: string)
  {
    |a| == |b| && forall i :: 0 <= i < |a| ==> SameLetter(a[i], b[i])
  }

  predicate FullyQualified(name: string)
  {
    name != "" && name[|name| - 1] == '.'
  }

  lemma LowerSame(a: char, b: char)
    ensures Lower(a) == Lower(b) <==> SameLetter(a, b)
    ensures Lower(a) == '.' <==> a == '.'
  {
  }

  lemma LowerAllSame(a: string, b: string)
    ensures LowerAll(a) == LowerAll(b) <==> SameLetters(a, b)
  {
    hide Lower, SameLetter;
    forall i | 0 <= i < |a| && i < |b|
      ensures LowerAll(a)[i] == LowerAll(b)[i] <==> SameLetter(a[i], b[i])
    {
      LowerAllAt(a, i);
      LowerAllAt(b, i);
      LowerSame(a[i], b[i]);
    }
    if SameLetters(a, b) {
      assert LowerAll(a) == LowerAll(b);
    }
  }

  lemma QualifiedCanonical(name: string)
    ensures FullyQualified(name) ==> CanonicalName(name) == LowerAll(name)
    ensures !FullyQualified(name) ==> CanonicalName(name) == CanonicalName(name + ".")
  {
    hide Lower;
    if name != "" {
      LowerAllAt(name, |name| - 1);
      LowerSame(name[|name| - 1], '.');
    }
    LowerAllDot(name);
    LowerAllAt(name + ".", |name|);
    LowerSame('.', '.');
  }

  /** Fully qualified names have the same key, for a type, exactly when they have the same letters, upper or lower
      case: "Google.com." and "google.com." are one entry. */
  lemma KeyIgnoresCaseOnly(name1: string, type1: nat, name2: string, type2: nat)
    requires FullyQualified(name1) && FullyQualified(name2)
    ensures Key(name1, type1) == Key(name2, type2) <==> SameLetters(name1, name2) && type1 == type2
  {
    hide Key, CanonicalName, LowerAll, SameLetters;
    KeyFaithful(name1, type1, name2, type2);
    QualifiedCanonical(name1);
    QualifiedCanonical(name2);
    LowerAllSame(name1, name2);
  }

  /** The final dot may be left out. */
  lemma KeyAddsDot(name: string, qtype: nat)
    requires !FullyQualified(name)
    ensures Key(name, qtype) == Key(name + ".", qtype)
  {
    QualifiedCanonical(name);
  }

  /** What a decimal number says. */
  function Number(digits: string): int
  {
    if digits == "" then 0
    else 10 * Number(digits[..|digits| - 1]) + digits[|digits| - 1] as int - 48
  }

  lemma {:induction false} DecimalIsNumber(n: nat)
    ensures Number(Decimal(n)) == n
    ensures forall i :: 0 <= i < |Decimal(n)| ==> '0' <= Decimal(n)[i] <= '9'
    ensures |Decimal(n)| > 1 ==> Decimal(n)[0] != '0'
  {
    DigitIs(n % 10);
    if n < 10 {
      assert Decimal(n)[..0] == "";
    } else {
      DecimalIsNumber(n / 10);
      assert Decimal(n)[..|Decimal(n)| - 1] == Decimal(n / 10);
      OneDigit(n / 10);
      if n / 10 < 10 {
        DigitIs(n / 10);
      }
    }
  }

  lemma DigitIs(d: nat)
    requires d < 10
    ensures Digit(d) as int == 48 + d
  {
  }

  /** The key of a name in lower case and fully qualified is the name, a colon and the type in decimal. */
  lemma KeyText(name: string, qtype: nat)
    requires FullyQualified(name) && forall i :: 0 <= i < |name| ==> !(65 <= name[i] as int <= 90)
    ensures |Key(name, qtype)| > |name| && Key(name, qtype)[..|name| + 1] == name + ":"
    ensures Number(Key(name, qtype)[|name| + 1..]) == qtype
  {
    hide Lower;
    QualifiedCanonical(name);
    LowerAllSame(name, LowerAll(name));
    forall i | 0 <= i < |name|
      ensures LowerAll(name)[i] == name[i]
    {
      LowerAllAt(name, i);
      LowerOfLower(name[i]);
    }
    assert LowerAll(name) == name;
    assert Key(name, qtype)[|name| + 1..] == Decimal(qtype);
    DecimalIsNumber(qtype);
  }

  lemma LowerOfLower(c: char)
    requires !(65 <= c as int <= 90)
    ensures Lower(c) == c
  {
  }
}
