/** The JavaScript built-ins the views lean on, with the ECMAScript behaviour the views depend on:
    `String.prototype.trim`, `parseInt` with no radix, `String(n)` for an integral number,
    the `a || b` fallback on strings, and `Array.prototype.filter` dropping one value. */
module JsBuiltins {
  import opened Common

  // ---------------------------------------------------------------------------------------------
  // White space, trim

  /** ECMAScript WhiteSpace and LineTerminator code points, which both `trim` and `parseInt` skip:
      TAB, VT, FF, ZWNBSP, the Unicode space separators, LF, CR, LS and PS. */
  predicate IsSpace(c: char) {
    || c == '\t' || c == '\n' || c == '\U{000B}' || c == '\U{000C}' || c == '\r'
    || c == ' ' || c == '\U{00A0}' || c == '\U{1680}' || ('\U{2000}' <= c <= '\U{200A}')
    || c == '\U{2028}' || c == '\U{2029}' || c == '\U{202F}' || c == '\U{205F}'
    || c == '\U{3000}' || c == '\U{FEFF}'
  }

  /** The character at `i` of `s` is white space. */
  predicate SpaceAt(s: string, i: int)
    requires 0 <= i < |s|
  {
    IsSpace(s[i])
  }

  /** Every character of `s` is white space (the empty string included). The quantifier hangs on
      `SpaceAt`, so that indexing into `s` does not unfold it by itself. */
  ghost predicate IsBlank(s: string) {
    forall i {:trigger SpaceAt(s, i)} :: 0 <= i < |s| ==> SpaceAt(s, i)
  }

  /** A non-empty string is blank exactly when its first character is white space and the rest
      is blank. */
  lemma BlankCons(s: string)
    requires s != []
    ensures IsBlank(s) <==> IsSpace(s[0]) && IsBlank(s[1..])
  {
    var tail := s[1..];
    if IsBlank(s) {
      assert SpaceAt(s, 0);
      forall i | 0 <= i < |tail|
        ensures SpaceAt(tail, i)
      {
        assert SpaceAt(s, i + 1);
      }
    }
    if IsSpace(s[0]) && IsBlank(tail) {
      forall i | 0 <= i < |s|
        ensures SpaceAt(s, i)
      {
        if i > 0 { assert SpaceAt(tail, i - 1); }
      }
    }
  }

  /** A non-empty string is blank exactly when its last character is white space and the rest
      is blank. */
  lemma BlankSnoc(s: string)
    requires s != []
    ensures IsBlank(s) <==> IsSpace(s[|s| - 1]) && IsBlank(s[..|s| - 1])
  {
    var init := s[..|s| - 1];
    if IsBlank(s) {
      assert SpaceAt(s, |s| - 1);
      forall i | 0 <= i < |init|
        ensures SpaceAt(init, i)
      {
        assert SpaceAt(s, i);
      }
    }
    if IsSpace(s[|s| - 1]) && IsBlank(init) {
      forall i | 0 <= i < |s|
        ensures SpaceAt(s, i)
      {
        if i < |init| { assert SpaceAt(init, i); }
      }
    }
  }

  /** `s` with its leading white space removed: a suffix of `s` that starts with something
      other than white space, and that is empty exactly when `s` is blank. */
  function TrimStart(s: string): (r: string)
    ensures |r| <= |s| && r == s[|s| - |r|..]
    ensures r == [] || !IsSpace(r[0])
    ensures r == [] <==> IsBlank(s)
  {
    if s == [] then s
    else
      BlankCons(s);
      if IsSpace(s[0]) then TrimStart(s[1..]) else s
  }

  /** `s` with its trailing white space removed: a prefix of `s` that ends with something other
      than white space, and that is empty exactly when `s` is blank. */
  function TrimEnd(s: string): (r: string)
    ensures |r| <= |s| && r == s[..|r|]
    ensures r == [] || !IsSpace(r[|r| - 1])
    ensures r == [] <==> IsBlank(s)
  {
    if s == [] then s
    else
      BlankSnoc(s);
      if IsSpace(s[|s| - 1]) then TrimEnd(s[..|s| - 1]) else s
  }

  /** `s.trim()`: empty exactly when `s` is blank; otherwise it neither starts nor ends with
      white space. */
  function Trim(s: string): (r: string)
    ensures r == "" <==> IsBlank(s)
    ensures r != "" ==> !IsSpace(r[0]) && !IsSpace(r[|r| - 1])
    ensures |r| <= |s|
  {
    TrimEndKeepsStart(TrimStart(s));
    TrimEnd(TrimStart(s))
  }

  /** Trimming the end of a string that does not start with white space keeps its first
      character, and empties only the empty string. */
  lemma TrimEndKeepsStart(t: string)
    requires t == [] || !IsSpace(t[0])
    ensures TrimEnd(t) == [] <==> t == []
    ensures TrimEnd(t) != [] ==> TrimEnd(t)[0] == t[0]
  {
    if t != [] {
      BlankCons(t);
    }
  }

  /** The start trim removes white space only: what precedes `t`, what it keeps, is blank. */
  lemma TrimStartDropsOnlySpace(s: string, t: string)
    requires t == TrimStart(s)
    ensures IsBlank(s[..|s| - |t|])
  {
    LeadingSpaceIsBlank(s);
  }

  /** The same, by induction on `s`, with the kept part written as `TrimStart(s)`. */
  lemma {:induction false} LeadingSpaceIsBlank(s: string)
    ensures IsBlank(s[..|s| - |TrimStart(s)|])
  {
    if s != [] && IsSpace(s[0]) {
      LeadingSpaceIsBlank(s[1..]);
      var k := |s| - |TrimStart(s)|;
      assert s[..k][1..] == s[1..][..k - 1];
      BlankCons(s[..k]);
    }
  }

  /** The end trim removes white space only: `r`, what it keeps, is followed by a blank tail. */
  lemma {:induction false} TrimEndDropsOnlySpace(s: string, r: string)
    requires r == TrimEnd(s)
    ensures IsBlank(s[|r|..])
  {
    if s != [] && IsSpace(s[|s| - 1]) {
      var init := s[..|s| - 1];
      TrimEndDropsOnlySpace(init, r);
      assert s[|r|..][..|s| - |r| - 1] == init[|r|..];
      BlankSnoc(s[|r|..]);
    }
  }

  /** `s.trim()` is the part of `s` between a blank head and a blank tail: with `t` what the
      start trim keeps and `r` what the end trim then keeps, `r` is the trimmed string, it sits
      in `s` where `t` begins, and only white space precedes and follows it. */
  lemma TrimIsInfix(s: string, t: string, r: string)
    requires t == TrimStart(s) && r == TrimEnd(t)
    ensures r == Trim(s)
    ensures |s| - |t| + |r| <= |s| && s[|s| - |t|..|s| - |t| + |r|] == r
    ensures IsBlank(s[..|s| - |t|]) && IsBlank(s[|s| - |t| + |r|..])
  {
    TrimStartDropsOnlySpace(s, t);
    TrimsAreInfix(s, t, r);
  }

  /** The part both trims keep sits in `s` right after what the start trim drops, and only white
      space follows it. */
  lemma TrimsAreInfix(s: string, t: string, r: string)
    requires t == TrimStart(s) && r == TrimEnd(t)
    ensures |s| - |t| + |r| <= |s| && s[|s| - |t|..|s| - |t| + |r|] == r
    ensures IsBlank(s[|s| - |t| + |r|..])
  {
    assert IsBlank(t[|r|..]) by {
      TrimEndDropsOnlySpace(t, r);
    }
    assert t == s[|s| - |t|..];
    assert r == t[..|r|];
    InfixOfTail(s, t, r);
  }

  /** A tail `t` of `s` that starts with `r` followed by blanks: `r` sits in `s` right where `t`
      begins, and only blanks follow it there. */
  lemma InfixOfTail(s: string, t: string, r: string)
    requires |t| <= |s| && t == s[|s| - |t|..]
    requires |r| <= |t| && r == t[..|r|] && IsBlank(t[|r|..])
    ensures |s| - |t| + |r| <= |s| && s[|s| - |t|..|s| - |t| + |r|] == r
    ensures IsBlank(s[|s| - |t| + |r|..])
  {
    assert t[|r|..] == s[|s| - |t| + |r|..];
  }

  // ---------------------------------------------------------------------------------------------
  // The `||` fallback

  /** JavaScript truthiness of a string that may be absent: present and not empty. */
  predicate Truthy(s: Option<string>) {
    s.Some? && s.value != ""
  }

  /** `s || fallback` for a string that may be absent. */
  function OrElse(s: Option<string>, fallback: string): (r: string)
    ensures r == fallback || (s.Some? && r == s.value)
    ensures Truthy(s) ==> r == s.value
    ensures r != "" <==> Truthy(s) || fallback != ""
  {
    if Truthy(s) then s.value else fallback
  }

  // ---------------------------------------------------------------------------------------------
  // parseInt and String(n)

  /** The value of a character as a digit in radix 36, or -1 when it is not one. */
  function DigitValue(c: char): (d: int)
    ensures -1 <= d < 36
    ensures '0' <= c <= '9' ==> d == c as int - '0' as int
  {
    if '0' <= c <= '9' then c as int - '0' as int
    else if 'a' <= c <= 'z' then c as int - 'a' as int + 10
    else if 'A' <= c <= 'Z' then c as int - 'A' as int + 10
    else -1
  }

  predicate IsDigit(c: char, radix: int) {
    0 <= DigitValue(c) < radix
  }

  /** The longest prefix of `s` made of digits in `radix`. */
  function DigitPrefix(s: string, radix: int): (r: string)
    ensures |r| <= |s| && r == s[..|r|]
    ensures forall i :: 0 <= i < |r| ==> IsDigit(r[i], radix)
    ensures |r| == |s| || !IsDigit(s[|r|], radix)
  {
    if s != [] && IsDigit(s[0], radix) then [s[0]] + DigitPrefix(s[1..], radix) else []
  }

  /** The number a digit string denotes in `radix`, most significant digit first. */
  function DigitsValue(ds: string, radix: nat): (n: nat)
    requires forall i :: 0 <= i < |ds| ==> IsDigit(ds[i], radix)
  {
    if ds == [] then 0
    else
      var high := DigitsValue(ds[..|ds| - 1], radix);
      assert high * radix >= 0 && IsDigit(ds[|ds| - 1], radix);
      high * radix + DigitValue(ds[|ds| - 1])
  }

  /** The part of `parseInt` after the sign: a `0x`/`0X` prefix switches to radix 16, and the
      longest run of digits that follows is the value; no digit at all gives NaN (`None`). */
  function ParseMagnitude(u: string): Option<nat> {
    if |u| >= 2 && u[0] == '0' && (u[1] == 'x' || u[1] == 'X') then
      var ds := DigitPrefix(u[2..], 16);
      if ds == [] then None else Some(DigitsValue(ds, 16))
    else
      var ds := DigitPrefix(u, 10);
      if ds == [] then None else Some(DigitsValue(ds, 10))
  }

  /** `parseInt(s)` with no radix; `None` stands for NaN. Leading white space is skipped and one
      sign is read before the magnitude. */
  function ParseInt(s: string): (r: Option<int>)
    ensures IsBlank(s) ==> r.None?
    ensures r.Some? && r.value < 0 ==> TrimStart(s)[0] == '-'
  {
    ParseSigned(TrimStart(s))
  }

  /** `parseInt` after the white space: one optional sign, then the magnitude. */
  function ParseSigned(t: string): Option<int> {
    var negative := t != [] && t[0] == '-';
    var u := if t != [] && (t[0] == '-' || t[0] == '+') then t[1..] else t;
    match ParseMagnitude(u)
    case None => None
    case Some(m) => var v: int := m; Some(if negative then -v else v)
  }

  function DigitChar(d: nat): (c: char)
    requires d < 10
    ensures IsDigit(c, 10) && DigitValue(c) == d
  {
    ('0' as int + d) as char
  }

  /** The decimal digits of `n`, most significant first. */
  function NatToString(n: nat): (s: string)
    ensures s != []
    ensures forall i :: 0 <= i < |s| ==> IsDigit(s[i], 10)
  {
    if n < 10 then [DigitChar(n)] else NatToString(n / 10) + [DigitChar(n % 10)]
  }

  /** `String(n)` for an integral number: a minus sign for negatives, then the decimal digits. */
  function IntToString(n: int): (r: string)
    ensures r != [] && (r[0] == '-' <==> n < 0)
    ensures forall i :: 0 < i < |r| ==> IsDigit(r[i], 10)
  {
    if n < 0 then "-" + NatToString(-n) else NatToString(n)
  }

  lemma {:induction false} DigitsValueOfNatToString(n: nat)
    ensures DigitsValue(NatToString(n), 10) == n
  {
    var s := NatToString(n);
    if n >= 10 {
      DigitsValueOfNatToString(n / 10);
      assert s[..|s| - 1] == NatToString(n / 10);
    }
  }

  /** A plain run of decimal digits is its own magnitude. */
  lemma ParseMagnitudeOfDigits(digits: string)
    requires digits != [] && forall i :: 0 <= i < |digits| ==> IsDigit(digits[i], 10)
    ensures ParseMagnitude(digits) == Some(DigitsValue(digits, 10))
  {
    assert IsDigit(digits[0], 10);
    assert !(|digits| >= 2 && (digits[1] == 'x' || digits[1] == 'X')) by {
      if |digits| >= 2 { assert IsDigit(digits[1], 10); }
    }
    assert DigitPrefix(digits, 10) == digits;
  }

  lemma DecimalDigitIsNotSpace(c: char)
    requires IsDigit(c, 10)
    ensures '0' <= c <= '9' && !IsSpace(c)
  {
  }

  /** Without a sign the magnitude is the value ... */
  lemma ParseSignedUnsigned(t: string, m: nat)
    requires t != [] && t[0] != '-' && t[0] != '+' && ParseMagnitude(t) == Some(m)
    ensures ParseSigned(t) == Some(m)
  {
  }

  /** A string that starts with no white space is parsed from its first character. */
  lemma ParseIntOfUnspaced(s: string)
    requires s != [] && !IsSpace(s[0])
    ensures ParseInt(s) == ParseSigned(s)
  {
  }

  /** `parseInt` reads a run of decimal digits as its value ... */
  lemma ParseIntOfDigits(digits: string)
    requires digits != [] && forall i :: 0 <= i < |digits| ==> IsDigit(digits[i], 10)
    ensures ParseInt(digits) == Some(DigitsValue(digits, 10))
  {
    DecimalDigitIsNotSpace(digits[0]);
    assert TrimStart(digits) == digits;
    ParseMagnitudeOfDigits(digits);
    ParseSignedUnsigned(digits, DigitsValue(digits, 10));
  }

  /** ... and a minus sign followed by a magnitude as the negated magnitude. */
  lemma ParseIntOfNegative(s: string, m: nat)
    requires s != [] && s[0] == '-' && ParseMagnitude(s[1..]) == Some(m)
    ensures ParseInt(s) == Some(-(m as int))
  {
    assert ParseSigned(s) == Some(-(m as int));
    ParseIntOfUnspaced(s);
  }

  /** Reading back what `String(n)` wrote: `parseInt(String(n)) === n`. */
  lemma ParseIntOfIntToString(n: int)
    ensures ParseInt(IntToString(n)) == Some(n)
  {
    var m: nat := if n < 0 then -n else n;
    DigitsValueOfNatToString(m);
    if n < 0 {
      var s := IntToString(n);
      assert s[0] == '-' && s[1..] == NatToString(m);
      ParseMagnitudeOfDigits(NatToString(m));
      ParseIntOfNegative(s, m);
    } else {
      ParseIntOfDigits(NatToString(m));
    }
  }

  /** Different integers never print alike. */
  lemma IntToStringInjective(a: int, b: int)
    requires IntToString(a) == IntToString(b)
    ensures a == b
  {
    ParseIntOfIntToString(a);
    ParseIntOfIntToString(b);
  }

  /** A blank string, the empty one included, is NaN to `parseInt`. */
  lemma ParseIntOfBlank(s: string)
    requires IsBlank(s)
    ensures ParseInt(s) == None
  {
  }

  // ---------------------------------------------------------------------------------------------
  // Array.prototype.filter dropping one value, and duplicate-free id lists

  /** `xs.filter(v => v !== x)`: every occurrence of `x` goes, everything else stays, in order. */
  function Without<T(==)>(xs: seq<T>, x: T): (r: seq<T>)
    ensures x !in r
    ensures multiset(r) == multiset(xs)[x := 0]
    ensures x !in xs ==> r == xs
  {
    if xs == [] then []
    else
      assert xs == [xs[0]] + xs[1..];
      (if xs[0] == x then [] else [xs[0]]) + Without(xs[1..], x)
  }

  /** Filtering distributes over concatenation, so the survivors keep their relative order. */
  lemma {:induction false} WithoutConcat<T>(a: seq<T>, b: seq<T>, x: T)
    ensures Without(a + b, x) == Without(a, x) + Without(b, x)
  {
    if a == [] {
      assert a + b == b;
    } else {
      assert (a + b)[0] == a[0] && (a + b)[1..] == a[1..] + b;
      WithoutConcat(a[1..], b, x);
    }
  }

  /** Every value occurs at most once. */
  ghost predicate NoDuplicates(xs: seq<int>) {
    forall v :: multiset(xs)[v] <= 1
  }

  lemma WithoutKeepsNoDuplicates(xs: seq<int>, x: int)
    requires NoDuplicates(xs)
    ensures NoDuplicates(Without(xs, x))
  {
    forall v ensures multiset(Without(xs, x))[v] <= 1 {
      assert multiset(xs)[v] <= 1;
    }
  }

  lemma AppendFreshKeepsNoDuplicates(xs: seq<int>, x: int)
    requires NoDuplicates(xs) && x !in xs
    ensures NoDuplicates(xs + [x])
  {
    assert multiset(xs + [x]) == multiset(xs) + multiset{x};
    forall v ensures multiset(xs + [x])[v] <= 1 {
      assert multiset(xs)[v] <= 1;
    }
  }
}
