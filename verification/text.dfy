/** The Option wrapper used throughout the model. */
module Wrappers {
  datatype Option<+T> = None | Some(value: T)
}

/**
 * The Python string primitives the renamers rely on, restricted to ASCII:
 * character classes of the regular expressions, str.strip, str.lower,
 * str.zfill, int(), str(int), format(int, '0Nd'), str.rfind and
 * os.path.splitext.
 */
module Text {
  import opened Wrappers

  predicate IsDigit(c: char) { '0' <= c <= '9' }

  predicate AllDigits(s: string) { forall i :: 0 <= i < |s| ==> IsDigit(s[i]) }

  /** A non-empty run of ASCII digits: what a `\d+` group captures. */
  predicate IsNumeral(s: string) { |s| > 0 && AllDigits(s) }

  /** `\s` and the default set of str.strip(), ASCII part. */
  predicate IsSpace(c: char) {
    c == ' ' || c == '\t' || c == '\n' || c == '\r' || c == '\U{0B}' || c == '\U{0C}'
    || ('\U{1C}' <= c <= '\U{1F}')
  }

  /** The regular-expression class `[\s._-]`. */
  predicate IsSep(c: char) { IsSpace(c) || c == '.' || c == '_' || c == '-' }

  /** The characters given to strip(' ._-') for a matched title. */
  predicate IsTitleJunk(c: char) { c == ' ' || c == '.' || c == '_' || c == '-' }

  /** The characters of the class `[<>:"/\\|?*]`, unsafe in file names. */
  predicate IsUnsafe(c: char) {
    c == '<' || c == '>' || c == ':' || c == '"' || c == '/' || c == '\\' || c == '|' || c == '?' || c == '*'
  }

  function Lower(c: char): (r: char)
    ensures 'A' <= c <= 'Z' ==> r != c && 'a' <= r <= 'z'
    ensures !('A' <= c <= 'Z') ==> r == c
  {
    if 'A' <= c <= 'Z' then (c as int + 32) as char else c
  }

  /** str.lower() on ASCII. */
  function LowerStr(s: string): (r: string)
    ensures |r| == |s|
    ensures forall i :: 0 <= i < |s| ==> r[i] == Lower(s[i])
  {
    seq(|s|, i requires 0 <= i < |s| => Lower(s[i]))
  }

  function Repeat(c: char, n: nat): (r: string)
    ensures |r| == n
    ensures forall i :: 0 <= i < n ==> r[i] == c
  {
    if n == 0 then [] else [c] + Repeat(c, n - 1)
  }

  // ---------------------------------------------------------------- strip

  function TrimStart(s: string, junk: char -> bool): (r: string)
    ensures |r| <= |s| && r == s[|s| - |r|..]
    ensures r == [] || !junk(r[0])
    ensures forall i :: 0 <= i < |s| - |r| ==> junk(s[i])
  {
    if s != [] && junk(s[0]) then TrimStart(s[1..], junk) else s
  }

  function TrimEnd(s: string, junk: char -> bool): (r: string)
    ensures |r| <= |s| && r == s[..|r|]
    ensures r == [] || !junk(r[|r| - 1])
    ensures forall i :: |r| <= i < |s| ==> junk(s[i])
  {
    if s != [] && junk(s[|s| - 1]) then TrimEnd(s[..|s| - 1], junk) else s
  }

  /** str.strip(chars): the longest infix of `s` that neither starts nor ends with a junk character. */
  function Strip(s: string, junk: char -> bool): (r: string)
    ensures r == [] || (!junk(r[0]) && !junk(r[|r| - 1]))
    ensures |r| <= |s|
  {
    TrimEnd(TrimStart(s, junk), junk)
  }

  /** What strip removes: junk before the i-th character and junk after the result, nothing else. */
  lemma StripIsInfix(s: string, junk: char -> bool) returns (i: nat)
    ensures i + |Strip(s, junk)| <= |s| && Strip(s, junk) == s[i..i + |Strip(s, junk)|]
    ensures forall m :: 0 <= m < i ==> junk(s[m])
    ensures forall m :: i + |Strip(s, junk)| <= m < |s| ==> junk(s[m])
  {
    var t := TrimStart(s, junk);
    var r := TrimEnd(t, junk);
    i := |s| - |t|;
    JunkAround(s, t, r, junk);
    assert Strip(s, junk) == r;
  }

  /** `r` cut from the front of the suffix `t` of `s`, with only junk cut away on either side. */
  lemma JunkAround(s: string, t: string, r: string, junk: char -> bool)
    requires |t| <= |s| && t == s[|s| - |t|..] && forall m :: 0 <= m < |s| - |t| ==> junk(s[m])
    requires |r| <= |t| && r == t[..|r|] && forall m :: |r| <= m < |t| ==> junk(t[m])
    ensures var i := |s| - |t|;
      && i + |r| <= |s| && r == s[i..i + |r|]
      && (forall m :: 0 <= m < i ==> junk(s[m]))
      && (forall m :: i + |r| <= m < |s| ==> junk(s[m]))
  {
    var i := |s| - |t|;
    forall m | i + |r| <= m < |s| ensures junk(s[m]) {
      assert s[m] == t[m - i];
    }
  }

  /** re.sub(r'[<>:"/\\|?*]', '_', s). */
  function Sanitize(s: string): (r: string)
    ensures |r| == |s|
    ensures forall i :: 0 <= i < |s| ==> r[i] == (if IsUnsafe(s[i]) then '_' else s[i])
  {
    seq(|s|, i requires 0 <= i < |s| => if IsUnsafe(s[i]) then '_' else s[i])
  }

  // ---------------------------------------------------------------- numerals

  function DigitOf(d: nat): (c: char)
    requires d < 10
    ensures IsDigit(c)
  {
    ('0' as int + d) as char
  }

  /** The decimal numeral of a natural number, as str(n) writes it. */
  function Decimal(n: nat): (r: string)
    ensures IsNumeral(r)
    decreases n
  {
    if n < 10 then [DigitOf(n)] else Decimal(n / 10) + [DigitOf(n % 10)]
  }

  /** str(n) has no leading zero: only 0 is written with a '0' first. */
  lemma {:induction false} DecimalCanonical(n: nat)
    ensures Decimal(n)[0] == '0' <==> n == 0
    decreases n
  {
    if n >= 10 {
      DecimalCanonical(n / 10);
      assert Decimal(n)[0] == Decimal(n / 10)[0];
    }
  }

  /**
   * The value of a numeral in which underscores are skipped, as int() reads
   * the digits of its argument.
   */
  function NumeralValue(s: string): nat
  {
    if s == [] then 0
    else if s[|s| - 1] == '_' then NumeralValue(s[..|s| - 1])
    else if IsDigit(s[|s| - 1]) then 10 * NumeralValue(s[..|s| - 1]) + (s[|s| - 1] as int - '0' as int)
    else NumeralValue(s[..|s| - 1])
  }

  /**
   * str(i): a numeral that reads back as |i|, after a '-' when i is
   * negative, with no leading zero unless it is "0".
   */
  function IntToString(i: int): (r: string)
    ensures i >= 0 ==> IsNumeral(r) && NumeralValue(r) == i && (r[0] == '0' <==> i == 0)
    ensures i < 0 ==> |r| > 1 && r[0] == '-' && IsNumeral(r[1..]) && NumeralValue(r[1..]) == -i && r[1] != '0'
  {
    DecimalValue(if i < 0 then -i else i);
    DecimalCanonical(if i < 0 then -i else i);
    if i < 0 then
      assert ("-" + Decimal(-i))[1..] == Decimal(-i);
      "-" + Decimal(-i)
    else Decimal(i)
  }

  /** format(i, '0{width}d'): the sign, then zeros, then the digits, at least `width` long in all. */
  function ZeroPadInt(i: int, width: nat): (r: string)
    ensures |r| >= width
  {
    var sign := if i < 0 then "-" else "";
    var digits := Decimal(if i < 0 then -i else i);
    var fill := width - |sign| - |digits|;
    sign + Repeat('0', if fill > 0 then fill else 0) + digits
  }

  /** Leading zeros do not change the value of a numeral. */
  lemma {:induction false} LeadingZeros(n: nat, s: string)
    ensures NumeralValue(Repeat('0', n) + s) == NumeralValue(s)
    decreases |s|
  {
    var z := Repeat('0', n);
    if s == [] {
      assert z + s == z;
      ZerosValue(n);
    } else {
      assert (z + s)[..|z + s| - 1] == z + s[..|s| - 1];
      LeadingZeros(n, s[..|s| - 1]);
    }
  }

  lemma {:induction false} ZerosValue(n: nat)
    ensures NumeralValue(Repeat('0', n)) == 0
  {
    if n > 0 {
      var z := Repeat('0', n);
      assert z == Repeat('0', n - 1) + ['0'] by {
        assert forall i :: 0 <= i < n ==> z[i] == (Repeat('0', n - 1) + ['0'])[i];
      }
      assert z[..n - 1] == Repeat('0', n - 1);
      ZerosValue(n - 1);
    }
  }

  /** Decimal is read back by NumeralValue. */
  lemma {:induction false} DecimalValue(n: nat)
    ensures NumeralValue(Decimal(n)) == n
    decreases n
  {
    if n >= 10 {
      DecimalValue(n / 10);
      var s := Decimal(n);
      assert s[..|s| - 1] == Decimal(n / 10);
    } else {
      assert Decimal(n)[..0] == [];
    }
  }

  /** The zero-padded numeral of a non-negative number gives the number back. */
  lemma ZeroPadValue(k: nat, w: nat)
    ensures IsNumeral(ZeroPadInt(k, w)) && NumeralValue(ZeroPadInt(k, w)) == k
  {
    var digits := Decimal(k);
    var fill := w - |digits|;
    var z := Repeat('0', if fill > 0 then fill else 0);
    assert ZeroPadInt(k, w) == z + digits;
    LeadingZeros(if fill > 0 then fill else 0, digits);
    DecimalValue(k);
  }

  /** format(i, '0{width}d') is str(i).zfill(width): the zeros go after the sign. */
  lemma ZeroPadIsZFill(i: int, width: nat)
    ensures ZeroPadInt(i, width) == ZFill(IntToString(i), width)
  {
    if i < 0 {
      var s := IntToString(i);
      assert s[1..] == Decimal(-i);
    }
  }

  /** str.zfill(width): zeros after a leading sign, up to `width` characters. */
  function ZFill(s: string, width: nat): (r: string)
    ensures |r| == if |s| >= width then |s| else width
    ensures |s| >= width ==> r == s
    ensures |s| < width && (s == [] || (s[0] != '+' && s[0] != '-')) ==> r == Repeat('0', width - |s|) + s
    ensures |s| < width && s != [] && (s[0] == '+' || s[0] == '-') ==> r == [s[0]] + Repeat('0', width - |s|) + s[1..]
  {
    if |s| >= width then s
    else if s != [] && (s[0] == '+' || s[0] == '-') then [s[0]] + Repeat('0', width - |s|) + s[1..]
    else Repeat('0', width - |s|) + s
  }

  /** The body int() accepts after the sign: digits, single underscores only between digits. */
  predicate IsIntBody(b: string) {
    && |b| > 0 && IsDigit(b[0]) && IsDigit(b[|b| - 1])
    && (forall i :: 0 <= i < |b| ==> IsDigit(b[i]) || b[i] == '_')
    && (forall i :: 0 <= i < |b| - 1 ==> b[i] == '_' ==> b[i + 1] != '_')
  }

  /** int(s) on a string: None where Python raises ValueError. */
  function ParseInt(s: string): (r: Option<int>)
  {
    ParseSigned(Strip(s, IsSpace))
  }

  /** int() accepts nothing without a digit: no empty, blank or sign-only string. */
  lemma ParseIntNeedsDigit(s: string)
    ensures ParseInt(s).Some? ==> exists m :: 0 <= m < |s| && IsDigit(s[m])
  {
    if ParseInt(s).Some? {
      var t := Strip(s, IsSpace);
      var i := StripIsInfix(s, IsSpace);
      if IsDigit(t[0]) {
        assert t[0] == s[i];
      } else {
        assert t[1] == s[i + 1];
      }
    }
  }

  /** int() once surrounding whitespace is gone: an optional sign, then the body. */
  function ParseSigned(t: string): (r: Option<int>)
    ensures r.Some? ==> |t| > 0 && (IsDigit(t[0]) || (|t| > 1 && IsDigit(t[1])))
  {
    var neg := t != [] && t[0] == '-';
    var body := if t != [] && (t[0] == '-' || t[0] == '+') then t[1..] else t;
    var v: int := NumeralValue(body);
    if IsIntBody(body) then Some(if neg then -v else v) else None
  }

  /** A plain numeral, as the episode parser captures it, is always accepted by int(). */
  lemma NumeralParses(s: string)
    requires IsNumeral(s)
    ensures ParseInt(s) == Some(NumeralValue(s))
  {
    assert TrimStart(s, IsSpace) == s;
    assert TrimEnd(s, IsSpace) == s;
    assert Strip(s, IsSpace) == s;
    NumeralSigned(s);
  }

  /** A '-' before a numeral negates it. */
  lemma NegativeParses(s: string, n: nat)
    requires IsNumeral(s) && NumeralValue(s) == n
    ensures ParseInt("-" + s) == Some(-(n as int))
  {
    var t := "-" + s;
    assert t[|t| - 1] == s[|s| - 1];
    NoSpaceAtEnds(t);
    NegativeSigned(s, n);
  }

  lemma NegativeSigned(s: string, n: nat)
    requires IsNumeral(s) && NumeralValue(s) == n
    ensures ParseSigned("-" + s) == Some(-(n as int))
  {
    assert ("-" + s)[1..] == s;
    NumeralIsIntBody(s);
  }

  /** int() strips nothing from a string that starts and ends with a non-space. */
  lemma NoSpaceAtEnds(t: string)
    requires t != [] && !IsSpace(t[0]) && !IsSpace(t[|t| - 1])
    ensures Strip(t, IsSpace) == t
  {
    assert TrimStart(t, IsSpace) == t;
    assert TrimEnd(t, IsSpace) == t;
  }

  /** int(str(i)) == i. */
  lemma IntRoundTrip(i: int)
    ensures ParseInt(IntToString(i)) == Some(i)
  {
    var s := IntToString(i);
    if i < 0 {
      assert s == "-" + s[1..];
      NegativeParses(s[1..], -i);
    } else {
      NumeralParses(s);
    }
  }

  /** int(format(i, '0{width}d')) == i: the padding zeros are read away. */
  lemma ZeroPadRoundTrip(i: int, width: nat)
    ensures ParseInt(ZeroPadInt(i, width)) == Some(i)
  {
    if i < 0 {
      NegativePadParses(-i, width);
    } else {
      ZeroPadValue(i, width);
      NumeralParses(ZeroPadInt(i, width));
    }
  }

  lemma NegativePadParses(n: nat, width: nat)
    requires n > 0
    ensures ParseInt(ZeroPadInt(-(n as int), width)) == Some(-(n as int))
  {
    var w := if width > 0 then width - 1 else 0;
    var body := ZeroPadInt(n, w);
    NegativePad(n, width);
    ZeroPadValue(n, w);
    NegativeParses(body, n);
  }

  /** A negative number is padded like its magnitude, one place narrower, after the '-'. */
  lemma NegativePad(n: nat, width: nat)
    requires n > 0
    ensures ZeroPadInt(-(n as int), width) == "-" + ZeroPadInt(n, if width > 0 then width - 1 else 0)
  {
    var d := Decimal(n);
    var fill := width - 1 - |d|;
    var z := Repeat('0', if fill > 0 then fill else 0);
    assert ZeroPadInt(-(n as int), width) == "-" + z + d;
    assert ZeroPadInt(n, if width > 0 then width - 1 else 0) == z + d;
    assert "-" + z + d == "-" + (z + d);
  }

  lemma NumeralSigned(s: string)
    requires IsNumeral(s)
    ensures ParseSigned(s) == Some(NumeralValue(s))
  {
    NumeralIsIntBody(s);
    assert s[0] != '-' && s[0] != '+';
  }

  lemma NumeralIsIntBody(s: string)
    requires IsNumeral(s)
    ensures IsIntBody(s)
  {
    assert forall i :: 0 <= i < |s| - 1 ==> s[i] != '_';
  }

  // ---------------------------------------------------------------- rfind, splitext

  /** str.rfind(c): the last index of `c`, or -1. */
  function RFind(s: string, c: char): (r: int)
    ensures -1 <= r < |s|
    ensures r >= 0 ==> s[r] == c
    ensures forall i :: r < i < |s| ==> s[i] != c
  {
    if s == [] then -1
    else if s[|s| - 1] == c then |s| - 1
    else RFind(s[..|s| - 1], c)
  }

  /**
   * name[name.rfind('.'):]: the suffix from the last '.', and, with Python's
   * reading of index -1, only the last character when there is no '.'.
   */
  function DotSuffix(name: string): (r: string)
    ensures |r| <= |name| && r == name[|name| - |r|..]
    ensures '.' in name ==> r != [] && r[0] == '.' && forall m :: 0 < m < |r| ==> r[m] != '.'
    ensures '.' !in name ==> |r| == if name == [] then 0 else 1
  {
    var d := RFind(name, '.');
    if d >= 0 then name[d..]
    else if name == [] then []
    else name[|name| - 1..]
  }

  /**
   * os.path.splitext on POSIX: the extension starts at the last '.' after the
   * last '/', provided some character other than '.' precedes it in the base name.
   */
  function SplitExt(p: string): (r: (string, string))
    ensures r.0 + r.1 == p
    ensures r.1 == [] || r.1[0] == '.'
    ensures forall i :: 0 < i < |r.1| ==> r.1[i] != '.' && r.1[i] != '/'
    ensures r.1 != [] <==>
      exists a, d :: RFind(p, '/') < a < d < |p| && p[a] != '.' && p[d] == '.'
  {
    var sepIdx := RFind(p, '/');
    var dotIdx := RFind(p, '.');
    ExtensionRule(p);
    if dotIdx > sepIdx && exists i :: sepIdx + 1 <= i < dotIdx && p[i] != '.' then
      assert p[..dotIdx] + p[dotIdx..] == p;
      (p[..dotIdx], p[dotIdx..])
    else
      assert p + [] == p;
      (p, [])
  }

  /** The last '.' follows a non-'.' of the base name exactly when some '.' does. */
  lemma ExtensionRule(p: string)
    ensures (RFind(p, '.') > RFind(p, '/') && exists i :: RFind(p, '/') + 1 <= i < RFind(p, '.') && p[i] != '.')
      <==> exists a, d :: RFind(p, '/') < a < d < |p| && p[a] != '.' && p[d] == '.'
  {
    var sepIdx := RFind(p, '/');
    var dotIdx := RFind(p, '.');
    if exists a, d :: sepIdx < a < d < |p| && p[a] != '.' && p[d] == '.' {
      var a, d :| sepIdx < a < d < |p| && p[a] != '.' && p[d] == '.';
      assert dotIdx >= d;
      assert sepIdx + 1 <= a < dotIdx && p[a] != '.';
    }
    if dotIdx > sepIdx && exists i :: sepIdx + 1 <= i < dotIdx && p[i] != '.' {
      var i :| sepIdx + 1 <= i < dotIdx && p[i] != '.';
      assert sepIdx < i < dotIdx < |p| && p[i] != '.' && p[dotIdx] == '.';
    }
  }

  // ---------------------------------------------------------------- ordering

  /** Python's `<` on str: lexicographic by code point. */
  predicate StrLess(a: string, b: string)
  {
    if a == [] then b != []
    else if b == [] then false
    else if a[0] != b[0] then a[0] < b[0]
    else StrLess(a[1..], b[1..])
  }

  predicate StrLe(a: string, b: string) { a == b || StrLess(a, b) }

  lemma {:induction false} StrLessTotal(a: string, b: string)
    ensures a == b || StrLess(a, b) || StrLess(b, a)
  {
    if a != [] && b != [] && a[0] == b[0] {
      StrLessTotal(a[1..], b[1..]);
      if a[1..] == b[1..] { assert a == [a[0]] + a[1..] && b == [b[0]] + b[1..]; }
    }
  }

  lemma {:induction false} StrLessTransitive(a: string, b: string, c: string)
    requires StrLess(a, b) && StrLess(b, c)
    ensures StrLess(a, c)
  {
    if a != [] && a[0] == b[0] && b[0] == c[0] {
      StrLessTransitive(a[1..], b[1..], c[1..]);
    }
  }

  lemma StrLeTransitive(a: string, b: string, c: string)
    requires StrLe(a, b) && StrLe(b, c)
    ensures StrLe(a, c)
  {
    if a != b && b != c { StrLessTransitive(a, b, c); }
  }

  lemma StrLeTotal(a: string, b: string)
    ensures StrLe(a, b) || StrLe(b, a)
  {
    StrLessTotal(a, b);
  }

  ghost predicate Sorted(s: seq<string>)
  {
    forall i, j :: 0 <= i < j < |s| ==> StrLe(s[i], s[j])
  }

  function Insert(x: string, s: seq<string>): (r: seq<string>)
    requires Sorted(s)
    ensures Sorted(r)
    ensures multiset(r) == multiset(s) + multiset{x}
  {
    if s == [] then [x]
    else if StrLe(x, s[0]) then
      BelowFirst(x, s);
      SortedCons(x, s);
      [x] + s
    else
      StrLeTotal(x, s[0]);
      SortedTail(s);
      var t := Insert(x, s[1..]);
      BelowFirst(s[0], s);
      BoundKept(s[0], x, s[1..], t);
      SortedCons(s[0], t);
      assert s == [s[0]] + s[1..];
      [s[0]] + t
  }

  lemma SortedTail(s: seq<string>)
    requires Sorted(s) && s != []
    ensures Sorted(s[1..])
  {
    forall i, j | 0 <= i < j < |s| - 1 ensures StrLe(s[1..][i], s[1..][j]) {
      assert s[1..][i] == s[i + 1] && s[1..][j] == s[j + 1];
    }
  }

  /** A string no greater than the first of a sorted list is no greater than any of it. */
  lemma BelowFirst(x: string, s: seq<string>)
    requires Sorted(s) && s != [] && StrLe(x, s[0])
    ensures forall j :: 0 <= j < |s| ==> StrLe(x, s[j])
  {
    forall j | 0 <= j < |s| ensures StrLe(x, s[j]) {
      if j > 0 { StrLeTransitive(x, s[0], s[j]); }
    }
  }

  lemma SortedCons(h: string, t: seq<string>)
    requires Sorted(t) && forall j :: 0 <= j < |t| ==> StrLe(h, t[j])
    ensures Sorted([h] + t)
  {
    var r := [h] + t;
    forall i, j | 0 <= i < j < |r| ensures StrLe(r[i], r[j]) {
      assert r[j] == t[j - 1];
      if i > 0 { assert r[i] == t[i - 1]; }
    }
  }

  /** A lower bound of a list and of x bounds any permutation of the list with x added. */
  lemma BoundKept(h: string, x: string, rest: seq<string>, t: seq<string>)
    requires StrLe(h, x) && forall j :: 0 <= j < |rest| ==> StrLe(h, rest[j])
    requires multiset(t) == multiset(rest) + multiset{x}
    ensures forall j :: 0 <= j < |t| ==> StrLe(h, t[j])
  {
    forall j | 0 <= j < |t| ensures StrLe(h, t[j]) {
      assert t[j] in multiset(t);
      if t[j] != x {
        assert t[j] in multiset(rest);
        var i :| 0 <= i < |rest| && rest[i] == t[j];
      }
    }
  }

  /** list.sort() on strings: the sorted permutation of its argument. */
  function Sort(s: seq<string>): (r: seq<string>)
    ensures Sorted(r)
    ensures multiset(r) == multiset(s)
  {
    if s == [] then []
    else
      assert s == [s[0]] + s[1..];
      Insert(s[0], Sort(s[1..]))
  }
}
