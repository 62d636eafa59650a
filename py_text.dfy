/**
 * The Python 2 string and integer built-ins the profiler's loaders rely on:
 * `str.strip`, `str.split`, `str.startswith`, `int(s)` / `int(s, 16)` and the
 * `'{:x}'` / `'{}'` formatting of integers. Only ASCII text is modelled.
 */
module PyText {
  import opened Results

  // ---------------------------------------------------------------------
  // strip
  // ---------------------------------------------------------------------

  /** The characters `str.strip()` and `int()` skip: space, \t, \n, \v, \f, \r. */
  const WHITESPACE: set<char> := {' ', '\t', '\n', '\U{000B}', '\U{000C}', '\r'}

  /** `s.lstrip(cs)`: drop the leading characters that belong to `cs`. */
  function LStrip(s: string, cs: set<char>): (r: string)
    ensures |r| <= |s| && r == s[|s| - |r|..]
    ensures |r| > 0 ==> r[0] !in cs
  {
    if |s| > 0 && s[0] in cs then LStrip(s[1..], cs) else s
  }

  /** `s.rstrip(cs)`: drop the trailing characters that belong to `cs`. */
  function RStrip(s: string, cs: set<char>): (r: string)
    ensures |r| <= |s| && r == s[..|r|]
    ensures |r| > 0 ==> r[|r| - 1] !in cs
  {
    if |s| > 0 && s[|s| - 1] in cs then RStrip(s[..|s| - 1], cs) else s
  }

  /** `s.strip(cs)`: a piece of `s` that neither starts nor ends with a character of `cs`. */
  function Strip(s: string, cs: set<char>): (r: string)
    ensures |r| > 0 ==> r[0] !in cs && r[|r| - 1] !in cs
  {
    RStrip(LStrip(s, cs), cs)
  }

  /** Stripping undoes padding on both sides with characters of `cs`. */
  lemma {:induction false} StripPadded(p: string, x: string, q: string, cs: set<char>)
    requires forall i :: 0 <= i < |p| ==> p[i] in cs
    requires forall i :: 0 <= i < |q| ==> q[i] in cs
    requires |x| > 0 && x[0] !in cs && x[|x| - 1] !in cs
    ensures Strip(p + x + q, cs) == x
  {
    var y := x + q;
    assert p + x + q == p + y;
    assert y[0] == x[0];
    LStripPadded(p, y, cs);
    RStripPadded(x, q, cs);
  }

  lemma {:induction false} LStripPadded(p: string, y: string, cs: set<char>)
    requires forall i :: 0 <= i < |p| ==> p[i] in cs
    requires |y| > 0 ==> y[0] !in cs
    ensures LStrip(p + y, cs) == y
    decreases |p|
  {
    if |p| > 0 {
      assert (p + y)[1..] == p[1..] + y;
      LStripPadded(p[1..], y, cs);
    }
  }

  lemma {:induction false} RStripPadded(x: string, q: string, cs: set<char>)
    requires forall i :: 0 <= i < |q| ==> q[i] in cs
    requires |x| > 0 ==> x[|x| - 1] !in cs
    ensures RStrip(x + q, cs) == x
    decreases |q|
  {
    if |q| > 0 {
      assert (x + q)[..|x + q| - 1] == x + q[..|q| - 1];
      RStripPadded(x, q[..|q| - 1], cs);
    } else {
      assert x + q == x;
    }
  }

  // ---------------------------------------------------------------------
  // startswith, split and join
  // ---------------------------------------------------------------------

  /** `s.startswith(p)`. */
  predicate StartsWith(s: string, p: string) {
    |p| <= |s| && s[..|p|] == p
  }

  /** `sep` occurs in `s` at index `i`. */
  predicate OccursAt(s: string, sep: string, i: int) {
    0 <= i && i + |sep| <= |s| && s[i..i + |sep|] == sep
  }

  /** `s.find(sep)`: the first index at which `sep` occurs, or None. */
  function Find(s: string, sep: string): (r: Option<nat>)
    ensures r.Some? ==> OccursAt(s, sep, r.value)
    decreases |s|
  {
    if |s| < |sep| then None
    else if s[..|sep|] == sep then Some(0)
    else
      match Find(s[1..], sep)
      case None => None
      case Some(i) =>
        TailSlice(s, i, |sep|);
        Some(i + 1)
  }

  /** A slice of the tail is the slice one further along. */
  lemma TailSlice<T>(s: seq<T>, i: nat, n: nat)
    requires |s| >= 1 && i + n <= |s| - 1
    ensures s[1..][i..i + n] == s[i + 1..i + 1 + n]
  {
  }

  /** An occurrence with none before it is the one `find` reports. */
  lemma {:induction false} FindFirst(s: string, sep: string, n: nat)
    requires OccursAt(s, sep, n)
    requires forall j :: 0 <= j < n ==> !OccursAt(s, sep, j)
    ensures Find(s, sep) == Some(n)
    decreases n
  {
    if n > 0 {
      assert !OccursAt(s, sep, 0);
      TailSlice(s, n - 1, |sep|);
      forall j | 0 <= j < n - 1 ensures !OccursAt(s[1..], sep, j) {
        assert !OccursAt(s, sep, j + 1);
        TailSlice(s, j, |sep|);
      }
      FindFirst(s[1..], sep, n - 1);
    }
  }

  /** `find` reports nothing only when there is no occurrence. */
  lemma {:induction false} FindNone(s: string, sep: string, n: nat)
    requires OccursAt(s, sep, n)
    ensures Find(s, sep).Some? && Find(s, sep).value <= n
    decreases n
  {
    if n > 0 && s[..|sep|] != sep {
      TailSlice(s, n - 1, |sep|);
      FindNone(s[1..], sep, n - 1);
    }
  }

  /** `s.split(sep)` for a non-empty separator: the pieces between the occurrences of `sep`. */
  function Split(s: string, sep: string): (r: seq<string>)
    requires |sep| > 0
    ensures |r| >= 1
    decreases |s|
  {
    match Find(s, sep)
    case None => [s]
    case Some(i) => [s[..i]] + Split(s[i + |sep|..], sep)
  }

  /** `sep.join(xs)`. */
  function Join(xs: seq<string>, sep: string): string
    requires |xs| >= 1
  {
    if |xs| == 1 then xs[0] else xs[0] + sep + Join(xs[1..], sep)
  }

  /** Joining the pieces of a split gives the string back. */
  lemma {:induction false} JoinSplit(s: string, sep: string)
    requires |sep| > 0
    ensures Join(Split(s, sep), sep) == s
    decreases |s|
  {
    match Find(s, sep)
    case None =>
    case Some(i) =>
      var rest := s[i + |sep|..];
      var xs := Split(rest, sep);
      var ys := [s[..i]] + xs;
      assert Split(s, sep) == ys;
      JoinSplit(rest, sep);
      assert ys[1..] == xs;
      assert Join(ys, sep) == s[..i] + sep + Join(xs, sep);
      assert s[i..i + |sep|] == sep;
      assert s == s[..i] + s[i..i + |sep|] + rest;
  }

  /** Splitting a join on a one-character separator that no piece contains gives the pieces back. */
  lemma {:induction false} SplitJoin(xs: seq<string>, c: char)
    requires |xs| >= 1
    requires forall k :: 0 <= k < |xs| ==> c !in xs[k]
    ensures Split(Join(xs, [c]), [c]) == xs
    decreases |xs|
  {
    if |xs| == 1 {
      NoSeparator(xs[0], c);
      match Find(xs[0], [c])
      case None =>
      case Some(i) => assert false;
    } else {
      var s := Join(xs, [c]);
      var n := |xs[0]|;
      assert s == xs[0] + [c] + Join(xs[1..], [c]);
      assert OccursAt(s, [c], n);
      forall j | 0 <= j < n ensures !OccursAt(s, [c], j) {
        assert s[j] == xs[0][j];
        assert s[j..j + 1][0] == s[j];
      }
      FindFirst(s, [c], n);
      assert s[..n] == xs[0];
      assert s[n + 1..] == Join(xs[1..], [c]);
      SplitJoin(xs[1..], c);
    }
  }

  lemma NoSeparator(x: string, c: char)
    requires c !in x
    ensures forall j :: !OccursAt(x, [c], j)
  {
    forall j | 0 <= j < |x| ensures !OccursAt(x, [c], j) {
      assert x[j..j + 1][0] == x[j];
    }
  }

  // ---------------------------------------------------------------------
  // int(s) and int(s, 16)
  // ---------------------------------------------------------------------

  /** The value of a digit character in bases up to 16, or 16 for any other character. */
  function DigitValue(c: char): (v: nat)
    ensures v <= 16
  {
    if '0' <= c <= '9' then (c - '0') as nat
    else if 'a' <= c <= 'f' then (c - 'a') as nat + 10
    else if 'A' <= c <= 'F' then (c - 'A') as nat + 10
    else 16
  }

  /** The two bases the profiler parses and prints numbers in. */
  predicate IsBase(base: nat) {
    base == 10 || base == 16
  }

  /** `v * base`, written out per base so that the arithmetic stays linear. */
  function Scale(v: nat, base: nat): nat
    requires IsBase(base)
  {
    if base == 10 then v * 10 else v * 16
  }

  /** `n / base` and `n % base`, written out per base. */
  function Quot(n: nat, base: nat): nat
    requires IsBase(base)
  {
    if base == 10 then n / 10 else n / 16
  }

  function Rem(n: nat, base: nat): (r: nat)
    requires IsBase(base)
    ensures r < base && n == Scale(Quot(n, base), base) + r
  {
    if base == 10 then n % 10 else n % 16
  }

  predicate IsDigit(c: char, base: nat) {
    DigitValue(c) < base
  }

  predicate AllDigits(d: string, base: nat) {
    forall i :: 0 <= i < |d| ==> IsDigit(d[i], base)
  }

  /** The number the digit string `d` writes in `base`, most significant digit first. */
  function Value(d: string, base: nat): nat
    requires IsBase(base)
  {
    PrefixValue(d, |d|, base)
  }

  /** The number written by the first `k` digits of `d`. */
  function PrefixValue(d: string, k: nat, base: nat): nat
    requires IsBase(base) && k <= |d|
  {
    if k == 0 then 0 else Scale(PrefixValue(d, k - 1, base), base) + DigitValue(d[k - 1])
  }

  /** In base 16 Python accepts an optional `0x` / `0X` prefix after the sign. */
  function DropHexPrefix(body: string, base: nat): string {
    if base == 16 && |body| >= 2 && body[0] == '0' && (body[1] == 'x' || body[1] == 'X') then body[2..] else body
  }

  /** The unsigned part: an optional prefix, then at least one digit and nothing else. */
  function ParseDigits(body: string, base: nat): Option<nat>
    requires IsBase(base)
  {
    var digits := DropHexPrefix(body, base);
    if |digits| == 0 || !AllDigits(digits, base) then None else Some(Value(digits, base))
  }

  /**
   * An optional `+` / `-` sign before the unsigned part; whitespace between the sign and the
   * digits is skipped, as the unsigned conversion behind Python 2's `int` skips it again.
   */
  function ParseSigned(t: string, base: nat): Option<int>
    requires IsBase(base)
  {
    if |t| > 0 && t[0] == '-' then
      match ParseDigits(LStrip(t[1..], WHITESPACE), base)
      case None => None
      case Some(v) => Some(-(v as int))
    else if |t| > 0 && t[0] == '+' then
      match ParseDigits(LStrip(t[1..], WHITESPACE), base)
      case None => None
      case Some(v) => Some(v)
    else
      match ParseDigits(t, base)
      case None => None
      case Some(v) => Some(v)
  }

  /**
   * Python 2 `int(s, base)` for base 10 or 16: surrounding whitespace is ignored, an optional sign
   * (possibly followed by whitespace) and, in base 16, a `0x` prefix may precede the digits, and
   * `None` stands for the ValueError raised on anything else, including an empty digit string.
   */
  function ParseInt(s: string, base: nat): (r: Option<int>)
    requires IsBase(base)
    ensures r.Some? ==> |Strip(s, WHITESPACE)| > 0
    ensures r.Some? && r.value < 0 ==> Strip(s, WHITESPACE)[0] == '-'
  {
    ParseSigned(Strip(s, WHITESPACE), base)
  }

  // ---------------------------------------------------------------------
  // '{}'.format(n) and '{:x}'.format(n)
  // ---------------------------------------------------------------------

  /** A character that strip, sign handling and the hex prefix all leave alone. */
  predicate PlainChar(c: char) {
    c != 'x' && c != 'X' && c !in WHITESPACE && c != '-' && c != '+'
  }

  /** The text has none of the characters that strip, sign handling or the hex prefix look at. */
  predicate PlainDigits(d: string) {
    forall i :: 0 <= i < |d| ==> PlainChar(d[i])
  }

  /** The lower-case digit character for `v < 16`. */
  function DigitChar(v: nat): (c: char)
    requires v < 16
    ensures DigitValue(c) == v && PlainChar(c)
  {
    if v < 10 then ('0' as int + v) as char else ('a' as int + v - 10) as char
  }

  /** The shortest digit string of `n` in `base`. */
  function ShowNat(n: nat, base: nat): (r: string)
    requires IsBase(base)
    ensures |r| >= 1 && AllDigits(r, base) && PlainDigits(r)
    ensures |r| == 1 ==> DigitValue(r[0]) == n
    ensures |r| > 1 ==> r[0] != '0'
    decreases n
  {
    if n < base then [DigitChar(n)]
    else
      var d := ShowNat(Quot(n, base), base);
      var c := DigitChar(Rem(n, base));
      var r := d + [c];
      assert r[0] == d[0];
      assert forall i :: 0 <= i < |d| ==> r[i] == d[i];
      assert r[|d|] == c;
      r
  }

  /** `'{}'.format(n)` (base 10) and `'{:x}'.format(n)` (base 16). */
  function ShowInt(n: int, base: nat): string
    requires IsBase(base)
  {
    if n < 0 then "-" + ShowNat(-n, base) else ShowNat(n, base)
  }

  /** `w` lower-case hex digits of `n`, zero-padded (the low `w` digits when `n` is wider). */
  function HexWidth(n: nat, w: nat): (r: string)
    ensures |r| == w && AllDigits(r, 16) && PlainDigits(r)
  {
    if w == 0 then ""
    else
      var d := HexWidth(n / 16, w - 1);
      var c := DigitChar(n % 16);
      var r := d + [c];
      assert forall i :: 0 <= i < |d| ==> r[i] == d[i];
      assert r[|d|] == c;
      r
  }

  function Pow(b: nat, w: nat): (r: nat)
    ensures b > 0 ==> r > 0
  {
    if w == 0 then 1 else b * Pow(b, w - 1)
  }

  /** The value of a digit string extended by one digit. */
  lemma ValueAppend(d: string, c: char, base: nat)
    requires IsBase(base)
    ensures Value(d + [c], base) == Scale(Value(d, base), base) + DigitValue(c)
  {
    PrefixValueAgree(d + [c], d, |d|, base);
  }

  /** The value of a prefix depends only on the prefix's digits. */
  lemma {:induction false} PrefixValueAgree(d: string, e: string, k: nat, base: nat)
    requires IsBase(base) && k <= |d| && k <= |e|
    requires forall i :: 0 <= i < k ==> d[i] == e[i]
    ensures PrefixValue(d, k, base) == PrefixValue(e, k, base)
  {
    if k > 0 {
      PrefixValueAgree(d, e, k - 1, base);
    }
  }

  lemma {:induction false} ValueShowNat(n: nat, base: nat)
    requires IsBase(base)
    ensures Value(ShowNat(n, base), base) == n
    decreases n
  {
    if n >= base {
      assert ShowNat(n, base) == ShowNat(Quot(n, base), base) + [DigitChar(Rem(n, base))];
      ValueShowNat(Quot(n, base), base);
      ValueAppend(ShowNat(Quot(n, base), base), DigitChar(Rem(n, base)), base);
    } else {
      ValueAppend("", DigitChar(n), base);
      assert ShowNat(n, base) == "" + [DigitChar(n)];
    }
  }

  lemma {:induction false} ValueHexWidth(n: nat, w: nat)
    ensures Value(HexWidth(n, w), 16) == n % Pow(16, w)
  {
    if w > 0 {
      ValueHexWidth(n / 16, w - 1);
      ValueAppend(HexWidth(n / 16, w - 1), DigitChar(n % 16), 16);
      DivMod16(n, Pow(16, w - 1));
    }
  }

  lemma DivMod16(n: nat, p: nat)
    requires p > 0
    ensures (n / 16) % p * 16 + n % 16 == n % (16 * p)
  {
    var q := n / 16;
    var r := n % 16;
    var a := q / p;
    var b := q % p;
    assert n == a * (16 * p) + (b * 16 + r) by {
      assert n == q * 16 + r;
      assert q == a * p + b;
    }
    assert b * 16 + r < 16 * p by {
      assert b + 1 <= p;
      assert (b + 1) * 16 <= p * 16;
    }
    ModUnique(n, 16 * p, a, b * 16 + r);
  }

  /** The remainder is the unique `s` with `n == k * m + s` and `0 <= s < m`. */
  lemma ModUnique(n: nat, m: nat, k: nat, s: nat)
    requires m > 0 && n == k * m + s && s < m
    ensures n % m == s
  {
    var d: int := n / m - k;
    assert d * m == s - n % m;
    MulBound(d, m);
  }

  lemma MulBound(d: int, m: int)
    requires m >= 0
    ensures d >= 1 ==> d * m >= m
    ensures d <= -1 ==> d * m <= -m
  {
    if d >= 1 {
      assert d * m == m + (d - 1) * m;
    } else if d <= -1 {
      assert d * m == -m + (d + 1) * m;
    }
  }

  /** Digits without whitespace, sign or prefix characters parse to their value. */
  lemma ParsePlain(d: string, base: nat)
    requires IsBase(base)
    requires |d| > 0 && AllDigits(d, base) && PlainDigits(d)
    ensures ParseInt(d, base) == Some(Value(d, base))
  {
    StripPlain(d);
    NoHexPrefix(d, base);
    assert ParseDigits(d, base) == Some(Value(d, base));
    assert ParseSigned(d, base) == Some(Value(d, base));
  }

  /** A minus sign before such digits negates their value. */
  lemma ParseNegative(d: string, v: nat, base: nat)
    requires IsBase(base)
    requires |d| > 0 && AllDigits(d, base) && PlainDigits(d) && Value(d, base) == v
    ensures ParseInt("-" + d, base) == Some(-(v as int))
  {
    var w: string := "";
    assert "-" + (w + d) == "-" + d;
    ParseNegativeSpaced(w, d, v, base);
  }

  /** Whitespace between a minus sign and the digits is skipped: `int("- 1") == -1`. */
  lemma ParseNegativeSpaced(w: string, d: string, v: nat, base: nat)
    requires IsBase(base) && forall i :: 0 <= i < |w| ==> w[i] in WHITESPACE
    requires |d| > 0 && AllDigits(d, base) && PlainDigits(d) && Value(d, base) == v
    ensures ParseInt("-" + (w + d), base) == Some(-(v as int))
  {
    var u := w + d;
    var t := "-" + u;
    assert t[1..] == u;
    assert LStrip(u, WHITESPACE) == d by {
      assert PlainChar(d[0]);
      LStripPadded(w, d, WHITESPACE);
    }
    ParseMinus(t, d, v, base);
    assert Strip(t, WHITESPACE) == t by {
      MinusEnds(w, d);
      StripPlain(t);
    }
  }

  /** `-`, anything, then plain digits: neither end is whitespace. */
  lemma MinusEnds(w: string, d: string)
    requires |d| > 0 && PlainDigits(d)
    ensures ("-" + (w + d))[0] !in WHITESPACE
    ensures ("-" + (w + d))[|w| + |d|] !in WHITESPACE
  {
    assert ("-" + (w + d))[|w| + |d|] == d[|d| - 1] && PlainChar(d[|d| - 1]);
  }

  /** A minus sign, then whitespace the parser skips, then plain digits: their value negated. */
  lemma ParseMinus(t: string, d: string, v: nat, base: nat)
    requires IsBase(base) && |t| > 0 && t[0] == '-' && LStrip(t[1..], WHITESPACE) == d
    requires |d| > 0 && AllDigits(d, base) && PlainDigits(d) && Value(d, base) == v
    ensures ParseSigned(t, base) == Some(-(v as int))
  {
    NoHexPrefix(d, base);
  }

  lemma NoHexPrefix(d: string, base: nat)
    requires PlainDigits(d)
    ensures DropHexPrefix(d, base) == d
  {
    if |d| >= 2 {
      assert PlainChar(d[1]);
    }
  }

  lemma StripPlain(t: string)
    requires |t| > 0 && t[0] !in WHITESPACE && t[|t| - 1] !in WHITESPACE
    ensures Strip(t, WHITESPACE) == t
  {
    StripPadded("", t, "", WHITESPACE);
    assert "" + t + "" == t;
  }

  /** Parsing inverts printing: `int('{}'.format(n)) == n` and `int('{:x}'.format(n), 16) == n`. */
  lemma ParseShowInt(n: int, base: nat)
    requires IsBase(base)
    ensures ParseInt(ShowInt(n, base), base) == Some(n)
  {
    if n < 0 {
      ParseShowNegative(n, base);
    } else {
      ValueShowNat(n, base);
      ParsePlain(ShowNat(n, base), base);
    }
  }

  lemma ParseShowNegative(n: int, base: nat)
    requires IsBase(base) && n < 0
    ensures ParseInt(ShowInt(n, base), base) == Some(n)
  {
    var d := ShowNat(-n, base);
    ValueShowNat(-n, base);
    ParseNegative(d, -n, base);
  }

  /** A negative number prints as a minus sign before the digits of its magnitude. */
  lemma ShowIntNegative(n: int, base: nat)
    requires IsBase(base) && n < 0
    ensures ShowInt(n, base) == "-" + ShowNat(-n, base)
  {
  }

  /** Eight hex digits, as written by a probe after its payload, parse back to a 32-bit id. */
  lemma ParseHexWidth(n: nat, w: nat)
    requires w > 0 && n < Pow(16, w)
    ensures ParseInt(HexWidth(n, w), 16) == Some(n)
  {
    ValueHexWidth(n, w);
    ModUnique(n, Pow(16, w), 0, n);
    ParsePlain(HexWidth(n, w), 16);
  }
}
