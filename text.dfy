/**
 * The Python `str` operations the source relies on, with the semantics of
 * CPython: `strip`/`lstrip`/`rstrip` and `split()` use the `str.isspace`
 * character set, `lstrip(ch)` removes a run of one character, and
 * `f"{n}"` / `f"{n:05d}"` format a non-negative integer in decimal.
 * `upper()` and `lower()` are modelled on ASCII letters only.
 */
module Text {

  /**
   * CPython's `str.isspace()` for a single character: the ASCII separators
   * and the Unicode characters whose bidirectional class is whitespace.
   */
  predicate IsSpace(c: char): (b: bool)
    ensures c == ' ' || c == '\t' || c == '\n' || c == '\r' ==> b
    ensures b ==> !('0' <= c <= '9') && !('a' <= c <= 'z') && !('A' <= c <= 'Z') && c != '_'
  {
    var n := c as int;
    (9 <= n <= 13) || (28 <= n <= 32) || n == 0x85 || n == 0xA0 || n == 0x1680
    || (0x2000 <= n <= 0x200A) || n == 0x2028 || n == 0x2029 || n == 0x202F
    || n == 0x205F || n == 0x3000
  }

  /** The number of whitespace characters `s` starts with. */
  function LeadingSpaces(s: string): (n: nat)
    ensures n <= |s|
    ensures forall i :: 0 <= i < n ==> IsSpace(s[i])
    ensures n < |s| ==> !IsSpace(s[n])
    decreases |s|
  {
    if s != [] && IsSpace(s[0]) then
      var n := 1 + LeadingSpaces(s[1..]);
      assert forall i :: 1 <= i < |s| ==> s[i] == s[1..][i - 1];
      n
    else 0
  }

  /** The number of whitespace characters `s` ends with. */
  function TrailingSpaces(s: string): (n: nat)
    ensures n <= |s|
    ensures forall i :: |s| - n <= i < |s| ==> IsSpace(s[i])
    ensures n < |s| ==> !IsSpace(s[|s| - n - 1])
    decreases |s|
  {
    if s != [] && IsSpace(s[|s| - 1]) then
      var n := 1 + TrailingSpaces(s[..|s| - 1]);
      assert forall i :: 0 <= i < |s| - 1 ==> s[i] == s[..|s| - 1][i];
      n
    else 0
  }

  /** `s.lstrip()`: the suffix of `s` left after dropping its leading whitespace. */
  function LStrip(s: string): (r: string)
    ensures |r| <= |s| && r == s[|s| - |r|..]
    ensures r != [] ==> !IsSpace(r[0])
    ensures forall i :: 0 <= i < |s| - |r| ==> IsSpace(s[i])
  {
    s[LeadingSpaces(s)..]
  }

  /** `s.rstrip()`: the prefix of `s` left after dropping its trailing whitespace. */
  function RStrip(s: string): (r: string)
    ensures |r| <= |s| && r == s[..|r|]
    ensures r != [] ==> !IsSpace(r[|r| - 1])
    ensures forall i :: |r| <= i < |s| ==> IsSpace(s[i])
  {
    s[..|s| - TrailingSpaces(s)]
  }

  /** Number of leading whitespace characters `s.strip()` removes. */
  function StripStart(s: string): nat
  {
    |s| - |LStrip(s)|
  }

  /**
   * `s.strip()`: the infix of `s` between its leading and its trailing
   * whitespace; a string already bounded by non-space characters is unchanged.
   */
  function Strip(s: string): (r: string)
    ensures StripStart(s) + |r| <= |s| && r == s[StripStart(s)..StripStart(s) + |r|]
    ensures r != [] ==> !IsSpace(r[0]) && !IsSpace(r[|r| - 1])
    ensures forall i :: 0 <= i < StripStart(s) ==> IsSpace(s[i])
    ensures forall i :: StripStart(s) + |r| <= i < |s| ==> IsSpace(s[i])
  {
    StripSlice(s);
    StripTrailing(s);
    RStrip(LStrip(s))
  }

  /** The right-stripped remainder of the left-stripped string is a slice of the string. */
  lemma StripSlice(s: string)
    ensures var t := LStrip(s); var r := RStrip(t);
      |s| - |t| + |r| <= |s| && r == s[|s| - |t|..|s| - |t| + |r|]
  {
    var t := LStrip(s);
    var k := |s| - |t|;
    var r := RStrip(t);
    forall j | 0 <= j < |r|
      ensures r[j] == s[k + j]
    {
      assert r[j] == t[j] && t[j] == s[k + j];
    }
  }

  /** Everything after that slice is whitespace. */
  lemma StripTrailing(s: string)
    ensures var t := LStrip(s); var r := RStrip(t);
      forall i :: |s| - |t| + |r| <= i < |s| ==> IsSpace(s[i])
  {
    var t := LStrip(s);
    var k := |s| - |t|;
    var r := RStrip(t);
    forall i | k + |r| <= i < |s|
      ensures IsSpace(s[i])
    {
      assert s[i] == t[i - k];
    }
  }

  /** A string already bounded by non-space characters is left as it is by `strip()`. */
  lemma StripUnchanged(s: string)
    requires s == [] || (!IsSpace(s[0]) && !IsSpace(s[|s| - 1]))
    ensures Strip(s) == s
  {
    assert LStrip(s) == s;
    assert RStrip(s) == s;
  }

  /** Leading whitespace in front of a non-space character is all `lstrip()` removes. */
  lemma {:induction false} LStripSpaces(pre: string, x: string)
    requires forall i :: 0 <= i < |pre| ==> IsSpace(pre[i])
    requires x != [] && !IsSpace(x[0])
    ensures LStrip(pre + x) == x
    decreases |pre|
  {
    if pre != [] {
      var s := pre + x;
      assert s[0] == pre[0] && IsSpace(s[0]);
      assert s[1..] == pre[1..] + x;
      assert LStrip(s) == LStrip(s[1..]);
      LStripSpaces(pre[1..], x);
    } else {
      assert pre + x == x;
    }
  }

  /** Trailing whitespace after a non-space character is all `rstrip()` removes. */
  lemma {:induction false} RStripSpaces(x: string, post: string)
    requires forall i :: 0 <= i < |post| ==> IsSpace(post[i])
    requires x != [] && !IsSpace(x[|x| - 1])
    ensures RStrip(x + post) == x
    decreases |post|
  {
    if post != [] {
      var s := x + post;
      assert s[|s| - 1] == post[|post| - 1] && IsSpace(s[|s| - 1]);
      assert s[..|s| - 1] == x + post[..|post| - 1];
      assert RStrip(s) == RStrip(s[..|s| - 1]);
      RStripSpaces(x, post[..|post| - 1]);
    } else {
      assert x + post == x;
    }
  }

  /** `strip()` removes exactly the whitespace padding around a bounded text. */
  lemma StripPadded(pre: string, v: string, post: string)
    requires forall i :: 0 <= i < |pre| ==> IsSpace(pre[i])
    requires forall i :: 0 <= i < |post| ==> IsSpace(post[i])
    requires v != [] && !IsSpace(v[0]) && !IsSpace(v[|v| - 1])
    ensures Strip(pre + v + post) == v
  {
    assert pre + v + post == pre + (v + post);
    LStripSpaces(pre, v + post);
    RStripSpaces(v, post);
  }

  /** `s.lstrip(c)`: drops the leading run of the character `c`. */
  function LStripChar(s: string, c: char): (r: string)
    ensures |r| <= |s| && r == s[|s| - |r|..]
    ensures r != [] ==> r[0] != c
    ensures forall i :: 0 <= i < |s| - |r| ==> s[i] == c
    decreases |s|
  {
    if s != [] && s[0] == c then LStripChar(s[1..], c) else s
  }

  /** `s.find(c)`: the index of the first `c`, or -1 when there is none. */
  function Find(s: string, c: char): (r: int)
    ensures -1 <= r < |s|
    ensures r == -1 <==> c !in s
    ensures 0 <= r ==> s[r] == c && forall i :: 0 <= i < r ==> s[i] != c
  {
    if s == [] then -1
    else if s[0] == c then 0
    else var k := Find(s[1..], c); if k == -1 then -1 else k + 1
  }

  /** `s.rfind(c)`: the index of the last `c`, or -1 when there is none. */
  function RFind(s: string, c: char): (r: int)
    ensures -1 <= r < |s|
    ensures r == -1 <==> c !in s
    ensures 0 <= r ==> s[r] == c && forall i :: r < i < |s| ==> s[i] != c
  {
    if s == [] then -1
    else if s[|s| - 1] == c then |s| - 1
    else RFind(s[..|s| - 1], c)
  }

  function UpperChar(c: char): char
  {
    if 'a' <= c <= 'z' then (c as int - 32) as char else c
  }

  function LowerChar(c: char): char
  {
    if 'A' <= c <= 'Z' then (c as int + 32) as char else c
  }

  /** `s.upper()` on ASCII letters. */
  function Upper(s: string): (r: string)
    ensures |r| == |s|
    ensures forall i :: 0 <= i < |s| ==> r[i] == UpperChar(s[i])
  {
    seq(|s|, i requires 0 <= i < |s| => UpperChar(s[i]))
  }

  /** `s.lower()` on ASCII letters. */
  function Lower(s: string): (r: string)
    ensures |r| == |s|
    ensures forall i :: 0 <= i < |s| ==> r[i] == LowerChar(s[i])
  {
    seq(|s|, i requires 0 <= i < |s| => LowerChar(s[i]))
  }

  /** A field of `str.split()`: non-empty and free of whitespace. */
  predicate IsWord(w: string)
  {
    w != [] && forall i :: 0 <= i < |w| ==> !IsSpace(w[i])
  }

  /** Length of the leading run of non-space characters of `t`. */
  function WordEnd(t: string): (n: nat)
    ensures n <= |t|
    ensures forall i :: 0 <= i < n ==> !IsSpace(t[i])
    ensures n < |t| ==> IsSpace(t[n])
    decreases |t|
  {
    if t == [] || IsSpace(t[0]) then 0 else 1 + WordEnd(t[1..])
  }

  /** `s.split()` with no separator: the maximal runs of non-space characters. */
  function Split(s: string): (r: seq<string>)
    ensures forall k :: 0 <= k < |r| ==> IsWord(r[k])
    decreases |s|
  {
    var t := LStrip(s);
    if t == [] then []
    else
      FirstWord(t);
      var n := WordEnd(t);
      var rest := Split(t[n..]);
      var r := [t[..n]] + rest;
      assert forall k :: 0 < k < |r| ==> r[k] == rest[k - 1];
      r
  }

  /** A text starting with a non-space character starts with a word. */
  lemma FirstWord(t: string)
    requires t != [] && !IsSpace(t[0])
    ensures 0 < WordEnd(t) && IsWord(t[..WordEnd(t)])
  {
  }

  /** `" ".join(ws)` */
  function JoinSpace(ws: seq<string>): string
  {
    if ws == [] then "" else if |ws| == 1 then ws[0] else ws[0] + " " + JoinSpace(ws[1..])
  }

  lemma SplitOfSpace(x: string)
    ensures Split([' '] + x) == Split(x)
  {
    assert ([' '] + x)[1..] == x;
    assert LStrip([' '] + x) == LStrip(x);
  }

  /** Two words run together are one word. */
  lemma WordConcat(x: string, y: string)
    requires IsWord(x) && IsWord(y)
    ensures IsWord(x + y)
  {
    var s := x + y;
    forall i | 0 <= i < |s|
      ensures !IsSpace(s[i])
    {
      if i < |x| {
        assert s[i] == x[i];
      } else {
        assert s[i] == y[i - |x|];
      }
    }
  }

  /** A non-empty run of digits is a word. */
  lemma DigitsWord(d: string)
    requires d != [] && IsDigits(d)
    ensures IsWord(d)
  {
    forall i | 0 <= i < |d|
      ensures !IsSpace(d[i])
    {
      assert '0' <= d[i] <= '9';
    }
  }

  /** A word followed by whitespace, or by nothing, ends where the word does. */
  lemma WordEndOfWord(w: string, rest: string)
    requires IsWord(w)
    requires rest == [] || IsSpace(rest[0])
    ensures WordEnd(w + rest) == |w|
  {
    var t := w + rest;
    var n := WordEnd(t);
    assert forall i :: 0 <= i < |w| ==> t[i] == w[i];
    assert rest != [] ==> t[|w|] == rest[0];
  }

  /** A word followed by whitespace (or nothing) is split off first. */
  lemma SplitWordThen(w: string, rest: string)
    requires IsWord(w)
    requires rest == [] || IsSpace(rest[0])
    ensures Split(w + rest) == [w] + Split(rest)
  {
    var s := w + rest;
    assert LStrip(s) == s;
    WordEndOfWord(w, rest);
    assert s[..|w|] == w;
    assert s[|w|..] == rest;
  }

  /** Splitting words joined by single spaces gives the words back. */
  lemma {:induction false} SplitJoinSpace(ws: seq<string>)
    requires forall k :: 0 <= k < |ws| ==> IsWord(ws[k])
    ensures Split(JoinSpace(ws)) == ws
    decreases |ws|
  {
    if ws == [] {
    } else if |ws| == 1 {
      SplitWordThen(ws[0], "");
      assert ws[0] + "" == ws[0];
    } else {
      var tail := JoinSpace(ws[1..]);
      assert JoinSpace(ws) == ws[0] + ([' '] + tail);
      SplitWordThen(ws[0], [' '] + tail);
      SplitOfSpace(tail);
      SplitJoinSpace(ws[1..]);
    }
  }

  function DigitChar(d: nat): (c: char)
    requires d < 10
    ensures '0' <= c <= '9'
  {
    ('0' as int + d) as char
  }

  predicate IsDigits(s: string)
  {
    forall i :: 0 <= i < |s| ==> '0' <= s[i] <= '9'
  }

  /** `f"{n}"` for a non-negative integer: its decimal digits, most significant first. */
  function Decimal(n: nat): (r: string)
    ensures 1 <= |r| && IsDigits(r)
  {
    if n < 10 then [DigitChar(n)] else Decimal(n / 10) + [DigitChar(n % 10)]
  }

  /** `int(s)` for a string of decimal digits (the empty string reads as 0). */
  function DigitsValue(s: string): nat
    requires IsDigits(s)
  {
    if s == [] then 0 else DigitsValue(s[..|s| - 1]) * 10 + (s[|s| - 1] as int - '0' as int)
  }

  /** Reading back a formatted number gives the number. */
  lemma {:induction false} DecimalRoundTrip(n: nat)
    ensures DigitsValue(Decimal(n)) == n
  {
    if n >= 10 {
      var d := Decimal(n / 10);
      assert (d + [DigitChar(n % 10)])[..|d|] == d;
      DecimalRoundTrip(n / 10);
    }
  }

  function Pow10(k: nat): (p: nat)
    ensures p >= 1
  {
    if k == 0 then 1 else 10 * Pow10(k - 1)
  }

  /** A number below 10^k has at most k digits. */
  lemma {:induction false} DecimalLength(n: nat, k: nat)
    requires 1 <= k && n < Pow10(k)
    ensures |Decimal(n)| <= k
  {
    if n >= 10 {
      DecimalLength(n / 10, k - 1);
    }
  }

  /** A number of at least 10^k has more than k digits. */
  lemma {:induction false} DecimalLengthAbove(n: nat, k: nat)
    requires Pow10(k) <= n
    ensures |Decimal(n)| > k
  {
    if k > 0 {
      assert n >= 10;
      DecimalLengthAbove(n / 10, k - 1);
    }
  }

  function Zeros(k: nat): (r: string)
    ensures |r| == k && forall i :: 0 <= i < k ==> r[i] == '0'
  {
    if k == 0 then "" else Zeros(k - 1) + "0"
  }

  /** Leading zeros do not change the value read back. */
  lemma {:induction false} LeadingZeros(k: nat, s: string)
    requires IsDigits(s)
    ensures IsDigits(Zeros(k) + s) && DigitsValue(Zeros(k) + s) == DigitsValue(s)
    decreases |s|
  {
    var z := Zeros(k);
    if s == [] {
      assert z + s == z;
      ZerosValue(k);
    } else {
      var init := s[..|s| - 1];
      var t := z + s;
      assert t[..|t| - 1] == z + init;
      assert t[|t| - 1] == s[|s| - 1];
      LeadingZeros(k, init);
    }
  }

  /** A run of zeros reads back as 0. */
  lemma {:induction false} ZerosValue(k: nat)
    ensures IsDigits(Zeros(k)) && DigitsValue(Zeros(k)) == 0
  {
    if k > 0 {
      var z := Zeros(k);
      var init := Zeros(k - 1);
      assert z == init + "0";
      assert z[..k - 1] == init;
      ZerosValue(k - 1);
      assert DigitsValue(z) == DigitsValue(init) * 10;
    }
  }

  /** `f"{n:0{width}d}"`: the decimal digits of `n`, left-padded with zeros to `width`. */
  function ZeroPadded(n: nat, width: nat): (r: string)
    ensures IsDigits(r) && DigitsValue(r) == n
    ensures |r| == if |Decimal(n)| < width then width else |Decimal(n)|
  {
    var d := Decimal(n);
    DecimalRoundTrip(n);
    LeadingZeros(if |d| < width then width - |d| else 0, d);
    Zeros(if |d| < width then width - |d| else 0) + d
  }
}
