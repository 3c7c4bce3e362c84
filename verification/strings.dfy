/** The handful of Python `str` operations the harness relies on, over `seq<char>`.
    Whitespace and case mapping are restricted to the ASCII and Latin-1 range. */
module Strings {

  /** Characters that `str.strip()` and `str.isspace()` treat as whitespace, below U+0100. */
  predicate IsSpace(c: char) {
    ('\t' <= c <= '\r') || c == ' ' || ('\U{1C}' <= c <= '\U{1F}') || c == '\U{85}' || c == '\U{A0}'
  }

  predicate StartsWith(s: string, prefix: string) {
    |prefix| <= |s| && s[..|prefix|] == prefix
  }

  /** `sub in s` for strings: `sub` occurs as a contiguous piece of `s`. */
  predicate Contains(s: string, sub: string)
    decreases |s|
  {
    StartsWith(s, sub) || (|s| > 0 && Contains(s[1..], sub))
  }

  /** Regrouping a concatenation, stated once so that proofs need not rediscover it. */
  lemma {:induction false} ConcatAssoc(a: string, b: string, c: string)
    ensures a + (b + c) == (a + b) + c
  {
  }

  /** A piece of a text holds no character the text does not hold. */
  lemma {:induction false} SliceKeepsAbsence(s: string, a: nat, b: nat, c: char)
    requires a <= b <= |s| && c !in s
    ensures c !in s[a..b]
  {
    var t := s[a..b];
    forall i | 0 <= i < |t| ensures t[i] != c {
      assert t[i] == s[a + i];
    }
  }

  /** A text shorter than `sub` cannot contain it. */
  lemma {:induction false} ShorterNotContains(s: string, sub: string)
    requires |s| < |sub|
    ensures !Contains(s, sub)
    decreases |s|
  {
    if |s| > 0 {
      ShorterNotContains(s[1..], sub);
    }
  }

  // ---------------------------------------------------------------- stripping

  /** `s.lstrip()`: drops the longest all-whitespace prefix. */
  function LStrip(s: string): (r: string)
    ensures |r| <= |s| && r == s[|s| - |r|..]
    ensures forall i :: 0 <= i < |s| - |r| ==> IsSpace(s[i])
    ensures r == [] || !IsSpace(r[0])
  {
    if |s| > 0 && IsSpace(s[0]) then LStrip(s[1..]) else s
  }

  /** `s.rstrip()`: drops the longest all-whitespace suffix. */
  function RStrip(s: string): (r: string)
    ensures |r| <= |s| && r == s[..|r|]
    ensures forall i :: |r| <= i < |s| ==> IsSpace(s[i])
    ensures r == [] || !IsSpace(r[|r| - 1])
  {
    if |s| > 0 && IsSpace(s[|s| - 1]) then RStrip(s[..|s| - 1]) else s
  }

  /** `s.strip()`: the piece of `s` left between its leading and trailing whitespace. */
  function Strip(s: string): (r: string)
    ensures |r| <= |s|
    ensures r == [] || (!IsSpace(r[0]) && !IsSpace(r[|r| - 1]))
  {
    RStrip(LStrip(s))
  }

  /** Stripping leaves nothing exactly when the text is all whitespace. */
  lemma {:induction false} StripEmptyIffAllSpace(s: string)
    ensures Strip(s) == [] <==> forall i :: 0 <= i < |s| ==> IsSpace(s[i])
  {
    var l := LStrip(s);
    if l != [] {
      assert !IsSpace(l[0]) && l[0] == s[|s| - |l|];
    }
  }

  /** No whitespace at either end. */
  predicate IsTrimmed(s: string) {
    s == [] || (!IsSpace(s[0]) && !IsSpace(s[|s| - 1]))
  }

  /** A string without whitespace at either end is its own strip. */
  lemma {:induction false} StripOfTrimmed(s: string)
    requires IsTrimmed(s)
    ensures Strip(s) == s
  {
  }

  lemma {:induction false} StripIdempotent(s: string)
    ensures Strip(Strip(s)) == Strip(s)
  {
    StripOfTrimmed(Strip(s));
  }

  /** Left-stripping only looks at the first piece when the second starts with a non-space. */
  lemma {:induction false} LStripConcat(a: string, b: string)
    requires b != [] && !IsSpace(b[0])
    ensures LStrip(a + b) == LStrip(a) + b
    decreases |a|
  {
    if |a| > 0 && IsSpace(a[0]) {
      assert (a + b)[1..] == a[1..] + b;
      LStripConcat(a[1..], b);
    } else if |a| == 0 {
      assert a + b == b;
    }
  }

  /** Right-stripping only looks at the second piece when the first ends with a non-space. */
  lemma {:induction false} RStripConcat(a: string, b: string)
    requires a != [] && !IsSpace(a[|a| - 1])
    ensures RStrip(a + b) == a + RStrip(b)
    decreases |b|
  {
    if |b| > 0 && IsSpace(b[|b| - 1]) {
      assert (a + b)[..|a + b| - 1] == a + b[..|b| - 1];
      RStripConcat(a, b[..|b| - 1]);
    } else if |b| == 0 {
      assert a + b == a;
    }
  }

  lemma {:induction false} StripOfLStrip(s: string)
    ensures Strip(LStrip(s)) == Strip(s)
  {
  }

  /** `s.lstrip()` is the suffix that starts at the first non-space character. */
  lemma {:induction false} LStripAt(s: string, k: nat)
    requires k <= |s|
    requires forall i :: 0 <= i < k ==> IsSpace(s[i])
    requires k == |s| || !IsSpace(s[k])
    ensures LStrip(s) == s[k..]
    decreases k
  {
    if k > 0 {
      LStripAt(s[1..], k - 1);
      assert s[1..][k - 1..] == s[k..];
    }
  }

  /** `s.rstrip()` is the prefix that ends at the last non-space character. */
  lemma {:induction false} RStripAt(s: string, j: nat)
    requires j <= |s|
    requires forall i :: j <= i < |s| ==> IsSpace(s[i])
    requires j == 0 || !IsSpace(s[j - 1])
    ensures RStrip(s) == s[..j]
    decreases |s| - j
  {
    if j < |s| {
      RStripAt(s[..|s| - 1], j);
      assert s[..|s| - 1][..j] == s[..j];
    }
  }

  /** `s.strip()` is the piece between the first and the last non-space character. */
  lemma {:induction false} StripAt(s: string, k: nat, j: nat)
    requires k < j <= |s|
    requires forall i :: 0 <= i < k ==> IsSpace(s[i])
    requires forall i :: j <= i < |s| ==> IsSpace(s[i])
    requires !IsSpace(s[k]) && !IsSpace(s[j - 1])
    ensures Strip(s) == s[k..j]
  {
    LStripAt(s, k);
    RStripOfSuffix(s, k, j);
  }

  /** Right-stripping a suffix of `s` ends it at the last non-space character of `s`. */
  lemma {:induction false} RStripOfSuffix(s: string, k: nat, j: nat)
    requires k < j <= |s|
    requires forall i :: j <= i < |s| ==> IsSpace(s[i])
    requires !IsSpace(s[j - 1])
    ensures RStrip(s[k..]) == s[k..j]
  {
    var t := s[k..];
    forall i | j - k <= i < |t| ensures IsSpace(t[i]) {
      assert t[i] == s[k + i];
    }
    assert t[j - k - 1] == s[j - 1];
    RStripAt(t, j - k);
    SliceOfSuffix(s, k, j - k);
  }

  /** A prefix of a suffix is a middle piece. */
  lemma {:induction false} SliceOfSuffix(s: string, k: nat, m: nat)
    requires k + m <= |s|
    ensures s[k..][..m] == s[k..k + m]
  {
    var a := s[k..][..m];
    var b := s[k..k + m];
    forall i | 0 <= i < m ensures a[i] == b[i] {
      assert a[i] == s[k + i];
    }
  }

  /** Stripping the right end first gives the same result. */
  lemma {:induction false} StripOfRStrip(s: string)
    ensures Strip(RStrip(s)) == Strip(s)
  {
    if RStrip(s) == [] {
      StripOfBlank(s);
    } else {
      var k, j := NonSpaceBounds(s);
      StripAt(s, k, j);
      StripOfPrefix(s, k, j);
    }
  }

  /** A text whose right strip is empty strips to the empty text. */
  lemma {:induction false} StripOfBlank(s: string)
    requires RStrip(s) == []
    ensures Strip(s) == []
  {
    assert forall i :: 0 <= i < |s| ==> IsSpace(s[i]);
    StripEmptyIffAllSpace(s);
  }

  /** The positions of the first non-space character and just past the last one. */
  lemma {:induction false} NonSpaceBounds(s: string) returns (k: nat, j: nat)
    requires RStrip(s) != []
    ensures k < j <= |s| && RStrip(s) == s[..j]
    ensures forall i :: 0 <= i < k ==> IsSpace(s[i])
    ensures forall i :: j <= i < |s| ==> IsSpace(s[i])
    ensures !IsSpace(s[k]) && !IsSpace(s[j - 1])
  {
    var l := LStrip(s);
    var r := RStrip(s);
    j := |r|;
    k := |s| - |l|;
    assert r[j - 1] == s[j - 1];
    assert l[0] == s[k];
  }

  /** Stripping a prefix of `s` that ends at a non-space starts it at the first non-space of `s`. */
  lemma {:induction false} StripOfPrefix(s: string, k: nat, j: nat)
    requires k < j <= |s|
    requires forall i :: 0 <= i < k ==> IsSpace(s[i])
    requires !IsSpace(s[k]) && !IsSpace(s[j - 1])
    ensures Strip(s[..j]) == s[k..j]
  {
    var r := s[..j];
    forall i | 0 <= i < k ensures IsSpace(r[i]) {
      assert r[i] == s[i];
    }
    assert r[k] == s[k] && r[j - 1] == s[j - 1];
    StripAt(r, k, j);
    assert r[k..j] == s[k..j];
  }

  // ---------------------------------------------------------------- case mapping

  function UpperChar(c: char): char {
    if 'a' <= c <= 'z' then (c as int - 32) as char else c
  }

  /** `s.upper()` for ASCII letters. */
  function Upper(s: string): string {
    seq(|s|, i requires 0 <= i < |s| => UpperChar(s[i]))
  }

  lemma {:induction false} UpperCharKeepsSpace(c: char)
    ensures IsSpace(UpperChar(c)) == IsSpace(c)
  {
  }

  lemma {:induction false} UpperIdempotent(s: string)
    ensures Upper(Upper(s)) == Upper(s)
  {
  }

  lemma {:induction false} UpperSlice(s: string, i: nat, j: nat)
    requires i <= j <= |s|
    ensures Upper(s[i..j]) == Upper(s)[i..j]
  {
  }

  /** Case mapping neither creates nor removes whitespace, so it commutes with stripping. */
  lemma {:induction false} UpperLStrip(s: string)
    ensures Upper(LStrip(s)) == LStrip(Upper(s))
    decreases |s|
  {
    if |s| > 0 {
      var u := Upper(s);
      UpperCharKeepsSpace(s[0]);
      if IsSpace(s[0]) {
        assert u[1..] == Upper(s[1..]);
        UpperLStrip(s[1..]);
        assert LStrip(u) == LStrip(u[1..]);
      } else {
        assert LStrip(u) == u;
      }
    }
  }

  lemma {:induction false} UpperRStrip(s: string)
    ensures Upper(RStrip(s)) == RStrip(Upper(s))
    decreases |s|
  {
    if |s| > 0 {
      UpperCharKeepsSpace(s[|s| - 1]);
      if IsSpace(s[|s| - 1]) {
        UpperSlice(s, 0, |s| - 1);
        UpperRStrip(s[..|s| - 1]);
      }
    }
  }

  lemma {:induction false} UpperStrip(s: string)
    ensures Upper(Strip(s)) == Strip(Upper(s))
  {
    UpperLStrip(s);
    UpperRStrip(LStrip(s));
  }

  // ---------------------------------------------------------------- searching and splitting

  /** Position of the first `c` in `s` (`s.find(c)`), or `|s|` when there is none. */
  function IndexOf(s: string, c: char): (i: nat)
    ensures i <= |s|
    ensures c !in s[..i]
    ensures i < |s| ==> s[i] == c
    ensures i == |s| <==> c !in s
  {
    if |s| == 0 then 0
    else if s[0] == c then 0
    else
      assert s[1..][..IndexOf(s[1..], c)] == s[1..1 + IndexOf(s[1..], c)];
      1 + IndexOf(s[1..], c)
  }

  /** The text before the first `c`: `s.split(c, 1)[0]`, also `s.split(c)[0]`. */
  function Before(s: string, c: char): (r: string)
    ensures c !in r
    ensures StartsWith(s, r)
    ensures c in s ==> |r| < |s| && s[|r|] == c
    ensures c !in s ==> r == s
  {
    s[..IndexOf(s, c)]
  }

  /** The text before the first `c`, found at a known position. */
  lemma {:induction false} BeforeAt(s: string, c: char, k: nat)
    requires k < |s| && s[k] == c && c !in s[..k]
    ensures Before(s, c) == s[..k]
  {
  }

  /** The text after the first `c`: `s.split(c, 1)[1]`. */
  function After(s: string, c: char): (r: string)
    requires c in s
    ensures s == Before(s, c) + [c] + r
  {
    s[IndexOf(s, c) + 1..]
  }

  /** Case mapping keeps a non-letter separator in place. */
  lemma {:induction false} UpperBefore(s: string, c: char)
    requires UpperChar(c) == c && !('A' <= c <= 'Z')
    ensures (c in s) <==> (c in Upper(s))
    ensures Upper(Before(s, c)) == Before(Upper(s), c)
  {
    var u := Upper(s);
    assert forall i :: 0 <= i < |s| ==> (s[i] == c <==> u[i] == c);
  }

  /** `s.split(c)`: the pieces between occurrences of `c`; always at least one piece. */
  function Split(s: string, c: char): (parts: seq<string>)
    ensures |parts| >= 1
    ensures forall k :: 0 <= k < |parts| ==> c !in parts[k]
    decreases |s|
  {
    var i := IndexOf(s, c);
    if i == |s| then [s] else [s[..i]] + Split(s[i + 1..], c)
  }

  /** `c.join(parts)`. */
  function Join(parts: seq<string>, c: char): string
  {
    if |parts| == 0 then ""
    else if |parts| == 1 then parts[0]
    else parts[0] + [c] + Join(parts[1..], c)
  }

  lemma {:induction false} IndexOfConcat(a: string, c: char, b: string)
    requires c !in a
    ensures IndexOf(a + [c] + b, c) == |a|
    decreases |a|
  {
    if |a| > 0 {
      assert (a + [c] + b)[1..] == a[1..] + [c] + b;
      IndexOfConcat(a[1..], c, b);
    }
  }

  /** Splitting at a first separator peels off the piece before it. */
  lemma {:induction false} SplitAtFirst(a: string, c: char, b: string)
    requires c !in a
    ensures Split(a + [c] + b, c) == [a] + Split(b, c)
  {
    var s := a + [c] + b;
    IndexOfConcat(a, c, b);
    assert s[..|a|] == a;
    assert s[|a| + 1..] == b;
  }

  /** Splitting undoes joining when no piece contains the separator. */
  lemma {:induction false} SplitJoin(parts: seq<string>, c: char)
    requires |parts| >= 1
    requires forall k :: 0 <= k < |parts| ==> c !in parts[k]
    ensures Split(Join(parts, c), c) == parts
    decreases |parts|
  {
    if |parts| > 1 {
      var rest := parts[1..];
      assert Join(parts, c) == parts[0] + [c] + Join(rest, c);
      SplitAtFirst(parts[0], c, Join(rest, c));
      SplitJoin(rest, c);
      assert parts == [parts[0]] + rest;
    }
  }

  /** A joined text is empty only when it joins a single empty piece (or nothing). */
  lemma {:induction false} JoinEmpty(parts: seq<string>, c: char)
    requires Join(parts, c) == ""
    ensures |parts| == 0 || parts == [""]
  {
  }

  // ---------------------------------------------------------------- lines

  /** `s.splitlines()` with `\n` as the only line boundary: no final empty line
      for a text that ends in a newline, and no lines at all for the empty text. */
  function SplitLines(s: string): (lines: seq<string>)
    ensures forall k :: 0 <= k < |lines| ==> '\n' !in lines[k]
  {
    if s == "" then []
    else
      var parts := Split(s, '\n');
      if parts[|parts| - 1] == "" then parts[..|parts| - 1] else parts
  }

  /** `"\n".join(lines)`. */
  function JoinLines(lines: seq<string>): string {
    Join(lines, '\n')
  }

  /** Reading back joined lines gives the same lines, except that a final empty
      line is lost (Python's `splitlines` does not report it). */
  lemma {:induction false} SplitLinesJoinLines(lines: seq<string>)
    requires forall k :: 0 <= k < |lines| ==> '\n' !in lines[k]
    ensures SplitLines(JoinLines(lines))
         == if |lines| > 0 && lines[|lines| - 1] == "" then lines[..|lines| - 1] else lines
  {
    if |lines| > 0 {
      SplitJoin(lines, '\n');
      if JoinLines(lines) == "" {
        JoinEmpty(lines, '\n');
      }
    }
  }

  // ---------------------------------------------------------------- ordering

  /** Python's `<=` on `str`: lexicographic by code point, a prefix first. */
  predicate LexLe(a: string, b: string)
    decreases |a|
  {
    |a| == 0 || (|b| > 0 && (a[0] < b[0] || (a[0] == b[0] && LexLe(a[1..], b[1..]))))
  }

  /** Python's `<` on `str`. */
  predicate LexLt(a: string, b: string) {
    LexLe(a, b) && a != b
  }

  lemma {:induction false} LexLeReflexive(a: string)
    ensures LexLe(a, a)
    decreases |a|
  {
    if |a| > 0 {
      LexLeReflexive(a[1..]);
    }
  }

  lemma {:induction false} LexLeAntisymmetric(a: string, b: string)
    requires LexLe(a, b) && LexLe(b, a)
    ensures a == b
    decreases |a|
  {
    if |a| > 0 {
      LexLeAntisymmetric(a[1..], b[1..]);
      assert a == [a[0]] + a[1..] && b == [b[0]] + b[1..];
    }
  }

  lemma {:induction false} LexLeTransitive(a: string, b: string, c: string)
    requires LexLe(a, b) && LexLe(b, c)
    ensures LexLe(a, c)
    decreases |a|
  {
    if |a| > 0 && a[0] == b[0] && b[0] == c[0] {
      LexLeTransitive(a[1..], b[1..], c[1..]);
    }
  }

  lemma {:induction false} LexLeTotal(a: string, b: string)
    ensures LexLe(a, b) || LexLe(b, a)
    decreases |a|
  {
    if |a| > 0 && |b| > 0 && a[0] == b[0] {
      LexLeTotal(a[1..], b[1..]);
    }
  }

  // ---------------------------------------------------------------- other

  /** `s.rstrip(ch)`: drops every trailing `ch`. */
  function RStripChar(s: string, ch: char): (r: string)
    ensures |r| <= |s| && r == s[..|r|]
    ensures forall i :: |r| <= i < |s| ==> s[i] == ch
    ensures r == [] || r[|r| - 1] != ch
  {
    if |s| > 0 && s[|s| - 1] == ch then RStripChar(s[..|s| - 1], ch) else s
  }

  /** Appending one more `ch` does not change what `rstrip(ch)` returns. */
  lemma {:induction false} RStripCharAppend(s: string, ch: char)
    ensures RStripChar(s + [ch], ch) == RStripChar(s, ch)
  {
    assert (s + [ch])[..|s|] == s;
  }

  predicate IsDigit(c: char) {
    '0' <= c <= '9'
  }

  /** `str(n)` for a natural number. */
  function Decimal(n: nat): (r: string)
    ensures |r| >= 1
    ensures forall i :: 0 <= i < |r| ==> IsDigit(r[i])
    ensures |r| > 1 ==> r[0] != '0'
  {
    var d := ('0' as int + n % 10) as char;
    if n < 10 then [d] else Decimal(n / 10) + [d]
  }

  /** `int(s)` for a string of decimal digits. */
  function DecimalValue(s: string): nat
    requires forall i :: 0 <= i < |s| ==> IsDigit(s[i])
  {
    if |s| == 0 then 0
    else
      assert IsDigit(s[|s| - 1]);
      10 * DecimalValue(s[..|s| - 1]) + (s[|s| - 1] as int - '0' as int)
  }

  /** Reading a number back from its decimal text. */
  lemma {:induction false} DecimalRoundTrip(n: nat)
    ensures DecimalValue(Decimal(n)) == n
  {
    var r := Decimal(n);
    if n >= 10 {
      DecimalRoundTrip(n / 10);
      assert r[..|r| - 1] == Decimal(n / 10);
    }
  }
}
