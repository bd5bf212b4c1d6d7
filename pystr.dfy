/**
 * The few Python `str` operations the scraper relies on: `isspace`, `isdigit`,
 * `strip`, `lower`, `replace`, `split()` and `split(sep)`.
 */
module PyStr {

  /** `str.isspace` for one character (the characters Python treats as whitespace). */
  predicate IsSpace(c: char) {
    || c == ' '
    || ('\t' <= c <= '\r')
    || ('\U{1c}' <= c <= '\U{1f}')
    || c == '\U{85}' || c == '\U{a0}' || c == '\U{1680}'
    || ('\U{2000}' <= c <= '\U{200a}')
    || c == '\U{2028}' || c == '\U{2029}' || c == '\U{202f}' || c == '\U{205f}' || c == '\U{3000}'
  }

  /** A decimal digit (ASCII). */
  predicate IsDigit(c: char) {
    '0' <= c <= '9'
  }

  predicate NotSpace(c: char) {
    !IsSpace(c)
  }

  predicate NoSpace(s: string) {
    forall i :: 0 <= i < |s| ==> !IsSpace(s[i])
  }

  predicate AllDigits(s: string) {
    forall i :: 0 <= i < |s| ==> IsDigit(s[i])
  }

  /** Number of characters of `s` that are digits (`sum(c.isdigit() for c in s)`). */
  function CountDigits(s: string): (n: nat)
    ensures n <= |s|
    ensures n == |s| <==> AllDigits(s)
  {
    if s == [] then 0
    else CountDigits(s[..|s| - 1]) + (if IsDigit(s[|s| - 1]) then 1 else 0)
  }

  /** The digit count adds up over a concatenation. */
  lemma {:induction false} CountDigitsConcat(a: string, b: string)
    ensures CountDigits(a + b) == CountDigits(a) + CountDigits(b)
    decreases |b|
  {
    if b == [] {
      assert a + b == a;
    } else {
      var init := b[..|b| - 1];
      CountDigitsConcat(a, init);
      assert (a + b)[..|a + b| - 1] == a + init;
    }
  }

  /** A single character counts one exactly when it is a digit. */
  lemma CountDigitsOne(c: char)
    ensures CountDigits([c]) == if IsDigit(c) then 1 else 0
  {
    assert [c][..0] == [];
  }

  /** How many leading characters of `s` satisfy `p`. */
  function LeadingCount(s: string, p: char -> bool): (k: nat)
    ensures k <= |s|
    ensures forall i :: 0 <= i < k ==> p(s[i])
    ensures k < |s| ==> !p(s[k])
  {
    if s == [] || !p(s[0]) then 0 else 1 + LeadingCount(s[1..], p)
  }

  /** How many trailing characters of `s` satisfy `p`. */
  function TrailingCount(s: string, p: char -> bool): (k: nat)
    ensures k <= |s|
    ensures forall i :: |s| - k <= i < |s| ==> p(s[i])
    ensures k < |s| ==> !p(s[|s| - 1 - k])
  {
    if s == [] || !p(s[|s| - 1]) then 0 else 1 + TrailingCount(s[..|s| - 1], p)
  }

  /** `s.strip(chars)`: drop the leading and the trailing run of characters satisfying `p`. */
  function StripBy(s: string, p: char -> bool): (r: string)
    ensures |r| <= |s|
    ensures r == [] || (!p(r[0]) && !p(r[|r| - 1]))
    ensures r == [] <==> forall i :: 0 <= i < |s| ==> p(s[i])
    ensures LeadingCount(s, p) + |r| <= |s| && r == s[LeadingCount(s, p)..LeadingCount(s, p) + |r|]
    ensures forall k :: LeadingCount(s, p) + |r| <= k < |s| ==> p(s[k])
  {
    var i := LeadingCount(s, p);
    var t := s[i..];
    var j := TrailingCount(t, p);
    assert t == [] ==> forall k :: 0 <= k < |s| ==> p(s[k]);
    assert s[i..i + (|t| - j)] == t[..|t| - j];
    t[..|t| - j]
  }

  /** `s.strip()`. */
  function Strip(s: string): (r: string)
    ensures |r| <= |s|
    ensures r == [] || (!IsSpace(r[0]) && !IsSpace(r[|r| - 1]))
    ensures LeadingCount(s, IsSpace) + |r| <= |s| && r == s[LeadingCount(s, IsSpace)..LeadingCount(s, IsSpace) + |r|]
    ensures forall k :: LeadingCount(s, IsSpace) + |r| <= k < |s| ==> IsSpace(s[k])
  {
    StripBy(s, IsSpace)
  }

  /** A string that `strip()` leaves alone carries no leading or trailing whitespace. */
  lemma StripOfStripped(s: string)
    requires s == [] || (!IsSpace(s[0]) && !IsSpace(s[|s| - 1]))
    ensures Strip(s) == s
  {
  }

  /** `str.lower()` on one character: ASCII and the basic Cyrillic capitals. */
  function LowerChar(c: char): (d: char)
    ensures IsSpace(d) <==> IsSpace(c)
    ensures IsDigit(d) <==> IsDigit(c)
  {
    if 'A' <= c <= 'Z' then (c as int + 32) as char
    else if '\U{410}' <= c <= '\U{42f}' then (c as int + 32) as char
    else if '\U{400}' <= c <= '\U{40f}' then (c as int + 80) as char
    else c
  }

  function Lower(s: string): (r: string)
    ensures |r| == |s|
    ensures forall i :: 0 <= i < |s| ==> r[i] == LowerChar(s[i])
  {
    if s == [] then [] else Lower(s[..|s| - 1]) + [LowerChar(s[|s| - 1])]
  }

  /** `s.replace(c, rep)` for a one-character pattern `c`. */
  function Replace(s: string, c: char, rep: string): (r: string)
    ensures |rep| == 1 ==> |r| == |s|
    ensures c !in rep ==> c !in r
  {
    if s == [] then []
    else Replace(s[..|s| - 1], c, rep) + (if s[|s| - 1] == c then rep else [s[|s| - 1]])
  }

  /** Every character of `s.replace(c, rep)` comes from `s` or from `rep`. */
  lemma {:induction false} ReplaceMembers(s: string, c: char, rep: string)
    ensures forall d :: d in Replace(s, c, rep) ==> d in s || d in rep
  {
    if s != [] {
      var init := s[..|s| - 1];
      ReplaceMembers(init, c, rep);
      assert forall d :: d in init ==> d in s;
    }
  }

  /** `s.split()`: the maximal runs of non-whitespace, in order. */
  function Fields(s: string): (r: seq<string>)
    ensures forall k :: 0 <= k < |r| ==> r[k] != [] && NoSpace(r[k])
    ensures r == [] <==> forall k :: 0 <= k < |s| ==> IsSpace(s[k])
    decreases |s|
  {
    var i := LeadingCount(s, IsSpace);
    if i == |s| then []
    else
      var t := s[i..];
      assert NotSpace(t[0]);
      var k := LeadingCount(t, NotSpace);
      assert NoSpace(t[..k]);
      [t[..k]] + Fields(t[k..])
  }

  /** A single word, with no whitespace in it, is its own only field. */
  lemma FieldsOfWord(s: string)
    requires s != [] && NoSpace(s)
    ensures Fields(s) == [s]
  {
    assert LeadingCount(s, IsSpace) == 0;
    LeadingNonSpace(s, "");
    assert s + "" == s;
    assert s[0..] == s && s[..|s|] == s && s[|s|..] == [];
  }

  /** Whitespace in front of a text adds no field. */
  lemma FieldsOfSpaces(w: string, b: string)
    requires forall k :: 0 <= k < |w| ==> IsSpace(w[k])
    ensures Fields(w + b) == Fields(b)
  {
    LeadingCountAll(w, b, IsSpace);
    var j := LeadingCount(b, IsSpace);
    assert (w + b)[|w| + j..] == b[j..];
  }

  /** `split()` distributes over a concatenation separated by whitespace. */
  lemma {:induction false} FieldsConcat(a: string, w: string, b: string)
    requires w != [] && forall k :: 0 <= k < |w| ==> IsSpace(w[k])
    ensures Fields(a + (w + b)) == Fields(a) + Fields(b)
    decreases |a|
  {
    if LeadingCount(a, IsSpace) == |a| {
      FieldsOfSpaces(a, w + b);
      FieldsOfSpaces(w, b);
    } else {
      var word, tail := FieldsHead(a, w + b);
      FieldsConcat(tail, w, b);
      ConcatAssoc([word], Fields(tail), Fields(b));
    }
  }

  /**
   * The first field of `a`, when `a` is not all whitespace, is also the first
   * field of `a + rest` for any `rest` that starts with whitespace.
   */
  lemma FieldsHead(a: string, rest: string) returns (word: string, tail: string)
    requires LeadingCount(a, IsSpace) < |a|
    requires rest == [] || IsSpace(rest[0])
    ensures |tail| < |a|
    ensures Fields(a) == [word] + Fields(tail)
    ensures Fields(a + rest) == [word] + Fields(tail + rest)
  {
    var i := LeadingCount(a, IsSpace);
    LeadingCountStops(a, rest, IsSpace);
    var t := a[i..];
    var k := LeadingCount(t, NotSpace);
    assert (a + rest)[i..] == t + rest;
    if k == |t| {
      LeadingCountOfConcat(t, rest, NotSpace);
    } else {
      LeadingCountStops(t, rest, NotSpace);
    }
    SlicesOfConcat(t, rest, k);
    word, tail := t[..k], t[k..];
    FieldsStep(a);
    FieldsStep(a + rest);
  }

  lemma ConcatAssoc<T>(x: seq<T>, y: seq<T>, z: seq<T>)
    ensures x + (y + z) == (x + y) + z
  {
  }

  /** Cutting `x + y` inside `x`. */
  lemma SlicesOfConcat(x: string, y: string, k: nat)
    requires k <= |x|
    ensures (x + y)[..k] == x[..k] && (x + y)[k..] == x[k..] + y
  {
  }

  /** One step of `split()` on a text that is not all whitespace. */
  lemma FieldsStep(s: string)
    requires LeadingCount(s, IsSpace) < |s|
    ensures var t := s[LeadingCount(s, IsSpace)..];
      Fields(s) == [t[..LeadingCount(t, NotSpace)]] + Fields(t[LeadingCount(t, NotSpace)..])
  {
  }

  /** A leading run that ends inside `x` ends there in `x + y` too. */
  lemma {:induction false} LeadingCountStops(x: string, y: string, p: char -> bool)
    requires LeadingCount(x, p) < |x|
    ensures LeadingCount(x + y, p) == LeadingCount(x, p)
  {
    if p(x[0]) {
      assert (x + y)[1..] == x[1..] + y;
      LeadingCountStops(x[1..], y, p);
    }
  }

  /** A leading run that covers `x` goes on into `y`. */
  lemma {:induction false} LeadingCountAll(x: string, y: string, p: char -> bool)
    requires forall k :: 0 <= k < |x| ==> p(x[k])
    ensures LeadingCount(x + y, p) == |x| + LeadingCount(y, p)
  {
    if x == [] {
      assert x + y == y;
    } else {
      assert (x + y)[1..] == x[1..] + y;
      LeadingCountAll(x[1..], y, p);
    }
  }

  /** Two words joined by one space split back into the two words. */
  lemma {:induction false} FieldsOfTwoWords(a: string, b: string)
    requires a != [] && NoSpace(a) && b != [] && NoSpace(b)
    ensures Fields(a + " " + b) == [a, b]
  {
    var s := a + " " + b;
    assert LeadingCount(s, IsSpace) == 0;
    var k := LeadingCount(s, NotSpace);
    assert s == a + (" " + b);
    LeadingNonSpace(a, " " + b);
    assert s[..k] == a;
    var u := s[k..];
    assert u == " " + b;
    var i := LeadingCount(u, IsSpace);
    assert i == 1 by {
      assert u[1..] == b;
      assert !IsSpace(u[1]);
    }
    assert u[1..] == b;
    LeadingNonSpace(b, "");
    assert b + "" == b;
    assert b[..|b|] == b;
    assert b[|b|..] == [];
    assert Fields(b[|b|..]) == [];
    assert Fields(u) == [b];
  }

  lemma LeadingNonSpace(a: string, rest: string)
    requires NoSpace(a)
    requires rest == [] || IsSpace(rest[0])
    ensures LeadingCount(a + rest, NotSpace) == |a|
  {
    LeadingCountOfConcat(a, rest, NotSpace);
  }

  /** The leading run of `p`-characters of `a + rest` is exactly `a` when `rest` does not continue it. */
  lemma {:induction false} LeadingCountOfConcat(a: string, rest: string, p: char -> bool)
    requires forall i :: 0 <= i < |a| ==> p(a[i])
    requires rest == [] || !p(rest[0])
    ensures LeadingCount(a + rest, p) == |a|
  {
    if a != [] {
      assert (a + rest)[1..] == a[1..] + rest;
      LeadingCountOfConcat(a[1..], rest, p);
    }
  }

  /** `s.split(sep)` with a one-character separator: never empty, even for `""`. */
  function SplitOn(s: string, sep: char): (r: seq<string>)
    ensures |r| >= 1
    ensures forall k :: 0 <= k < |r| ==> sep !in r[k]
    ensures r[0] == s[..IndexOrLength(s, sep)]
    decreases |s|
  {
    var k := IndexOrLength(s, sep);
    if k == |s| then [s] else [s[..k]] + SplitOn(s[k + 1..], sep)
  }

  /** Index of the first `sep` in `s`, or `|s|` when there is none. */
  function IndexOrLength(s: string, sep: char): (k: nat)
    ensures k <= |s|
    ensures sep !in s[..k]
    ensures k < |s| ==> s[k] == sep
  {
    if s == [] then 0
    else if s[0] == sep then 0
    else
      var k := 1 + IndexOrLength(s[1..], sep);
      assert s[..k] == [s[0]] + s[1..][..k - 1];
      k
  }
}
