/**
  The Python string built-ins the chat service relies on, over ASCII:
  `str.isspace`, `str.lower`, `str.strip`, `str.split()` with no argument,
  the substring test `key in s`, and `str(n)` for a natural number.
  Characters outside ASCII are treated as non-space and are not case-mapped.
 */
module PyStr {

  type String = seq<char>

  /** `c.isspace()` on ASCII: tab, line feed, vertical tab, form feed, carriage
      return (9-13), the four separators 0x1C-0x1F and the space (32). */
  predicate IsSpace(c: char) {
    9 <= c as int <= 13 || 28 <= c as int <= 32
  }

  predicate IsUpper(c: char) {
    'A' <= c <= 'Z'
  }

  function LowerChar(c: char): (d: char)
    ensures !IsUpper(d)
    ensures IsSpace(d) <==> IsSpace(c)
    ensures !IsUpper(c) ==> d == c
  {
    if IsUpper(c) then (c as int + 32) as char else c
  }

  /** `s.lower()`: every ASCII capital letter is replaced by its small letter. */
  function Lower(s: String): (r: String)
    ensures |r| == |s|
    ensures forall i :: 0 <= i < |s| ==> r[i] == LowerChar(s[i])
  {
    seq(|s|, i requires 0 <= i < |s| => LowerChar(s[i]))
  }

  /** No ASCII capital letter occurs in `s`. */
  predicate IsLowerCase(s: String) {
    forall i :: 0 <= i < |s| ==> !IsUpper(s[i])
  }

  /** `s.lstrip()`: drops the leading whitespace, and nothing else. */
  function TrimLeft(s: String): (r: String)
    ensures |r| <= |s| && r == s[|s| - |r|..]
    ensures r == [] || !IsSpace(r[0])
    ensures forall i :: 0 <= i < |s| - |r| ==> IsSpace(s[i])
  {
    if s != [] && IsSpace(s[0]) then TrimLeft(s[1..]) else s
  }

  /** `s.rstrip()`: drops the trailing whitespace, and nothing else. */
  function TrimRight(s: String): (r: String)
    ensures |r| <= |s| && r == s[..|r|]
    ensures r == [] || !IsSpace(r[|r| - 1])
    ensures forall i :: |r| <= i < |s| ==> IsSpace(s[i])
  {
    if s != [] && IsSpace(s[|s| - 1]) then TrimRight(s[..|s| - 1]) else s
  }

  /** `r` is the piece of `s` starting at `lo`, and only whitespace lies around it. */
  predicate SlicedAt(s: String, r: String, lo: int) {
    && 0 <= lo <= |s| - |r| && r == s[lo..lo + |r|]
    && (forall i :: 0 <= i < lo ==> IsSpace(s[i]))
    && (forall i :: lo + |r| <= i < |s| ==> IsSpace(s[i]))
  }

  /** `s.strip()`: the slice of `s` left once whitespace is removed at both ends. */
  function Strip(s: String): (r: String)
    ensures exists lo :: SlicedAt(s, r, lo)
    ensures r == [] || (!IsSpace(r[0]) && !IsSpace(r[|r| - 1]))
  {
    var left := TrimLeft(s);
    var r := TrimRight(left);
    var lo := |s| - |left|;
    assert SlicedAt(s, r, lo);
    r
  }

  /** Length of the word at the head of `s`: the longest prefix without whitespace. */
  function WordLength(s: String): (n: nat)
    requires s != [] && !IsSpace(s[0])
    ensures 1 <= n <= |s|
    ensures forall i :: 0 <= i < n ==> !IsSpace(s[i])
    ensures n < |s| ==> IsSpace(s[n])
  {
    if |s| == 1 || IsSpace(s[1]) then 1 else 1 + WordLength(s[1..])
  }

  /** `s.split()`: the maximal runs of non-whitespace characters, in order.
      Runs of whitespace separate words and no empty word is produced. */
  function Split(s: String): seq<String>
    decreases |s|
  {
    if s == [] then []
    else if IsSpace(s[0]) then Split(s[1..])
    else
      var n := WordLength(s);
      [s[..n]] + Split(s[n..])
  }

  /** The words of `s` are non-empty, hold no whitespace and are made of
      characters of `s`; there is none exactly when `s` is all whitespace. */
  lemma {:induction false} SplitWords(s: String)
    ensures forall w :: w in Split(s) ==> w != []
    ensures forall w, i :: w in Split(s) && 0 <= i < |w| ==> !IsSpace(w[i])
    ensures forall w, c :: w in Split(s) && c in w ==> c in s
    ensures Split(s) == [] <==> forall i :: 0 <= i < |s| ==> IsSpace(s[i])
    decreases |s|
  {
    if s == [] {
    } else if IsSpace(s[0]) {
      SplitWords(s[1..]);
      assert forall c :: c in s[1..] ==> c in s;
      assert forall i :: 1 <= i < |s| ==> s[1..][i - 1] == s[i];
    } else {
      var n := WordLength(s);
      SplitWords(s[n..]);
      assert forall c :: c in s[n..] ==> c in s;
      assert forall c :: c in s[..n] ==> c in s;
    }
  }

  /** The words of `ws` run together, in order. */
  function Concat(ws: seq<String>): String {
    if ws == [] then [] else ws[0] + Concat(ws[1..])
  }

  /** The characters of `s` that are not whitespace, in order. */
  function NonSpace(s: String): String
    decreases |s|
  {
    if s == [] then []
    else if IsSpace(s[0]) then NonSpace(s[1..])
    else [s[0]] + NonSpace(s[1..])
  }

  lemma {:induction false} NonSpacePrefix(s: String, n: nat)
    requires n <= |s|
    requires forall i :: 0 <= i < n ==> !IsSpace(s[i])
    ensures NonSpace(s) == s[..n] + NonSpace(s[n..])
    decreases n
  {
    if n > 0 {
      NonSpacePrefix(s[1..], n - 1);
      assert s[1..][n - 1..] == s[n..];
      assert [s[0]] + s[1..][..n - 1] == s[..n];
    }
  }

  /** No character is lost or reordered by `split()`: the words run together
      are exactly the non-whitespace characters of `s`, in order. */
  lemma {:induction false} SplitConcat(s: String)
    ensures Concat(Split(s)) == NonSpace(s)
    decreases |s|
  {
    if s == [] {
    } else if IsSpace(s[0]) {
      SplitConcat(s[1..]);
    } else {
      var n := WordLength(s);
      SplitConcat(s[n..]);
      NonSpacePrefix(s, n);
      assert Split(s) == [s[..n]] + Split(s[n..]);
      assert ([s[..n]] + Split(s[n..]))[1..] == Split(s[n..]);
    }
  }

  lemma WordLengthAppend(a: String, b: String)
    requires a != [] && !IsSpace(a[0]) && b != [] && IsSpace(b[0])
    ensures WordLength(a + b) == WordLength(a)
  {
    var n, m := WordLength(a), WordLength(a + b);
    assert n < |a| ==> (a + b)[n] == a[n];
    assert (a + b)[|a|] == b[0];
  }

  /** Words never straddle a whitespace character: when `b` starts with one,
      the words of `a + b` are the words of `a` followed by those of `b`. */
  lemma {:induction false} SplitAppend(a: String, b: String)
    requires b != [] && IsSpace(b[0])
    ensures Split(a + b) == Split(a) + Split(b)
    decreases |a|
  {
    if a == [] {
      assert a + b == b;
    } else if IsSpace(a[0]) {
      assert (a + b)[1..] == a[1..] + b;
      SplitAppend(a[1..], b);
    } else {
      var n := WordLength(a);
      WordLengthAppend(a, b);
      assert (a + b)[..n] == a[..n];
      assert (a + b)[n..] == a[n..] + b;
      SplitAppend(a[n..], b);
    }
  }

  /** A whitespace character separates words: splitting at it gives the words
      before it followed by the words after it. With `SplitSingleWord` and the
      all-whitespace case of `SplitWords` this determines `split()` fully: the
      words are the maximal whitespace-free slices of `s`, in order. */
  lemma SplitAtSpace(s: String, i: nat)
    requires i < |s| && IsSpace(s[i])
    ensures Split(s) == Split(s[..i]) + Split(s[i + 1..])
  {
    assert s == s[..i] + s[i..];
    SplitAppend(s[..i], s[i..]);
    assert s[i..][1..] == s[i + 1..];
  }

  /** A non-empty text without whitespace is a single word. */
  lemma SplitSingleWord(s: String)
    requires s != [] && forall i :: 0 <= i < |s| ==> !IsSpace(s[i])
    ensures Split(s) == [s]
  {
    assert s[..WordLength(s)] == s;
  }

  /** `key` occurs in `s` starting at index `i`. */
  predicate OccursAt(s: String, key: String, i: int) {
    0 <= i <= |s| - |key| && s[i..i + |key|] == key
  }

  /** `key in s` for two strings: `key` occurs as a contiguous piece of `s`. */
  predicate Contains(s: String, key: String) {
    exists i | 0 <= i <= |s| :: OccursAt(s, key, i)
  }

  /** The decimal digit character for `d`. */
  function DigitChar(d: nat): (c: char)
    requires d < 10
    ensures '0' <= c <= '9' && c as int - '0' as int == d
  {
    ('0' as int + d) as char
  }

  /** `str(n)` for a natural number: its decimal digits, no leading zero. */
  function NatToString(n: nat): (r: String)
    ensures r != []
    ensures forall i :: 0 <= i < |r| ==> '0' <= r[i] <= '9'
    ensures |r| > 1 ==> r[0] != '0'
  {
    if n < 10 then [DigitChar(n)] else NatToString(n / 10) + [DigitChar(n % 10)]
  }

  /** `int(s)` for a string of decimal digits. */
  function ParseNat(s: String): nat
    requires forall i :: 0 <= i < |s| ==> '0' <= s[i] <= '9'
  {
    if s == [] then 0 else 10 * ParseNat(s[..|s| - 1]) + (s[|s| - 1] as int - '0' as int)
  }

  /** `int(str(n)) == n`: the decimal rendering loses nothing. */
  lemma {:induction false} ParseNatToString(n: nat)
    ensures ParseNat(NatToString(n)) == n
  {
    var r := NatToString(n);
    if n >= 10 {
      ParseNatToString(n / 10);
      assert r[..|r| - 1] == NatToString(n / 10);
    }
  }

  /** Distinct numbers are rendered as distinct strings. */
  lemma NatToStringInjective(m: nat, n: nat)
    requires NatToString(m) == NatToString(n)
    ensures m == n
  {
    ParseNatToString(m);
    ParseNatToString(n);
  }
}
