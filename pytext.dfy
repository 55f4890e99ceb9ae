/**
 * The few Python `str` operations the service relies on, written out over
 * `seq<char>`: whitespace (`str.isspace`), `lower()`, `strip()`, `split()`,
 * `split(sep)[0]`, `in`, `startswith`, the `str.isdigit` filter, `int()` of a
 * string of digits and, as its inverse, `str()` of a natural number.
 */
module PyText {

  datatype Option<+T> = None | Some(value: T)

  /** Python's `str.isspace`: the characters `split()` and `strip()` treat as whitespace. */
  predicate IsSpace(c: char) {
    || c == ' '
    || ('\t' <= c <= '\r')
    || ('\U{1C}' <= c <= '\U{1F}')
    || c == '\U{85}' || c == '\U{A0}' || c == '\U{1680}'
    || ('\U{2000}' <= c <= '\U{200A}')
    || c == '\U{2028}' || c == '\U{2029}' || c == '\U{202F}' || c == '\U{205F}' || c == '\U{3000}'
  }

  /** `str.isdigit`, restricted to the ASCII digits. */
  predicate IsDigit(c: char) {
    '0' <= c <= '9'
  }

  predicate NoSpace(s: string) {
    forall i :: 0 <= i < |s| ==> !IsSpace(s[i])
  }

  predicate AllSpace(s: string) {
    forall i :: 0 <= i < |s| ==> IsSpace(s[i])
  }

  predicate AllDigits(s: string) {
    forall i :: 0 <= i < |s| ==> IsDigit(s[i])
  }

  // ---------------------------------------------------------------- lower()

  function LowerChar(c: char): (l: char)
    ensures 'A' <= c <= 'Z' ==> 'a' <= l <= 'z' && l as int - c as int == 32
    ensures !('A' <= c <= 'Z') ==> l == c
  {
    if 'A' <= c <= 'Z' then (c as int + 32) as char else c
  }

  /** `s.lower()` on the ASCII letters; every other character is kept. */
  function Lower(s: string): (l: string)
    ensures |l| == |s|
    ensures forall i :: 0 <= i < |s| ==> l[i] == LowerChar(s[i])
  {
    seq(|s|, i requires 0 <= i < |s| => LowerChar(s[i]))
  }

  /** No character of `s` is an upper-case ASCII letter. */
  predicate NoUpper(s: string) {
    forall i :: 0 <= i < |s| ==> !('A' <= s[i] <= 'Z')
  }

  /**
   * `lower()` leaves no upper-case letter, so lower-casing twice is lower-casing
   * once, and a text without upper-case letters is its own lower case.
   */
  lemma LowerFixes(s: string)
    ensures NoUpper(Lower(s))
    ensures Lower(Lower(s)) == Lower(s)
    ensures NoUpper(s) ==> Lower(s) == s
  {
    var l := Lower(s);
    forall i | 0 <= i < |l| ensures !('A' <= l[i] <= 'Z') && LowerChar(l[i]) == l[i] {
      assert l[i] == LowerChar(s[i]);
    }
  }

  // ---------------------------------------------------- `in` and startswith

  /** `sub` occurs in `s` starting at index `i`. */
  predicate StartsAt(s: string, sub: string, i: int) {
    0 <= i && i + |sub| <= |s| && s[i..i + |sub|] == sub
  }

  /** Python's `sub in s`. */
  predicate Contains(s: string, sub: string) {
    exists i :: 0 <= i <= |s| && StartsAt(s, sub, i)
  }

  /** `s.startswith(prefix)`. */
  predicate StartsWith(s: string, prefix: string) {
    |prefix| <= |s| && s[..|prefix|] == prefix
  }

  /** An occurrence of `sub` cannot cover a character that `sub` does not hold. */
  lemma OccurrenceAvoids(s: string, sub: string, i: int, k: int)
    requires StartsAt(s, sub, i) && i <= k < i + |sub|
    ensures s[k] in sub
  {
    assert s[k] == s[i..i + |sub|][k - i];
  }

  /** If no character of `s` is the first character of `sub`, then `sub` is not in `s`. */
  lemma NotContainedWithoutHead(s: string, sub: string)
    requires sub != [] && sub[0] !in s
    ensures !Contains(s, sub)
  {
    forall i | 0 <= i <= |s| ensures !StartsAt(s, sub, i) {
      if i < |s| {
        assert s[i] in s;
      }
    }
  }

  /**
   * `sub` is not in `x + [c] + y` when it is in neither part and does not hold `c`:
   * every occurrence of it lies wholly on one side of `c`.
   */
  lemma NotContainedAcross(x: string, c: char, y: string, sub: string)
    requires c !in sub && !Contains(x, sub) && !Contains(y, sub)
    ensures !Contains(x + [c] + y, sub)
  {
    var s := x + [c] + y;
    if Contains(s, sub) {
      var i :| 0 <= i <= |s| && StartsAt(s, sub, i);
      if i + |sub| <= |x| {
        assert s[i..i + |sub|] == x[i..i + |sub|];
        assert StartsAt(x, sub, i);
      } else if i > |x| {
        assert s[i..i + |sub|] == y[i - |x| - 1..i - |x| - 1 + |sub|];
        assert StartsAt(y, sub, i - |x| - 1);
      } else {
        OccurrenceAvoids(s, sub, i, |x|);
      }
      assert false;
    }
  }

  // ------------------------------------------------------- split(sep)[0]

  /**
   * `s.split(sep)[0]`: the text before the first occurrence of `sep`,
   * or the whole of `s` when `sep` does not occur.
   */
  function Before(s: string, sep: string): (r: string)
    requires sep != []
    ensures |r| <= |s| && r == s[..|r|]
    ensures forall i :: 0 <= i < |r| ==> !StartsAt(s, sep, i)
    ensures r == s || StartsAt(s, sep, |r|)
    decreases |s|
  {
    if |s| < |sep| then s
    else if s[..|sep|] == sep then []
    else
      var r := [s[0]] + Before(s[1..], sep);
      forall i | 1 <= i <= |s| ensures StartsAt(s, sep, i) <==> StartsAt(s[1..], sep, i - 1) {
        StartsAtTail(s, sep, i);
      }
      r
  }

  /** An occurrence after the first character is an occurrence in the tail. */
  lemma StartsAtTail(s: string, sep: string, i: int)
    requires 1 <= i <= |s|
    ensures StartsAt(s, sep, i) <==> StartsAt(s[1..], sep, i - 1)
  {
    if i + |sep| <= |s| {
      var a, b := s[i..i + |sep|], s[1..][i - 1..i - 1 + |sep|];
      forall k | 0 <= k < |sep| ensures a[k] == b[k] {
        assert a[k] == s[i + k] && b[k] == s[1..][i - 1 + k];
      }
      assert a == b;
    }
  }

  /** `split(sep)[0]` of a string whose first occurrence of `sep` is at `|x|`. */
  lemma BeforeFirstOccurrence(x: string, sep: string, y: string)
    requires sep != []
    requires forall i :: 0 <= i < |x| ==> !StartsAt(x + sep + y, sep, i)
    ensures Before(x + sep + y, sep) == x
  {
    var s := x + sep + y;
    var r := Before(s, sep);
    assert s[|x|..|x| + |sep|] == sep;
    assert StartsAt(s, sep, |x|);
    assert r == s[..|x|] == x;
  }

  // ---------------------------------------------------------------- split()

  /** The longest prefix of `s` holding no whitespace. */
  function Token(s: string): (w: string)
    ensures |w| <= |s| && w == s[..|w|]
    ensures NoSpace(w)
    ensures |w| < |s| ==> IsSpace(s[|w|])
  {
    if s == [] || IsSpace(s[0]) then [] else [s[0]] + Token(s[1..])
  }

  /** Python's `s.split()`: the maximal runs of non-whitespace, in order. */
  function Words(s: string): (ws: seq<string>)
    ensures forall k :: 0 <= k < |ws| ==> ws[k] != [] && NoSpace(ws[k])
    decreases |s|
  {
    if s == [] then []
    else if IsSpace(s[0]) then Words(s[1..])
    else var w := Token(s); [w] + Words(s[|w|..])
  }

  /** Every character of every word comes from the string that was split. */
  lemma {:induction false} WordsChars(s: string, k: nat, c: char)
    requires k < |Words(s)| && c in Words(s)[k]
    ensures c in s
    decreases |s|
  {
    if IsSpace(s[0]) {
      WordsChars(s[1..], k, c);
    } else if k > 0 {
      var w := Token(s);
      WordsChars(s[|w|..], k - 1, c);
    }
  }

  /** The token of `x + y` is the token of `x` when `y` starts with whitespace. */
  lemma TokenBeforeSpace(x: string, y: string)
    requires y != [] && IsSpace(y[0])
    ensures Token(x + y) == Token(x)
  {
    if x != [] && !IsSpace(x[0]) {
      assert (x + y)[1..] == x[1..] + y;
      TokenBeforeSpace(x[1..], y);
    } else if x == [] {
      assert (x + y)[0] == y[0];
    }
  }

  /** A whitespace character splits the words of a string in two. */
  lemma {:induction false} WordsAroundSpace(x: string, c: char, y: string)
    requires IsSpace(c)
    ensures Words(x + [c] + y) == Words(x) + Words(y)
    decreases |x|
  {
    var s := x + [c] + y;
    if x == [] {
      assert s[1..] == y;
    } else if IsSpace(x[0]) {
      assert s[1..] == x[1..] + [c] + y;
      WordsAroundSpace(x[1..], c, y);
    } else {
      TokenBeforeSpace(x, [c] + y);
      assert s == x + ([c] + y);
      var w := Token(x);
      assert Token(s) == w;
      assert s[|w|..] == x[|w|..] + [c] + y;
      WordsAroundSpace(x[|w|..], c, y);
    }
  }

  /** A non-empty run of non-whitespace is a single word. */
  lemma {:induction false} WordsOfToken(w: string)
    requires w != [] && NoSpace(w)
    ensures Words(w) == [w]
  {
    TokenOfNoSpace(w);
    assert w[|w|..] == [];
  }

  lemma {:induction false} TokenOfNoSpace(w: string)
    requires NoSpace(w)
    ensures Token(w) == w
  {
    if w != [] {
      TokenOfNoSpace(w[1..]);
    }
  }

  /** Whitespace alone has no words. */
  lemma {:induction false} WordsOfSpace(s: string)
    requires AllSpace(s)
    ensures Words(s) == []
  {
    if s != [] {
      WordsOfSpace(s[1..]);
    }
  }

  // ---------------------------------------------------------------- strip()

  /** The number of whitespace characters `s` starts with. */
  function LeadingSpace(s: string): (n: nat)
    ensures n <= |s|
    ensures forall i :: 0 <= i < n ==> IsSpace(s[i])
    ensures n < |s| ==> !IsSpace(s[n])
  {
    if s != [] && IsSpace(s[0]) then 1 + LeadingSpace(s[1..]) else 0
  }

  /** The index where the trailing whitespace of `s` begins. */
  function TrailingSpace(s: string): (n: nat)
    ensures n <= |s|
    ensures forall i :: n <= i < |s| ==> IsSpace(s[i])
    ensures 0 < n ==> !IsSpace(s[n - 1])
  {
    if s != [] && IsSpace(s[|s| - 1]) then TrailingSpace(s[..|s| - 1]) else |s|
  }

  /** No whitespace at either end. */
  predicate IsStripped(s: string) {
    s == [] || (!IsSpace(s[0]) && !IsSpace(s[|s| - 1]))
  }

  /** Python's `s.strip()`: `s` with the whitespace at both ends removed. */
  function Strip(s: string): (r: string)
    ensures IsStripped(r) && |r| <= |s|
  {
    var i := LeadingSpace(s);
    var j := TrailingSpace(s);
    if j <= i then [] else s[i..j]
  }

  /** What `strip()` removes is whitespace, from the two ends: `s == a + s.strip() + b`. */
  lemma StripParts(s: string) returns (a: string, b: string)
    ensures s == a + Strip(s) + b && AllSpace(a) && AllSpace(b)
  {
    var i := LeadingSpace(s);
    var j := TrailingSpace(s);
    if j <= i {
      a, b := s, [];
      assert s == a + [] + b;
    } else {
      a, b := s[..i], s[j..];
      assert s == a + s[i..j] + b;
    }
  }

  lemma AllSpaceConcat(a: string, b: string)
    requires AllSpace(a) && AllSpace(b)
    ensures AllSpace(a + b)
  {
    forall k | 0 <= k < |a + b| ensures IsSpace((a + b)[k]) {
      if k < |a| { assert (a + b)[k] == a[k]; } else { assert (a + b)[k] == b[k - |a|]; }
    }
  }

  /** `strip()` is idempotent. */
  lemma StripIdempotent(s: string)
    ensures Strip(Strip(s)) == Strip(s)
  {
    var t := Strip(s);
    if t != [] {
      assert LeadingSpace(t) == 0;
      assert TrailingSpace(t) == |t|;
      assert t[0..|t|] == t;
    }
  }

  /** A string is blank (`s.strip() == ""`) exactly when it is all whitespace. */
  lemma StripEmptyIffAllSpace(s: string)
    ensures Strip(s) == [] <==> AllSpace(s)
  {
    if AllSpace(s) {
      assert LeadingSpace(s) == |s|;
    }
  }

  /** `strip()` of a stripped text padded with whitespace gives back the text. */
  lemma StripOfPadded(a: string, r: string, b: string)
    requires AllSpace(a) && AllSpace(b) && IsStripped(r)
    ensures Strip(a + r + b) == r
  {
    var s := a + r + b;
    if r == [] {
      assert AllSpace(s) by {
        forall i | 0 <= i < |s| ensures IsSpace(s[i]) {
          if i < |a| { assert s[i] == a[i]; } else { assert s[i] == b[i - |a|]; }
        }
      }
      StripEmptyIffAllSpace(s);
    } else {
      var n, t := LeadingSpace(s), TrailingSpace(s);
      assert s[|a|] == r[0];
      assert s[|a| + |r| - 1] == r[|r| - 1];
      assert n == |a|;
      assert t == |a| + |r|;
      assert s[n..t] == r;
    }
  }

  // ---------------------------------------------- isdigit filter and int()

  /** `"".join(filter(str.isdigit, s))`. */
  function Digits(s: string): (d: string)
    ensures AllDigits(d)
    ensures |d| <= |s|
    ensures AllDigits(s) ==> d == s
    ensures (forall i :: 0 <= i < |s| ==> !IsDigit(s[i])) ==> d == []
  {
    if s == [] then []
    else if IsDigit(s[0]) then [s[0]] + Digits(s[1..])
    else Digits(s[1..])
  }

  /** Some character of `s` is a digit. */
  predicate HasDigit(s: string) {
    exists i :: 0 <= i < |s| && IsDigit(s[i])
  }

  /** The digit filter gives nothing exactly when there is no digit to keep. */
  lemma {:induction false} DigitsEmptyIff(s: string)
    ensures Digits(s) == [] <==> !HasDigit(s)
  {
    if s != [] && !IsDigit(s[0]) {
      DigitsEmptyIff(s[1..]);
      if HasDigit(s) {
        var i :| 0 <= i < |s| && IsDigit(s[i]);
        assert IsDigit(s[1..][i - 1]);
      }
      if HasDigit(s[1..]) {
        var i :| 0 <= i < |s[1..]| && IsDigit(s[1..][i]);
        assert IsDigit(s[i + 1]);
      }
    }
  }

  function DigitValue(c: char): (n: nat)
    requires IsDigit(c)
    ensures n < 10
  {
    c as int - '0' as int
  }

  function DigitChar(n: nat): (c: char)
    requires n < 10
    ensures IsDigit(c) && DigitValue(c) == n
  {
    ('0' as int + n) as char
  }

  /**
   * Python's `int(d)` for a string of decimal digits, read left to right. The
   * empty string, on which `int` raises ValueError, never reaches it: the callers
   * test for it first.
   */
  function IntOfDigits(d: string): nat
    requires AllDigits(d)
  {
    if d == [] then 0 else IntOfDigits(d[..|d| - 1]) * 10 + DigitValue(d[|d| - 1])
  }

  /** Python's `str(n)` for a natural number: its decimal digits, no leading zero. */
  function Show(n: nat): (s: string)
    ensures s != [] && AllDigits(s) && NoSpace(s)
    ensures |s| > 1 ==> s[0] != '0'
  {
    if n < 10 then [DigitChar(n)] else Show(n / 10) + [DigitChar(n % 10)]
  }

  /** `int(str(n)) == n`. */
  lemma {:induction false} IntOfShow(n: nat)
    ensures IntOfDigits(Show(n)) == n
  {
    var s := Show(n);
    if n >= 10 {
      assert s[..|s| - 1] == Show(n / 10);
      IntOfShow(n / 10);
    } else {
      assert s[..|s| - 1] == [];
    }
  }
}
