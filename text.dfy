/**
 * The string primitives the application relies on: JavaScript's `trim`,
 * ASCII case folding (`toLowerCase` / Python's `lower`), `Array.join`,
 * `Array.filter` for removal of a value, and Python's `str.split()` with no
 * separator.
 */
module Text {

  /** Whitespace removed by JavaScript's `String.prototype.trim` (WhiteSpace and LineTerminator). */
  predicate IsJsSpace(c: char) {
    var n := c as int;
    (0x09 <= n <= 0x0D) || n == 0x20 || n == 0xA0 || n == 0x1680 || (0x2000 <= n <= 0x200A)
    || n == 0x2028 || n == 0x2029 || n == 0x202F || n == 0x205F || n == 0x3000 || n == 0xFEFF
  }

  /** Whitespace on which Python's `str.split()` splits (the characters `str.isspace` accepts). */
  predicate IsPySpace(c: char) {
    var n := c as int;
    (0x09 <= n <= 0x0D) || (0x1C <= n <= 0x20) || n == 0x85 || n == 0xA0 || n == 0x1680
    || (0x2000 <= n <= 0x200A) || n == 0x2028 || n == 0x2029 || n == 0x202F || n == 0x205F || n == 0x3000
  }

  ghost predicate AllJsSpace(s: string) {
    forall i | 0 <= i < |s| :: IsJsSpace(s[i])
  }

  /** Drops leading whitespace. */
  function TrimStart(s: string): (r: string)
    ensures |r| <= |s|
  {
    if s != [] && IsJsSpace(s[0]) then TrimStart(s[1..]) else s
  }

  /** `TrimStart(s)` is the suffix of `s` that starts at its first non-space. */
  lemma {:induction false} TrimStartSuffix(s: string)
    ensures TrimStart(s) == s[|s| - |TrimStart(s)|..]
    ensures forall i | 0 <= i < |s| - |TrimStart(s)| :: IsJsSpace(s[i])
    ensures TrimStart(s) != [] ==> !IsJsSpace(TrimStart(s)[0])
  {
    if s != [] && IsJsSpace(s[0]) {
      TrimStartSuffix(s[1..]);
    }
  }

  /** Drops trailing whitespace. */
  function TrimEnd(s: string): (r: string)
    ensures |r| <= |s|
  {
    if s != [] && IsJsSpace(s[|s| - 1]) then TrimEnd(s[..|s| - 1]) else s
  }

  /** `TrimEnd(s)` is the prefix of `s` that ends at its last non-space. */
  lemma {:induction false} TrimEndPrefix(s: string)
    ensures TrimEnd(s) == s[..|TrimEnd(s)|]
    ensures forall i | |TrimEnd(s)| <= i < |s| :: IsJsSpace(s[i])
    ensures TrimEnd(s) != [] ==> !IsJsSpace(TrimEnd(s)[|TrimEnd(s)| - 1])
  {
    if s != [] && IsJsSpace(s[|s| - 1]) {
      TrimEndPrefix(s[..|s| - 1]);
    }
  }

  /** JavaScript's `s.trim()`. */
  function Trim(s: string): (r: string)
    ensures |r| <= |s|
    ensures r != [] ==> !IsJsSpace(r[0]) && !IsJsSpace(r[|r| - 1])
  {
    TrimStartSuffix(s);
    TrimEndPrefix(TrimStart(s));
    TrimEnd(TrimStart(s))
  }

  /** A string trims to the empty string exactly when it consists of whitespace only. */
  lemma TrimEmptyIff(s: string)
    ensures Trim(s) == [] <==> AllJsSpace(s)
  {
    TrimStartSuffix(s);
    var t := TrimStart(s);
    TrimEndPrefix(t);
    if t != [] {
      assert !IsJsSpace(t[0]);
      assert !IsJsSpace(s[|s| - |t|]);
    }
  }

  /** Trimming a string that neither starts nor ends with whitespace leaves it unchanged. */
  lemma TrimmedIsFixed(s: string)
    requires s == [] || (!IsJsSpace(s[0]) && !IsJsSpace(s[|s| - 1]))
    ensures Trim(s) == s
  {
  }

  /** `trim` is idempotent. */
  lemma TrimIdempotent(s: string)
    ensures Trim(Trim(s)) == Trim(s)
  {
    TrimmedIsFixed(Trim(s));
  }

  /** ASCII lower-casing of one character. */
  function LowerChar(c: char): char {
    if 'A' <= c <= 'Z' then (c as int + 32) as char else c
  }

  /** `toLowerCase()` / Python's `lower()`, restricted to the ASCII letters. */
  function Lower(s: string): (r: string)
    ensures |r| == |s|
    ensures forall i | 0 <= i < |s| :: r[i] == LowerChar(s[i]) && !('A' <= r[i] <= 'Z')
  {
    seq(|s|, i requires 0 <= i < |s| => LowerChar(s[i]))
  }

  /** `parts.join(sep)`. */
  function Join(parts: seq<string>, sep: string): string
  {
    if |parts| == 0 then "" else if |parts| == 1 then parts[0] else parts[0] + sep + Join(parts[1..], sep)
  }

  /** `xs.filter(y => y !== x)`: every occurrence of `x` removed, the rest kept in order. */
  function Without<T(==)>(xs: seq<T>, x: T): (r: seq<T>)
    ensures x !in r
    ensures x !in xs ==> r == xs
  {
    if xs == [] then []
    else
      (if xs[0] == x then [] else [xs[0]]) + Without(xs[1..], x)
  }

  /** Removal distributes over concatenation, so the kept elements keep their order. */
  lemma {:induction false} WithoutAppend<T>(xs: seq<T>, ys: seq<T>, x: T)
    ensures Without(xs + ys, x) == Without(xs, x) + Without(ys, x)
  {
    if xs == [] {
      assert xs + ys == ys;
    } else {
      var head := if xs[0] == x then [] else [xs[0]];
      assert (xs + ys)[0] == xs[0];
      assert (xs + ys)[1..] == xs[1..] + ys;
      WithoutAppend(xs[1..], ys, x);
      calc {
        Without(xs + ys, x);
        head + Without(xs[1..] + ys, x);
        head + (Without(xs[1..], x) + Without(ys, x));
        (head + Without(xs[1..], x)) + Without(ys, x);
        Without(xs, x) + Without(ys, x);
      }
    }
  }

  /** Removal keeps every other element with its multiplicity and drops all copies of `x`. */
  lemma {:induction false} WithoutMultiset<T>(xs: seq<T>, x: T)
    ensures multiset(Without(xs, x)) == multiset(xs)[x := 0]
  {
    if xs != [] {
      assert xs == [xs[0]] + xs[1..];
      WithoutMultiset(xs[1..], x);
    }
  }

  /** No element occurs twice. */
  ghost predicate NoDuplicates<T>(xs: seq<T>) {
    forall i, j | 0 <= i < j < |xs| :: xs[i] != xs[j]
  }

  /** Leading Python whitespace dropped. */
  function DropPySpace(s: string): (r: string)
    ensures |r| <= |s| && r == s[|s| - |r|..]
    ensures forall i | 0 <= i < |s| - |r| :: IsPySpace(s[i])
    ensures r != [] ==> !IsPySpace(r[0])
  {
    if s != [] && IsPySpace(s[0]) then DropPySpace(s[1..]) else s
  }

  /** The longest prefix of `s` holding no Python whitespace. */
  function WordPrefix(s: string): (w: string)
    ensures |w| <= |s| && w == s[..|w|]
    ensures forall i | 0 <= i < |w| :: !IsPySpace(w[i])
    ensures |w| < |s| ==> IsPySpace(s[|w|])
  {
    if s == [] || IsPySpace(s[0]) then [] else [s[0]] + WordPrefix(s[1..])
  }

  ghost predicate IsWord(w: string) {
    w != [] && forall i | 0 <= i < |w| :: !IsPySpace(w[i])
  }

  /** Python's `s.split()`: the maximal runs of non-whitespace, in order. */
  function Words(s: string): (ws: seq<string>)
    ensures forall k | 0 <= k < |ws| :: IsWord(ws[k])
    decreases |s|
  {
    var t := DropPySpace(s);
    if t == [] then [] else
      var w := WordPrefix(t);
      [w] + Words(t[|w|..])
  }

  lemma {:induction false} WordPrefixOfWord(w: string, rest: string)
    requires forall i | 0 <= i < |w| :: !IsPySpace(w[i])
    requires rest == [] || IsPySpace(rest[0])
    ensures WordPrefix(w + rest) == w
  {
    if w != [] {
      assert (w + rest)[1..] == w[1..] + rest;
      WordPrefixOfWord(w[1..], rest);
    } else if rest != [] {
      assert (w + rest)[0] == rest[0];
    }
  }

  lemma DropPySpaceOfWord(s: string)
    requires s != [] && !IsPySpace(s[0])
    ensures DropPySpace(s) == s
  {
  }

  lemma {:induction false} WordsAfterWord(a: string, tail: string)
    requires IsWord(a) && tail != [] && IsPySpace(tail[0])
    ensures Words(a + tail) == [a] + Words(tail)
  {
    var s := a + tail;
    assert s[0] == a[0];
    DropPySpaceOfWord(s);
    WordPrefixOfWord(a, tail);
    assert s[|a|..] == tail;
  }

  lemma {:induction false} WordsOfSpacedWord(b: string)
    requires IsWord(b)
    ensures Words(" " + b) == [b]
  {
    var tail := " " + b;
    assert tail[1..] == b;
    assert IsPySpace(tail[0]);
    DropPySpaceOfWord(b);
    assert DropPySpace(tail) == b;
    WordPrefixOfWord(b, "");
    assert b + "" == b;
    assert WordPrefix(b) == b;
    assert b[|b|..] == [];
    assert Words([]) == [];
  }

  /** Splitting two words separated by one space gives back the two words. */
  lemma WordsOfPair(a: string, b: string)
    requires IsWord(a) && IsWord(b)
    ensures Words(a + " " + b) == [a, b]
  {
    var tail := " " + b;
    assert a + " " + b == a + tail;
    WordsAfterWord(a, tail);
    WordsOfSpacedWord(b);
  }
}
