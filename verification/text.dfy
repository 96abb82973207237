/** String primitives of Python and JavaScript that the modelled code relies on.

    Strings are sequences of Unicode scalar values, as Python `str` and (for the characters the
    client handles) JavaScript strings index them. */
module Text {

  /** Which language's notion of whitespace a strip uses. */
  datatype Dialect = Python | JavaScript

  /** Python `str.isspace()`: the characters `str.strip()` removes. */
  predicate IsPySpace(c: char) {
    var n := c as int;
    (0x09 <= n <= 0x0D) || (0x1C <= n <= 0x20) || n == 0x85 || n == 0xA0 || n == 0x1680
    || (0x2000 <= n <= 0x200A) || n == 0x2028 || n == 0x2029 || n == 0x202F || n == 0x205F
    || n == 0x3000
  }

  /** ECMAScript WhiteSpace and LineTerminator: the characters `String.prototype.trim` removes. */
  predicate IsJsSpace(c: char) {
    var n := c as int;
    n == 0x09 || n == 0x0A || n == 0x0B || n == 0x0C || n == 0x0D || n == 0x20 || n == 0xA0
    || n == 0x1680 || (0x2000 <= n <= 0x200A) || n == 0x2028 || n == 0x2029 || n == 0x202F
    || n == 0x205F || n == 0x3000 || n == 0xFEFF
  }

  predicate IsSpace(d: Dialect, c: char) {
    match d
    case Python => IsPySpace(c)
    case JavaScript => IsJsSpace(c)
  }

  predicate AllSpace(d: Dialect, s: string) {
    forall i :: 0 <= i < |s| ==> IsSpace(d, s[i])
  }

  /** Neither end of `s` is whitespace: what a strip leaves behind. */
  predicate Stripped(d: Dialect, s: string) {
    s == [] || (!IsSpace(d, s[0]) && !IsSpace(d, s[|s| - 1]))
  }

  /** End of the whitespace run that starts at `k`. */
  function SpaceRunEnd(d: Dialect, s: string, k: nat): (n: nat)
    requires k <= |s|
    ensures k <= n <= |s|
    ensures forall j :: k <= j < n ==> IsSpace(d, s[j])
    ensures n < |s| ==> !IsSpace(d, s[n])
    decreases |s| - k
  {
    if k < |s| && IsSpace(d, s[k]) then SpaceRunEnd(d, s, k + 1) else k
  }

  /** Start of the whitespace run that ends at `hi`, not looking below `lo`. */
  function SpaceRunStart(d: Dialect, s: string, lo: nat, hi: nat): (n: nat)
    requires lo <= hi <= |s|
    ensures lo <= n <= hi
    ensures forall j :: n <= j < hi ==> IsSpace(d, s[j])
    ensures lo < n ==> !IsSpace(d, s[n - 1])
    decreases hi - lo
  {
    if lo < hi && IsSpace(d, s[hi - 1]) then SpaceRunStart(d, s, lo, hi - 1) else hi
  }

  /** Number of whitespace characters `s` starts with. */
  function LeadingSpace(d: Dialect, s: string): (n: nat)
    ensures n <= |s| && AllSpace(d, s[..n])
    ensures n < |s| ==> !IsSpace(d, s[n])
  {
    SpaceRunEnd(d, s, 0)
  }

  /** Python `s.strip()` and JavaScript `s.trim()`: `s` with the whitespace at both ends deleted
      and nothing else touched. */
  function StripWith(d: Dialect, s: string): (r: string)
    ensures Stripped(d, r)
    ensures var i := LeadingSpace(d, s);
      i + |r| <= |s| && r == s[i..i + |r|] && AllSpace(d, s[i + |r|..])
    ensures r == [] <==> AllSpace(d, s)
  {
    var i := LeadingSpace(d, s);
    var j := SpaceRunStart(d, s, i, |s|);
    StripEmptyIffAllSpace(d, s, i, j);
    s[i..j]
  }

  /** A strip that keeps nothing leaves exactly the all-whitespace texts. */
  lemma StripEmptyIffAllSpace(d: Dialect, s: string, i: nat, j: nat)
    requires i == LeadingSpace(d, s) && j == SpaceRunStart(d, s, i, |s|)
    ensures i == j <==> AllSpace(d, s)
  {
    if i == j {
      forall k | 0 <= k < |s| ensures IsSpace(d, s[k]) {
        if k < i { assert s[..i][k] == s[k]; }
      }
    }
  }

  /** Python `str.strip()` with no argument. */
  function Strip(s: string): string {
    StripWith(Python, s)
  }

  /** JavaScript `String.prototype.trim()`. */
  function Trim(s: string): string {
    StripWith(JavaScript, s)
  }

  /** A whitespace-free string is its own strip. */
  lemma StripFixesStripped(d: Dialect, s: string)
    requires Stripped(d, s)
    ensures StripWith(d, s) == s
  {
  }

  /** Stripping twice is stripping once. */
  lemma StripIdempotent(d: Dialect, s: string)
    ensures StripWith(d, StripWith(d, s)) == StripWith(d, s)
  {
    StripFixesStripped(d, StripWith(d, s));
  }

  function LowerChar(c: char): (r: char)
    ensures 'A' <= c <= 'Z' ==> 'a' <= r <= 'z'
    ensures !('A' <= c <= 'Z') ==> r == c
  {
    if 'A' <= c <= 'Z' then (c as int + 32) as char else c
  }

  function UpperChar(c: char): (r: char)
    ensures 'a' <= c <= 'z' ==> 'A' <= r <= 'Z'
    ensures !('a' <= c <= 'z') ==> r == c
  {
    if 'a' <= c <= 'z' then (c as int - 32) as char else c
  }

  /** Python `str.lower()` restricted to ASCII letters. */
  function Lower(s: string): (r: string)
    ensures |r| == |s|
    ensures forall i :: 0 <= i < |s| ==> r[i] == LowerChar(s[i])
  {
    if s == [] then [] else [LowerChar(s[0])] + Lower(s[1..])
  }

  /** Python `str.capitalize()` restricted to ASCII letters: first letter upper, the rest lower. */
  function Capitalize(s: string): (r: string)
    ensures |r| == |s|
    ensures s != [] ==> r[0] == UpperChar(s[0]) && r[1..] == Lower(s[1..])
  {
    if s == [] then [] else [UpperChar(s[0])] + Lower(s[1..])
  }

  predicate StartsWith(s: string, prefix: string) {
    |prefix| <= |s| && s[..|prefix|] == prefix
  }

  /** Position of the first `c` in `s`. */
  function IndexOf(s: string, c: char): (k: nat)
    requires c in s
    ensures k < |s| && s[k] == c && c !in s[..k]
  {
    if s[0] == c then 0 else 1 + IndexOf(s[1..], c)
  }

  /** Python `sep.join(parts)` for a one-character separator. */
  function Join(parts: seq<string>, sep: char): string {
    if |parts| == 0 then ""
    else if |parts| == 1 then parts[0]
    else parts[0] + [sep] + Join(parts[1..], sep)
  }

  /** Python `s.split(sep)` for a one-character separator: the pieces between separators, so
      there is always at least one piece, and joining them back gives `s`. */
  function Split(s: string, sep: char): (r: seq<string>)
    ensures |r| >= 1
    ensures forall i :: 0 <= i < |r| ==> sep !in r[i]
    ensures Join(r, sep) == s
    ensures sep !in s ==> r == [s]
    decreases |s|
  {
    if sep in s then
      var k := IndexOf(s, sep);
      var rest := Split(s[k + 1..], sep);
      assert s == s[..k] + [sep] + s[k + 1..];
      [s[..k]] + rest
    else
      [s]
  }

  /** Splitting undoes joining when no piece contains the separator. */
  lemma {:induction false} SplitJoin(parts: seq<string>, sep: char)
    requires |parts| >= 1
    requires forall i :: 0 <= i < |parts| ==> sep !in parts[i]
    ensures Split(Join(parts, sep), sep) == parts
    decreases |parts|
  {
    if |parts| > 1 {
      var rest := Join(parts[1..], sep);
      assert Join(parts, sep) == parts[0] + [sep] + rest;
      SplitAfterSeparator(parts[0], rest, sep);
      SplitJoin(parts[1..], sep);
      assert parts == [parts[0]] + parts[1..];
    }
  }

  /** The first occurrence of `c` in `a + b`, when `a` has none, is the first one in `b`. */
  lemma IndexOfAfter(a: string, b: string, c: char)
    requires c !in a && c in b
    ensures c in a + b && IndexOf(a + b, c) == |a| + IndexOf(b, c)
  {
    var s := a + b;
    var k := IndexOf(b, c);
    assert s[|a| + k] == c;
    var m := IndexOf(s, c);
    assert s[..|a| + k] == a + b[..k];
  }

  /** Text before the first separator stays in the first piece. */
  lemma SplitHeadConcat(a: string, b: string, sep: char)
    requires sep !in a
    ensures Split(a + b, sep)[0] == a + Split(b, sep)[0]
  {
    if sep in b {
      IndexOfAfter(a, b, sep);
      var k := IndexOf(b, sep);
      assert (a + b)[..|a| + k] == a + b[..k];
    } else {
      assert sep !in a + b;
    }
  }

  /** Splitting text that begins with a separator-free piece and a separator. */
  lemma SplitAfterSeparator(a: string, b: string, sep: char)
    requires sep !in a
    ensures Split(a + [sep] + b, sep) == [a] + Split(b, sep)
  {
    var s := a + [sep] + b;
    IndexOfAfter(a, [sep] + b, sep);
    assert s == a + ([sep] + b);
    assert (a + ([sep] + b))[..|a|] == a;
    assert (a + ([sep] + b))[|a| + 1..] == b;
  }

  /** The first piece is a prefix of the text. */
  lemma SplitHeadIsPrefix(s: string, sep: char)
    ensures Split(s, sep)[0] <= s
  {
  }

  /** `s.replace(from, to)` for a one-character pattern. */
  function ReplaceChar(s: string, from: char, to: string): (r: string)
    ensures from !in s ==> r == s
    ensures forall i :: 0 <= i < |r| ==> r[i] in to || (r[i] in s && r[i] != from)
    ensures from !in to ==> from !in r
  {
    if s == [] then []
    else (if s[0] == from then to else [s[0]]) + ReplaceChar(s[1..], from, to)
  }

  /** One character is replaced exactly when it is the pattern. */
  lemma ReplaceCharOne(c: char, from: char, to: string)
    ensures ReplaceChar([c], from, to) == if c == from then to else [c]
  {
    assert [c][1..] == [];
  }

  /** Replacing works piecewise: the text can be cut anywhere. With `ReplaceCharOne` this fixes
      the result of every text: each character replaced on its own, in order. */
  lemma {:induction false} ReplaceCharConcat(a: string, b: string, from: char, to: string)
    ensures ReplaceChar(a + b, from, to) == ReplaceChar(a, from, to) + ReplaceChar(b, from, to)
    decreases |a|
  {
    if a == [] {
      assert a + b == b;
    } else {
      var head := if a[0] == from then to else [a[0]];
      assert (a + b)[0] == a[0] && (a + b)[1..] == a[1..] + b;
      ReplaceCharConcat(a[1..], b, from, to);
      assert ReplaceChar(a + b, from, to) == head + (ReplaceChar(a[1..], from, to) + ReplaceChar(b, from, to));
      assert head + (ReplaceChar(a[1..], from, to) + ReplaceChar(b, from, to))
        == (head + ReplaceChar(a[1..], from, to)) + ReplaceChar(b, from, to);
    }
  }
}
