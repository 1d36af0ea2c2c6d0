/** Shared building blocks: an optional value, string helpers with the
    semantics of the JavaScript built-ins the shop relies on, order-keeping
    filters and a sort used wherever the database answers `ORDER BY`. */

module Wrappers {
  /** A value that may be absent (`null`/`undefined` in the shop's code). */
  datatype Option<+T> = None | Some(value: T)
}

module Text {
  import opened Wrappers

  /** `process.env.X || fallback`: an unset or empty variable gives the
      fallback. */
  function EnvOr(env: Option<string>, fallback: string): (r: string)
    ensures env.Some? && env.value != "" ==> r == env.value
    ensures env.None? || env.value == "" ==> r == fallback
  {
    if env.Some? && env.value != "" then env.value else fallback
  }

  /** `p` occurs in `s` starting at position `i`. */
  predicate OccursAt(s: string, p: string, i: nat) {
    i + |p| <= |s| && s[i..i + |p|] == p
  }

  predicate StartsWith(s: string, p: string) {
    OccursAt(s, p, 0)
  }

  predicate EndsWith(s: string, p: string) {
    |p| <= |s| && s[|s| - |p|..] == p
  }

  /** `p` is a substring of `s`: what an unanchored regular expression
      alternative tests. */
  predicate Contains(s: string, p: string) {
    exists i: nat | i <= |s| :: OccursAt(s, p, i)
  }

  /** The first occurrence of `p` in `s` at or after position `k`. */
  function IndexOfFrom(s: string, p: string, k: nat): (r: Option<nat>)
    decreases |s| - k
    ensures r.Some? ==> k <= r.value && OccursAt(s, p, r.value)
    ensures r.Some? ==> forall j: nat :: k <= j < r.value ==> !OccursAt(s, p, j)
    ensures r.None? ==> forall j: nat :: k <= j ==> !OccursAt(s, p, j)
  {
    if k + |p| > |s| then None
    else if s[k..k + |p|] == p then Some(k)
    else IndexOfFrom(s, p, k + 1)
  }

  /** `String.prototype.indexOf`, with `None` for -1. */
  function IndexOf(s: string, p: string): Option<nat> {
    IndexOfFrom(s, p, 0)
  }

  /** `s.replace(p, rep)` with a string pattern: only the first occurrence
      is replaced; without an occurrence `s` is returned unchanged. */
  function ReplaceFirst(s: string, p: string, rep: string): string {
    match IndexOf(s, p)
    case None => s
    case Some(i) => s[..i] + rep + s[i + |p|..]
  }

  lemma ContainsIffIndexOf(s: string, p: string)
    ensures Contains(s, p) <==> IndexOf(s, p).Some?
  {
    if IndexOf(s, p).Some? {
      assert OccursAt(s, p, IndexOf(s, p).value);
    }
  }

  /** `s.replace(p, '')` cuts out the occurrence of `p` with none before it. */
  lemma ReplaceFirstCutsFirst(s: string, p: string)
    ensures forall i: nat :: OccursAt(s, p, i) && (forall j: nat :: j < i ==> !OccursAt(s, p, j)) ==>
      ReplaceFirst(s, p, "") == s[..i] + s[i + |p|..]
  {
    forall i: nat | OccursAt(s, p, i) && (forall j: nat :: j < i ==> !OccursAt(s, p, j))
      ensures ReplaceFirst(s, p, "") == s[..i] + s[i + |p|..]
    {
      assert IndexOf(s, p).Some?;
      assert IndexOf(s, p) == Some(i);
      assert s[..i] + "" + s[i + |p|..] == s[..i] + s[i + |p|..];
    }
  }

  /** The characters JavaScript's `\s` and `parseInt` treat as white space
      (WhiteSpace and LineTerminator of ECMAScript). */
  predicate IsJsSpace(c: char) {
    c == '\t' || c == '\n' || c == '\U{B}' || c == '\U{C}' || c == '\r' || c == ' '
    || c == '\U{A0}' || c == '\U{1680}' || ('\U{2000}' <= c <= '\U{200A}')
    || c == '\U{2028}' || c == '\U{2029}' || c == '\U{202F}' || c == '\U{205F}'
    || c == '\U{3000}' || c == '\U{FEFF}'
  }

  /** Lower-cases the ASCII letters and leaves every other character alone. */
  function LowerAscii(c: char): (r: char)
    ensures 'A' <= c <= 'Z' ==> 'a' <= r <= 'z'
    ensures !('A' <= c <= 'Z') ==> r == c
  {
    if 'A' <= c <= 'Z' then (c as int + 32) as char else c
  }

  function ToLowerAscii(s: string): (r: string)
    ensures |r| == |s|
    ensures forall i :: 0 <= i < |s| ==> r[i] == LowerAscii(s[i])
  {
    seq(|s|, i requires 0 <= i < |s| => LowerAscii(s[i]))
  }

  predicate IsDigit(c: char) {
    '0' <= c <= '9'
  }

  /** The value of `c` as a digit in base 16 (and so also in base 10), or -1. */
  function HexValue(c: char): (v: int)
    ensures -1 <= v < 16
    ensures IsDigit(c) ==> v == c as int - '0' as int
    ensures 0 <= v < 10 <==> IsDigit(c)
  {
    if IsDigit(c) then c as int - '0' as int
    else if 'a' <= c <= 'f' then c as int - 'a' as int + 10
    else if 'A' <= c <= 'F' then c as int - 'A' as int + 10
    else -1
  }

  predicate IsRadixDigit(c: char, radix: nat) {
    0 <= HexValue(c) < radix
  }

  /** The number of leading characters of `s` that are digits in `radix`. */
  function DigitRun(s: string, radix: nat): (n: nat)
    ensures n <= |s|
    ensures forall i :: 0 <= i < n ==> IsRadixDigit(s[i], radix)
    ensures n < |s| ==> !IsRadixDigit(s[n], radix)
  {
    if s == [] || !IsRadixDigit(s[0], radix) then 0 else 1 + DigitRun(s[1..], radix)
  }

  /** The value of a string made of digits in `radix`, most significant first. */
  function DigitsValue(s: string, radix: nat): int
    requires forall i :: 0 <= i < |s| ==> IsRadixDigit(s[i], radix)
  {
    if s == [] then 0
    else DigitsValue(s[..|s| - 1], radix) * radix + HexValue(s[|s| - 1])
  }

  function TrimStart(s: string): (r: string)
    ensures |r| <= |s| && r == s[|s| - |r|..]
    ensures r != [] ==> !IsJsSpace(r[0])
  {
    if s != [] && IsJsSpace(s[0]) then TrimStart(s[1..]) else s
  }

  /** The digits part of `parseInt`: a `0x`/`0X` prefix switches to base 16,
      then the longest run of digits is read and anything after it ignored. */
  function ParseUnsigned(u: string): Option<int> {
    var hex := |u| >= 2 && u[0] == '0' && (u[1] == 'x' || u[1] == 'X');
    var radix := if hex then 16 else 10;
    var body := if hex then u[2..] else u;
    var n := DigitRun(body, radix);
    if n == 0 then None else Some(DigitsValue(body[..n], radix))
  }

  /** JavaScript's `parseInt(s)` without a radix argument, with `None` for
      `NaN`: leading white space is skipped and one sign is read before the
      digits. */
  function ParseInt(s: string): Option<int> {
    var t := TrimStart(s);
    if t != [] && t[0] == '-' then
      match ParseUnsigned(t[1..])
      case None => None
      case Some(v) => Some(-v)
    else if t != [] && t[0] == '+' then ParseUnsigned(t[1..])
    else ParseUnsigned(t)
  }

  /** `s` without the separator it may start with. */
  function TrimLeadingSlash(s: string): (r: string)
    ensures |r| <= |s| && r == s[|s| - |r|..]
  {
    if s != [] && s[0] == '/' then s[1..] else s
  }

  /** `s` without the separator it may end with. */
  function TrimTrailingSlash(s: string): (r: string)
    ensures |r| <= |s| && r == s[..|r|]
  {
    if s != [] && s[|s| - 1] == '/' then s[..|s| - 1] else s
  }

  /** Node's `path.join(base, relative)` for paths without `.` or `..`
      segments and without doubled separators, so at most one separator
      on each side of the seam: the parts meet at exactly one `/`. */
  function JoinPath(base: string, relative: string): string {
    TrimTrailingSlash(base) + "/" + TrimLeadingSlash(relative)
  }

  /** The joined path is the base, without a trailing separator, then one
      `/`, then the relative part without a leading one. */
  lemma JoinPathParts(base: string, relative: string)
    ensures var r := JoinPath(base, relative);
      && StartsWith(r, TrimTrailingSlash(base) + "/")
      && EndsWith(r, TrimLeadingSlash(relative))
      && |r| == |TrimTrailingSlash(base)| + 1 + |TrimLeadingSlash(relative)|
  {
    var head := TrimTrailingSlash(base) + "/";
    var tail := TrimLeadingSlash(relative);
    assert (head + tail)[..|head|] == head;
    assert (head + tail)[|head|..] == tail;
  }

  /** A separator at the seam does not matter: `path.join('/a/', '/b')` is
      `path.join('/a', 'b')`. */
  lemma JoinPathSeam(base: string, relative: string)
    requires base == [] || base[|base| - 1] != '/'
    requires relative == [] || relative[0] != '/'
    ensures JoinPath(base + "/", relative) == JoinPath(base, relative)
    ensures JoinPath(base, "/" + relative) == JoinPath(base, relative)
  {
    assert (base + "/")[..|base + "/"| - 1] == base;
    assert ("/" + relative)[1..] == relative;
  }

  /** A relative part with a leading separator is appended as it stands. */
  lemma JoinPathRooted(base: string, relative: string)
    requires relative != [] && relative[0] == '/'
    ensures JoinPath(base, relative) == TrimTrailingSlash(base) + relative
  {
    assert "/" + relative[1..] == relative;
  }

  function DigitChar(d: nat): (c: char)
    requires d < 10
    ensures IsDigit(c) && HexValue(c) == d
  {
    ('0' as int + d) as char
  }

  /** `String(n)` for a natural number: its decimal digits. */
  function NatToString(n: nat): (r: string)
    ensures |r| >= 1
    ensures forall i :: 0 <= i < |r| ==> IsDigit(r[i])
  {
    if n < 10 then [DigitChar(n)] else NatToString(n / 10) + [DigitChar(n % 10)]
  }

  /** `String(i)` for an integer. */
  function IntToString(i: int): (r: string)
    ensures i < 0 <==> (r != [] && r[0] == '-')
  {
    if i < 0 then "-" + NatToString(-i) else NatToString(i)
  }

  lemma {:induction false} DigitsValueOfNatToString(n: nat)
    ensures DigitsValue(NatToString(n), 10) == n
  {
    var r := NatToString(n);
    if n >= 10 {
      DigitsValueOfNatToString(n / 10);
      assert r[..|r| - 1] == NatToString(n / 10);
    }
  }

  /** Printing a natural number and reading it back with `parseInt` is the
      identity. */
  lemma ParseIntOfNatToString(n: nat)
    ensures ParseInt(NatToString(n)) == Some(n)
  {
    var s := NatToString(n);
    ParseIntOfDigits(s);
    DigitsValueOfNatToString(n);
  }

  /** A string of decimal digits reads as its decimal value. */
  lemma ParseIntOfDigits(s: string)
    requires s != [] && forall i :: 0 <= i < |s| ==> IsDigit(s[i])
    ensures forall i :: 0 <= i < |s| ==> IsRadixDigit(s[i], 10)
    ensures ParseInt(s) == Some(DigitsValue(s, 10))
  {
    assert !IsJsSpace(s[0]);
    assert TrimStart(s) == s;
    assert ParseInt(s) == ParseUnsigned(s) by {
      assert s[0] != '-' && s[0] != '+';
    }
    assert !(|s| >= 2 && s[0] == '0' && (s[1] == 'x' || s[1] == 'X')) by {
      if |s| >= 2 {
        assert IsDigit(s[1]);
      }
    }
    DigitRunOfDigits(s);
    assert s[..|s|] == s;
  }

  lemma {:induction false} DigitRunOfDigits(s: string)
    requires forall i :: 0 <= i < |s| ==> IsDigit(s[i])
    ensures DigitRun(s, 10) == |s|
  {
    if s != [] {
      DigitRunOfDigits(s[1..]);
    }
  }
}

module Seqs {
  import opened Wrappers

  /** `Array.prototype.findIndex`: the position of the first element that
      satisfies `p`, `None` for -1. */
  function IndexWhere<T>(s: seq<T>, p: T -> bool): (r: Option<nat>)
    ensures r.Some? ==> r.value < |s| && p(s[r.value])
    ensures r.Some? ==> forall j :: 0 <= j < r.value ==> !p(s[j])
    ensures r.None? <==> forall j :: 0 <= j < |s| ==> !p(s[j])
  {
    if s == [] then None
    else if p(s[0]) then Some(0)
    else
      match IndexWhere(s[1..], p)
      case None => None
      case Some(i) => Some(i + 1)
  }

  /** `r` is obtained from `s` by deleting elements, keeping the order of
      the rest. */
  predicate IsSubsequence<T(==)>(r: seq<T>, s: seq<T>)
    decreases |s|
  {
    r == [] || (s != [] && ((r[0] == s[0] && IsSubsequence(r[1..], s[1..])) || IsSubsequence(r, s[1..])))
  }

  /** `Array.prototype.filter`: the elements of `s` satisfying `p`, in
      their original order. */
  function Keep<T(==)>(s: seq<T>, p: T -> bool): (r: seq<T>)
    ensures IsSubsequence(r, s)
    ensures forall x :: x in r ==> x in s && p(x)
    ensures forall i :: 0 <= i < |s| && p(s[i]) ==> s[i] in r
    ensures (forall i :: 0 <= i < |s| ==> p(s[i])) ==> r == s
    ensures forall x :: x in s ==> multiset(r)[x] == if p(x) then multiset(s)[x] else 0
  {
    if s == [] then []
    else
      assert s == [s[0]] + s[1..];
      if p(s[0]) then [s[0]] + Keep(s[1..], p)
      else Keep(s[1..], p)
  }

  /** The key strictly grows along `s`. */
  predicate StrictlyIncreasing<T>(s: seq<T>, key: T -> int) {
    forall i, j :: 0 <= i < j < |s| ==> key(s[i]) < key(s[j])
  }

  /** Removing the element at `k` shifts the later ones down by one and
      keeps a strictly increasing key increasing, without the removed key. */
  lemma RemoveAt<T>(s: seq<T>, k: nat, key: T -> int)
    requires k < |s| && StrictlyIncreasing(s, key)
    ensures var r := s[..k] + s[k + 1..];
      && |r| == |s| - 1
      && (forall i :: 0 <= i < |r| ==> r[i] == if i < k then s[i] else s[i + 1])
      && StrictlyIncreasing(r, key)
      && (forall i :: 0 <= i < |r| ==> key(r[i]) != key(s[k]))
  {
    var r := s[..k] + s[k + 1..];
    assert forall i :: 0 <= i < |r| ==> r[i] == if i < k then s[i] else s[i + 1];
  }

  lemma {:induction false} SubsequenceMembers<T>(r: seq<T>, s: seq<T>)
    requires IsSubsequence(r, s)
    ensures forall x :: x in r ==> x in s
    decreases |s|
  {
    if r == [] {
    } else if r[0] == s[0] && IsSubsequence(r[1..], s[1..]) {
      SubsequenceMembers(r[1..], s[1..]);
      assert forall x :: x in r ==> x == r[0] || x in r[1..];
    } else {
      SubsequenceMembers(r, s[1..]);
    }
  }

  /** Deleting elements keeps a strictly increasing key strictly increasing:
      a filtered table stays in id order. */
  lemma {:induction false} SubsequenceIncreasing<T>(r: seq<T>, s: seq<T>, key: T -> int)
    requires IsSubsequence(r, s) && StrictlyIncreasing(s, key)
    ensures StrictlyIncreasing(r, key)
    decreases |s|
  {
    if r == [] {
    } else if r[0] == s[0] && IsSubsequence(r[1..], s[1..]) {
      SubsequenceIncreasing(r[1..], s[1..], key);
      SubsequenceMembers(r[1..], s[1..]);
      forall j | 0 < j < |r| ensures key(r[0]) < key(r[j]) {
        assert r[j] == r[1..][j - 1];
        assert r[j] in s[1..];
        var k :| 0 <= k < |s[1..]| && s[1..][k] == r[j];
        assert s[k + 1] == r[j];
      }
    } else {
      SubsequenceIncreasing(r, s[1..], key);
    }
  }

  function Reverse<T>(s: seq<T>): (r: seq<T>)
    ensures |r| == |s|
    ensures forall i :: 0 <= i < |s| ==> r[i] == s[|s| - 1 - i]
  {
    if s == [] then [] else Reverse(s[1..]) + [s[0]]
  }
}

module Sorting {
  /** Any two values are comparable under `le`. */
  ghost predicate IsTotal<T(!new)>(le: (T, T) -> bool) {
    forall a, b :: le(a, b) || le(b, a)
  }

  predicate SortedBy<T>(s: seq<T>, le: (T, T) -> bool) {
    forall i :: 0 < i < |s| ==> le(s[i - 1], s[i])
  }

  function InsertBy<T(==,!new)>(x: T, s: seq<T>, le: (T, T) -> bool): (r: seq<T>)
    requires IsTotal(le)
    ensures |r| == |s| + 1
    ensures multiset(r) == multiset(s) + multiset{x}
    ensures r[0] == x || (s != [] && r[0] == s[0])
    ensures SortedBy(s, le) ==> SortedBy(r, le)
  {
    if s == [] then [x]
    else if le(x, s[0]) then [x] + s
    else
      var rest := InsertBy(x, s[1..], le);
      assert s == [s[0]] + s[1..];
      [s[0]] + rest
  }

  /** The order-by of the database: a sorted permutation of `s`. */
  function SortBy<T(==,!new)>(s: seq<T>, le: (T, T) -> bool): (r: seq<T>)
    requires IsTotal(le)
    ensures SortedBy(r, le)
    ensures multiset(r) == multiset(s)
  {
    if s == [] then []
    else
      assert s == [s[0]] + s[1..];
      InsertBy(s[0], SortBy(s[1..], le), le)
  }
}
