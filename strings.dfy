/**
 * JavaScript string primitives the sources rely on: `trim`, `join`,
 * `split`, `startsWith`, `endsWith`, `includes`, decimal rendering of
 * numbers and ASCII `toLowerCase`.
 */
module Strings {

  /** The WhiteSpace and LineTerminator code points of ECMAScript; they are
      what `String.prototype.trim` removes and what `\s` matches. */
  predicate IsWs(c: char) {
    c == '\t' || c == '\n' || c == '\U{B}' || c == '\U{C}' || c == '\r' || c == ' ' ||
    c == '\U{A0}' || c == '\U{1680}' || ('\U{2000}' <= c <= '\U{200A}') ||
    c == '\U{2028}' || c == '\U{2029}' || c == '\U{202F}' || c == '\U{205F}' ||
    c == '\U{3000}' || c == '\U{FEFF}'
  }

  /** ECMAScript LineTerminator: where `^` and `$` match in a multiline regex. */
  predicate IsLineTerminator(c: char) {
    c == '\n' || c == '\r' || c == '\U{2028}' || c == '\U{2029}'
  }

  /** Number of leading whitespace characters. */
  function Lead(s: string): (n: nat)
    ensures n <= |s|
    ensures forall i | 0 <= i < n :: IsWs(s[i])
    ensures n < |s| ==> !IsWs(s[n])
  {
    if |s| > 0 && IsWs(s[0]) then 1 + Lead(s[1..]) else 0
  }

  /** Number of trailing whitespace characters. */
  function Trail(s: string): (n: nat)
    ensures n <= |s|
    ensures forall i | |s| - n <= i < |s| :: IsWs(s[i])
    ensures n < |s| ==> !IsWs(s[|s| - 1 - n])
  {
    if |s| > 0 && IsWs(s[|s| - 1]) then 1 + Trail(s[..|s| - 1]) else 0
  }

  predicate IsTrimmed(s: string) {
    s == [] || (!IsWs(s[0]) && !IsWs(s[|s| - 1]))
  }

  /** `String.prototype.trim`. */
  function Trim(s: string): string {
    var t := s[Lead(s)..];
    t[..|t| - Trail(t)]
  }

  /** Trim keeps a contiguous piece of its input and removes only whitespace around it. */
  lemma TrimSlice(s: string)
    ensures Lead(s) + |Trim(s)| <= |s|
    ensures Trim(s) == s[Lead(s)..Lead(s) + |Trim(s)|]
    ensures forall i | 0 <= i < Lead(s) :: IsWs(s[i])
    ensures forall i | Lead(s) + |Trim(s)| <= i < |s| :: IsWs(s[i])
  {
    var l := Lead(s);
    var t := s[l..];
    var n := |t| - Trail(t);
    assert Trim(s) == t[..n];
    assert t[..n] == s[l..l + n];
    forall i | l + n <= i < |s|
      ensures IsWs(s[i])
    {
      assert s[i] == t[i - l];
    }
  }

  lemma TrimIsTrimmed(s: string)
    ensures IsTrimmed(Trim(s))
  {
    var t := s[Lead(s)..];
    var r := t[..|t| - Trail(t)];
    if r != [] {
      assert r[0] == t[0];
      assert r[|r| - 1] == t[|t| - 1 - Trail(t)];
    }
  }

  /** A trimmed string is a fixed point of Trim, and only a trimmed one is. */
  lemma TrimFixpoint(s: string)
    ensures Trim(s) == s <==> IsTrimmed(s)
  {
    TrimIsTrimmed(s);
    if IsTrimmed(s) {
      assert Lead(s) == 0;
      assert Trail(s) == 0;
    }
  }

  lemma TrimIdempotent(s: string)
    ensures Trim(Trim(s)) == Trim(s)
  {
    TrimIsTrimmed(s);
    TrimFixpoint(Trim(s));
  }

  /** An all-whitespace string trims to the empty string and nothing else does. */
  lemma TrimEmpty(s: string)
    ensures Trim(s) == [] <==> forall i | 0 <= i < |s| :: IsWs(s[i])
  {
    TrimSlice(s);
    if Trim(s) != [] {
      assert !IsWs(s[Lead(s)]);
    }
  }

  /** A string that trims to nothing. */
  predicate IsBlank(s: string) {
    Trim(s) == []
  }

  /** `Array.prototype.join`. */
  function Join(parts: seq<string>, sep: string): string {
    if |parts| == 0 then []
    else if |parts| == 1 then parts[0]
    else parts[0] + sep + Join(parts[1..], sep)
  }

  /** A join begins with its first piece. */
  lemma JoinStartsWith(parts: seq<string>, sep: string)
    requires |parts| > 0
    ensures StartsWith(Join(parts, sep), parts[0])
  {
  }

  /** Position of the first `c` in `s`, if any. */
  function IndexOf(s: string, c: char): (k: int)
    ensures -1 <= k < |s|
    ensures k >= 0 ==> s[k] == c && forall i | 0 <= i < k :: s[i] != c
    ensures k < 0 ==> forall i | 0 <= i < |s| :: s[i] != c
  {
    if |s| == 0 then -1
    else if s[0] == c then 0
    else var k := IndexOf(s[1..], c); if k < 0 then -1 else k + 1
  }

  /** No piece holds the character `c`. */
  predicate FreeOf(parts: seq<string>, c: char) {
    forall i, j | 0 <= i < |parts| && 0 <= j < |parts[i]| :: parts[i][j] != c
  }

  /** A text without `c` in it. */
  predicate Lacks(s: string, c: char) {
    forall j | 0 <= j < |s| :: s[j] != c
  }

  /** `String.prototype.split` with a one-character separator. */
  function Split(s: string, c: char): (r: seq<string>)
    ensures |r| >= 1
    ensures FreeOf(r, c)
    decreases |s|
  {
    var k := IndexOf(s, c);
    if k < 0 then [s]
    else
      var rest := Split(s[k + 1..], c);
      LacksPrefix(s, k, c);
      FreeOfCons(s[..k], rest, c);
      [s[..k]] + rest
  }

  /** The text before the first `c` holds no `c`. */
  lemma LacksPrefix(s: string, k: nat, c: char)
    requires k <= |s| && forall i | 0 <= i < k :: s[i] != c
    ensures Lacks(s[..k], c)
  {
    assert forall j | 0 <= j < k :: s[..k][j] == s[j];
  }

  lemma FreeOfCons(p: string, rest: seq<string>, c: char)
    requires Lacks(p, c) && FreeOf(rest, c)
    ensures FreeOf([p] + rest, c)
  {
    var parts := [p] + rest;
    forall i, j | 0 <= i < |parts| && 0 <= j < |parts[i]|
      ensures parts[i][j] != c
    {
      if i > 0 {
        assert parts[i] == rest[i - 1];
      }
    }
  }

  lemma FreeOfTail(parts: seq<string>, c: char)
    requires |parts| >= 1 && FreeOf(parts, c)
    ensures Lacks(parts[0], c) && FreeOf(parts[1..], c)
  {
    forall i | 0 <= i < |parts| - 1
      ensures parts[1..][i] == parts[i + 1]
    {
    }
  }

  /** The first `c` is found where it is. */
  lemma IndexOfAt(s: string, k: nat, c: char)
    requires k < |s| && s[k] == c && forall i | 0 <= i < k :: s[i] != c
    ensures IndexOf(s, c) == k
  {
    var r := IndexOf(s, c);
    assert r >= 0 && !(r < k) && !(r > k);
  }

  /** A text without `c` splits into itself alone. */
  lemma SplitLacking(s: string, c: char)
    requires Lacks(s, c)
    ensures Split(s, c) == [s]
  {
    var k := IndexOf(s, c);
    assert k < 0;
  }

  /** Splitting `p c rest`, with no `c` in `p`, gives `p` and then the pieces of `rest`. */
  lemma SplitAt(p: string, c: char, rest: string)
    requires Lacks(p, c)
    ensures Split(p + [c] + rest, c) == [p] + Split(rest, c)
  {
    var s := p + [c] + rest;
    var k := |p|;
    assert s[k] == c;
    assert forall i | 0 <= i < k :: s[i] == p[i];
    IndexOfAt(s, k, c);
    assert s[..k] == p;
    assert s[k + 1..] == rest;
  }

  lemma JoinCons(p: string, rest: seq<string>, sep: string)
    requires |rest| >= 1
    ensures Join([p] + rest, sep) == p + sep + Join(rest, sep)
  {
    var parts := [p] + rest;
    assert parts[0] == p && parts[1..] == rest;
  }

  /** The inverse of Split: joining the pieces with the separator restores the text. */
  lemma {:induction false} SplitJoin(s: string, c: char)
    ensures Join(Split(s, c), [c]) == s
    decreases |s|
  {
    var k := IndexOf(s, c);
    if k >= 0 {
      var rest := Split(s[k + 1..], c);
      SplitJoin(s[k + 1..], c);
      JoinCons(s[..k], rest, [c]);
      assert s == s[..k] + [c] + s[k + 1..];
    }
  }

  /** The other inverse: pieces free of the separator are recovered by splitting their join. */
  lemma {:induction false} JoinSplit(parts: seq<string>, c: char)
    requires |parts| >= 1 && FreeOf(parts, c)
    ensures Split(Join(parts, [c]), c) == parts
    decreases |parts|
  {
    FreeOfTail(parts, c);
    if |parts| == 1 {
      SplitLacking(parts[0], c);
    } else {
      var rest := Join(parts[1..], [c]);
      assert Join(parts, [c]) == parts[0] + [c] + rest;
      SplitAt(parts[0], c, rest);
      JoinSplit(parts[1..], c);
      assert parts == [parts[0]] + parts[1..];
    }
  }

  predicate StartsWith(s: string, prefix: string) {
    |prefix| <= |s| && s[..|prefix|] == prefix
  }

  /** A prefix of a prefix is a prefix. */
  lemma StartsWithTrans(s: string, t: string, u: string)
    requires StartsWith(s, t) && StartsWith(t, u)
    ensures StartsWith(s, u)
  {
    assert s[..|u|] == t[..|t|][..|u|];
  }

  predicate EndsWith(s: string, suffix: string) {
    |suffix| <= |s| && s[|s| - |suffix|..] == suffix
  }

  /** `String.prototype.includes`. */
  predicate Contains(s: string, part: string)
    decreases |s|
  {
    StartsWith(s, part) || (|s| > 0 && Contains(s[1..], part))
  }

  predicate IsDigit(c: char) {
    '0' <= c <= '9'
  }

  predicate AllDigits(s: string) {
    forall i | 0 <= i < |s| :: IsDigit(s[i])
  }

  function DigitChar(d: nat): (c: char)
    requires d < 10
    ensures IsDigit(c)
  {
    ['0', '1', '2', '3', '4', '5', '6', '7', '8', '9'][d]
  }

  function DigitValue(c: char): nat
    requires IsDigit(c)
  {
    (c as int - '0' as int) as nat
  }

  /** `parseInt(s, 10)` on a string of decimal digits. */
  function DigitsValue(s: string): nat
    requires AllDigits(s)
  {
    if s == [] then 0 else DigitsValue(s[..|s| - 1]) * 10 + DigitValue(s[|s| - 1])
  }

  /** Decimal rendering of a non-negative integer, as `${n}` gives it. */
  function NatToString(n: nat): (s: string)
    ensures |s| >= 1 && AllDigits(s)
  {
    if n < 10 then [DigitChar(n)] else NatToString(n / 10) + [DigitChar(n % 10)]
  }

  /** Decimal rendering of an integer, as `${n}` gives it. */
  function IntToString(n: int): string {
    if n < 0 then "-" + NatToString(-n) else NatToString(n)
  }

  /** Reading back a rendered number gives the number. */
  lemma {:induction false} NatToStringValue(n: nat)
    ensures DigitsValue(NatToString(n)) == n
  {
    var s := NatToString(n);
    if n < 10 {
      assert s[..0] == [];
    } else {
      NatToStringValue(n / 10);
      assert s[..|s| - 1] == NatToString(n / 10);
    }
  }

  /** A rendered number has a leading zero only when it is zero. */
  lemma {:induction false} NatToStringNoLeadingZero(n: nat)
    ensures NatToString(n)[0] == '0' <==> n == 0
  {
    if n >= 10 {
      NatToStringNoLeadingZero(n / 10);
    }
  }

  /** ASCII part of `String.prototype.toLowerCase`. */
  function LowerChar(c: char): char {
    if 'A' <= c <= 'Z' then (c as int + 32) as char else c
  }

  function ToLower(s: string): (r: string)
    ensures |r| == |s| && forall i | 0 <= i < |s| :: r[i] == LowerChar(s[i])
  {
    seq(|s|, i requires 0 <= i < |s| => LowerChar(s[i]))
  }
}
