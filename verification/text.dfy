/**
 * The JavaScript string operations the application relies on, over `string`
 * (a sequence of characters): `includes`, `startsWith`, `endsWith`, `trim`,
 * `replace` with a string pattern, `join`, `split`, ASCII `toLowerCase` and
 * decimal rendering of a natural number.
 */
module Text {

  /** `t` occurs in `s` starting at index `i`. */
  predicate OccursAt(s: string, t: string, i: int) {
    0 <= i && i + |t| <= |s| && s[i..i + |t|] == t
  }

  /** `s.includes(t)`: `t` occurs somewhere in `s`. */
  predicate Contains(s: string, t: string) {
    exists i :: 0 <= i <= |s| && OccursAt(s, t, i)
  }

  predicate StartsWith(s: string, t: string) {
    |t| <= |s| && s[..|t|] == t
  }

  predicate EndsWith(s: string, t: string) {
    |t| <= |s| && s[|s| - |t|..] == t
  }

  /**
   * The characters `String.prototype.trim` removes: the ECMAScript WhiteSpace
   * code points (tab, vertical tab, form feed, space, no-break space, byte order
   * mark and the Unicode space separators) and the four line terminators.
   */
  predicate IsWhitespace(c: char) {
    || c == '\U{9}' || c == '\U{A}' || c == '\U{B}' || c == '\U{C}' || c == '\U{D}'
    || c == ' ' || c == '\U{A0}' || c == '\U{1680}'
    || ('\U{2000}' <= c <= '\U{200A}')
    || c == '\U{2028}' || c == '\U{2029}' || c == '\U{202F}' || c == '\U{205F}'
    || c == '\U{3000}' || c == '\U{FEFF}'
  }

  function TrimStart(s: string): (r: string)
    ensures |r| <= |s| && r == s[|s| - |r|..]
    ensures r == [] || !IsWhitespace(r[0])
    ensures forall i :: 0 <= i < |s| - |r| ==> IsWhitespace(s[i])
  {
    if |s| > 0 && IsWhitespace(s[0]) then TrimStart(s[1..]) else s
  }

  function TrimEnd(s: string): (r: string)
    ensures |r| <= |s| && r == s[..|r|]
    ensures r == [] || !IsWhitespace(r[|r| - 1])
    ensures forall i :: |r| <= i < |s| ==> IsWhitespace(s[i])
  {
    if |s| > 0 && IsWhitespace(s[|s| - 1]) then TrimEnd(s[..|s| - 1]) else s
  }

  /**
   * `r` is the slice of `s` starting at `i` with only whitespace before it
   * and after it.
   */
  ghost predicate TrimmedAt(s: string, r: string, i: int) {
    && OccursAt(s, r, i)
    && (forall k :: 0 <= k < i ==> IsWhitespace(s[k]))
    && (forall k :: i + |r| <= k < |s| ==> IsWhitespace(s[k]))
  }

  /** Neither end of `r` is whitespace. */
  predicate EndsTrimmed(r: string) {
    r == [] || (!IsWhitespace(r[0]) && !IsWhitespace(r[|r| - 1]))
  }

  /** `s.trim()`: `s` with its leading and trailing whitespace removed. */
  function Trim(s: string): (r: string)
    ensures |r| <= |s|
    ensures EndsTrimmed(r)
    ensures TrimmedAt(s, r, |s| - |TrimStart(s)|)
  {
    TrimBothEnds(s);
    TrimEnd(TrimStart(s))
  }

  lemma TrimBothEnds(s: string)
    ensures TrimmedAt(s, TrimEnd(TrimStart(s)), |s| - |TrimStart(s)|)
  {
    TrimmedPieces(s, TrimStart(s), TrimEnd(TrimStart(s)));
  }

  /**
   * Cutting whitespace off the front of `s` to get `t` and then off the back
   * of `t` to get `r` leaves `r` as a slice of `s` with only whitespace around it.
   */
  lemma TrimmedPieces(s: string, t: string, r: string)
    requires |t| <= |s| && t == s[|s| - |t|..]
    requires forall k :: 0 <= k < |s| - |t| ==> IsWhitespace(s[k])
    requires |r| <= |t| && r == t[..|r|]
    requires forall k :: |r| <= k < |t| ==> IsWhitespace(t[k])
    ensures TrimmedAt(s, r, |s| - |t|)
  {
    var i := |s| - |t|;
    assert OccursAt(s, r, i) by {
      assert s[i..i + |r|] == s[i..][..|r|];
    }
    forall k | i + |r| <= k < |s|
      ensures IsWhitespace(s[k])
    {
      assert s[k] == t[k - i];
    }
  }

  /**
   * `Trim` keeps exactly the text between the leading and the trailing
   * whitespace: any slice of `s` with only whitespace around it and no
   * whitespace at its ends is `Trim(s)`.
   */
  lemma TrimUnique(s: string, r: string, i: int)
    requires TrimmedAt(s, r, i) && EndsTrimmed(r)
    ensures r == Trim(s)
  {
    var t := Trim(s);
    var j := |s| - |TrimStart(s)|;
    if r != [] && t != [] {
      assert s[i] == r[0] && s[j] == t[0];
      assert s[i + |r| - 1] == r[|r| - 1] && s[j + |t| - 1] == t[|t| - 1];
      assert i == j;
      assert |r| == |t|;
      assert r == s[i..i + |r|] == t;
    }
  }

  /** Index of the first occurrence of `t` in `s`, if any (`s.indexOf(t)`). */
  function IndexOf(s: string, t: string): (r: int)
    ensures r >= -1
    ensures r == -1 <==> !Contains(s, t)
    ensures r >= 0 ==> OccursAt(s, t, r)
    ensures r >= 0 ==> forall j :: 0 <= j < r ==> !OccursAt(s, t, j)
  {
    IndexFrom(s, t, 0)
  }

  function IndexFrom(s: string, t: string, k: nat): (r: int)
    requires forall j :: 0 <= j < k ==> !OccursAt(s, t, j)
    ensures r == -1 <==> !Contains(s, t)
    ensures r >= 0 ==> k <= r && OccursAt(s, t, r)
    ensures r >= 0 ==> forall j :: 0 <= j < r ==> !OccursAt(s, t, j)
    ensures r >= -1
    decreases |s| - k
  {
    if k + |t| > |s| then
      assert forall j :: k <= j ==> !OccursAt(s, t, j);
      -1
    else if s[k..k + |t|] == t then
      assert OccursAt(s, t, k);
      k
    else
      IndexFrom(s, t, k + 1)
  }

  /**
   * `s.replace(t, "")` with a string pattern: the first occurrence of `t` is
   * removed; a string without `t` is returned unchanged.
   */
  function RemoveFirst(s: string, t: string): (r: string)
    ensures !Contains(s, t) ==> r == s
    ensures Contains(s, t) ==> |r| == |s| - |t|
    ensures Contains(s, t) ==>
      var i := IndexOf(s, t);
      0 <= i <= |r| && s == r[..i] + t + r[i..]
  {
    var i := IndexOf(s, t);
    if i < 0 then s
    else
      var r := s[..i] + s[i + |t|..];
      assert s == r[..i] + t + r[i..];
      r
  }

  /** `xs.join(sep)`. */
  function Join(xs: seq<string>, sep: string): string {
    if |xs| == 0 then ""
    else if |xs| == 1 then xs[0]
    else xs[0] + sep + Join(xs[1..], sep)
  }

  /** The pieces with `p` put in front of every piece but the first. */
  function PrefixRest(xs: seq<string>, p: string): (r: seq<string>)
    ensures |r| == |xs|
    ensures |xs| > 0 ==> r[0] == xs[0]
    ensures forall i :: 1 <= i < |xs| ==> r[i] == p + xs[i]
  {
    if |xs| == 0 then [] else [xs[0]] + seq(|xs| - 1, i requires 0 <= i < |xs| - 1 => p + xs[i + 1])
  }

  /** Joining on `sep + p` is joining on `sep` after putting `p` in front of every piece but the first. */
  lemma {:induction false} JoinWider(xs: seq<string>, sep: string, p: string)
    ensures Join(xs, sep + p) == Join(PrefixRest(xs, p), sep)
  {
    if |xs| >= 2 {
      var ys := PrefixRest(xs[1..], p);
      JoinWider(xs[1..], sep, p);
      JoinPrefixFirst(ys, sep, p);
      assert PrefixRest(xs, p)[1..] == [p + ys[0]] + ys[1..];
      assert Join(PrefixRest(xs, p), sep) == xs[0] + sep + (p + Join(ys, sep));
    }
  }

  lemma JoinPrefixFirst(ys: seq<string>, sep: string, p: string)
    requires |ys| >= 1
    ensures Join([p + ys[0]] + ys[1..], sep) == p + Join(ys, sep)
  {
    var zs := [p + ys[0]] + ys[1..];
    assert zs[1..] == ys[1..];
  }

  /** `s.split(c)` for a one-character separator. */
  function Split(s: string, c: char): (r: seq<string>)
    ensures |r| >= 1
    ensures forall i :: 0 <= i < |r| ==> c !in r[i]
  {
    if c !in s then [s]
    else
      var i := FirstIndex(s, c);
      [s[..i]] + Split(s[i + 1..], c)
  }

  function FirstIndex(s: string, c: char): (i: nat)
    requires c in s
    ensures i < |s| && s[i] == c && c !in s[..i]
  {
    if s[0] == c then 0 else 1 + FirstIndex(s[1..], c)
  }

  /** Splitting on `c` inverts joining on `c`, provided no piece contains `c`. */
  lemma {:induction false} SplitJoin(xs: seq<string>, c: char)
    requires |xs| >= 1
    requires forall i :: 0 <= i < |xs| ==> c !in xs[i]
    ensures Split(Join(xs, [c]), c) == xs
  {
    if |xs| == 1 {
    } else {
      var rest := Join(xs[1..], [c]);
      assert Join(xs, [c]) == xs[0] + [c] + rest;
      assert c !in xs[0];
      SplitCons(xs[0], c, rest);
      SplitJoin(xs[1..], c);
      assert [xs[0]] + xs[1..] == xs;
    }
  }

  lemma FirstIndexAfterFree(a: string, c: char, b: string)
    requires c !in a
    ensures c in a + [c] + b
    ensures FirstIndex(a + [c] + b, c) == |a|
  {
    var s := a + [c] + b;
    assert s[|a|] == c;
    assert s[..|a|] == a;
  }

  /** Each line followed by a newline, concatenated: what repeated `text += `${line}\n`` builds. */
  function Lines(xs: seq<string>): string {
    if |xs| == 0 then "" else xs[0] + "\n" + Lines(xs[1..])
  }

  /** Text followed by lines ends with a newline when the text does. */
  lemma {:induction false} LinesEndsWithNewline(xs: seq<string>, before: string)
    requires |before| > 0 && before[|before| - 1] == '\n'
    ensures EndsWith(before + Lines(xs), "\n")
  {
    if |xs| > 0 {
      var rest := Lines(xs[1..]);
      assert before + Lines(xs) == (before + xs[0] + "\n") + rest;
      LinesEndsWithNewline(xs[1..], before + xs[0] + "\n");
    }
  }

  lemma {:induction false} LinesAppend(xs: seq<string>, ys: seq<string>)
    ensures Lines(xs + ys) == Lines(xs) + Lines(ys)
  {
    if |xs| == 0 {
      assert xs + ys == ys;
    } else {
      assert (xs + ys)[0] == xs[0];
      assert (xs + ys)[1..] == xs[1..] + ys;
      LinesAppend(xs[1..], ys);
    }
  }

  /** Reading newline-free lines back: splitting on newlines recovers them. */
  lemma {:induction false} SplitLines(xs: seq<string>, rest: string)
    requires forall i :: 0 <= i < |xs| ==> '\n' !in xs[i]
    ensures Split(Lines(xs) + rest, '\n') == xs + Split(rest, '\n')
  {
    if |xs| == 0 {
      assert Lines(xs) + rest == rest;
    } else {
      var tail := Lines(xs[1..]) + rest;
      assert Lines(xs) + rest == xs[0] + ['\n'] + tail;
      assert '\n' !in xs[0];
      SplitCons(xs[0], '\n', tail);
      SplitLines(xs[1..], rest);
      var after := Split(rest, '\n');
      assert Split(Lines(xs) + rest, '\n') == [xs[0]] + (xs[1..] + after);
      assert [xs[0]] + xs[1..] == xs;
      Assoc([xs[0]], xs[1..], after);
    }
  }

  lemma Assoc<T>(a: seq<T>, b: seq<T>, c: seq<T>)
    ensures a + (b + c) == (a + b) + c
  {
  }

  lemma SplitCons(a: string, c: char, b: string)
    requires c !in a
    ensures Split(a + [c] + b, c) == [a] + Split(b, c)
  {
    var s := a + [c] + b;
    FirstIndexAfterFree(a, c, b);
    assert s[..|a|] == a;
    assert s[|a| + 1..] == b;
  }

  /** The first piece of `a + [c] + b` split on `c` is `a`, when `a` has no `c`. */
  lemma SplitHead(a: string, c: char, b: string)
    requires c !in a
    ensures Split(a + [c] + b, c)[0] == a
  {
    FirstIndexAfterFree(a, c, b);
    assert (a + [c] + b)[..|a|] == a;
  }

  /** `email.split("@")[0]`: the text before the first `@`, or all of it. */
  function BeforeFirst(s: string, c: char): (r: string)
    ensures c !in r
    ensures StartsWith(s, r)
    ensures r == s || (|r| < |s| && s[|r|] == c)
  {
    Split(s, c)[0]
  }

  /** ASCII `toLowerCase` (see the README on why ASCII suffices here). */
  function ToLower(s: string): (r: string)
    ensures |r| == |s|
    ensures forall i :: 0 <= i < |s| ==> r[i] == LowerChar(s[i])
  {
    seq(|s|, i requires 0 <= i < |s| => LowerChar(s[i]))
  }

  function LowerChar(c: char): char {
    if 'A' <= c <= 'Z' then (c as int + 32) as char else c
  }

  /** Decimal rendering of a natural number, as template literals print it. */
  function NatToString(n: nat): (r: string)
    ensures |r| >= 1
    ensures forall i :: 0 <= i < |r| ==> '0' <= r[i] <= '9'
    ensures n > 0 ==> r[0] != '0'
  {
    if n < 10 then [Digit(n)] else NatToString(n / 10) + [Digit(n % 10)]
  }

  function Digit(d: nat): (c: char)
    requires d < 10
    ensures '0' <= c <= '9'
    ensures c as int - '0' as int == d
  {
    ('0' as int + d) as char
  }

  /** Reads a decimal string back; the inverse of `NatToString`. */
  function ParseNat(s: string): nat
    requires forall i :: 0 <= i < |s| ==> '0' <= s[i] <= '9'
  {
    if |s| == 0 then 0 else 10 * ParseNat(s[..|s| - 1]) + (s[|s| - 1] as int - '0' as int)
  }

  lemma {:induction false} NatToStringRoundTrip(n: nat)
    ensures ParseNat(NatToString(n)) == n
  {
    var s := NatToString(n);
    if n >= 10 {
      assert s[..|s| - 1] == NatToString(n / 10);
      NatToStringRoundTrip(n / 10);
    } else {
      assert s[..0] == [];
    }
  }
}
