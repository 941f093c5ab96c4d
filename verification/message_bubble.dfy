/**
 * src/components/MessageBubble.tsx: splitting a message into plain and bold
 * pieces at `**bold**` runs, and deciding whether to offer the
 * image-generation button.
 *
 * `content.split(/(\*\*[^*]+\*\*)/g)` is modelled by its scan: from each
 * position the regular expression either matches a bold run there or the scan
 * moves on by one character; with the capture group, every match is kept as a
 * part of its own between the texts around it.
 */
module MessageBubble {
  import opened Text
  import opened Types

  /** `**`, then at least one character other than `*`, then `**`. */
  predicate IsRun(t: string) {
    && |t| >= 5
    && t[0] == '*' && t[1] == '*' && t[|t| - 2] == '*' && t[|t| - 1] == '*'
    && forall k :: 2 <= k < |t| - 2 ==> t[k] != '*'
  }

  /** Where a bold run starting at `i` ends, or -1 when the expression does not match there. */
  function RunEnd(s: string, i: nat): (e: int)
    ensures e == -1 || (i + 5 <= e <= |s| && IsRun(s[i..e]))
    ensures e == -1 ==> forall b :: i <= b <= |s| ==> !IsRun(s[i..b])
  {
    if i + 1 < |s| && s[i] == '*' && s[i + 1] == '*' && '*' in s[i + 2..] then
      var j := i + 2 + FirstIndex(s[i + 2..], '*');
      assert forall k :: i + 2 <= k < j ==> s[k] == s[i + 2..][k - (i + 2)] && s[k] != '*';
      if j > i + 2 && j + 1 < |s| && s[j + 1] == '*' then j + 2 else -1
    else
      -1
  }

  /**
   * The split from text start `p`, trying a match at `q`: text parts at even
   * and runs at odd positions.
   */
  function Scan(s: string, p: nat, q: nat): (parts: seq<string>)
    requires p <= q <= |s|
    ensures |parts| % 2 == 1
    ensures forall k :: 0 <= k < |parts| && k % 2 == 1 ==> IsRun(parts[k])
    decreases |s| - q
  {
    if q == |s| then [s[p..]]
    else
      var e := RunEnd(s, q);
      if e >= 0 then [s[p..q], s[q..e]] + Scan(s, e, e)
      else Scan(s, p, q + 1)
  }

  /** `content.split(/(\*\*[^*]+\*\*)/g)`: texts and runs alternate, starting and ending with a text. */
  function Parts(s: string): (parts: seq<string>)
    ensures |parts| % 2 == 1
    ensures forall k :: 0 <= k < |parts| && k % 2 == 1 ==> IsRun(parts[k])
  {
    Scan(s, 0, 0)
  }

  function Concat(parts: seq<string>): string {
    if |parts| == 0 then "" else parts[0] + Concat(parts[1..])
  }

  /** No bold run lies inside `t`. */
  predicate RunFree(t: string) {
    forall a, b :: 0 <= a <= b <= |t| ==> !IsRun(t[a..b])
  }

  /** Splitting loses nothing. */
  lemma {:induction false} ScanConcat(s: string, p: nat, q: nat)
    requires p <= q <= |s|
    ensures Concat(Scan(s, p, q)) == s[p..]
    decreases |s| - q
  {
    if q == |s| {
      assert Scan(s, p, q) == [s[p..]];
    } else {
      var e := RunEnd(s, q);
      if e >= 0 {
        var rest := Scan(s, e, e);
        ScanConcat(s, e, e);
        var parts := [s[p..q], s[q..e]] + rest;
        assert Scan(s, p, q) == parts;
        assert parts[1..] == [s[q..e]] + rest;
        assert parts[1..][1..] == rest;
        assert Concat(parts) == s[p..q] + (s[q..e] + s[e..]);
        assert s[p..] == s[p..q] + (s[q..e] + s[e..]);
      } else {
        ScanConcat(s, p, q + 1);
      }
    }
  }

  /** No text part contains a bold run: the scan would have found it. */
  lemma {:induction false} ScanTextRunFree(s: string, p: nat, q: nat)
    requires p <= q <= |s|
    requires forall r :: p <= r < q ==> RunEnd(s, r) == -1
    ensures forall k :: 0 <= k < |Scan(s, p, q)| && k % 2 == 0 ==> RunFree(Scan(s, p, q)[k])
    decreases |s| - q
  {
    if q == |s| {
      TextRunFree(s, p, q);
      assert s[p..q] == s[p..];
      assert Scan(s, p, q) == [s[p..q]];
    } else {
      var e := RunEnd(s, q);
      if e >= 0 {
        var rest := Scan(s, e, e);
        ScanTextRunFree(s, e, e);
        TextRunFree(s, p, q);
        var parts := [s[p..q], s[q..e]] + rest;
        assert Scan(s, p, q) == parts;
        forall k | 0 <= k < |parts| && k % 2 == 0 ensures RunFree(parts[k]) {
          if k > 0 {
            assert parts[k] == rest[k - 2];
          }
        }
      } else {
        ScanTextRunFree(s, p, q + 1);
      }
    }
  }

  /** The text between `p` and `q` holds no run when none starts in it. */
  lemma TextRunFree(s: string, p: nat, q: nat)
    requires p <= q <= |s|
    requires forall r :: p <= r < q ==> RunEnd(s, r) == -1
    ensures RunFree(s[p..q])
  {
    var t := s[p..q];
    forall a, b | 0 <= a <= b <= |t| ensures !IsRun(t[a..b]) {
      assert forall k :: 0 <= k < b - a ==> t[a..b][k] == s[p + a + k];
      assert t[a..b] == s[p + a..p + b];
      if a < |t| {
        assert RunEnd(s, p + a) == -1;
      } else {
        assert |t[a..b]| == 0;
      }
    }
  }

  /** The split of a whole message: lossless, runs at odd positions, none in the text. */
  lemma PartsProperties(s: string)
    ensures Concat(Parts(s)) == s
    ensures |Parts(s)| % 2 == 1
    ensures forall k :: 0 <= k < |Parts(s)| ==> (k % 2 == 1 ==> IsRun(Parts(s)[k])) && (k % 2 == 0 ==> RunFree(Parts(s)[k]))
  {
    ScanConcat(s, 0, 0);
    ScanTextRunFree(s, 0, 0);
  }

  datatype Piece = Plain(text: string) | Bold(text: string)

  /** JavaScript's `t.slice(2, -2)`. */
  function Inner(t: string): (r: string)
    ensures |t| >= 4 ==> r == t[2..|t| - 2]
    ensures |t| < 4 ==> r == ""
  {
    if |t| >= 4 then t[2..|t| - 2] else ""
  }

  /** `formatContent` as written: any part that starts and ends with `**` is shown bold. */
  function FormatAsWritten(parts: seq<string>): (r: seq<Piece>)
    ensures |r| == |parts|
    ensures forall k :: 0 <= k < |parts| ==>
      r[k] == (if StartsWith(parts[k], "**") && EndsWith(parts[k], "**") then Bold(Inner(parts[k])) else Plain(parts[k]))
  {
    seq(|parts|, k requires 0 <= k < |parts| =>
      if StartsWith(parts[k], "**") && EndsWith(parts[k], "**") then Bold(Inner(parts[k])) else Plain(parts[k]))
  }

  /** `formatContent` as intended: exactly the matched runs are bold, without their markers. */
  function Format(parts: seq<string>): (r: seq<Piece>)
    ensures |r| == |parts|
    ensures forall k :: 0 <= k < |parts| && k % 2 == 0 ==> r[k] == Plain(parts[k])
    ensures forall k :: 0 <= k < |parts| && k % 2 == 1 && IsRun(parts[k]) ==>
      r[k].Bold? && "**" + r[k].text + "**" == parts[k] && '*' !in r[k].text
  {
    seq(|parts|, k requires 0 <= k < |parts| =>
      if k % 2 == 1 then Bold(Inner(parts[k])) else Plain(parts[k]))
  }

  /** What a piece stood for in the message. */
  function Source(pieces: seq<Piece>): string {
    if |pieces| == 0 then ""
    else
      (match pieces[0] case Plain(t) => t case Bold(t) => "**" + t + "**") + Source(pieces[1..])
  }

  /**
   * The intended rendering shows every character of the message, each bold
   * piece being a run without its markers: putting the markers back gives the
   * message.
   */
  lemma FormatRoundTrip(s: string)
    ensures Source(Format(Parts(s))) == s
    ensures forall k :: 0 <= k < |Parts(s)| && Format(Parts(s))[k].Bold? ==>
      Format(Parts(s))[k].text != "" && '*' !in Format(Parts(s))[k].text
  {
    PartsProperties(s);
    SourceFormat(Parts(s), 0);
  }

  lemma {:induction false} SourceFormat(parts: seq<string>, from: nat)
    requires from <= |parts|
    requires forall k :: 0 <= k < |parts| && k % 2 == 1 ==> IsRun(parts[k])
    ensures Source(Format(parts)[from..]) == Concat(parts[from..])
    decreases |parts| - from
  {
    if from < |parts| {
      SourceFormat(parts, from + 1);
      var t := parts[from];
      assert Format(parts)[from..][1..] == Format(parts)[from + 1..];
      assert parts[from..][1..] == parts[from + 1..];
      if from % 2 == 1 {
        assert t == "**" + Inner(t) + "**";
      }
    }
  }

  /**
   * On the matched runs the code as written agrees with the intended
   * rendering; the two differ only on text parts that happen to start and end
   * with `**`.
   */
  lemma AsWrittenAgreesOnRuns(s: string, k: nat)
    requires k < |Parts(s)|
    requires k % 2 == 1 || !(StartsWith(Parts(s)[k], "**") && EndsWith(Parts(s)[k], "**"))
    ensures FormatAsWritten(Parts(s))[k] == Format(Parts(s))[k]
  {
    PartsProperties(s);
  }

  /**
   * A message that is just `**` has no bold run, yet the code as written
   * renders it as an empty bold element, so the two asterisks disappear.
   */
  lemma LoneMarkersVanish()
    ensures Parts("**") == ["**"]
    ensures FormatAsWritten(Parts("**")) == [Bold("")]
    ensures Format(Parts("**")) == [Plain("**")]
  {
    assert RunEnd("**", 0) == -1;
    assert RunEnd("**", 1) == -1;
    assert Scan("**", 0, 0) == Scan("**", 0, 1) == Scan("**", 0, 2) == ["**"];
    assert StartsWith("**", "**") && EndsWith("**", "**");
  }

  const PhraseMakeImage := "完成イメージ画像を作って"
  const PhraseShallWe := "画像を作ってみましょうか"

  /** `hasImageGenerationPrompt`. */
  predicate HasImageGenerationPrompt(content: string) {
    Contains(content, PhraseMakeImage) || Contains(content, PhraseShallWe)
  }

  /** `showGenerateButton`: an assistant message proposing an image, with a handler to call. */
  function ShowGenerateButton(m: Message, hasHandler: bool): (show: bool)
    ensures show <==> (m.role == Assistant && hasHandler
                       && (Contains(m.content, PhraseMakeImage) || Contains(m.content, PhraseShallWe)))
  {
    m.role != User && HasImageGenerationPrompt(m.content) && hasHandler
  }
}
