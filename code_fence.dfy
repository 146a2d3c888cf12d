/** How the assistant's replies are cut into prose and code
    (`formatMessageContent`, AICodeAssistant.jsx:36-81).

    The reply is split with the global pattern "three backticks, one or more
    characters other than a backtick, three backticks", whose match is
    captured and so kept in the result. `String.prototype.split` with a
    regular expression (section 22.2.6.14 of ECMAScript, `RegExp.prototype
    [ @@split ]`) tries the pattern at each position from left to right,
    anchored there; each match cuts off the text before it and is itself
    kept, and the search resumes at the match's end. */
module CodeFence {
  import opened Base

  const Fence := "```"

  /** The length of the longest run of non-backtick characters of `s`
      starting at `i`. */
  function RunLength(s: string, i: nat): (n: nat)
    requires i <= |s|
    ensures i + n <= |s|
    ensures forall k :: i <= k < i + n ==> s[k] != '`'
    ensures i + n == |s| || s[i + n] == '`'
    decreases |s| - i
  {
    if i == |s| || s[i] == '`' then 0 else 1 + RunLength(s, i + 1)
  }

  /** A run of non-backticks that stops at a backtick or at the end is the
      longest one. */
  lemma {:induction false} RunLengthIs(s: string, i: nat, m: nat)
    requires i + m <= |s|
    requires forall k :: i <= k < i + m ==> s[k] != '`'
    requires i + m == |s| || s[i + m] == '`'
    ensures RunLength(s, i) == m
    decreases m
  {
    if m > 0 {
      RunLengthIs(s, i + 1, m - 1);
    }
  }

  /** The pattern tried at position `q` only: where the match ends, if there
      is one. The middle part is greedy, and since it cannot hold a backtick,
      giving characters back never lets the closing fence match. */
  function MatchAt(s: string, q: nat): (r: Option<nat>)
    requires q <= |s|
    ensures r.Some? ==> q + 7 <= r.value <= |s|
  {
    if q + 3 <= |s| && s[q..q + 3] == Fence then
      var n := RunLength(s, q + 3);
      if n >= 1 && q + n + 6 <= |s| && s[q + n + 3..q + n + 6] == Fence then Some(q + n + 6) else None
    else None
  }

  /** The text `s[q..e]` has the shape the pattern describes. */
  predicate Shaped(s: string, q: nat, e: nat)
    requires q <= e <= |s|
  {
    && q + 7 <= e
    && s[q..q + 3] == Fence && s[e - 3..e] == Fence
    && forall k :: q + 3 <= k < e - 3 ==> s[k] != '`'
  }

  /** The pattern matches at `q` exactly when some `s[q..e]` has its shape,
      and then ends at that `e`. */
  lemma MatchAtShaped(s: string, q: nat, e: nat)
    requires q <= e <= |s|
    ensures MatchAt(s, q) == Some(e) <==> Shaped(s, q, e)
  {
    if Shaped(s, q, e) {
      assert s[e - 3] == s[e - 3..e][0];
      RunLengthIs(s, q + 3, e - q - 6);
    }
  }

  /** A complete code fence: the whole text is one match. */
  predicate IsFence(t: string) {
    MatchAt(t, 0) == Some(|t|)
  }

  /** The pattern matches nowhere in `t`. */
  predicate FenceFree(t: string) {
    forall k :: 0 <= k <= |t| ==> MatchAt(t, k).None?
  }

  /** A run inside a slice is the run in the whole text, cut at the
      slice's end. */
  lemma {:induction false} RunLengthSlice(s: string, p: nat, q: nat, i: nat)
    requires p <= q <= |s| && i <= q - p
    ensures RunLength(s[p..q], i) == if p + i + RunLength(s, p + i) <= q then RunLength(s, p + i) else q - p - i
    decreases q - p - i
  {
    if i < q - p && s[p..q][i] != '`' {
      RunLengthSlice(s, p, q, i + 1);
    }
  }

  lemma SliceOfSlice(s: string, p: nat, q: nat, a: nat, b: nat)
    requires p <= q <= |s| && a <= b <= q - p
    ensures s[p..q][a..b] == s[p + a..p + b]
  {
    forall i | 0 <= i < b - a
      ensures s[p..q][a..b][i] == s[p + a..p + b][i]
    {
      assert s[p..q][a..b][i] == s[p + a + i];
    }
  }

  /** Matching inside a slice is matching in the whole text, for matches
      that end within the slice. */
  lemma MatchAtSlice(s: string, p: nat, q: nat, k: nat)
    requires p <= q <= |s| && k <= q - p
    ensures MatchAt(s[p..q], k) == if MatchAt(s, p + k).Some? && MatchAt(s, p + k).value <= q then Some(MatchAt(s, p + k).value - p) else None
  {
    var t := s[p..q];
    if k + 3 <= |t| {
      SliceOfSlice(s, p, q, k, k + 3);
      if t[k..k + 3] == Fence {
        MatchAtSliceOpen(s, p, q, k);
      }
    }
  }

  /** `MatchAtSlice` where the slice opens a fence at `k`. */
  lemma MatchAtSliceOpen(s: string, p: nat, q: nat, k: nat)
    requires p <= q <= |s| && k + 3 <= q - p
    requires s[p..q][k..k + 3] == Fence && s[p + k..p + k + 3] == Fence
    ensures MatchAt(s[p..q], k) == if MatchAt(s, p + k).Some? && MatchAt(s, p + k).value <= q then Some(MatchAt(s, p + k).value - p) else None
  {
    RunLengthSlice(s, p, q, k + 3);
    var n := RunLength(s, p + k + 3);
    if p + k + 3 + n <= q {
      MatchAtSliceRun(s, p, q, k, n);
    } else {
      assert k + RunLength(s[p..q], k + 3) + 6 > q - p;
    }
  }

  /** `MatchAtSliceOpen` where the run after the opening fence ends inside
      the slice. */
  lemma MatchAtSliceRun(s: string, p: nat, q: nat, k: nat, n: nat)
    requires p <= q <= |s| && k + 3 <= q - p
    requires s[p..q][k..k + 3] == Fence && s[p + k..p + k + 3] == Fence
    requires n == RunLength(s, p + k + 3) == RunLength(s[p..q], k + 3) && p + k + 3 + n <= q
    ensures MatchAt(s[p..q], k) == if MatchAt(s, p + k).Some? && MatchAt(s, p + k).value <= q then Some(MatchAt(s, p + k).value - p) else None
  {
    if p + k + n + 6 <= q {
      SliceOfSlice(s, p, q, k + n + 3, k + n + 6);
    }
  }

  /** Pieces that alternate between fence-free text and complete fences,
      starting and ending with text. */
  predicate Alternates(parts: seq<string>) {
    && |parts| % 2 == 1
    && (forall i :: 0 <= i < |parts| && i % 2 == 1 ==> IsFence(parts[i]))
    && (forall i :: 0 <= i < |parts| && i % 2 == 0 ==> FenceFree(parts[i]))
  }

  lemma AlternatesCons(text: string, fence: string, rest: seq<string>)
    requires FenceFree(text) && IsFence(fence) && Alternates(rest)
    ensures Alternates([text, fence] + rest)
  {
    var parts := [text, fence] + rest;
    forall i | 2 <= i < |parts|
      ensures parts[i] == rest[i - 2]
    {
    }
  }

  /** The split loop, with the text before position `p` already cut off and
      no match at any position from `p` up to `q`. */
  function SplitFrom(s: string, p: nat, q: nat): (parts: seq<string>)
    requires p <= q <= |s|
    requires forall j :: p <= j < q ==> MatchAt(s, j).None?
    ensures Alternates(parts)
    decreases |s| - q
  {
    if q == |s| then
      FreeSlice(s, p, q);
      [s[p..q]]
    else
      match MatchAt(s, q)
      case None => SplitFrom(s, p, q + 1)
      case Some(e) =>
        var rest := SplitFrom(s, e, e);
        SplitStep(s, p, q, e, rest);
        [s[p..q], s[q..e]] + rest
  }

  /** The text before a match and the match itself extend the alternation. */
  lemma SplitStep(s: string, p: nat, q: nat, e: nat, rest: seq<string>)
    requires p <= q <= e <= |s| && MatchAt(s, q) == Some(e)
    requires forall j :: p <= j < q ==> MatchAt(s, j).None?
    requires Alternates(rest)
    ensures Alternates([s[p..q], s[q..e]] + rest)
  {
    FreeSlice(s, p, q);
    MatchAtSlice(s, q, e, 0);
    AlternatesCons(s[p..q], s[q..e], rest);
  }

  /** Text in which no match starts is fence-free on its own. */
  lemma FreeSlice(s: string, p: nat, q: nat)
    requires p <= q <= |s|
    requires forall j :: p <= j < q ==> MatchAt(s, j).None?
    ensures FenceFree(s[p..q])
  {
    forall k | 0 <= k <= q - p
      ensures MatchAt(s[p..q], k).None?
    {
      MatchAtSlice(s, p, q, k);
    }
  }

  /** `parts.join("")`. */
  function Concat(parts: seq<string>): string {
    if parts == [] then "" else parts[0] + Concat(parts[1..])
  }

  lemma {:induction false} ConcatSplitFrom(s: string, p: nat, q: nat)
    requires p <= q <= |s|
    requires forall j :: p <= j < q ==> MatchAt(s, j).None?
    ensures Concat(SplitFrom(s, p, q)) == s[p..]
    decreases |s| - q
  {
    if q == |s| {
      assert SplitFrom(s, p, q) == [s[p..q]];
    } else {
      match MatchAt(s, q)
      case None =>
        ConcatSplitFrom(s, p, q + 1);
      case Some(e) =>
        var rest := SplitFrom(s, e, e);
        assert SplitFrom(s, p, q) == [s[p..q], s[q..e]] + rest;
        ConcatSplitFrom(s, e, e);
        ConcatPair(s[p..q], s[q..e], rest);
        SliceThree(s, p, q, e);
    }
  }

  lemma ConcatPair(a: string, b: string, rest: seq<string>)
    ensures Concat([a, b] + rest) == a + b + Concat(rest)
  {
    var parts := [a, b] + rest;
    assert parts[1..][1..] == rest;
  }

  lemma SliceThree(s: string, p: nat, q: nat, e: nat)
    requires p <= q <= e <= |s|
    ensures s[p..] == s[p..q] + s[q..e] + s[e..]
  {
  }

  /** Where piece `i` starts, for pieces laid out from position `base`. */
  function Offset(base: nat, parts: seq<string>, i: nat): nat
    requires i <= |parts|
  {
    base + |Concat(parts[..i])|
  }

  /** No match of the whole text starts in `s[from..from + len]`. */
  ghost predicate NoMatchIn(s: string, from: nat, len: nat) {
    forall k :: from <= k < from + len && k <= |s| ==> MatchAt(s, k).None?
  }

  /** The pieces laid out from `base` are cut at leftmost matches: no match
      of the whole text starts inside a text piece. */
  ghost predicate Leftmost(s: string, base: nat, parts: seq<string>) {
    forall i :: 0 <= i < |parts| && i % 2 == 0 ==> NoMatchIn(s, Offset(base, parts, i), |parts[i]|)
  }

  /** `content.split(/(```[^`]+```)/g)`: the pieces, joined, give back the
      content; they alternate between fence-free text and complete fences,
      starting and ending with text; and each fence is the leftmost match
      after the previous one. */
  function Split(content: string): (parts: seq<string>)
    ensures Concat(parts) == content
    ensures Alternates(parts)
    ensures Leftmost(content, 0, parts)
  {
    ConcatSplitFrom(content, 0, 0);
    SplitFromLeftmost(content, 0, 0);
    SplitFrom(content, 0, 0)
  }

  /** The offsets of the pieces after a leading text and fence are those of
      the rest, shifted by their length. */
  lemma OffsetPair(base: nat, a: string, b: string, rest: seq<string>, i: nat)
    requires 2 <= i <= |rest| + 2
    ensures Offset(base, [a, b] + rest, i) == Offset(base + |a| + |b|, rest, i - 2)
  {
    var parts := [a, b] + rest;
    assert parts[..i] == [a, b] + rest[..i - 2];
    ConcatPair(a, b, rest[..i - 2]);
  }

  /** The scan never skips a match. */
  lemma {:induction false} SplitFromLeftmost(s: string, p: nat, q: nat)
    requires p <= q <= |s|
    requires forall j :: p <= j < q ==> MatchAt(s, j).None?
    ensures Leftmost(s, p, SplitFrom(s, p, q))
    decreases |s| - q
  {
    assert NoMatchIn(s, p, q - p);
    if q == |s| {
      LeftmostSingle(s, p, s[p..q]);
    } else {
      match MatchAt(s, q)
      case None =>
        SplitFromLeftmost(s, p, q + 1);
      case Some(e) =>
        var rest := SplitFrom(s, e, e);
        assert SplitFrom(s, p, q) == [s[p..q], s[q..e]] + rest;
        SplitFromLeftmost(s, e, e);
        LeftmostCons(s, p, s[p..q], s[q..e], rest);
    }
  }

  lemma LeftmostSingle(s: string, p: nat, a: string)
    requires NoMatchIn(s, p, |a|)
    ensures Leftmost(s, p, [a])
  {
    assert [a][..0] == [];
  }

  /** A text piece with no match in it, a fence, and pieces cut at leftmost
      matches after them are cut at leftmost matches. */
  lemma LeftmostCons(s: string, p: nat, a: string, b: string, rest: seq<string>)
    requires NoMatchIn(s, p, |a|) && Leftmost(s, p + |a| + |b|, rest)
    ensures Leftmost(s, p, [a, b] + rest)
  {
    var parts := [a, b] + rest;
    forall i | 0 <= i < |parts| && i % 2 == 0
      ensures NoMatchIn(s, Offset(p, parts, i), |parts[i]|)
    {
      if i == 0 {
        assert parts[..0] == [];
      } else {
        OffsetPair(p, a, b, rest, i);
        assert parts[i] == rest[i - 2];
      }
    }
  }

  /** The converse of `LeftmostCons`. */
  lemma LeftmostUncons(s: string, p: nat, a: string, b: string, rest: seq<string>)
    requires Leftmost(s, p, [a, b] + rest)
    ensures NoMatchIn(s, p, |a|) && Leftmost(s, p + |a| + |b|, rest)
  {
    var parts := [a, b] + rest;
    assert parts[..0] == [];
    assert Offset(p, parts, 0) == p && parts[0] == a;
    forall i | 0 <= i < |rest| && i % 2 == 0
      ensures NoMatchIn(s, Offset(p + |a| + |b|, rest, i), |rest[i]|)
    {
      OffsetPair(p, a, b, rest, i + 2);
      assert parts[i + 2] == rest[i];
    }
  }

  /** The split is the only way to cut the content into alternating text
      and fences at leftmost matches. */
  lemma SplitUnique(content: string, parts: seq<string>)
    requires Concat(parts) == content && Alternates(parts) && Leftmost(content, 0, parts)
    ensures parts == Split(content)
  {
    assert content[0..] == content;
    SplitFromUnique(content, 0, parts);
  }

  lemma {:induction false} SplitFromUnique(s: string, p: nat, parts: seq<string>)
    requires p <= |s| && Concat(parts) == s[p..] && Alternates(parts) && Leftmost(s, p, parts)
    ensures parts == SplitFrom(s, p, p)
    decreases |parts|
  {
    var a := parts[0];
    var q := p + |a|;
    FirstPiece(s, p, parts);
    if |parts| == 1 {
      assert Concat(parts) == a;
      SplitFromRest(s, p);
    } else {
      var b, rest := parts[1], parts[2..];
      var e := q + |b|;
      assert parts == [a, b] + rest;
      assert IsFence(b);
      NextPieces(s, p, a, b, rest);
      SplitFromFence(s, p, q, e, b);
      AlternatesTail(a, b, rest);
      LeftmostUncons(s, p, a, b, rest);
      SplitFromUnique(s, e, rest);
      assert s[p..q] == a;
      assert SplitFrom(s, p, p) == [a, b] + rest;
    }
  }

  /** Text with no match from `p` on is one piece. */
  lemma SplitFromRest(s: string, p: nat)
    requires p <= |s|
    requires forall j :: p <= j < |s| ==> MatchAt(s, j).None?
    ensures SplitFrom(s, p, p) == [s[p..]]
  {
    SplitFromSkip(s, p, |s|);
    assert s[p..|s|] == s[p..];
  }

  /** The text before a fence and the fence are cut off the front. */
  lemma SplitFromFence(s: string, p: nat, q: nat, e: nat, b: string)
    requires p <= q <= e <= |s| && s[q..e] == b && IsFence(b)
    requires forall j :: p <= j < q ==> MatchAt(s, j).None?
    ensures SplitFrom(s, p, p) == [s[p..q], b] + SplitFrom(s, e, e)
  {
    SplitFromSkip(s, p, q);
    FenceAt(s, q, e, b);
    SplitFromMatch(s, p, q, e);
  }

  lemma SplitFromMatch(s: string, p: nat, q: nat, e: nat)
    requires p <= q <= e <= |s| && MatchAt(s, q) == Some(e)
    requires forall j :: p <= j < q ==> MatchAt(s, j).None?
    ensures SplitFrom(s, p, q) == [s[p..q], s[q..e]] + SplitFrom(s, e, e)
  {
  }

  /** The first piece is the text up to `q`, and nothing matches in it. */
  lemma FirstPiece(s: string, p: nat, parts: seq<string>)
    requires p <= |s| && Concat(parts) == s[p..] && |parts| >= 1 && Leftmost(s, p, parts)
    ensures p + |parts[0]| <= |s| && s[p..p + |parts[0]|] == parts[0]
    ensures forall j :: p <= j < p + |parts[0]| ==> MatchAt(s, j).None?
  {
    var a := parts[0];
    assert Concat(parts) == a + Concat(parts[1..]);
    assert s[p..][..|a|] == a;
    assert parts[..0] == [];
    assert NoMatchIn(s, Offset(p, parts, 0), |parts[0]|);
  }

  /** After the first text, the fence comes next and the rest follows it. */
  lemma NextPieces(s: string, p: nat, a: string, b: string, rest: seq<string>)
    requires p <= |s| && Concat([a, b] + rest) == s[p..]
    ensures p + |a| + |b| <= |s| && s[p + |a|..p + |a| + |b|] == b && Concat(rest) == s[p + |a| + |b|..]
  {
    ConcatPair(a, b, rest);
    assert s[p..][|a|..|a| + |b|] == b;
    assert s[p..][|a| + |b|..] == Concat(rest);
  }

  /** A fence cut out of the text is a match there. */
  lemma FenceAt(s: string, q: nat, e: nat, b: string)
    requires q <= e <= |s| && s[q..e] == b && IsFence(b)
    ensures MatchAt(s, q) == Some(e)
  {
    MatchAtSlice(s, q, e, 0);
  }

  lemma AlternatesTail(a: string, b: string, rest: seq<string>)
    requires Alternates([a, b] + rest)
    ensures Alternates(rest)
  {
    var parts := [a, b] + rest;
    forall i | 0 <= i < |rest|
      ensures rest[i] == parts[i + 2]
    {
    }
  }

  /** Scanning past positions where nothing matches does not change the
      split. */
  lemma {:induction false} SplitFromSkip(s: string, p: nat, q: nat)
    requires p <= q <= |s|
    requires forall j :: p <= j < q ==> MatchAt(s, j).None?
    ensures SplitFrom(s, p, p) == SplitFrom(s, p, q)
    decreases q - p
  {
    if q > p {
      SplitFromSkip(s, p, q - 1);
      assert MatchAt(s, q - 1).None?;
    }
  }

  /** `part.startsWith('```') && part.endsWith('```')` (line 41). */
  predicate IsCodePart(part: string) {
    |part| >= 3 && part[..3] == Fence && part[|part| - 3..] == Fence
  }

  /** `part.slice(3, -3)`: empty when the end falls before the start. Put
      back between the three characters at each end it gives the part again,
      and for a fence it is the non-empty, backtick-free text inside. */
  function SliceInner(part: string): (r: string)
    ensures |part| >= 6 ==> part[..3] + r + part[|part| - 3..] == part
    ensures |part| < 6 ==> r == ""
    ensures IsFence(part) ==> |r| >= 1 && forall k :: 0 <= k < |r| ==> r[k] != '`'
  {
    MatchAtShaped(part, 0, |part|);
    if |part| >= 6 then
      assert part[..3] + part[3..|part| - 3] + part[|part| - 3..] == part;
      part[3..|part| - 3]
    else ""
  }

  /** The characters `[a-z]` matches under the `i` flag without `u`. */
  predicate IsAsciiLetter(c: char) {
    'a' <= c <= 'z' || 'A' <= c <= 'Z'
  }

  function LetterRun(t: string, i: nat): (n: nat)
    requires i <= |t|
    ensures i + n <= |t|
    ensures forall k :: i <= k < i + n ==> IsAsciiLetter(t[k])
    ensures i + n == |t| || !IsAsciiLetter(t[i + n])
    decreases |t| - i
  {
    if i == |t| || !IsAsciiLetter(t[i]) then 0 else 1 + LetterRun(t, i + 1)
  }

  /** `.replace(/^[a-z]+\n/i, '')`: drops a leading language tag, one or
      more letters and a line break; the result is what follows it, or the
      whole text when there is no such tag. */
  function StripTag(t: string): (r: string)
    ensures |r| <= |t| && r == t[|t| - |r|..]
    ensures r != t ==> var n := |t| - |r| - 1;
      n >= 1 && t[n] == '\n' && forall k :: 0 <= k < n ==> IsAsciiLetter(t[k])
  {
    var n := LetterRun(t, 0);
    if n >= 1 && n < |t| && t[n] == '\n' then t[n + 1..] else t
  }

  lemma {:induction false} LetterRunIs(t: string, i: nat, m: nat)
    requires i + m <= |t|
    requires forall k :: i <= k < i + m ==> IsAsciiLetter(t[k])
    requires i + m == |t| || !IsAsciiLetter(t[i + m])
    ensures LetterRun(t, i) == m
    decreases m
  {
    if m > 0 {
      LetterRunIs(t, i + 1, m - 1);
    }
  }

  /** A tag of letters and a line break is always dropped, and only the
      tag: whatever follows it stays, even another tag. */
  lemma StripTagDropsTag(lang: string, body: string)
    requires |lang| >= 1 && forall k :: 0 <= k < |lang| ==> IsAsciiLetter(lang[k])
    ensures StripTag(lang + "\n" + body) == body
  {
    var t := lang + "\n" + body;
    assert forall k :: 0 <= k < |lang| ==> t[k] == lang[k];
    LetterRunIs(t, 0, |lang|);
    assert t[|lang| + 1..] == body;
  }

  /** Text that does not open with letters and a line break is kept. */
  lemma StripTagKeepsUntagged(t: string)
    requires t == [] || !IsAsciiLetter(t[0])
    ensures StripTag(t) == t
  {
  }

  /** Line 43: the code shown for a code part. */
  function ExtractCode(part: string): string {
    StripTag(SliceInner(part))
  }

  /** How one piece is shown: in a code block with a copy button, or as a
      paragraph. */
  datatype Fragment = Code(code: string) | Plain(text: string)

  function Render(part: string): Fragment {
    if IsCodePart(part) then Code(ExtractCode(part)) else Plain(part)
  }

  /** `formatMessageContent` (lines 36-81): one fragment per piece, in order.
      Every fence is shown as code; text is shown as itself unless it
      happens to start and end with three backticks. */
  function Format(content: string): (r: seq<Fragment>)
    ensures |r| == |Split(content)| && |r| % 2 == 1
    ensures forall i :: 0 <= i < |r| && i % 2 == 1 ==> r[i].Code?
    ensures forall i :: 0 <= i < |r| && r[i].Plain? ==> r[i].text == Split(content)[i]
    ensures forall i :: 0 <= i < |r| ==> (r[i].Code? <==> IsCodePart(Split(content)[i]))
    ensures forall i :: 0 <= i < |r| && r[i].Code? ==> r[i].code == ExtractCode(Split(content)[i])
  {
    var parts := Split(content);
    forall i | 0 <= i < |parts| && i % 2 == 1
      ensures IsCodePart(parts[i])
    {
      FenceIsCodePart(parts[i]);
    }
    seq(|parts|, i requires 0 <= i < |parts| => Render(parts[i]))
  }

  /** A complete fence starts and ends with three backticks. */
  lemma FenceIsCodePart(t: string)
    requires IsFence(t)
    ensures IsCodePart(t) && |t| >= 7
  {
    MatchAtShaped(t, 0, |t|);
  }

  /** Text in which the pattern matches nowhere is one piece. */
  lemma {:induction false} SplitFromUnmatched(s: string, p: nat, q: nat)
    requires p <= q <= |s|
    requires forall j :: p <= j <= |s| ==> MatchAt(s, j).None?
    ensures SplitFrom(s, p, q) == [s[p..]]
    decreases |s| - q
  {
    if q == |s| {
      assert s[p..q] == s[p..];
    } else {
      assert MatchAt(s, q).None?;
      SplitFromUnmatched(s, p, q + 1);
    }
  }

  /** A reply that is one complete fence splits into empty text, the fence
      and empty text. */
  lemma SplitOfFence(s: string)
    requires IsFence(s)
    ensures Split(s) == ["", s, ""]
  {
    assert SplitFrom(s, |s|, |s|) == [s[|s|..|s|]];
    assert s[0..0] == "" && s[0..|s|] == s && s[|s|..|s|] == "";
    assert SplitFrom(s, 0, 0) == [s[0..0], s[0..|s|]] + SplitFrom(s, |s|, |s|);
  }

  /** A tagged block has the pattern's shape. */
  lemma TaggedBlockIsFence(lang: string, body: string)
    requires forall k :: 0 <= k < |lang| ==> IsAsciiLetter(lang[k])
    requires |body| >= 1 && forall k :: 0 <= k < |body| ==> body[k] != '`'
    ensures IsFence(Fence + lang + "\n" + body + Fence)
    ensures SliceInner(Fence + lang + "\n" + body + Fence) == lang + "\n" + body
  {
    var s := Fence + lang + "\n" + body + Fence;
    assert s[..3] == Fence && s[|s| - 3..] == Fence;
    forall k | 3 <= k < |s| - 3
      ensures s[k] != '`'
    {
      if k < 3 + |lang| {
        assert s[k] == lang[k - 3];
      } else if k > 3 + |lang| {
        assert s[k] == body[k - 4 - |lang|];
      }
    }
    assert Shaped(s, 0, |s|);
    MatchAtShaped(s, 0, |s|);
    assert s[3..|s| - 3] == lang + "\n" + body;
  }

  /** A reply that is one complete fence is shown as empty text, its code,
      and empty text. */
  lemma FormatOfFence(s: string)
    requires IsFence(s)
    ensures Format(s) == [Plain(""), Code(ExtractCode(s)), Plain("")]
  {
    SplitOfFence(s);
    var parts := Split(s);
    var r := Format(s);
    assert parts[0] == "" && parts[1] == s && parts[2] == "";
    assert !IsCodePart(parts[0]) && !IsCodePart(parts[2]);
    assert r[0].Plain? && r[2].Plain?;
    assert r[1].Code?;
    assert r[0] == Plain("") && r[1] == Code(ExtractCode(s)) && r[2] == Plain("");
    SeqOfThree(r);
  }

  lemma SeqOfThree<T>(r: seq<T>)
    requires |r| == 3
    ensures r == [r[0], r[1], r[2]]
  {
  }

  /** A fenced block with a language tag, alone in a reply, is shown as
      empty text, the block's body as code, and empty text. */
  lemma FormatTaggedBlock(lang: string, body: string)
    requires |lang| >= 1 && forall k :: 0 <= k < |lang| ==> IsAsciiLetter(lang[k])
    requires |body| >= 1 && forall k :: 0 <= k < |body| ==> body[k] != '`'
    ensures Format(Fence + lang + "\n" + body + Fence) == [Plain(""), Code(body), Plain("")]
  {
    var s := Fence + lang + "\n" + body + Fence;
    TaggedBlockIsFence(lang, body);
    FormatOfFence(s);
    StripTagDropsTag(lang, body);
  }

  /** Six backticks contain no fence, so the split keeps them as text; but
      they start and end with three backticks, so they are shown as an empty
      code block. */
  lemma SixBackticksShownAsCode()
    ensures Split("``````") == ["``````"]
    ensures Format("``````") == [Code("")]
  {
    var s := "``````";
    forall j | 0 <= j <= |s|
      ensures MatchAt(s, j).None?
    {
      if j + 3 < |s| {
        assert s[j + 3] == '`';
      }
    }
    SplitFromUnmatched(s, 0, 0);
    assert s[0..] == s;
    assert IsCodePart(s);
    assert SliceInner(s) == "";
  }
}
