/** How the `group-discussion` and `mock-interview` edge functions cut a JSON
    text out of the model's reply: first the regular expression
    /```json\s*([\s\S]*?)\s*```/, and if that does not match, a greedy span
    from an opening character to a closing one (/\{[\s\S]*\}/ or
    /\[[\s\S]*\]/); of a fence match the capture is used, or the whole match
    when the capture is empty (`jsonMatch[1] || jsonMatch[0]`). Parsing the
    selected text is not part of this model. */
module JsonExtract {
  import opened Wrappers
  import opened JsText

  const FenceOpen := "```json"
  const FenceClose := "```"

  /** First position at or after `from` where `pat` occurs. */
  function FindFrom(s: string, from: nat, pat: string): (m: Option<nat>)
    requires from <= |s|
    ensures m.Some? ==> from <= m.value <= |s| && StartsWith(s[m.value..], pat)
    ensures m.Some? ==> forall k :: from <= k < m.value ==> !StartsWith(s[k..], pat)
    ensures m.None? ==> forall k :: from <= k <= |s| ==> !StartsWith(s[k..], pat)
    decreases |s| - from
  {
    if StartsWith(s[from..], pat) then Some(from)
    else if from == |s| then None
    else FindFrom(s, from + 1, pat)
  }

  /** The lazy group `([\s\S]*?)` followed by `\s*```` tried from `e`: the
      shortest capture after which white space and then ``` follow. The
      greedy `\s*` cannot give white space back usefully, since ``` does not
      start with white space. */
  function LazyCaptureEnd(s: string, e: nat): (m: Option<nat>)
    requires e <= |s|
    ensures m.Some? ==> e <= m.value <= |s| && StartsWith(s[SpaceRunEnd(s, m.value)..], FenceClose)
    ensures m.Some? ==> forall k :: e <= k < m.value ==> !StartsWith(s[SpaceRunEnd(s, k)..], FenceClose)
    ensures m.None? ==> forall k :: e <= k <= |s| ==> !StartsWith(s[SpaceRunEnd(s, k)..], FenceClose)
    decreases |s| - e
  {
    if StartsWith(s[SpaceRunEnd(s, e)..], FenceClose) then Some(e)
    else if e == |s| then None
    else LazyCaptureEnd(s, e + 1)
  }

  /** A match of the fence expression: the captured group and the whole
      matched text. */
  datatype FenceMatch = FenceMatch(capture: string, whole: string)

  /** The fence expression tried at position `i`: the opener, a greedy
      `\s*`, the lazy capture, `\s*` and the closing backticks. */
  function FenceAt(s: string, i: nat): Option<FenceMatch>
    requires i <= |s|
  {
    if !StartsWith(s[i..], FenceOpen) then None
    else
      var q := SpaceRunEnd(s, i + |FenceOpen|);
      var e := LazyCaptureEnd(s, q);
      if e.None? then None
      else
        var k := SpaceRunEnd(s, e.value);
        Some(FenceMatch(s[q..e.value], s[i..k + |FenceClose|]))
  }

  /** Leftmost fence match at or after `from`: its start and the match. */
  function FindFence(s: string, from: nat): (m: Option<(nat, FenceMatch)>)
    requires from <= |s|
    ensures m.Some? ==> from <= m.value.0 <= |s| && FenceAt(s, m.value.0) == Some(m.value.1)
    ensures m.Some? ==> forall p :: from <= p < m.value.0 ==> FenceAt(s, p).None?
    ensures m.None? ==> forall p :: from <= p <= |s| ==> FenceAt(s, p).None?
    decreases |s| - from
  {
    if FenceAt(s, from).Some? then Some((from, FenceAt(s, from).value))
    else if from == |s| then None
    else FindFence(s, from + 1)
  }

  /** The lazy capture stops where white space runs into the first ```
      after `q`, and not after a white-space character. */
  lemma LazyStopsAtFirstClose(s: string, q: nat, e: nat)
    requires q <= |s| && LazyCaptureEnd(s, q) == Some(e)
    ensures FindFrom(s, q, FenceClose) == Some(SpaceRunEnd(s, e))
    ensures e == q || !IsSpace(s[e - 1])
  {
    var k := SpaceRunEnd(s, e);
    CloseIsNotSpace(s, k);
    var m := FindFrom(s, q, FenceClose);
    assert m.Some?;
    var f := m.value;
    CloseIsNotSpace(s, f);
    assert e <= f;
    assert f == k;
    assert e > q ==> SpaceRunEnd(s, e - 1) == (if IsSpace(s[e - 1]) then k else e - 1);
  }

  /** Backticks are not white space. */
  lemma CloseIsNotSpace(s: string, f: nat)
    requires f <= |s| && StartsWith(s[f..], FenceClose)
    ensures f < |s| && s[f] == '`' && SpaceRunEnd(s, f) == f
  {
    assert s[f..][0] == '`';
  }

  /** If ``` occurs after `q`, the lazy capture finds a place to stop. */
  lemma LazyFindsClose(s: string, q: nat)
    requires q <= |s|
    ensures LazyCaptureEnd(s, q).Some? <==> FindFrom(s, q, FenceClose).Some?
  {
    if FindFrom(s, q, FenceClose).Some? {
      CloseIsNotSpace(s, FindFrom(s, q, FenceClose).value);
    }
    if LazyCaptureEnd(s, q).Some? {
      LazyStopsAtFirstClose(s, q, LazyCaptureEnd(s, q).value);
    }
  }

  /** At an opener, the fence matches exactly when ``` occurs after it. */
  lemma FenceAtIffClose(s: string, i: nat)
    requires i <= |s| && StartsWith(s[i..], FenceOpen)
    ensures FenceAt(s, i).Some? <==> FindFrom(s, i + |FenceOpen|, FenceClose).Some?
  {
    var p := i + |FenceOpen|;
    var q := SpaceRunEnd(s, p);
    SkipSpacesBeforeClose(s, p, q);
    LazyFindsClose(s, q);
  }

  /** The fence expression at an opener whose lazy capture stops at `e`. */
  lemma FenceAtUnfolds(s: string, i: nat, q: nat, e: nat, k: nat)
    requires i <= |s| && StartsWith(s[i..], FenceOpen)
    requires q == SpaceRunEnd(s, i + |FenceOpen|)
    requires LazyCaptureEnd(s, q) == Some(e) && k == SpaceRunEnd(s, e)
    ensures FenceAt(s, i) == Some(FenceMatch(s[q..e], s[i..k + |FenceClose|]))
  {
  }

  /** The text from `p` to `k`, with the white space `p..q` in front and
      `e..k` behind, trims to `s[q..e]`. */
  lemma CaptureIsTrimmedBody(s: string, p: nat, q: nat, e: nat, k: nat)
    requires p <= q <= e <= k <= |s|
    requires forall t :: p <= t < q ==> IsSpace(s[t])
    requires q == k || !IsSpace(s[q])
    requires forall t :: e <= t < k ==> IsSpace(s[t])
    requires e == q || !IsSpace(s[e - 1])
    ensures Trim(s[p..k]) == s[q..e]
  {
    LeadingSpacesTrimmed(s, p, q, k);
    TrailingSpacesTrimmed(s, q, e, k);
  }

  lemma LeadingSpacesTrimmed(s: string, p: nat, q: nat, k: nat)
    requires p <= q <= k <= |s|
    requires forall t :: p <= t < q ==> IsSpace(s[t])
    requires q == k || !IsSpace(s[q])
    ensures TrimStart(s[p..k]) == s[q..k]
  {
    var body := s[p..k];
    var j := q - p;
    LeadIsSpaces(s, p, q, k);
    assert j == |body| || body[j] == s[q];
    TrimStartUnique(body, j);
    assert body[j..] == s[q..k];
  }

  /** The white space before `q` is the front of `s[p..k]`. */
  lemma LeadIsSpaces(s: string, p: nat, q: nat, k: nat)
    requires p <= q <= k <= |s|
    requires forall t :: p <= t < q ==> IsSpace(s[t])
    ensures AllSpaces(s[p..k][..q - p])
  {
    var lead := s[p..k][..q - p];
    forall x | 0 <= x < |lead|
      ensures IsSpace(lead[x])
    {
      assert lead[x] == s[p + x];
    }
  }

  lemma TrailingSpacesTrimmed(s: string, q: nat, e: nat, k: nat)
    requires q <= e <= k <= |s|
    requires forall t :: e <= t < k ==> IsSpace(s[t])
    requires e == q || !IsSpace(s[e - 1])
    ensures TrimEnd(s[q..k]) == s[q..e]
  {
    var rest := s[q..k];
    var trail := rest[e - q..];
    forall x | 0 <= x < |trail|
      ensures IsSpace(trail[x])
    {
      assert trail[x] == s[e + x];
    }
    assert e == q || rest[e - q - 1] == s[e - 1];
    TrimEndUnique(rest, e - q);
    assert rest[..e - q] == s[q..e];
  }

  /** No ``` can start inside the white space after the opener. */
  lemma SkipSpacesBeforeClose(s: string, p: nat, q: nat)
    requires p <= q <= |s| && AllSpaces(s[p..q])
    ensures FindFrom(s, p, FenceClose) == FindFrom(s, q, FenceClose)
    decreases q - p
  {
    if p < q {
      assert s[p..q][0] == s[p];
      assert !StartsWith(s[p..], FenceClose);
      assert s[p + 1..q] == s[p..q][1..];
      SkipSpacesBeforeClose(s, p + 1, q);
    }
  }

  /** The span expression tried at `i`: the opening character, then
      `[\s\S]*`, which first takes everything and then gives characters back
      until the closing character follows, so the span ends at the last
      closing character. The result is the end of the span. */
  function SpanAt(s: string, i: nat, open: char, close: char): (m: Option<nat>)
    requires i <= |s|
    ensures m.Some? ==> i < m.value <= |s|
  {
    if i < |s| && s[i] == open then
      match LastIndexOf(s, close)
      case Some(k) => if k > i then Some(k + 1) else None
      case None => None
    else None
  }

  /** Leftmost span match at or after `from`: its start and end. */
  function FindSpan(s: string, from: nat, open: char, close: char): (m: Option<(nat, nat)>)
    requires from <= |s|
    ensures m.Some? ==> from <= m.value.0 <= |s| && SpanAt(s, m.value.0, open, close) == Some(m.value.1)
    ensures m.Some? ==> forall p :: from <= p < m.value.0 ==> SpanAt(s, p, open, close).None?
    ensures m.None? ==> forall p :: from <= p <= |s| ==> SpanAt(s, p, open, close).None?
    decreases |s| - from
  {
    match SpanAt(s, from, open, close)
    case Some(j) => Some((from, j))
    case None => if from == |s| then None else FindSpan(s, from + 1, open, close)
  }

  /** `s[a]` is the first `open` in `s`, and `s[b]`, after it, the last
      `close`. */
  predicate FirstToLast(s: string, open: char, close: char, a: nat, b: nat) {
    && a < b < |s| && s[a] == open && s[b] == close
    && (forall k :: 0 <= k < a ==> s[k] != open)
    && (forall k :: b < k < |s| ==> s[k] != close)
  }

  /** The span expression matches exactly when an opening character comes
      before a closing one, and then it runs from the FIRST opening character
      to the LAST closing one, both included. */
  lemma {:induction false} SpanIsFirstOpenToLastClose(s: string, open: char, close: char)
    ensures FindSpan(s, 0, open, close).Some? <==>
      exists a, b :: 0 <= a < b < |s| && s[a] == open && s[b] == close
    ensures FindSpan(s, 0, open, close).Some? ==>
      var (i, j) := FindSpan(s, 0, open, close).value;
      && i < j <= |s| && s[i] == open && s[j - 1] == close
      && (forall k :: 0 <= k < i ==> s[k] != open)
      && (forall k :: j <= k < |s| ==> s[k] != close)
  {
    if a, b :| 0 <= a < b < |s| && s[a] == open && s[b] == close {
      assert SpanAt(s, a, open, close).Some?;
    }
    match FindSpan(s, 0, open, close)
    case Some((i, j)) =>
      var last := LastIndexOf(s, close).value;
      assert j == last + 1;
      forall k | 0 <= k < i
        ensures s[k] != open
      {
        assert SpanAt(s, k, open, close).None?;
        assert last > k;
      }
    case None =>
  }

  /** The text handed to `JSON.parse`, or `None` when neither expression
      matches. */
  function SelectJson(s: string, open: char, close: char): Option<string> {
    match FindFence(s, 0)
    case Some((_, m)) => Some(if m.capture != "" then m.capture else m.whole)
    case None =>
      match FindSpan(s, 0, open, close)
      case Some((i, j)) => Some(s[i..j])
      case None => None
  }

  /** With a ```json fence in the reply, the fence decides, whatever brackets
      the reply holds: the trimmed text up to the first ``` after the first
      opener, or the whole fence when that text is empty. */
  lemma {:induction false} FenceTakesPrecedence(s: string, open: char, close: char, i: nat, k: nat)
    requires i <= |s| && StartsWith(s[i..], FenceOpen)
    requires forall p :: 0 <= p < i ==> !StartsWith(s[p..], FenceOpen)
    requires FindFrom(s, i + |FenceOpen|, FenceClose) == Some(k)
    ensures SelectJson(s, open, close) ==
      var body := Trim(s[i + |FenceOpen|..k]);
      Some(if body != "" then body else s[i..k + |FenceClose|])
  {
    FenceMatchUpToClose(s, i, k);
    FirstFenceWins(s, i);
    SelectFencedJson(s, open, close);
  }

  /** At an opener with a ``` after it, the capture is the text between
      the opener and the first such ```, with white space trimmed from both
      ends, and the whole match runs to the end of that ```. */
  lemma FenceMatchUpToClose(s: string, i: nat, k: nat)
    requires i <= |s| && StartsWith(s[i..], FenceOpen)
    requires FindFrom(s, i + |FenceOpen|, FenceClose) == Some(k)
    ensures FenceAt(s, i) == Some(FenceMatch(Trim(s[i + |FenceOpen|..k]), s[i..k + |FenceClose|]))
  {
    var p := i + |FenceOpen|;
    var q := SpaceRunEnd(s, p);
    SkipSpacesBeforeClose(s, p, q);
    LazyFindsClose(s, q);
    var e := LazyCaptureEnd(s, q).value;
    LazyStopsAtFirstClose(s, q, e);
    assert SpaceRunEnd(s, e) == k;
    FenceAtUnfolds(s, i, q, e, k);
    CaptureIsTrimmedBody(s, p, q, e, k);
  }

  /** Once the fence expression matches, its capture is selected, or the
      whole match when the capture is empty. */
  lemma SelectFencedJson(s: string, open: char, close: char)
    requires FindFence(s, 0).Some?
    ensures var m := FindFence(s, 0).value.1;
      SelectJson(s, open, close) == Some(if m.capture != "" then m.capture else m.whole)
  {
  }

  /** A fence match starts with the opener. */
  lemma FenceAtNeedsOpener(s: string, i: nat)
    requires i <= |s|
    ensures FenceAt(s, i).Some? ==> StartsWith(s[i..], FenceOpen)
  {
  }

  /** The leftmost opener that completes to a match is the match found. */
  lemma FirstFenceWins(s: string, i: nat)
    requires i <= |s| && FenceAt(s, i).Some?
    requires forall p :: 0 <= p < i ==> !StartsWith(s[p..], FenceOpen)
    ensures FindFence(s, 0) == Some((i, FenceAt(s, i).value))
  {
    var found := FindFence(s, 0);
    assert found.Some?;
    var start := found.value.0;
    assert start <= i;
    FenceAtNeedsOpener(s, start);
    assert start == i;
    assert found.value.1 == FenceAt(s, i).value;
    assert found == Some((i, found.value.1));
  }

  /** Whenever the fence expression fails (no opener, or an opener with no
      ``` after it), the span decides: text is selected exactly when an
      opening character comes before a closing one, and it then runs from
      the first opening character to the last closing one, both included. */
  lemma {:induction false} SpanWithoutFence(s: string, open: char, close: char)
    requires FindFence(s, 0).None?
    ensures SelectJson(s, open, close).Some? <==>
      exists a, b :: 0 <= a < b < |s| && s[a] == open && s[b] == close
    ensures SelectJson(s, open, close).Some? ==>
      exists a: nat, b: nat :: FirstToLast(s, open, close, a, b) && SelectJson(s, open, close) == Some(s[a..b + 1])
  {
    SpanIsFirstOpenToLastClose(s, open, close);
    if FindSpan(s, 0, open, close).Some? {
      var (i, j) := FindSpan(s, 0, open, close).value;
      assert FirstToLast(s, open, close, i, j - 1);
      assert SelectJson(s, open, close) == Some(s[i..(j - 1) + 1]);
    }
  }

  /** A reply without any ```json opener has no fence match. */
  lemma NoOpenerNoFence(s: string)
    requires forall p :: 0 <= p <= |s| ==> !StartsWith(s[p..], FenceOpen)
    ensures FindFence(s, 0).None?
  {
    if FindFence(s, 0).Some? {
      FenceAtNeedsOpener(s, FindFence(s, 0).value.0);
    }
  }

  /** A reply without a backtick has no ```json opener. */
  lemma NoBacktickNoOpener(s: string)
    requires '`' !in s
    ensures forall p :: 0 <= p <= |s| ==> !StartsWith(s[p..], FenceOpen)
  {
    forall p | 0 <= p <= |s|
      ensures !StartsWith(s[p..], FenceOpen)
    {
      if p < |s| {
        assert s[p..][0] == s[p];
      }
    }
  }

  /** The fence expression fails exactly when no ```json opener is
      followed, anywhere after it, by ```. */
  lemma FenceFailsIffNoClose(s: string)
    ensures FindFence(s, 0).None? <==>
      forall p :: 0 <= p <= |s| && StartsWith(s[p..], FenceOpen) ==>
        FindFrom(s, p + |FenceOpen|, FenceClose).None?
  {
    forall p | 0 <= p <= |s| && StartsWith(s[p..], FenceOpen)
      ensures FenceAt(s, p).None? <==> FindFrom(s, p + |FenceOpen|, FenceClose).None?
    {
      FenceAtIffClose(s, p);
    }
    forall p | 0 <= p <= |s| && !StartsWith(s[p..], FenceOpen)
      ensures FenceAt(s, p).None?
    {
      FenceAtNeedsOpener(s, p);
    }
  }

  /** When the fence fails, the first opening character and the last closing
      one after it fix the selected text. */
  lemma SpanFromFirstToLast(s: string, open: char, close: char, a: nat, b: nat)
    requires FindFence(s, 0).None? && FirstToLast(s, open, close, a, b)
    ensures SelectJson(s, open, close) == Some(s[a..b + 1])
  {
    LastCloseIsLastIndex(s, close, b);
    SpanEndsAtLastClose(s, a, open, close, b);
    FirstOpenStartsSpan(s, open, close, a);
    SelectSpan(s, open, close, a, b + 1);
  }

  /** The last occurrence is the one with none after it. */
  lemma LastCloseIsLastIndex(s: string, close: char, b: nat)
    requires b < |s| && s[b] == close
    requires forall k :: b < k < |s| ==> s[k] != close
    ensures LastIndexOf(s, close) == Some(b)
  {
    var last := LastIndexOf(s, close);
    assert last.Some?;
    assert !(last.value < b) && !(b < last.value);
  }

  /** The span search starts at the first opening character, when a span
      starts there. */
  lemma FirstOpenStartsSpan(s: string, open: char, close: char, a: nat)
    requires a <= |s| && SpanAt(s, a, open, close).Some?
    requires forall k :: 0 <= k < a ==> s[k] != open
    ensures FindSpan(s, 0, open, close) == Some((a, SpanAt(s, a, open, close).value))
  {
    var found := FindSpan(s, 0, open, close);
    assert found.Some?;
    var start := found.value.0;
    assert !(a < start);
    assert !(start < a);
  }

  /** From an opening character, the span runs to the last closing one. */
  lemma SpanEndsAtLastClose(s: string, a: nat, open: char, close: char, b: nat)
    requires a < b < |s| && s[a] == open && LastIndexOf(s, close) == Some(b)
    ensures SpanAt(s, a, open, close) == Some(b + 1)
  {
  }

  /** Once the fence fails, the span match is selected. */
  lemma SelectSpan(s: string, open: char, close: char, i: nat, j: nat)
    requires FindFence(s, 0).None? && FindSpan(s, 0, open, close) == Some((i, j))
    ensures i <= j <= |s| && SelectJson(s, open, close) == Some(s[i..j])
  {
  }

  /** A truncated fence, with no closing backticks, falls back to the span. */
  lemma TruncatedFenceFallsBackToSpan(s: string)
    requires s == "```json\n[1]"
    ensures SelectJson(s, '[', ']') == Some("[1]")
  {
    TruncatedFenceFails(s);
    SpanFromFirstToLast(s, '[', ']', 8, 10);
    assert s[8..11] == "[1]";
  }

  lemma TruncatedFenceFails(s: string)
    requires s == "```json\n[1]"
    ensures FindFence(s, 0).None?
  {
    forall p | 7 <= p <= |s|
      ensures !StartsWith(s[p..], FenceClose)
    {
      if p + 3 <= |s| {
        assert s[p..][0] == s[p];
      }
    }
    assert FindFrom(s, 7, FenceClose).None?;
    forall p | 0 < p <= |s|
      ensures !StartsWith(s[p..], FenceOpen)
    {
      if p < 3 {
        assert s[p..][3 - p] == s[3];
      } else if p + 7 <= |s| {
        assert s[p..][0] == s[p];
      }
    }
    FenceFailsIffNoClose(s);
  }

  /** An empty fence is passed on whole, backticks included. */
  lemma EmptyFenceFallsBackToWholeMatch()
    ensures SelectJson("```json\n```", '{', '}') == Some("```json\n```")
  {
    var s := "```json\n```";
    assert StartsWith(s[0..], FenceOpen);
    assert StartsWith(s[8..], FenceClose);
    assert SpaceRunEnd(s, 8) == 8;
    assert SpaceRunEnd(s, 7) == 8;
    assert FindFrom(s, 7, FenceClose) == Some(8);
    assert s[7..8] == "\n";
    TrimEmptyIffBlank(s[7..8]);
    FenceTakesPrecedence(s, '{', '}', 0, 8);
    assert s[0..11] == s;
  }
}
