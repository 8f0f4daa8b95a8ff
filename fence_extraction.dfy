/** `extractJSON` of the roast route: the first fenced block of the model's reply, as found by
    the regular expression /```(?:json)?\s*([\s\S]*?)\s*```/, trimmed; the whole reply,
    trimmed, when the expression does not match.

    The match is written out as string functions (first opener, optional `json` tag, greedy
    whitespace, lazy capture), and MatchIsFirstTried proves that this is the match an
    ECMAScript backtracking matcher reports. */
module FenceExtraction {
  import opened JsString
  import opened Wrappers

  /** A "```" begins at index i. */
  predicate FenceAt(s: string, i: int) {
    0 <= i && i + 3 <= |s| && s[i] == '`' && s[i + 1] == '`' && s[i + 2] == '`'
  }

  /** The lower-case letters `json` begin at index i. */
  predicate JsonTagAt(s: string, i: int) {
    0 <= i && i + 4 <= |s| && s[i] == 'j' && s[i + 1] == 's' && s[i + 2] == 'o' && s[i + 3] == 'n'
  }

  /** The first "```" at or after `from`. */
  function FindFence(s: string, from: nat): (r: Option<nat>)
    decreases |s| - from
    ensures r.Some? ==> from <= r.value && FenceAt(s, r.value)
    ensures r.Some? ==> forall k :: from <= k < r.value ==> !FenceAt(s, k)
    ensures r.None? ==> forall k :: from <= k ==> !FenceAt(s, k)
  {
    if from + 3 > |s| then None
    else if FenceAt(s, from) then Some(from)
    else FindFence(s, from + 1)
  }

  /** Greedy `\s*` from index i: the first index at or after i that is not whitespace. */
  function SkipWhitespace(s: string, i: nat): (j: nat)
    requires i <= |s|
    decreases |s| - i
    ensures i <= j <= |s| && AllWhitespace(s, i, j)
    ensures j == |s| || !IsWhitespace(s[j])
  {
    if i < |s| && IsWhitespace(s[i]) then SkipWhitespace(s, i + 1) else i
  }

  /** Index e is followed by `\s*` and then "```". */
  predicate ClosesAt(s: string, e: nat)
    requires e <= |s|
  {
    FenceAt(s, SkipWhitespace(s, e))
  }

  /** Lazy `([\s\S]*?)` started at `from`: the first end index after which `\s*```` matches. */
  function LazyEnd(s: string, from: nat): (r: Option<nat>)
    requires from <= |s|
    decreases |s| - from
    ensures r.Some? ==> from <= r.value <= |s| && ClosesAt(s, r.value)
    ensures r.Some? ==> forall e :: from <= e < r.value ==> !ClosesAt(s, e)
    ensures r.None? ==> forall e :: from <= e <= |s| ==> !ClosesAt(s, e)
  {
    if ClosesAt(s, from) then Some(from)
    else if from == |s| then None
    else LazyEnd(s, from + 1)
  }

  /** One way for the pattern to match `s`: the opener at p, a `json` tag of length t
      (0 or 4), w characters of leading whitespace, a capture of n characters, v characters
      of trailing whitespace, then the closer. */
  datatype Way = Way(p: nat, t: nat, w: nat, n: nat, v: nat) {
    function CaptureStart(): nat { p + 3 + t + w }
    function CaptureEnd(): nat { p + 3 + t + w + n }
    function Closer(): nat { p + 3 + t + w + n + v }
  }

  predicate IsMatch(s: string, m: Way) {
    FenceAt(s, m.p) &&
    (m.t == 0 || (m.t == 4 && JsonTagAt(s, m.p + 3))) &&
    m.Closer() + 3 <= |s| &&
    AllWhitespace(s, m.p + 3 + m.t, m.CaptureStart()) &&
    AllWhitespace(s, m.CaptureEnd(), m.Closer()) &&
    FenceAt(s, m.Closer())
  }

  /** The order in which a backtracking matcher tries the ways: leftmost opener first, then
      the optional `json` taken before left out, then more leading whitespace before less
      (greedy `\s*`), then a shorter capture before a longer one (lazy `*?`), then more
      trailing whitespace before less. The match reported is the first way that succeeds. */
  predicate TriedBefore(a: Way, b: Way) {
    a.p < b.p ||
    (a.p == b.p && (a.t > b.t ||
    (a.t == b.t && (a.w > b.w ||
    (a.w == b.w && (a.n < b.n ||
    (a.n == b.n && a.v > b.v)))))))
  }

  /** Length of the `(?:json)?` part after an opener at `open`: the tag is taken when present. */
  function TagLength(s: string, open: nat): nat {
    if JsonTagAt(s, open + 3) then 4 else 0
  }

  /** Where the capture starts: after the opener, the tag and all leading whitespace. */
  function BodyStart(s: string, open: nat): nat
    requires FenceAt(s, open)
  {
    SkipWhitespace(s, open + 3 + TagLength(s, open))
  }

  /** The way the matcher settles on, built step by step: first opener, tag if present,
      all leading whitespace, shortest capture, all trailing whitespace. */
  function Chosen(s: string): (r: Option<Way>)
    ensures r.Some? ==> IsMatch(s, r.value)
  {
    match FindFence(s, 0)
    case None => None
    case Some(open) =>
      var t := TagLength(s, open);
      var b := BodyStart(s, open);
      match LazyEnd(s, b)
      case None => None
      case Some(e) =>
        var c := SkipWhitespace(s, e);
        Some(Way(open, t, b - (open + 3 + t), e - b, c - e))
  }

  /** Group 1 of `text.match(/```(?:json)?\s*([\s\S]*?)\s*```/)`; None where `match` gives null. */
  function MatchFence(s: string): Option<string> {
    match Chosen(s)
    case None => None
    case Some(m) => Some(s[m.CaptureStart()..m.CaptureEnd()])
  }

  /** `extractJSON(text)`. */
  function ExtractJson(text: string): (r: string)
    ensures Trimmed(r)
  {
    match MatchFence(text)
    case Some(capture) => Trim(capture)
    case None => Trim(text)
  }

  // ---------------------------------------------------------------------------------------
  // Facts about the building blocks

  /** Greedy `\s*` stops exactly at the end of a whitespace run. */
  lemma {:induction false} SkipWhitespaceLands(s: string, i: nat, j: nat)
    requires i <= j <= |s| && AllWhitespace(s, i, j)
    requires j == |s| || !IsWhitespace(s[j])
    ensures SkipWhitespace(s, i) == j
    decreases j - i
  {
    if i < j {
      SkipWhitespaceLands(s, i + 1, j);
    }
  }

  /** Greedy `\s*` takes every whitespace run that starts where it starts. */
  lemma SkipWhitespaceIsMaximal(s: string, i: nat, j: nat)
    requires i <= j <= |s| && AllWhitespace(s, i, j)
    ensures j <= SkipWhitespace(s, i)
  {
  }

  /** An index directly before a "```" closes the lazy capture. */
  lemma ClosesAtFence(s: string, c: nat)
    requires FenceAt(s, c)
    ensures ClosesAt(s, c)
  {
    SkipWhitespaceLands(s, c, c);
  }

  /** A closing fence three or more characters after the opener lies at or after the body start:
      neither the `json` tag nor leading whitespace can hold a backtick. */
  lemma FenceAfterBodyStart(s: string, open: nat, c: nat)
    requires FenceAt(s, open) && FenceAt(s, c) && open + 3 <= c
    ensures c >= BodyStart(s, open)
  {
  }

  // ---------------------------------------------------------------------------------------
  // The model agrees with the regular expression's backtracking semantics

  /** The chosen way, taken apart: where each of its pieces comes from. */
  lemma ChosenParts(s: string)
    ensures Chosen(s).Some? <==>
      FindFence(s, 0).Some? &&
      LazyEnd(s, BodyStart(s, FindFence(s, 0).value)).Some?
    ensures Chosen(s).Some? ==>
      var ch := Chosen(s).value;
      ch.p == FindFence(s, 0).value &&
      ch.t == TagLength(s, ch.p) &&
      ch.CaptureStart() == BodyStart(s, ch.p) &&
      LazyEnd(s, ch.CaptureStart()) == Some(ch.CaptureEnd()) &&
      SkipWhitespace(s, ch.CaptureEnd()) == ch.Closer()
  {
  }

  /** How any way that matches compares with the chosen one, piece by piece. */
  lemma ChosenBounds(s: string, m: Way)
    requires IsMatch(s, m)
    ensures Chosen(s).Some?
    ensures var ch := Chosen(s).value;
      m.p >= ch.p &&
      (m.p == ch.p ==> m.t <= ch.t) &&
      (m.p == ch.p && m.t == ch.t ==> m.w <= ch.w) &&
      (m.p == ch.p && m.t == ch.t && m.w == ch.w ==> m.n >= ch.n) &&
      (m.p == ch.p && m.t == ch.t && m.w == ch.w && m.n == ch.n ==> m.v == ch.v)
  {
    ChosenParts(s);
    var open := FindFence(s, 0).value;
    var b := BodyStart(s, open);
    FenceAfterBodyStart(s, open, m.Closer());
    ClosesAtFence(s, m.Closer());
    assert LazyEnd(s, b).Some?;
    var ch := Chosen(s).value;
    if m.p == open && m.t == ch.t {
      SkipWhitespaceIsMaximal(s, open + 3 + ch.t, m.CaptureStart());
      if m.w == ch.w {
        SkipWhitespaceLands(s, m.CaptureEnd(), m.Closer());
        assert ClosesAt(s, m.CaptureEnd());
      }
    }
  }

  /** Any way that matches is tried no earlier than the chosen one. */
  lemma ChosenFirst(s: string, m: Way)
    requires IsMatch(s, m)
    ensures Chosen(s).Some?
    ensures m == Chosen(s).value || TriedBefore(Chosen(s).value, m)
  {
    ChosenBounds(s, m);
  }

  /** A match exists exactly when some way matches, and the reported match is the way
      a backtracking matcher tries first among all ways that match. */
  lemma MatchIsFirstTried(s: string)
    ensures Chosen(s).None? <==> forall m :: !IsMatch(s, m)
    ensures Chosen(s).Some? ==>
      forall m :: IsMatch(s, m) ==> m == Chosen(s).value || TriedBefore(Chosen(s).value, m)
  {
    forall m | IsMatch(s, m)
      ensures Chosen(s).Some?
      ensures m == Chosen(s).value || TriedBefore(Chosen(s).value, m)
    {
      ChosenFirst(s, m);
    }
  }

  /** The expression matches exactly when the text holds two "```" that do not overlap. */
  lemma MatchExistsIff(s: string)
    ensures MatchFence(s).Some? <==>
      exists i, j :: FenceAt(s, i) && FenceAt(s, j) && i + 3 <= j
  {
    if i, j :| FenceAt(s, i) && FenceAt(s, j) && i + 3 <= j {
      ChosenFirst(s, Way(i, 0, 0, j - (i + 3), 0));
    }
    if Chosen(s).Some? {
      var ch := Chosen(s).value;
      assert FenceAt(s, ch.p) && FenceAt(s, ch.Closer()) && ch.p + 3 <= ch.Closer();
    }
  }

  // ---------------------------------------------------------------------------------------
  // What the lazy capture guarantees

  /** The capture neither begins nor ends with whitespace: the greedy `\s*` on either side
      has already taken it, so the `trim()` on the fence path changes nothing. */
  lemma CaptureTrimmed(s: string)
    requires MatchFence(s).Some?
    ensures Trimmed(MatchFence(s).value)
  {
    var ch := Chosen(s).value;
    var b, e := ch.CaptureStart(), ch.CaptureEnd();
    var c := MatchFence(s).value;
    assert c == s[b..e];
    if b < e {
      CaptureEndsClean(s);
      assert c[0] == s[b] && c[|c| - 1] == s[e - 1];
    }
  }

  /** The first and last characters of a non-empty capture are not whitespace: greedy `\s*`
      took all the whitespace before it, and an earlier end would have closed the lazy
      capture when whitespace comes last. */
  lemma CaptureEndsClean(s: string)
    requires Chosen(s).Some?
    ensures var ch := Chosen(s).value;
      ch.CaptureStart() < ch.CaptureEnd() ==>
        !IsWhitespace(s[ch.CaptureStart()]) && !IsWhitespace(s[ch.CaptureEnd() - 1])
  {
    ChosenParts(s);
    var ch := Chosen(s).value;
    var b, e := ch.CaptureStart(), ch.CaptureEnd();
    if b < e && IsWhitespace(s[e - 1]) {
      assert SkipWhitespace(s, e - 1) == SkipWhitespace(s, e);
      assert ClosesAt(s, e - 1);
    }
  }

  /** The capture holds no "```": the lazy `*?` stops before the first one. */
  lemma CaptureHasNoFence(s: string, k: int)
    requires MatchFence(s).Some?
    ensures !FenceAt(MatchFence(s).value, k)
  {
    var ch := Chosen(s).value;
    var b, e := ch.CaptureStart(), ch.CaptureEnd();
    var c := MatchFence(s).value;
    assert c == s[b..e];
    if 0 <= k && k + 3 <= |c| {
      assert c[k] == s[b + k] && c[k + 1] == s[b + k + 1] && c[k + 2] == s[b + k + 2];
      NoFenceInsideCapture(s, b + k);
    }
  }

  /** No "```" begins inside the capture. */
  lemma NoFenceInsideCapture(s: string, q: nat)
    requires Chosen(s).Some?
    ensures Chosen(s).value.CaptureStart() <= q < Chosen(s).value.CaptureEnd() ==> !FenceAt(s, q)
  {
    ChosenParts(s);
    if q <= |s| {
      FenceCloses(s, q);
    }
  }

  /** Every index where a "```" begins closes the lazy capture. */
  lemma FenceCloses(s: string, q: nat)
    requires q <= |s|
    ensures FenceAt(s, q) ==> ClosesAt(s, q)
  {
    if FenceAt(s, q) {
      ClosesAtFence(s, q);
    }
  }

  // ---------------------------------------------------------------------------------------
  // A plain reading of the expression, and its agreement with the match

  /** The text strictly between the first "```" and the next "```" that begins at least three
      characters later, without a leading lower-case `json`, trimmed. */
  function FirstBlock(s: string): Option<string> {
    match FindFence(s, 0)
    case None => None
    case Some(i) =>
      match FindFence(s, i + 3)
      case None => None
      case Some(j) =>
        Some(BlockText(s[i + 3..j]))
  }

  /** What is kept of the text between two fences. */
  function BlockText(inner: string): string {
    Trim(if |inner| >= 4 && inner[..4] == "json" then inner[4..] else inner)
  }

  /** When a second fence follows the first, the chosen way closes exactly on it. */
  lemma ChosenClosesOnNextFence(s: string, i: nat, j: nat)
    requires FindFence(s, 0) == Some(i) && FindFence(s, i + 3) == Some(j)
    ensures Chosen(s).Some? && Chosen(s).value.Closer() == j
  {
    ChosenParts(s);
    FenceAfterBodyStart(s, i, j);
    ClosesAtFence(s, j);
  }

  /** The plain test for the tag agrees with the one the match uses. */
  lemma TagAgrees(s: string, i: nat, j: nat)
    requires FindFence(s, 0) == Some(i) && FindFence(s, i + 3) == Some(j)
    ensures var inner := s[i + 3..j];
      (|inner| >= 4 && inner[..4] == "json") <==> TagLength(s, i) == 4
  {
    FenceAfterBodyStart(s, i, j);
    var inner := s[i + 3..j];
    if |inner| >= 4 {
      assert inner[..4] == [s[i + 3], s[i + 4], s[i + 5], s[i + 6]];
    }
  }

  /** The regular expression's group 1 is the first fenced block, tag dropped, trimmed. */
  lemma MatchIsFirstBlock(s: string)
    ensures MatchFence(s) == FirstBlock(s)
  {
    ChosenParts(s);
    ChosenHasCloser(s);
    if i :| FindFence(s, 0) == Some(i) {
      if j :| FindFence(s, i + 3) == Some(j) {
        CaptureIsFirstBlock(s, i, j);
      }
    }
  }

  /** A match needs a second fence at least three characters after the opener. */
  lemma ChosenHasCloser(s: string)
    ensures Chosen(s).Some? ==> FindFence(s, Chosen(s).value.p + 3).Some?
  {
    if Chosen(s).Some? {
      assert FenceAt(s, Chosen(s).value.Closer());
    }
  }

  lemma CaptureIsFirstBlock(s: string, i: nat, j: nat)
    requires FindFence(s, 0) == Some(i) && FindFence(s, i + 3) == Some(j)
    ensures MatchFence(s) == Some(BlockText(s[i + 3..j]))
  {
    ChosenClosesOnNextFence(s, i, j);
    ChosenParts(s);
    var ch := Chosen(s).value;
    var start := i + 3 + ch.t;
    var b, e := ch.CaptureStart(), ch.CaptureEnd();
    assert start <= b <= e <= j;
    var x := s[start..j];
    assert BlockText(s[i + 3..j]) == Trim(x) by {
      TagAgrees(s, i, j);
      assert s[i + 3..j][ch.t..] == x;
    }
    assert IsMatch(s, ch);
    assert MatchFence(s) == Some(s[b..e]);
    CaptureTrimmed(s);
    TrimOfRegion(s, start, b, e, j);
  }

  /** Text appended after a match, later fenced blocks included, does not change it. */
  lemma MatchIgnoresWhatFollows(s: string, rest: string)
    requires MatchFence(s).Some?
    ensures MatchFence(s + rest) == MatchFence(s)
  {
    MatchIsFirstBlock(s);
    MatchIsFirstBlock(s + rest);
    FirstBlockIgnoresWhatFollows(s, rest);
  }

  lemma FirstBlockIgnoresWhatFollows(s: string, rest: string)
    requires FirstBlock(s).Some?
    ensures FirstBlock(s + rest) == FirstBlock(s)
  {
    var i := FindFence(s, 0).value;
    var j := FindFence(s, i + 3).value;
    FindFenceExtended(s, rest, 0);
    FindFenceExtended(s, rest, i + 3);
    SliceOfAppend(s, rest, i + 3, j);
  }

  lemma SliceOfAppend(s: string, rest: string, a: nat, b: nat)
    requires a <= b <= |s|
    ensures (s + rest)[a..b] == s[a..b]
  {
    assert forall k :: a <= k < b ==> (s + rest)[k] == s[k];
  }

  lemma {:induction false} FindFenceExtended(s: string, rest: string, from: nat)
    requires FindFence(s, from).Some?
    ensures FindFence(s + rest, from) == FindFence(s, from)
    decreases |s| - from
  {
    assert FenceAt(s + rest, from) == FenceAt(s, from);
    if !FenceAt(s, from) {
      FindFenceExtended(s, rest, from + 1);
    }
  }

  // ---------------------------------------------------------------------------------------
  // extractJSON

  /** With no two non-overlapping "```", the result is the whole text trimmed. */
  lemma ExtractUnfenced(s: string)
    requires forall i, j :: FenceAt(s, i) && FenceAt(s, j) ==> j < i + 3
    ensures ExtractJson(s) == Trim(s)
  {
    MatchExistsIff(s);
  }

  /** On the fence path the result is the capture itself (the `trim()` there changes nothing). */
  lemma ExtractFenced(s: string)
    requires MatchFence(s).Some?
    ensures ExtractJson(s) == MatchFence(s).value
  {
    CaptureTrimmed(s);
    TrimOfTrimmed(MatchFence(s).value);
  }

  /** Extracting from an extraction changes nothing. */
  lemma ExtractIdempotent(s: string)
    ensures ExtractJson(ExtractJson(s)) == ExtractJson(s)
  {
    var r := ExtractJson(s);
    if MatchFence(s).Some? {
      ExtractFenced(s);
      forall k ensures !FenceAt(r, k) {
        CaptureHasNoFence(s, k);
      }
    } else {
      MatchExistsIff(s);
      TrimIsInfix(s);
      forall k | FenceAt(r, k) ensures FenceAt(s, Lead(s) + k) {
        assert r[k..k + 3] == s[Lead(s) + k..Lead(s) + k + 3];
      }
      TrimIdempotent(s);
    }
    MatchExistsIff(r);
    TrimOfTrimmed(r);
  }

  // ---------------------------------------------------------------------------------------
  // A reply holding one fenced block

  /** FindFence stops at the first fence from `from` on. */
  lemma {:induction false} FindFenceAt(s: string, from: nat, j: nat)
    requires from <= j && FenceAt(s, j)
    requires forall k :: from <= k < j ==> !FenceAt(s, k)
    ensures FindFence(s, from) == Some(j)
    decreases j - from
  {
    if from < j {
      FindFenceAt(s, from + 1, j);
    }
  }

  /** A reply made of one fenced block whose text holds no backtick gives that block's text,
      the lower-case tag dropped and the whitespace trimmed. */
  lemma ExtractSingleBlock(inner: string)
    requires forall k :: 0 <= k < |inner| ==> inner[k] != '`'
    ensures ExtractJson("```" + inner + "```") == BlockText(inner)
  {
    var s := "```" + inner + "```";
    var j := 3 + |inner|;
    FindFenceAt(s, 0, 0);
    forall k | 3 <= k < j ensures !FenceAt(s, k) {
      assert s[k] == inner[k - 3];
    }
    FindFenceAt(s, 3, j);
    assert s[3..j] == inner;
    MatchIsFirstBlock(s);
    ExtractFenced(s);
  }

  /** Only the lower-case tag is dropped: "```JSON\n{}```" gives "JSON\n{}". */
  lemma UpperCaseTagKept()
    ensures ExtractJson("```" + "JSON\n{}" + "```") == "JSON\n{}"
  {
    var inner := "JSON\n{}";
    assert inner[..4] != "json" by {
      assert inner[..4][0] == 'J';
    }
    assert Trimmed(inner);
    TrimOfTrimmed(inner);
    assert BlockText(inner) == inner;
    ExtractSingleBlock(inner);
  }

  /** The tag is dropped even when more letters follow it: "```json5 x```" gives "5 x". */
  lemma TagPrefixDropped()
    ensures ExtractJson("```" + "json5 x" + "```") == "5 x"
  {
    var inner := "json5 x";
    assert inner[..4] == "json";
    assert inner[4..] == "5 x";
    ExtractSingleBlock(inner);
    TrimOfTrimmed("5 x");
  }
}
