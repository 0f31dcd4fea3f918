/** CoverLetterModal.js, the pure half: how a letter line is cut into
    bold and plain words at `**…**` spans (the regular expression
    `/(\*\*.*?\*\*)/g`), how the words are packed greedily into sub-lines,
    how each line is classified, how the cursor advances and pages break
    (as a specification of the drawing loop in `LetterPdf`), and the
    on-screen rendering, the copied text and the file name. */
module LetterText {
  import opened Wrappers
  import opened TextOps

  // ----- the `**…**` spans -----

  /** The characters `.` does not match in a JavaScript regular expression. */
  predicate IsLineTerminator(c: char) {
    c == '\n' || c == '\r' || c == '\U{2028}' || c == '\U{2029}'
  }

  predicate MarkerAt(s: string, k: int) {
    0 <= k && k + 2 <= |s| && s[k] == '*' && s[k + 1] == '*'
  }

  /** The lazy `.*?\*\*` from `k`: the first `**` at or after `k`, as long
      as no line terminator comes before it. */
  function CloseFrom(s: string, k: nat): (r: Option<nat>)
    requires k <= |s|
    ensures r.Some? ==> k <= r.value && MarkerAt(s, r.value)
    decreases |s| - k
  {
    if MarkerAt(s, k) then Some(k)
    else if k < |s| && !IsLineTerminator(s[k]) then CloseFrom(s, k + 1)
    else None
  }

  /** The end of a match of `\*\*.*?\*\*` starting at `i`, if one starts there. */
  function MatchAt(s: string, i: nat): (r: Option<nat>)
    requires i <= |s|
    ensures r.Some? ==> i + 4 <= r.value <= |s| && MarkerAt(s, i) && MarkerAt(s, r.value - 2)
  {
    if MarkerAt(s, i) then
      match CloseFrom(s, i + 2)
      case Some(j) => Some(j + 2)
      case None => None
    else None
  }

  /** The leftmost match at or after `i`. */
  function FirstMatch(s: string, i: nat): (r: Option<(nat, nat)>)
    requires i <= |s|
    ensures r.Some? ==> i <= r.value.0 && r.value.0 + 4 <= r.value.1 <= |s|
    ensures r.Some? ==> MatchAt(s, r.value.0) == Some(r.value.1)
    decreases |s| - i
  {
    match MatchAt(s, i)
    case Some(e) => Some((i, e))
    case None => if i < |s| then FirstMatch(s, i + 1) else None
  }

  /** A piece of `split` with a capturing group: the text between matches,
      or a match itself. */
  datatype Part = Gap(text: string) | Marked(text: string)

  /** `s.split(/(\*\*.*?\*\*)/g)`, with each piece tagged. */
  function SplitParts(s: string): (ps: seq<Part>)
    ensures |ps| >= 1
    decreases |s|
  {
    match FirstMatch(s, 0)
    case None => [Gap(s)]
    case Some((i, e)) => [Gap(s[..i]), Marked(s[i..e])] + SplitParts(s[e..])
  }

  function PartsText(ps: seq<Part>): string {
    if ps == [] then [] else ps[0].text + PartsText(ps[1..])
  }

  lemma {:induction false} PartsTextAppend(a: seq<Part>, b: seq<Part>)
    ensures PartsText(a + b) == PartsText(a) + PartsText(b)
  {
    if a != [] {
      assert (a + b)[0] == a[0];
      assert (a + b)[1..] == a[1..] + b;
      PartsTextAppend(a[1..], b);
      assert a[0].text + (PartsText(a[1..]) + PartsText(b)) == (a[0].text + PartsText(a[1..])) + PartsText(b);
    } else {
      assert a + b == b;
    }
  }

  /** The pieces put back together are the line. */
  lemma {:induction false} SplitPartsCover(s: string)
    ensures PartsText(SplitParts(s)) == s
    decreases |s|
  {
    match FirstMatch(s, 0)
    case None =>
    case Some((i, e)) =>
      var pre := [Gap(s[..i]), Marked(s[i..e])];
      var rest := SplitParts(s[e..]);
      assert SplitParts(s) == pre + rest;
      SplitPartsCover(s[e..]);
      PartsTextAppend(pre, rest);
      PairText(s[..i], s[i..e]);
      ThreeSlices(s, i, e);
  }

  lemma {:induction false} PairText(a: string, b: string)
    ensures PartsText([Gap(a), Marked(b)]) == a + b
  {
    var ps := [Gap(a), Marked(b)];
    var tail := [Marked(b)];
    assert ps[1..] == tail;
    assert tail[1..] == [];
    assert PartsText(tail) == b + [];
    assert PartsText(ps) == a + PartsText(tail);
    assert b + [] == b;
  }

  lemma {:induction false} ThreeSlices(s: string, i: nat, e: nat)
    requires i <= e <= |s|
    ensures s[..i] + s[i..e] + s[e..] == s
  {
  }

  /** A `**…**` span of four characters or more. */
  predicate IsSpan(t: string) {
    |t| >= 4 && StartsWith(t, "**") && EndsWith(t, "**")
  }

  predicate SpansMarked(ps: seq<Part>) {
    forall k :: 0 <= k < |ps| && ps[k].Marked? ==> IsSpan(ps[k].text)
  }

  /** Every match is a `**…**` span of four characters or more. */
  lemma {:induction false} MarkedSpans(s: string)
    ensures SpansMarked(SplitParts(s))
    decreases |s|
  {
    match FirstMatch(s, 0)
    case None =>
    case Some((i, e)) =>
      MarkedSpans(s[e..]);
      MatchIsSpan(s, i, e);
      var rest := SplitParts(s[e..]);
      assert SplitParts(s) == [Gap(s[..i]), Marked(s[i..e])] + rest;
      ConsSpans(s[..i], s[i..e], rest);
  }

  lemma {:induction false} MatchIsSpan(s: string, i: nat, e: nat)
    requires i <= |s| && MatchAt(s, i) == Some(e)
    ensures e <= |s| && IsSpan(s[i..e])
  {
    var t := s[i..e];
    assert t[..2] == "**" by { assert t[0] == s[i] && t[1] == s[i + 1]; }
    assert t[|t| - 2..] == "**" by { assert t[|t| - 2] == s[e - 2] && t[|t| - 1] == s[e - 1]; }
  }

  lemma {:induction false} ConsSpans(a: string, t: string, rest: seq<Part>)
    requires IsSpan(t) && SpansMarked(rest)
    ensures SpansMarked([Gap(a), Marked(t)] + rest)
  {
    var ps := [Gap(a), Marked(t)] + rest;
    forall k | 0 <= k < |ps| && ps[k].Marked? ensures IsSpan(ps[k].text) {
      if k >= 2 {
        assert ps[k] == rest[k - 2];
      }
    }
  }

  function Texts(ps: seq<Part>): (ts: seq<string>)
    ensures |ts| == |ps|
    ensures forall k :: 0 <= k < |ps| ==> ts[k] == ps[k].text
  {
    if ps == [] then [] else [ps[0].text] + Texts(ps[1..])
  }

  /** `line.split(/(\*\*.*?\*\*)/g).filter(p => p)`. */
  function Pieces(line: string): seq<string> {
    NonEmpty(Texts(SplitParts(line)))
  }

  /** A line with no `**` has no match: it is one piece. */
  lemma {:induction false} NoMarkerNoMatch(s: string, i: nat)
    requires i <= |s|
    requires !Contains(s, "**")
    ensures FirstMatch(s, i).None?
    decreases |s| - i
  {
    if MarkerAt(s, i) {
      assert OccursAt(s, "**", i);
      ContainsIff(s, "**");
    }
    if i < |s| {
      NoMarkerNoMatch(s, i + 1);
    }
  }

  // ----- words -----

  /** A word of a mixed-style line and whether it is drawn bold. */
  datatype Word = Word(text: string, bold: bool)

  /** `part.startsWith('**') && part.endsWith('**')`. */
  predicate IsBoldPart(p: string) {
    StartsWith(p, "**") && EndsWith(p, "**")
  }

  /** `part.slice(2, -2)`: empty when the part is shorter than four characters. */
  function Inner(p: string): string {
    if |p| >= 4 then p[2..|p| - 2] else []
  }

  function PartText(p: string): string {
    if IsBoldPart(p) then Inner(p) else p
  }

  function MakeWords(ws: seq<string>, bold: bool): (r: seq<Word>)
    ensures |r| == |ws|
    ensures forall k :: 0 <= k < |ws| ==> r[k] == Word(ws[k], bold)
  {
    if ws == [] then [] else [Word(ws[0], bold)] + MakeWords(ws[1..], bold)
  }

  /** `text.split(' ').filter(w => w)`, each word with the part's style. */
  function PartWords(p: string): seq<Word> {
    MakeWords(NonEmpty(Split(PartText(p), ' ')), IsBoldPart(p))
  }

  /** The words of the first `n` parts, in order (the `words` array after
      `n` rounds of the `forEach`). */
  function WordsOfParts(parts: seq<string>): seq<Word> {
    if parts == [] then []
    else WordsOfParts(parts[..|parts| - 1]) + PartWords(parts[|parts| - 1])
  }

  /** A word as the split leaves it: not empty and without a space. */
  predicate CleanWord(w: Word) {
    w.text != [] && ' ' !in w.text
  }

  /** Every word of a part is clean and has the part's style. */
  lemma {:induction false} PartWordsClean(p: string)
    ensures forall k :: 0 <= k < |PartWords(p)| ==> CleanWord(PartWords(p)[k]) && PartWords(p)[k].bold == IsBoldPart(p)
  {
    var ws := NonEmpty(Split(PartText(p), ' '));
    assert forall k :: 0 <= k < |ws| ==> ws[k] in Split(PartText(p), ' ');
  }

  lemma {:induction false} WordsOfPartsClean(parts: seq<string>)
    ensures forall k :: 0 <= k < |WordsOfParts(parts)| ==> CleanWord(WordsOfParts(parts)[k])
  {
    if parts != [] {
      var init: seq<Word> := WordsOfParts(parts[..|parts| - 1]);
      var last: seq<Word> := PartWords(parts[|parts| - 1]);
      WordsOfPartsClean(parts[..|parts| - 1]);
      PartWordsClean(parts[|parts| - 1]);
      ConcatClean(init, last);
    }
  }

  lemma {:induction false} ConcatClean(a: seq<Word>, b: seq<Word>)
    requires forall k :: 0 <= k < |a| ==> CleanWord(a[k])
    requires forall k :: 0 <= k < |b| ==> CleanWord(b[k])
    ensures forall k :: 0 <= k < |a + b| ==> CleanWord((a + b)[k])
  {
  }

  lemma {:induction false} MakeWordsSnoc(ws: seq<string>, j: nat, bold: bool)
    requires j < |ws|
    ensures MakeWords(ws[..j + 1], bold) == MakeWords(ws[..j], bold) + [Word(ws[j], bold)]
  {
    assert ws[..j + 1] == ws[..j] + [ws[j]];
    MakeWordsAppend(ws[..j], [ws[j]], bold);
  }

  lemma {:induction false} MakeWordsAppend(a: seq<string>, b: seq<string>, bold: bool)
    ensures MakeWords(a + b, bold) == MakeWords(a, bold) + MakeWords(b, bold)
  {
    if a != [] {
      assert (a + b)[1..] == a[1..] + b;
      MakeWordsAppend(a[1..], b, bold);
    }
  }

  /** One more part adds its words at the end. */
  lemma {:induction false} WordsOfPartsSnoc(parts: seq<string>, i: nat)
    requires i < |parts|
    ensures WordsOfParts(parts[..i + 1]) == WordsOfParts(parts[..i]) + PartWords(parts[i])
  {
    assert parts[..i + 1][..i] == parts[..i];
  }

  /** The words of a mixed-style line. */
  function Tokenise(line: string): seq<Word> {
    WordsOfParts(Pieces(line))
  }

  /** No word of a mixed-style line is empty or holds a space. */
  lemma {:induction false} TokeniseClean(line: string)
    ensures forall k :: 0 <= k < |Tokenise(line)| ==> CleanWord(Tokenise(line)[k])
  {
    WordsOfPartsClean(Pieces(line));
  }

  /** A line without markers is its space-separated words, all plain. */
  lemma {:induction false} TokenisePlain(line: string)
    requires !Contains(line, "**")
    ensures Tokenise(line) == MakeWords(NonEmpty(Split(line, ' ')), false)
  {
    NoMarkerNoMatch(line, 0);
    assert SplitParts(line) == [Gap(line)];
    if line == [] {
      assert Pieces(line) == [];
      assert Split(line, ' ') == [""];
      assert NonEmpty([""][1..]) == [];
    } else {
      assert NonEmpty([line][1..]) == [];
      assert Pieces(line) == [line];
      assert !StartsWith(line, "**");
      assert WordsOfParts([line]) == WordsOfParts([]) + PartWords(line);
    }
  }

  /** `**text**` with no `*` and no line break inside is all bold words. */
  lemma {:induction false} TokeniseBold(t: string)
    requires t != [] && '*' !in t && forall k :: 0 <= k < |t| ==> !IsLineTerminator(t[k])
    ensures Tokenise("**" + t + "**") == MakeWords(NonEmpty(Split(t, ' ')), true)
  {
    var s := "**" + t + "**";
    SpanIsOnePiece(t);
    SpanIsBold(t);
    assert WordsOfParts([s]) == WordsOfParts([]) + PartWords(s);
  }

  lemma {:induction false} SpanIsOnePiece(t: string)
    requires t != [] && '*' !in t && forall k :: 0 <= k < |t| ==> !IsLineTerminator(t[k])
    ensures Pieces("**" + t + "**") == ["**" + t + "**"]
  {
    var s := "**" + t + "**";
    SpanMatch(t);
    assert s[|s|..] == [];
    assert SplitParts([]) == [Gap([])];
    assert s[..0] == [] && s[0..|s|] == s;
    assert SplitParts(s) == [Gap([]), Marked(s)] + SplitParts([]);
    var ts := Texts(SplitParts(s));
    assert ts == [[], s, []];
    assert NonEmpty([[]]) == [];
    assert [s, []][1..] == [[]];
    assert NonEmpty([s, []]) == [s] + NonEmpty([[]]);
    assert ts[1..] == [s, []];
    assert NonEmpty(ts) == NonEmpty(ts[1..]);
  }

  lemma {:induction false} SpanMatch(t: string)
    requires t != [] && '*' !in t && forall k :: 0 <= k < |t| ==> !IsLineTerminator(t[k])
    ensures FirstMatch("**" + t + "**", 0) == Some((0, |t| + 4))
  {
    var s := "**" + t + "**";
    forall j | 2 <= j < |s| - 2 ensures s[j] != '*' && !IsLineTerminator(s[j]) {
      assert s[j] == t[j - 2];
    }
    CloseOfSpan(s, 2);
  }

  lemma {:induction false} SpanIsBold(t: string)
    requires t != []
    ensures IsBoldPart("**" + t + "**") && Inner("**" + t + "**") == t
  {
    var s := "**" + t + "**";
    assert s[..2] == "**";
    assert s[|s| - 2..] == "**";
    assert s[2..|s| - 2] == t;
  }

  lemma {:induction false} CloseOfSpan(s: string, k: nat)
    requires 2 <= k <= |s| - 2 && MarkerAt(s, |s| - 2)
    requires forall j :: 2 <= j < |s| - 2 ==> s[j] != '*' && !IsLineTerminator(s[j])
    ensures CloseFrom(s, k) == Some(|s| - 2)
    decreases |s| - k
  {
    if k < |s| - 2 {
      CloseOfSpan(s, k + 1);
    }
  }

  // ----- greedy packing -----

  /** The page measurements: `doc.getTextWidth` at the body size, by style,
      and `doc.splitTextToSize` at the body width. */
  datatype Measure = Measure(width: (string, bool) -> real, wrap: string -> seq<string>)

  ghost predicate NonNegative(m: Measure) {
    forall t, b :: m.width(t, b) >= 0.0
  }

  function WordWidth(m: Measure, w: Word): real {
    m.width(w.text, w.bold)
  }

  /** `doc.getTextWidth(' ')` in the normal style. */
  function SpaceWidth(m: Measure): real {
    m.width(" ", false)
  }

  /** Letter paper in points, and the margins of 2 cm and 2.5 cm. */
  const PageWidth: real := 612.0
  const PageHeight: real := 792.0
  const MarginTop: real := 2.0 * 28.35
  const MarginBottom: real := 2.0 * 28.35
  const MarginSide: real := 2.5 * 28.35
  const FontSizeBody := 12
  const FontSizeName := 14
  const LineHeightBody: real := 12.0 * 1.5
  const LineHeightName: real := 14.0 * 1.5
  const MaxWidth: real := PageWidth - MarginSide * 2.0

  /** The height of `n` body lines: `n * LINE_HEIGHT_BODY`, 18 pt each. */
  function BodyLines(n: int): (h: real)
    ensures n >= 0 ==> h >= 0.0
  {
    18.0 * (n as real)
  }

  /** The width the loop accumulates for a sub-line: the words' widths
      with one space between neighbours. */
  function LineWidth(m: Measure, ws: seq<Word>): real {
    if ws == [] then 0.0
    else if |ws| == 1 then WordWidth(m, ws[0])
    else LineWidth(m, ws[..|ws| - 1]) + SpaceWidth(m) + WordWidth(m, ws[|ws| - 1])
  }

  /** The packing loop from a state: `cur` is `currentLineWords` and `curW`
      is `currentLineWidth`. A word starts a new sub-line only when the
      current one has a positive width and the word would push it past the
      maximum width. */
  function PackFrom(m: Measure, words: seq<Word>, cur: seq<Word>, curW: real): seq<seq<Word>>
    decreases |words|
  {
    if words == [] then (if cur == [] then [] else [cur])
    else
      var ww := WordWidth(m, words[0]);
      if curW > 0.0 && curW + SpaceWidth(m) + ww > MaxWidth then
        [cur] + PackFrom(m, words[1..], [words[0]], ww)
      else
        PackFrom(m, words[1..], cur + [words[0]],
                 curW + (if |cur + [words[0]]| > 1 then SpaceWidth(m) else 0.0) + ww)
  }

  /** One round of the packing loop over the word at `i`. */
  lemma {:induction false} PackFromStep(m: Measure, words: seq<Word>, i: nat, cur: seq<Word>, curW: real)
    requires i < |words|
    ensures var ww := WordWidth(m, words[i]);
      PackFrom(m, words[i..], cur, curW)
      == if curW > 0.0 && curW + SpaceWidth(m) + ww > MaxWidth
         then [cur] + PackFrom(m, words[i + 1..], [words[i]], ww)
         else PackFrom(m, words[i + 1..], cur + [words[i]],
                       curW + (if |cur + [words[i]]| > 1 then SpaceWidth(m) else 0.0) + ww)
  {
    assert words[i..][0] == words[i] && words[i..][1..] == words[i + 1..];
  }

  /** The loop's round over word `i` when it closes the current sub-line. */
  lemma {:induction false} PackBreakStep(m: Measure, words: seq<Word>, i: nat, emitted: seq<seq<Word>>,
                                         cur: seq<Word>, curW: real)
    requires i < |words|
    requires curW > 0.0 && curW + SpaceWidth(m) + WordWidth(m, words[i]) > MaxWidth
    ensures emitted + PackFrom(m, words[i..], cur, curW)
            == (emitted + [cur]) + PackFrom(m, words[i + 1..], [words[i]], WordWidth(m, words[i]))
  {
    PackFromStep(m, words, i, cur, curW);
    var rest := PackFrom(m, words[i + 1..], [words[i]], WordWidth(m, words[i]));
    assert emitted + ([cur] + rest) == (emitted + [cur]) + rest;
  }

  /** The loop's round over word `i` when the word joins the current sub-line. */
  lemma {:induction false} PackJoinStep(m: Measure, words: seq<Word>, i: nat, cur: seq<Word>, curW: real)
    requires i < |words|
    requires !(curW > 0.0 && curW + SpaceWidth(m) + WordWidth(m, words[i]) > MaxWidth)
    ensures PackFrom(m, words[i..], cur, curW)
            == PackFrom(m, words[i + 1..], cur + [words[i]],
                        curW + (if |cur + [words[i]]| > 1 then SpaceWidth(m) else 0.0) + WordWidth(m, words[i]))
  {
    PackFromStep(m, words, i, cur, curW);
  }

  /** After the last word, the current sub-line is the last one, if any. */
  lemma {:induction false} PackFinish(m: Measure, words: seq<Word>, emitted: seq<seq<Word>>, cur: seq<Word>, curW: real)
    requires emitted + PackFrom(m, words[|words|..], cur, curW) == Pack(m, words)
    ensures (if cur == [] then emitted else emitted + [cur]) == Pack(m, words)
  {
    assert words[|words|..] == [];
  }

  /** One more body line. */
  lemma {:induction false} BodyLinesSucc(n: nat)
    ensures BodyLines(n + 1) == BodyLines(n) + LineHeightBody
  {
  }

  /** The sub-lines of a mixed-style line. */
  function Pack(m: Measure, words: seq<Word>): seq<seq<Word>> {
    PackFrom(m, words, [], 0.0)
  }

  function Flatten<T>(xss: seq<seq<T>>): seq<T> {
    if xss == [] then [] else xss[0] + Flatten(xss[1..])
  }

  /** The loop's width is the width of its current words. */
  predicate PackState(m: Measure, cur: seq<Word>, curW: real) {
    curW == LineWidth(m, cur)
  }

  /** Every word lands in exactly one sub-line, in order, unsplit. */
  lemma {:induction false} PackKeepsWords(m: Measure, words: seq<Word>, cur: seq<Word>, curW: real)
    ensures Flatten(PackFrom(m, words, cur, curW)) == cur + words
    decreases |words|
  {
    if words == [] {
      if cur != [] {
        assert Flatten([cur]) == cur + Flatten([cur][1..]);
      }
    } else {
      var ww := WordWidth(m, words[0]);
      if curW > 0.0 && curW + SpaceWidth(m) + ww > MaxWidth {
        PackKeepsWords(m, words[1..], [words[0]], ww);
        var rest := PackFrom(m, words[1..], [words[0]], ww);
        assert ([cur] + rest)[1..] == rest;
        assert [words[0]] + words[1..] == words;
      } else {
        var cur' := cur + [words[0]];
        PackKeepsWords(m, words[1..], cur', curW + (if |cur'| > 1 then SpaceWidth(m) else 0.0) + ww);
        assert cur' + words[1..] == cur + words;
      }
    }
  }

  /** No sub-line is empty: a break needs a current line of positive width. */
  lemma {:induction false} PackNonEmpty(m: Measure, words: seq<Word>, cur: seq<Word>, curW: real)
    requires cur == [] ==> curW == 0.0
    ensures forall k :: 0 <= k < |PackFrom(m, words, cur, curW)| ==> PackFrom(m, words, cur, curW)[k] != []
    decreases |words|
  {
    if words != [] {
      var ww := WordWidth(m, words[0]);
      if curW > 0.0 && curW + SpaceWidth(m) + ww > MaxWidth {
        PackNonEmpty(m, words[1..], [words[0]], ww);
      } else {
        var cur' := cur + [words[0]];
        PackNonEmpty(m, words[1..], cur', curW + (if |cur'| > 1 then SpaceWidth(m) else 0.0) + ww);
      }
    }
  }

  lemma {:induction false} LineWidthPush(m: Measure, cur: seq<Word>, w: Word)
    ensures LineWidth(m, cur + [w]) == LineWidth(m, cur) + (if |cur + [w]| > 1 then SpaceWidth(m) else 0.0) + WordWidth(m, w)
  {
    assert (cur + [w])[..|cur|] == cur;
  }

  /** The break between sub-lines `a` and `b` was forced: `a` had a
      positive width and `b`'s first word would have pushed it past the
      maximum width. */
  predicate BreakForced(m: Measure, a: seq<Word>, b: seq<Word>) {
    b != [] && LineWidth(m, a) > 0.0
    && LineWidth(m, a) + SpaceWidth(m) + WordWidth(m, b[0]) > MaxWidth
  }

  /** Every break between consecutive sub-lines of `r` was forced. */
  predicate AllBreaksForced(m: Measure, r: seq<seq<Word>>) {
    forall k :: 0 <= k < |r| - 1 ==> BreakForced(m, r[k], r[k + 1])
  }

  /** Greedy: a sub-line ends only where the next word would not fit. */
  lemma {:induction false} PackGreedy(m: Measure, words: seq<Word>, cur: seq<Word>, curW: real)
    requires PackState(m, cur, curW)
    ensures AllBreaksForced(m, PackFrom(m, words, cur, curW))
    decreases |words|
  {
    if words != [] {
      var ww := WordWidth(m, words[0]);
      if curW > 0.0 && curW + SpaceWidth(m) + ww > MaxWidth {
        PackGreedyBreak(m, words, cur, curW);
      } else {
        var cur' := cur + [words[0]];
        LineWidthPush(m, cur, words[0]);
        var w' := curW + (if |cur'| > 1 then SpaceWidth(m) else 0.0) + ww;
        PackGreedy(m, words[1..], cur', w');
        assert PackFrom(m, words, cur, curW) == PackFrom(m, words[1..], cur', w');
      }
    }
  }

  /** The step of `PackGreedy` where the word starts a new sub-line. */
  lemma {:induction false} PackGreedyBreak(m: Measure, words: seq<Word>, cur: seq<Word>, curW: real)
    requires PackState(m, cur, curW)
    requires words != [] && curW > 0.0 && curW + SpaceWidth(m) + WordWidth(m, words[0]) > MaxWidth
    ensures AllBreaksForced(m, PackFrom(m, words, cur, curW))
    decreases |words|, 0
  {
    var ww := WordWidth(m, words[0]);
    assert LineWidth(m, [words[0]]) == ww;
    PackGreedy(m, words[1..], [words[0]], ww);
    PackStartsWith(m, words[1..], [words[0]], ww);
    var rest := PackFrom(m, words[1..], [words[0]], ww);
    var r := [cur] + rest;
    assert r == PackFrom(m, words, cur, curW);
    assert BreakForced(m, r[0], r[1]);
    forall k | 1 <= k < |r| - 1 ensures BreakForced(m, r[k], r[k + 1]) {
      assert r[k] == rest[k - 1] && r[k + 1] == rest[k];
    }
  }

  /** The first sub-line begins with the current words. */
  lemma {:induction false} PackStartsWith(m: Measure, words: seq<Word>, cur: seq<Word>, curW: real)
    requires cur != []
    ensures |PackFrom(m, words, cur, curW)| >= 1 && PackFrom(m, words, cur, curW)[0] != []
      && PackFrom(m, words, cur, curW)[0][0] == cur[0]
    decreases |words|
  {
    if words != [] {
      var ww := WordWidth(m, words[0]);
      if !(curW > 0.0 && curW + SpaceWidth(m) + ww > MaxWidth) {
        var cur' := cur + [words[0]];
        PackStartsWith(m, words[1..], cur', curW + (if |cur'| > 1 then SpaceWidth(m) else 0.0) + ww);
      }
    }
  }

  /** Every word has a positive width. */
  predicate Positive(m: Measure, ws: seq<Word>) {
    forall k :: 0 <= k < |ws| ==> WordWidth(m, ws[k]) > 0.0
  }

  /** Every sub-line of two words or more fits within the maximum width. */
  predicate LinesFit(m: Measure, r: seq<seq<Word>>) {
    forall k :: 0 <= k < |r| && |r[k]| >= 2 ==> LineWidth(m, r[k]) <= MaxWidth
  }

  /** With words of positive width, every sub-line of two words or more
      fits within the maximum width. */
  lemma {:induction false} PackFits(m: Measure, words: seq<Word>, cur: seq<Word>, curW: real)
    requires NonNegative(m)
    requires Positive(m, words) && Positive(m, cur)
    requires PackState(m, cur, curW)
    requires |cur| >= 2 ==> curW <= MaxWidth
    ensures LinesFit(m, PackFrom(m, words, cur, curW))
    decreases |words|, 1
  {
    if words == [] {
      assert cur != [] ==> PackFrom(m, words, cur, curW) == [cur];
    } else if curW > 0.0 && curW + SpaceWidth(m) + WordWidth(m, words[0]) > MaxWidth {
      PackFitsBreak(m, words, cur, curW);
    } else {
      PackFitsJoin(m, words, cur, curW);
    }
  }

  /** The step of `PackFits` where the word starts a new sub-line. */
  lemma {:induction false} PackFitsBreak(m: Measure, words: seq<Word>, cur: seq<Word>, curW: real)
    requires NonNegative(m)
    requires Positive(m, words) && Positive(m, cur)
    requires PackState(m, cur, curW)
    requires |cur| >= 2 ==> curW <= MaxWidth
    requires words != [] && curW > 0.0 && curW + SpaceWidth(m) + WordWidth(m, words[0]) > MaxWidth
    ensures LinesFit(m, PackFrom(m, words, cur, curW))
    decreases |words|, 0
  {
    var ww := WordWidth(m, words[0]);
    PositiveTail(m, words);
    assert LineWidth(m, [words[0]]) == ww;
    PackFits(m, words[1..], [words[0]], ww);
    var rest := PackFrom(m, words[1..], [words[0]], ww);
    assert PackFrom(m, words, cur, curW) == [cur] + rest;
    ConsFits(m, cur, rest);
  }

  /** The step of `PackFits` where the word joins the current sub-line. */
  lemma {:induction false} PackFitsJoin(m: Measure, words: seq<Word>, cur: seq<Word>, curW: real)
    requires NonNegative(m)
    requires Positive(m, words) && Positive(m, cur)
    requires PackState(m, cur, curW)
    requires |cur| >= 2 ==> curW <= MaxWidth
    requires words != [] && !(curW > 0.0 && curW + SpaceWidth(m) + WordWidth(m, words[0]) > MaxWidth)
    ensures LinesFit(m, PackFrom(m, words, cur, curW))
    decreases |words|, 0
  {
    var ww := WordWidth(m, words[0]);
    var cur' := cur + [words[0]];
    var w' := curW + (if |cur'| > 1 then SpaceWidth(m) else 0.0) + ww;
    PositiveTail(m, words);
    LineWidthPush(m, cur, words[0]);
    if cur != [] {
      LineWidthPositive(m, cur);
    }
    PositiveSnoc(m, cur, words[0]);
    PackFits(m, words[1..], cur', w');
    assert PackFrom(m, words, cur, curW) == PackFrom(m, words[1..], cur', w');
  }

  lemma {:induction false} PositiveTail(m: Measure, ws: seq<Word>)
    requires ws != [] && Positive(m, ws)
    ensures Positive(m, ws[1..]) && WordWidth(m, ws[0]) > 0.0
  {
    forall k | 0 <= k < |ws[1..]| ensures WordWidth(m, ws[1..][k]) > 0.0 {
      assert ws[1..][k] == ws[k + 1];
    }
  }

  lemma {:induction false} PositiveSnoc(m: Measure, ws: seq<Word>, w: Word)
    requires Positive(m, ws) && WordWidth(m, w) > 0.0
    ensures Positive(m, ws + [w])
  {
    var r := ws + [w];
    forall k | 0 <= k < |r| ensures WordWidth(m, r[k]) > 0.0 {
      if k < |ws| {
        assert r[k] == ws[k];
      }
    }
  }

  lemma {:induction false} ConsFits(m: Measure, a: seq<Word>, rest: seq<seq<Word>>)
    requires |a| >= 2 ==> LineWidth(m, a) <= MaxWidth
    requires LinesFit(m, rest)
    ensures LinesFit(m, [a] + rest)
  {
    var r := [a] + rest;
    forall k | 0 <= k < |r| && |r[k]| >= 2 ensures LineWidth(m, r[k]) <= MaxWidth {
      if k > 0 {
        assert r[k] == rest[k - 1];
      }
    }
  }

  lemma {:induction false} LineWidthPositive(m: Measure, ws: seq<Word>)
    requires NonNegative(m)
    requires ws != [] && forall k :: 0 <= k < |ws| ==> WordWidth(m, ws[k]) > 0.0
    ensures LineWidth(m, ws) > 0.0
  {
    if |ws| > 1 {
      LineWidthPositive(m, ws[..|ws| - 1]);
    }
  }

  /** A sub-line is at least as wide as any of its words. */
  lemma {:induction false} LineWidthCoversWord(m: Measure, ws: seq<Word>, i: nat)
    requires NonNegative(m)
    requires i < |ws|
    ensures WordWidth(m, ws[i]) <= LineWidth(m, ws)
  {
    if |ws| > 1 {
      if i < |ws| - 1 {
        LineWidthCoversWord(m, ws[..|ws| - 1], i);
      }
      LineWidthNonNegative(m, ws[..|ws| - 1]);
    }
  }

  lemma {:induction false} LineWidthNonNegative(m: Measure, ws: seq<Word>)
    requires NonNegative(m)
    ensures LineWidth(m, ws) >= 0.0
  {
    if |ws| > 1 {
      LineWidthNonNegative(m, ws[..|ws| - 1]);
    }
  }

  /** A word wider than the maximum width sits alone on its sub-line. */
  lemma {:induction false} OverWideAlone(m: Measure, words: seq<Word>, k: nat, i: nat)
    requires NonNegative(m)
    requires forall j :: 0 <= j < |words| ==> WordWidth(m, words[j]) > 0.0
    requires k < |Pack(m, words)| && i < |Pack(m, words)[k]|
    requires WordWidth(m, Pack(m, words)[k][i]) > MaxWidth
    ensures Pack(m, words)[k] == [Pack(m, words)[k][i]]
  {
    var r := Pack(m, words);
    PackFits(m, words, [], 0.0);
    PackNonEmpty(m, words, [], 0.0);
    LineWidthCoversWord(m, r[k], i);
  }

  /** A line draws no sub-line exactly when it has no words. */
  lemma {:induction false} PackEmptyIff(m: Measure, words: seq<Word>)
    ensures Pack(m, words) == [] <==> words == []
  {
    PackKeepsWords(m, words, [], 0.0);
  }

  // ----- where each word of a sub-line is drawn -----

  /** `currentX` before the `i`-th word of a sub-line: each word advances it
      by its width and one space. */
  function XAt(m: Measure, ws: seq<Word>, i: nat): real
    requires i <= |ws|
  {
    if i == 0 then MarginSide else XAt(m, ws, i - 1) + WordWidth(m, ws[i - 1]) + SpaceWidth(m)
  }

  lemma {:induction false} XAtPrefix(m: Measure, ws: seq<Word>, n: nat, i: nat)
    requires i <= n <= |ws|
    ensures XAt(m, ws[..n], i) == XAt(m, ws, i)
  {
    if i > 0 {
      XAtPrefix(m, ws, n, i - 1);
    }
  }

  /** The last word of a sub-line ends at the left margin plus the width
      the packing loop measured for it. */
  lemma {:induction false} LineRightEdge(m: Measure, ws: seq<Word>)
    requires ws != []
    ensures XAt(m, ws, |ws| - 1) + WordWidth(m, ws[|ws| - 1]) == MarginSide + LineWidth(m, ws)
  {
    if |ws| > 1 {
      var init := ws[..|ws| - 1];
      LineRightEdge(m, init);
      XAtPrefix(m, ws, |ws| - 1, |ws| - 2);
      assert init[|init| - 1] == ws[|ws| - 2];
    }
  }

  /** A drawing call of jsPDF: `doc.text(lines, x, y, options)` on a page,
      in the font style and size current at the time. */
  datatype Draw = Draw(page: nat, lines: seq<string>, x: real, y: real, bold: bool, size: nat, justify: bool)

  /** The first `n` words of a sub-line drawn at height `y`, one call each. */
  function WordDraws(m: Measure, ws: seq<Word>, n: nat, page: nat, y: real): (r: seq<Draw>)
    requires n <= |ws|
    ensures |r| == n
  {
    if n == 0 then []
    else WordDraws(m, ws, n - 1, page, y)
         + [Draw(page, [ws[n - 1].text], XAt(m, ws, n - 1), y, ws[n - 1].bold, FontSizeBody, false)]
  }

  /** The sub-lines of a mixed-style line, one body line height apart. */
  function SubLineDraws(m: Measure, subs: seq<seq<Word>>, page: nat, y: real): seq<Draw> {
    if subs == [] then []
    else SubLineDraws(m, subs[..|subs| - 1], page, y)
         + WordDraws(m, subs[|subs| - 1], |subs[|subs| - 1]|, page, y + BodyLines(|subs| - 1))
  }

  /** One more sub-line adds its calls one body line below the last. */
  lemma {:induction false} SubLineDrawsSnoc(m: Measure, subs: seq<seq<Word>>, ws: seq<Word>, page: nat, y: real)
    ensures SubLineDraws(m, subs + [ws], page, y)
            == SubLineDraws(m, subs, page, y) + WordDraws(m, ws, |ws|, page, y + BodyLines(|subs|))
  {
    assert (subs + [ws])[..|subs|] == subs;
  }

  /** The calls so far, then one more sub-line, are the calls of the
      sub-lines with that one added. */
  lemma {:induction false} EmitSubLine(m: Measure, before: seq<Draw>, subs: seq<seq<Word>>, ws: seq<Word>, page: nat, y: real)
    ensures before + SubLineDraws(m, subs, page, y) + WordDraws(m, ws, |ws|, page, y + BodyLines(|subs|))
            == before + SubLineDraws(m, subs + [ws], page, y)
  {
    SubLineDrawsSnoc(m, subs, ws, page, y);
  }

  /** With words of positive width, every word of a mixed-style line lies
      within the side margins, unless it is wider than the text area alone. */
  lemma {:induction false} SubLineWithinMargins(m: Measure, words: seq<Word>, k: nat)
    requires NonNegative(m)
    requires forall j :: 0 <= j < |words| ==> WordWidth(m, words[j]) > 0.0
    requires k < |Pack(m, words)| && |Pack(m, words)[k]| >= 2
    ensures var ws := Pack(m, words)[k];
      XAt(m, ws, |ws| - 1) + WordWidth(m, ws[|ws| - 1]) <= PageWidth - MarginSide
  {
    PackFits(m, words, [], 0.0);
    LineRightEdge(m, Pack(m, words)[k]);
  }

  // ----- the lines of the letter -----

  /** How the drawing loop treats one line, in the order it tests. */
  datatype LineKind = Blank | NameLine(text: string) | StrengthsTitle(text: string) | MixedStyle | PlainLine

  /** The test of the heading: `'fortalezas destacadas:'` after trimming and
      lower-casing the raw line. */
  const StrengthsHeading: string := "fortalezas destacadas:"

  /** The line at `index` of `count`: blank; the name (first or last line,
      markers stripped, compared upper-cased with the trimmed name); the
      strengths heading; a line with `**`; or a plain line. */
  function Classify(line: string, index: nat, count: nat, name: string): (k: LineKind)
    ensures k.MixedStyle? ==> Contains(line, "**")
    ensures k.PlainLine? ==> !Contains(line, "**")
    ensures k.NameLine? ==> (index == 0 || index + 1 == count) && k.text == ToUpper(Trim(name))
  {
    if Trim(line) == [] then Blank
    else
      var cleaned := Trim(StripMarkers(line));
      var isName := (index == 0 || index + 1 == count) && ToUpper(cleaned) == ToUpper(Trim(name));
      if isName then NameLine(ToUpper(cleaned))
      else StyleKind(line)
  }

  /** The tests after the name test: the heading, then the markers. */
  function StyleKind(line: string): (k: LineKind)
    ensures k.StrengthsTitle? || k.MixedStyle? || k.PlainLine?
    ensures k.MixedStyle? ==> Contains(line, "**")
    ensures k.PlainLine? ==> !Contains(line, "**")
  {
    if ToLower(Trim(line)) == StrengthsHeading then StrengthsTitle(Trim(line))
    else if Contains(line, "**") then MixedStyle
    else PlainLine
  }

  /** Blank lines are exactly the lines of white space. */
  lemma {:induction false} ClassifyBlankIff(line: string, index: nat, count: nat, name: string)
    ensures Classify(line, index, count, name) == Blank <==> AllSpace(line)
  {
    TrimEmptyIffAllSpace(line);
  }

  /** The name written with markers on the first line is still the name. */
  lemma {:induction false} MarkedNameIsName(line: string, count: nat, name: string)
    requires !AllSpace(line)
    requires Trim(StripMarkers(line)) == Trim(name)
    ensures Classify(line, 0, count, name) == NameLine(ToUpper(Trim(name)))
  {
    TrimEmptyIffAllSpace(line);
  }

  /** The heading test looks at the raw line, markers included: a marked
      heading such as `**Fortalezas destacadas:**` is not the heading (it is
      drawn as a mixed-style line). */
  lemma {:induction false} MarkedHeadingNotHeading(t: string)
    requires '*' in t
    ensures ToLower(t) != StrengthsHeading
  {
    var i :| 0 <= i < |t| && t[i] == '*';
    if ToLower(t) == StrengthsHeading {
      assert ToLower(t)[i] == '*';
      HeadingHasNoStar(i);
    }
  }

  lemma {:induction false} HeadingHasNoStar(i: int)
    requires 0 <= i < |StrengthsHeading|
    ensures StrengthsHeading[i] != '*'
  {
  }

  /** `IsParagraph`: a plain line is justified when it wraps or is longer
      than 65 characters. */
  predicate Justified(textLines: seq<string>, line: string) {
    |textLines| > 1 || |line| > 65
  }

  // ----- the cursor and the pages -----

  /** What the drawing loop keeps between lines: the number of pages, the
      vertical position `y` and the calls made so far. */
  datatype Cursor = Cursor(pageCount: nat, y: real, draws: seq<Draw>)

  const PageBottom: real := PageHeight - MarginBottom

  /** One page, with `y` just under the top margin by the name's size. */
  function StartCursor(): (c: Cursor)
    ensures c.pageCount == 1 && c.draws == [] && MarginTop < c.y <= PageBottom
  {
    Cursor(1, MarginTop + FontSizeName as real, [])
  }

  /** Before each line: a new page when `y` is past the bottom margin. */
  function BreakPage(c: Cursor): (b: Cursor)
    ensures b.y <= PageBottom || b.y == c.y
    ensures b.draws == c.draws
  {
    if c.y > PageBottom then Cursor(c.pageCount + 1, MarginTop, c.draws) else c
  }

  /** What one line does once its page is chosen: how far it moves `y`
      down and the calls it makes, on page `page` from height `y`. */
  datatype LineOutput = LineOutput(advance: real, calls: seq<Draw>)

  function DrawLine(m: Measure, kind: LineKind, line: string, page: nat, y: real): LineOutput {
    match kind
    case Blank => LineOutput(LineHeightBody / 2.0, [])
    case NameLine(t) => LineOutput(LineHeightName, [Draw(page, [t], MarginSide, y, true, FontSizeName, false)])
    case StrengthsTitle(t) => LineOutput(LineHeightBody, [Draw(page, [t], MarginSide, y, true, FontSizeBody, false)])
    case MixedStyle =>
      var subs := Pack(m, Tokenise(line));
      LineOutput(BodyLines(|subs|), SubLineDraws(m, subs, page, y))
    case PlainLine =>
      var textLines := m.wrap(line);
      LineOutput(BodyLines(|textLines|),
                 [Draw(page, textLines, MarginSide, y, false, FontSizeBody, Justified(textLines, line))])
  }

  /** A line never moves `y` up, draws only on its own page, and its first
      call is at the height where the line starts. */
  lemma {:induction false} DrawLineShape(m: Measure, kind: LineKind, line: string, page: nat, y: real)
    ensures var o := DrawLine(m, kind, line, page, y);
      o.advance >= 0.0
      && (forall j :: 0 <= j < |o.calls| ==> o.calls[j].page == page)
      && (o.calls != [] ==> o.calls[0].y == y)
  {
    if kind == MixedStyle {
      var subs := Pack(m, Tokenise(line));
      SubLineDrawsPage(m, subs, page, y);
      if subs != [] {
        PackNonEmpty(m, Tokenise(line), [], 0.0);
        SubLineDrawsFirst(m, subs, page, y);
      } else {
        assert SubLineDraws(m, subs, page, y) == [];
      }
    }
  }

  /** The kind of every line of the letter. */
  function Kinds(lines: seq<string>, name: string): (ks: seq<LineKind>)
    ensures |ks| == |lines|
    ensures forall i :: 0 <= i < |lines| ==> ks[i] == Classify(lines[i], i, |lines|, name)
  {
    seq(|lines|, i requires 0 <= i < |lines| => Classify(lines[i], i, |lines|, name))
  }

  /** One round of the drawing loop over a line of the given kind: the
      page break test, then the line. */
  function LineStep(m: Measure, kind: LineKind, line: string, c: Cursor): Cursor {
    var b := BreakPage(c);
    var o := DrawLine(m, kind, line, b.pageCount, b.y);
    Cursor(b.pageCount, b.y + o.advance, b.draws + o.calls)
  }

  /** The drawing loop from the line at `index` to the end. */
  function Layout(m: Measure, lines: seq<string>, kinds: seq<LineKind>, index: nat, c: Cursor): Cursor
    requires index <= |lines| == |kinds|
    decreases |lines| - index
  {
    if index == |lines| then c
    else Layout(m, lines, kinds, index + 1, LineStep(m, kinds[index], lines[index], c))
  }

  /** The letter drawn from the start: one page, `y` under the top margin. */
  function Letter(m: Measure, content: string, name: string): Cursor {
    var lines := Split(content, '\n');
    Layout(m, lines, Kinds(lines, name), 0, StartCursor())
  }

  /** A line adds a page exactly when `y` is past the bottom margin before it. */
  lemma {:induction false} StepPages(m: Measure, kind: LineKind, line: string, c: Cursor)
    ensures LineStep(m, kind, line, c).pageCount == c.pageCount + (if c.y > PageBottom then 1 else 0)
  {
  }

  /** A line only appends calls, all on the current page, and the first of
      them starts above the bottom margin. */
  lemma {:induction false} StepDraws(m: Measure, kind: LineKind, line: string, c: Cursor)
    ensures var r := LineStep(m, kind, line, c);
      |r.draws| >= |c.draws| && r.draws[..|c.draws|] == c.draws
      && (|r.draws| > |c.draws| ==> r.draws[|c.draws|].y <= PageBottom)
      && forall j :: |c.draws| <= j < |r.draws| ==> r.draws[j].page == r.pageCount
  {
    var b := BreakPage(c);
    DrawLineShape(m, kind, line, b.pageCount, b.y);
    var o := DrawLine(m, kind, line, b.pageCount, b.y);
    var r := LineStep(m, kind, line, c);
    assert r.draws == c.draws + o.calls;
    forall j | |c.draws| <= j < |r.draws| ensures r.draws[j].page == r.pageCount {
      assert r.draws[j] == o.calls[j - |c.draws|];
    }
    if |r.draws| > |c.draws| {
      assert r.draws[|c.draws|] == o.calls[0];
    }
  }

  /** The calls of a mixed-style line are all on its page. */
  lemma {:induction false} SubLineDrawsPage(m: Measure, subs: seq<seq<Word>>, page: nat, y: real)
    ensures forall j :: 0 <= j < |SubLineDraws(m, subs, page, y)| ==> SubLineDraws(m, subs, page, y)[j].page == page
  {
    if subs != [] {
      var last := subs[|subs| - 1];
      SubLineDrawsPage(m, subs[..|subs| - 1], page, y);
      WordDrawsShape(m, last, |last|, page, y + BodyLines(|subs| - 1));
    }
  }

  /** The first call of a mixed-style line is on its first sub-line. */
  lemma {:induction false} SubLineDrawsFirst(m: Measure, subs: seq<seq<Word>>, page: nat, y: real)
    requires subs != [] && subs[0] != []
    ensures |SubLineDraws(m, subs, page, y)| > 0 && SubLineDraws(m, subs, page, y)[0].y == y
  {
    var init := subs[..|subs| - 1];
    var last := subs[|subs| - 1];
    if init == [] {
      WordDrawsShape(m, last, |last|, page, y);
      assert SubLineDraws(m, subs, page, y) == [] + WordDraws(m, last, |last|, page, y + BodyLines(0));
    } else {
      assert init[0] == subs[0];
      SubLineDrawsFirst(m, init, page, y);
    }
  }

  lemma {:induction false} WordDrawsShape(m: Measure, ws: seq<Word>, n: nat, page: nat, y: real)
    requires n <= |ws|
    ensures forall j :: 0 <= j < n ==> WordDraws(m, ws, n, page, y)[j].page == page && WordDraws(m, ws, n, page, y)[j].y == y
  {
    if n > 0 {
      WordDrawsShape(m, ws, n - 1, page, y);
    }
  }

  /** `y` never moves up within a line. */
  lemma {:induction false} StepBelowTop(m: Measure, kind: LineKind, line: string, c: Cursor)
    ensures LineStep(m, kind, line, c).y >= BreakPage(c).y
    ensures c.y >= MarginTop ==> LineStep(m, kind, line, c).y >= MarginTop
  {
    var b := BreakPage(c);
    DrawLineShape(m, kind, line, b.pageCount, b.y);
  }

  /** The whole letter: at most one new page per line. */
  lemma {:induction false} LayoutPages(m: Measure, lines: seq<string>, kinds: seq<LineKind>, index: nat, c: Cursor)
    requires index <= |lines| == |kinds|
    ensures c.pageCount <= Layout(m, lines, kinds, index, c).pageCount <= c.pageCount + (|lines| - index)
    decreases |lines| - index
  {
    if index < |lines| {
      var c' := LineStep(m, kinds[index], lines[index], c);
      StepPages(m, kinds[index], lines[index], c);
      var before, after: int := c.pageCount, c'.pageCount;
      assert before <= after <= before + 1;
      LayoutPages(m, lines, kinds, index + 1, c');
      var last: int := Layout(m, lines, kinds, index + 1, c').pageCount;
      assert after <= last <= after + (|lines| - (index + 1));
      assert Layout(m, lines, kinds, index, c) == Layout(m, lines, kinds, index + 1, c');
    } else {
      assert Layout(m, lines, kinds, index, c) == c;
    }
  }

  /** `b` begins with the calls of `a`. */
  predicate Extends(a: seq<Draw>, b: seq<Draw>) {
    |b| >= |a| && b[..|a|] == a
  }

  lemma {:induction false} ExtendsTrans(a: seq<Draw>, b: seq<Draw>, c: seq<Draw>)
    requires Extends(a, b) && Extends(b, c)
    ensures Extends(a, c)
  {
    assert c[..|b|][..|a|] == c[..|a|];
  }

  lemma {:induction false} StepExtends(m: Measure, kind: LineKind, line: string, c: Cursor)
    ensures Extends(c.draws, LineStep(m, kind, line, c).draws)
  {
    StepDraws(m, kind, line, c);
  }

  /** The calls made before are kept, in order. */
  lemma {:induction false} LayoutKeepsDraws(m: Measure, lines: seq<string>, kinds: seq<LineKind>, index: nat, c: Cursor)
    requires index <= |lines| == |kinds|
    ensures Extends(c.draws, Layout(m, lines, kinds, index, c).draws)
    decreases |lines| - index
  {
    if index < |lines| {
      var c' := LineStep(m, kinds[index], lines[index], c);
      StepExtends(m, kinds[index], lines[index], c);
      LayoutKeepsDraws(m, lines, kinds, index + 1, c');
      assert Layout(m, lines, kinds, index, c) == Layout(m, lines, kinds, index + 1, c');
      ExtendsTrans(c.draws, c'.draws, Layout(m, lines, kinds, index + 1, c').draws);
    } else {
      assert Layout(m, lines, kinds, index, c) == c;
    }
  }

  /** `y` never rises above the top margin. */
  lemma {:induction false} LayoutBelowTop(m: Measure, lines: seq<string>, kinds: seq<LineKind>, index: nat, c: Cursor)
    requires index <= |lines| == |kinds|
    requires c.y >= MarginTop
    ensures Layout(m, lines, kinds, index, c).y >= MarginTop
    decreases |lines| - index
  {
    if index < |lines| {
      StepBelowTop(m, kinds[index], lines[index], c);
      LayoutBelowTop(m, lines, kinds, index + 1, LineStep(m, kinds[index], lines[index], c));
    }
  }

  /** The letter from the start: at most one page per line beyond the
      first, and `y` always at the top margin or below. */
  lemma {:induction false} LetterPages(m: Measure, content: string, name: string)
    ensures 1 <= Letter(m, content, name).pageCount <= 1 + |Split(content, '\n')|
    ensures Letter(m, content, name).y >= MarginTop
  {
    var lines := Split(content, '\n');
    LayoutPages(m, lines, Kinds(lines, name), 0, StartCursor());
    LayoutBelowTop(m, lines, Kinds(lines, name), 0, StartCursor());
  }

  /** A mixed-style line with no words (`****`) draws nothing and leaves
      `y` where it was. */
  lemma {:induction false} EmptyMixedLine(m: Measure, line: string, c: Cursor)
    requires Tokenise(line) == []
    ensures LineStep(m, MixedStyle, line, c) == BreakPage(c)
  {
    PackEmptyIff(m, []);
    assert SubLineDraws(m, [], BreakPage(c).pageCount, BreakPage(c).y) == [];
  }

  /** A mixed-style line with words moves `y` down one body line per sub-line. */
  lemma {:induction false} MixedLineAdvance(m: Measure, line: string, c: Cursor)
    ensures LineStep(m, MixedStyle, line, c).y
            == BreakPage(c).y + BodyLines(|Pack(m, Tokenise(line))|)
    ensures Tokenise(line) != [] ==> LineStep(m, MixedStyle, line, c).y >= BreakPage(c).y + 18.0
  {
    PackEmptyIff(m, Tokenise(line));
  }

  // ----- the modal: copy, file name and on-screen rendering -----

  /** The copied text: `content.replace(/\*\*\/g, '')`. */
  function CopyText(content: string): string {
    StripMarkers(content)
  }

  /** The copied text has no markers left, and text without markers is
      copied as it is. */
  lemma {:induction false} CopyTextClean(content: string)
    ensures !Contains(CopyText(content), "**")
    ensures !Contains(content, "**") ==> CopyText(content) == content
  {
    StripMarkersClean(content);
    if !Contains(content, "**") {
      StripMarkersFree(content);
    }
  }

  /** `Carta_Presentacion_<name with spaces as underscores, or CV>.pdf`. */
  function LetterFileName(name: string): string {
    var middle := ReplaceSpaces(name, '_');
    "Carta_Presentacion_" + (if middle != [] then middle else "CV") + ".pdf"
  }

  /** The file name keeps the prefix and the extension, has no space, and
      carries the name with each space turned into an underscore. */
  lemma {:induction false} LetterFileNameShape(name: string)
    ensures StartsWith(LetterFileName(name), "Carta_Presentacion_") && EndsWith(LetterFileName(name), ".pdf")
    ensures ' ' !in LetterFileName(name)
    ensures name != [] ==> |LetterFileName(name)| == |name| + 23
    ensures name != [] ==> forall i :: 0 <= i < |name| ==>
              LetterFileName(name)[i + 19] == if name[i] == ' ' then '_' else name[i]
    ensures name == [] ==> LetterFileName(name) == "Carta_Presentacion_CV.pdf"
  {
    var middle := ReplaceSpaces(name, '_');
    var base := if middle != [] then middle else "CV";
    var f := LetterFileName(name);
    assert f == "Carta_Presentacion_" + base + ".pdf";
    assert f[..19] == "Carta_Presentacion_";
    assert f[|f| - 4..] == ".pdf";
    assert forall i :: 0 <= i < |base| ==> f[i + 19] == base[i];
    assert forall i :: 0 <= i < |base| ==> base[i] != ' ';
  }

  /** `content.replace(/\*\*(.*?)\*\*\/g, '<strong>$1</strong>')`: each match's
      inner text wrapped in a `strong` element. */
  function StrongText(ps: seq<Part>): string {
    if ps == [] then []
    else
      (match ps[0]
       case Gap(t) => t
       case Marked(t) => "<strong>" + Inner(t) + "</strong>")
      + StrongText(ps[1..])
  }

  function ReplaceStrong(content: string): string {
    StrongText(SplitParts(content))
  }

  /** Text without markers is shown as it is. */
  lemma {:induction false} ReplaceStrongPlain(content: string)
    requires !Contains(content, "**")
    ensures ReplaceStrong(content) == content
  {
    NoMarkerNoMatch(content, 0);
    assert SplitParts(content) == [Gap(content)];
    assert StrongText([Gap(content)]) == content + StrongText([]);
  }

  /** A marked span becomes a `strong` element around its inner text. */
  lemma {:induction false} ReplaceStrongSpan(t: string)
    requires t != [] && '*' !in t && forall k :: 0 <= k < |t| ==> !IsLineTerminator(t[k])
    ensures ReplaceStrong("**" + t + "**") == "<strong>" + t + "</strong>"
  {
    var s := "**" + t + "**";
    SpanMatch(t);
    SpanIsBold(t);
    assert s[..0] == [] && s[0..|s|] == s && s[|s|..] == [];
    assert SplitParts([]) == [Gap([])];
    var ps := [Gap([]), Marked(s)] + [Gap([])];
    assert SplitParts(s) == ps;
    assert ps[1..] == [Marked(s), Gap([])] && ps[1..][1..] == [Gap([])];
    assert StrongText([Gap([])]) == [];
    assert StrongText(ps[1..]) == "<strong>" + t + "</strong>" + [];
  }

  /** An element of the letter on screen. */
  datatype Element = ListItem(html: string) | LineBreak | Paragraph(html: string)

  /** A line whose trimmed text starts with `-` is a list item (a leading
      `- ` removed); a blank line is a break; anything else a paragraph. */
  function ContentElement(line: string): (e: Element)
    ensures e.ListItem? <==> StartsWith(Trim(line), "-")
  {
    if StartsWith(Trim(line), "-") then ListItem(if StartsWith(line, "- ") then line[2..] else line)
    else if Trim(line) == [] then LineBreak
    else Paragraph(line)
  }

  function RenderContent(content: string): (es: seq<Element>)
    ensures |es| == |Split(ReplaceStrong(content), '\n')|
  {
    var lines := Split(ReplaceStrong(content), '\n');
    seq(|lines|, k requires 0 <= k < |lines| => ContentElement(lines[k]))
  }

  /** A break is exactly a blank line. */
  lemma {:induction false} BreakIffBlank(line: string)
    ensures ContentElement(line) == LineBreak <==> AllSpace(line)
  {
    TrimEmptyIffAllSpace(line);
  }

  /** `- item` loses its dash; an indented dash keeps the line as it is,
      because the removal only looks at the very start of the line. */
  lemma {:induction false} ListItemText(line: string)
    requires StartsWith(Trim(line), "-")
    ensures StartsWith(line, "- ") ==> ContentElement(line) == ListItem(line[2..])
    ensures !StartsWith(line, "- ") ==> ContentElement(line) == ListItem(line)
  {
  }
}
