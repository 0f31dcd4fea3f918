/** CoverLetterModal.js, the drawing half: the jsPDF document as an object
    whose page count, cursor `y` and list of text calls change as the letter
    is drawn line by line. Each method is proved to do what the functions
    of `LetterText` specify. */
module LetterPdf {
  import opened TextOps
  import opened LetterText

  class LetterDocument {
    /** Pages of the document so far. */
    var pageCount: nat
    /** The baseline where the next line is drawn. */
    var y: real
    /** The `doc.text` calls made so far, in order. */
    var draws: seq<Draw>

    function State(): Cursor
      reads this
    {
      Cursor(pageCount, y, draws)
    }

    /** A one-page letter-size document, `y` at the top margin plus the
        name's font size. */
    constructor ()
      ensures State() == StartCursor()
    {
      pageCount := 1;
      y := MarginTop + FontSizeName as real;
      draws := [];
    }

    /** `doc.text(...)` on the current page. */
    method Text(lines: seq<string>, x: real, atY: real, bold: bool, size: nat, justify: bool)
      modifies this
      ensures draws == old(draws) + [Draw(pageCount, lines, x, atY, bold, size, justify)]
      ensures pageCount == old(pageCount) && y == old(y)
    {
      draws := draws + [Draw(pageCount, lines, x, atY, bold, size, justify)];
    }

    /** `renderLine`: the words of one sub-line left to right from the
        left margin, each advanced by its width and a space. */
    method RenderLine(m: Measure, ws: seq<Word>, yCoord: real)
      modifies this
      ensures draws == old(draws) + WordDraws(m, ws, |ws|, pageCount, yCoord)
      ensures pageCount == old(pageCount) && y == old(y)
    {
      var currentX := MarginSide;
      var spaceWidth := SpaceWidth(m);
      var j := 0;
      while j < |ws|
        invariant 0 <= j <= |ws|
        invariant currentX == XAt(m, ws, j)
        invariant draws == old(draws) + WordDraws(m, ws, j, pageCount, yCoord)
        invariant pageCount == old(pageCount) && y == old(y)
      {
        var word := ws[j];
        Text([word.text], currentX, yCoord, word.bold, FontSizeBody, false);
        currentX := currentX + m.width(word.text, word.bold) + spaceWidth;
        j := j + 1;
      }
    }

    /** `splitWords.forEach(word => words.push(...))`. */
    static method PushWords(words: seq<Word>, splitWords: seq<string>, isBold: bool) returns (r: seq<Word>)
      ensures r == words + MakeWords(splitWords, isBold)
    {
      r := words;
      var j := 0;
      while j < |splitWords|
        invariant 0 <= j <= |splitWords|
        invariant r == words + MakeWords(splitWords[..j], isBold)
      {
        MakeWordsSnoc(splitWords, j, isBold);
        r := r + [Word(splitWords[j], isBold)];
        j := j + 1;
      }
      assert splitWords[..j] == splitWords;
    }

    /** The words of a mixed-style line: each piece of the split, its
        markers removed when it is bold, cut at spaces. */
    static method CollectWords(line: string) returns (words: seq<Word>)
      ensures words == Tokenise(line)
    {
      var parts := Pieces(line);
      words := [];
      var i := 0;
      while i < |parts|
        invariant 0 <= i <= |parts|
        invariant words == WordsOfParts(parts[..i])
      {
        var part := parts[i];
        var isBold := StartsWith(part, "**") && EndsWith(part, "**");
        var text := if isBold then Inner(part) else part;
        WordsOfPartsSnoc(parts, i);
        words := PushWords(words, NonEmpty(Split(text, ' ')), isBold);
        i := i + 1;
      }
      assert parts[..i] == parts;
    }

    /** `renderWrappedMixedStyleLine`: packs the words greedily into
        sub-lines, draws each one body line below the last and returns the
        height after the last. */
    method RenderWrappedMixedStyleLine(m: Measure, line: string, yPos: real) returns (newY: real)
      modifies this
      ensures draws == old(draws) + SubLineDraws(m, Pack(m, Tokenise(line)), pageCount, yPos)
      ensures newY == yPos + BodyLines(|Pack(m, Tokenise(line))|)
      ensures pageCount == old(pageCount) && y == old(y)
    {
      var words := CollectWords(line);
      newY := PackAndRender(m, words, yPos);
    }

    /** The packing loop of `renderWrappedMixedStyleLine`, drawing each
        sub-line when the next word does not fit and the last one at the end. */
    method PackAndRender(m: Measure, words: seq<Word>, yPos: real) returns (newY: real)
      modifies this
      ensures draws == old(draws) + SubLineDraws(m, Pack(m, words), pageCount, yPos)
      ensures newY == yPos + BodyLines(|Pack(m, words)|)
      ensures pageCount == old(pageCount) && y == old(y)
    {
      var currentLineWords: seq<Word> := [];
      var currentLineWidth := 0.0;
      var spaceWidth := SpaceWidth(m);
      newY := yPos;
      ghost var emitted: seq<seq<Word>> := [];
      var i := 0;
      while i < |words|
        invariant 0 <= i <= |words|
        invariant emitted + PackFrom(m, words[i..], currentLineWords, currentLineWidth) == Pack(m, words)
        invariant currentLineWords == [] ==> currentLineWidth == 0.0
        invariant newY == yPos + BodyLines(|emitted|)
        invariant draws == old(draws) + SubLineDraws(m, emitted, pageCount, yPos)
        invariant pageCount == old(pageCount) && y == old(y)
      {
        var word := words[i];
        var wordWidth := m.width(word.text, word.bold);
        if currentLineWidth > 0.0 && currentLineWidth + spaceWidth + wordWidth > MaxWidth {
          PackBreakStep(m, words, i, emitted, currentLineWords, currentLineWidth);
          RenderLine(m, currentLineWords, newY);
          EmitSubLine(m, old(draws), emitted, currentLineWords, pageCount, yPos);
          BodyLinesSucc(|emitted|);
          emitted := emitted + [currentLineWords];
          newY := newY + LineHeightBody;
          currentLineWords := [word];
          currentLineWidth := wordWidth;
        } else {
          PackJoinStep(m, words, i, currentLineWords, currentLineWidth);
          currentLineWords := currentLineWords + [word];
          currentLineWidth := currentLineWidth + (if |currentLineWords| > 1 then spaceWidth else 0.0) + wordWidth;
        }
        i := i + 1;
      }
      PackFinish(m, words, emitted, currentLineWords, currentLineWidth);
      if |currentLineWords| > 0 {
        RenderLine(m, currentLineWords, newY);
        EmitSubLine(m, old(draws), emitted, currentLineWords, pageCount, yPos);
        BodyLinesSucc(|emitted|);
        emitted := emitted + [currentLineWords];
        newY := newY + LineHeightBody;
      }
    }

    /** `doc.addPage()` when `y` is past the bottom margin. */
    method AddPageIfNeeded()
      modifies this
      ensures State() == BreakPage(old(State()))
    {
      if y > PageBottom {
        pageCount := pageCount + 1;
        y := MarginTop;
      }
    }

    /** One round of the loop over the letter's lines: the page break, the
        kind the line's flags give, and the line drawn by it. */
    method DrawLetterLine(m: Measure, line: string, index: nat, count: nat, name: string)
      modifies this
      ensures State() == LineStep(m, Classify(line, index, count, name), line, old(State()))
    {
      AddPageIfNeeded();
      var kind := Classify(line, index, count, name);
      DrawKind(m, kind, line);
    }

    /** The drawing of one line once its kind is known: half a line for a
        blank, the name in capitals, the bold heading, the mixed-style
        words, or the wrapped plain text. */
    method DrawKind(m: Measure, kind: LineKind, line: string)
      modifies this
      ensures State() == Cursor(old(pageCount), old(y) + DrawLine(m, kind, line, old(pageCount), old(y)).advance,
                                old(draws) + DrawLine(m, kind, line, old(pageCount), old(y)).calls)
    {
      match kind
      case Blank =>
        y := y + LineHeightBody / 2.0;
      case NameLine(t) =>
        Text([t], MarginSide, y, true, FontSizeName, false);
        y := y + LineHeightName;
      case StrengthsTitle(t) =>
        Text([t], MarginSide, y, true, FontSizeBody, false);
        y := y + LineHeightBody;
      case MixedStyle =>
        y := RenderWrappedMixedStyleLine(m, line, y);
      case PlainLine =>
        var textLines := m.wrap(line);
        var isParagraph := |textLines| > 1 || |line| > 65;
        Text(textLines, MarginSide, y, false, FontSizeBody, isParagraph);
        y := y + BodyLines(|textLines|);
    }

    /** `lines.forEach`: every line of the letter in order. */
    method DrawLines(m: Measure, lines: seq<string>, name: string)
      modifies this
      ensures State() == Layout(m, lines, Kinds(lines, name), 0, old(State()))
    {
      var kinds := Kinds(lines, name);
      var index := 0;
      while index < |lines|
        invariant 0 <= index <= |lines|
        invariant Layout(m, lines, kinds, index, State()) == Layout(m, lines, kinds, 0, old(State()))
      {
        DrawLetterLine(m, lines[index], index, |lines|, name);
        index := index + 1;
      }
    }
  }

  /** `handleDownloadPdf`: a new document, the letter drawn into it, and the
      name of the file it is saved as. */
  method DownloadLetterPdf(m: Measure, content: string, name: string) returns (doc: LetterDocument, fileName: string)
    ensures fresh(doc)
    ensures doc.State() == Letter(m, content, name)
    ensures fileName == LetterFileName(name)
  {
    doc := new LetterDocument();
    doc.DrawLines(m, Split(content, '\n'), name);
    fileName := LetterFileName(name);
  }
}
