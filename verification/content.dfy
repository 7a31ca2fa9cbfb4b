/**
  The bounded content block of the image (backend/server.js, lines 63-97).

  The content is wrapped by the same greedy rule as `wrapText`, but inline:
  every committed line is drawn at once at `y`, and `y` moves down one line
  height. The block may use `maxLines` line heights below its top; the first
  time `y` passes that budget, the fade loop runs for the word that was just
  rejected and the word loop stops. Whatever line is current at the end is
  drawn by a final `fillText` at `y`, with the fill opacity last set.

  The main theorem, `ContentLayout`, says what that amounts to: the lines
  `wrapText` would produce, one per line height, until the budget is used up,
  and after that the fade of the first word that did not fit.
 */
module Content {
  import opened Words
  import opened Wrap
  import opened Canvas
  import opened Fade

  /** The state of the drawing loop: the draws so far, the current line, `y` and the fill opacity. */
  datatype Pen = Pen(draws: seq<Draw>, line: string, y: int, alpha: real)

  /** The word loop of the content block from word `n` on. */
  function ContentFrom(measure: Measure, maxWidth: real, maxHeight: int,
                       words: seq<string>, n: nat, pen: Pen): Pen
    requires n <= |words|
    decreases |words| - n
  {
    if n == |words| then pen
    else if Breaks(measure, maxWidth, pen.line, n, words[n]) then
      var drawn := pen.draws + [Draw(pen.line, pen.alpha, pen.y)];
      var y := pen.y + LineHeight;
      if y > maxHeight then
        var fade := FadeFrom(words[n], y, maxHeight, words[n] + " ", pen.alpha);
        Pen(drawn + fade.draws, fade.line, y, fade.alpha)
      else
        ContentFrom(measure, maxWidth, maxHeight, words, n + 1, Pen(drawn, words[n] + " ", y, pen.alpha))
    else
      ContentFrom(measure, maxWidth, maxHeight, words, n + 1, pen.(line := pen.line + words[n] + " "))
  }

  /** `maxLines`: how many line heights the content may use below its top before it fades out. */
  const MaxLines: nat := 5

  /** Every draw of the content block, the final flush included, for a block starting at `top`. */
  function ContentBlock(measure: Measure, content: string, maxWidth: real, top: int): seq<Draw>
  {
    var pen := ContentFrom(measure, maxWidth, top + MaxLines * LineHeight, Split(content), 0, Pen([], "", top, Opaque));
    pen.draws + [Draw(pen.line, pen.alpha, pen.y)]
  }

  /** What is drawn once `word` overflowed at `y`: the fade steps, then the flush at `y`. */
  function FadeTail(word: string, y: int, maxHeight: int): seq<Draw>
  {
    var fade := FadeFrom(word, y, maxHeight, word + " ", Opaque);
    fade.draws + [Draw(fade.line, fade.alpha, y)]
  }

  function Texts(draws: seq<Draw>): seq<string>
  {
    seq(|draws|, k requires 0 <= k < |draws| => draws[k].text)
  }

  // ---------------------------------------------------------------------
  // The content loop follows the group loop of wrapText.

  lemma PlacedSnoc(lines: seq<string>, line: string, top: int)
    ensures Placed(lines + [line], top) == Placed(lines, top) + [Draw(line, Opaque, top + |lines| * LineHeight)]
  {
  }

  /** Where the word loop leaves the pen, given all the lines `wrapText` would form. */
  function LoopOutcome(lines: seq<string>, top: int): Pen
    requires |lines| >= 1
  {
    if |lines| <= MaxLines + 1 then
      Pen(Placed(lines[..|lines| - 1], top), lines[|lines| - 1], top + (|lines| - 1) * LineHeight, Opaque)
    else
      var word := FirstWord(lines[MaxLines + 1]);
      var y := top + (MaxLines + 1) * LineHeight;
      var fade := FadeFrom(word, y, top + MaxLines * LineHeight, word + " ", Opaque);
      Pen(Placed(lines[..MaxLines + 1], top) + fade.draws, fade.line, y, fade.alpha)
  }

  /** The state of the content loop while the lines of `done` are drawn and `cur` is being filled. */
  function Tracking(done: seq<seq<string>>, cur: seq<string>, top: int): Pen
  {
    Pen(Placed(LinesOf(done), top), Line(cur), top + |done| * LineHeight, Opaque)
  }

  /** The step where the budget runs out: the rejected word starts the fade and the loop ends. */
  lemma TracksOverflow(measure: Measure, maxWidth: real, top: int, words: seq<string>, n: nat,
                       cur: seq<string>, done: seq<seq<string>>)
    requires n < |words| && |done| == MaxLines && ' ' !in words[n]
    requires Breaks(measure, maxWidth, Line(cur), n, words[n])
    ensures ContentFrom(measure, maxWidth, top + MaxLines * LineHeight, words, n, Tracking(done, cur, top))
         == LoopOutcome(LinesOf(GroupLoop(measure, maxWidth, words, n, cur, done)), top)
  {
    var w := words[n];
    var done' := done + [cur];
    var groups := GroupLoop(measure, maxWidth, words, n + 1, [w], done');
    var lines := LinesOf(groups);
    LinesOfSnoc(done, cur);
    PlacedSnoc(LinesOf(done), Line(cur), top);
    assert groups[..MaxLines + 1] == done';
    assert lines[..MaxLines + 1] == LinesOf(done');
    assert groups[MaxLines + 1][..1] == [w];
    LineShape(groups[MaxLines + 1]);
    FirstWordOf(w, lines[MaxLines + 1]);
  }

  /** A committed line within the budget: both loops move on to the next word in step. */
  lemma TracksBreak(measure: Measure, maxWidth: real, top: int, words: seq<string>, n: nat,
                    cur: seq<string>, done: seq<seq<string>>)
    requires n < |words| && |done| < MaxLines
    requires Breaks(measure, maxWidth, Line(cur), n, words[n])
    ensures ContentFrom(measure, maxWidth, top + MaxLines * LineHeight, words, n, Tracking(done, cur, top))
         == ContentFrom(measure, maxWidth, top + MaxLines * LineHeight, words, n + 1, Tracking(done + [cur], [words[n]], top))
    ensures GroupLoop(measure, maxWidth, words, n, cur, done) == GroupLoop(measure, maxWidth, words, n + 1, [words[n]], done + [cur])
  {
    LinesOfSnoc(done, cur);
    PlacedSnoc(LinesOf(done), Line(cur), top);
    assert Line([words[n]]) == words[n] + " " by { LineSnoc([], words[n]); }
  }

  /** An accepted word: both loops move on to the next word in step. */
  lemma TracksAccept(measure: Measure, maxWidth: real, top: int, words: seq<string>, n: nat,
                     cur: seq<string>, done: seq<seq<string>>)
    requires n < |words|
    requires !Breaks(measure, maxWidth, Line(cur), n, words[n])
    ensures ContentFrom(measure, maxWidth, top + MaxLines * LineHeight, words, n, Tracking(done, cur, top))
         == ContentFrom(measure, maxWidth, top + MaxLines * LineHeight, words, n + 1, Tracking(done, cur + [words[n]], top))
    ensures GroupLoop(measure, maxWidth, words, n, cur, done) == GroupLoop(measure, maxWidth, words, n + 1, cur + [words[n]], done)
  {
    LineSnoc(cur, words[n]);
  }

  /** The end of the words before the budget runs out: the current line is the last one. */
  lemma TracksEnd(measure: Measure, maxWidth: real, top: int, words: seq<string>,
                  cur: seq<string>, done: seq<seq<string>>)
    requires |done| <= MaxLines
    ensures ContentFrom(measure, maxWidth, top + MaxLines * LineHeight, words, |words|, Tracking(done, cur, top))
         == LoopOutcome(LinesOf(GroupLoop(measure, maxWidth, words, |words|, cur, done)), top)
  {
    LinesOfSnoc(done, cur);
    assert (LinesOf(done) + [Line(cur)])[..|done|] == LinesOf(done);
  }

  lemma {:induction false} ContentTracksGroups(measure: Measure, maxWidth: real, top: int, words: seq<string>, n: nat,
                                               cur: seq<string>, done: seq<seq<string>>)
    requires n <= |words| && |done| <= MaxLines && NoSpaces(words)
    ensures ContentFrom(measure, maxWidth, top + MaxLines * LineHeight, words, n, Tracking(done, cur, top))
         == LoopOutcome(LinesOf(GroupLoop(measure, maxWidth, words, n, cur, done)), top)
    decreases |words| - n
  {
    if n == |words| {
      TracksEnd(measure, maxWidth, top, words, cur, done);
    } else if !Breaks(measure, maxWidth, Line(cur), n, words[n]) {
      TracksAccept(measure, maxWidth, top, words, n, cur, done);
      ContentTracksGroups(measure, maxWidth, top, words, n + 1, cur + [words[n]], done);
    } else if |done| < MaxLines {
      TracksBreak(measure, maxWidth, top, words, n, cur, done);
      ContentTracksGroups(measure, maxWidth, top, words, n + 1, [words[n]], done + [cur]);
    } else {
      TracksOverflow(measure, maxWidth, top, words, n, cur, done);
    }
  }

  /**
    The content block draws the lines of `wrapText` one line height apart. If
    there are more than `MaxLines + 1` of them, only the first `MaxLines + 1`
    are drawn, followed by the fade of the first word of the next line and the
    flush of the faded line at the position of the line after the last shown.
   */
  lemma ContentLayout(measure: Measure, content: string, maxWidth: real, top: int)
    ensures var lines := WrapText(measure, content, maxWidth);
      var draws := ContentBlock(measure, content, maxWidth, top);
      if |lines| <= MaxLines + 1 then
        draws == Placed(lines, top)
      else
        draws == Placed(lines[..MaxLines + 1], top)
               + FadeTail(FirstWord(lines[MaxLines + 1]), top + (MaxLines + 1) * LineHeight, top + MaxLines * LineHeight)
  {
    var lines := WrapText(measure, content, maxWidth);
    ContentBlockOutcome(measure, content, maxWidth, top);
    var pen := LoopOutcome(lines, top);
    if |lines| <= MaxLines + 1 {
      assert lines == lines[..|lines| - 1] + [lines[|lines| - 1]];
      PlacedSnoc(lines[..|lines| - 1], lines[|lines| - 1], top);
    }
  }

  /** The content block is the pen the word loop leaves behind, flushed once more. */
  lemma ContentBlockOutcome(measure: Measure, content: string, maxWidth: real, top: int)
    ensures var lines := WrapText(measure, content, maxWidth);
      |lines| >= 1 &&
      var pen := LoopOutcome(lines, top);
      ContentBlock(measure, content, maxWidth, top) == pen.draws + [Draw(pen.line, pen.alpha, pen.y)]
  {
    WrapTextGroups(measure, content, maxWidth);
    WrapTextLineCount(measure, content, maxWidth);
    assert Line([]) == "";
    assert Placed(LinesOf([]), top) == [];
    assert Tracking([], [], top) == Pen([], "", top, Opaque);
    ContentTracksGroups(measure, maxWidth, top, Split(content), 0, [], []);
  }

  // ---------------------------------------------------------------------
  // Consequences of the layout.

  /** The pieces of an overflowing content block: the opaque lines, the fade steps and the flush. */
  lemma OverflowParts(measure: Measure, content: string, maxWidth: real, top: int) returns (word: string, fade: FadeRun)
    requires |WrapText(measure, content, maxWidth)| > MaxLines + 1
    ensures var lines := WrapText(measure, content, maxWidth);
      && word == FirstWord(lines[MaxLines + 1])
      && fade == FadeFrom(word, top + (MaxLines + 1) * LineHeight, top + MaxLines * LineHeight, word + " ", Opaque)
      && ContentBlock(measure, content, maxWidth, top)
         == Placed(lines[..MaxLines + 1], top) + fade.draws + [Draw(fade.line, fade.alpha, top + (MaxLines + 1) * LineHeight)]
  {
    var lines := WrapText(measure, content, maxWidth);
    ContentLayout(measure, content, maxWidth, top);
    word := FirstWord(lines[MaxLines + 1]);
    fade := FadeFrom(word, top + (MaxLines + 1) * LineHeight, top + MaxLines * LineHeight, word + " ", Opaque);
  }

  /**
    With a line height of 30 and a fade span of 50, the fade of an overflowing
    block is a single step, 30 pixels below the budget, at opacity 0.2; the
    flush then draws the word twice at the same position and opacity.
   */
  lemma ContentOverflowDraws(measure: Measure, content: string, maxWidth: real, top: int)
    requires |WrapText(measure, content, maxWidth)| > MaxLines + 1
    ensures var lines := WrapText(measure, content, maxWidth);
      var draws := ContentBlock(measure, content, maxWidth, top);
      var word := FirstWord(lines[MaxLines + 1]);
      var maxHeight := top + MaxLines * LineHeight;
      && |draws| == MaxLines + 3
      && draws[..MaxLines + 1] == Placed(lines[..MaxLines + 1], top)
      && draws[MaxLines + 1] == Draw(word + " ", FadeOpacity(LineHeight), maxHeight + LineHeight)
      && draws[MaxLines + 2] == Draw(word + " " + word + " ", FadeOpacity(LineHeight), maxHeight + LineHeight)
      && FadeOpacity(LineHeight) == 0.2
  {
    var word, fade := OverflowParts(measure, content, maxWidth, top);
    var maxHeight := top + MaxLines * LineHeight;
    var rest := FadeFrom(word, maxHeight + 2 * LineHeight, maxHeight, word + " " + word + " ", FadeOpacity(LineHeight));
    assert rest == FadeRun([], word + " " + word + " ", FadeOpacity(LineHeight));
    assert fade == FadeRun([Draw(word + " ", FadeOpacity(LineHeight), maxHeight + LineHeight)], rest.line, rest.alpha);
  }

  /**
    A block whose lines all fit draws exactly those lines; one that overflows
    draws `MaxLines + 3` times, which is `maxLines + 2` plus one per line
    height of the fade span.
   */
  lemma ContentDrawCount(measure: Measure, content: string, maxWidth: real, top: int)
    ensures var lines := WrapText(measure, content, maxWidth);
      var draws := ContentBlock(measure, content, maxWidth, top);
      && |draws| == (if |lines| <= MaxLines + 1 then |lines| else MaxLines + 3)
      && |draws| <= MaxLines + 2 + FadeSpan / LineHeight
  {
    var lines := WrapText(measure, content, maxWidth);
    ContentLayout(measure, content, maxWidth, top);
    if |lines| > MaxLines + 1 {
      ContentOverflowDraws(measure, content, maxWidth, top);
    } else {
      WrapTextLineCount(measure, content, maxWidth);
    }
  }

  /** Only the first `MaxLines + 1` draws can be fully opaque. */
  lemma ContentOpaqueLines(measure: Measure, content: string, maxWidth: real, top: int)
    ensures var draws := ContentBlock(measure, content, maxWidth, top);
      forall k :: 0 <= k < |draws| && draws[k].opacity == Opaque ==> k <= MaxLines
  {
    var lines := WrapText(measure, content, maxWidth);
    ContentDrawCount(measure, content, maxWidth, top);
    if |lines| > MaxLines + 1 {
      ContentOverflowDraws(measure, content, maxWidth, top);
    }
  }

  /**
    After an overflow, the lines before the fade hold exactly the first `shown`
    words, the overflowing word is word number `shown`, and every later draw
    repeats that one word: no later word is ever drawn.
   */
  lemma ContentOverflowWords(measure: Measure, content: string, maxWidth: real, top: int)
    requires |WrapText(measure, content, maxWidth)| > MaxLines + 1
    ensures var words := Split(content);
      var lines := WrapText(measure, content, maxWidth);
      var shown := SpaceCount(Flatten(lines[..MaxLines + 1]));
      var draws := ContentBlock(measure, content, maxWidth, top);
      && shown < |words|
      && words[shown] == FirstWord(lines[MaxLines + 1])
      && |draws| > MaxLines + 1
      && Flatten(Texts(draws[..MaxLines + 1])) == Line(words[..shown])
      && forall k :: MaxLines < k < |draws| ==> draws[k].text == Repeat(words[shown] + " ", k - MaxLines)
  {
    var words := Split(content);
    var lines := WrapText(measure, content, maxWidth);
    var draws := ContentBlock(measure, content, maxWidth, top);
    var shown := OverflowWordIndex(measure, content, maxWidth);
    ContentOverflowDraws(measure, content, maxWidth, top);
    var word := words[shown];
    assert Texts(draws[..MaxLines + 1]) == lines[..MaxLines + 1];
    assert Repeat(word + " ", 1) == word + " ";
    assert Repeat(word + " ", 2) == word + " " + word + " ";
  }

  /** The words drawn in full before an overflow, and the index of the word that overflowed. */
  lemma OverflowWordIndex(measure: Measure, content: string, maxWidth: real) returns (shown: nat)
    requires |WrapText(measure, content, maxWidth)| > MaxLines + 1
    ensures var words := Split(content);
      var lines := WrapText(measure, content, maxWidth);
      && shown == SpaceCount(Flatten(lines[..MaxLines + 1]))
      && shown < |words|
      && words[shown] == FirstWord(lines[MaxLines + 1])
      && Flatten(lines[..MaxLines + 1]) == Line(words[..shown])
  {
    var words := Split(content);
    var groups := WrapGroups(measure, content, maxWidth);
    var lines := WrapText(measure, content, maxWidth);
    WrapTextGroups(measure, content, maxWidth);
    WrapGroupsGreedy(measure, content, maxWidth);
    var head := groups[..MaxLines + 1];
    var rest := groups[MaxLines + 1..];
    shown := |Flatten(head)|;
    assert groups == head + rest;
    FlattenAppend(head, rest);
    FlattenCons(rest);
    assert words[..shown] == Flatten(head);
    assert words[shown] == groups[MaxLines + 1][0];
    assert lines[..MaxLines + 1] == LinesOf(head);
    FlattenLinesOf(head);
    LineSpaceCount(Flatten(head));
    LineShape(groups[MaxLines + 1]);
    FirstWordOf(groups[MaxLines + 1][0], lines[MaxLines + 1]);
  }

  /** Every draw of the block lies between its top and the end of the fade span below the budget. */
  lemma ContentWithinBudget(measure: Measure, content: string, maxWidth: real, top: int)
    ensures var draws := ContentBlock(measure, content, maxWidth, top);
      forall k :: 0 <= k < |draws| ==> top <= draws[k].y <= top + MaxLines * LineHeight + FadeSpan
  {
    var lines := WrapText(measure, content, maxWidth);
    ContentDrawCount(measure, content, maxWidth, top);
    if |lines| > MaxLines + 1 {
      ContentOverflowDraws(measure, content, maxWidth, top);
    } else {
      ContentLayout(measure, content, maxWidth, top);
    }
  }
}
