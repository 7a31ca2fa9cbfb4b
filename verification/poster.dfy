/**
  The text of the generated image (backend/server.js, lines 48-97): the
  poster's name at the top, the title wrapped to 1100 pixels and drawn line
  by line from y = 120, and 50 pixels below the last title line the content block,
  wrapped to 1000 pixels and faded out after five line heights.

  Title and content are set in different fonts, so each comes with its own
  text measurement.
 */
module Poster {
  import opened Words
  import opened Wrap
  import opened Canvas
  import opened Content

  const PosterNameY: int := 50
  const TitleTop: int := 120
  const TitleMaxWidth: real := 1100.0
  /** Added to the `y` the title loop leaves, which is already one line height below the last title line. */
  const ContentGap: int := 20
  const ContentMaxWidth: real := 1000.0

  /** The title's `forEach`: each line is drawn at `y`, then `y` moves down one line height. */
  function PlaceLines(lines: seq<string>, y: int): (seq<Draw>, int)
    decreases |lines|
  {
    if |lines| == 0 then ([], y)
    else
      var rest := PlaceLines(lines[1..], y + LineHeight);
      ([Draw(lines[0], Opaque, y)] + rest.0, rest.1)
  }

  /** Everything written on the image, in drawing order. */
  function TextDraws(titleMeasure: Measure, contentMeasure: Measure,
                     posterName: string, title: string, content: string): seq<Draw>
  {
    var (titleDraws, y) := PlaceLines(WrapText(titleMeasure, title, TitleMaxWidth), TitleTop);
    [Draw(posterName, Opaque, PosterNameY)] + titleDraws
      + ContentBlock(contentMeasure, content, ContentMaxWidth, y + ContentGap)
  }

  /** The title loop draws its lines one line height apart and leaves `y` one line height below the last. */
  lemma {:induction false} PlaceLinesPlaced(lines: seq<string>, y: int)
    ensures PlaceLines(lines, y).0 == Placed(lines, y)
    ensures PlaceLines(lines, y).1 == y + |lines| * LineHeight
    decreases |lines|
  {
    if |lines| > 0 {
      PlaceLinesPlaced(lines[1..], y + LineHeight);
      assert Placed(lines, y) == [Draw(lines[0], Opaque, y)] + Placed(lines[1..], y + LineHeight);
    }
  }

  /** Where the content block starts: 20 pixels below the `y` the title loop leaves, 50 below the last title line. */
  function ContentTop(titleMeasure: Measure, title: string): int
  {
    TitleTop + |WrapText(titleMeasure, title, TitleMaxWidth)| * LineHeight + ContentGap
  }

  /**
    The image shows the poster's name at y = 50, the title lines from y = 120
    one line height apart, and the content block from 50 pixels below the
    last title line, which is never higher than y = 170; its budget ends five line
    heights further down.
   */
  lemma TextLayout(titleMeasure: Measure, contentMeasure: Measure,
                   posterName: string, title: string, content: string)
    ensures var titleLines := WrapText(titleMeasure, title, TitleMaxWidth);
      var top := ContentTop(titleMeasure, title);
      && TextDraws(titleMeasure, contentMeasure, posterName, title, content)
         == [Draw(posterName, Opaque, PosterNameY)] + Placed(titleLines, TitleTop)
            + ContentBlock(contentMeasure, content, ContentMaxWidth, top)
      && top == 140 + 30 * |titleLines|
      && top >= 170
      && top + MaxLines * LineHeight == 290 + 30 * |titleLines|
  {
    var titleLines := WrapText(titleMeasure, title, TitleMaxWidth);
    PlaceLinesPlaced(titleLines, TitleTop);
    WrapTextLineCount(titleMeasure, title, TitleMaxWidth);
  }

  /** Text never runs back up: the content block lies wholly below every title line. */
  lemma ContentBelowTitle(titleMeasure: Measure, contentMeasure: Measure,
                          posterName: string, title: string, content: string)
    ensures var titleDraws := Placed(WrapText(titleMeasure, title, TitleMaxWidth), TitleTop);
      var contentDraws := ContentBlock(contentMeasure, content, ContentMaxWidth, ContentTop(titleMeasure, title));
      forall i, j :: 0 <= i < |titleDraws| && 0 <= j < |contentDraws| ==> titleDraws[i].y < contentDraws[j].y
  {
    var top := ContentTop(titleMeasure, title);
    ContentWithinBudget(contentMeasure, content, ContentMaxWidth, top);
  }

  /** An empty post shows the name, one blank title line at 120 and one blank content line at 170. */
  lemma EmptyPost(titleMeasure: Measure, contentMeasure: Measure, posterName: string)
    ensures TextDraws(titleMeasure, contentMeasure, posterName, "", "")
         == [Draw(posterName, Opaque, 50), Draw(" ", Opaque, 120), Draw(" ", Opaque, 170)]
  {
    TextLayout(titleMeasure, contentMeasure, posterName, "", "");
    WrapTextLineShape(titleMeasure, "", TitleMaxWidth);
    assert ContentTop(titleMeasure, "") == 170;
    var titleDraws := Placed([" "], TitleTop);
    assert titleDraws == [Draw(" ", Opaque, 120)];
    ContentEmpty(contentMeasure, 170);
  }

  /** An empty content is one blank line at the top of its block. */
  lemma ContentEmpty(contentMeasure: Measure, top: int)
    ensures ContentBlock(contentMeasure, "", ContentMaxWidth, top) == [Draw(" ", Opaque, top)]
  {
    WrapTextLineShape(contentMeasure, "", ContentMaxWidth);
    ContentLayout(contentMeasure, "", ContentMaxWidth, top);
    assert Placed([" "], top) == [Draw(" ", Opaque, top)];
  }

  /** A two-word title that fits in 1100 pixels is one line: both words, each followed by a space. */
  lemma ShortTitle(titleMeasure: Measure)
    requires titleMeasure("Hello World ") <= TitleMaxWidth
    ensures WrapText(titleMeasure, "Hello World", TitleMaxWidth) == ["Hello World "]
  {
    var words := ["Hello", "World"];
    SplitJoin(words);
    assert Join(words) == "Hello World";
    assert "" + "Hello" + " " == "Hello ";
    assert "Hello " + "World" + " " == "Hello World ";
    assert WrapText(titleMeasure, "Hello World", TitleMaxWidth)
        == WrapLoop(titleMeasure, TitleMaxWidth, words, 1, "Hello ", []);
    assert !Breaks(titleMeasure, TitleMaxWidth, "Hello ", 1, "World");
  }

  // ---------------------------------------------------------------------
  // Missing or malformed form fields.

  /**
    A text field of the request body: absent (`undefined`), present but not a
    string (a JSON number, `null`, an object or an array, or a multipart field
    sent twice), or a string.
   */
  datatype Field = Missing | Invalid | Given(value: string)

  /** The handler either throws before a response is sent, or draws its text. */
  datatype Render = Thrown | Rendered(draws: seq<Draw>)

  /**
    The text drawing of the handler for the fields of a request body. Only a
    string has a `split` method: any other title makes `split` throw inside
    `wrapText`, any other content makes the content's `split` throw, and the
    handler catches neither.
   */
  function RenderText(titleMeasure: Measure, contentMeasure: Measure,
                      posterName: string, title: Field, content: Field): Render
  {
    match (title, content)
    case (Given(t), Given(c)) => Rendered(TextDraws(titleMeasure, contentMeasure, posterName, t, c))
    case _ => Thrown
  }

  /**
    The handler throws exactly when the title or the content is not a string;
    otherwise it draws the name at y = 50 first, then the first title line at
    y = 120, and it ends with a content line at y = 170 or lower.
   */
  lemma RenderTextOutcome(titleMeasure: Measure, contentMeasure: Measure,
                          posterName: string, title: Field, content: Field)
    ensures var r := RenderText(titleMeasure, contentMeasure, posterName, title, content);
      && (r.Thrown? <==> !title.Given? || !content.Given?)
      && (r.Rendered? ==>
            && |r.draws| >= 3
            && r.draws[0] == Draw(posterName, Opaque, PosterNameY)
            && |WrapText(titleMeasure, title.value, TitleMaxWidth)| >= 1
            && r.draws[1] == Draw(WrapText(titleMeasure, title.value, TitleMaxWidth)[0], Opaque, TitleTop)
            && r.draws[|r.draws| - 1].y >= 170)
  {
    if title.Given? && content.Given? {
      var top := ContentTop(titleMeasure, title.value);
      var block := ContentBlock(contentMeasure, content.value, ContentMaxWidth, top);
      TextLayout(titleMeasure, contentMeasure, posterName, title.value, content.value);
      WrapTextLineCount(titleMeasure, title.value, TitleMaxWidth);
      ContentDrawCount(contentMeasure, content.value, ContentMaxWidth, top);
      WrapTextLineCount(contentMeasure, content.value, ContentMaxWidth);
      ContentWithinBudget(contentMeasure, content.value, ContentMaxWidth, top);
      assert block[|block| - 1].y >= top;
    }
  }
}
