# Text layout of the Open Graph image generator

The server (`backend/server.js`) renders a 1250×680 image for a post: a
background, the poster's name, the post title, the post content and,
optionally, a photo. This project models the text part of that image.
That is the only part with real logic in it:

- **`wrapText`**: a greedy word wrap. The text is cut at every single space,
  as JavaScript's `split(' ')` does. Each word is appended with a trailing
  space. A line is committed when the candidate is wider than the limit,
  but never before the first word. The last line is always committed.
- **the title**: wrapped to 1100 pixels. Its lines are drawn from y = 120,
  30 pixels apart.
- **the content block**: 20 pixels below the `y` the title loop leaves, which
  is 50 pixels below the last title line. The content is wrapped
  inline to 1000 pixels with a budget of five line heights. When `y` first
  passes the budget, a fade loop draws the rejected word with falling
  opacity and the word loop stops. Whatever line is current at the end is
  drawn by a final `fillText` at `y`, with the fill opacity last set.

Text measurement (`ctx.measureText(s).width`) is a parameter, an arbitrary
function from strings to real widths. There is one for the title font and
one for the content font; the poster's name is never measured.
Every `fillText` becomes a `Draw(text, opacity, y)` record, and the drawing
code is modelled as the function computing the sequence of draws.

Files:

- `words.dfy`: `split(' ')` (`Words.Split`), join, and lines built word by word
  (`Words.Line`).
- `wrap.dfy`: `wrapText`, lines 133-151. It has two parts:
  - the loop as written, `Wrap.WrapText` and `Wrap.WrapLoop`, together with
    the same loop over groups of words (`Wrap.GroupLoop`);
  - `IsGreedyLayout`, an independent description of the greedy rule, with
    the proof that exactly one grouping satisfies it and that it is the
    one `wrapText` produces.
- `canvas.dfy`: draw records, the shared line height, and `Canvas.Placed`,
  lines drawn one line height apart.
- `fade.dfy`: the fade loop of lines 85-90 (`Fade.FadeFrom`) and its opacity
  of line 86 (`Fade.FadeOpacity`).
- `content.dfy`: the content loop of lines 63-97, `Content.ContentFrom`, and
  the whole block with its final flush, `Content.ContentBlock`. Its main theorem is `ContentLayout`. It
  says the block draws the lines `wrapText` would produce, one line height
  apart. After `maxLines + 1` lines, it draws the fade of the first word of
  the next line.
- `poster.dfy`: the constants of the image, the title loop of lines 57-61
  (`Poster.PlaceLines`), and how name, title and content are put together
  (`Poster.TextDraws`). `Poster.RenderText` adds the request fields, which
  may be missing or may not be strings.

## Model

| member | source | states |
|---|---|---|
| Words.Split | backend/server.js:134 | `split(' ')` yields at least one word and no word contains a space |
| Words.JoinSplit | backend/server.js:134 | joining the words of `split(' ')` with single spaces gives back the text |
| Words.SplitJoin | backend/server.js:134 | splitting words joined by spaces gives back those words, provided none contains a space |
| Words.SplitCount | backend/server.js:134 | `split(' ')` yields exactly one word more than the text has spaces, so empty words between adjacent spaces are kept |
| Words.LineJoin | backend/server.js:139 | a line built by appending each word and a space equals the words joined by spaces plus one trailing space |
| Words.LineShape | backend/server.js:139 | a line of at least one word ends with a space and starts with its first word and a space |
| Words.LineSpaceCount | backend/server.js:139 | a line built from space-free words holds exactly one space per word |
| Words.FirstWordOf | backend/server.js:144 | a line started by a rejected word begins with that word, so its first word is that word |
| Wrap.GroupLoop | backend/server.js:138-149 | the loop only appends to the committed lines and only extends the current line |
| Wrap.WrapLoopGroups | backend/server.js:138-149 | running the loop on strings gives the lines of the loop run on groups of words |
| Wrap.WrapTextGroups | backend/server.js:133-151 | the lines of `wrapText` are the lines of the word groups the loop forms |
| Wrap.ExtendAccepted | backend/server.js:142-146 | appending a word that fits behind the last line keeps the layout greedy |
| Wrap.ExtendBroken | backend/server.js:142-144 | starting a new line with a word that did not fit keeps the layout greedy |
| Wrap.GroupLoopGreedy | backend/server.js:138-149 | from any greedy layout of a prefix of the words, the loop produces a greedy layout of all of them |
| Wrap.WrapGroupsGreedy | backend/server.js:133-151 | the grouping behind `wrapText` obeys the greedy rule: in order, nothing lost, every accepted word fit, every break was forced |
| Wrap.GreedyTail | backend/server.js:138-149 | the first line of a greedy layout is a prefix of the words and the other lines lay out the rest greedily |
| Wrap.FirstGroupNotShorter | backend/server.js:142 | two greedy layouts of the same words cannot break the first line at different places |
| Wrap.GreedyLayoutUnique | backend/server.js:138-149 | a sequence of words has at most one greedy layout |
| Wrap.WrapGroupsCharacterized | backend/server.js:133-151 | a grouping of the words is greedy if and only if it is the one `wrapText` forms |
| Wrap.WrapTextLineCount | backend/server.js:133-151 | `wrapText` returns at least one line and never more lines than words |
| Wrap.WrapTextConcat | backend/server.js:133-151 | the lines put back together are the text plus one trailing space, so nothing is lost, repeated or reordered |
| Wrap.WrapTextLineShape | backend/server.js:133-151 | every line is non-empty and ends with a space, the first word always starts line 1, and the empty text gives the single line `" "` |
| Wrap.WrapTextWidth | backend/server.js:142 | a line of two or more words is never wider than the limit; only a single word can overflow |
| Fade.FadeOpacityRange | backend/server.js:86 | the fade opacity is never negative, is below 0.8 once past the budget, and is 0 exactly from 40 pixels past it |
| Fade.FadeOpacityMonotone | backend/server.js:86 | a deeper line is never more opaque |
| Fade.FadeFrom | backend/server.js:85-90 | fade steps sit one line height apart within 50 pixels below the budget; the loop runs iff it starts no lower than that; the line grows by one copy of the word per step; the fill opacity left is the last one set |
| Fade.FadeOpacities | backend/server.js:85-88 | every fade step is drawn with `max(0, 0.8 - depth / 50)` for its own depth below the budget |
| Fade.FadeTexts | backend/server.js:88-89 | fade step `k` draws the starting line plus `k` more copies of the same word |
| Fade.FadeLength | backend/server.js:85 | the fade loop draws at most one step per line height of the remaining span |
| Fade.FadeNonIncreasing | backend/server.js:85-88 | opacity never increases along the fade |
| Content.TracksAccept | backend/server.js:93-95 | an accepted word extends the current line in the content loop just as in `wrapText` |
| Content.TracksBreak | backend/server.js:79-83 | a break within the budget draws the committed line at the next position and starts the new line with the rejected word, as `wrapText` does |
| Content.TracksOverflow | backend/server.js:79-91 | the break that passes the budget starts the fade of the first word of the next `wrapText` line and ends the loop |
| Content.TracksEnd | backend/server.js:74-96 | when the words run out within the budget, the current line is the last `wrapText` line |
| Content.ContentTracksGroups | backend/server.js:74-96 | at every word, the content loop's state matches the group loop of `wrapText` |
| Content.ContentBlockOutcome | backend/server.js:63-97 | the content block is where the word loop leaves the pen as predicted from the `wrapText` lines, plus the final flush at `y` with the last fill opacity |
| Content.ContentLayout | backend/server.js:63-97 | with at most six `wrapText` lines the block draws exactly those, opaque and 30 pixels apart; otherwise it draws the first six, then the fade of the seventh line's first word, then the flush at the seventh line's position |
| Content.OverflowParts | backend/server.js:84-97 | an overflowing block is the shown lines, then the fade steps, then the flush at the overflow position |
| Content.ContentOverflowDraws | backend/server.js:84-97 | an overflowing block draws exactly eight times; the fade is one step 30 pixels below the budget at opacity 0.2; the flush repeats the word twice at the same position and opacity |
| Content.ContentDrawCount | backend/server.js:74-97 | the block draws once per `wrapText` line up to six lines, and eight times on overflow, never more than `maxLines + 2` plus one per line height of the fade span |
| Content.ContentOpaqueLines | backend/server.js:84-88 | at most `maxLines + 1` draws are fully opaque |
| Content.OverflowWordIndex | backend/server.js:79-91 | on overflow the six shown lines hold exactly the first `shown` words, and the overflowing word is word number `shown` |
| Content.ContentOverflowWords | backend/server.js:79-91 | on overflow every later draw repeats the overflowing word, so no word after it is ever drawn |
| Content.ContentWithinBudget | backend/server.js:67-97 | every content draw lies between the block's top and 50 pixels past its budget |
| Poster.PlaceLinesPlaced | backend/server.js:57-61 | the title loop draws its lines 30 pixels apart from y = 120 and leaves `y` one line height below the last |
| Poster.TextLayout | backend/server.js:52-68 | the name is drawn at 50, the title from 120 and the content from `140 + 30 * titleLines`, never above 170, with the budget ending 150 pixels lower |
| Poster.ContentBelowTitle | backend/server.js:57-97 | every content draw lies below every title line |
| Poster.ContentEmpty | backend/server.js:74-97 | an empty content draws only the blank line `" "`, opaque, at the top of its block |
| Poster.EmptyPost | backend/server.js:48-97 | an empty title and an empty content draw the name, `" "` at 120 and `" "` at 170 |
| Poster.RenderTextOutcome | backend/server.js:15-97 | the handler throws exactly when the title or the content is missing or not a string, since only a string has `split` (line 134, reached from line 56, and line 65); otherwise it draws the name at y = 50 first, then the first title line at y = 120, and its last draw is a content line at y = 170 or lower |
| Poster.ShortTitle | backend/server.js:55-56 | a title of "Hello World" that fits in 1100 pixels wraps to the one line `"Hello World "` |

## Left out

- The HTTP side is not part of this model: the Express app, CORS, multer uploads, static files and the port (lines 1-16, 130, 153-157). They do no text layout.
- The background gradient, rounded corners, clip and fonts are not modelled (lines 18-45, 124). They are drawing calls with constant arguments. The font only matters through the measurement parameter.
- The photo and the icon are not modelled (lines 99-122). Neither draws text.
- Encoding the PNG, naming the file with `Date.now()` and writing it to disk are not modelled (lines 126-128). These are I/O.
- A missing or non-string `posterName` is not modelled: the name is always a string here. What `fillText` draws for another value depends on the canvas library.
- Where a missing or non-string field throws, the handler sends no response; the model only says that it throws, not how Express then answers.
- `measureText` is a parameter. The width of a string is arbitrary, not derived from glyphs, and may be zero.
- The x coordinate is not recorded. Every text is drawn at x = 50.
- `textAlign` and `textBaseline` are not modelled. The content is drawn with baseline `top`, while the title keeps the default baseline, so the same `y` means a slightly different height on the image. The model compares `y` values only.
- Content.ContentOverflowDraws: says the fade opacity is exactly 0.2. The source computes it in IEEE doubles, where `0.8 - 30 / 50` is 0.20000000000000007. All widths and opacities here are exact reals.
- Content.ContentLayout: stated for the source's line height of 30 and budget of five lines, not for arbitrary values. Both are constants in the source.
- An empty text wraps to the single line `" "`, not to an empty line, because every word gets its trailing space. Likewise, an empty post draws a blank content line below the blank title line. The model follows the code on both points.
