/**
  The fade loop of the content block (backend/server.js, lines 84-90).

  Once the content runs past its vertical budget, the loop walks `i` from
  the current position to 50 pixels past the budget in steps of one line
  height. At every step it sets the fill opacity to
  `max(0, 0.8 - (i - maxHeight) / 50)`, draws the current line at `i`, and
  appends the overflowing word and a space to the line again.
 */
module Fade {
  import opened Words
  import opened Canvas

  /** How far past the budget the fade reaches, in pixels. */
  const FadeSpan: int := 50

  /** Opacity of a line right at the budget. */
  const FadeStart: real := 0.8

  /** `Math.max(0, 0.8 - depth / 50)` for a line `depth` pixels past the budget. */
  function FadeOpacity(depth: int): real
  {
    var linear := FadeStart - (depth as real) / (FadeSpan as real);
    if linear > 0.0 then linear else 0.0
  }

  /** Below the budget the opacity is under 0.8 and never negative; 40 pixels down it is 0. */
  lemma FadeOpacityRange(depth: int)
    ensures 0.0 <= FadeOpacity(depth)
    ensures depth >= 0 ==> FadeOpacity(depth) <= FadeStart
    ensures depth > 0 ==> FadeOpacity(depth) < FadeStart
    ensures depth >= 40 <==> FadeOpacity(depth) == 0.0
  {
  }

  /** Deeper lines are never more opaque. */
  lemma FadeOpacityMonotone(d1: int, d2: int)
    requires d1 <= d2
    ensures FadeOpacity(d2) <= FadeOpacity(d1)
  {
  }

  /** What the fade loop leaves behind: its draws, the grown line and the fill opacity last set. */
  datatype FadeRun = FadeRun(draws: seq<Draw>, line: string, alpha: real)

  /** The fade loop from position `i`, with the current `line` and fill opacity `alpha`. */
  function FadeFrom(word: string, i: int, maxHeight: int,
                    line: string, alpha: real): (r: FadeRun)
    ensures forall k :: 0 <= k < |r.draws| ==> i <= r.draws[k].y <= maxHeight + FadeSpan
    ensures forall k :: 0 <= k < |r.draws| ==> r.draws[k].y == i + k * LineHeight
    ensures r.line == line + Repeat(word + " ", |r.draws|)
    ensures r.alpha == if |r.draws| == 0 then alpha else r.draws[|r.draws| - 1].opacity
    ensures |r.draws| == 0 <==> i > maxHeight + FadeSpan
    decreases maxHeight + FadeSpan - i
  {
    if i > maxHeight + FadeSpan then FadeRun([], line, alpha)
    else
      var a := FadeOpacity(i - maxHeight);
      var rest := FadeFrom(word, i + LineHeight, maxHeight, line + word + " ", a);
      FadeRun([Draw(line, a, i)] + rest.draws, rest.line, rest.alpha)
  }

  /** A draw whose opacity is the one its depth below `maxHeight` calls for. */
  predicate FadedForDepth(d: Draw, maxHeight: int)
  {
    d.opacity == FadeOpacity(d.y - maxHeight)
  }

  /** Every fade step is drawn with the opacity its own depth below the budget calls for. */
  lemma {:induction false} FadeOpacities(word: string, i: int, maxHeight: int, line: string, alpha: real)
    ensures forall d :: d in FadeFrom(word, i, maxHeight, line, alpha).draws ==> FadedForDepth(d, maxHeight)
    decreases maxHeight + FadeSpan - i
  {
    if i <= maxHeight + FadeSpan {
      var a := FadeOpacity(i - maxHeight);
      FadeOpacities(word, i + LineHeight, maxHeight, line + word + " ", a);
    }
  }

  /** Putting a draw of `line` in front of draws of `line + s` plus `j` copies gives draws of `line` plus `k` copies. */
  lemma ConsTexts(first: Draw, rest: seq<Draw>, line: string, s: string)
    requires first.text == line
    requires forall j :: 0 <= j < |rest| ==> rest[j].text == line + s + Repeat(s, j)
    ensures forall k :: 0 <= k < |[first] + rest| ==> ([first] + rest)[k].text == line + Repeat(s, k)
  {
    forall k | 0 <= k < |[first] + rest|
      ensures ([first] + rest)[k].text == line + Repeat(s, k)
    {
      if k > 0 {
        RepeatSucc(line, s, k - 1);
      } else {
        assert line + Repeat(s, 0) == line;
      }
    }
  }

  /** Fade step `k` draws the starting line followed by `k` more copies of the word; the loop leaves one copy more. */
  lemma {:induction false} FadeTexts(word: string, i: int, maxHeight: int, line: string, alpha: real)
    ensures var r := FadeFrom(word, i, maxHeight, line, alpha);
      && (forall k :: 0 <= k < |r.draws| ==> r.draws[k].text == line + Repeat(word + " ", k))
      && r.line == line + Repeat(word + " ", |r.draws|)
    decreases maxHeight + FadeSpan - i
  {
    if i <= maxHeight + FadeSpan {
      var a := FadeOpacity(i - maxHeight);
      var rest := FadeFrom(word, i + LineHeight, maxHeight, line + word + " ", a);
      FadeTexts(word, i + LineHeight, maxHeight, line + word + " ", a);
      ConsTexts(Draw(line, a, i), rest.draws, line, word + " ");
      RepeatSucc(line, word + " ", |rest.draws|);
    }
  }

  /** The fade steps fit in the span: started `i` pixels down, at most one step per line height left. */
  lemma {:induction false} FadeLength(word: string, i: int, maxHeight: int, line: string, alpha: real)
    requires i <= maxHeight + FadeSpan + LineHeight
    ensures |FadeFrom(word, i, maxHeight, line, alpha).draws| * LineHeight
         <= maxHeight + FadeSpan + LineHeight - i
    decreases maxHeight + FadeSpan - i
  {
    if i <= maxHeight + FadeSpan {
      var a := FadeOpacity(i - maxHeight);
      var rest := FadeFrom(word, i + LineHeight, maxHeight, line + word + " ", a);
      FadeLength(word, i + LineHeight, maxHeight, line + word + " ", a);
      assert (|rest.draws| + 1) * LineHeight == |rest.draws| * LineHeight + LineHeight;
    }
  }

  /** Along the fade, opacity never increases. */
  lemma FadeNonIncreasing(word: string, i: int, maxHeight: int, line: string, alpha: real)
    ensures var r := FadeFrom(word, i, maxHeight, line, alpha);
      forall k :: 0 <= k < |r.draws| - 1 ==> r.draws[k + 1].opacity <= r.draws[k].opacity
  {
    var r := FadeFrom(word, i, maxHeight, line, alpha);
    FadeOpacities(word, i, maxHeight, line, alpha);
    forall k | 0 <= k < |r.draws| - 1
      ensures r.draws[k + 1].opacity <= r.draws[k].opacity
    {
      assert r.draws[k] in r.draws && r.draws[k + 1] in r.draws;
      FadeOpacityMonotone(r.draws[k].y - maxHeight, r.draws[k + 1].y - maxHeight);
    }
  }
}
