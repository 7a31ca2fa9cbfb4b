/**
  Greedy word wrap of `wrapText` (backend/server.js).

  Words are appended one at a time, each followed by a space; the candidate
  line is measured, and when it is wider than the limit the line built so far
  is committed and the rejected word starts the next line. The very first
  word is never rejected, and the last line is always committed.

  `WrapText` is the string-level loop as written. `WrapGroups` runs the same
  decisions on the words themselves, so that each line is known as the group
  of words it holds; `IsGreedyLayout` says, without running anything, which
  groupings obey the rule, and exactly one grouping does.
 */
module Wrap {
  import opened Words

  /** Pixel width of a string in the active font (`ctx.measureText(s).width`). */
  type Measure = string -> real

  /** The test of the loop: the candidate is too wide and it is not the first word. */
  predicate Breaks(measure: Measure, maxWidth: real, line: string, n: nat, word: string)
  {
    measure(line + word + " ") > maxWidth && n > 0
  }

  /** The `for` loop of `wrapText` from word `n` on, with the current line and the committed lines. */
  function WrapLoop(measure: Measure, maxWidth: real, words: seq<string>, n: nat,
                    line: string, lines: seq<string>): seq<string>
    requires n <= |words|
    decreases |words| - n
  {
    if n == |words| then lines + [line]
    else if Breaks(measure, maxWidth, line, n, words[n]) then
      WrapLoop(measure, maxWidth, words, n + 1, words[n] + " ", lines + [line])
    else
      WrapLoop(measure, maxWidth, words, n + 1, line + words[n] + " ", lines)
  }

  /** `wrapText(context, text, maxWidth)`. */
  function WrapText(measure: Measure, text: string, maxWidth: real): seq<string>
  {
    WrapLoop(measure, maxWidth, Split(text), 0, "", [])
  }

  /** The same loop over groups of words: `cur` is the current line's words, `done` the committed ones. */
  function GroupLoop(measure: Measure, maxWidth: real, words: seq<string>, n: nat,
                     cur: seq<string>, done: seq<seq<string>>): (groups: seq<seq<string>>)
    requires n <= |words|
    ensures |done| < |groups| && groups[..|done|] == done
    ensures |cur| <= |groups[|done|]| && groups[|done|][..|cur|] == cur
    decreases |words| - n
  {
    if n == |words| then done + [cur]
    else if Breaks(measure, maxWidth, Line(cur), n, words[n]) then
      GroupLoop(measure, maxWidth, words, n + 1, [words[n]], done + [cur])
    else
      GroupLoop(measure, maxWidth, words, n + 1, cur + [words[n]], done)
  }

  /** The words of each line `wrapText` returns. */
  function WrapGroups(measure: Measure, text: string, maxWidth: real): seq<seq<string>>
  {
    GroupLoop(measure, maxWidth, Split(text), 0, [], [])
  }

  function LinesOf(groups: seq<seq<string>>): seq<string>
  {
    seq(|groups|, k requires 0 <= k < |groups| => Line(groups[k]))
  }

  // ---------------------------------------------------------------------
  // The greedy rule, stated on a grouping of the words.

  /** Every word after the first of a line was accepted: the line up to and including it fit. */
  predicate Accepted(measure: Measure, maxWidth: real, group: seq<string>)
  {
    forall j :: 2 <= j <= |group| ==> measure(Line(group[..j])) <= maxWidth
  }

  /** Line `k` starts with a word that did not fit behind line `k - 1`. */
  predicate BrokenAt(measure: Measure, maxWidth: real, groups: seq<seq<string>>, k: int)
    requires 0 < k < |groups|
  {
    |groups[k]| >= 1 && measure(Line(groups[k - 1]) + groups[k][0] + " ") > maxWidth
  }

  predicate IsGreedyLayout(measure: Measure, maxWidth: real, words: seq<string>, groups: seq<seq<string>>)
  {
    && |groups| >= 1
    && Flatten(groups) == words
    && (forall k :: 0 <= k < |groups| ==> |groups[k]| >= 1 && Accepted(measure, maxWidth, groups[k]))
    && (forall k :: 0 < k < |groups| ==> BrokenAt(measure, maxWidth, groups, k))
  }

  // ---------------------------------------------------------------------
  // The string loop and the group loop agree.

  lemma LinesOfSnoc(groups: seq<seq<string>>, g: seq<string>)
    ensures LinesOf(groups + [g]) == LinesOf(groups) + [Line(g)]
  {
  }

  lemma {:induction false} WrapLoopGroups(measure: Measure, maxWidth: real, words: seq<string>, n: nat,
                                          cur: seq<string>, done: seq<seq<string>>)
    requires n <= |words|
    ensures WrapLoop(measure, maxWidth, words, n, Line(cur), LinesOf(done))
         == LinesOf(GroupLoop(measure, maxWidth, words, n, cur, done))
    decreases |words| - n
  {
    if n == |words| {
      LinesOfSnoc(done, cur);
    } else if Breaks(measure, maxWidth, Line(cur), n, words[n]) {
      LinesOfSnoc(done, cur);
      assert Line([words[n]]) == words[n] + " " by { LineSnoc([], words[n]); }
      WrapLoopGroups(measure, maxWidth, words, n + 1, [words[n]], done + [cur]);
    } else {
      LineSnoc(cur, words[n]);
      WrapLoopGroups(measure, maxWidth, words, n + 1, cur + [words[n]], done);
    }
  }

  /** The lines of `wrapText` are the lines of the groups `WrapGroups` forms. */
  lemma WrapTextGroups(measure: Measure, text: string, maxWidth: real)
    ensures WrapText(measure, text, maxWidth) == LinesOf(WrapGroups(measure, text, maxWidth))
  {
    assert Line([]) == "";
    assert LinesOf([]) == [];
    WrapLoopGroups(measure, maxWidth, Split(text), 0, [], []);
  }

  // ---------------------------------------------------------------------
  // The group loop obeys the greedy rule.

  lemma ExtendAccepted(measure: Measure, maxWidth: real, words: seq<string>,
                       done: seq<seq<string>>, cur: seq<string>, w: string)
    requires IsGreedyLayout(measure, maxWidth, words, done + [cur])
    requires measure(Line(cur) + w + " ") <= maxWidth
    ensures IsGreedyLayout(measure, maxWidth, words + [w], done + [cur + [w]])
  {
    var before := done + [cur];
    var after := done + [cur + [w]];
    var last := |done|;
    assert before[last] == cur;
    FlattenAppend(done, [cur]);
    FlattenAppend(done, [cur + [w]]);
    assert Flatten([cur]) == cur by { assert [cur][..0] == []; }
    assert Flatten([cur + [w]]) == cur + [w] by { assert [cur + [w]][..0] == []; }
    assert Accepted(measure, maxWidth, cur + [w]) by {
      forall j | 2 <= j <= |cur + [w]|
        ensures measure(Line((cur + [w])[..j])) <= maxWidth
      {
        if j <= |cur| {
          assert (cur + [w])[..j] == cur[..j];
        } else {
          assert (cur + [w])[..j] == cur + [w];
          LineSnoc(cur, w);
        }
      }
    }
    forall k | 0 < k < |after|
      ensures BrokenAt(measure, maxWidth, after, k)
    {
      assert BrokenAt(measure, maxWidth, before, k);
      if k == last {
        assert after[k][0] == cur[0];
      }
    }
  }

  lemma ExtendBroken(measure: Measure, maxWidth: real, words: seq<string>,
                     done: seq<seq<string>>, cur: seq<string>, w: string)
    requires IsGreedyLayout(measure, maxWidth, words, done + [cur])
    requires measure(Line(cur) + w + " ") > maxWidth
    ensures IsGreedyLayout(measure, maxWidth, words + [w], done + [cur] + [[w]])
  {
    var before := done + [cur];
    var after := before + [[w]];
    FlattenAppend(before, [[w]]);
    assert Flatten([[w]]) == [w] by { assert [[w]][..0] == []; }
    assert Accepted(measure, maxWidth, [w]);
    forall k | 0 < k < |after|
      ensures BrokenAt(measure, maxWidth, after, k)
    {
      if k < |before| {
        assert BrokenAt(measure, maxWidth, before, k);
      }
    }
  }

  lemma {:induction false} GroupLoopGreedy(measure: Measure, maxWidth: real, words: seq<string>, n: nat,
                                           cur: seq<string>, done: seq<seq<string>>)
    requires 1 <= n <= |words|
    requires IsGreedyLayout(measure, maxWidth, words[..n], done + [cur])
    ensures IsGreedyLayout(measure, maxWidth, words, GroupLoop(measure, maxWidth, words, n, cur, done))
    decreases |words| - n
  {
    if n == |words| {
      assert words[..n] == words;
    } else {
      assert words[..n + 1] == words[..n] + [words[n]];
      if Breaks(measure, maxWidth, Line(cur), n, words[n]) {
        ExtendBroken(measure, maxWidth, words[..n], done, cur, words[n]);
        GroupLoopGreedy(measure, maxWidth, words, n + 1, [words[n]], done + [cur]);
      } else {
        ExtendAccepted(measure, maxWidth, words[..n], done, cur, words[n]);
        GroupLoopGreedy(measure, maxWidth, words, n + 1, cur + [words[n]], done);
      }
    }
  }

  /** The grouping behind `wrapText` obeys the greedy rule. */
  lemma WrapGroupsGreedy(measure: Measure, text: string, maxWidth: real)
    ensures IsGreedyLayout(measure, maxWidth, Split(text), WrapGroups(measure, text, maxWidth))
  {
    var words := Split(text);
    var first: seq<seq<string>> := [[words[0]]];
    assert Flatten(first) == words[..1] by { assert first[..0] == []; }
    assert IsGreedyLayout(measure, maxWidth, words[..1], [] + [[words[0]]]);
    assert [] + [words[0]] == [words[0]];
    GroupLoopGreedy(measure, maxWidth, words, 1, [words[0]], []);
  }

  // ---------------------------------------------------------------------
  // At most one grouping obeys the greedy rule.

  /** The first line of a greedy layout is a prefix of the words, and the rest lay out the remainder. */
  lemma GreedyTail(measure: Measure, maxWidth: real, words: seq<string>, groups: seq<seq<string>>)
    requires IsGreedyLayout(measure, maxWidth, words, groups)
    ensures |groups[0]| <= |words| && groups[0] == words[..|groups[0]|]
    ensures Flatten(groups[1..]) == words[|groups[0]|..]
    ensures |groups| == 1 <==> |groups[0]| == |words|
    ensures |groups| > 1 ==> IsGreedyLayout(measure, maxWidth, words[|groups[0]|..], groups[1..])
    ensures |groups| > 1 ==> words[|groups[0]|] == groups[1][0]
  {
    FlattenCons(groups);
    var rest := groups[1..];
    if |rest| > 0 {
      FlattenLength(rest);
      FlattenCons(rest);
      forall k | 0 < k < |rest|
        ensures BrokenAt(measure, maxWidth, rest, k)
      {
        assert BrokenAt(measure, maxWidth, groups, k + 1);
      }
    }
  }

  /** A word that fits behind the first line of one greedy layout is never the start of another's second line. */
  lemma FirstGroupNotShorter(measure: Measure, maxWidth: real, words: seq<string>,
                             g1: seq<seq<string>>, g2: seq<seq<string>>)
    requires IsGreedyLayout(measure, maxWidth, words, g1)
    requires IsGreedyLayout(measure, maxWidth, words, g2)
    ensures |g2[0]| <= |g1[0]|
  {
    GreedyTail(measure, maxWidth, words, g1);
    GreedyTail(measure, maxWidth, words, g2);
    var a := |g1[0]|;
    if a < |g2[0]| {
      assert BrokenAt(measure, maxWidth, g1, 1);
      assert g2[0][..a + 1] == words[..a + 1] == words[..a] + [words[a]];
      LineSnoc(words[..a], words[a]);
      assert false;
    }
  }

  lemma {:induction false} GreedyLayoutUnique(measure: Measure, maxWidth: real, words: seq<string>,
                                              g1: seq<seq<string>>, g2: seq<seq<string>>)
    requires IsGreedyLayout(measure, maxWidth, words, g1)
    requires IsGreedyLayout(measure, maxWidth, words, g2)
    ensures g1 == g2
    decreases |words|
  {
    FirstGroupNotShorter(measure, maxWidth, words, g1, g2);
    FirstGroupNotShorter(measure, maxWidth, words, g2, g1);
    GreedyTail(measure, maxWidth, words, g1);
    GreedyTail(measure, maxWidth, words, g2);
    var a := |g1[0]|;
    if |g1| > 1 {
      GreedyLayoutUnique(measure, maxWidth, words[a..], g1[1..], g2[1..]);
      assert g1 == [g1[0]] + g1[1..];
      assert g2 == [g2[0]] + g2[1..];
    } else {
      assert g1 == [g1[0]];
      assert g2 == [g2[0]];
    }
  }

  /** `wrapText` splits its words exactly as the greedy rule demands, and in no other way. */
  lemma WrapGroupsCharacterized(measure: Measure, text: string, maxWidth: real, groups: seq<seq<string>>)
    ensures IsGreedyLayout(measure, maxWidth, Split(text), groups)
        <==> groups == WrapGroups(measure, text, maxWidth)
  {
    WrapGroupsGreedy(measure, text, maxWidth);
    if IsGreedyLayout(measure, maxWidth, Split(text), groups) {
      GreedyLayoutUnique(measure, maxWidth, Split(text), groups, WrapGroups(measure, text, maxWidth));
    }
  }

  // ---------------------------------------------------------------------
  // What the lines of wrapText look like.

  /** At least one line, and never more lines than `split(' ')` words. */
  lemma WrapTextLineCount(measure: Measure, text: string, maxWidth: real)
    ensures 1 <= |WrapText(measure, text, maxWidth)| <= |Split(text)|
  {
    WrapTextGroups(measure, text, maxWidth);
    WrapGroupsGreedy(measure, text, maxWidth);
    FlattenLength(WrapGroups(measure, text, maxWidth));
  }

  lemma {:induction false} FlattenLinesOf(groups: seq<seq<string>>)
    ensures Flatten(LinesOf(groups)) == Line(Flatten(groups))
    decreases |groups|
  {
    if |groups| > 0 {
      var init := groups[..|groups| - 1];
      var last := groups[|groups| - 1];
      FlattenLinesOf(init);
      assert LinesOf(groups)[..|groups| - 1] == LinesOf(init);
      LineAppend(Flatten(init), last);
    }
  }

  /** The lines, put back together, are the text plus one space: nothing lost, repeated, reordered or cut. */
  lemma WrapTextConcat(measure: Measure, text: string, maxWidth: real)
    ensures Flatten(WrapText(measure, text, maxWidth)) == text + " "
  {
    var groups := WrapGroups(measure, text, maxWidth);
    WrapTextGroups(measure, text, maxWidth);
    WrapGroupsGreedy(measure, text, maxWidth);
    FlattenLinesOf(groups);
    LineJoin(Split(text));
    JoinSplit(text);
  }

  /** Every line ends with a space, the first begins with the first word, and the empty text gives `" "`. */
  lemma WrapTextLineShape(measure: Measure, text: string, maxWidth: real)
    ensures var lines := WrapText(measure, text, maxWidth);
      && (forall k :: 0 <= k < |lines| ==> |lines[k]| >= 1 && lines[k][|lines[k]| - 1] == ' ')
      && |lines| >= 1 && |lines[0]| > |Split(text)[0]|
      && lines[0][..|Split(text)[0]| + 1] == Split(text)[0] + " "
      && (text == "" ==> lines == [" "])
  {
    var groups := WrapGroups(measure, text, maxWidth);
    var lines := WrapText(measure, text, maxWidth);
    WrapTextGroups(measure, text, maxWidth);
    WrapGroupsGreedy(measure, text, maxWidth);
    forall k | 0 <= k < |lines|
      ensures |lines[k]| >= 1 && lines[k][|lines[k]| - 1] == ' '
    {
      LineShape(groups[k]);
    }
    GreedyTail(measure, maxWidth, Split(text), groups);
    LineShape(groups[0]);
    if text == "" {
      assert Split(text) == [""];
      assert groups[0] == [""];
      assert groups == [[""]];
      assert Line([""]) == " " by {
        assert [""][..0] == [];
      }
      assert lines == [Line([""])];
    }
  }

  /** Only a one-word line can be wider than the limit: a line of two or more words fit when measured. */
  lemma WrapTextWidth(measure: Measure, text: string, maxWidth: real)
    ensures var lines := WrapText(measure, text, maxWidth);
      forall k :: 0 <= k < |lines| && SpaceCount(lines[k]) >= 2 ==> measure(lines[k]) <= maxWidth
  {
    var groups := WrapGroups(measure, text, maxWidth);
    var lines := WrapText(measure, text, maxWidth);
    WrapTextGroups(measure, text, maxWidth);
    WrapGroupsGreedy(measure, text, maxWidth);
    forall k | 0 <= k < |lines| && SpaceCount(lines[k]) >= 2
      ensures measure(lines[k]) <= maxWidth
    {
      var g := groups[k];
      assert NoSpaces(g) by {
        FlattenMember(groups, k);
        forall j | 0 <= j < |g| ensures ' ' !in g[j] {
          assert g[j] in Split(text);
        }
      }
      LineSpaceCount(g);
      assert g[..|g|] == g;
    }
  }

  /** Every member of a part is a member of the flattening. */
  lemma {:induction false} FlattenMember<T>(parts: seq<seq<T>>, k: int)
    requires 0 <= k < |parts|
    ensures forall x :: x in parts[k] ==> x in Flatten(parts)
    decreases |parts|
  {
    if k < |parts| - 1 {
      FlattenMember(parts[..|parts| - 1], k);
    }
  }
}
