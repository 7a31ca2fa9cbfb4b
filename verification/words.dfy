/**
  Words and lines of text as the layout code sees them.

  The layout code splits its input with JavaScript's `text.split(' ')`,
  which cuts at every single space: two spaces in a row give an empty word,
  and the empty string gives the one empty word `[""]`. A line is built by
  appending, for every word, the word followed by one space.
 */
module Words {

  /** JavaScript `s.split(' ')`: the maximal space-free pieces between spaces. */
  function Split(s: string): (words: seq<string>)
    ensures |words| >= 1
    ensures NoSpaces(words)
    decreases |s|
  {
    if |s| == 0 then [""]
    else
      var rest := Split(s[1..]);
      if s[0] == ' ' then [""] + rest
      else [[s[0]] + rest[0]] + rest[1..]
  }

  /** JavaScript `words.join(' ')`, the inverse of `Split`. */
  function Join(words: seq<string>): string
    requires |words| >= 1
    decreases |words|
  {
    if |words| == 1 then words[0] else words[0] + " " + Join(words[1..])
  }

  /** The text a line holds after each of `words` was appended with its trailing space. */
  function Line(words: seq<string>): string
    decreases |words|
  {
    if |words| == 0 then "" else Line(words[..|words| - 1]) + words[|words| - 1] + " "
  }

  /** Concatenation of a sequence of sequences, in order. */
  function Flatten<T>(parts: seq<seq<T>>): seq<T>
    decreases |parts|
  {
    if |parts| == 0 then [] else Flatten(parts[..|parts| - 1]) + parts[|parts| - 1]
  }

  /** `s` written `count` times in a row. */
  function Repeat(s: string, count: nat): string
    decreases count
  {
    if count == 0 then "" else s + Repeat(s, count - 1)
  }

  /** The text before the first space of `s` (all of `s` when it has none). */
  function FirstWord(s: string): string
    decreases |s|
  {
    if |s| == 0 || s[0] == ' ' then "" else [s[0]] + FirstWord(s[1..])
  }

  /** Number of space characters in `s`. */
  function SpaceCount(s: string): nat
    decreases |s|
  {
    if |s| == 0 then 0 else (if s[0] == ' ' then 1 else 0) + SpaceCount(s[1..])
  }

  predicate NoSpaces(words: seq<string>)
  {
    forall k :: 0 <= k < |words| ==> ' ' !in words[k]
  }

  // ---------------------------------------------------------------------
  // Split and Join are inverse to each other.

  /** Splitting a space-free prefix glued to `t` only extends the first word of `t`. */
  lemma {:induction false} SplitPrefix(a: string, t: string)
    requires ' ' !in a
    ensures Split(a + t) == [a + Split(t)[0]] + Split(t)[1..]
    decreases |a|
  {
    if |a| > 0 {
      assert (a + t)[1..] == a[1..] + t;
      SplitPrefix(a[1..], t);
      assert [a[0]] + (a[1..] + Split(t)[0]) == a + Split(t)[0];
    } else {
      var words := Split(t);
      assert a + t == t;
      assert a + words[0] == words[0];
      assert [words[0]] + words[1..] == words;
    }
  }

  lemma {:induction false} JoinSplit(s: string)
    ensures Join(Split(s)) == s
    decreases |s|
  {
    if |s| > 0 {
      var rest := Split(s[1..]);
      JoinSplit(s[1..]);
      if s[0] == ' ' {
        assert ([""] + rest)[1..] == rest;
      } else {
        var words := [[s[0]] + rest[0]] + rest[1..];
        if |rest| == 1 {
          assert s == [s[0]] + s[1..];
        } else {
          assert words[1..] == rest[1..];
          assert Join(rest) == rest[0] + " " + Join(rest[1..]);
          assert s == [s[0]] + s[1..];
        }
      }
    }
  }

  lemma {:induction false} SplitJoin(words: seq<string>)
    requires |words| >= 1 && NoSpaces(words)
    ensures Split(Join(words)) == words
    decreases |words|
  {
    assert ' ' !in words[0];
    if |words| == 1 {
      SplitPrefix(words[0], "");
      assert words[0] + "" == words[0];
    } else {
      var rest := words[1..];
      assert NoSpaces(rest) by {
        forall k | 0 <= k < |rest| ensures ' ' !in rest[k] {
          assert rest[k] == words[k + 1];
        }
      }
      SplitJoin(rest);
      var t := " " + Join(rest);
      assert t[1..] == Join(rest);
      assert Split(t) == [""] + rest;
      SplitPrefix(words[0], t);
      assert words[0] + t == Join(words);
      assert words[0] + "" == words[0];
      assert [words[0]] + rest == words;
    }
  }

  /** JavaScript `split(' ')` yields one word more than there are spaces. */
  lemma {:induction false} SplitCount(s: string)
    ensures |Split(s)| == SpaceCount(s) + 1
    decreases |s|
  {
    if |s| > 0 {
      SplitCount(s[1..]);
    }
  }

  // ---------------------------------------------------------------------
  // Facts about lines and concatenation.

  /** One more copy of `s` behind a prefix: `line + s` followed by `k` copies is `line` followed by `k + 1`. */
  lemma RepeatSucc(line: string, s: string, k: nat)
    ensures line + s + Repeat(s, k) == line + Repeat(s, k + 1)
  {
    assert Repeat(s, k + 1) == s + Repeat(s, k);
  }

  lemma LineSnoc(words: seq<string>, w: string)
    ensures Line(words + [w]) == Line(words) + w + " "
  {
    assert (words + [w])[..|words|] == words;
  }

  lemma {:induction false} LineAppend(xs: seq<string>, ys: seq<string>)
    ensures Line(xs + ys) == Line(xs) + Line(ys)
    decreases |ys|
  {
    if |ys| == 0 {
      assert xs + ys == xs;
    } else {
      var init := ys[..|ys| - 1];
      LineAppend(xs, init);
      assert xs + ys == (xs + init) + [ys[|ys| - 1]];
      LineSnoc(xs + init, ys[|ys| - 1]);
    }
  }

  /** A line is its words joined by spaces, plus one trailing space. */
  lemma {:induction false} LineJoin(words: seq<string>)
    requires |words| >= 1
    ensures Line(words) == Join(words) + " "
    decreases |words|
  {
    if |words| == 1 {
      assert words[..0] == [];
    } else {
      LineJoin(words[1..]);
      LineAppend([words[0]], words[1..]);
      assert [words[0]] + words[1..] == words;
      assert [words[0]][..0] == [];
    }
  }

  /** A line of at least one word is non-empty, ends with a space and starts with its first word. */
  lemma LineShape(words: seq<string>)
    requires |words| >= 1
    ensures |Line(words)| >= |words[0]| + 1
    ensures Line(words)[|Line(words)| - 1] == ' '
    ensures Line(words)[..|words[0]| + 1] == words[0] + " "
  {
    LineAppend([words[0]], words[1..]);
    assert [words[0]] + words[1..] == words;
    assert [words[0]][..0] == [];
  }

  /** The first word of a text that starts with a space-free `w` and a space is `w`. */
  lemma {:induction false} FirstWordOf(w: string, s: string)
    requires ' ' !in w && |s| > |w| && s[..|w| + 1] == w + " "
    ensures FirstWord(s) == w
    decreases |w|
  {
    if |w| > 0 {
      assert s[..|w| + 1][1..] == (w + " ")[1..];
      assert s[1..][..|w[1..]| + 1] == s[..|w| + 1][1..];
      assert (w + " ")[1..] == w[1..] + " ";
      FirstWordOf(w[1..], s[1..]);
      assert [w[0]] + w[1..] == w;
    } else {
      assert s[0] == ' ';
    }
  }

  lemma {:induction false} SpaceCountAppend(a: string, b: string)
    ensures SpaceCount(a + b) == SpaceCount(a) + SpaceCount(b)
    decreases |a|
  {
    if |a| > 0 {
      assert (a + b)[1..] == a[1..] + b;
      SpaceCountAppend(a[1..], b);
    } else {
      assert a + b == b;
    }
  }

  lemma {:induction false} SpaceCountNone(s: string)
    requires ' ' !in s
    ensures SpaceCount(s) == 0
    decreases |s|
  {
    if |s| > 0 {
      SpaceCountNone(s[1..]);
    }
  }

  /** A line of space-free words holds exactly one space per word. */
  lemma {:induction false} LineSpaceCount(words: seq<string>)
    requires NoSpaces(words)
    ensures SpaceCount(Line(words)) == |words|
    decreases |words|
  {
    if |words| > 0 {
      var init := words[..|words| - 1];
      var w := words[|words| - 1];
      assert NoSpaces(init) by {
        forall k | 0 <= k < |init| ensures ' ' !in init[k] {
          assert init[k] == words[k];
        }
      }
      LineSpaceCount(init);
      SpaceCountAppend(Line(init) + w, " ");
      SpaceCountAppend(Line(init), w);
      SpaceCountNone(w);
      assert SpaceCount(" ") == 1 by {
        assert " "[1..] == "";
      }
    }
  }

  lemma {:induction false} FlattenAppend<T>(xs: seq<seq<T>>, ys: seq<seq<T>>)
    ensures Flatten(xs + ys) == Flatten(xs) + Flatten(ys)
    decreases |ys|
  {
    if |ys| == 0 {
      assert xs + ys == xs;
    } else {
      var init := ys[..|ys| - 1];
      FlattenAppend(xs, init);
      assert (xs + ys)[..|xs + ys| - 1] == xs + init;
    }
  }

  lemma FlattenCons<T>(parts: seq<seq<T>>)
    requires |parts| >= 1
    ensures Flatten(parts) == parts[0] + Flatten(parts[1..])
  {
    var head: seq<seq<T>> := [parts[0]];
    var empty: seq<seq<T>> := [];
    assert head[..0] == empty;
    assert Flatten(head) == parts[0];
    FlattenAppend(head, parts[1..]);
    assert head + parts[1..] == parts;
  }

  /** Flattening parts that are all non-empty gives at least one element per part. */
  lemma {:induction false} FlattenLength<T>(parts: seq<seq<T>>)
    requires forall k :: 0 <= k < |parts| ==> |parts[k]| >= 1
    ensures |Flatten(parts)| >= |parts|
    decreases |parts|
  {
    if |parts| > 0 {
      FlattenLength(parts[..|parts| - 1]);
    }
  }
}
