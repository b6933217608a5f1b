/**
 The line wrapping of `TTChat::print` (chat/src/TTChat.cpp:221-238): greedy filling
 with hard breaks, its termination, its losslessness and its optimality.
 */
module Layout {
  import opened Common
  import opened Words

  /** All characters of `words`, for the termination measure of the wrap loop. */
  function Size(words: seq<string>): nat
  {
    if words == [] then 0 else |words[0]| + Size(words[1..])
  }

  lemma {:induction false} SizeConcat(a: seq<string>, b: seq<string>)
    ensures Size(a + b) == Size(a) + Size(b)
  {
    if a == [] {
      assert a + b == b;
    } else {
      assert (a + b)[1..] == a[1..] + b;
      SizeConcat(a[1..], b);
    }
  }

  lemma SizeSuffix(words: seq<string>, n: nat)
    requires n <= |words|
    ensures Size(words[n..]) <= Size(words)
  {
    assert words == words[..n] + words[n..];
    SizeConcat(words[..n], words[n..]);
  }

  /** How many words fit on a line that already holds `used` characters, delimiter included. */
  function Take(words: seq<string>, used: nat, width: nat): (n: nat)
    ensures n <= |words|
  {
    if words == [] || used + |words[0]| > width then 0
    else 1 + Take(words[1..], used + |words[0]| + 1, width)
  }

  /** The lines made of `words`: a short word opens a greedy line, a long one is cut. */
  function Wrap(words: seq<string>, width: nat): (lines: seq<string>)
    requires width >= 1
    decreases Size(words) + |words|
  {
    if words == [] then []
    else if |words[0]| < width then
      var n := Take(words, 0, width);
      SizeSuffix(words, n);
      [Join(words[..n])] + Wrap(words[n..], width)
    else
      var rest := [words[0][width..]] + words[1..];
      assert rest[1..] == words[1..];
      [words[0][..width]] + Wrap(rest, width)
  }

  // --------------------------------------------------- reference definitions

  /** A word cut into full-width blocks and a remainder shorter than the width. */
  function Blocks(word: string, width: nat): (blocks: seq<string>)
    requires width >= 1
    ensures blocks != [] && NoneWider(blocks, width)
    decreases |word|
  {
    if |word| < width then [word] else [word[..width]] + Blocks(word[width..], width)
  }

  ghost predicate NoneWider(pieces: seq<string>, width: nat)
  {
    forall i :: 0 <= i < |pieces| ==> |pieces[i]| <= width
  }

  /** The pieces that have to be laid out: every word replaced by its blocks. */
  function Pieces(words: seq<string>, width: nat): (pieces: seq<string>)
    requires width >= 1
    ensures NoneWider(pieces, width)
  {
    if words == [] then [] else Blocks(words[0], width) + Pieces(words[1..], width)
  }

  /** First-fit filling of pieces none of which is wider than the line. */
  function Greedy(pieces: seq<string>, width: nat): (lines: seq<string>)
    requires NoneWider(pieces, width)
    decreases |pieces|
  {
    if pieces == [] then []
    else
      var n := Take(pieces, 0, width);
      [Join(pieces[..n])] + Greedy(pieces[n..], width)
  }

  /** A division of `pieces` into consecutive, non-empty, space-joined lines that fit. */
  ghost predicate Division(groups: seq<seq<string>>, pieces: seq<string>, width: nat)
  {
    && Flatten(groups) == pieces
    && forall i :: 0 <= i < |groups| ==> groups[i] != [] && |Join(groups[i])| <= width
  }

  function JoinAll(groups: seq<seq<string>>): (lines: seq<string>)
    ensures |lines| == |groups|
  {
    if groups == [] then [] else [Join(groups[0])] + JoinAll(groups[1..])
  }

  /** The pieces read back from printed lines. */
  function SplitAll(lines: seq<string>): seq<string>
  {
    if lines == [] then [] else Split(lines[0]) + SplitAll(lines[1..])
  }

  // ------------------------------------------- wrapping is first fit on pieces

  /** The words taken after the first one are short, and as many pieces are taken. */
  lemma {:induction false} TakeOfPieces(words: seq<string>, used: nat, width: nat)
    requires width >= 1 && used >= 1
    ensures Take(words, used, width) == Take(Pieces(words, width), used, width)
    ensures AreShort(words[..Take(words, used, width)], width)
  {
    if words != [] {
      var w, rest := words[0], words[1..];
      if |w| < width {
        assert Pieces(words, width) == [w] + Pieces(rest, width);
        TakeOfPieces(rest, used + |w| + 1, width);
        var n := Take(rest, used + |w| + 1, width);
        assert words[..1 + n] == [w] + rest[..n];
      } else {
        assert Pieces(words, width)[0] == w[..width];
      }
    }
  }

  ghost predicate AreShort(words: seq<string>, width: nat)
  {
    forall i :: 0 <= i < |words| ==> |words[i]| < width
  }

  /** Short words are their own pieces. */
  lemma {:induction false} ShortPrefix(a: seq<string>, b: seq<string>, width: nat)
    requires width >= 1 && AreShort(a, width)
    ensures Pieces(a + b, width) == a + Pieces(b, width)
  {
    if a == [] {
      assert a + b == b;
      assert a + Pieces(b, width) == Pieces(b, width);
    } else {
      assert (a + b)[1..] == a[1..] + b;
      ShortPrefix(a[1..], b, width);
      assert a == [a[0]] + a[1..];
      ConcatAssoc([a[0]], a[1..], Pieces(b, width));
    }
  }

  lemma FirstLineOfPieces(words: seq<string>, width: nat)
    requires words != [] && |words[0]| < width
    ensures var n := Take(words, 0, width);
            var pieces := Pieces(words, width);
            && n > 0 && n == Take(pieces, 0, width)
            && pieces[..n] == words[..n]
            && pieces[n..] == Pieces(words[n..], width)
  {
    var w, rest := words[0], words[1..];
    assert Pieces(words, width) == [w] + Pieces(rest, width);
    TakeOfPieces(rest, |w| + 1, width);
    var n := Take(words, 0, width);
    assert words[..n] == [w] + rest[..n - 1];
    assert words == words[..n] + words[n..];
    ShortPrefix(words[..n], words[n..], width);
    Parts(words[..n], Pieces(words[n..], width));
  }

  lemma CutOfPieces(words: seq<string>, width: nat)
    requires width >= 1 && words != [] && |words[0]| >= width
    ensures var cut := [words[0][width..]] + words[1..];
            Pieces(words, width) == [words[0][..width]] + Pieces(cut, width)
  {
    var cut := [words[0][width..]] + words[1..];
    assert cut[1..] == words[1..];
  }

  /** The source's loop over words computes the first-fit layout of the pieces. */
  lemma {:induction false} WrapIsGreedy(words: seq<string>, width: nat)
    requires width >= 1
    ensures Wrap(words, width) == Greedy(Pieces(words, width), width)
    decreases Size(words) + |words|
  {
    if words != [] {
      var pieces := Pieces(words, width);
      if |words[0]| < width {
        var n := Take(words, 0, width);
        FirstLineOfPieces(words, width);
        SizeSuffix(words, n);
        WrapIsGreedy(words[n..], width);
      } else {
        var cut := [words[0][width..]] + words[1..];
        assert cut[1..] == words[1..];
        CutOfPieces(words, width);
        FullBlockStandsAlone(pieces, width);
        assert pieces[1..] == Pieces(cut, width);
        WrapIsGreedy(cut, width);
        assert Join([pieces[0]]) == pieces[0];
      }
    }
  }

  lemma FullBlockStandsAlone(pieces: seq<string>, width: nat)
    requires pieces != [] && |pieces[0]| == width
    ensures Take(pieces, 0, width) == 1
    ensures pieces[..1] == [pieces[0]]
  {
  }

  // ---------------------------------------------------------------- fitting

  /** A line of `n` taken words is exactly as long as the loop's account of it. */
  lemma {:induction false} TakeFits(words: seq<string>, used: nat, width: nat)
    ensures Take(words, used, width) > 0 ==>
              used + |Join(words[..Take(words, used, width)])| <= width
  {
    var n := Take(words, used, width);
    if n == 1 {
      assert words[..1] == [words[0]];
    } else if n > 1 {
      TakeFits(words[1..], used + |words[0]| + 1, width);
      assert words[..n][1..] == words[1..][..n - 1];
    }
  }

  /** Conversely, first fit takes at least as many words as any line that fits. */
  lemma {:induction false} TakeIsMaximal(words: seq<string>, k: nat, used: nat, width: nat)
    requires 0 < k <= |words|
    requires used + |Join(words[..k])| <= width
    ensures k <= Take(words, used, width)
  {
    if k == 1 {
      assert words[..1] == [words[0]];
    } else {
      assert words[..k][1..] == words[1..][..k - 1];
      TakeIsMaximal(words[1..], k - 1, used + |words[0]| + 1, width);
    }
  }

  lemma {:induction false} GreedyLinesFit(pieces: seq<string>, width: nat)
    requires NoneWider(pieces, width)
    ensures forall i :: 0 <= i < |Greedy(pieces, width)| ==> |Greedy(pieces, width)[i]| <= width
    decreases |pieces|
  {
    if pieces != [] {
      TakeFits(pieces, 0, width);
      GreedyLinesFit(pieces[Take(pieces, 0, width)..], width);
    }
  }

  /** Every printed line fits the side width. */
  lemma WrapLinesFit(words: seq<string>, width: nat)
    requires width >= 1
    ensures forall i :: 0 <= i < |Wrap(words, width)| ==> |Wrap(words, width)[i]| <= width
  {
    WrapIsGreedy(words, width);
    GreedyLinesFit(Pieces(words, width), width);
  }

  // ------------------------------------------------------------- optimality

  /** Pieces in front never save first fit a line. */
  lemma {:induction false} GreedySuffix(a: seq<string>, b: seq<string>, width: nat)
    requires NoneWider(a + b, width) && NoneWider(b, width)
    ensures |Greedy(b, width)| <= |Greedy(a + b, width)|
    decreases |a| + |b|
  {
    if a == [] {
      assert a + b == b;
    } else if b != [] {
      var n := Take(a + b, 0, width);
      if n <= |a| {
        assert (a + b)[n..] == a[n..] + b;
        GreedySuffix(a[n..], b, width);
      } else {
        var used, m := n - |a|, Take(b, 0, width);
        LaterStartReachesFurther(a, b, width);
        assert (a + b)[n..] == b[used..m] + b[m..];
        GreedySuffix(b[used..m], b[m..], width);
      }
    }
  }

  /** First fit started inside a line goes at least to the end of that line. */
  lemma LaterStartReachesFurther(a: seq<string>, b: seq<string>, width: nat)
    requires |a| < Take(a + b, 0, width)
    ensures |a| + Take(b, 0, width) >= Take(a + b, 0, width)
  {
    var n := Take(a + b, 0, width);
    TakeFits(a + b, 0, width);
    assert (a + b)[..n] == a + b[..n - |a|];
    JoinSuffix(a, b[..n - |a|]);
    TakeIsMaximal(b, n - |a|, 0, width);
  }

  lemma {:induction false} JoinSuffix(a: seq<string>, b: seq<string>)
    ensures |Join(b)| <= |Join(a + b)|
  {
    if a == [] {
      assert a + b == b;
    } else {
      assert (a + b)[1..] == a[1..] + b;
      JoinSuffix(a[1..], b);
    }
  }

  /** No division of the pieces into fitting lines uses fewer lines than first fit. */
  lemma {:induction false} GreedyIsOptimal(pieces: seq<string>, groups: seq<seq<string>>, width: nat)
    requires NoneWider(pieces, width)
    requires Division(groups, pieces, width)
    ensures |Greedy(pieces, width)| <= |groups|
    decreases |groups|
  {
    if groups != [] && pieces != [] {
      var k := |groups[0]|;
      assert pieces[..k] == groups[0] && pieces[k..] == Flatten(groups[1..]);
      GreedyIsOptimal(pieces[k..], groups[1..], width);
      FirstLineIsLongest(pieces, k, width);
    }
  }

  lemma FirstLineIsLongest(pieces: seq<string>, k: nat, width: nat)
    requires NoneWider(pieces, width)
    requires 0 < k <= |pieces| && |Join(pieces[..k])| <= width
    ensures |Greedy(pieces, width)| <= 1 + |Greedy(pieces[k..], width)|
  {
    var n := Take(pieces, 0, width);
    TakeIsMaximal(pieces, k, 0, width);
    assert pieces[k..] == pieces[k..n] + pieces[n..];
    GreedySuffix(pieces[k..n], pieces[n..], width);
  }

  /** First fit is itself such a division. */
  lemma {:induction false} GreedyIsDivision(pieces: seq<string>, width: nat) returns (groups: seq<seq<string>>)
    requires NoneWider(pieces, width)
    ensures Division(groups, pieces, width) && JoinAll(groups) == Greedy(pieces, width)
    decreases |pieces|
  {
    if pieces == [] {
      groups := [];
    } else {
      var n := Take(pieces, 0, width);
      TakeFits(pieces, 0, width);
      var rest := GreedyIsDivision(pieces[n..], width);
      groups := [pieces[..n]] + rest;
      assert groups[1..] == rest;
      assert pieces == pieces[..n] + pieces[n..];
    }
  }

  /**
   Greedy wrapping is optimal on all inputs: the printed lines divide the pieces into
   lines that fit, and no other such division has fewer lines.
   */
  lemma WrapIsOptimal(words: seq<string>, width: nat)
    requires width >= 1
    ensures exists groups ::
              Division(groups, Pieces(words, width), width) && JoinAll(groups) == Wrap(words, width)
    ensures forall groups :: Division(groups, Pieces(words, width), width) ==> |Wrap(words, width)| <= |groups|
  {
    WrapIsGreedy(words, width);
    var pieces := Pieces(words, width);
    var best := GreedyIsDivision(pieces, width);
    forall groups | Division(groups, pieces, width) ensures |Wrap(words, width)| <= |groups| {
      GreedyIsOptimal(pieces, groups, width);
    }
  }

  /** When every word is shorter than the line the pieces are the words themselves. */
  lemma ShortWordsAreTheirPieces(words: seq<string>, width: nat)
    requires width >= 1
    requires forall i :: 0 <= i < |words| ==> |words[i]| < width
    ensures Pieces(words, width) == words
  {
    ShortPrefix(words, [], width);
    assert words + [] == words;
  }

  // ------------------------------------------------------------ losslessness

  lemma {:induction false} BlocksHoldTheWord(word: string, width: nat)
    requires width >= 1
    ensures Flatten(Blocks(word, width)) == word
    ensures Solid(word) ==> forall i :: 0 <= i < |Blocks(word, width)| ==> Solid(Blocks(word, width)[i])
    decreases |word|
  {
    if |word| < width {
      assert [word][1..] == [];
    } else {
      BlocksHoldTheWord(word[width..], width);
      var blocks := Blocks(word, width);
      assert blocks[1..] == Blocks(word[width..], width);
      assert word == word[..width] + word[width..];
    }
  }

  ghost predicate AllSolid(pieces: seq<string>)
  {
    forall i :: 0 <= i < |pieces| ==> Solid(pieces[i])
  }

  lemma {:induction false} PiecesHoldTheWords(words: seq<string>, width: nat)
    requires width >= 1 && AllSolid(words)
    ensures AllSolid(Pieces(words, width))
    ensures Flatten(Pieces(words, width)) == Flatten(words)
  {
    if words != [] {
      BlocksHoldTheWord(words[0], width);
      PiecesHoldTheWords(words[1..], width);
      FlattenConcat(Blocks(words[0], width), Pieces(words[1..], width));
    }
  }

  lemma {:induction false} SplitAllOfJoinAll(groups: seq<seq<string>>)
    requires forall i :: 0 <= i < |groups| ==> groups[i] != [] && SpaceFree(groups[i])
    ensures SplitAll(JoinAll(groups)) == Flatten(groups)
  {
    if groups != [] {
      SplitOfJoin(groups[0]);
      SplitAllOfJoinAll(groups[1..]);
      assert JoinAll(groups)[1..] == JoinAll(groups[1..]);
    }
  }

  lemma {:induction false} GroupsOfSolid(groups: seq<seq<string>>)
    requires AllSolid(Flatten(groups))
    ensures forall i :: 0 <= i < |groups| ==> AllSolid(groups[i])
  {
    if groups != [] {
      var all := Flatten(groups);
      assert forall k :: 0 <= k < |groups[0]| ==> groups[0][k] == all[k];
      assert forall k :: 0 <= k < |Flatten(groups[1..])| ==> Flatten(groups[1..])[k] == all[|groups[0]| + k];
      GroupsOfSolid(groups[1..]);
      assert forall i :: 1 <= i < |groups| ==> groups[i] == groups[1..][i - 1];
    }
  }

  lemma SolidIsSpaceFree(pieces: seq<string>)
    requires AllSolid(pieces)
    ensures SpaceFree(pieces)
  {
    forall i | 0 <= i < |pieces| ensures ' ' !in pieces[i] {
      assert Solid(pieces[i]);
    }
  }

  lemma {:induction false} InkOfJoin(pieces: seq<string>)
    requires AllSolid(pieces)
    ensures Ink(Join(pieces)) == Flatten(pieces)
  {
    if pieces == [] {
    } else {
      InkOfSolid(pieces[0]);
      if |pieces| == 1 {
        assert Flatten(pieces[1..]) == [];
      } else {
        InkOfJoin(pieces[1..]);
        InkOfSpaced(pieces[0], Join(pieces[1..]));
      }
    }
  }

  lemma InkOfSpaced(a: string, b: string)
    ensures Ink(a + " " + b) == Ink(a) + Ink(b)
  {
    InkConcat(a + " ", b);
    InkConcat(a, " ");
    assert Ink(" ") == Ink(" "[1..]) == "";
    assert Ink(a) + "" == Ink(a);
  }

  lemma {:induction false} InkOfLines(groups: seq<seq<string>>)
    requires forall i :: 0 <= i < |groups| ==> AllSolid(groups[i])
    ensures Ink(Flatten(JoinAll(groups))) == Flatten(Flatten(groups))
  {
    if groups != [] {
      var lines := JoinAll(groups);
      assert lines[1..] == JoinAll(groups[1..]);
      InkOfLines(groups[1..]);
      InkConcat(lines[0], Flatten(lines[1..]));
      InkOfJoin(groups[0]);
      FlattenConcat(groups[0], Flatten(groups[1..]));
    }
  }

  /**
   Nothing but whitespace is lost, and the pieces can be read back from the lines by
   splitting on spaces, whatever the lengths of the words.
   */
  lemma WrapIsLossless(words: seq<string>, width: nat)
    requires width >= 1 && AllSolid(words)
    ensures Ink(Flatten(Wrap(words, width))) == Flatten(words)
    ensures SplitAll(Wrap(words, width)) == Pieces(words, width)
  {
    WrapIsGreedy(words, width);
    PiecesHoldTheWords(words, width);
    var groups := GreedyIsDivision(Pieces(words, width), width);
    GroupsOfSolid(groups);
    InkOfLines(groups);
    forall i | 0 <= i < |groups| ensures SpaceFree(groups[i]) { SolidIsSpaceFree(groups[i]); }
    SplitAllOfJoinAll(groups);
  }

  // --------------------------------------------------------------- the text

  /** The lines printed for a message text. */
  function LinesOf(data: string, width: nat): (lines: seq<string>)
    requires width >= 1
  {
    if Normalized(data) == "" then [" "] else Wrap(Split(Normalized(data)), width)
  }

  /** The words the wrap loop starts from; a blank text has two empty ones. */
  lemma WordsOfText(data: string)
    requires data != ""
    ensures Normalized(data) != ""
    ensures WordsOf(data) != [] ==> Split(Normalized(data)) == WordsOf(data)
    ensures WordsOf(data) == [] ==> Split(Normalized(data)) == ["", ""]
  {
    if WordsOf(data) != [] {
      JoinNonEmpty(WordsOf(data));
      WordsAreSpaceFree(WordsOf(data));
      SplitOfJoin(WordsOf(data));
    } else {
      assert Join(["", ""]) == " ";
      SplitOfJoin(["", ""]);
    }
  }

  lemma WordsOfTextHoldTheInk(data: string)
    requires data != ""
    ensures AllSolid(Split(Normalized(data)))
    ensures Flatten(Split(Normalized(data))) == Ink(data)
  {
    WordsOfText(data);
    WordsHoldTheInk(data);
    if WordsOf(data) == [] {
      assert ["", ""][1..] == [""] && [""][1..] == [];
    }
  }

  lemma WrapOfSomethingIsSomething(words: seq<string>, width: nat)
    requires width >= 1 && words != []
    ensures Wrap(words, width) != []
  {
  }

  /** The printed lines of any text fit, and show exactly its non-whitespace characters. */
  lemma TextIsShown(data: string, width: nat)
    requires width >= 1
    ensures LinesOf(data, width) != []
    ensures forall i :: 0 <= i < |LinesOf(data, width)| ==> |LinesOf(data, width)[i]| <= width
    ensures Ink(Flatten(LinesOf(data, width))) == Ink(data)
  {
    if data == "" {
      BlankHasNoWords(" ");
      assert [" "][1..] == [] && Flatten([" "]) == " ";
    } else {
      WordsOfText(data);
      WordsOfTextHoldTheInk(data);
      var words := Split(Normalized(data));
      WrapLinesFit(words, width);
      WrapOfSomethingIsSomething(words, width);
      WrapIsLossless(words, width);
    }
  }

  predicate OneLine(s: string)
  {
    '\n' !in s
  }

  lemma {:induction false} JoinIsOneLine(pieces: seq<string>)
    requires AllSolid(pieces)
    ensures OneLine(Join(pieces))
  {
    if pieces != [] {
      assert Solid(pieces[0]);
      JoinIsOneLine(pieces[1..]);
    }
  }

  lemma {:induction false} JoinedLinesAreOneLine(groups: seq<seq<string>>)
    requires forall i :: 0 <= i < |groups| ==> AllSolid(groups[i])
    ensures forall i :: 0 <= i < |groups| ==> OneLine(JoinAll(groups)[i])
  {
    if groups != [] {
      JoinIsOneLine(groups[0]);
      JoinedLinesAreOneLine(groups[1..]);
    }
  }

  /** No printed line of a text breaks again. */
  lemma LinesAreOneLine(data: string, width: nat)
    requires width >= 1
    ensures forall i :: 0 <= i < |LinesOf(data, width)| ==> OneLine(LinesOf(data, width)[i])
  {
    if data != "" {
      WordsOfText(data);
      WordsOfTextHoldTheInk(data);
      var words := Split(Normalized(data));
      WrapIsGreedy(words, width);
      PiecesHoldTheWords(words, width);
      var groups := GreedyIsDivision(Pieces(words, width), width);
      GroupsOfSolid(groups);
      JoinedLinesAreOneLine(groups);
    }
  }

  /** Among all layouts of the text's words the printed one has the fewest lines. */
  lemma TextIsOptimal(data: string, width: nat, groups: seq<seq<string>>)
    requires width >= 1 && WordsOf(data) != []
    requires Division(groups, Pieces(WordsOf(data), width), width)
    ensures |LinesOf(data, width)| <= |groups|
  {
    WordsOfText(data);
    WrapIsOptimal(WordsOf(data), width);
  }

  // ------------------------------------------------------------- termination

  /** Words still to be laid out after one round of the outer loop, for any width. */
  function Round(words: seq<string>, width: nat): seq<string>
    requires words != []
  {
    if |words[0]| < width then words[Take(words, 0, width)..]
    else [words[0][width..]] + words[1..]
  }

  function Rounds(words: seq<string>, width: nat, n: nat): seq<string>
    decreases n
  {
    if n == 0 || words == [] then words else Rounds(Round(words, width), width, n - 1)
  }

  ghost predicate Halts(words: seq<string>, width: nat)
  {
    exists n: nat :: Rounds(words, width, n) == []
  }

  lemma {:induction false} ZeroWidthStandsStill(words: seq<string>, n: nat)
    requires words != []
    ensures Rounds(words, 0, n) == words
    decreases n
  {
    if n > 0 {
      assert [words[0][0..]] + words[1..] == words;
      ZeroWidthStandsStill(words, n - 1);
    }
  }

  lemma {:induction false} PositiveWidthHalts(words: seq<string>, width: nat) returns (n: nat)
    requires width >= 1
    ensures Rounds(words, width, n) == []
    decreases Size(words) + |words|
  {
    if words == [] {
      n := 0;
    } else {
      var next := Round(words, width);
      if |words[0]| < width {
        SizeSuffix(words, Take(words, 0, width));
      } else {
        assert next[0] == words[0][width..] && next[1..] == words[1..];
        assert Size(next) == |next[0]| + Size(words[1..]);
      }
      assert Size(next) + |next| < Size(words) + |words|;
      n := PositiveWidthHalts(next, width);
      n := n + 1;
    }
  }

  /** The wrap loop ends exactly when the side width is positive or there is nothing to do. */
  lemma WrapHaltsIff(words: seq<string>, width: nat)
    ensures Halts(words, width) <==> width >= 1 || words == []
  {
    if words == [] {
      assert Rounds(words, width, 0) == [];
    } else if width >= 1 {
      var n := PositiveWidthHalts(words, width);
    } else {
      forall n: nat ensures Rounds(words, width, n) != [] { ZeroWidthStandsStill(words, n); }
    }
  }

  // ----------------------------------------------------------------- methods

  // The iterator over the words is represented by the words from it on.

  /** The inner loop as a recursion: the line so far and the words from the iterator on. */
  function Fill(words: seq<string>, line: string, width: nat): (string, seq<string>)
  {
    if words == [] || |line| + |words[0]| > width then (line, words)
    else Fill(words[1..], line + words[0] + " ", width)
  }

  function Spaced(words: seq<string>): string
  {
    if words == [] then "" else words[0] + " " + Spaced(words[1..])
  }

  lemma {:induction false} SpacedIsJoin(words: seq<string>)
    requires words != []
    ensures Spaced(words) == Join(words) + " "
  {
    if |words| > 1 { SpacedIsJoin(words[1..]); }
  }

  lemma {:induction false} FillIsTake(words: seq<string>, line: string, width: nat)
    ensures var n := Take(words, |line|, width);
            Fill(words, line, width) == (line + Spaced(words[..n]), words[n..])
  {
    var n := Take(words, |line|, width);
    if n == 0 {
      assert words[..0] == [] && words[0..] == words && line + "" == line;
    } else {
      FillIsTake(words[1..], line + words[0] + " ", width);
      assert words[..n][1..] == words[1..][..n - 1];
      assert words[n..] == words[1..][n - 1..];
      ConcatAssoc(line, words[0] + " ", Spaced(words[1..][..n - 1]));
      ConcatAssoc(line, words[0], " ");
    }
  }

  /** The inner loop: one greedy line. */
  method FillLine(words: seq<string>, width: nat) returns (line: string, rest: seq<string>)
    requires words != [] && |words[0]| < width
    ensures var n := Take(words, 0, width);
            n > 0 && line == Join(words[..n]) && rest == words[n..]
  {
    line, rest := "", words;
    while rest != [] && |line| + |rest[0]| <= width
      invariant Fill(rest, line, width) == Fill(words, "", width)
      decreases |rest|
    {
      line := line + rest[0];
      line := line + " ";
      rest := rest[1..];
    }
    // The first word always fits, so the line is not empty when its last space is popped.
    LineOfTaken(words, width);
    line := line[..|line| - 1];
  }

  lemma LineOfTaken(words: seq<string>, width: nat)
    requires words != [] && |words[0]| < width
    ensures var n := Take(words, 0, width);
            n > 0 && Fill(words, "", width) == (Join(words[..n]) + " ", words[n..])
  {
    var n := Take(words, 0, width);
    FillIsTake(words, "", width);
    SpacedIsJoin(words[..n]);
    assert "" + Spaced(words[..n]) == Spaced(words[..n]);
  }

  lemma WrapShort(words: seq<string>, width: nat)
    requires words != [] && |words[0]| < width
    ensures var n := Take(words, 0, width);
            && Wrap(words, width) == [Join(words[..n])] + Wrap(words[n..], width)
            && Size(words[n..]) + |words[n..]| < Size(words) + |words|
  {
    SizeSuffix(words, Take(words, 0, width));
  }

  lemma WrapLong(words: seq<string>, width: nat)
    requires width >= 1 && words != [] && |words[0]| >= width
    ensures var cut := [words[0][width..]] + words[1..];
            && Wrap(words, width) == [words[0][..width]] + Wrap(cut, width)
            && Size(cut) < Size(words) && |cut| == |words|
  {
    var cut := [words[0][width..]] + words[1..];
    assert cut[1..] == words[1..];
  }

  /** The outer loop; a long word is shortened in place and looked at again. */
  method MakeLines(words: seq<string>, width: nat) returns (lines: seq<string>)
    requires width >= 1
    ensures lines == Wrap(words, width)
  {
    lines := [];
    var rest := words;
    while rest != []
      invariant lines + Wrap(rest, width) == Wrap(words, width)
      decreases Size(rest) + |rest|
    {
      var line, next;
      if |rest[0]| < width {
        WrapShort(rest, width);
        line, next := FillLine(rest, width);
      } else {
        WrapLong(rest, width);
        line, next := rest[0][..width], [rest[0][width..]] + rest[1..];
      }
      ConcatAssoc(lines, [line], Wrap(next, width));
      lines, rest := lines + [line], next;
    }
  }

  /** The whole formatting part of `print`. */
  method Format(data: string, width: nat) returns (lines: seq<string>)
    requires width >= 1
    ensures lines == LinesOf(data, width)
  {
    var normal := Normalize(data);
    if normal == "" {
      lines := [" "];
    } else {
      var words := ExtractWords(normal);
      lines := MakeLines(words, width);
    }
  }
}
