/**
 Whitespace normalisation and word splitting as done by `TTChat::print`
 (chat/src/TTChat.cpp:168-219), specified by the words of the text.
 */
module Words {
  import opened Common

  // utils/src/TTUtilsAscii.hpp:10-17: tab, LF, VT, FF, CR and space.
  predicate IsWhitespace(c: char)
  {
    '\t' <= c <= '\r' || c == ' '
  }

  predicate Blank(s: string)
  {
    forall i :: 0 <= i < |s| ==> IsWhitespace(s[i])
  }

  predicate Solid(s: string)
  {
    forall i :: 0 <= i < |s| ==> !IsWhitespace(s[i])
  }

  /** Words are non-empty and hold no whitespace. */
  predicate AreWords(words: seq<string>)
  {
    forall i :: 0 <= i < |words| ==> words[i] != "" && Solid(words[i])
  }

  /** No piece contains the delimiter; pieces may be empty. */
  predicate SpaceFree(pieces: seq<string>)
  {
    forall i :: 0 <= i < |pieces| ==> ' ' !in pieces[i]
  }

  /** Length of the longest whitespace-free prefix. */
  function Run(s: string): (n: nat)
    ensures n <= |s| && Solid(s[..n])
    ensures n < |s| ==> IsWhitespace(s[n])
  {
    if s == "" || IsWhitespace(s[0]) then 0
    else
      assert s[..1 + Run(s[1..])] == [s[0]] + s[1..][..Run(s[1..])];
      1 + Run(s[1..])
  }

  /** The maximal whitespace-free runs of `s`, in order. */
  function WordsOf(s: string): (words: seq<string>)
    ensures AreWords(words)
    decreases |s|
  {
    if s == "" then []
    else if IsWhitespace(s[0]) then WordsOf(s[1..])
    else [s[..Run(s)]] + WordsOf(s[Run(s)..])
  }

  /** The words joined by one space. */
  function Join(words: seq<string>): string
  {
    if words == [] then ""
    else if |words| == 1 then words[0]
    else words[0] + " " + Join(words[1..])
  }

  /** What is left of `s` once every whitespace character is dropped. */
  function Ink(s: string): string
  {
    if s == "" then "" else if IsWhitespace(s[0]) then Ink(s[1..]) else [s[0]] + Ink(s[1..])
  }

  /** The single-spaced form of `s`; a blank, non-empty text keeps one space. */
  function Normalized(s: string): string
  {
    if s == "" then "" else if WordsOf(s) == [] then " " else Join(WordsOf(s))
  }

  // ---------------------------------------------------------------- words

  lemma {:induction false} BlankHasNoWords(s: string)
    requires Blank(s)
    ensures WordsOf(s) == [] && Ink(s) == ""
  {
    if s != "" { BlankHasNoWords(s[1..]); }
  }

  lemma {:induction false} NoWordsMeansBlank(s: string)
    requires WordsOf(s) == []
    ensures Blank(s)
  {
    if s != "" {
      NoWordsMeansBlank(s[1..]);
      assert s == [s[0]] + s[1..];
    }
  }

  lemma {:induction false} InkConcat(a: string, b: string)
    ensures Ink(a + b) == Ink(a) + Ink(b)
  {
    if a == "" {
      assert a + b == b;
    } else {
      assert (a + b)[1..] == a[1..] + b;
      InkConcat(a[1..], b);
    }
  }

  lemma {:induction false} InkOfSolid(s: string)
    requires Solid(s)
    ensures Ink(s) == s
  {
    if s != "" { InkOfSolid(s[1..]); }
  }

  lemma {:induction false} WordsHoldTheInk(s: string)
    ensures Flatten(WordsOf(s)) == Ink(s)
    decreases |s|
  {
    if s == "" {
    } else if IsWhitespace(s[0]) {
      WordsHoldTheInk(s[1..]);
    } else {
      var n := Run(s);
      WordsHoldTheInk(s[n..]);
      assert s == s[..n] + s[n..];
      InkConcat(s[..n], s[n..]);
      InkOfSolid(s[..n]);
    }
  }

  lemma {:induction false} RunOfSolidThenSpace(w: string, rest: string)
    requires Solid(w)
    requires rest == "" || IsWhitespace(rest[0])
    ensures Run(w + rest) == |w|
  {
    if w == "" {
      assert w + rest == rest;
    } else {
      assert (w + rest)[1..] == w[1..] + rest;
      RunOfSolidThenSpace(w[1..], rest);
    }
  }

  /** Splitting the joined words gives the words back. */
  lemma {:induction false} WordsOfJoin(words: seq<string>)
    requires AreWords(words)
    ensures WordsOf(Join(words)) == words
  {
    if words == [] {
    } else if |words| == 1 {
      RunOfSolidThenSpace(words[0], "");
      assert words[0] + "" == words[0];
      assert words[0][|words[0]|..] == "";
      assert words == [words[0]];
    } else {
      var w, rest := words[0], " " + Join(words[1..]);
      assert Join(words) == w + rest;
      RunOfSolidThenSpace(w, rest);
      assert (w + rest)[|w|..] == rest && (w + rest)[..|w|] == w;
      assert rest[1..] == Join(words[1..]);
      WordsOfJoin(words[1..]);
      assert words == [w] + words[1..];
    }
  }

  lemma JoinNonEmpty(words: seq<string>)
    requires AreWords(words) && words != []
    ensures Join(words) != ""
  {
  }

  /** Normalising twice changes nothing more. */
  lemma NormalizedIdempotent(s: string)
    ensures Normalized(Normalized(s)) == Normalized(s)
  {
    if s != "" && WordsOf(s) != [] {
      WordsOfJoin(WordsOf(s));
      JoinNonEmpty(WordsOf(s));
    } else if s != "" {
      BlankHasNoWords(" ");
    }
  }

  // ------------------------------------------------------ collapse of runs

  function SkipBlank(s: string): (r: string)
    ensures |r| <= |s|
    ensures r != "" ==> !IsWhitespace(r[0])
  {
    if s == "" || !IsWhitespace(s[0]) then s else SkipBlank(s[1..])
  }

  /** Every whitespace run becomes one space. */
  function Collapsed(s: string): string
    decreases |s|
  {
    if s == "" then ""
    else if IsWhitespace(s[0]) then " " + Collapsed(SkipBlank(s[1..]))
    else [s[0]] + Collapsed(s[1..])
  }

  lemma {:induction false} WordsOfSkipBlank(s: string)
    ensures WordsOf(SkipBlank(s)) == WordsOf(s)
  {
    if s != "" && IsWhitespace(s[0]) { WordsOfSkipBlank(s[1..]); }
  }

  lemma {:induction false} SkipBlankKeepsLast(s: string)
    requires s != "" && !IsWhitespace(s[|s| - 1])
    ensures SkipBlank(s) != "" && SkipBlank(s)[|SkipBlank(s)| - 1] == s[|s| - 1]
  {
    if IsWhitespace(s[0]) { SkipBlankKeepsLast(s[1..]); }
  }

  lemma {:induction false} BlankSkips(s: string)
    requires Blank(s)
    ensures SkipBlank(s) == ""
  {
    if s != "" { BlankSkips(s[1..]); }
  }

  lemma {:induction false} CollapsedSolidPrefix(w: string, rest: string)
    requires Solid(w)
    ensures Collapsed(w + rest) == w + Collapsed(rest)
  {
    if w == "" {
      assert w + rest == rest;
    } else {
      assert (w + rest)[1..] == w[1..] + rest;
      CollapsedSolidPrefix(w[1..], rest);
    }
  }

  /** For a text trimmed on both sides the collapsed form is its joined words. */
  lemma {:induction false} CollapsedTrimmed(s: string)
    requires s != "" && !IsWhitespace(s[0]) && !IsWhitespace(s[|s| - 1])
    ensures Collapsed(s) == Join(WordsOf(s)) && WordsOf(s) != []
    decreases |s|
  {
    var n := Run(s);
    assert s == s[..n] + s[n..];
    CollapsedSolidPrefix(s[..n], s[n..]);
    if n == |s| {
      assert s[n..] == "";
    } else {
      var rest := s[n + 1..];
      assert s[n..][1..] == rest;
      var tail := SkipBlank(rest);
      SkipBlankKeepsLast(rest);
      CollapsedTrimmed(tail);
      WordsOfSkipBlank(rest);
      assert WordsOf(s[n..]) == WordsOf(tail);
      assert WordsOf(s) == [s[..n]] + WordsOf(tail);
    }
  }

  lemma {:induction false} WordsOfBlankPrefix(a: string, b: string)
    requires Blank(a)
    ensures WordsOf(a + b) == WordsOf(b)
  {
    if a == "" {
      assert a + b == b;
    } else {
      assert (a + b)[1..] == a[1..] + b;
      WordsOfBlankPrefix(a[1..], b);
    }
  }

  lemma {:induction false} RunIgnoresBlankSuffix(a: string, b: string)
    requires Blank(b)
    ensures Run(a + b) == Run(a)
  {
    if a == "" {
      assert a + b == b;
    } else {
      assert (a + b)[1..] == a[1..] + b;
      RunIgnoresBlankSuffix(a[1..], b);
    }
  }

  lemma {:induction false} WordsOfBlankSuffix(a: string, b: string)
    requires Blank(b)
    ensures WordsOf(a + b) == WordsOf(a)
    decreases |a|
  {
    if a == "" {
      assert a + b == b;
      BlankHasNoWords(b);
    } else if IsWhitespace(a[0]) {
      assert (a + b)[1..] == a[1..] + b;
      WordsOfBlankSuffix(a[1..], b);
    } else {
      RunIgnoresBlankSuffix(a, b);
      var n := Run(a);
      assert (a + b)[n..] == a[n..] + b && (a + b)[..n] == a[..n];
      WordsOfBlankSuffix(a[n..], b);
    }
  }

  // ------------------------------------------------------------ splitting

  /** Index of the first delimiter at or after `from`, or the length of `s`. */
  function Find(s: string, from: nat): (p: nat)
    requires from <= |s|
    ensures from <= p <= |s|
    ensures p < |s| ==> s[p] == ' '
    decreases |s| - from
  {
    if from == |s| || s[from] == ' ' then from else Find(s, from + 1)
  }

  /** The pieces between delimiters; one more than there are delimiters. */
  function Split(s: string): (pieces: seq<string>)
    ensures pieces != []
    decreases |s|
  {
    var p := Find(s, 0);
    if p == |s| then [s] else [s[..p]] + Split(s[p + 1..])
  }

  lemma FirstSpace(s: string, from: nat, p: nat)
    requires from <= p <= |s| && (p < |s| ==> s[p] == ' ')
    requires forall i :: from <= i < p ==> s[i] != ' '
    ensures Find(s, from) == p
    decreases p - from
  {
    if from < p { FirstSpace(s, from + 1, p); }
  }

  /** Splitting on the delimiter inverts joining with it. */
  lemma {:induction false} SplitOfJoin(pieces: seq<string>)
    requires pieces != [] && SpaceFree(pieces)
    ensures Split(Join(pieces)) == pieces
  {
    var w := pieces[0];
    assert ' ' !in w;
    if |pieces| == 1 {
      FirstSpace(w, 0, |w|);
      assert pieces == [w];
    } else {
      var s := Join(pieces);
      assert s[..|w|] == w && s[|w| + 1..] == Join(pieces[1..]);
      FirstSpace(s, 0, |w|);
      SplitOfJoin(pieces[1..]);
      assert pieces == [w] + pieces[1..];
    }
  }

  lemma WordsAreSpaceFree(words: seq<string>)
    requires AreWords(words)
    ensures SpaceFree(words)
  {
    forall i | 0 <= i < |words| ensures ' ' !in words[i] {
      assert Solid(words[i]);
    }
  }

  // -------------------------------------------------------------- methods

  /** The three normalising loops. */
  method Normalize(input: string) returns (data: string)
    ensures data == Normalized(input)
  {
    data := TrimFront(input);
    data := TrimBack(input, data);
    if WordsOf(input) == [] {
      NoWordsMeansBlank(input);
    }
    data := CollapseRuns(input, data);
  }

  /** Whitespace at the beginning; an all-blank text is left as it is. */
  method TrimFront(input: string) returns (data: string)
    ensures Blank(input) ==> data == input
    ensures !Blank(input) ==> data != "" && !IsWhitespace(data[0]) && WordsOf(data) == WordsOf(input)
  {
    data := input;
    var i := 0;
    while i < |data|
      invariant i <= |data|
      invariant data == input && Blank(input[..i])
    {
      if !IsWhitespace(data[i]) {
        WordsOfBlankPrefix(input[..i], input[i..]);
        assert input == input[..i] + input[i..];
        data := data[i..];
        assert data[0] == input[i];
        return;
      }
      i := i + 1;
      assert input[..i] == input[..i - 1] + [input[i - 1]];
    }
    assert input[..i] == input;
  }

  lemma WordsOfTrimmed(s: string, keep: nat)
    requires keep <= |s| && Blank(s[keep..])
    ensures WordsOf(s[..keep]) == WordsOf(s)
  {
    assert s == s[..keep] + s[keep..];
    WordsOfBlankSuffix(s[..keep], s[keep..]);
  }

  /** Whitespace at the end, after `TrimFront`. */
  method TrimBack(ghost input: string, trimmed: string) returns (data: string)
    requires Blank(input) ==> trimmed == input
    requires !Blank(input) ==> trimmed != "" && !IsWhitespace(trimmed[0]) && WordsOf(trimmed) == WordsOf(input)
    ensures Blank(input) ==> data == input
    ensures !Blank(input) ==> data != "" && !IsWhitespace(data[0]) && !IsWhitespace(data[|data| - 1])
    ensures !Blank(input) ==> WordsOf(data) == WordsOf(input)
  {
    data := trimmed;
    var distance := 0;
    while distance < |data|
      invariant distance <= |data|
      invariant data == trimmed && Blank(trimmed[|trimmed| - distance..])
    {
      if !IsWhitespace(data[|data| - 1 - distance]) {
        WordsOfTrimmed(trimmed, |data| - distance);
        data := data[..|data| - distance];
        return;
      }
      distance := distance + 1;
    }
    assert trimmed[|trimmed| - distance..] == trimmed;
  }

  method CollapseRuns(ghost input: string, data: string) returns (newData: string)
    requires Blank(input) ==> data == input
    requires !Blank(input) ==> data != "" && !IsWhitespace(data[0]) && !IsWhitespace(data[|data| - 1])
    requires !Blank(input) ==> WordsOf(data) == WordsOf(input)
    ensures newData == Normalized(input)
  {
    newData := Collapse(data);
    if Blank(input) {
      BlankHasNoWords(input);
      if input != "" {
        BlankSkips(input[1..]);
      }
    } else {
      CollapsedTrimmed(data);
    }
  }

  /** The inner loop: over the rest of a whitespace run. */
  method SkipRun(data: string, at: nat) returns (i: nat)
    requires at < |data| && IsWhitespace(data[at])
    ensures at < i <= |data| && data[i..] == SkipBlank(data[at + 1..])
  {
    i := at;
    while i < |data| && IsWhitespace(data[i])
      invariant at <= i <= |data|
      invariant i > at || (i == at && IsWhitespace(data[i]))
      invariant i > at ==> SkipBlank(data[i..]) == SkipBlank(data[at + 1..])
      decreases |data| - i
    {
      DropDrop(data, i, 1);
      i := i + 1;
    }
    assert SkipBlank(data[i..]) == data[i..];
  }

  method Collapse(data: string) returns (newData: string)
    ensures newData == Collapsed(data)
  {
    newData := "";
    var i := 0;
    ghost var rest := Collapsed(data);
    assert data[0..] == data;
    while i < |data|
      invariant i <= |data|
      invariant rest == Collapsed(data[i..]) && newData + rest == Collapsed(data)
    {
      DropDrop(data, i, 1);
      if IsWhitespace(data[i]) {
        i := SkipRun(data, i);
        ConcatAssoc(newData, " ", Collapsed(data[i..]));
        newData := newData + " ";
        rest := Collapsed(data[i..]);
        if i == |data| { break; }
        DropDrop(data, i, 1);
      }
      ConcatAssoc(newData, [data[i]], Collapsed(data[i + 1..]));
      newData := newData + [data[i]];
      i := i + 1;
      rest := Collapsed(data[i..]);
    }
    assert data[i..] == "";
  }

  lemma {:induction false} FindShift(s: string, k: nat, from: nat)
    requires k + from <= |s|
    ensures Find(s, k + from) == k + Find(s[k..], from)
    decreases |s| - from
  {
    if k + from < |s| && s[k + from] != ' ' { FindShift(s, k, from + 1); }
  }

  lemma SplitStep(s: string, last: nat)
    requires 0 < last <= |s|
    ensures var q := Find(s[last..], 0);
            Split(s[last..]) == if last + q < |s| then [s[last..last + q]] + Split(s[last + q + 1..]) else [s[last..]]
  {
    DropTake(s, last, Find(s[last..], 0));
  }

  lemma SplitAt(s: string, last: nat)
    requires 0 < last <= |s|
    ensures var p := Find(s, last);
            Split(s[last..]) == if p < |s| then [s[last..p]] + Split(s[p + 1..]) else [s[last..]]
  {
    FindShift(s, last, 0);
    SplitStep(s, last);
  }

  /** `words` are the pieces of `data` before position `last`. */
  ghost predicate SplitSoFar(words: seq<string>, data: string, last: nat)
  {
    last <= |data| && if last == 0 then words == [] else words + Split(data[last..]) == Split(data)
  }

  lemma SplitBegins(data: string)
    requires Find(data, 0) < |data|
    ensures SplitSoFar([data[0..Find(data, 0)]], data, Find(data, 0) + 1)
  {
  }

  lemma SplitContinues(words: seq<string>, data: string, last: nat)
    requires SplitSoFar(words, data, last) && last > 0 && Find(data, last) < |data|
    ensures SplitSoFar(words + [data[last..Find(data, last)]], data, Find(data, last) + 1)
  {
    SplitAt(data, last);
    ConcatAssoc(words, [data[last..Find(data, last)]], Split(data[Find(data, last) + 1..]));
  }

  lemma SplitAdvance(words: seq<string>, data: string, last: nat)
    requires SplitSoFar(words, data, last) && Find(data, last) < |data|
    ensures SplitSoFar(words + [data[last..Find(data, last)]], data, Find(data, last) + 1)
  {
    if last > 0 {
      SplitContinues(words, data, last);
    } else {
      SplitBegins(data);
      assert words + [data[0..Find(data, 0)]] == [data[0..Find(data, 0)]];
    }
  }

  lemma SplitEnds(words: seq<string>, data: string, last: nat)
    requires SplitSoFar(words, data, last) && Find(data, last) == |data|
    ensures words + [data[last..]] == Split(data)
  {
    if last > 0 { SplitAt(data, last); }
  }

  /** The delimiter loop: find, cut, advance past the delimiter. */
  method ExtractWords(data: string) returns (words: seq<string>)
    ensures words == Split(data)
  {
    words := [];
    var lastPosition := 0;
    var currentPosition := Find(data, lastPosition);
    while currentPosition < |data|
      invariant SplitSoFar(words, data, lastPosition)
      invariant currentPosition == Find(data, lastPosition)
      decreases |data| - lastPosition
    {
      SplitAdvance(words, data, lastPosition);
      var word := data[lastPosition..currentPosition];
      lastPosition := lastPosition + |word| + 1;
      words := words + [word];
      currentPosition := Find(data, lastPosition);
    }
    SplitEnds(words, data, lastPosition);
    words := words + [data[lastPosition..]];
  }
}
