/**
 `TTChat` (chat/src/TTChat.cpp): the display process, from messages to what is written on
 the terminal since the last clear.
 */
module ChatScreen {
  import opened Common
  import opened ChatMessages
  import Layout

  /** Values of `size_t`. */
  const SIZE_T_RANGE: nat := 0x1_0000_0000_0000_0000

  /**
   Width of the blank put in front of a text of `size` characters: the subtraction is
   unsigned, and `substr` never returns more than the whole blank line.
   */
  function Padding(width: nat, size: nat): nat
  {
    var count := (width - size) % 0x1_0000_0000_0000_0000;
    if count < width then count else width
  }

  function Blanks(n: nat): (s: string)
    ensures |s| == n
  {
    seq(n, i => ' ')
  }

  function RightAligned(text: string, width: nat): string
  {
    Blanks(Padding(width, |text|)) + text
  }

  /** A text is moved to the right edge exactly when it is not wider than the terminal. */
  lemma RightEdge(text: string, width: nat)
    requires width < SIZE_T_RANGE && |text| < SIZE_T_RANGE
    ensures |RightAligned(text, width)| == width <==> |text| <= width
    ensures |text| > width ==> |RightAligned(text, width)| == width + |text|
  {
    if |text| > width {
      assert (width - |text|) % SIZE_T_RANGE == width - |text| + SIZE_T_RANGE;
    } else {
      assert (width - |text|) % SIZE_T_RANGE == width - |text|;
    }
  }

  function Placed(kind: Kind, text: string, width: nat): string
  {
    if kind == RECEIVER then text else RightAligned(text, width)
  }

  function Line(kind: Kind, text: string, width: nat): string
  {
    Placed(kind, text, width) + "\n"
  }

  function Body(kind: Kind, lines: seq<string>, width: nat): string
  {
    if lines == [] then "" else Line(kind, lines[0], width) + Body(kind, lines[1..], width)
  }

  lemma BodyStep(kind: Kind, lines: seq<string>, i: nat, width: nat)
    requires i < |lines|
    ensures Body(kind, lines[i..], width) == Line(kind, lines[i], width) + Body(kind, lines[i + 1..], width)
  {
    assert lines[i..][1..] == lines[i + 1..];
  }

  lemma Regroup(a: string, b: string, c: string, d: string)
    ensures a + b + c == a + (b + c)
    ensures b + c + d == b + (c + d)
    ensures a + b + c + d == a + (b + c + d)
  {
  }

  /** What one entry adds to the terminal. */
  function Rendered(e: Entry, width: nat, side: nat): string
    requires side >= 1
  {
    Line(e.kind, e.timestamp.text, width) + Body(e.kind, Layout.LinesOf(e.data, side), width) + "\n"
  }

  // What stands on the terminal, line by line.

  /** The text on a terminal that shows these lines. */
  function Ended(lines: seq<string>): string
  {
    if lines == [] then "" else lines[0] + "\n" + Ended(lines[1..])
  }

  /** The lines that stand on a terminal. */
  function LinesOn(terminal: string): seq<string>
  {
    if terminal == "" then []
    else
      var rest := LinesOn(terminal[1..]);
      if terminal[0] == '\n' then [""] + rest
      else if rest == [] then [[terminal[0]]]
      else [[terminal[0]] + rest[0]] + rest[1..]
  }

  lemma {:induction false} FirstLineOn(line: string, rest: string)
    requires Layout.OneLine(line)
    ensures LinesOn(line + "\n" + rest) == [line] + LinesOn(rest)
  {
    var terminal := line + "\n" + rest;
    if line == "" {
      assert terminal[1..] == rest;
    } else {
      assert terminal[1..] == line[1..] + "\n" + rest;
      FirstLineOn(line[1..], rest);
      assert [line[0]] + line[1..] == line;
    }
  }

  /** Lines that do not break are read back from the terminal. */
  lemma {:induction false} LinesAreReadBack(lines: seq<string>)
    requires forall i :: 0 <= i < |lines| ==> Layout.OneLine(lines[i])
    ensures LinesOn(Ended(lines)) == lines
  {
    if lines != [] {
      LinesAreReadBack(lines[1..]);
      FirstLineOn(lines[0], Ended(lines[1..]));
    }
  }

  /**
   A line as it has to stand on the terminal: received text unchanged; sent text behind blanks only,
   and up to the right edge when it is not wider than the terminal.
   */
  ghost predicate StandsFor(line: string, text: string, kind: Kind, width: nat)
  {
    if kind == RECEIVER then line == text
    else
      && |line| >= |text| && line[|line| - |text|..] == text
      && (forall i :: 0 <= i < |line| - |text| ==> line[i] == ' ')
      && (|text| <= width < SIZE_T_RANGE ==> |line| == width)
  }

  /** The time stamp, the wrapped text, and an empty line. */
  ghost predicate StandFor(lines: seq<string>, e: Entry, width: nat, side: nat)
    requires side >= 1
  {
    var texts := Layout.LinesOf(e.data, side);
    && |lines| == |texts| + 2
    && StandsFor(lines[0], e.timestamp.text, e.kind, width)
    && (forall i :: 0 <= i < |texts| ==> StandsFor(lines[i + 1], texts[i], e.kind, width))
    && lines[|texts| + 1] == ""
  }

  lemma PlacedStandsFor(kind: Kind, text: string, width: nat)
    ensures StandsFor(Placed(kind, text, width), text, kind, width)
  {
    if kind != RECEIVER {
      var blank := Blanks(Padding(width, |text|));
      Parts(blank, text);
      assert forall i :: 0 <= i < |blank| ==> (blank + text)[i] == ' ';
      if |text| <= width < SIZE_T_RANGE { RightEdge(text, width); }
    }
  }

  function PlacedAll(kind: Kind, texts: seq<string>, width: nat): (lines: seq<string>)
    ensures |lines| == |texts|
    ensures forall i :: 0 <= i < |texts| ==> lines[i] == Placed(kind, texts[i], width)
  {
    seq(|texts|, i requires 0 <= i < |texts| => Placed(kind, texts[i], width))
  }

  lemma {:induction false} BodyIsEnded(kind: Kind, texts: seq<string>, width: nat, tail: seq<string>)
    ensures Body(kind, texts, width) + Ended(tail) == Ended(PlacedAll(kind, texts, width) + tail)
  {
    var lines := PlacedAll(kind, texts, width);
    if texts == [] {
      assert lines + tail == tail;
    } else {
      BodyIsEnded(kind, texts[1..], width, tail);
      assert (lines + tail)[0] == Placed(kind, texts[0], width);
      assert (lines + tail)[1..] == PlacedAll(kind, texts[1..], width) + tail;
      ConcatAssoc(Line(kind, texts[0], width), Body(kind, texts[1..], width), Ended(tail));
    }
  }

  /** What one entry adds to the terminal, line by line. */
  lemma RenderedIs(e: Entry, width: nat, side: nat) returns (lines: seq<string>)
    requires side >= 1
    ensures Rendered(e, width, side) == Ended(lines) && StandFor(lines, e, width, side)
    ensures lines == PlacedAll(e.kind, [e.timestamp.text] + Layout.LinesOf(e.data, side), width) + [""]
  {
    var texts := Layout.LinesOf(e.data, side);
    var all := [e.timestamp.text] + texts;
    assert all[1..] == texts;
    lines := PlacedAll(e.kind, all, width) + [""];
    BodyIsEnded(e.kind, all, width, [""]);
    assert [""][1..] == [];
    assert Ended([""]) == "\n";
    forall i | 0 <= i < |all| ensures StandsFor(lines[i], all[i], e.kind, width) {
      PlacedStandsFor(e.kind, all[i], width);
    }
    forall i | 0 <= i < |texts| ensures StandsFor(lines[i + 1], texts[i], e.kind, width) {
      assert all[i + 1] == texts[i];
    }
  }

  lemma PlacedAreOneLine(kind: Kind, texts: seq<string>, width: nat)
    requires forall i :: 0 <= i < |texts| ==> Layout.OneLine(texts[i])
    ensures var lines := PlacedAll(kind, texts, width) + [""]; forall i :: 0 <= i < |lines| ==> Layout.OneLine(lines[i])
  {
    forall i | 0 <= i < |texts| ensures Layout.OneLine(PlacedAll(kind, texts, width)[i]) {
      PlacedIsOneLine(kind, texts[i], width);
    }
  }

  lemma TextsAreOneLine(e: Entry, side: nat)
    requires side >= 1 && Layout.OneLine(e.timestamp.text)
    ensures var texts := [e.timestamp.text] + Layout.LinesOf(e.data, side); forall i :: 0 <= i < |texts| ==> Layout.OneLine(texts[i])
  {
    Layout.LinesAreOneLine(e.data, side);
  }

  /** Read off the terminal: the lines of one entry, when its time stamp is one line. */
  lemma EntryOnTerminal(e: Entry, width: nat, side: nat)
    requires side >= 1 && Layout.OneLine(e.timestamp.text)
    ensures StandFor(LinesOn(Rendered(e, width, side)), e, width, side)
  {
    var lines := RenderedIs(e, width, side);
    TextsAreOneLine(e, side);
    PlacedAreOneLine(e.kind, [e.timestamp.text] + Layout.LinesOf(e.data, side), width);
    LinesAreReadBack(lines);
  }

  lemma PlacedIsOneLine(kind: Kind, text: string, width: nat)
    requires Layout.OneLine(text)
    ensures Layout.OneLine(Placed(kind, text, width))
  {
  }

  function RenderedAll(entries: seq<Entry>, width: nat, side: nat): string
    requires side >= 1
  {
    if entries == [] then ""
    else RenderedAll(entries[..|entries| - 1], width, side) + Rendered(entries[|entries| - 1], width, side)
  }

  lemma RenderedSnoc(entries: seq<Entry>, e: Entry, width: nat, side: nat)
    requires side >= 1
    ensures RenderedAll(entries + [e], width, side) == RenderedAll(entries, width, side) + Rendered(e, width, side)
  {
    assert (entries + [e])[..|entries|] == entries;
  }

  /** Every body line of a sent message ends exactly at the right edge of the terminal. */
  lemma SentLinesReachTheRightEdge(data: string, width: nat, side: nat, i: nat)
    requires 1 <= side <= width < SIZE_T_RANGE
    requires i < |Layout.LinesOf(data, side)|
    ensures |RightAligned(Layout.LinesOf(data, side)[i], width)| == width
  {
    Layout.TextIsShown(data, side);
    RightEdge(Layout.LinesOf(data, side)[i], width);
  }

  class OutputStream {
    var text: string

    constructor ()
      ensures text == ""
    {
      text := "";
    }

    method Print(message: string)
      modifies this
      ensures text == old(text) + message
    {
      text := text + message;
    }

    method Endl()
      modifies this
      ensures text == old(text) + "\n"
    {
      text := text + "\n";
    }

    method Clear()
      modifies this
      ensures text == ""
    {
      text := "";
    }
  }

  class Chat {
    const mWidth: nat
    const mSideWidth: nat
    const mOutputStream: OutputStream
    var mChunks: seq<Message>
    var stopped: bool
    ghost var screen: seq<Entry>

    ghost predicate Valid()
      reads this, mOutputStream
    {
      && 1 <= mSideWidth <= mWidth
      && mOutputStream.text == RenderedAll(screen, mWidth, mSideWidth)
    }

    ghost function State(): Display
      reads this
    {
      Display(mChunks, screen)
    }

    constructor (width: nat, side: nat)
      requires 1 <= side <= width
      ensures Valid() && State() == BLANK && !stopped && fresh(mOutputStream)
      ensures mWidth == width && mSideWidth == side
    {
      mWidth, mSideWidth := width, side;
      mOutputStream := new OutputStream();
      mChunks, stopped, screen := [], false, [];
    }

    /** One message: the terminal shows the rendering of exactly the entries assembled so far. */
    method HandleMessage(message: Message) returns (ok: bool)
      requires Valid()
      modifies this, mOutputStream
      ensures Valid()
      ensures Outcome(State(), ok) == Handle(old(State()), message)
      ensures ok <==> MayFollow(old(mChunks), message)
      ensures stopped == (old(stopped) || message.kind == GOODBYE || message.kind == UNKNOWN)
    {
      AcceptsExactly(State(), message);
      match message.kind
      case CLEAR =>
        ok := Clear();
      case SENDER =>
        ok := Conclude(message, SENDER_CHUNK);
      case SENDER_CHUNK =>
        ok := Collect(message);
      case RECEIVER =>
        ok := Conclude(message, RECEIVER_CHUNK);
      case RECEIVER_CHUNK =>
        ok := Collect(message);
      case HEARTBEAT =>
        return true;
      case GOODBYE =>
        stopped := true;
        return false;
      case UNKNOWN =>
        stopped := true;
        return false;
    }

    /** A clear wipes the terminal unless a text is being gathered. */
    method Clear() returns (ok: bool)
      requires Valid()
      modifies this`screen, mOutputStream
      ensures Valid() && ok == (mChunks == []) && screen == if ok then [] else old(screen)
    {
      if mChunks != [] { return false; }
      mOutputStream.Clear();
      screen := [];
      return true;
    }

    method Collect(message: Message) returns (ok: bool)
      modifies this`mChunks
      ensures Outcome(State(), ok) == Gather(old(State()), message)
    {
      if mChunks != [] && mChunks[|mChunks| - 1].kind != message.kind { return false; }
      mChunks := mChunks + [message];
      return true;
    }

    /** The loop over the gathered chunks. */
    static method Gathered(chunks: seq<Message>) returns (data: string)
      ensures data == Payload(chunks)
    {
      data := "";
      var rest := chunks;
      while rest != []
        invariant data + Payload(rest) == Payload(chunks)
        decreases |rest|
      {
        ConcatAssoc(data, rest[0].data, Payload(rest[1..]));
        data, rest := data + rest[0].data, rest[1..];
      }
    }

    method Conclude(message: Message, chunk: Kind) returns (ok: bool)
      requires Valid()
      modifies this`mChunks, this`screen, mOutputStream
      ensures Valid()
      ensures Outcome(State(), ok) == Close(old(State()), message, chunk)
    {
      if mChunks != [] && mChunks[|mChunks| - 1].kind != chunk { return false; }
      var data := Gathered(mChunks);
      mChunks := [];
      data := data + message.data;
      var e := Entry(message.kind, message.timestamp, data);
      ghost var lines := PrintEntry(e);
      RenderedSnoc(screen, e, mWidth, mSideWidth);
      screen := screen + [e];
      return true;
    }

    /**
     `print`: the time stamp, the wrapped lines and a blank line; received text stands at the left edge as it
     is, sent text behind blanks at the right edge.
     */
    method PrintEntry(e: Entry) returns (ghost lines: seq<string>)
      requires 1 <= mSideWidth <= mWidth
      modifies mOutputStream
      ensures mOutputStream.text == old(mOutputStream.text) + Ended(lines) && StandFor(lines, e, mWidth, mSideWidth)
      ensures mOutputStream.text == old(mOutputStream.text) + Rendered(e, mWidth, mSideWidth)
    {
      var texts := Layout.Format(e.data, mSideWidth);
      ghost var before := mOutputStream.text;
      PrintLine(e.kind, e.timestamp.text);
      PrintLines(e.kind, texts);
      mOutputStream.Endl();
      Regroup(before, Line(e.kind, e.timestamp.text, mWidth), Body(e.kind, texts, mWidth), "\n");
      lines := RenderedIs(e, mWidth, mSideWidth);
    }

    method PrintLines(kind: Kind, lines: seq<string>)
      modifies mOutputStream
      ensures mOutputStream.text == old(mOutputStream.text) + Body(kind, lines, mWidth)
    {
      ghost var before, printed := mOutputStream.text, "";
      ghost var rest := Body(kind, lines, mWidth);
      assert lines[0..] == lines;
      for i := 0 to |lines|
        invariant rest == Body(kind, lines[i..], mWidth)
        invariant mOutputStream.text == before + printed
        invariant printed + rest == Body(kind, lines, mWidth)
      {
        BodyStep(kind, lines, i, mWidth);
        PrintLine(kind, lines[i]);
        rest := Body(kind, lines[i + 1..], mWidth);
        Regroup(before, printed, Line(kind, lines[i], mWidth), rest);
        printed := printed + Line(kind, lines[i], mWidth);
      }
    }

    method PrintLine(kind: Kind, text: string)
      modifies mOutputStream
      ensures mOutputStream.text == old(mOutputStream.text) + Line(kind, text, mWidth)
    {
      if kind != RECEIVER {
        var blank := Blanks(mWidth);
        var count := (mWidth - |text|) % 0x1_0000_0000_0000_0000;
        mOutputStream.Print(if count < |blank| then blank[..count] else blank);
        assert Blanks(Padding(mWidth, |text|)) == if count < |blank| then blank[..count] else blank;
      }
      mOutputStream.Print(text);
      mOutputStream.Endl();
    }

    /** The loop of `run` over what it receives: stops at the first refusal. */
    method Consume(messages: seq<Message>) returns (ok: bool)
      requires Valid()
      modifies this, mOutputStream
      ensures Valid()
      ensures Outcome(State(), ok) == Feed(old(State()), messages)
    {
      ghost var start := State();
      for i := 0 to |messages|
        invariant Valid()
        invariant Feed(State(), messages[i..]) == Feed(start, messages)
      {
        assert messages[i..][1..] == messages[i + 1..];
        ok := HandleMessage(messages[i]);
        if !ok { return false; }
      }
      assert messages[|messages|..] == [];
      return true;
    }

    /**
     `run` over what its calls of `receive` will give, with `life` rounds before another thread stops it; it
     ends with the display stopped. `handled` messages are handled: all up to the first refusal, failed
     receive or stop.
     */
    method Run(alive: bool, receives: seq<Option<Message>>, life: nat) returns (handled: nat)
      requires Valid()
      modifies this, mOutputStream
      ensures Valid() && stopped
      ensures if alive then HandlesExactly(old(State()), receives, life, handled, State())
              else handled == 0 && State() == old(State())
    {
      handled := 0;
      if alive {
        HandledExactly(State(), receives, life);
        handled := Loop(receives, life);
      }
      stopped := true;
    }

    /** The loop of `run`. */
    method Loop(receives: seq<Option<Message>>, life: nat) returns (handled: nat)
      requires Valid()
      modifies this, mOutputStream
      ensures Valid()
      ensures handled == Handled(old(State()), receives, life) && State() == After(old(State()), receives, life)
    {
      ghost var start := State();
      var rest, left, ok := receives, life, true;
      handled := 0;
      while ok && !Over(rest, left)
        invariant Valid()
        invariant handled + (if ok then Handled(State(), rest, left) else 0) == Handled(start, receives, life)
        invariant (if ok then After(State(), rest, left) else State()) == After(start, receives, life)
        decreases |rest|
      {
        ok := HandleMessage(rest[0].value);
        rest, left, handled := rest[1..], left - 1, handled + 1;
      }
    }
  }

  /** No further message is handled. */
  predicate Over(receives: seq<Option<Message>>, life: nat)
  {
    receives == [] || life == 0 || receives[0].None?
  }

  /** How many messages the loop of `run` handles, */
  function Handled(d: Display, receives: seq<Option<Message>>, life: nat): nat
    decreases |receives|
  {
    if Over(receives, life) then 0
    else
      var o := Handle(d, receives[0].value);
      if o.ok then 1 + Handled(o.display, receives[1..], life - 1) else 1
  }

  /** and what it leaves behind. */
  function After(d: Display, receives: seq<Option<Message>>, life: nat): Display
    decreases |receives|
  {
    if Over(receives, life) then d
    else
      var o := Handle(d, receives[0].value);
      if o.ok then After(o.display, receives[1..], life - 1) else o.display
  }

  /** The first messages received, none of which failed. */
  function FirstOf(receives: seq<Option<Message>>, n: nat): seq<Message>
    requires n <= |receives| && forall i :: 0 <= i < n ==> receives[i].Some?
  {
    seq(n, i requires 0 <= i < n => receives[i].value)
  }

  /** `n` messages are handled, and no further one could be. */
  ghost predicate HandlesExactly(d: Display, receives: seq<Option<Message>>, life: nat, n: nat, later: Display)
  {
    && n <= |receives| && n <= life && (forall i :: 0 <= i < n ==> receives[i].Some?)
    && later == Feed(d, FirstOf(receives, n)).display
    && (n > 0 ==> Feed(d, FirstOf(receives, n - 1)).ok)
    && (n == |receives| || n == life || receives[n].None? || !Feed(d, FirstOf(receives, n)).ok)
  }

  lemma FirstThenRest(receives: seq<Option<Message>>, n: nat)
    requires 0 < n <= |receives| && forall i :: 0 <= i < n ==> receives[i].Some?
    ensures forall i :: 0 <= i < n - 1 ==> receives[1..][i].Some?
    ensures FirstOf(receives, n) == [receives[0].value] + FirstOf(receives[1..], n - 1)
  {
  }

  lemma FeedFirst(d: Display, m: Message, rest: seq<Message>)
    ensures Feed(d, [m] + rest) == if Handle(d, m).ok then Feed(Handle(d, m).display, rest) else Handle(d, m)
  {
    assert ([m] + rest)[1..] == rest;
  }

  lemma {:induction false} HandledExactly(d: Display, receives: seq<Option<Message>>, life: nat)
    ensures HandlesExactly(d, receives, life, Handled(d, receives, life), After(d, receives, life))
    decreases |receives|, 1
  {
    if Over(receives, life) {
      assert FirstOf(receives, 0) == [];
    } else {
      HandledNext(d, receives, life);
    }
  }

  lemma {:induction false} HandledNext(d: Display, receives: seq<Option<Message>>, life: nat)
    requires !Over(receives, life)
    ensures HandlesExactly(d, receives, life, Handled(d, receives, life), After(d, receives, life))
    decreases |receives|, 0
  {
    var m, rest := receives[0].value, receives[1..];
    var o := Handle(d, m);
    assert FirstOf(receives, 0) == [];
    if o.ok {
      var n := Handled(o.display, rest, life - 1);
      HandledExactly(o.display, rest, life - 1);
      assert forall i :: 0 < i < n + 1 ==> receives[i] == rest[i - 1];
      FirstThenRest(receives, n + 1);
      FeedFirst(d, m, FirstOf(rest, n));
      if n > 0 {
        FirstThenRest(receives, n);
        FeedFirst(d, m, FirstOf(rest, n - 1));
      }
    } else {
      FirstThenRest(receives, 1);
      FeedFirst(d, m, FirstOf(rest, 0));
    }
  }
}
