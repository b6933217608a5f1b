/**
 The chat wire messages, their bounded payload, and the two ends of the chunking scheme:
 cutting a text into pieces and putting the pieces together again.
 */
module ChatMessages {

  /** A time stamp is opaque; only its text form is ever looked at. */
  datatype Timestamp = Timestamp(text: string)

  /** `UNKNOWN` stands for every code the display does not recognise. */
  datatype Kind = CLEAR | SENDER | SENDER_CHUNK | RECEIVER | RECEIVER_CHUNK | HEARTBEAT | GOODBYE | UNKNOWN

  const MAX_DATA_LENGTH: nat := 2048

  /** A message: its payload never exceeds the fixed buffer. */
  datatype RawMessage = RawMessage(kind: Kind, timestamp: Timestamp, data: string)
  type Message = m: RawMessage | |m.data| <= MAX_DATA_LENGTH witness RawMessage(CLEAR, Timestamp(""), "")

  /** One stored conversation entry. */
  datatype Entry = Entry(kind: Kind, timestamp: Timestamp, data: string)

  predicate IsTalk(kind: Kind)
  {
    kind == SENDER || kind == RECEIVER
  }

  ghost predicate AreTalk(entries: seq<Entry>)
  {
    forall i :: 0 <= i < |entries| ==> IsTalk(entries[i].kind)
  }

  /** The code following `kind`, which is how the chunk kind is computed. */
  function Next(kind: Kind): Kind
  {
    match kind
    case CLEAR => SENDER
    case SENDER => SENDER_CHUNK
    case SENDER_CHUNK => RECEIVER
    case RECEIVER => RECEIVER_CHUNK
    case RECEIVER_CHUNK => HEARTBEAT
    case HEARTBEAT => GOODBYE
    case GOODBYE => UNKNOWN
    case UNKNOWN => UNKNOWN
  }

  /** The messages carrying `data`: full chunks, then one closing message, never empty-handed. */
  function Pieces(kind: Kind, data: string, timestamp: Timestamp): (pieces: seq<Message>)
    decreases |data|
  {
    if |data| <= MAX_DATA_LENGTH then [RawMessage(kind, timestamp, data)]
    else [RawMessage(Next(kind), timestamp, data[..MAX_DATA_LENGTH])] + Pieces(kind, data[MAX_DATA_LENGTH..], timestamp)
  }

  /** All the messages of a list of entries. */
  function Transcript(entries: seq<Entry>): (messages: seq<Message>)
  {
    if entries == [] then []
    else Pieces(entries[0].kind, entries[0].data, entries[0].timestamp) + Transcript(entries[1..])
  }

  function Payload(messages: seq<Message>): string
  {
    if messages == [] then "" else messages[0].data + Payload(messages[1..])
  }

  /** `max(1, ceil(n / 2048))` pieces; every piece but the last is a full chunk. */
  lemma {:induction false} PiecesShape(kind: Kind, data: string, timestamp: Timestamp)
    ensures var pieces := Pieces(kind, data, timestamp);
            && |pieces| == (if data == "" then 1 else (|data| + MAX_DATA_LENGTH - 1) / MAX_DATA_LENGTH)
            && pieces[|pieces| - 1].kind == kind
            && (forall i :: 0 <= i < |pieces| ==> pieces[i].timestamp == timestamp)
            && (forall i :: 0 <= i < |pieces| - 1 ==> pieces[i].kind == Next(kind) && |pieces[i].data| == MAX_DATA_LENGTH)
            && Payload(pieces) == data
    decreases |data|
  {
    var pieces := Pieces(kind, data, timestamp);
    if |data| > MAX_DATA_LENGTH {
      PiecesShape(kind, data[MAX_DATA_LENGTH..], timestamp);
      assert pieces[1..] == Pieces(kind, data[MAX_DATA_LENGTH..], timestamp);
      assert data == data[..MAX_DATA_LENGTH] + data[MAX_DATA_LENGTH..];
    } else {
      assert pieces[1..] == [];
    }
  }

  // ---------------------------------------------------------------- display

  /** The receiving end: chunks gathered so far and entries on the screen since the last clear. */
  datatype Display = Display(chunks: seq<Message>, screen: seq<Entry>)

  datatype Outcome = Outcome(display: Display, ok: bool)

  const BLANK := Display([], [])

  predicate Continues(d: Display, kind: Kind)
  {
    d.chunks != [] ==> d.chunks[|d.chunks| - 1].kind == kind
  }

  /** `TTChat::handle`: false ends the display's loop. */
  function Handle(d: Display, m: Message): (o: Outcome)
  {
    match m.kind
    case CLEAR => if d.chunks != [] then Outcome(d, false) else Outcome(Display([], []), true)
    case SENDER => Close(d, m, SENDER_CHUNK)
    case RECEIVER => Close(d, m, RECEIVER_CHUNK)
    case SENDER_CHUNK => Gather(d, m)
    case RECEIVER_CHUNK => Gather(d, m)
    case HEARTBEAT => Outcome(d, true)
    case GOODBYE => Outcome(d, false)
    case UNKNOWN => Outcome(d, false)
  }

  function Close(d: Display, m: Message, chunk: Kind): Outcome
  {
    if !Continues(d, chunk) then Outcome(d, false)
    else Outcome(Display([], d.screen + [Entry(m.kind, m.timestamp, Payload(d.chunks) + m.data)]), true)
  }

  function Gather(d: Display, m: Message): Outcome
  {
    if !Continues(d, m.kind) then Outcome(d, false) else Outcome(d.(chunks := d.chunks + [m]), true)
  }

  /** A message that may follow the chunks gathered so far: nothing is gathered, or chunks of its own side. */
  predicate MayFollow(chunks: seq<Message>, m: Message)
  {
    match m.kind
    case CLEAR => chunks == []
    case SENDER => chunks == [] || chunks[|chunks| - 1].kind == SENDER_CHUNK
    case SENDER_CHUNK => chunks == [] || chunks[|chunks| - 1].kind == SENDER_CHUNK
    case RECEIVER => chunks == [] || chunks[|chunks| - 1].kind == RECEIVER_CHUNK
    case RECEIVER_CHUNK => chunks == [] || chunks[|chunks| - 1].kind == RECEIVER_CHUNK
    case HEARTBEAT => true
    case GOODBYE => false
    case UNKNOWN => false
  }

  /** Exactly such messages are accepted, and a refused one changes nothing. */
  lemma AcceptsExactly(d: Display, m: Message)
    ensures Handle(d, m).ok <==> MayFollow(d.chunks, m)
    ensures !Handle(d, m).ok ==> Handle(d, m).display == d
  {
  }

  /** Handling a list of messages, up to the first refusal. */
  function Feed(d: Display, messages: seq<Message>): (o: Outcome)
    decreases |messages|
  {
    if messages == [] then Outcome(d, true)
    else
      var first := Handle(d, messages[0]);
      if first.ok then Feed(first.display, messages[1..]) else first
  }

  lemma {:induction false} FeedConcat(d: Display, a: seq<Message>, b: seq<Message>)
    requires Feed(d, a).ok
    ensures Feed(d, a + b) == Feed(Feed(d, a).display, b)
    decreases |a|
  {
    if a == [] {
      assert a + b == b;
    } else {
      assert (a + b)[1..] == a[1..] + b;
      FeedConcat(Handle(d, a[0]).display, a[1..], b);
    }
  }

  lemma {:induction false} PayloadSnoc(messages: seq<Message>, last: Message)
    ensures Payload(messages + [last]) == Payload(messages) + last.data
  {
    if messages == [] {
      assert messages + [last] == [last];
    } else {
      assert (messages + [last])[1..] == messages[1..] + [last];
      PayloadSnoc(messages[1..], last);
    }
  }

  /** The pieces of one text are accepted and end as one entry, whatever was gathered before. */
  lemma {:induction false} PiecesAssemble(d: Display, kind: Kind, data: string, timestamp: Timestamp)
    requires IsTalk(kind) && Continues(d, Next(kind))
    ensures Feed(d, Pieces(kind, data, timestamp)) ==
            Outcome(Display([], d.screen + [Entry(kind, timestamp, Payload(d.chunks) + data)]), true)
    decreases |data|
  {
    var pieces := Pieces(kind, data, timestamp);
    if |data| <= MAX_DATA_LENGTH {
      assert pieces[1..] == [];
    } else {
      var head, rest := data[..MAX_DATA_LENGTH], data[MAX_DATA_LENGTH..];
      assert pieces[1..] == Pieces(kind, rest, timestamp);
      var next := Handle(d, pieces[0]).display;
      PayloadSnoc(d.chunks, pieces[0]);
      PiecesAssemble(next, kind, rest, timestamp);
      assert Payload(d.chunks) + data == Payload(next.chunks) + rest;
    }
  }

  lemma {:induction false} TranscriptAssembles(screen: seq<Entry>, entries: seq<Entry>)
    requires AreTalk(entries)
    ensures Feed(Display([], screen), Transcript(entries)) == Outcome(Display([], screen + entries), true)
    decreases |entries|
  {
    if entries == [] {
      assert screen + entries == screen;
    } else {
      var e := entries[0];
      var pieces := Pieces(e.kind, e.data, e.timestamp);
      PiecesAssemble(Display([], screen), e.kind, e.data, e.timestamp);
      FeedConcat(Display([], screen), pieces, Transcript(entries[1..]));
      assert e == Entry(e.kind, e.timestamp, Payload([]) + e.data);
      TranscriptAssembles(screen + [e], entries[1..]);
      assert screen + [e] + entries[1..] == screen + entries;
    }
  }

  // ------------------------------------------------------------- heartbeats

  function WithoutHeartbeats(messages: seq<Message>): seq<Message>
  {
    if messages == [] then []
    else if messages[0].kind == HEARTBEAT then WithoutHeartbeats(messages[1..])
    else [messages[0]] + WithoutHeartbeats(messages[1..])
  }

  lemma {:induction false} HeartbeatsDoNotMatter(d: Display, messages: seq<Message>)
    ensures Feed(d, messages) == Feed(d, WithoutHeartbeats(messages))
    decreases |messages|
  {
    if messages != [] {
      var first := Handle(d, messages[0]);
      if messages[0].kind == HEARTBEAT {
        HeartbeatsDoNotMatter(d, messages[1..]);
      } else {
        assert WithoutHeartbeats(messages)[1..] == WithoutHeartbeats(messages[1..]);
        HeartbeatsDoNotMatter(first.display, messages[1..]);
      }
    }
  }

  /**
   Cutting and reassembling is the identity on any list of entries of any lengths, wherever
   heartbeats are inserted, even in the middle of a chunked text.
   */
  lemma ReassemblyIsIdentity(entries: seq<Entry>, messages: seq<Message>)
    requires AreTalk(entries)
    requires WithoutHeartbeats(messages) == Transcript(entries)
    ensures Feed(BLANK, messages) == Outcome(Display([], entries), true)
  {
    HeartbeatsDoNotMatter(BLANK, messages);
    TranscriptAssembles([], entries);
    assert [] + entries == entries;
  }

  lemma {:induction false} TranscriptSnoc(entries: seq<Entry>, e: Entry)
    ensures Transcript(entries + [e]) == Transcript(entries) + Pieces(e.kind, e.data, e.timestamp)
  {
    if entries == [] {
      assert (entries + [e])[1..] == [];
    } else {
      assert (entries + [e])[1..] == entries[1..] + [e];
      TranscriptSnoc(entries[1..], e);
    }
  }
}
