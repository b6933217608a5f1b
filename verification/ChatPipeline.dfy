/**
 The chat pipeline: handler, queue, main loop, inter-process queue and display, interleaved
 in every possible way. The screen is a replica of the selected conversation.
 */
module ChatPipeline {
  import opened Common
  import opened ChatMessages
  import H = ChatHandlers
  import ChatScreen

  /**
   `replay` is what a running `select` has still to queue, under the lock of the storage;
   `inHand` the batch `main` has dequeued and not yet sent; `mainDone` says that `main` has left
   its loop and `farewell` that it has then tried to send its goodbye.
   */
  datatype System = System(
    handler: H.Model, replay: seq<Entry>, inHand: seq<Message>, mainDone: bool, farewell: bool,
    pipe: seq<Message>, display: Display, displayDone: bool)

  datatype Action =
    | Create(id: nat)
    | Select(id: nat, now: Timestamp)          // up to its loop
    | ReplayNext                               // one round of that loop
    | Send(id: nat, text: string, at: Timestamp)
    | Receive(id: nat, text: string, at: Timestamp)
    | Take                                     // main: the whole queue, which may be empty
    | Beat(now: Timestamp)                     // main: a heartbeat after a timeout
    | Push(sent: bool)                         // main: send the head of the batch
    | SayGoodbye(sent: bool)                   // main: after its loop
    | StopHandler                              // stop() by any thread, `main` at its end included
    | Show                                     // display: receive and handle
    | StopDisplay                              // display: forced exit or failed receive

  function Farewell(timestamp: Timestamp): Message
  {
    RawMessage(GOODBYE, timestamp, "")
  }

  /** Another operation waits while `select` holds the lock of the storage. */
  function OperationStep(s: System, later: H.Model): System
  {
    if s.replay != [] then s else s.(handler := later)
  }

  function SelectStep(s: System, id: nat, now: Timestamp): System
  {
    if s.replay != [] then s
    else
      var begun := H.Begin(s.handler, id, now);
      s.(handler := begun.model, replay := begun.replay)
  }

  function ReplayStep(s: System): System
  {
    if s.replay == [] then s
    else
      var first := H.Enqueue(s.handler, s.replay[0].kind, s.replay[0].data, s.replay[0].timestamp);
      s.(handler := first.model, replay := if first.ok then s.replay[1..] else [])
  }

  /** Out of the loop: the rest of the batch is destroyed, and the queue is never looked at again. */
  function Leave(s: System): System
  {
    s.(mainDone := true, inHand := [])
  }

  function TakeStep(s: System): System
  {
    if s.mainDone || s.inHand != [] then s
    else
      var look := H.Look(s.handler);
      if !look.ok then Leave(s) else s.(handler := look.model.(queue := []), inHand := s.handler.queue)
  }

  function BeatStep(s: System, now: Timestamp): System
  {
    if s.mainDone || s.inHand != [] then s
    else
      var beat := H.Enqueue(s.handler, HEARTBEAT, "", now);
      if beat.ok then s.(handler := beat.model) else Leave(s)
  }

  function PushStep(s: System, sent: bool): System
  {
    if s.mainDone || s.inHand == [] then s
    else
      var look := H.Look(s.handler);
      if !look.ok || !sent then Leave(s.(handler := look.model))
      else s.(handler := look.model, inHand := s.inHand[1..], pipe := s.pipe + [s.inHand[0]])
  }

  function GoodbyeStep(s: System, sent: bool): System
  {
    if !s.mainDone || s.farewell then s
    else s.(farewell := true, pipe := if sent then s.pipe + [Farewell(Timestamp(""))] else s.pipe)
  }

  function ShowStep(s: System): System
  {
    if s.displayDone || s.pipe == [] then s
    else
      var o := Handle(s.display, s.pipe[0]);
      s.(display := o.display, pipe := s.pipe[1..], displayDone := !o.ok)
  }

  function Step(s: System, a: Action): System
  {
    match a
    case Create(id) => OperationStep(s, H.Create(s.handler, id).model)
    case Select(id, now) => SelectStep(s, id, now)
    case ReplayNext => ReplayStep(s)
    case Send(id, text, at) => OperationStep(s, H.Send(s.handler, id, text, at).model)
    case Receive(id, text, at) => OperationStep(s, H.Receive(s.handler, id, text, at).model)
    case Take => TakeStep(s)
    case Beat(now) => BeatStep(s, now)
    case Push(sent) => PushStep(s, sent)
    case SayGoodbye(sent) => GoodbyeStep(s, sent)
    case StopHandler => s.(handler := s.handler.(life := 0))
    case Show => ShowStep(s)
    case StopDisplay => s.(displayDone := true)
  }

  function Start(life: nat): System
  {
    System(H.Model([], None, [], life), [], [], false, false, [], BLANK, false)
  }

  function Run(life: nat, actions: seq<Action>): System
  {
    if actions == [] then Start(life) else Step(Run(life, actions[..|actions| - 1]), actions[|actions| - 1])
  }

  // ------------------------------------------------------------- invariants

  /** Everything the display may still receive, in order. */
  function Pending(s: System): seq<Message>
  {
    s.pipe + if s.mainDone then [] else s.inHand + s.handler.queue
  }

  ghost predicate NoFarewell(messages: seq<Message>)
  {
    forall i :: 0 <= i < |messages| ==> messages[i].kind != GOODBYE
  }

  /** The screen shows the beginning of one single conversation. */
  ghost predicate ShowsOne(screen: seq<Entry>, store: seq<seq<Entry>>)
  {
    screen == [] || exists id :: 0 <= id < |store| && screen <= store[id]
  }

  /** At every moment of consuming `messages` the display accepts and shows one conversation. */
  ghost predicate Safe(d: Display, messages: seq<Message>, store: seq<seq<Entry>>)
    decreases |messages|
  {
    && ShowsOne(d.screen, store)
    && (messages != [] ==>
          || (messages[0].kind == GOODBYE && messages[1..] == [])
          || (Handle(d, messages[0]).ok && Safe(Handle(d, messages[0]).display, messages[1..], store)))
  }

  ghost predicate Grows(store: seq<seq<Entry>>, later: seq<seq<Entry>>)
  {
    |store| <= |later| && forall i :: 0 <= i < |store| ==> store[i] <= later[i]
  }

  ghost predicate TalkOnly(store: seq<seq<Entry>>)
  {
    forall i :: 0 <= i < |store| ==> AreTalk(store[i])
  }

  ghost predicate HandlerInv(h: H.Model)
  {
    TalkOnly(h.messages) && (h.current.Some? ==> h.current.value < |h.messages|)
  }

  /** Consuming all that is in flight ends on the first `n` entries of the selected conversation. */
  ghost predicate Settles(s: System, n: nat)
  {
    && n <= |H.Shown(s.handler)|
    && Feed(s.display, Pending(s)) == Outcome(Display([], H.Shown(s.handler)[..n]), true)
  }

  /** What the display will have come to once it has consumed all that is in flight. */
  function EndsOn(s: System): Display
  {
    Feed(s.display, Pending(s)).display
  }

  /** The screen is a replica: consuming all that is in flight ends on the selected conversation. */
  predicate Replicated(s: System)
  {
    EndsOn(s) == Display([], H.Shown(s.handler))
  }

  /** What is still to be replayed is the end of the selected conversation. */
  ghost predicate ReplayInv(h: H.Model, replay: seq<Entry>)
  {
    EndsWith(H.Shown(h), replay)
  }

  ghost predicate EndsWith(shown: seq<Entry>, replay: seq<Entry>)
  {
    && |replay| <= |shown|
    && forall i {:trigger replay[i]} :: 0 <= i < |replay| ==> replay[i] == shown[|shown| - |replay| + i]
  }

  /** Nothing is missing but what is still to be replayed; so it is until the stop lands. */
  ghost predicate Reached(s: System, n: nat)
  {
    && Settles(s, n) && n + |s.replay| <= |H.Shown(s.handler)|
    && (s.handler.life > 0 ==> n + |s.replay| == |H.Shown(s.handler)|)
  }

  ghost predicate Inv(s: System)
  {
    && HandlerInv(s.handler) && ReplayInv(s.handler, s.replay)
    && (s.farewell ==> s.mainDone)
    && Safe(s.display, Pending(s), s.handler.messages)
    && (!s.farewell ==> NoFarewell(Pending(s)))
    && (!s.mainDone ==> exists n :: Reached(s, n))
  }

  /** Nothing is missing but what is still to be replayed. */
  predicate Whole(s: System)
  {
    var shown := H.Shown(s.handler);
    |s.replay| <= |shown| && EndsOn(s) == Display([], shown[..|shown| - |s.replay|])
  }

  /**
   The steps that leave a gap: an entry is stored and the stop lands before it is queued,
   or the stop lands while the conversation is being replayed.
   */
  predicate Breaks(s: System, a: Action)
  {
    match a
    case Send(id, _, _) => s.replay == [] && s.handler.life == 1 && Current(s.handler, id)
    case Receive(id, _, _) => s.replay == [] && s.handler.life == 1 && Current(s.handler, id)
    case ReplayNext => s.replay != [] && s.handler.life == 0
    case _ => false
  }

  predicate Current(h: H.Model, id: nat)
  {
    h.current == Some(id) && id < |h.messages|
  }

  // ---------------------------------------------------------- facts on Safe

  lemma ShowsOneGrows(screen: seq<Entry>, store: seq<seq<Entry>>, later: seq<seq<Entry>>)
    requires Grows(store, later) && ShowsOne(screen, store)
    ensures ShowsOne(screen, later)
  {
    if screen != [] {
      var id :| 0 <= id < |store| && screen <= store[id];
      assert store[id] <= later[id];
    }
  }

  lemma {:induction false} SafeGrows(d: Display, messages: seq<Message>, store: seq<seq<Entry>>, later: seq<seq<Entry>>)
    requires Grows(store, later) && Safe(d, messages, store)
    ensures Safe(d, messages, later)
    decreases |messages|
  {
    ShowsOneGrows(d.screen, store, later);
    if messages != [] && !(messages[0].kind == GOODBYE && messages[1..] == []) {
      SafeGrows(Handle(d, messages[0]).display, messages[1..], store, later);
    }
  }

  lemma {:induction false} SafeAppend(d: Display, a: seq<Message>, b: seq<Message>, store: seq<seq<Entry>>)
    requires Safe(d, a, store) && NoFarewell(a)
    requires Safe(Feed(d, a).display, b, store)
    ensures Feed(d, a).ok && Safe(d, a + b, store)
    decreases |a|
  {
    if a == [] {
      assert a + b == b;
    } else {
      assert (a + b)[1..] == a[1..] + b;
      SafeAppend(Handle(d, a[0]).display, a[1..], b, store);
    }
  }

  lemma {:induction false} SafePrefix(d: Display, a: seq<Message>, b: seq<Message>, store: seq<seq<Entry>>)
    requires Safe(d, a + b, store)
    ensures Safe(d, a, store)
    decreases |a|
  {
    if a != [] {
      assert (a + b)[1..] == a[1..] + b;
      if a[0].kind != GOODBYE {
        SafePrefix(Handle(d, a[0]).display, a[1..], b, store);
      }
    }
  }

  lemma {:induction false} SafeFeed(d: Display, messages: seq<Message>, store: seq<seq<Entry>>)
    requires Safe(d, messages, store) && NoFarewell(messages)
    ensures Feed(d, messages).ok && ShowsOne(Feed(d, messages).display.screen, store)
    decreases |messages|
  {
    if messages != [] { SafeFeed(Handle(d, messages[0]).display, messages[1..], store); }
  }

  /** The pieces of an entry are safe when the screen with the entry still shows one conversation. */
  lemma {:induction false} SafePieces(d: Display, kind: Kind, data: string, at: Timestamp, store: seq<seq<Entry>>)
    requires IsTalk(kind) && Continues(d, Next(kind))
    requires ShowsOne(d.screen, store)
    requires ShowsOne(d.screen + [Entry(kind, at, Payload(d.chunks) + data)], store)
    ensures Safe(d, Pieces(kind, data, at), store) && NoFarewell(Pieces(kind, data, at))
    decreases |data|
  {
    var pieces := Pieces(kind, data, at);
    if |data| <= MAX_DATA_LENGTH {
      assert pieces[1..] == [];
    } else {
      var rest := data[MAX_DATA_LENGTH..];
      assert pieces[1..] == Pieces(kind, rest, at);
      var next := Handle(d, pieces[0]).display;
      PayloadSnoc(d.chunks, pieces[0]);
      assert Payload(d.chunks) + data == Payload(next.chunks) + rest;
      SafePieces(next, kind, rest, at, store);
    }
  }

  lemma {:induction false} SafeTranscript(screen: seq<Entry>, entries: seq<Entry>, store: seq<seq<Entry>>, id: nat)
    requires id < |store| && screen + entries <= store[id] && AreTalk(entries)
    ensures Safe(Display([], screen), Transcript(entries), store) && NoFarewell(Transcript(entries))
    decreases |entries|
  {
    assert screen <= store[id];
    if entries != [] {
      var e, d := entries[0], Display([], screen);
      assert screen + [e] + entries[1..] == screen + entries;
      assert screen + [e] <= store[id];
      assert e == Entry(e.kind, e.timestamp, Payload([]) + e.data);
      SafePieces(d, e.kind, e.data, e.timestamp, store);
      PiecesAssemble(d, e.kind, e.data, e.timestamp);
      SafeTranscript(screen + [e], entries[1..], store, id);
      SafeAppend(d, Pieces(e.kind, e.data, e.timestamp), Transcript(entries[1..]), store);
    }
  }

  // ----------------------------------------------------------- the replica

  lemma WholeIs(s: System, n: nat)
    requires Reached(s, n)
    ensures Whole(s) <==> n + |s.replay| == |H.Shown(s.handler)|
  {
    var shown := H.Shown(s.handler);
    assert |shown[..n]| == n && |shown[..|shown| - |s.replay|]| == |shown| - |s.replay|;
  }

  lemma ReplicatedIs(s: System)
    ensures s.replay == [] ==> (Replicated(s) <==> Whole(s))
  {
    assert H.Shown(s.handler)[..|H.Shown(s.handler)|] == H.Shown(s.handler);
  }

  /** What a handler operation does, as seen by the display. */
  ghost predicate Extends(h: H.Model, later: H.Model, added: seq<Message>)
  {
    && Grows(h.messages, later.messages)
    && HandlerInv(later)
    && later.queue == h.queue + added
    && later.life <= h.life
  }

  /** From a settled screen the added messages lead to a prefix of the new conversation. */
  ghost predicate Leads(h: H.Model, later: H.Model, added: seq<Message>, from: nat, to: nat)
  {
    && from <= |H.Shown(h)| && to <= |H.Shown(later)|
    && NoFarewell(added)
    && Safe(Display([], H.Shown(h)[..from]), added, later.messages)
    && Feed(Display([], H.Shown(h)[..from]), added) == Outcome(Display([], H.Shown(later)[..to]), true)
  }

  /** Operations that queue nothing. */
  lemma Quiet(h: H.Model, later: H.Model, n: nat)
    requires HandlerInv(h) && HandlerInv(later)
    requires Grows(h.messages, later.messages) && later.queue == h.queue && later.life <= h.life
    requires H.Shown(h) <= H.Shown(later) && n <= |H.Shown(h)|
    requires later.current == h.current
    ensures Extends(h, later, []) && Leads(h, later, [], n, n)
  {
    assert H.Shown(h)[..n] == H.Shown(later)[..n];
    if n > 0 {
      assert H.Shown(h)[..n] <= later.messages[later.current.value];
    }
  }

  /** Queueing the pieces of the next entry of the shown conversation. */
  lemma Talks(h: H.Model, later: H.Model, e: Entry, n: nat)
    requires HandlerInv(later) && Grows(h.messages, later.messages) && later.current.Some? && IsTalk(e.kind)
    requires later.queue == h.queue + Pieces(e.kind, e.data, e.timestamp) && later.life <= h.life
    requires n <= |H.Shown(h)| && n < |H.Shown(later)|
    requires H.Shown(h)[..n] + [e] == H.Shown(later)[..n + 1]
    ensures Extends(h, later, Pieces(e.kind, e.data, e.timestamp))
    ensures Leads(h, later, Pieces(e.kind, e.data, e.timestamp), n, n + 1)
  {
    var d := Display([], H.Shown(h)[..n]);
    var store := later.messages[later.current.value];
    assert e == Entry(e.kind, e.timestamp, Payload([]) + e.data);
    assert d.screen + [e] <= store;
    assert d.screen <= store;
    SafePieces(d, e.kind, e.data, e.timestamp, later.messages);
    PiecesAssemble(d, e.kind, e.data, e.timestamp);
  }

  lemma ClearPieces(now: Timestamp)
    ensures Pieces(CLEAR, "", now) == [RawMessage(CLEAR, now, "")]
  {
  }

  /** The clear in front of a replay empties the screen. */
  lemma Clears(h: H.Model, later: H.Model, now: Timestamp, n: nat)
    requires HandlerInv(h) && HandlerInv(later) && later.messages == h.messages && n <= |H.Shown(h)|
    requires h.current.Some? && later.life <= h.life
    requires later.queue == h.queue + Pieces(CLEAR, "", now)
    ensures Extends(h, later, Pieces(CLEAR, "", now)) && Leads(h, later, Pieces(CLEAR, "", now), n, 0)
  {
    ClearPieces(now);
    var d := Display([], H.Shown(h)[..n]);
    var clear := Pieces(CLEAR, "", now);
    assert clear[1..] == [];
    assert d.screen <= h.messages[h.current.value];
    assert Handle(d, clear[0]) == Outcome(BLANK, true);
    assert Feed(BLANK, []) == Outcome(BLANK, true);
  }

  /** Any operation of the shape above keeps the invariant, and the replica unless it leaves a gap. */
  lemma Concludes(s: System, t: System, added: seq<Message>, from: nat, to: nat, broke: bool)
    requires Inv(s) && !s.mainDone && Reached(s, from)
    requires t == s.(handler := t.handler, replay := t.replay)
    requires Extends(s.handler, t.handler, added) && Leads(s.handler, t.handler, added, from, to)
    requires ReplayInv(t.handler, t.replay)
    requires to + |t.replay| <= |H.Shown(t.handler)|
    requires t.handler.life > 0 ==> to + |t.replay| == |H.Shown(t.handler)|
    requires to + |t.replay| == |H.Shown(t.handler)| <==> from + |s.replay| == |H.Shown(s.handler)| && !broke
    ensures Inv(t) && (Whole(t) <==> Whole(s) && !broke)
  {
    var pending := Pending(s);
    assert Pending(t) == pending + added;
    SafeGrows(s.display, pending, s.handler.messages, t.handler.messages);
    SafeAppend(s.display, pending, added, t.handler.messages);
    FeedConcat(s.display, pending, added);
    assert Reached(t, to);
    WholeIs(s, from);
    WholeIs(t, to);
  }

  // ---------------------------------------------------------- the operations

  lemma NothingHappens(s: System, t: System)
    requires Inv(s) && !s.mainDone
    requires t == s.(handler := t.handler)
    requires HandlerInv(t.handler) && Grows(s.handler.messages, t.handler.messages)
    requires t.handler.current == s.handler.current && t.handler.queue == s.handler.queue
    requires t.handler.life <= s.handler.life && H.Shown(t.handler) == H.Shown(s.handler)
    ensures Inv(t) && (Whole(t) <==> Whole(s))
  {
    var n: nat :| Reached(s, n);
    Quiet(s.handler, t.handler, n);
    Concludes(s, t, [], n, n, false);
  }

  /** Storing an entry and queueing its pieces, or being cut off in between. */
  lemma StoresAndQueues(s: System, id: nat, e: Entry)
    requires Inv(s) && !s.mainDone && s.replay == [] && s.handler.life > 0
    requires id < |s.handler.messages| && s.handler.current == Some(id) && IsTalk(e.kind)
    ensures var h := H.Store(s.handler.(life := s.handler.life - 1), id, e);
            var t := s.(handler := H.Enqueue(h, e.kind, e.data, e.timestamp).model);
            Inv(t) && (Whole(t) <==> Whole(s) && s.handler.life != 1)
  {
    var h := H.Store(s.handler.(life := s.handler.life - 1), id, e);
    var later := H.Enqueue(h, e.kind, e.data, e.timestamp).model;
    var t := s.(handler := later);
    var n: nat :| Reached(s, n);
    assert H.Shown(later) == H.Shown(s.handler) + [e];
    if h.life == 0 {
      Quiet(s.handler, later, n);
      Concludes(s, t, [], n, n, true);
    } else {
      assert H.Shown(s.handler)[..n] == H.Shown(s.handler) && H.Shown(later)[..n + 1] == H.Shown(later);
      Talks(s.handler, later, e, n);
      Concludes(s, t, Pieces(e.kind, e.data, e.timestamp), n, n + 1, false);
    }
  }

  lemma SendKeeps(s: System, id: nat, text: string, at: Timestamp)
    requires Inv(s) && !s.mainDone
    ensures var a := Send(id, text, at); Inv(Step(s, a)) && (Whole(Step(s, a)) <==> Whole(s) && !Breaks(s, a))
  {
    if s.replay == [] {
      if s.handler.life > 0 && Current(s.handler, id) {
        StoresAndQueues(s, id, Entry(SENDER, at, text));
      } else {
        NothingHappens(s, Step(s, Send(id, text, at)));
      }
    }
  }

  lemma ReceiveKeeps(s: System, id: nat, text: string, at: Timestamp)
    requires Inv(s) && !s.mainDone
    ensures var a := Receive(id, text, at); Inv(Step(s, a)) && (Whole(Step(s, a)) <==> Whole(s) && !Breaks(s, a))
  {
    if s.replay == [] {
      if s.handler.life > 0 && Current(s.handler, id) {
        StoresAndQueues(s, id, Entry(RECEIVER, at, text));
      } else {
        var t := Step(s, Receive(id, text, at));
        assert HandlerInv(t.handler);
        NothingHappens(s, t);
      }
    }
  }

  lemma SelectKeeps(s: System, id: nat, now: Timestamp)
    requires Inv(s) && !s.mainDone
    ensures Inv(SelectStep(s, id, now)) && (Whole(SelectStep(s, id, now)) <==> Whole(s))
  {
    if s.replay == [] {
      var h, begun := s.handler, H.Begin(s.handler, id, now);
      var t := SelectStep(s, id, now);
      if begun.model.current == h.current {
        NothingHappens(s, t);
      } else {
        var n: nat :| Reached(s, n);
        assert H.Shown(t.handler) == h.messages[id] == t.replay;
        if h.current.Some? {
          Clears(h, t.handler, now, n);
          Concludes(s, t, Pieces(CLEAR, "", now), n, 0, false);
        } else {
          assert H.Shown(h)[..n] == H.Shown(t.handler)[..0];
          Concludes(s, t, [], n, 0, false);
        }
      }
    }
  }

  lemma ReplayIsCut(s: System)
    requires Inv(s) && !s.mainDone && s.replay != [] && s.handler.life == 0
    ensures Inv(ReplayStep(s)) && !Whole(ReplayStep(s))
  {
    var n: nat :| Reached(s, n);
    var t := ReplayStep(s);
    assert H.Shown(t.handler) == H.Shown(s.handler);
    Quiet(s.handler, t.handler, n);
    Concludes(s, t, [], n, n, true);
  }

  lemma ReplayAdds(s: System)
    requires Inv(s) && !s.mainDone && s.replay != [] && s.handler.life > 0
    ensures Inv(ReplayStep(s)) && (Whole(ReplayStep(s)) <==> Whole(s))
  {
    var n: nat :| Reached(s, n);
    var t, e, shown := ReplayStep(s), s.replay[0], H.Shown(s.handler);
    assert H.Shown(t.handler) == shown;
    ReplayGoesOn(shown, s.replay);
    assert AreTalk(shown) && e == shown[n];
    Talks(s.handler, t.handler, e, n);
    Concludes(s, t, Pieces(e.kind, e.data, e.timestamp), n, n + 1, false);
  }

  lemma ReplayKeeps(s: System)
    requires Inv(s) && !s.mainDone
    ensures Inv(ReplayStep(s)) && (Whole(ReplayStep(s)) <==> Whole(s) && !Breaks(s, ReplayNext))
  {
    if s.replay != [] {
      if s.handler.life == 0 { ReplayIsCut(s); } else { ReplayAdds(s); }
    }
  }

  lemma ReplayGoesOn(shown: seq<Entry>, replay: seq<Entry>)
    requires replay != [] && EndsWith(shown, replay)
    ensures EndsWith(shown, replay[1..])
    ensures var n := |shown| - |replay|; shown[..n] + [replay[0]] == shown[..n + 1] && replay[0] == shown[n]
  {
  }

  // ------------------------------------------------- main loop and display

  lemma SamePendingKeeps(s: System, t: System)
    requires Inv(s) && !s.mainDone && !t.mainDone && !t.farewell
    requires t.handler.messages == s.handler.messages && t.handler.current == s.handler.current
    requires t.handler.life <= s.handler.life && t.display == s.display && t.replay == s.replay
    requires Pending(t) == Pending(s)
    ensures Inv(t) && (Whole(t) <==> Whole(s))
  {
    assert H.Shown(t.handler) == H.Shown(s.handler);
    var n: nat :| Reached(s, n);
    assert Reached(t, n);
    WholeIs(s, n);
    WholeIs(t, n);
  }

  /** A heartbeat in flight changes nothing. */
  lemma BeatKeeps(s: System, now: Timestamp)
    requires Inv(s) && !s.mainDone && s.handler.life > 0
    ensures var t := s.(handler := H.Enqueue(s.handler, HEARTBEAT, "", now).model);
            Inv(t) && (Whole(t) <==> Whole(s))
  {
    var n: nat :| Reached(s, n);
    var t := s.(handler := H.Enqueue(s.handler, HEARTBEAT, "", now).model);
    var beat := Pieces(HEARTBEAT, "", now);
    assert beat == [RawMessage(HEARTBEAT, now, "")] && beat[1..] == [];
    var d := Display([], H.Shown(s.handler)[..n]);
    if n > 0 { assert d.screen <= s.handler.messages[s.handler.current.value]; }
    assert Feed(d, []) == Outcome(d, true);
    assert H.Shown(t.handler) == H.Shown(s.handler);
    Concludes(s, t, beat, n, n, false);
  }

  /** Leaving the loop forgets the batch and the queue. */
  lemma LeaveKeepsInv(s: System)
    requires Inv(s) && !s.mainDone
    ensures Inv(Leave(s)) && Pending(Leave(s)) == s.pipe
  {
    var rest := s.inHand + s.handler.queue;
    assert Pending(s) == s.pipe + rest;
    SafePrefix(s.display, s.pipe, rest, s.handler.messages);
    assert NoFarewell(s.pipe) by {
      assert forall i :: 0 <= i < |s.pipe| ==> s.pipe[i] == Pending(s)[i];
    }
    assert Pending(Leave(s)) == s.pipe;
  }

  lemma TakeKeeps(s: System)
    requires Inv(s) && !s.mainDone
    ensures Inv(TakeStep(s)) && (!TakeStep(s).mainDone ==> (Whole(TakeStep(s)) <==> Whole(s)))
  {
    if s.inHand == [] {
      var t := TakeStep(s);
      if s.handler.life == 0 {
        LeaveKeepsInv(s);
      } else {
        assert Pending(t) == Pending(s);
        SamePendingKeeps(s, t);
      }
    }
  }

  lemma PushKeeps(s: System, sent: bool)
    requires Inv(s) && !s.mainDone
    ensures Inv(PushStep(s, sent)) && (!PushStep(s, sent).mainDone ==> (Whole(PushStep(s, sent)) <==> Whole(s)))
  {
    if s.inHand != [] {
      var looked := s.(handler := H.Look(s.handler).model);
      SamePendingKeeps(s, looked);
      if s.handler.life == 0 || !sent {
        LeaveKeepsInv(looked);
      } else {
        var t := PushStep(s, sent);
        assert s.pipe + (s.inHand + s.handler.queue) == s.pipe + [s.inHand[0]] + (s.inHand[1..] + s.handler.queue);
        SamePendingKeeps(s, t);
      }
    }
  }

  lemma ShowKeeps(s: System)
    requires Inv(s)
    ensures Inv(ShowStep(s)) && (!s.mainDone ==> (Whole(ShowStep(s)) <==> Whole(s)))
  {
    var t := ShowStep(s);
    if !s.displayDone && s.pipe != [] {
      var pending := Pending(s);
      assert pending[0] == s.pipe[0] && pending[1..] == Pending(t);
      assert !s.farewell ==> NoFarewell(Pending(t));
      if !s.mainDone {
        var n: nat :| Reached(s, n);
        assert Reached(t, n);
        WholeIs(s, n);
        WholeIs(t, n);
      }
    }
  }

  /** One step before `main` leaves its loop: exactly the steps that break it end the replica. */
  lemma StepWhole(s: System, a: Action)
    requires Inv(s) && !s.mainDone
    ensures Inv(Step(s, a))
    ensures !Step(s, a).mainDone ==> (Whole(Step(s, a)) <==> Whole(s) && !Breaks(s, a))
  {
    match a
    case Create(id) => if s.replay == [] { NothingHappens(s, Step(s, a)); }
    case Select(id, now) => SelectKeeps(s, id, now);
    case ReplayNext => ReplayKeeps(s);
    case Send(id, text, at) => SendKeeps(s, id, text, at);
    case Receive(id, text, at) => ReceiveKeeps(s, id, text, at);
    case Take => TakeKeeps(s);
    case Beat(now) => if s.inHand == [] { if s.handler.life > 0 { BeatKeeps(s, now); } else { LeaveKeepsInv(s); } }
    case Push(sent) => PushKeeps(s, sent);
    case SayGoodbye(sent) =>
    case StopHandler => SamePendingKeeps(s, Step(s, a));
    case Show => ShowKeeps(s);
    case StopDisplay => assert Pending(Step(s, a)) == Pending(s); SamePendingKeeps(s, Step(s, a));
  }

  /** After `main` has left, the queue leads nowhere and only the storage may grow. */
  lemma OperationAfterEnd(s: System, t: System)
    requires Inv(s) && s.mainDone
    requires t == s.(handler := t.handler, replay := t.replay)
    requires Grows(s.handler.messages, t.handler.messages) && HandlerInv(t.handler) && ReplayInv(t.handler, t.replay)
    ensures Inv(t)
  {
    assert Pending(t) == Pending(s);
    SafeGrows(s.display, Pending(s), s.handler.messages, t.handler.messages);
  }

  lemma StoreGrows(h: H.Model, id: nat, e: Entry)
    requires HandlerInv(h) && id < |h.messages| && IsTalk(e.kind)
    ensures var later := H.Store(h, id, e); Grows(h.messages, later.messages) && HandlerInv(later)
  {
  }

  /** The storage only ever grows. */
  lemma OperationsGrow(h: H.Model, id: nat, text: string, at: Timestamp)
    requires HandlerInv(h)
    ensures var later := H.Create(h, id).model; Grows(h.messages, later.messages) && HandlerInv(later)
    ensures var later := H.Send(h, id, text, at).model; Grows(h.messages, later.messages) && HandlerInv(later)
    ensures var later := H.Receive(h, id, text, at).model; Grows(h.messages, later.messages) && HandlerInv(later)
  {
    if id < |h.messages| {
      StoreGrows(h, id, Entry(SENDER, at, text));
      StoreGrows(h, id, Entry(RECEIVER, at, text));
    }
  }

  lemma UnlockedAfterEnd(s: System, later: H.Model)
    requires Inv(s) && s.mainDone
    requires Grows(s.handler.messages, later.messages) && HandlerInv(later)
    ensures Inv(OperationStep(s, later))
  {
    if s.replay == [] { OperationAfterEnd(s, s.(handler := later)); }
  }

  lemma SelectAfterEnd(s: System, id: nat, now: Timestamp)
    requires Inv(s) && s.mainDone
    ensures Inv(SelectStep(s, id, now))
  {
    var t := SelectStep(s, id, now);
    if s.replay == [] {
      assert t.replay != [] ==> H.Shown(t.handler) == t.replay;
      OperationAfterEnd(s, t);
    }
  }

  lemma ReplayAfterEnd(s: System)
    requires Inv(s) && s.mainDone
    ensures Inv(ReplayStep(s))
  {
    if s.replay != [] {
      var t := ReplayStep(s);
      assert H.Shown(t.handler) == H.Shown(s.handler);
      ReplayGoesOn(H.Shown(s.handler), s.replay);
      OperationAfterEnd(s, t);
    }
  }

  lemma GoodbyeKeepsInv(s: System, sent: bool)
    requires Inv(s)
    ensures Inv(GoodbyeStep(s, sent))
  {
    if s.mainDone && !s.farewell && sent {
      var t, bye := GoodbyeStep(s, sent), [Farewell(Timestamp(""))];
      assert Pending(s) == s.pipe && Pending(t) == s.pipe + bye;
      SafeFeed(s.display, s.pipe, s.handler.messages);
      assert bye[1..] == [];
      SafeAppend(s.display, s.pipe, bye, s.handler.messages);
    }
  }

  lemma StepAfterEnd(s: System, a: Action)
    requires Inv(s) && s.mainDone
    ensures Inv(Step(s, a))
  {
    match a
    case Select(id, now) => SelectAfterEnd(s, id, now);
    case ReplayNext => ReplayAfterEnd(s);
    case SayGoodbye(sent) => GoodbyeKeepsInv(s, sent);
    case Show => ShowKeeps(s);
    case Create(id) => OperationsGrow(s.handler, id, "", Timestamp("")); UnlockedAfterEnd(s, H.Create(s.handler, id).model);
    case Send(id, text, at) => OperationsGrow(s.handler, id, text, at); UnlockedAfterEnd(s, H.Send(s.handler, id, text, at).model);
    case Receive(id, text, at) => OperationsGrow(s.handler, id, text, at); UnlockedAfterEnd(s, H.Receive(s.handler, id, text, at).model);
    case StopHandler => OperationAfterEnd(s, s.(handler := s.handler.(life := 0)));
    case StopDisplay => assert Pending(Step(s, a)) == Pending(s);
    case _ =>
  }

  lemma StepKeepsInv(s: System, a: Action)
    requires Inv(s)
    ensures Inv(Step(s, a))
  {
    if s.mainDone { StepAfterEnd(s, a); } else { StepWhole(s, a); }
  }

  lemma StartInv(life: nat)
    ensures Inv(Start(life)) && Whole(Start(life))
  {
    var s := Start(life);
    assert H.Shown(s.handler) == [] && Pending(s) == [];
    assert Feed(BLANK, []) == Outcome(BLANK, true);
    assert Settles(s, 0);
    assert Reached(s, 0);
  }

  lemma {:induction false} RunKeepsInv(life: nat, actions: seq<Action>)
    ensures Inv(Run(life, actions))
  {
    if actions == [] {
      StartInv(life);
    } else {
      RunKeepsInv(life, actions[..|actions| - 1]);
      StepKeepsInv(Run(life, actions[..|actions| - 1]), actions[|actions| - 1]);
    }
  }

  // -------------------------------------------------------------- theorems

  /**
   In every reachable state in which the handler is not stopped and its main loop has not failed,
   with no replay under way, letting the display consume everything in flight leaves exactly the
   selected conversation on the screen; during a replay exactly what is not yet replayed is missing.
   */
  lemma ScreenIsReplica(life: nat, actions: seq<Action>)
    ensures var s := Run(life, actions);
            s.handler.life > 0 && !s.mainDone ==>
              && |s.replay| <= |H.Shown(s.handler)|
              && Feed(s.display, s.pipe + s.inHand + s.handler.queue) ==
                 Outcome(Display([], H.Shown(s.handler)[..|H.Shown(s.handler)| - |s.replay|]), true)
              && (s.replay == [] ==> Replicated(s))
  {
    RunKeepsInv(life, actions);
    var s := Run(life, actions);
    if s.handler.life > 0 && !s.mainDone {
      var n: nat :| Reached(s, n);
      WholeIs(s, n);
      ReplicatedIs(s);
      assert s.pipe + (s.inHand + s.handler.queue) == s.pipe + s.inHand + s.handler.queue;
    }
  }

  /** The step taken at time `k` leaves a gap. */
  predicate BreaksAt(life: nat, actions: seq<Action>, k: nat)
    requires k < |actions|
  {
    Breaks(Run(life, actions[..k]), actions[k])
  }

  /** No step of the run has left a gap. */
  predicate Unbroken(life: nat, actions: seq<Action>)
  {
    actions != [] ==>
      && Unbroken(life, actions[..|actions| - 1])
      && !Breaks(Run(life, actions[..|actions| - 1]), actions[|actions| - 1])
  }

  lemma BreaksEarlier(life: nat, actions: seq<Action>, k: nat)
    requires k < |actions| - 1
    ensures BreaksAt(life, actions[..|actions| - 1], k) == BreaksAt(life, actions, k)
  {
    assert actions[..|actions| - 1][..k] == actions[..k];
  }

  lemma {:induction false} UnbrokenIs(life: nat, actions: seq<Action>)
    ensures Unbroken(life, actions) <==> forall k :: 0 <= k < |actions| ==> !BreaksAt(life, actions, k)
  {
    if actions != [] {
      var before := actions[..|actions| - 1];
      UnbrokenIs(life, before);
      forall k | 0 <= k < |before| ensures BreaksAt(life, before, k) == BreaksAt(life, actions, k) {
        BreaksEarlier(life, actions, k);
      }
      assert BreaksAt(life, actions, |before|) == Breaks(Run(life, before), actions[|before|]);
    }
  }

  lemma {:induction false} WholeExactly(life: nat, actions: seq<Action>)
    requires !Run(life, actions).mainDone
    ensures Whole(Run(life, actions)) <==> Unbroken(life, actions)
  {
    if actions == [] {
      StartInv(life);
    } else {
      var before, a := actions[..|actions| - 1], actions[|actions| - 1];
      RunKeepsInv(life, before);
      assert Run(life, actions) == Step(Run(life, before), a);
      DoneStaysDone(Run(life, before), a);
      WholeExactly(life, before);
      StepWhole(Run(life, before), a);
    }
  }

  lemma DoneStaysDone(s: System, a: Action)
    ensures s.mainDone ==> Step(s, a).mainDone
  {
  }

  /**
   Stopped or not, as long as the main loop is at work: the screen is a replica exactly when no step
   of the run has left a gap.
   */
  lemma ReplicaExactly(life: nat, actions: seq<Action>)
    requires !Run(life, actions).mainDone && Run(life, actions).replay == []
    ensures Replicated(Run(life, actions)) <==> forall k :: 0 <= k < |actions| ==> !BreaksAt(life, actions, k)
  {
    WholeExactly(life, actions);
    UnbrokenIs(life, actions);
    ReplicatedIs(Run(life, actions));
  }

  // ------------------------------------------------- when the replica is lost

  /** An uninterrupted replay; it stays whole exactly when there is a read left for every entry. */
  lemma {:induction false} ReplayAll(s: System)
    requires Inv(s) && !s.mainDone && Whole(s)
    ensures var t := s.(handler := H.Replay(s.handler, s.replay).model, replay := []);
            Inv(t) && (Whole(t) <==> s.handler.life >= |s.replay|)
    decreases |s.replay|
  {
    if s.replay != [] {
      ReplayKeeps(s);
      if s.handler.life > 0 { ReplayAll(ReplayStep(s)); }
    }
  }

  /** `select` changes the conversation and the stop lands before all of it is queued. */
  predicate SelectCut(h: H.Model, id: nat)
  {
    && h.life > 0 && id < |h.messages| && h.current != Some(id)
    && (h.current.Some? ==> h.life > 1)
    && h.life < (if h.current.Some? then 2 else 1) + |h.messages[id]|
  }

  // From a replica, a whole operation ends on a replica except exactly in the cases named.

  lemma SendLosesExactly(s: System, id: nat, text: string, at: Timestamp)
    requires Inv(s) && !s.mainDone && s.replay == [] && Replicated(s)
    ensures Replicated(s.(handler := H.Send(s.handler, id, text, at).model)) <==>
              !(s.handler.life == 1 && Current(s.handler, id))
  {
    ReplicatedIs(s);
    SendKeeps(s, id, text, at);
    ReplicatedIs(Step(s, Send(id, text, at)));
  }

  lemma ReceiveLosesExactly(s: System, id: nat, text: string, at: Timestamp)
    requires Inv(s) && !s.mainDone && s.replay == [] && Replicated(s)
    ensures Replicated(s.(handler := H.Receive(s.handler, id, text, at).model)) <==>
              !(s.handler.life == 1 && Current(s.handler, id))
  {
    ReplicatedIs(s);
    ReceiveKeeps(s, id, text, at);
    ReplicatedIs(Step(s, Receive(id, text, at)));
  }

  lemma SelectLosesExactly(s: System, id: nat, now: Timestamp)
    requires Inv(s) && !s.mainDone && s.replay == [] && Replicated(s)
    ensures Replicated(s.(handler := H.Select(s.handler, id, now).model)) <==> !SelectCut(s.handler, id)
  {
    var begun := SelectStep(s, id, now);
    ReplicatedIs(s);
    SelectKeeps(s, id, now);
    ReplayAll(begun);
    ReplicatedIs(s.(handler := H.Select(s.handler, id, now).model));
  }

  lemma RunTwo(life: nat, a: Action, b: Action)
    ensures Run(life, [a]) == Step(Start(life), a)
    ensures Run(life, [a, b]) == Step(Step(Start(life), a), b)
  {
    assert [a][..0] == [];
    assert [a, b][..1] == [a];
  }

  lemma RunSnoc(life: nat, actions: seq<Action>, a: Action)
    ensures Run(life, actions + [a]) == Step(Run(life, actions), a)
  {
    assert (actions + [a])[..|actions|] == actions;
  }

  /** One conversation, selected and empty, with `life` reads left. */
  function Opened(life: nat): System
  {
    System(H.Model([[]], Some(0), [], life), [], [], false, false, [], BLANK, false)
  }

  lemma OpenedIsReached(life: nat, now: Timestamp)
    ensures Run(life + 2, [Create(0), Select(0, now)]) == Opened(life)
  {
    RunTwo(life + 2, Create(0), Select(0, now));
    assert Step(Start(life + 2), Create(0)).handler.messages == [[]];
  }

  /** A stop in the middle of `send`, or of `receive`, loses the replica. */
  lemma StoreWithoutQueue(at: Timestamp)
    ensures !Replicated(Run(3, [Create(0), Select(0, at), Send(0, "a", at)]))
    ensures !Replicated(Run(3, [Create(0), Select(0, at), Receive(0, "a", at)]))
  {
    OpenedIsReached(1, at);
    var open := [Create(0), Select(0, at)];
    RunKeepsInv(3, open);
    ScreenIsReplica(3, open);
    SendLosesExactly(Opened(1), 0, "a", at);
    ReceiveLosesExactly(Opened(1), 0, "a", at);
    RunSnoc(3, open, Send(0, "a", at));
    RunSnoc(3, open, Receive(0, "a", at));
    assert open + [Send(0, "a", at)] == [Create(0), Select(0, at), Send(0, "a", at)];
    assert open + [Receive(0, "a", at)] == [Create(0), Select(0, at), Receive(0, "a", at)];
  }

  /** So does a stop in the middle of a replay. */
  lemma ReplayCut(at: Timestamp)
    ensures var s := Run(5, [Create(0), Receive(0, "a", at), Select(0, at), StopHandler, ReplayNext]);
            !s.mainDone && s.replay == [] && !Replicated(s)
  {
    var first := [Create(0), Receive(0, "a", at), Select(0, at), StopHandler];
    RunTwo(5, Create(0), Receive(0, "a", at));
    RunSnoc(5, [Create(0), Receive(0, "a", at)], Select(0, at));
    RunSnoc(5, [Create(0), Receive(0, "a", at), Select(0, at)], StopHandler);
    assert first == [Create(0), Receive(0, "a", at)] + [Select(0, at)] + [StopHandler];
    var s := Run(5, first);
    assert s.replay == [Entry(RECEIVER, at, "a")] && s.handler.life == 0;
    RunSnoc(5, first, ReplayNext);
    assert first + [ReplayNext] == [Create(0), Receive(0, "a", at), Select(0, at), StopHandler, ReplayNext];
    RunKeepsInv(5, first);
    StepWhole(s, ReplayNext);
    ReplicatedIs(Step(s, ReplayNext));
  }

  // ------------------------------------------- when the main loop gives up

  predicate NoClear(messages: seq<Message>)
  {
    forall i :: 0 <= i < |messages| ==> messages[i].kind != CLEAR
  }

  /** Without a clear the screen only grows, and only heartbeats leave everything as it was. */
  lemma {:induction false} FeedGrows(d: Display, messages: seq<Message>)
    requires NoClear(messages) && Feed(d, messages).ok
    ensures var o := Feed(d, messages).display;
            && |o.screen| >= |d.screen|
            && (|o.screen| == |d.screen| ==> |o.chunks| >= |d.chunks|)
            && (o == d ==> WithoutHeartbeats(messages) == [])
            && (|o.screen| == |d.screen| && |o.chunks| == |d.chunks| ==> WithoutHeartbeats(messages) == [])
    decreases |messages|
  {
    if messages != [] {
      assert messages[0].kind != CLEAR;
      FeedGrows(Handle(d, messages[0]).display, messages[1..]);
    }
  }

  /** The messages behind the last clear. */
  function AfterClear(messages: seq<Message>): seq<Message>
  {
    if messages == [] then []
    else if !NoClear(messages[1..]) then AfterClear(messages[1..])
    else if messages[0].kind == CLEAR then messages[1..]
    else messages
  }

  /** What comes before the last clear does not matter. */
  lemma {:induction false} FeedAfterClear(d: Display, messages: seq<Message>)
    requires !NoClear(messages) && Feed(d, messages).ok
    ensures Feed(d, messages) == Feed(BLANK, AfterClear(messages))
    decreases |messages|
  {
    if !NoClear(messages[1..]) {
      FeedAfterClear(Handle(d, messages[0]).display, messages[1..]);
    } else {
      assert messages == [messages[0]] + messages[1..];
      assert messages[0].kind == CLEAR;
    }
  }

  /** What is destroyed when the main loop gives up in state `s`. */
  function Lost(s: System): seq<Message>
  {
    s.inHand + s.handler.queue
  }

  /**
   Giving up loses nothing to see: only heartbeats are destroyed, or a clear is among what is
   destroyed and what follows it would have led to the very screen the pipe leads to.
   */
  predicate Harmless(s: System)
  {
    if NoClear(Lost(s)) then WithoutHeartbeats(Lost(s)) == []
    else Feed(s.display, s.pipe).display == Feed(BLANK, AfterClear(Lost(s))).display
  }

  /** A main loop that gives up, stop or no stop, replay or no replay, ends the replica unless that is harmless. */
  lemma GivingUpExactly(s: System, a: Action)
    requires Inv(s) && !s.mainDone && Step(s, a).mainDone && Whole(s)
    ensures Whole(Step(s, a)) <==> Harmless(s)
    ensures s.replay == [] ==> (Replicated(Step(s, a)) <==> Harmless(s))
  {
    var t, d := Step(s, a), Feed(s.display, s.pipe).display;
    assert Pending(t) == s.pipe && Pending(s) == s.pipe + Lost(s);
    assert H.Shown(t.handler) == H.Shown(s.handler) && t.replay == s.replay;
    assert NoFarewell(s.pipe) by {
      assert forall i :: 0 <= i < |s.pipe| ==> s.pipe[i] == Pending(s)[i];
    }
    SafePrefix(s.display, s.pipe, Lost(s), s.handler.messages);
    SafeFeed(s.display, s.pipe, s.handler.messages);
    SafeFeed(s.display, Pending(s), s.handler.messages);
    FeedConcat(s.display, s.pipe, Lost(s));
    if NoClear(Lost(s)) {
      HeartbeatsDoNotMatter(d, Lost(s));
      FeedGrows(d, Lost(s));
    } else {
      FeedAfterClear(d, Lost(s));
    }
    ReplicatedIs(t);
  }

  // ---------------------------------------------------- after it has given up

  lemma ShowEnds(s: System)
    requires Inv(s)
    ensures EndsOn(ShowStep(s)) == EndsOn(s)
  {
    if !s.displayDone && s.pipe != [] {
      var pending, t := Pending(s), ShowStep(s);
      assert pending[0] == s.pipe[0] && pending[1..] == Pending(t);
    }
  }

  /** The display's end is then fixed, whatever the handler still does. */
  lemma EndStays(s: System, a: Action)
    requires Inv(s) && s.mainDone
    ensures EndsOn(Step(s, a)) == EndsOn(s)
  {
    match a
    case SayGoodbye(sent) =>
      if !s.farewell && sent {
        var bye := [Farewell(Timestamp(""))];
        assert Pending(s) == s.pipe && Pending(Step(s, a)) == s.pipe + bye;
        SafeFeed(s.display, s.pipe, s.handler.messages);
        FeedConcat(s.display, s.pipe, bye);
      } else {
        assert Pending(Step(s, a)) == Pending(s);
      }
    case Show => ShowEnds(s);
    case _ => assert Pending(Step(s, a)) == Pending(s);
  }

  /** `select` gets as far as changing the conversation. */
  predicate Switches(h: H.Model, id: nat)
  {
    h.life > 0 && id < |h.messages| && h.current != Some(id) && (h.current.Some? ==> h.life > 1)
  }

  /** The steps that end the replica once the main loop has given up: whatever changes the conversation. */
  predicate BreaksLate(s: System, a: Action)
  {
    match a
    case Send(id, _, _) => s.replay == [] && s.handler.life > 0 && Current(s.handler, id)
    case Receive(id, _, _) => s.replay == [] && s.handler.life > 0 && Current(s.handler, id)
    case Select(id, _) => s.replay == [] && Switches(s.handler, id) && H.Shown(s.handler) != []
    case ReplayNext => s.replay != []
    case _ => false
  }

  lemma LateStore(s: System, a: Action)
    requires Inv(s) && s.mainDone && Whole(s) && (a.Send? || a.Receive?)
    ensures Whole(Step(s, a)) <==> !BreaksLate(s, a)
  {
    EndStays(s, a);
    if s.replay == [] {
      var shown, later := H.Shown(s.handler), H.Shown(Step(s, a).handler);
      assert shown[..|shown|] == shown && later[..|later|] == later;
      if BreaksLate(s, a) { assert |later| == |shown| + 1; } else { assert later == shown; }
    }
  }

  lemma LateSelect(s: System, id: nat, now: Timestamp)
    requires Inv(s) && s.mainDone && Whole(s)
    ensures Whole(SelectStep(s, id, now)) <==> !BreaksLate(s, Select(id, now))
  {
    EndStays(s, Select(id, now));
    if s.replay == [] {
      var t, shown := SelectStep(s, id, now), H.Shown(s.handler);
      assert shown[..|shown|] == shown;
      if Switches(s.handler, id) {
        assert t.replay == H.Shown(t.handler) == s.handler.messages[id];
      } else {
        assert t.replay == [] && H.Shown(t.handler) == shown;
      }
    }
  }

  lemma LateReplay(s: System)
    requires Inv(s) && s.mainDone && Whole(s)
    ensures Whole(ReplayStep(s)) <==> s.replay == []
  {
    EndStays(s, ReplayNext);
    if s.replay != [] {
      var t, shown := ReplayStep(s), H.Shown(s.handler);
      assert H.Shown(t.handler) == shown && |t.replay| < |s.replay|;
      assert |shown[..|shown| - |s.replay|]| < |shown[..|shown| - |t.replay|]|;
    }
  }

  lemma LateExactly(s: System, a: Action)
    requires Inv(s) && s.mainDone && Whole(s)
    ensures Whole(Step(s, a)) <==> !BreaksLate(s, a)
  {
    match a
    case Send(_, _, _) => LateStore(s, a);
    case Receive(_, _, _) => LateStore(s, a);
    case Select(id, now) => LateSelect(s, id, now);
    case ReplayNext => LateReplay(s);
    case _ =>
      EndStays(s, a);
      assert H.Shown(Step(s, a).handler) == H.Shown(s.handler) && Step(s, a).replay == s.replay;
  }

  // ----------------------------------------------------------- over whole runs

  /** The step ends the replica: before the main loop gives up, as it does so, or after it has. */
  predicate Loses(s: System, a: Action)
  {
    if s.mainDone then BreaksLate(s, a)
    else if Step(s, a).mainDone then !Harmless(s)
    else Breaks(s, a)
  }

  lemma LosesExactly(s: System, a: Action)
    requires Inv(s) && Whole(s)
    ensures Whole(Step(s, a)) <==> !Loses(s, a)
  {
    if s.mainDone {
      LateExactly(s, a);
    } else if Step(s, a).mainDone {
      GivingUpExactly(s, a);
    } else {
      StepWhole(s, a);
    }
  }

  predicate AlwaysWhole(life: nat, actions: seq<Action>)
  {
    Whole(Run(life, actions)) && (actions != [] ==> AlwaysWhole(life, actions[..|actions| - 1]))
  }

  predicate NeverLost(life: nat, actions: seq<Action>)
  {
    actions != [] ==>
      && NeverLost(life, actions[..|actions| - 1])
      && !Loses(Run(life, actions[..|actions| - 1]), actions[|actions| - 1])
  }

  /**
   Over any run, with stops, failures and a main loop that has given up: the screen is a replica
   throughout, short of what a running replay has still to queue, if and only if no step lost it.
   */
  lemma {:induction false} ThroughoutExactly(life: nat, actions: seq<Action>)
    ensures AlwaysWhole(life, actions) <==> NeverLost(life, actions)
  {
    if actions == [] {
      StartInv(life);
    } else {
      var before := actions[..|actions| - 1];
      ThroughoutExactly(life, before);
      RunKeepsInv(life, before);
      if AlwaysWhole(life, before) {
        assert Whole(Run(life, before));
        LosesExactly(Run(life, before), actions[|actions| - 1]);
      }
    }
  }

  lemma {:induction false} EndStaysForever(life: nat, actions: seq<Action>, all: seq<Action>)
    requires actions <= all && Run(life, actions).mainDone
    ensures Run(life, all).mainDone && EndsOn(Run(life, all)) == EndsOn(Run(life, actions))
    decreases |all|
  {
    if actions != all {
      var before, a := all[..|all| - 1], all[|all| - 1];
      EndStaysForever(life, actions, before);
      RunKeepsInv(life, before);
      EndStays(Run(life, before), a);
      DoneStaysDone(Run(life, before), a);
    }
  }

  /**
   At the end of a run whose main loop has given up, the screen is a replica if and only if the
   conversation selected now reads like the screen the display was heading for at any time since.
   */
  lemma AtTheEndExactly(life: nat, actions: seq<Action>, later: seq<Action>)
    requires Run(life, actions).mainDone
    ensures EndsOn(Run(life, actions + later)) == EndsOn(Run(life, actions)) && Run(life, actions + later).mainDone
    ensures Replicated(Run(life, actions + later)) <==>
              EndsOn(Run(life, actions)) == Display([], H.Shown(Run(life, actions + later).handler))
  {
    EndStaysForever(life, actions, actions + later);
  }

  // ------------------------------------------------------------------ examples

  /**
   A failed send, with no stop anywhere: the handler runs and still accepts texts, nothing is in
   flight, and the screen misses what was destroyed.
   */
  lemma FailedSendLosesTheReplica(at: Timestamp)
    ensures var s := Run(100, [Create(0), Select(0, at), Send(0, "a", at), Take, Push(false)]);
            && s.handler.life > 0 && s.mainDone && s.replay == [] && Pending(s) == []
            && H.Shown(s.handler) == [Entry(SENDER, at, "a")] && s.display.screen == []
            && !Replicated(s)
  {
    OpenedIsReached(98, at);
    var open := [Create(0), Select(0, at)];
    RunSnoc(100, open, Send(0, "a", at));
    RunSnoc(100, open + [Send(0, "a", at)], Take);
    RunSnoc(100, open + [Send(0, "a", at)] + [Take], Push(false));
    assert open + [Send(0, "a", at)] + [Take] + [Push(false)] ==
           [Create(0), Select(0, at), Send(0, "a", at), Take, Push(false)];
  }

  /** A conversation of one entry, selected but not yet replayed, and a main loop that has given up. */
  function GivenUpInReplay(at: Timestamp): System
  {
    var e := Entry(RECEIVER, at, "a");
    System(H.Model([[e]], Some(0), [], 94), [e], [], true, false, [], BLANK, false)
  }

  function ReceivedOne(at: Timestamp): System
  {
    System(H.Model([[Entry(RECEIVER, at, "a")]], None, [], 98), [], [], false, false, [], BLANK, false)
  }

  lemma ReceivedOneIsReached(at: Timestamp)
    ensures Run(100, [Create(0), Receive(0, "a", at)]) == ReceivedOne(at)
  {
    RunTwo(100, Create(0), Receive(0, "a", at));
    assert [] + [Entry(RECEIVER, at, "a")] == [Entry(RECEIVER, at, "a")];
    assert Step(Start(100), Create(0)).handler.messages == [[]];
  }

  /** The same conversation with a heartbeat queued while it waits for its replay. */
  function BeatInReplay(at: Timestamp): System
  {
    var e := Entry(RECEIVER, at, "a");
    System(H.Model([[e]], Some(0), [RawMessage(HEARTBEAT, at, "")], 96), [e], [], false, false, [], BLANK, false)
  }

  lemma BeatsInReplay(at: Timestamp)
    ensures Step(Step(ReceivedOne(at), Select(0, at)), Beat(at)) == BeatInReplay(at)
  {
    ClearlyOne(at);
  }

  lemma GivesUpInReplay(at: Timestamp)
    ensures Step(Step(BeatInReplay(at), Take), Push(false)) == GivenUpInReplay(at)
  {
  }

  lemma TwoMore(life: nat, past: seq<Action>, mid: seq<Action>, all: seq<Action>, a: Action, b: Action)
    requires mid == past + [a] && all == mid + [b]
    ensures Run(life, all) == Step(Step(Run(life, past), a), b)
  {
    RunSnoc(life, past, a);
    RunSnoc(life, mid, b);
  }

  /** Giving up in the middle of a replay, with no stop anywhere, loses the rest of it. */
  lemma ReplayAfterGivingUp(at: Timestamp)
    ensures Run(100, [Create(0), Receive(0, "a", at), Select(0, at), Beat(at), Take, Push(false)]) == GivenUpInReplay(at)
    ensures var s := Step(GivenUpInReplay(at), ReplayNext);
            s.mainDone && s.handler.life > 0 && s.replay == [] && !Replicated(s)
  {
    var all := [Create(0), Receive(0, "a", at), Select(0, at), Beat(at), Take, Push(false)];
    ReceivedOneIsReached(at);
    TwoMore(100, all[..2], all[..3], all[..4], all[2], all[3]);
    BeatsInReplay(at);
    TwoMore(100, all[..4], all[..5], all, all[4], all[5]);
    GivesUpInReplay(at);
    var t := Step(GivenUpInReplay(at), ReplayNext);
    assert Pending(t) == [] && EndsOn(t) == BLANK;
  }

  /** The state after a failed send that destroyed only a heartbeat. */
  function HeartbeatLost(): System
  {
    Opened(95).(mainDone := true)
  }

  lemma HeartbeatIsLost(at: Timestamp)
    ensures Run(100, [Create(0), Select(0, at), Beat(at), Take, Push(false)]) == HeartbeatLost()
    ensures Replicated(HeartbeatLost())
  {
    OpenedIsReached(98, at);
    var open := [Create(0), Select(0, at)];
    ClearlyOne(at);
    RunSnoc(100, open, Beat(at));
    RunSnoc(100, open + [Beat(at)], Take);
    RunSnoc(100, open + [Beat(at)] + [Take], Push(false));
    assert open + [Beat(at)] + [Take] + [Push(false)] == [Create(0), Select(0, at), Beat(at), Take, Push(false)];
  }

  lemma ClearlyOne(at: Timestamp)
    ensures Pieces(HEARTBEAT, "", at) == [RawMessage(HEARTBEAT, at, "")]
  {
  }

  /** The replica survives that, is lost with the next text, and comes back with an empty conversation. */
  lemma LostAndRegained(at: Timestamp)
    ensures Inv(HeartbeatLost()) && Whole(HeartbeatLost())
    ensures var sent := Step(HeartbeatLost(), Send(0, "a", at));
            && sent.handler.life > 0 && !Replicated(sent)
            && var other := Step(Step(sent, Create(1)), Select(1, at));
               other.replay == [] && Replicated(other)
  {
    HeartbeatIsLost(at);
    RunKeepsInv(100, [Create(0), Select(0, at), Beat(at), Take, Push(false)]);
    ReplicatedIs(HeartbeatLost());
    var sent := Step(HeartbeatLost(), Send(0, "a", at));
    assert [] + [Entry(SENDER, at, "a")] == [Entry(SENDER, at, "a")];
    assert sent.handler.messages == [[Entry(SENDER, at, "a")]];
    var created := Step(sent, Create(1));
    assert created.handler.messages == [[Entry(SENDER, at, "a")], []];
  }

  // ------------------------------------------------------------------ progress

  function RunFrom(s: System, actions: seq<Action>): System
    decreases |actions|
  {
    if actions == [] then s else RunFrom(Step(s, actions[0]), actions[1..])
  }

  lemma {:induction false} RunFromConcat(s: System, a: seq<Action>, b: seq<Action>)
    ensures RunFrom(s, a + b) == RunFrom(RunFrom(s, a), b)
    decreases |a|
  {
    if a == [] {
      assert a + b == b;
    } else {
      assert (a + b)[1..] == a[1..] + b;
      RunFromConcat(Step(s, a[0]), a[1..], b);
    }
  }

  /** The main loop sends the whole batch in hand when every send succeeds and no stop lands. */
  lemma {:induction false} Pushed(s: System) returns (actions: seq<Action>)
    requires !s.mainDone && s.handler.life >= |s.inHand|
    ensures forall i :: 0 <= i < |actions| ==> actions[i] == Push(true)
    ensures RunFrom(s, actions) ==
            s.(handler := s.handler.(life := s.handler.life - |s.inHand|), inHand := [], pipe := s.pipe + s.inHand)
    decreases |s.inHand|
  {
    if s.inHand == [] {
      actions := [];
      assert s.pipe + [] == s.pipe;
    } else {
      var t := Step(s, Push(true));
      var rest := Pushed(t);
      actions := [Push(true)] + rest;
      assert actions[1..] == rest;
      assert s.pipe + [s.inHand[0]] + s.inHand[1..] == s.pipe + s.inHand;
    }
  }

  /** The display handles all that is in the pipe when it accepts all of it. */
  lemma {:induction false} Shown(s: System) returns (actions: seq<Action>)
    requires !s.displayDone && Feed(s.display, s.pipe).ok
    ensures forall i :: 0 <= i < |actions| ==> actions[i] == Show
    ensures RunFrom(s, actions) == s.(display := Feed(s.display, s.pipe).display, pipe := [])
    decreases |s.pipe|
  {
    if s.pipe == [] {
      actions := [];
    } else {
      var rest := Shown(Step(s, Show));
      actions := [Show] + rest;
      assert actions[1..] == rest;
    }
  }

  /**
   From every state as above, as long as no stop lands for as many reads as there are messages, the
   steps of main loop and display alone bring the selected conversation onto the screen.
   */
  lemma CanCatchUp(s: System) returns (actions: seq<Action>)
    requires Inv(s) && !s.mainDone && !s.displayDone && s.replay == []
    requires s.handler.life > |s.inHand| + |s.handler.queue| + 1
    ensures forall i :: 0 <= i < |actions| ==> actions[i] in {Push(true), Take, Show}
    ensures var t := RunFrom(s, actions);
            && t.display == Display([], H.Shown(s.handler)) && Pending(t) == [] && !t.mainDone
            && t.handler == s.handler.(queue := [], life := t.handler.life) && t.handler.life > 0
  {
    var first := Pushed(s);
    var s1 := RunFrom(s, first);
    var s2 := Step(s1, Take);
    assert s2.inHand == s.handler.queue && s2.handler.queue == [];
    var second := Pushed(s2);
    var s3 := RunFrom(s2, second);
    assert s3.pipe == s.pipe + s.inHand + s.handler.queue == Pending(s);
    var n: nat :| Reached(s, n);
    assert H.Shown(s.handler)[..n] == H.Shown(s.handler);
    var third := Shown(s3);
    actions := first + [Take] + second + third;
    JoinRuns(s, first, second, third);
  }

  lemma JoinRuns(s: System, a: seq<Action>, b: seq<Action>, c: seq<Action>)
    ensures RunFrom(s, a + [Take] + b + c) == RunFrom(RunFrom(Step(RunFrom(s, a), Take), b), c)
  {
    RunFromConcat(s, a + [Take] + b, c);
    RunFromConcat(s, a + [Take], b);
    RunFromConcat(s, a, [Take]);
    assert [Take][1..] == [];
  }

  // -------------------------------------------------------- whatever happens

  /**
   In every reachable state, stopped or not, the screen shows the beginning of one stored
   conversation: entries of two contacts are never mixed, reordered or repeated.
   */
  lemma ScreenShowsOneConversation(life: nat, actions: seq<Action>)
    ensures ShowsOne(Run(life, actions).display.screen, Run(life, actions).handler.messages)
  {
    RunKeepsInv(life, actions);
  }

  /** The display never refuses a message of the handler other than the farewell. */
  lemma DisplayNeverRefuses(life: nat, actions: seq<Action>)
    ensures var s := Run(life, actions);
            s.pipe != [] ==> Handle(s.display, s.pipe[0]).ok || s.pipe[0].kind == GOODBYE
  {
    RunKeepsInv(life, actions);
    var s := Run(life, actions);
    if s.pipe != [] { assert Pending(s)[0] == s.pipe[0]; }
  }

  /**
   The terminal itself: a display process in a reachable state as above that consumes
   everything in flight ends up with exactly the rendering of the selected conversation.
   */
  method CatchUp(chat: ChatScreen.Chat, ghost life: nat, ghost actions: seq<Action>, pending: seq<Message>)
    requires chat.Valid() && chat.State() == Run(life, actions).display
    requires var s := Run(life, actions); s.handler.life > 0 && !s.mainDone && s.replay == []
    requires pending == Pending(Run(life, actions))
    modifies chat, chat.mOutputStream
    ensures chat.mChunks == []
    ensures chat.mOutputStream.text ==
            ChatScreen.RenderedAll(H.Shown(Run(life, actions).handler), chat.mWidth, chat.mSideWidth)
  {
    ScreenIsReplica(life, actions);
    var ok := chat.Consume(pending);
  }
}
