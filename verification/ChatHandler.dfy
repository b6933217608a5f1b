/**
 `TTChatHandler` (chat/src/TTChatHandler.cpp): per-contact storage, the selected contact and
 the queue of messages for the display process.

 The stop flag may be raised by another thread at any moment. `life` is the number of
 further `isStopped()` reads that still find it lowered, so a statement for every `life`
 is a statement for every moment at which the stop can land, also inside an operation.
 */
module ChatHandlers {
  import opened Common
  import opened ChatMessages

  datatype Model = Model(messages: seq<seq<Entry>>, current: Option<nat>, queue: seq<Message>, life: nat)

  datatype Result = Result(model: Model, ok: bool)

  function Look(h: Model): Result
  {
    if h.life == 0 then Result(h, false) else Result(h.(life := h.life - 1), true)
  }

  /** The generic `send`: nothing is queued once the stop has landed. */
  function Enqueue(h: Model, kind: Kind, data: string, timestamp: Timestamp): Result
  {
    var look := Look(h);
    if !look.ok then look
    else Result(look.model.(queue := h.queue + Pieces(kind, data, timestamp)), true)
  }

  function Store(h: Model, id: nat, e: Entry): Model
    requires id < |h.messages|
  {
    h.(messages := h.messages[id := h.messages[id] + [e]])
  }

  function Send(h: Model, id: nat, text: string, timestamp: Timestamp): Result
  {
    var look := Look(h);
    if !look.ok || h.current != Some(id) || id >= |h.messages| then look.(ok := false)
    else Enqueue(Store(look.model, id, Entry(SENDER, timestamp, text)), SENDER, text, timestamp)
  }

  function Receive(h: Model, id: nat, text: string, timestamp: Timestamp): Result
  {
    var look := Look(h);
    if !look.ok || id >= |h.messages| then look.(ok := false)
    else
      var stored := Store(look.model, id, Entry(RECEIVER, timestamp, text));
      if h.current == Some(id) then Enqueue(stored, RECEIVER, text, timestamp) else Result(stored, true)
  }

  /** Queues the entries one by one, until the stop lands. */
  function Replay(h: Model, entries: seq<Entry>): Result
    decreases |entries|
  {
    if entries == [] then Result(h, true)
    else
      var first := Enqueue(h, entries[0].kind, entries[0].data, entries[0].timestamp);
      if first.ok then Replay(first.model, entries[1..]) else first
  }

  /** The part of `select` before its loop: the entries still to be replayed, if it goes that far. */
  datatype Begun = Begun(model: Model, replay: seq<Entry>, ok: bool)

  function Begin(h: Model, id: nat, now: Timestamp): Begun
  {
    var look := Look(h);
    if !look.ok || id >= |h.messages| then Begun(look.model, [], false)
    else if h.current == Some(id) then Begun(look.model, [], true)
    else
      var cleared := if h.current.Some? then Enqueue(look.model, CLEAR, "", now) else look;
      if !cleared.ok then Begun(cleared.model, [], false)
      else Begun(cleared.model.(current := Some(id)), h.messages[id], true)
  }

  function Select(h: Model, id: nat, now: Timestamp): Result
  {
    var begun := Begin(h, id, now);
    if begun.ok then Replay(begun.model, begun.replay) else Result(begun.model, false)
  }

  function Create(h: Model, id: nat): Result
  {
    var look := Look(h);
    if !look.ok || id != |h.messages| then look.(ok := false)
    else Result(look.model.(messages := h.messages + [[]]), true)
  }

  /** Only the next free id is accepted, and nothing once the stop has landed. */
  lemma CreateExactly(h: Model, id: nat)
    ensures var r := Create(h, id);
            && (r.ok <==> h.life > 0 && id == |h.messages|)
            && r.model.messages == (if r.ok then h.messages + [[]] else h.messages)
            && r.model.queue == h.queue && r.model.current == h.current
  {
  }

  /** The conversation the screen should show. */
  function Shown(h: Model): seq<Entry>
  {
    if h.current.Some? && h.current.value < |h.messages| then h.messages[h.current.value] else []
  }

  // ----------------------------------------------------------------- queues

  /** The POSIX queue between the processes: first in, first out; a send may fail. */
  class MessageQueue {
    var items: seq<Message>
    ghost var refusals: nat

    constructor ()
      ensures items == [] && refusals == 0
    {
      items, refusals := [], 0;
    }

    method Send(m: Message) returns (ok: bool)
      modifies this
      ensures items == if ok then old(items) + [m] else old(items)
      ensures refusals == if ok then old(refusals) else old(refusals) + 1
    {
      ok := *;
      if ok { items := items + [m]; } else { refusals := refusals + 1; }
    }
  }

  /** `messages` are the pieces of `data` before position `from`. */
  ghost predicate CutSoFar(messages: seq<Message>, kind: Kind, data: string, from: nat, timestamp: Timestamp)
  {
    && from <= |data|
    && if from == 0 then messages == []
       else messages + Pieces(kind, data[from..], timestamp) == Pieces(kind, data, timestamp)
  }

  lemma PiecesStep(kind: Kind, data: string, from: nat, timestamp: Timestamp)
    requires 0 < from && from + MAX_DATA_LENGTH < |data|
    ensures Pieces(kind, data[from..], timestamp) ==
            [RawMessage(Next(kind), timestamp, data[from..from + MAX_DATA_LENGTH])]
            + Pieces(kind, data[from + MAX_DATA_LENGTH..], timestamp)
  {
    DropTake(data, from, MAX_DATA_LENGTH);
    DropDrop(data, from, MAX_DATA_LENGTH);
  }

  lemma CutNext(messages: seq<Message>, kind: Kind, data: string, from: nat, timestamp: Timestamp)
    requires CutSoFar(messages, kind, data, from, timestamp) && from + MAX_DATA_LENGTH < |data|
    ensures CutSoFar(messages + [RawMessage(Next(kind), timestamp, data[from..from + MAX_DATA_LENGTH])],
                     kind, data, from + MAX_DATA_LENGTH, timestamp)
  {
    if from > 0 {
      PiecesStep(kind, data, from, timestamp);
      ConcatAssoc(messages, [RawMessage(Next(kind), timestamp, data[from..from + MAX_DATA_LENGTH])],
                  Pieces(kind, data[from + MAX_DATA_LENGTH..], timestamp));
    }
  }

  lemma CutLast(messages: seq<Message>, kind: Kind, data: string, from: nat, timestamp: Timestamp)
    requires CutSoFar(messages, kind, data, from, timestamp) && |data| - from <= MAX_DATA_LENGTH
    ensures messages + [RawMessage(kind, timestamp, data[from..])] == Pieces(kind, data, timestamp)
  {
  }

  // ---------------------------------------------------------------- handler

  class ChatHandler {
    var mMessages: seq<seq<Entry>>
    var mCurrentId: Option<nat>
    var mQueuedMessages: seq<Message>
    var life: nat

    function State(): Model
      reads this
    {
      Model(mMessages, mCurrentId, mQueuedMessages, life)
    }

    constructor (life: nat)
      ensures State() == Model([], None, [], life)
    {
      mMessages, mCurrentId, mQueuedMessages := [], None, [];
      this.life := life;
    }

    method IsStopped() returns (stopped: bool)
      modifies this`life
      ensures Result(State(), !stopped) == Look(old(State()))
    {
      stopped := life == 0;
      if !stopped { life := life - 1; }
    }

    method Stop()
      modifies this`life
      ensures State() == old(State()).(life := 0)
    {
      life := 0;
    }

    method SendMessage(id: nat, message: string, timestamp: Timestamp) returns (ok: bool)
      modifies this
      ensures Result(State(), ok) == Send(old(State()), id, message, timestamp)
    {
      var stopped := IsStopped();
      if stopped { return false; }
      if mCurrentId == None || mCurrentId.value != id { return false; }
      if id >= |mMessages| { return false; }
      mMessages := mMessages[id := mMessages[id] + [Entry(SENDER, timestamp, message)]];
      ok := QueueText(SENDER, message, timestamp);
    }

    method ReceiveMessage(id: nat, message: string, timestamp: Timestamp) returns (ok: bool)
      modifies this
      ensures Result(State(), ok) == Receive(old(State()), id, message, timestamp)
    {
      var stopped := IsStopped();
      if stopped { return false; }
      if id >= |mMessages| { return false; }
      mMessages := mMessages[id := mMessages[id] + [Entry(RECEIVER, timestamp, message)]];
      if mCurrentId.Some? && mCurrentId.value == id {
        ok := QueueText(RECEIVER, message, timestamp);
        if !ok { return false; }
      }
      return true;
    }

    method SelectContact(id: nat, now: Timestamp) returns (ok: bool)
      modifies this
      ensures Result(State(), ok) == Select(old(State()), id, now)
    {
      var stopped := IsStopped();
      if stopped { return false; }
      if id >= |mMessages| { return false; }
      if mCurrentId.Some? && mCurrentId.value == id { return true; }
      if mCurrentId.Some? {
        ok := QueueText(CLEAR, "", now);
        if !ok { return false; }
      }
      mCurrentId := Some(id);
      ghost var start := State();
      var storage := mMessages[id];
      for i := 0 to |storage|
        invariant unchanged(`mMessages) && mCurrentId == Some(id)
        invariant Replay(State(), storage[i..]) == Replay(start, storage)
      {
        ok := QueueText(storage[i].kind, storage[i].data, storage[i].timestamp);
        assert storage[i..][1..] == storage[i + 1..];
        if !ok { return false; }
      }
      assert storage[|storage|..] == [];
      return true;
    }

    method CreateStorage(id: nat) returns (ok: bool)
      modifies this
      ensures Result(State(), ok) == Create(old(State()), id)
    {
      var stopped := IsStopped();
      if stopped { return false; }
      if id != |mMessages| { return false; }
      mMessages := mMessages + [[]];
      return true;
    }

    /** Declared to return a boolean: it only tells whether there is any storage. */
    method Size() returns (some: bool)
      ensures some <==> mMessages != []
    {
      some := |mMessages| != 0;
    }

    method Get(id: nat) returns (entries: Option<seq<Entry>>)
      ensures entries == if id < |mMessages| then Some(mMessages[id]) else None
    {
      if id >= |mMessages| { return None; }
      return Some(mMessages[id]);
    }

    method Current() returns (id: Option<nat>)
      ensures id == mCurrentId
    {
      return mCurrentId;
    }

    /** The generic `send`: counts full chunks, keeps the last one back when nothing else is left. */
    method QueueText(kind: Kind, data: string, timestamp: Timestamp) returns (ok: bool)
      modifies this`life, this`mQueuedMessages
      ensures Result(State(), ok) == Enqueue(old(State()), kind, data, timestamp)
    {
      var stopped := IsStopped();
      if stopped { return false; }
      var messages := Cut(kind, data, timestamp);
      mQueuedMessages := mQueuedMessages + messages;
      return true;
    }

    /** The counting: the last full chunk is kept back when nothing else would close the text. */
    static method Count(size: nat) returns (full: nat, fullLength: nat, lastLength: nat)
      ensures fullLength == MAX_DATA_LENGTH * full && fullLength + lastLength == size
      ensures lastLength <= MAX_DATA_LENGTH
      ensures full > 0 ==> lastLength > 0
    {
      full := size / MAX_DATA_LENGTH;
      fullLength := full * MAX_DATA_LENGTH;
      lastLength := size - fullLength;
      if full != 0 && lastLength == 0 {
        full := full - 1;
        fullLength := fullLength - MAX_DATA_LENGTH;
        lastLength := MAX_DATA_LENGTH;
      }
    }

    static method Cut(kind: Kind, data: string, timestamp: Timestamp) returns (messages: seq<Message>)
      ensures messages == Pieces(kind, data, timestamp)
    {
      var full, fullLength, lastLength := Count(|data|);
      messages := [];
      for i := 0 to full
        invariant MAX_DATA_LENGTH * i <= |data|
        invariant CutSoFar(messages, kind, data, MAX_DATA_LENGTH * i, timestamp)
      {
        var from := MAX_DATA_LENGTH * i;
        CutNext(messages, kind, data, from, timestamp);
        messages := messages + [RawMessage(Next(kind), timestamp, data[from..from + MAX_DATA_LENGTH])];
      }
      CutLast(messages, kind, data, fullLength, timestamp);
      messages := messages + [RawMessage(kind, timestamp, data[fullLength..])];
    }

    /** The inner loop of `dequeue`, under the lock of the queue. */
    method Drain() returns (list: seq<Message>)
      modifies this`mQueuedMessages
      ensures list == old(mQueuedMessages) && mQueuedMessages == []
    {
      list := [];
      while mQueuedMessages != []
        invariant list + mQueuedMessages == old(mQueuedMessages)
        decreases |mQueuedMessages|
      {
        list := list + [mQueuedMessages[0]];
        mQueuedMessages := mQueuedMessages[1..];
      }
    }

    /**
     `dequeue`: everything queued is taken, in order; when the wait times out on an empty queue a
     heartbeat is queued first and the loop waits once more. The lock is free in between: other
     threads queue `before` ahead of the heartbeat and `after` behind it. `None` is the exception
     that ends `main`: it takes a stop before the last of the one or three looks at the flag.
     */
    method Dequeue(now: Timestamp, before: seq<Message>, after: seq<Message>) returns (messages: Option<seq<Message>>)
      modifies this`life, this`mQueuedMessages
      ensures var looks := if old(mQueuedMessages) != [] then 1 else 3;
              && (messages.Some? <==> old(life) >= looks)
              && life == if old(life) >= looks then old(life) - looks else 0
      ensures var all := if old(mQueuedMessages) != [] then old(mQueuedMessages)
                         else before + [RawMessage(HEARTBEAT, now, "")] + after;
              match messages
              case Some(list) => list == all && mQueuedMessages == []
              case None => mQueuedMessages == if old(life) == 0 then old(mQueuedMessages) else if old(life) == 1 then before else all
    {
      var predicate_ := mQueuedMessages != [];
      var stopped := IsStopped();
      if stopped { return None; }
      if !predicate_ {
        mQueuedMessages := before;
        var ok := QueueText(HEARTBEAT, "", now);
        if !ok { return None; }
        mQueuedMessages := mQueuedMessages + after;
        stopped := IsStopped();
        if stopped { return None; }
      }
      var list := Drain();
      return Some(list);
    }

    /**
     The inner loop of `main`: the first `sent` messages reach the pipe, in order, and all of them unless
     the next one finds the handler stopped or is refused by the pipe.
     */
    method SendBatch(messages: seq<Message>, pipe: MessageQueue) returns (exit: bool, sent: nat)
      modifies this`life, pipe
      ensures sent <= |messages| && pipe.items == old(pipe.items) + messages[..sent] && old(life) >= sent
      ensures exit <==> sent < |messages|
      ensures exit ==> if old(life) == sent then pipe.refusals == old(pipe.refusals) else pipe.refusals == old(pipe.refusals) + 1
      ensures !exit ==> pipe.refusals == old(pipe.refusals)
      ensures life == if exit && old(life) > sent then old(life) - sent - 1 else old(life) - sent
    {
      sent := 0;
      while sent < |messages|
        invariant sent <= |messages| && life == old(life) - sent
        invariant pipe.items == old(pipe.items) + messages[..sent] && pipe.refusals == old(pipe.refusals)
      {
        var stopped := IsStopped();
        if stopped { return true, sent; }
        var ok := pipe.Send(messages[sent]);
        if !ok { return true, sent; }
        assert messages[..sent + 1] == messages[..sent] + [messages[sent]];
        sent := sent + 1;
      }
      return false, sent;
    }
  }
}
