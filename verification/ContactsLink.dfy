/**
 End to end: the contacts handler, its queue and main loop, the shared memory link and the
 contacts process, interleaved in every possible way, with every possible system failure.
 */
module ContactsLink {
  import opened Common
  import opened ContactStates
  import opened ContactsReplica
  import H = ContactsHandlers
  import opened SharedMemory

  // ---------------------------------------------------------------- the record

  const HEADER: nat := 4
  const RECORD: nat := 260

  function StateCode(s: State): int
  {
    match s
    case ACTIVE => 0
    case INACTIVE => 1
    case SELECTED_ACTIVE => 2
    case SELECTED_INACTIVE => 3
    case UNREAD_MSG_ACTIVE => 4
    case UNREAD_MSG_INACTIVE => 5
    case PENDING_MSG_INACTIVE => 6
    case SELECTED_PENDING_MSG_INACTIVE => 7
  }

  function StateOf(code: int): Option<State>
  {
    match code
    case 0 => Some(ACTIVE)
    case 1 => Some(INACTIVE)
    case 2 => Some(SELECTED_ACTIVE)
    case 3 => Some(SELECTED_INACTIVE)
    case 4 => Some(UNREAD_MSG_ACTIVE)
    case 5 => Some(UNREAD_MSG_INACTIVE)
    case 6 => Some(PENDING_MSG_INACTIVE)
    case 7 => Some(SELECTED_PENDING_MSG_INACTIVE)
    case _ => None
  }

  /** A message that its fixed record can hold. */
  predicate Storable(m: Message)
  {
    m.Change? ==> Fits(m.nickname)
  }

  function CellChar(cell: Cell): char
  {
    if 0 <= cell < 0xD800 || 0xE000 <= cell < 0x11_0000 then cell as char else '?'
  }

  /** Status, state, identity, nickname length, then the zero-filled nickname buffer. */
  function Encode(m: Message): (b: Block)
    requires Storable(m)
    ensures |b| == RECORD
  {
    var status := match m case Change(_, _, _) => 0 case Heartbeat => 1 case Goodbye => 2;
    var state := if m.Change? then StateCode(m.state) else 0;
    var identity := if m.Change? then m.identity else 0;
    var nickname := if m.Change? then m.nickname else "";
    [status, state, identity, |nickname|]
    + seq(NICKNAME_LIMIT, i requires 0 <= i => if i < |nickname| then nickname[i] as int else 0)
  }

  /** None for the unknown status that ends the display. */
  function Decode(b: Block): Option<Message>
  {
    if |b| != RECORD then None
    else if b[0] == 1 then Some(Heartbeat)
    else if b[0] == 2 then Some(Goodbye)
    else if b[0] != 0 || StateOf(b[1]).None? || b[2] < 0 || !(0 <= b[3] < NICKNAME_LIMIT) then None
    else Some(Change(StateOf(b[1]).value, b[2], seq(b[3], i requires 0 <= i < b[3] => CellChar(b[HEADER + i]))))
  }

  lemma CharOfCell(c: char)
    ensures CellChar(c as int) == c
  {
  }

  lemma RecordRoundTrip(m: Message)
    requires Storable(m)
    ensures Decode(Encode(m)) == Some(m)
  {
    if m.Change? {
      var b := Encode(m);
      var d := Decode(b).value;
      forall i | 0 <= i < |m.nickname| ensures d.nickname[i] == m.nickname[i] {
        assert b[HEADER + i] == m.nickname[i] as int;
        CharOfCell(m.nickname[i]);
      }
      assert d.nickname == m.nickname;
    }
  }

  // ---------------------------------------------------------------- the system

  /**
   `handed` are the messages given to the link so far, the connecting heartbeat first and the
   goodbye last; `inHand` is the rest of the batch; `handled` counts the received records the
   display has handled.
   */
  datatype System = System(
    handler: H.Model, inHand: seq<Message>, handed: seq<Message>, farewell: bool, mainDone: bool,
    link: Link, entries: seq<Entry>, handled: nat, readerDone: bool)

  datatype Event =
    | Operate(op: H.Operation)             // a handler operation, a heartbeat or a stop
    | Take(attempts: nat)                  // main: swap the queue, or the forced exit
    | SendNext(attempts: nat)              // main: the next message of the batch, or the forced exit
    | Leave                                // main: hard failure of the link
    | Link(a: Action)                      // any step inside send or receive
    | Handle                               // display: handle what was received
    | StopReader

  predicate Allowed(e: Event)
  {
    match e
    case Operate(op) => H.Legal(op) && !op.DoDrain?
    case Link(a) => !a.BeginSend?
    case _ => true
  }

  function Start(life: nat): System
  {
    System(H.Initial(life), [], [Heartbeat], false, false,
           Step(Fresh(RECORD), BeginSend(Encode(Heartbeat), 5)), [], 0, false)
  }

  predicate MainReady(s: System)
  {
    s.link.sender.SIdle? && !s.farewell && !s.mainDone
  }

  function HandOver(s: System, m: Message, attempts: nat): System
    requires Storable(m)
  {
    s.(handed := s.handed + [m], link := Step(s.link, BeginSend(Encode(m), attempts)))
  }

  /** The forced exit: the goodbye is the last message handed over. */
  function ForcedExit(s: System, attempts: nat): System
  {
    HandOver(s, Goodbye, attempts).(farewell := true, inHand := [])
  }

  function TakeStep(s: System, attempts: nat): System
  {
    if !MainReady(s) || s.inHand != [] then s
    else if s.handler.life == 0 then ForcedExit(s, attempts)
    else s.(handler := s.handler.(life := s.handler.life - 1, queue := []), inHand := s.handler.queue)
  }

  function SendStep(s: System, attempts: nat): System
    requires s.inHand != [] ==> Storable(s.inHand[0])
  {
    if !MainReady(s) || s.inHand == [] then s
    else if s.handler.life == 0 then ForcedExit(s, attempts)
    else HandOver(s.(handler := s.handler.(life := s.handler.life - 1), inHand := s.inHand[1..]), s.inHand[0], attempts)
  }

  function LinkStep(s: System, a: Action): System
  {
    if a.BeginReceive? && (s.readerDone || s.handled != |s.link.received|) then s
    else s.(link := Step(s.link, a))
  }

  /** Handling the next received record; None of these accesses may be out of bounds. */
  function HandleStep(s: System): System
    requires Handleable(s)
  {
    if s.readerDone || s.handled >= |s.link.received| then s
    else
      var m := Decode(s.link.received[s.handled]);
      if m.None? then s.(readerDone := true)
      else s.(entries := Apply(s.entries, m.value), handled := s.handled + 1, readerDone := m.value.Goodbye?)
  }

  /**
   This is what the display's own code does with a message it can decode and whose refresh succeeds:
   the list becomes that of `handle`, and only a goodbye ends the loop.
   */
  lemma HandleIsTheDisplays(s: System)
    requires Handleable(s) && !s.readerDone && s.handled < |s.link.received|
    ensures var m, t := Decode(s.link.received[s.handled]), HandleStep(s);
            && (m.None? ==> t.readerDone && t.entries == s.entries)
            && (m.Some? ==>
                  && (t.readerDone <==> m.value.Goodbye?)
                  && (t.readerDone <==> !GoesOn(m.value, true))
                  && Accessible(s.entries, [Round(m, true)], 1)
                  && t.entries == Loop(s.entries, [Round(m, true)], 1))
  {
    var m := Decode(s.link.received[s.handled]);
    if m.Some? {
      assert [Round(m, true)][1..] == [];
      assert GoesOn(m.value, true) ==> Accessible(Apply(s.entries, m.value), [Round(m, true)][1..], 0);
    }
  }

  predicate Handleable(s: System)
  {
    !s.readerDone && s.handled < |s.link.received| && Decode(s.link.received[s.handled]).Some? ==>
      InBounds(s.entries, Decode(s.link.received[s.handled]).value)
  }

  function Next(s: System, e: Event): System
    requires H.Bounded(s.handler) && Handleable(s)
    requires s.inHand != [] ==> Storable(s.inHand[0])
  {
    match e
    case Operate(op) => s.(handler := H.Step(s.handler, op))
    case Take(attempts) => TakeStep(s, attempts)
    case SendNext(attempts) => SendStep(s, attempts)
    case Leave => if s.link.sender.SDead? then s.(mainDone := true, inHand := [], handler := s.handler.(life := 0)) else s
    case Link(a) => LinkStep(s, a)
    case Handle => HandleStep(s)
    case StopReader => s.(readerDone := true)
  }

  // ----------------------------------------------------------------- invariant

  ghost predicate AllStorable(messages: seq<Message>)
  {
    forall i :: 0 <= i < |messages| ==> Storable(messages[i])
  }

  /** What a handler emits: messages that fit their record, and never a goodbye. */
  ghost predicate AllPlain(messages: seq<Message>)
  {
    forall i :: 0 <= i < |messages| ==> Storable(messages[i]) && !messages[i].Goodbye?
  }

  /** The connecting heartbeat comes first, the goodbye of a forced exit last. */
  ghost predicate Framed(handed: seq<Message>, farewell: bool)
  {
    && handed != [] && handed[0] == Heartbeat
    && (farewell ==> |handed| >= 2 && handed[|handed| - 1] == Goodbye)
  }

  /** The emitted messages among those handed over. */
  ghost function Core(handed: seq<Message>, farewell: bool): seq<Message>
    requires Framed(handed, farewell)
  {
    if farewell then handed[1..|handed| - 1] else handed[1..]
  }

  ghost function Passed(s: System): nat
    requires Framed(s.handed, s.farewell)
  {
    |Core(s.handed, s.farewell)|
  }

  /** What was handed over is the beginning of the emitted stream; the rest waits, until the end. */
  ghost predicate Streams(core: seq<Message>, waiting: seq<Message>, done: bool, emitted: seq<Message>)
  {
    && AllPlain(emitted)
    && core <= emitted
    && (!done ==> core + waiting == emitted)
  }

  ghost predicate StreamInv(s: System)
  {
    && Framed(s.handed, s.farewell)
    && Streams(Core(s.handed, s.farewell), s.inHand + s.handler.queue, s.farewell || s.mainDone, s.handler.emitted)
    && ((s.farewell || s.mainDone) ==> s.inHand == [])
  }

  /** The record of what was posted follows the messages handed over. */
  ghost predicate Records(l: Link, handed: seq<Message>)
  {
    && handed != [] && AllStorable(handed)
    && |handed| - 1 <= |l.posted| <= |handed|
    && (forall i :: 0 <= i < |l.posted| ==> l.posted[i] == Encode(handed[i]))
    && (l.sender.SIdle? || l.sender.SWaiting? ==> |l.posted| == |handed|)
    && (l.sender.SCopying? ==> |l.posted| == |handed| - 1 && l.outgoing == Encode(handed[|handed| - 1]))
  }

  /** What was posted are the records of the messages handed over, in order. */
  ghost predicate PostedInv(s: System)
  {
    && s.link.size == RECORD && Inv(s.link)
    && Records(s.link, s.handed)
  }

  /** The point of the update history the display has reached. */
  ghost function Reached(s: System): nat
    requires Framed(s.handed, s.farewell)
  {
    if s.handled == 0 then 0 else if s.handled - 1 <= Passed(s) then s.handled - 1 else Passed(s)
  }

  ghost predicate ShownInv(s: System)
    requires Framed(s.handed, s.farewell)
  {
    && s.handled <= |s.link.received|
    && Reached(s) < |s.handler.snapshots|
    && s.entries == s.handler.snapshots[Reached(s)]
  }

  ghost predicate SystemInv(s: System)
  {
    H.Inv(s.handler) && StreamInv(s) && PostedInv(s) && ShownInv(s)
  }

  // -------------------------------------------------------------- preservation

  /** What any operation appends to the queue and to the record of emitted messages. */
  ghost predicate Appends(m: H.Model, n: H.Model, added: seq<Message>)
  {
    && n.queue == m.queue + added && n.emitted == m.emitted + added && AllPlain(added)
    && m.snapshots <= n.snapshots
  }

  lemma EmitAppends(m: H.Model, message: Message)
    requires Storable(message) && !message.Goodbye?
    ensures Appends(m, H.Emit(m, message).model, if m.life == 0 then [] else [message])
  {
    if m.life == 0 { assert m.queue + [] == m.queue && m.emitted + [] == m.emitted; }
  }

  lemma NothingAppended(m: H.Model, n: H.Model)
    requires n.queue == m.queue && n.emitted == m.emitted && n.snapshots == m.snapshots
    ensures Appends(m, n, [])
  {
    assert m.queue + [] == m.queue && m.emitted + [] == m.emitted;
  }

  lemma UpdateAppends(m: H.Model, e: ContactStates.Event) returns (added: seq<Message>)
    requires H.Bounded(m)
    ensures Appends(m, H.Update(m, e).model, added)
  {
    added := [];
    if e.id < |m.contacts| && On(e, m.contacts[e.id].state).Some? {
      var after := On(e, m.contacts[e.id].state).value;
      var n := H.Accept(m, e, after);
      if m.contacts[e.id].state != after {
        added := ToggleAppends(m, n, e.id);
      } else {
        NothingAppended(m, n);
      }
    } else {
      NothingAppended(m, m);
    }
  }

  lemma ToggleAppends(m: H.Model, n: H.Model, id: nat) returns (added: seq<Message>)
    requires n.queue == m.queue && n.emitted == m.emitted && n.snapshots == m.snapshots
    requires id < |n.contacts| && Fits(n.contacts[id].nickname)
    ensures Appends(m, H.Announce(n, id).model, added)
  {
    var message := Change(n.contacts[id].state, id, n.contacts[id].nickname);
    EmitAppends(n, message);
    added := if n.life == 0 then [] else [message];
  }

  lemma AppendsTwice(m: H.Model, n: H.Model, o: H.Model, a: seq<Message>, b: seq<Message>)
    requires Appends(m, n, a) && Appends(n, o, b)
    ensures Appends(m, o, a + b)
  {
    assert m.queue + a + b == m.queue + (a + b) && m.emitted + a + b == m.emitted + (a + b);
  }

  lemma HalfAppends(m: H.Model, e: ContactStates.Event) returns (added: seq<Message>)
    requires H.Bounded(m) && e.id < |m.contacts|
    ensures Appends(m, H.Toggle(m, e).model, added)
    ensures H.Bounded(H.Toggle(m, e).model) && |H.Toggle(m, e).model.contacts| == |m.contacts|
  {
    var after := On(e, m.contacts[e.id].state);
    if after.Some? {
      added := ToggleAppends(m, H.Accept(m, e, after.value), e.id);
    } else {
      added := [];
      NothingAppended(m, m);
    }
  }

  lemma SelectAppends(m: H.Model, id: nat) returns (added: seq<Message>)
    requires H.Bounded(m)
    ensures Appends(m, H.Select(m, id).model, added)
  {
    added := [];
    NothingAppended(m, m.(previous := m.current));
    if id < |m.contacts| {
      var start := m.(previous := m.current);
      var first := [];
      var unselected := H.Result(start, true);
      if m.current.Some? {
        first := HalfAppends(start, Unselected(m.current.value));
        unselected := H.Toggle(start, Unselected(m.current.value));
      } else {
        NothingAppended(m, start);
      }
      if unselected.ok {
        var chosen := unselected.model.(current := Some(id));
        var second := HalfAppends(chosen, Selected(id));
        AppendsTwice(m, chosen, H.Toggle(chosen, Selected(id)).model, first, second);
        added := first + second;
      } else {
        added := first;
      }
    } else {
      NothingAppended(m, m);
    }
  }

  lemma OperationAppends(m: H.Model, op: H.Operation) returns (added: seq<Message>)
    requires H.Bounded(m) && H.Legal(op) && !op.DoDrain?
    ensures Appends(m, H.Step(m, op), added)
  {
    added := [];
    match op {
      case DoCreate(nickname, identity, address) =>
        var message := Change(ACTIVE, |m.contacts|, nickname);
        EmitAppends(H.Grown(m, nickname, identity, address), message);
        added := if m.life == 0 then [] else [message];
      case DoUpdate(e) => added := UpdateAppends(m, e);
      case DoSelect(id) => added := SelectAppends(m, id);
      case DoHeartbeat =>
        if m.life > 0 {
          EmitAppends(m.(life := m.life - 1), Heartbeat);
          added := if m.life == 1 then [] else [Heartbeat];
        } else {
          NothingAppended(m, m);
        }
      case DoStop => NothingAppended(m, H.Step(m, op));
    }
  }

  lemma OperateKeepsInv(s: System, op: H.Operation)
    requires SystemInv(s) && H.Legal(op) && !op.DoDrain?
    ensures SystemInv(s.(handler := H.Step(s.handler, op)))
  {
    var t := s.(handler := H.Step(s.handler, op));
    H.StepKeepsInv(s.handler, op);
    var added := OperationAppends(s.handler, op);
    AppendsKeeps(s, t.handler, added);
  }

  lemma StreamsGrow(core: seq<Message>, waiting: seq<Message>, done: bool, emitted: seq<Message>, added: seq<Message>)
    requires Streams(core, waiting, done, emitted) && AllPlain(added)
    ensures Streams(core, waiting + added, done, emitted + added)
  {
    assert core + (waiting + added) == core + waiting + added;
  }

  lemma AppendsKeeps(s: System, later: H.Model, added: seq<Message>)
    requires SystemInv(s) && Appends(s.handler, later, added)
    ensures StreamInv(s.(handler := later)) && ShownInv(s.(handler := later))
  {
    StreamsGrow(Core(s.handed, s.farewell), s.inHand + s.handler.queue, s.farewell || s.mainDone, s.handler.emitted, added);
    assert s.inHand + s.handler.queue + added == s.inHand + later.queue;
  }

  lemma TakeKeepsInv(s: System, attempts: nat)
    requires SystemInv(s)
    ensures SystemInv(TakeStep(s, attempts))
  {
    if MainReady(s) && s.inHand == [] {
      if s.handler.life == 0 {
        ForcedExitKeepsInv(s, attempts);
      } else {
        var t := TakeStep(s, attempts);
        H.SameContactsKeepInv(s.handler, t.handler);
        assert s.inHand + s.handler.queue == t.inHand + t.handler.queue;
      }
    }
  }

  lemma HandOverKeepsPosted(s: System, m: Message, attempts: nat)
    requires PostedInv(s) && s.link.sender.SIdle? && Storable(m)
    ensures PostedInv(HandOver(s, m, attempts))
  {
    SenderStepKeepsInv(s.link, BeginSend(Encode(m), attempts));
  }

  lemma ForcedExitKeepsInv(s: System, attempts: nat)
    requires SystemInv(s) && MainReady(s)
    ensures SystemInv(ForcedExit(s, attempts))
  {
    var t := ForcedExit(s, attempts);
    HandOverKeepsPosted(s, Goodbye, attempts);
    assert Core(t.handed, true) == Core(s.handed, false);
    assert Core(s.handed, false) <= s.handler.emitted;
  }

  lemma SendKeepsInv(s: System, attempts: nat)
    requires SystemInv(s) && (s.inHand != [] ==> Storable(s.inHand[0]))
    ensures SystemInv(SendStep(s, attempts))
  {
    if MainReady(s) && s.inHand != [] {
      if s.handler.life == 0 {
        ForcedExitKeepsInv(s, attempts);
      } else {
        NextMessageKeepsInv(s, attempts);
      }
    }
  }

  lemma NextMessageKeepsInv(s: System, attempts: nat)
    requires SystemInv(s) && MainReady(s) && s.handler.life > 0
    requires s.inHand != [] && Storable(s.inHand[0])
    ensures SystemInv(SendStep(s, attempts))
  {
    var m := s.inHand[0];
    var u := s.(handler := s.handler.(life := s.handler.life - 1), inHand := s.inHand[1..]);
    var t := HandOver(u, m, attempts);
    H.SameContactsKeepInv(s.handler, u.handler);
    HandOverKeepsPosted(u, m, attempts);
    var core := Core(s.handed, false);
    assert Core(t.handed, false) == core + [m];
    assert core + [m] + (t.inHand + t.handler.queue) == core + (s.inHand + s.handler.queue);
    assert StreamInv(t) && ShownInv(t);
  }

  lemma LinkKeepsInv(s: System, a: Action)
    requires SystemInv(s) && !a.BeginSend?
    ensures SystemInv(LinkStep(s, a))
  {
    if LinkStep(s, a) != s {
      StepKeepsInv(s.link, a);
      LinkStepKeepsPosted(s.link, a, s.handed);
      LinkSideOnly(s, Step(s.link, a));
    }
  }

  lemma LinkSideOnly(s: System, l: Link)
    requires H.Inv(s.handler) && StreamInv(s) && ShownInv(s)
    requires |s.link.received| <= |l.received|
    ensures var t := s.(link := l); H.Inv(t.handler) && StreamInv(t) && ShownInv(t)
  {
  }

  lemma LinkStepKeepsPosted(l: Link, a: Action, handed: seq<Message>)
    requires Records(l, handed) && !a.BeginSend?
    ensures Records(Step(l, a), handed)
    ensures |l.received| <= |Step(l, a).received| && Step(l, a).size == l.size
  {
  }

  /** The next record to handle is the one that turns the snapshot shown into the next one. */
  lemma NextRecord(s: System)
    requires SystemInv(s) && s.handled < |s.link.received|
    ensures Decode(s.link.received[s.handled]) == Some(s.handed[s.handled])
    ensures InBounds(s.entries, s.handed[s.handled])
    ensures var t := s.(entries := Apply(s.entries, s.handed[s.handled]), handled := s.handled + 1); ShownInv(t)
  {
    var k := s.handled;
    var m := s.handed[k];
    assert s.link.received[k] == s.link.posted[k] == Encode(m);
    RecordRoundTrip(m);
    if 1 <= k <= Passed(s) {
      assert m == Core(s.handed, s.farewell)[k - 1] == s.handler.emitted[k - 1];
      SnapshotStep(s.handler.emitted, s.handler.snapshots, k);
    }
  }

  lemma SnapshotStep(emitted: seq<Message>, snapshots: seq<seq<Entry>>, k: nat)
    requires H.RebuildsAll(emitted, snapshots) && 1 <= k <= |emitted|
    ensures InBounds(snapshots[k - 1], emitted[k - 1])
    ensures Apply(snapshots[k - 1], emitted[k - 1]) == snapshots[k]
  {
    assert emitted[..k] == emitted[..k - 1] + [emitted[k - 1]];
    ReplaySnoc(emitted[..k - 1], emitted[k - 1]);
    assert Replay(emitted[..k]) == Some(snapshots[k]);
    assert Replay(emitted[..k - 1]) == Some(snapshots[k - 1]);
  }

  /** The display's own part of the state does not matter to the rest of the system. */
  lemma DisplaySideOnly(s: System, entries: seq<Entry>, handled: nat, readerDone: bool)
    requires H.Inv(s.handler) && StreamInv(s) && PostedInv(s)
    ensures var t := s.(entries := entries, handled := handled, readerDone := readerDone);
            H.Inv(t.handler) && StreamInv(t) && PostedInv(t)
  {
  }

  /** What `HandleStep` does with a record it can decode. */
  lemma HandleStepIs(s: System, m: Message)
    requires !s.readerDone && s.handled < |s.link.received|
    requires Decode(s.link.received[s.handled]) == Some(m) && InBounds(s.entries, m)
    ensures Handleable(s)
    ensures HandleStep(s) == s.(entries := Apply(s.entries, m), handled := s.handled + 1, readerDone := m.Goodbye?)
  {
  }

  lemma HandleKeepsInv(s: System)
    requires SystemInv(s)
    ensures Handleable(s) && SystemInv(HandleStep(s))
  {
    if !s.readerDone && s.handled < |s.link.received| {
      var m := s.handed[s.handled];
      NextRecord(s);
      HandleStepIs(s, m);
      DisplaySideOnly(s, Apply(s.entries, m), s.handled + 1, m.Goodbye?);
    }
  }

  /** Everything `Next` needs is available in every state satisfying the invariant. */
  lemma NextIsDefined(s: System)
    requires SystemInv(s)
    ensures H.Bounded(s.handler) && Handleable(s)
    ensures s.inHand != [] ==> Storable(s.inHand[0])
  {
    HandleKeepsInv(s);
    if s.inHand != [] {
      var core := Core(s.handed, s.farewell);
      assert (core + (s.inHand + s.handler.queue))[|core|] == s.inHand[0];
    }
  }

  lemma LeaveKeepsInv(s: System)
    requires SystemInv(s) && s.link.sender.SDead?
    ensures SystemInv(s.(mainDone := true, inHand := [], handler := s.handler.(life := 0)))
  {
    H.SameContactsKeepInv(s.handler, s.handler.(life := 0));
  }

  lemma NextKeepsInv(s: System, e: Event)
    requires SystemInv(s) && Allowed(e)
    requires H.Bounded(s.handler) && Handleable(s) && (s.inHand != [] ==> Storable(s.inHand[0]))
    ensures SystemInv(Next(s, e))
  {
    match e
    case Operate(op) => OperateKeepsInv(s, op);
    case Take(attempts) => TakeKeepsInv(s, attempts);
    case SendNext(attempts) => SendKeepsInv(s, attempts);
    case Leave => if s.link.sender.SDead? { LeaveKeepsInv(s); }
    case Link(a) => LinkKeepsInv(s, a);
    case Handle => HandleKeepsInv(s);
    case StopReader =>
  }

  lemma StartInv(life: nat)
    ensures SystemInv(Start(life))
  {
    SenderStepKeepsInv(Fresh(RECORD), BeginSend(Encode(Heartbeat), 5));
    H.InitialInv(life);
  }

  /** What `Next` needs to know; it turns out to hold in every reachable state. */
  predicate Ready(s: System)
  {
    H.Bounded(s.handler) && Handleable(s) && (s.inHand != [] ==> Storable(s.inHand[0]))
  }

  /** `states` are the states a run goes through under `events`. */
  ghost predicate IsRun(life: nat, events: seq<Event>, states: seq<System>)
  {
    && |states| == |events| + 1
    && states[0] == Start(life)
    && forall i :: 0 <= i < |events| ==> Allowed(events[i]) && (Ready(states[i]) ==> states[i + 1] == Next(states[i], events[i]))
  }

  lemma {:induction false} RunKeepsInv(life: nat, events: seq<Event>, states: seq<System>, i: nat)
    requires IsRun(life, events, states) && i < |states|
    ensures Ready(states[i]) && SystemInv(states[i])
  {
    if i == 0 {
      StartInv(life);
    } else {
      RunKeepsInv(life, events, states, i - 1);
      assert states[i - 1 + 1] == Next(states[i - 1], events[i - 1]);
      NextKeepsInv(states[i - 1], events[i - 1]);
    }
    NextIsDefined(states[i]);
  }

  // ----------------------------------------------------------------- theorems

  /**
   In every reachable state of the whole system, stopped or not, the display shows exactly
   the handler's contacts as they were at some earlier point of their update history.
   */
  lemma DisplayShowsThePast(life: nat, events: seq<Event>, states: seq<System>, i: nat)
    requires IsRun(life, events, states) && i < |states|
    ensures states[i].entries in states[i].handler.snapshots
    ensures Handleable(states[i])
  {
    RunKeepsInv(life, events, states, i);
    assert states[i].entries == states[i].handler.snapshots[Reached(states[i])];
  }

  /** With nothing left in flight and no stop, the display shows the present. */
  lemma DisplayCatchesUp(life: nat, events: seq<Event>, states: seq<System>, i: nat)
    requires IsRun(life, events, states) && i < |states|
    requires states[i].handler.life > 0 && !states[i].farewell && !states[i].mainDone
    requires states[i].inHand == [] && states[i].handler.queue == [] && states[i].handled == |states[i].handed|
    ensures states[i].entries == H.Projected(states[i].handler.contacts)
  {
    RunKeepsInv(life, events, states, i);
    var s := states[i];
    assert Core(s.handed, false) + (s.inHand + s.handler.queue) == s.handler.emitted;
    assert Reached(s) == Passed(s) == |s.handler.emitted|;
  }

  /** The display of `t` is at the same point of the same history as that of `s`, or later. */
  ghost predicate NotBefore(s: System, t: System)
  {
    && Framed(s.handed, s.farewell) && Framed(t.handed, t.farewell)
    && Reached(s) <= Reached(t) && s.handler.snapshots <= t.handler.snapshots
  }

  lemma HandOverNeverGoesBack(s: System, m: Message, attempts: nat, farewell: bool)
    requires Framed(s.handed, s.farewell) && !s.farewell && Storable(m)
    requires farewell ==> m == Goodbye
    ensures NotBefore(s, HandOver(s, m, attempts).(farewell := farewell, inHand := []))
    ensures NotBefore(s, HandOver(s, m, attempts).(farewell := farewell))
  {
  }

  lemma SendNeverGoesBack(s: System, attempts: nat)
    requires SystemInv(s) && Ready(s)
    ensures NotBefore(s, SendStep(s, attempts))
  {
    if MainReady(s) && s.inHand != [] {
      if s.handler.life == 0 {
        HandOverNeverGoesBack(s, Goodbye, attempts, true);
      } else {
        var u := s.(handler := s.handler.(life := s.handler.life - 1), inHand := s.inHand[1..]);
        HandOverNeverGoesBack(u, s.inHand[0], attempts, false);
        assert NotBefore(s, u);
      }
    }
  }

  lemma TakeNeverGoesBack(s: System, attempts: nat)
    requires SystemInv(s)
    ensures NotBefore(s, TakeStep(s, attempts))
  {
    if MainReady(s) { HandOverNeverGoesBack(s, Goodbye, attempts, true); }
  }

  lemma OperateNeverGoesBack(s: System, op: H.Operation)
    requires H.Bounded(s.handler) && Framed(s.handed, s.farewell) && H.Legal(op) && !op.DoDrain?
    ensures NotBefore(s, s.(handler := H.Step(s.handler, op)))
  {
    var added := OperationAppends(s.handler, op);
  }

  lemma LinkNeverGoesBack(s: System, l: Link)
    requires Framed(s.handed, s.farewell)
    ensures NotBefore(s, s.(link := l))
  {
  }

  lemma DisplayGoesOn(s: System, entries: seq<Entry>, handled: nat, readerDone: bool)
    requires Framed(s.handed, s.farewell) && handled >= s.handled
    ensures NotBefore(s, s.(entries := entries, handled := handled, readerDone := readerDone))
  {
  }

  lemma HandleNeverGoesBack(s: System)
    requires Framed(s.handed, s.farewell) && Handleable(s)
    ensures NotBefore(s, HandleStep(s))
  {
    var t := HandleStep(s);
    DisplayGoesOn(s, t.entries, t.handled, t.readerDone);
    assert t == s.(entries := t.entries, handled := t.handled, readerDone := t.readerDone);
  }

  lemma LeaveNeverGoesBack(s: System)
    requires Framed(s.handed, s.farewell)
    ensures NotBefore(s, s.(mainDone := true, inHand := [], handler := s.handler.(life := 0)))
  {
  }

  /** Time never runs backwards on the display. */
  lemma DisplayNeverGoesBack(s: System, e: Event)
    requires SystemInv(s) && Ready(s) && Allowed(e)
    ensures NotBefore(s, Next(s, e))
  {
    match e
    case Operate(op) => OperateNeverGoesBack(s, op);
    case Take(attempts) => TakeNeverGoesBack(s, attempts);
    case SendNext(attempts) => SendNeverGoesBack(s, attempts);
    case Leave => LeaveNeverGoesBack(s);
    case Link(a) => LinkNeverGoesBack(s, LinkStep(s, a).link);
    case Handle => HandleNeverGoesBack(s);
    case StopReader => DisplayGoesOn(s, s.entries, s.handled, true);
  }

  // ------------------------------------------------------------------ main loop

  function EncodeAll(messages: seq<Message>): (blocks: seq<Block>)
    requires AllStorable(messages)
    ensures |blocks| == |messages|
    ensures forall i :: 0 <= i < |messages| ==> blocks[i] == Encode(messages[i])
  {
    seq(|messages|, i requires 0 <= i < |messages| => Encode(messages[i]))
  }

  /** The link takes the message over: the post succeeds and one of the waits is answered. */
  ghost predicate Succeeds(l: SharedMemory.Link, m: Message, attempts: nat, script: nat -> Turn)
    requires Storable(m)
  {
    && script(l.size + 1).success
    && IsConfirmed(Posting(l, Encode(m), attempts, script), attempts, script, l.size + 2)
  }

  /** The states of the link from one message of a batch to the next, as far as it takes them over. */
  ghost predicate Sent(states: seq<SharedMemory.Link>, messages: seq<Message>, attempts: nat, scripts: nat -> nat -> Turn)
    requires AllStorable(messages)
  {
    && 1 <= |states| <= |messages| + 1
    && forall k {:trigger SentAt(states, messages, attempts, scripts, k)} :: 0 <= k < |states| - 1 ==> SentAt(states, messages, attempts, scripts, k)
  }

  ghost predicate SentAt(states: seq<SharedMemory.Link>, messages: seq<Message>, attempts: nat, scripts: nat -> nat -> Turn, k: nat)
    requires AllStorable(messages) && k + 1 < |states| && k < |messages|
  {
    && Succeeds(states[k], messages[k], attempts, scripts(k))
    && states[k + 1] == Sending(states[k], Encode(messages[k]), attempts, scripts(k))
  }

  lemma SentOn(states: seq<SharedMemory.Link>, next: SharedMemory.Link, messages: seq<Message>, attempts: nat, scripts: nat -> nat -> Turn)
    requires AllStorable(messages) && Sent(states, messages, attempts, scripts) && |states| <= |messages|
    requires var k := |states| - 1;
             && Succeeds(states[k], messages[k], attempts, scripts(k))
             && next == Sending(states[k], Encode(messages[k]), attempts, scripts(k))
    ensures Sent(states + [next], messages, attempts, scripts)
  {
    forall k | 0 <= k < |states| ensures SentAt(states + [next], messages, attempts, scripts, k) {
      if k < |states| - 1 { assert SentAt(states, messages, attempts, scripts, k); }
    }
  }

  /**
   The inner loop of `main`: what the link posts is the batch, cut off by a stop, which posts a goodbye,
   or by a hard failure, after which the link is dead. `states` are those of the link before the
   first message and after each one it took over. The loop is left early exactly when the next
   message finds the handler stopped, the link dead, or a send that fails.
   */
  method SendBatch(messages: seq<Message>, handler: H.ContactsHandler, channel: Channel, attempts: nat,
                   scripts: nat -> nat -> Turn)
    returns (exit: bool, ghost sent: nat, ghost farewell: bool, ghost states: seq<SharedMemory.Link>)
    requires AllStorable(messages)
    requires channel.Valid() && channel.SenderRests() && channel.mSharedMessage.Length == RECORD
    requires forall i :: WithReceiver(scripts(i))
    modifies handler`life, channel, channel.mSharedMessage
    ensures channel.Valid() && channel.SenderRests()
    ensures Sent(states, messages, attempts, scripts) && states[0] == old(channel.State())
    ensures |states| > 1 ==> old(channel.mSenderAlive) && old(handler.life) >= |states| - 1
    ensures exit <==> |states| <= |messages|
    ensures exit ==>
              var k := |states| - 1;
              old(handler.life) == k || !old(channel.mSenderAlive) || !Succeeds(states[k], messages[k], attempts, scripts(k))
    ensures exit ==>
              var k := |states| - 1;
              var posts := old(channel.mSenderAlive) && scripts(k)(RECORD + 1).success;
              && (farewell <==> posts && old(handler.life) == k)
              && sent == if posts && !farewell then k + 1 else k
    ensures sent <= |messages|
    ensures channel.posted == old(channel.posted) + EncodeAll(messages[..sent]) + if farewell then [Encode(Goodbye)] else []
    ensures !exit ==> sent == |messages| && !farewell && (messages != [] ==> channel.received == channel.posted)
  {
    sent, farewell, states := 0, false, [channel.State()];
    ghost var start := channel.posted;
    exit := false;
    for i := 0 to |messages|
      invariant channel.Valid() && channel.SenderRests() && !exit
      invariant sent == i && !farewell && channel.posted == start + EncodeAll(messages[..i])
      invariant |states| == i + 1 && states[0] == old(channel.State()) && channel.State() == states[i]
      invariant Sent(states, messages, attempts, scripts)
      invariant old(handler.life) >= i && handler.life == old(handler.life) - i
      invariant channel.mSenderAlive == old(channel.mSenderAlive)
      invariant i > 0 ==> channel.mSenderAlive && channel.received == channel.posted
    {
      exit, sent, farewell, states := SendNext(i, messages, handler, channel, attempts, scripts, states, start);
      if exit { return; }
    }
    assert messages[..|messages|] == messages;
  }

  /** The loop body: a stopped handler says goodbye instead. */
  method SendNext(i: nat, messages: seq<Message>, handler: H.ContactsHandler, channel: Channel, attempts: nat,
                  scripts: nat -> nat -> Turn, ghost states: seq<SharedMemory.Link>, ghost start: seq<Block>)
    returns (exit: bool, ghost sent: nat, ghost farewell: bool, ghost later: seq<SharedMemory.Link>)
    requires AllStorable(messages) && i < |messages|
    requires channel.Valid() && channel.SenderRests() && channel.mSharedMessage.Length == RECORD && WithReceiver(scripts(i))
    requires Sent(states, messages, attempts, scripts) && |states| == i + 1 && channel.State() == states[i]
    requires channel.posted == start + EncodeAll(messages[..i])
    modifies handler`life, channel, channel.mSharedMessage
    ensures channel.Valid() && channel.SenderRests()
    ensures sent <= |messages|
    ensures channel.posted == start + EncodeAll(messages[..sent]) + if farewell then [Encode(Goodbye)] else []
    ensures handler.life == if old(handler.life) == 0 then 0 else old(handler.life) - 1
    ensures exit ==>
              var posts := old(channel.mSenderAlive) && scripts(i)(RECORD + 1).success;
              && later == states
              && (old(handler.life) == 0 || !old(channel.mSenderAlive) || !Succeeds(states[i], messages[i], attempts, scripts(i)))
              && (farewell <==> posts && old(handler.life) == 0)
              && sent == if posts && !farewell then i + 1 else i
    ensures !exit ==>
              && old(handler.life) > 0 && old(channel.mSenderAlive) && channel.mSenderAlive && channel.received == channel.posted
              && sent == i + 1 && !farewell && channel.posted == start + EncodeAll(messages[..sent])
              && later == states + [channel.State()] && Sent(later, messages, attempts, scripts)
  {
    ghost var posts := channel.mSenderAlive && scripts(i)(RECORD + 1).success;
    later := states;
    var stopped := handler.IsStopped();
    farewell := posts && stopped;
    sent := if posts && !stopped then i + 1 else i;
    EncodeStep(start, messages, i);
    var ok := SendOne(if stopped then Goodbye else messages[i], channel, attempts, scripts(i));
    exit := stopped || !ok;
    if !exit {
      SentOn(states, channel.State(), messages, attempts, scripts);
      later := states + [channel.State()];
    }
  }

  lemma EncodeStep(start: seq<Block>, messages: seq<Message>, i: nat)
    requires AllStorable(messages) && i < |messages|
    ensures start + EncodeAll(messages[..i + 1]) == start + EncodeAll(messages[..i]) + [Encode(messages[i])]
  {
  }

  method SendOne(m: Message, channel: Channel, attempts: nat, script: nat -> Turn) returns (ok: bool)
    requires Storable(m)
    requires channel.Valid() && channel.SenderRests() && channel.mSharedMessage.Length == RECORD && WithReceiver(script)
    modifies channel, channel.mSharedMessage
    ensures channel.Valid() && channel.SenderRests() && channel.mSenderAlive == ok
    ensures channel.posted == old(channel.posted) + if old(channel.mSenderAlive) && script(RECORD + 1).success then [Encode(m)] else []
    ensures ok <==> old(channel.mSenderAlive) && Succeeds(old(channel.State()), m, attempts, script)
    ensures ok ==> channel.State() == Sending(old(channel.State()), Encode(m), attempts, script) && channel.received == channel.posted
  {
    ok := channel.Send(Encode(m), attempts, script);
  }
}
