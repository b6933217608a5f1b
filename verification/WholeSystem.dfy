/**
 The whole of one engine: its locked regions, the two pipelines that lead from its stores to the
 displays, and both displays, interleaved in every possible way.
 */
module WholeSystem {
  import opened Common
  import opened ContactStates
  import opened Discovery
  import C = ContactsHandlers
  import CR = ContactsReplica
  import E = Engine
  import H = ChatHandlers
  import L = ContactsLink
  import M = ChatMessages
  import LP = LinkProgress
  import P = ChatPipeline

  /** `chat` and `contacts` have the two stores of `engine` as their handlers. */
  datatype Whole = Whole(engine: E.Engine, chat: P.System, contacts: L.System)

  datatype Event =
    | EngineDoes(action: E.Action)
    | ReplayNext                     // a round of the replay of a running `selection`
    | ChatDoes(step: P.Action)       // the chat main loop, its queue and its display
    | LinkDoes(event: L.Event)       // the contacts main loop, its link and its display

  predicate OfChat(a: P.Action)
  {
    a.Take? || a.Beat? || a.Push? || a.SayGoodbye? || a.StopHandler? || a.Show? || a.StopDisplay?
  }

  predicate OfLink(e: L.Event)
  {
    match e
    case Operate(op) => op.DoHeartbeat? || op.DoStop?
    case Link(a) => !a.BeginSend?
    case _ => true
  }

  /** Regions under the lock of the conversations, which a running replay holds. */
  predicate UsesStorage(a: E.Action)
  {
    a.GreetStore? || a.SelectFinish? || a.MailFinish? || a.ReceiveNext?
  }

  function Moved(w: Whole, e: E.Engine): Whole
  {
    Whole(e, w.chat.(handler := e.chat), w.contacts.(handler := e.contacts))
  }

  /** The second half of `selection`, done once nothing is left to replay; a failure stops the engine. */
  function Selected(w: Whole, s: P.System, ok: bool): Whole
    requires w.engine.external.Selecting?
  {
    var e := w.engine.(chat := s.handler);
    if s.replay != [] then Whole(e, s, w.contacts)
    else Moved(w.(chat := s), (if ok && e.external.ok then e else E.StopAll(e)).(external := E.Quiet))
  }

  function BeginSelect(w: Whole, now: M.Timestamp): Whole
  {
    if !w.engine.external.Selecting? then w
    else
      var id := w.engine.external.id;
      Selected(w, P.SelectStep(w.chat, id, now), H.Begin(w.chat.handler, id, now).ok)
  }

  function Replay(w: Whole): Whole
  {
    if w.chat.replay == [] || !w.engine.external.Selecting? then w
    else Selected(w, P.ReplayStep(w.chat), w.chat.handler.life > 0)
  }

  function EngineNext(w: Whole, a: E.Action): Whole
    requires C.Bounded(w.engine.contacts)
  {
    if UsesStorage(a) && w.chat.replay != [] then w
    else if a.SelectFinish? then BeginSelect(w, a.now)
    else Moved(w, E.Step(w.engine, a))
  }

  function ChatNext(w: Whole, a: P.Action): Whole
  {
    var s := P.Step(w.chat, a);
    w.(engine := w.engine.(chat := s.handler), chat := s)
  }

  function LinkNext(w: Whole, e: L.Event): Whole
    requires L.Ready(w.contacts)
  {
    var t := L.Next(w.contacts, e);
    w.(engine := w.engine.(contacts := t.handler), contacts := t)
  }

  /** By `RunKeepsInv` both stores are always in good order. */
  function Next(w: Whole, e: Event): Whole
  {
    match e
    case EngineDoes(a) => if C.Bounded(w.engine.contacts) then EngineNext(w, a) else w
    case ReplayNext => Replay(w)
    case ChatDoes(a) => if OfChat(a) then ChatNext(w, a) else w
    case LinkDoes(l) => if OfLink(l) && L.Ready(w.contacts) then LinkNext(w, l) else w
  }

  /** Right after the constructor of the engine. */
  function Start(setup: E.Setup): Whole
    requires CR.Fits(setup.nickname)
  {
    var e := E.Bootstrap(setup);
    Whole(e, P.Start(setup.chatLife).(handler := e.chat), L.Start(setup.contactsLife).(handler := e.contacts))
  }

  function Run(setup: E.Setup, events: seq<Event>): Whole
    requires CR.Fits(setup.nickname)
  {
    if events == [] then Start(setup) else Next(Run(setup, events[..|events| - 1]), events[|events| - 1])
  }

  // --------------------------------------------------------------- invariants

  predicate Coupled(w: Whole)
  {
    w.chat.handler == w.engine.chat && w.contacts.handler == w.engine.contacts
  }

  /** Only a running `selection` replays, and it has already changed the conversation. */
  predicate ReplayIsSelection(w: Whole)
  {
    w.chat.replay != [] ==>
      w.engine.external.Selecting? && w.engine.chat.current == Some(w.engine.external.id)
  }

  ghost predicate Inv(w: Whole)
  {
    Coupled(w) && ReplayIsSelection(w) && E.Inv(w.engine) && P.Inv(w.chat) && L.SystemInv(w.contacts)
  }

  // ------------------------------------------- the engine under its pipelines

  lemma ChatDrained(e: E.Engine, h: H.Model)
    requires E.Inv(e) && h.messages == e.chat.messages && h.current == e.chat.current && h.life <= e.chat.life
    ensures E.Inv(e.(chat := h))
  {
  }

  lemma ContactsDrained(e: E.Engine, m: C.Model)
    requires E.Inv(e) && C.Inv(m)
    requires m.contacts == e.contacts.contacts && m.current == e.contacts.current && m.life <= e.contacts.life
    ensures E.Inv(e.(contacts := m))
  {
  }

  lemma ChatFrame(s: P.System, a: P.Action)
    requires OfChat(a)
    ensures var h := P.Step(s, a).handler;
            h.messages == s.handler.messages && h.current == s.handler.current && h.life <= s.handler.life
    ensures P.Step(s, a).replay == s.replay
  {
  }

  lemma LinkFrame(t: L.System, e: L.Event)
    requires OfLink(e) && L.Ready(t)
    ensures var m := L.Next(t, e).handler;
            m.contacts == t.handler.contacts && m.current == t.handler.current && m.life <= t.handler.life
  {
  }

  lemma ChatNextKeepsInv(w: Whole, a: P.Action)
    requires Coupled(w) && ReplayIsSelection(w) && E.Inv(w.engine) && OfChat(a)
    ensures var t := ChatNext(w, a); Coupled(t) && ReplayIsSelection(t) && E.Inv(t.engine)
  {
    ChatFrame(w.chat, a);
    ChatDrained(w.engine, P.Step(w.chat, a).handler);
  }

  lemma LinkNextKeepsInv(w: Whole, e: L.Event)
    requires Coupled(w) && ReplayIsSelection(w) && E.Inv(w.engine) && OfLink(e) && L.Ready(w.contacts)
    requires C.Inv(L.Next(w.contacts, e).handler)
    ensures var t := LinkNext(w, e); Coupled(t) && ReplayIsSelection(t) && E.Inv(t.engine)
  {
    LinkFrame(w.contacts, e);
    ContactsDrained(w.engine, L.Next(w.contacts, e).handler);
  }

  // --------------------------------------------- the pipelines under the engine

  /** What a step of the engine does to the conversations: at most one operation, then perhaps a stop. */
  ghost predicate OnChat(s: P.System, h: H.Model)
  {
    || h == s.handler || h == s.handler.(life := 0)
    || exists a :: P.Step(s, a) == s.(handler := P.Step(s, a).handler)
                   && (h == P.Step(s, a).handler || h == P.Step(s, a).handler.(life := 0))
  }

  lemma OnChatKeepsInv(s: P.System, h: H.Model)
    requires P.Inv(s) && OnChat(s, h)
    ensures P.Inv(s.(handler := h))
  {
    P.StepKeepsInv(s, P.StopHandler);
    if h != s.handler && h != s.handler.(life := 0) {
      var a :| P.Step(s, a) == s.(handler := P.Step(s, a).handler)
               && (h == P.Step(s, a).handler || h == P.Step(s, a).handler.(life := 0));
      P.StepKeepsInv(s, a);
      P.StepKeepsInv(P.Step(s, a), P.StopHandler);
    }
  }

  lemma Operates(s: P.System, a: P.Action, r: H.Model, h: H.Model)
    requires P.Step(s, a) == s.(handler := r) && (h == r || h == r.(life := 0))
    ensures OnChat(s, h)
  {
  }

  lemma StorageOnChat(e: E.Engine, s: P.System, a: E.Action)
    requires s.handler == e.chat && s.replay == [] && C.Bounded(e.contacts)
    requires a.GreetStore? || a.MailFinish? || a.ReceiveNext?
    ensures OnChat(s, E.Step(e, a).chat)
  {
    match a
    case GreetStore =>
      if e.adding.Created? {
        Operates(s, P.Create(e.adding.id), H.Create(e.chat, e.adding.id).model, E.Step(e, a).chat);
      }
    case MailFinish(now) =>
      if e.external.Mailing? {
        var id, text := e.external.id, e.external.text;
        Operates(s, P.Send(id, text, now), H.Send(e.chat, id, text, now).model, E.Step(e, a).chat);
      }
    case ReceiveNext(k, now) =>
      if k < |e.inbound| && e.inbound[k].texts != [] {
        var id, text := e.inbound[k].id, e.inbound[k].texts[0];
        Operates(s, P.Receive(id, text, now), H.Receive(e.chat, id, text, now).model, E.Step(e, a).chat);
      }
  }

  lemma OtherOnChat(e: E.Engine, a: E.Action)
    requires C.Bounded(e.contacts) && !UsesStorage(a)
    ensures E.Step(e, a).chat == e.chat || E.Step(e, a).chat == e.chat.(life := 0)
  {
  }

  /** The same for the contacts: an operation that the link knows, then perhaps a stop. */
  ghost predicate OnContacts(m: C.Model, n: C.Model)
    requires C.Bounded(m)
  {
    || n == m || n == m.(life := 0)
    || exists op :: C.Legal(op) && !op.DoDrain? && (n == C.Step(m, op) || n == C.Step(m, op).(life := 0))
  }

  lemma Updates(m: C.Model, op: C.Operation, n: C.Model)
    requires C.Bounded(m) && C.Legal(op) && !op.DoDrain? && (n == C.Step(m, op) || n == C.Step(m, op).(life := 0))
    ensures OnContacts(m, n)
  {
  }

  lemma StopKeepsLink(t: L.System)
    requires L.SystemInv(t)
    ensures L.SystemInv(t.(handler := t.handler.(life := 0)))
  {
    L.NextIsDefined(t);
    L.NextKeepsInv(t, L.Operate(C.DoStop));
  }

  lemma OperationKeepsLink(t: L.System, op: C.Operation)
    requires L.SystemInv(t) && C.Bounded(t.handler) && C.Legal(op) && !op.DoDrain?
    ensures L.SystemInv(t.(handler := C.Step(t.handler, op)))
  {
    L.NextIsDefined(t);
    L.NextKeepsInv(t, L.Operate(op));
  }

  lemma OnContactsKeepsInv(t: L.System, n: C.Model)
    requires L.SystemInv(t) && C.Bounded(t.handler) && OnContacts(t.handler, n)
    ensures L.SystemInv(t.(handler := n))
  {
    if n == t.handler {
    } else if n == t.handler.(life := 0) {
      StopKeepsLink(t);
    } else {
      var op :| C.Legal(op) && !op.DoDrain? && (n == C.Step(t.handler, op) || n == C.Step(t.handler, op).(life := 0));
      OperationKeepsLink(t, op);
      StopKeepsLink(t.(handler := C.Step(t.handler, op)));
    }
  }

  lemma StepOnContacts(e: E.Engine, a: E.Action)
    requires C.Bounded(e.contacts)
    ensures OnContacts(e.contacts, E.Step(e, a).contacts)
  {
    var n := E.Step(e, a).contacts;
    match a
    case GreetBegin(nickname, identity, address) =>
      if e.adding == E.Free && nickname != "" && identity != "" && address != "" {
        if E.Known(e, identity).Some? {
          Updates(e.contacts, C.DoUpdate(Activated(E.Known(e, identity).value)), n);
        } else if CR.Fits(nickname) {
          Updates(e.contacts, C.DoCreate(nickname, identity, address), n);
        }
      }
    case SelectBegin(id) =>
      if e.external == E.Quiet && id < |e.contacts.contacts| { Updates(e.contacts, C.DoSelect(id), n); }
    case MailBegin(text) =>
      if e.external == E.Quiet && !E.Mismatch(e) { Updates(e.contacts, C.DoUpdate(Sent(e.contacts.current.value)), n); }
    case ReceiveBegin(identity, texts) =>
      if E.Known(e, identity).Some? {
        if n != e.contacts { Updates(e.contacts, C.DoUpdate(Received(E.Known(e, identity).value)), n); }
      }
    case ProbeNext(id, probe) =>
      if n != e.contacts {
        Updates(e.contacts, C.DoUpdate(if probe == Answered then Activated(id) else Deactivated(id)), n);
      }
    case HeartbeatFrom(identity) =>
      if E.Known(e, identity).Some? { Updates(e.contacts, C.DoUpdate(Activated(E.Known(e, identity).value)), n); }
    case _ =>
  }

  // ---------------------------------------------------------------- selection

  lemma SelectedKeepsChat(w: Whole, s: P.System, ok: bool)
    requires w.engine.external.Selecting? && P.Inv(s)
    ensures P.Inv(Selected(w, s, ok).chat)
  {
    P.StepKeepsInv(s, P.StopHandler);
  }

  lemma SelectedKeepsContacts(w: Whole, s: P.System, ok: bool)
    requires w.engine.external.Selecting? && w.contacts.handler == w.engine.contacts && L.SystemInv(w.contacts)
    ensures L.SystemInv(Selected(w, s, ok).contacts)
  {
    StopKeepsLink(w.contacts);
  }

  /** What the selection may have made of the conversations so far. */
  ghost predicate Turned(h: H.Model, later: H.Model)
  {
    && later.messages == h.messages && later.life <= h.life
    && (later.current.Some? ==> later.current.value < |later.messages|)
  }

  lemma TurnedKeepsInv(e: E.Engine, h: H.Model)
    requires E.Inv(e) && e.external.Selecting? && Turned(e.chat, h)
    ensures E.Inv(e.(chat := h))
    ensures E.Inv(E.StopAll(e.(chat := h)).(external := E.Quiet))
    ensures h.current == Some(e.external.id) && e.external.ok ==> E.Inv(e.(chat := h, external := E.Quiet))
  {
    E.StopKeepsInv(e.(chat := h, external := E.Quiet));
  }

  /** The conversation was changed as it should, or the selection fails. */
  lemma SelectedKeepsEngine(w: Whole, s: P.System, ok: bool)
    requires E.Inv(w.engine) && w.engine.external.Selecting? && w.contacts.handler == w.engine.contacts
    requires Turned(w.engine.chat, s.handler)
    requires s.replay != [] || ok ==> s.handler.current == Some(w.engine.external.id)
    ensures var t := Selected(w, s, ok); Coupled(t) && ReplayIsSelection(t) && E.Inv(t.engine)
  {
    TurnedKeepsInv(w.engine, s.handler);
  }

  lemma BeginFrame(s: P.System, id: nat, now: M.Timestamp)
    requires s.replay == [] && (s.handler.current.Some? ==> s.handler.current.value < |s.handler.messages|)
    ensures var t := P.SelectStep(s, id, now);
            && Turned(s.handler, t.handler)
            && (t.replay != [] || H.Begin(s.handler, id, now).ok ==> t.handler.current == Some(id))
  {
  }

  lemma BeginSelectKeepsInv(w: Whole, now: M.Timestamp)
    requires Inv(w) && w.chat.replay == []
    ensures Inv(BeginSelect(w, now))
  {
    if w.engine.external.Selecting? {
      var id := w.engine.external.id;
      var s, ok := P.SelectStep(w.chat, id, now), H.Begin(w.chat.handler, id, now).ok;
      BeginFrame(w.chat, id, now);
      P.StepKeepsInv(w.chat, P.Select(id, now));
      SelectedKeeps(w, s, ok);
    }
  }

  lemma SelectedKeeps(w: Whole, s: P.System, ok: bool)
    requires Inv(w) && w.engine.external.Selecting? && P.Inv(s)
    requires Turned(w.engine.chat, s.handler)
    requires s.replay != [] || ok ==> s.handler.current == Some(w.engine.external.id)
    ensures Inv(Selected(w, s, ok))
  {
    SelectedKeepsChat(w, s, ok);
    SelectedKeepsContacts(w, s, ok);
    SelectedKeepsEngine(w, s, ok);
  }

  lemma ReplayKeepsInv(w: Whole)
    requires Inv(w)
    ensures Inv(Replay(w))
  {
    if w.chat.replay != [] {
      P.StepKeepsInv(w.chat, P.ReplayNext);
      SelectedKeeps(w, P.ReplayStep(w.chat), w.chat.handler.life > 0);
    }
  }

  // Left alone, the interleaved `selection` is the engine's step.

  function Replays(w: Whole, n: nat): Whole
    decreases n
  {
    if n == 0 then w else Replays(Replay(w), n - 1)
  }

  function Finished(e: E.Engine, r: H.Result): E.Engine
    requires e.external.Selecting?
  {
    E.WithChat(e, H.Result(r.model, r.ok && e.external.ok)).(external := E.Quiet)
  }

  lemma {:induction false} NothingToReplay(w: Whole, n: nat)
    requires w.chat.replay == []
    ensures Replays(w, n) == w
    decreases n
  {
    if n > 0 { NothingToReplay(w, n - 1); }
  }

  lemma {:induction false} ReplaysUninterrupted(w: Whole)
    requires Coupled(w) && w.engine.external.Selecting? && w.chat.replay != []
    ensures Replays(w, |w.chat.replay|).engine == Finished(w.engine, H.Replay(w.chat.handler, w.chat.replay))
    decreases |w.chat.replay|
  {
    var t := Replay(w);
    if t.chat.replay == [] {
      NothingToReplay(t, |w.chat.replay| - 1);
    } else {
      ReplaysUninterrupted(t);
    }
  }

  /** `selection` with nobody in between: its begin and all rounds of its replay are one step of the engine. */
  lemma SelectionUninterrupted(w: Whole, now: M.Timestamp)
    requires Coupled(w) && w.engine.external.Selecting? && w.chat.replay == []
    ensures var t := BeginSelect(w, now);
            Replays(t, |t.chat.replay|).engine == E.SelectFinishStep(w.engine, now)
  {
    var t := BeginSelect(w, now);
    if t.chat.replay != [] { ReplaysUninterrupted(t); }
  }

  // --------------------------------------------------------------------- runs

  lemma MovedKeepsInv(w: Whole, a: E.Action)
    requires Inv(w) && !a.SelectFinish? && (UsesStorage(a) ==> w.chat.replay == [])
    ensures Inv(Moved(w, E.Step(w.engine, a)))
  {
    MovedKeepsChat(w, a);
    MovedKeepsContacts(w, a);
    MovedKeepsEngine(w, a);
  }

  lemma MovedKeepsEngine(w: Whole, a: E.Action)
    requires E.Inv(w.engine) && ReplayIsSelection(w) && (UsesStorage(a) ==> w.chat.replay == [])
    ensures var t := Moved(w, E.Step(w.engine, a)); Coupled(t) && ReplayIsSelection(t) && E.Inv(t.engine)
  {
    E.StepKeepsInv(w.engine, a);
    if w.chat.replay != [] { SelectionGoesOn(w.engine, a); }
  }

  lemma MovedKeepsContacts(w: Whole, a: E.Action)
    requires C.Bounded(w.engine.contacts) && w.contacts.handler == w.engine.contacts && L.SystemInv(w.contacts)
    ensures L.SystemInv(w.contacts.(handler := E.Step(w.engine, a).contacts))
  {
    StepOnContacts(w.engine, a);
    OnContactsKeepsInv(w.contacts, E.Step(w.engine, a).contacts);
  }

  lemma MovedKeepsChat(w: Whole, a: E.Action)
    requires C.Bounded(w.engine.contacts) && w.chat.handler == w.engine.chat && P.Inv(w.chat)
    requires !a.SelectFinish? && (UsesStorage(a) ==> w.chat.replay == [])
    ensures P.Inv(w.chat.(handler := E.Step(w.engine, a).chat))
  {
    if UsesStorage(a) {
      StorageOnChat(w.engine, w.chat, a);
    } else {
      OtherOnChat(w.engine, a);
    }
    OnChatKeepsInv(w.chat, E.Step(w.engine, a).chat);
  }

  lemma SelectionGoesOn(e: E.Engine, a: E.Action)
    requires C.Bounded(e.contacts) && e.external.Selecting? && !UsesStorage(a)
    ensures E.Step(e, a).external == e.external && E.Step(e, a).chat.current == e.chat.current
  {
  }

  lemma NextKeepsInv(w: Whole, e: Event)
    requires Inv(w)
    ensures Inv(Next(w, e))
  {
    match e
    case EngineDoes(a) =>
      if !(UsesStorage(a) && w.chat.replay != []) {
        if a.SelectFinish? { BeginSelectKeepsInv(w, a.now); } else { MovedKeepsInv(w, a); }
      }
    case ReplayNext => ReplayKeepsInv(w);
    case ChatDoes(a) =>
      if OfChat(a) {
        P.StepKeepsInv(w.chat, a);
        ChatNextKeepsInv(w, a);
      }
    case LinkDoes(l) =>
      if OfLink(l) && L.Ready(w.contacts) {
        L.NextKeepsInv(w.contacts, l);
        LinkNextKeepsInv(w, l);
      }
  }

  lemma StartInv(setup: E.Setup)
    requires CR.Fits(setup.nickname)
    ensures Inv(Start(setup))
  {
    E.BootstrapInv(setup);
    StartKeepsChat(setup);
    StartKeepsContacts(setup);
  }

  lemma StartIsTwoSteps(setup: E.Setup)
    requires CR.Fits(setup.nickname)
    ensures Start(setup).chat == P.Step(P.Step(P.Start(setup.chatLife), P.Create(0)), P.Select(0, setup.now))
  {
  }

  lemma StartKeepsChat(setup: E.Setup)
    requires CR.Fits(setup.nickname)
    ensures P.Inv(Start(setup).chat)
  {
    StartIsTwoSteps(setup);
    P.RunKeepsInv(setup.chatLife, []);
    TwoStepsKeepInv(P.Start(setup.chatLife), P.Create(0), P.Select(0, setup.now));
  }

  lemma TwoStepsKeepInv(s: P.System, a: P.Action, b: P.Action)
    requires P.Inv(s)
    ensures P.Inv(P.Step(P.Step(s, a), b))
  {
    P.StepKeepsInv(s, a);
    P.StepKeepsInv(P.Step(s, a), b);
  }

  lemma StartKeepsContacts(setup: E.Setup)
    requires CR.Fits(setup.nickname)
    ensures L.SystemInv(Start(setup).contacts)
  {
    var t := L.Start(setup.contactsLife);
    var create := C.DoCreate(setup.nickname, setup.identity, setup.host);
    L.StartInv(setup.contactsLife);
    Updates(t.handler, create, C.Step(t.handler, create));
    OnContactsKeepsInv(t, C.Step(t.handler, create));
    var u := t.(handler := C.Step(t.handler, create));
    Updates(u.handler, C.DoSelect(0), C.Step(u.handler, C.DoSelect(0)));
    OnContactsKeepsInv(u, C.Step(u.handler, C.DoSelect(0)));
  }

  lemma {:induction false} RunKeepsInv(setup: E.Setup, events: seq<Event>)
    requires CR.Fits(setup.nickname)
    ensures Inv(Run(setup, events))
  {
    if events == [] {
      StartInv(setup);
    } else {
      RunKeepsInv(setup, events[..|events| - 1]);
      NextKeepsInv(Run(setup, events[..|events| - 1]), events[|events| - 1]);
    }
  }

  // ------------------------------------------------------------------ theorem

  /** Both displays have consumed what is in flight, and neither main loop has given up. */
  predicate Quiescent(w: Whole)
  {
    && !w.chat.mainDone && w.chat.pipe == [] && w.chat.inHand == [] && w.chat.handler.queue == []
    && !w.contacts.mainDone && !w.contacts.farewell && w.contacts.inHand == [] && w.contacts.handler.queue == []
    && w.contacts.handled == |w.contacts.handed|
  }

  /** The contacts display shows `id`, and nobody else, as selected. */
  predicate ShownSelected(entries: seq<CR.Entry>, id: nat)
  {
    id < |entries| && forall i :: 0 <= i < |entries| ==> (IsSelected(entries[i].state) <==> i == id)
  }

  lemma ScreenIsCurrent(s: P.System)
    requires P.Inv(s) && s.handler.life > 0 && s.replay == []
    requires !s.mainDone && s.pipe == [] && s.inHand == [] && s.handler.queue == []
    ensures s.display == M.Display([], H.Shown(s.handler))
  {
    var n: nat :| P.Reached(s, n);
    assert P.Pending(s) == [];
    assert H.Shown(s.handler)[..n] == H.Shown(s.handler);
  }

  lemma ListIsCurrent(t: L.System)
    requires L.SystemInv(t) && t.handler.life > 0 && !t.mainDone && !t.farewell
    requires t.inHand == [] && t.handler.queue == [] && t.handled == |t.handed|
    ensures t.entries == C.Projected(t.handler.contacts)
  {
    assert L.Core(t.handed, false) + (t.inHand + t.handler.queue) == t.handler.emitted;
    assert L.Reached(t) == L.Passed(t) == |t.handler.emitted|;
  }

  lemma CurrentIsSelected(e: E.Engine)
    requires E.Inv(e) && E.Running(e) && !e.external.Selecting?
    ensures e.contacts.current.Some? && e.chat.current == e.contacts.current
    ensures e.chat.current.value < |e.chat.messages|
    ensures ShownSelected(C.Projected(e.contacts.contacts), e.contacts.current.value)
  {
  }

  /**
   The two displays agree. In every reachable state of a running engine, outside of `selection`, when
   both displays have consumed what is in flight: the contacts list shows exactly one contact as
   selected, it is the present list, and the chat screen is the conversation with that contact.
   */
  lemma DisplaysAgree(setup: E.Setup, events: seq<Event>)
    requires CR.Fits(setup.nickname)
    ensures var w := Run(setup, events);
            E.Running(w.engine) && !w.engine.external.Selecting? && Quiescent(w) ==>
              exists id :: 0 <= id < |w.engine.chat.messages|
                && ShownSelected(w.contacts.entries, id)
                && w.chat.display == M.Display([], w.engine.chat.messages[id])
                && w.contacts.entries == C.Projected(w.engine.contacts.contacts)
  {
    RunKeepsInv(setup, events);
    var w := Run(setup, events);
    if E.Running(w.engine) && !w.engine.external.Selecting? && Quiescent(w) { DisplaysAgreeNow(w); }
  }

  lemma DisplaysAgreeNow(w: Whole)
    requires Inv(w) && E.Running(w.engine) && !w.engine.external.Selecting? && Quiescent(w)
    ensures exists id :: 0 <= id < |w.engine.chat.messages|
              && ShownSelected(w.contacts.entries, id)
              && w.chat.display == M.Display([], w.engine.chat.messages[id])
              && w.contacts.entries == C.Projected(w.engine.contacts.contacts)
  {
    ScreenIsCurrent(w.chat);
    ListIsCurrent(w.contacts);
    CurrentIsSelected(w.engine);
    var id := w.engine.chat.current.value;
    assert ShownSelected(w.contacts.entries, id);
  }

  // ----------------------------------------------------------------- progress

  function Continue(w: Whole, events: seq<Event>): Whole
    decreases |events|
  {
    if events == [] then w else Continue(Next(w, events[0]), events[1..])
  }

  lemma {:induction false} ContinueConcat(w: Whole, a: seq<Event>, b: seq<Event>)
    ensures Continue(w, a + b) == Continue(Continue(w, a), b)
    decreases |a|
  {
    if a == [] {
      assert a + b == b;
    } else {
      assert (a + b)[1..] == a[1..] + b;
      ContinueConcat(Next(w, a[0]), a[1..], b);
    }
  }

  function ChatEvents(actions: seq<P.Action>): (events: seq<Event>)
    ensures |events| == |actions|
  {
    seq(|actions|, i requires 0 <= i < |actions| => ChatDoes(actions[i]))
  }

  function LinkEvents(steps: seq<L.Event>): (events: seq<Event>)
    ensures |events| == |steps|
  {
    seq(|steps|, i requires 0 <= i < |steps| => LinkDoes(steps[i]))
  }

  function WithChat(w: Whole, s: P.System): Whole
  {
    w.(engine := w.engine.(chat := s.handler), chat := s)
  }

  function WithLink(w: Whole, t: L.System): Whole
  {
    w.(engine := w.engine.(contacts := t.handler), contacts := t)
  }

  lemma {:induction false} ChatContinues(w: Whole, actions: seq<P.Action>)
    requires Coupled(w) && forall i :: 0 <= i < |actions| ==> OfChat(actions[i])
    ensures Continue(w, ChatEvents(actions)) == WithChat(w, P.RunFrom(w.chat, actions))
    decreases |actions|
  {
    if actions != [] {
      var events := ChatEvents(actions);
      assert events[0] == ChatDoes(actions[0]) && events[1..] == ChatEvents(actions[1..]);
      ChatContinues(Next(w, events[0]), actions[1..]);
    }
  }

  lemma LinkContinuesOnce(w: Whole, l: L.Event)
    requires Coupled(w) && L.SystemInv(w.contacts) && L.Allowed(l) && !l.Operate?
    ensures Next(w, LinkDoes(l)) == WithLink(w, LP.RunFrom(w.contacts, [l])) && L.SystemInv(LP.RunFrom(w.contacts, [l]))
  {
    LP.NextIs(w.contacts, l);
  }

  lemma {:induction false} LinkContinues(w: Whole, steps: seq<L.Event>)
    requires Coupled(w) && L.SystemInv(w.contacts) && LP.AllAllowed(steps)
    ensures Continue(w, LinkEvents(steps)) == WithLink(w, LP.RunFrom(w.contacts, steps))
    decreases |steps|
  {
    if steps != [] {
      var events := LinkEvents(steps);
      assert events[0] == LinkDoes(steps[0]) && events[1..] == LinkEvents(steps[1..]);
      LinkContinuesOnce(w, steps[0]);
      assert steps == [steps[0]] + steps[1..];
      LP.RunFromConcat(w.contacts, [steps[0]], steps[1..]);
      LinkContinues(WithLink(w, LP.RunFrom(w.contacts, [steps[0]])), steps[1..]);
    }
  }

  /** No stop is near, and nothing keeps the pipelines from delivering what they hold. */
  ghost predicate CanFlow(w: Whole)
  {
    && !w.chat.mainDone && !w.chat.displayDone && w.chat.handler.life > |w.chat.inHand| + |w.chat.handler.queue| + 1
    && LP.Idle(w.contacts) && w.contacts.handler.life > |w.contacts.inHand| + |w.contacts.handler.queue| + 1
  }

  /**
   And they do come to agree: from every such state of a running engine outside of `selection` the two
   pipelines alone lead to one in which the theorem above applies, with the stores as they were.
   */
  lemma DisplaysCanAgree(w: Whole) returns (events: seq<Event>)
    requires Inv(w) && !w.engine.external.Selecting? && CanFlow(w)
    ensures var t := Continue(w, events);
            && Quiescent(t) && E.Running(t.engine) && t.engine.external == w.engine.external
            && t.engine.chat.messages == w.engine.chat.messages && t.engine.chat.current == w.engine.chat.current
            && t.engine.contacts.contacts == w.engine.contacts.contacts
            && t.chat.display == M.Display([], H.Shown(w.engine.chat))
            && t.contacts.entries == C.Projected(w.engine.contacts.contacts)
  {
    var actions := P.CanCatchUp(w.chat);
    ChatContinues(w, actions);
    var mid := Continue(w, ChatEvents(actions));
    var steps := LP.CanCatchUp(mid.contacts);
    LinkContinues(mid, steps);
    events := ChatEvents(actions) + LinkEvents(steps);
    ContinueConcat(w, ChatEvents(actions), LinkEvents(steps));
  }
}
