/**
 What the user sees as sent against what the broadcaster has been given: `handleSend` over the
 stores of an engine and the outgoing mail of its broadcaster.
 */
module SentMail {
  import opened Common
  import opened ContactStates
  import B = ChatBroadcaster
  import C = ContactsHandlers
  import CR = ContactsReplica
  import E = Engine
  import H = ChatHandlers
  import M = ChatMessages
  import P = ChatPipeline
  import Peers

  /**
   `posting` is a text that `handleSend` has stored and not yet handed over, under the lock of the
   external calls; `lost` records the texts stored by a `handleSend` that then gave up.
   */
  datatype Office = Office(engine: E.Engine, post: B.Post, posting: Option<B.Handed>, lost: seq<B.Handed>)

  datatype Event =
    | EngineDoes(action: E.Action)
    | PostFinish(stubMade: bool)
    | Attend(id: nat, visit: B.Visit, inactive: bool)

  /** The conversation of the host with itself. */
  predicate Own(e: E.Engine, id: nat)
  {
    id < |e.contacts.contacts| && e.contacts.contacts[id].ipAddressAndPort == e.host
  }

  function Finish(w: Office, now: M.Timestamp): Office
  {
    if !w.engine.external.Mailing? then w
    else
      var x := w.engine.external;
      var r := H.Send(w.engine.chat, x.id, x.text, now);
      var t := w.(engine := E.MailFinishStep(w.engine, now));
      if Own(w.engine, x.id) then t
      else if r.ok then t.(posting := Some(B.Handed(x.id, x.text)))
      else if r.model.messages != w.engine.chat.messages then t.(lost := w.lost + [B.Handed(x.id, x.text)])
      else t
  }

  function EngineNext(w: Office, a: E.Action): Office
    requires C.Bounded(w.engine.contacts)
  {
    if (a.SelectBegin? || a.MailBegin?) && w.posting.Some? then w
    else if a.MailFinish? then Finish(w, a.now)
    else w.(engine := E.Step(w.engine, a))
  }

  function Next(w: Office, e: Event): Office
  {
    match e
    case EngineDoes(a) => if C.Bounded(w.engine.contacts) then EngineNext(w, a) else w
    case PostFinish(stubMade) =>
      if w.posting.None? then w
      else w.(post := B.Enqueue(w.post, w.posting.value.id, w.posting.value.text, stubMade), posting := None)
    case Attend(id, visit, inactive) => w.(post := B.Deliver(w.post, id, visit, inactive))
  }

  function Start(setup: E.Setup): Office
    requires CR.Fits(setup.nickname)
  {
    Office(E.Bootstrap(setup), B.EMPTY, None, [])
  }

  function Run(setup: E.Setup, events: seq<Event>): Office
    requires CR.Fits(setup.nickname)
  {
    if events == [] then Start(setup) else Next(Run(setup, events[..|events| - 1]), events[|events| - 1])
  }

  // ---------------------------------------------------------------- accounts

  /** The texts of a conversation shown as sent. */
  function Spoken(entries: seq<M.Entry>): seq<string>
  {
    if entries == [] then []
    else
      var last := entries[|entries| - 1];
      Spoken(entries[..|entries| - 1]) + if last.kind == M.SENDER then [last.data] else []
  }

  function SpokenIn(store: seq<seq<M.Entry>>, id: nat): seq<string>
  {
    if id < |store| then Spoken(store[id]) else []
  }

  function OnItsWay(posting: Option<B.Handed>, id: nat): seq<string>
  {
    if posting.Some? && posting.value.id == id then [posting.value.text] else []
  }

  /** What is shown as sent to `id` is what was handed over, is just being handed over, or was lost. */
  ghost predicate Accounts(w: Office, id: nat)
  {
    SpokenIn(w.engine.chat.messages, id) == B.HandedTo(w.post.handed, id) + OnItsWay(w.posting, id) + B.HandedTo(w.lost, id)
  }

  ghost predicate Inv(w: Office)
  {
    && (forall id {:trigger Accounts(w, id)} :: Own(w.engine, id) || Accounts(w, id))
    && (w.engine.external.Mailing? ==> w.engine.external.id < |w.engine.contacts.contacts| && w.posting.None?)
    && |w.lost| <= 1 && (w.lost != [] ==> w.engine.chat.life == 0 && w.posting.None?)
  }

  lemma SpokenSnoc(entries: seq<M.Entry>, e: M.Entry)
    ensures Spoken(entries + [e]) == Spoken(entries) + if e.kind == M.SENDER then [e.data] else []
  {
    assert (entries + [e])[..|entries|] == entries;
  }

  lemma StoredIsSpoken(h: H.Model, id: nat, e: M.Entry, other: nat)
    requires id < |h.messages|
    ensures SpokenIn(H.Store(h, id, e).messages, other) ==
            SpokenIn(h.messages, other) + if other == id && e.kind == M.SENDER then [e.data] else []
  {
    SpokenSnoc(h.messages[id], e);
    assert SpokenIn(h.messages, other) + [] == SpokenIn(h.messages, other);
  }

  /** A `send` stores before it looks at the stop flag again. */
  predicate Stores(h: H.Model, id: nat)
  {
    h.life > 0 && h.current == Some(id) && id < |h.messages|
  }

  lemma SendIsSpoken(h: H.Model, id: nat, text: string, now: M.Timestamp, other: nat)
    ensures var later := H.Send(h, id, text, now).model.messages;
            && SpokenIn(later, other) == SpokenIn(h.messages, other) + (if other == id && Stores(h, id) then [text] else [])
            && (later != h.messages <==> Stores(h, id))
    ensures H.Send(h, id, text, now).ok <==> Stores(h, id) && h.life > 1
    ensures H.Send(h, id, text, now).ok ==> H.Send(h, id, text, now).model.life > 0 || h.life == 2
    ensures !H.Send(h, id, text, now).ok && Stores(h, id) ==> H.Send(h, id, text, now).model.life == 0
  {
    assert SpokenIn(h.messages, other) + [] == SpokenIn(h.messages, other);
    if id < |h.messages| {
      StoredIsSpoken(H.Look(h).model, id, M.Entry(M.SENDER, now, text), other);
      assert |h.messages[id] + [M.Entry(M.SENDER, now, text)]| != |h.messages[id]|;
    }
  }

  lemma ReceiveIsNotSpoken(h: H.Model, id: nat, text: string, now: M.Timestamp, other: nat)
    ensures SpokenIn(H.Receive(h, id, text, now).model.messages, other) == SpokenIn(h.messages, other)
  {
    assert SpokenIn(h.messages, other) + [] == SpokenIn(h.messages, other);
    if id < |h.messages| { StoredIsSpoken(H.Look(h).model, id, M.Entry(M.RECEIVER, now, text), other); }
  }

  /** No other step of the engine adds to what is shown as sent. */
  lemma OnlyMailIsSpoken(e: E.Engine, a: E.Action, id: nat)
    requires C.Bounded(e.contacts) && !a.MailFinish?
    ensures SpokenIn(E.Step(e, a).chat.messages, id) == SpokenIn(e.chat.messages, id)
    ensures E.Step(e, a).chat.life <= e.chat.life
  {
    match a
    case GreetStore =>
    case SelectFinish(now) => if e.external.Selecting? { E.ChatSelectFrame(e.chat, e.external.id, now); }
    case ReceiveNext(k, now) =>
      if k < |e.inbound| && e.inbound[k].texts != [] {
        ReceiveIsNotSpoken(e.chat, e.inbound[k].id, e.inbound[k].texts[0], now, id);
      }
    case _ =>
  }

  lemma MailingIsCurrent(e: E.Engine, a: E.Action)
    requires C.Bounded(e.contacts) && !a.MailFinish? && E.Step(e, a).external.Mailing?
    ensures e.external == E.Step(e, a).external
            || (a.MailBegin? && e.contacts.current == Some(E.Step(e, a).external.id))
  {
  }

  /** Conversations stay whose they are, and contacts are never removed. */
  lemma OwnStays(e: E.Engine, a: E.Action, id: nat)
    requires C.Bounded(e.contacts) && P.HandlerInv(e.chat)
    ensures Own(e, id) ==> Own(E.Step(e, a), id)
    ensures |e.contacts.contacts| <= |E.Step(e, a).contacts.contacts|
  {
    Peers.StepGrows(e, a);
  }

  // --------------------------------------------------------------------- runs

  lemma StepKeepsAccounts(w: Office, a: E.Action)
    requires Inv(w) && E.Inv(w.engine) && !a.MailFinish?
    ensures Inv(EngineNext(w, a))
  {
    var t := EngineNext(w, a);
    if t != w {
      forall id ensures Own(t.engine, id) || Accounts(t, id) {
        OwnStays(w.engine, a, id);
        OnlyMailIsSpoken(w.engine, a, id);
        assert Own(w.engine, id) || Accounts(w, id);
      }
      OwnStays(w.engine, a, 0);
      OnlyMailIsSpoken(w.engine, a, 0);
      if t.engine.external.Mailing? { MailingIsCurrent(w.engine, a); }
    }
  }

  lemma HandedSnoc(handed: seq<B.Handed>, x: B.Handed, id: nat)
    ensures B.HandedTo(handed + [x], id) == B.HandedTo(handed, id) + if x.id == id then [x.text] else []
  {
    assert (handed + [x])[..|handed|] == handed;
  }

  lemma FinishMoves(w: Office, now: M.Timestamp)
    ensures Finish(w, now).engine == E.MailFinishStep(w.engine, now) && Finish(w, now).post == w.post
    ensures E.MailFinishStep(w.engine, now).contacts.contacts == w.engine.contacts.contacts
    ensures E.MailFinishStep(w.engine, now).host == w.engine.host
    ensures E.MailFinishStep(w.engine, now).chat.life <= w.engine.chat.life
    ensures w.engine.external.Mailing? ==>
              && E.MailFinishStep(w.engine, now).external == E.Quiet
              && var r := H.Send(w.engine.chat, w.engine.external.id, w.engine.external.text, now);
              && E.MailFinishStep(w.engine, now).chat.messages == r.model.messages
              && (!r.ok ==> E.MailFinishStep(w.engine, now).chat.life == 0)
  {
  }

  lemma FinishKeepsAccount(w: Office, now: M.Timestamp, id: nat)
    requires w.engine.external.Mailing? && !Own(w.engine, id) && Accounts(w, id)
    requires w.posting.None? && (w.lost != [] ==> w.engine.chat.life == 0)
    ensures Accounts(Finish(w, now), id)
  {
    var x := w.engine.external;
    FinishMoves(w, now);
    SendIsSpoken(w.engine.chat, x.id, x.text, now, id);
    HandedSnoc(w.lost, B.Handed(x.id, x.text), id);
  }

  lemma FinishKeepsAccounts(w: Office, now: M.Timestamp)
    requires Inv(w)
    ensures Inv(Finish(w, now))
  {
    if w.engine.external.Mailing? {
      var x, t := w.engine.external, Finish(w, now);
      FinishMoves(w, now);
      forall id ensures Own(t.engine, id) || Accounts(t, id) {
        if !Own(w.engine, id) {
          assert Accounts(w, id);
          FinishKeepsAccount(w, now, id);
        }
      }
      SendIsSpoken(w.engine.chat, x.id, x.text, now, 0);
    }
  }

  lemma PostKeepsAccounts(w: Office, stubMade: bool)
    requires Inv(w) && w.posting.Some?
    ensures Inv(Next(w, PostFinish(stubMade)))
  {
    var t := Next(w, PostFinish(stubMade));
    forall id ensures Own(t.engine, id) || Accounts(t, id) {
      HandedSnoc(w.post.handed, w.posting.value, id);
      assert Own(w.engine, id) || Accounts(w, id);
    }
  }

  lemma AttendKeepsAccounts(w: Office, id: nat, visit: B.Visit, inactive: bool)
    requires Inv(w)
    ensures Inv(Next(w, Attend(id, visit, inactive)))
  {
    B.DeliverFrame(w.post, id, visit, inactive);
    var t := Next(w, Attend(id, visit, inactive));
    forall other ensures Own(t.engine, other) || Accounts(t, other) {
      assert Own(w.engine, other) || Accounts(w, other);
    }
  }

  lemma NextKeepsAccounts(w: Office, e: Event)
    requires Inv(w) && E.Inv(w.engine)
    ensures Inv(Next(w, e))
  {
    match e
    case EngineDoes(a) => if a.MailFinish? { FinishKeepsAccounts(w, a.now); } else { StepKeepsAccounts(w, a); }
    case PostFinish(stubMade) => if w.posting.Some? { PostKeepsAccounts(w, stubMade); }
    case Attend(id, visit, inactive) => AttendKeepsAccounts(w, id, visit, inactive);
  }

  lemma EngineNextIsStep(w: Office, a: E.Action)
    requires C.Bounded(w.engine.contacts)
    ensures EngineNext(w, a).engine == w.engine || EngineNext(w, a).engine == E.Step(w.engine, a)
  {
    if a.MailFinish? { FinishMoves(w, a.now); }
  }

  lemma NextKeepsEngine(w: Office, e: Event)
    requires E.Inv(w.engine)
    ensures E.Inv(Next(w, e).engine)
  {
    if e.EngineDoes? {
      EngineNextIsStep(w, e.action);
      E.StepKeepsInv(w.engine, e.action);
    }
  }

  lemma NextKeepsPost(w: Office, e: Event)
    requires B.Inv(w.post)
    ensures B.Inv(Next(w, e).post)
  {
    match e
    case EngineDoes(_) =>
    case PostFinish(stubMade) =>
      if w.posting.Some? { B.EnqueueKeepsInv(w.post, w.posting.value.id, w.posting.value.text, stubMade); }
    case Attend(id, visit, inactive) => B.DeliverKeepsInv(w.post, id, visit, inactive);
  }

  lemma StartInv(setup: E.Setup)
    requires CR.Fits(setup.nickname)
    ensures Inv(Start(setup))
  {
    var h := H.Create(H.Model([], None, [], setup.chatLife), 0).model;
    E.ChatSelectFrame(h, 0, setup.now);
    forall id ensures Accounts(Start(setup), id) { }
  }

  lemma {:induction false} RunKeepsEngine(setup: E.Setup, events: seq<Event>)
    requires CR.Fits(setup.nickname)
    ensures E.Inv(Run(setup, events).engine)
  {
    if events == [] {
      E.BootstrapInv(setup);
    } else {
      RunKeepsEngine(setup, events[..|events| - 1]);
      NextKeepsEngine(Run(setup, events[..|events| - 1]), events[|events| - 1]);
    }
  }

  lemma {:induction false} RunKeepsAccounts(setup: E.Setup, events: seq<Event>)
    requires CR.Fits(setup.nickname)
    ensures Inv(Run(setup, events))
  {
    if events == [] {
      StartInv(setup);
    } else {
      RunKeepsAccounts(setup, events[..|events| - 1]);
      RunKeepsEngine(setup, events[..|events| - 1]);
      NextKeepsAccounts(Run(setup, events[..|events| - 1]), events[|events| - 1]);
    }
  }

  lemma {:induction false} RunKeepsPost(setup: E.Setup, events: seq<Event>)
    requires CR.Fits(setup.nickname)
    ensures B.Inv(Run(setup, events).post)
  {
    if events != [] {
      RunKeepsPost(setup, events[..|events| - 1]);
      NextKeepsPost(Run(setup, events[..|events| - 1]), events[|events| - 1]);
    }
  }

  // ----------------------------------------------------------------- theorems

  /**
   In every reachable state of an engine whose chat handler runs: the texts shown as sent in a
   conversation with somebody else are exactly those handed to the broadcaster for that neighbour,
   in order, with the one on its way if there is one; and so they are exactly what that neighbour has
   acknowledged followed by what is pending for it.
   */
  lemma SentIsHandedOver(setup: E.Setup, events: seq<Event>, id: nat)
    requires CR.Fits(setup.nickname)
    ensures var w := Run(setup, events);
            w.engine.chat.life > 0 && !Own(w.engine, id) ==>
              && SpokenIn(w.engine.chat.messages, id) == B.HandedTo(w.post.handed, id) + OnItsWay(w.posting, id)
              && SpokenIn(w.engine.chat.messages, id)
                 == B.AcknowledgedBy(w.post.attempts, id) + B.PendingFor(w.post, id) + OnItsWay(w.posting, id)
  {
    RunKeepsAccounts(setup, events);
    RunKeepsPost(setup, events);
    var w := Run(setup, events);
    if w.engine.chat.life > 0 && !Own(w.engine, id) {
      assert Accounts(w, id);
      assert B.Conserved(w.post);
      assert w.lost == [];
    }
  }

  /**
   Stopped or not: what is shown as sent and was handed over differ by the lost texts only, of which
   there is at most one in a run.
   */
  lemma AtMostOneIsLost(setup: E.Setup, events: seq<Event>, id: nat)
    requires CR.Fits(setup.nickname)
    ensures var w := Run(setup, events);
            && |w.lost| <= 1
            && (!Own(w.engine, id) ==>
                  && (SpokenIn(w.engine.chat.messages, id) == B.HandedTo(w.post.handed, id) + OnItsWay(w.posting, id)
                      <==> B.HandedTo(w.lost, id) == [])
                  && SpokenIn(w.engine.chat.messages, id)
                     == B.HandedTo(w.post.handed, id) + OnItsWay(w.posting, id) + B.HandedTo(w.lost, id))
  {
    RunKeepsAccounts(setup, events);
    var w := Run(setup, events);
    assert Own(w.engine, id) || Accounts(w, id);
    var kept := B.HandedTo(w.post.handed, id) + OnItsWay(w.posting, id);
    assert |kept + B.HandedTo(w.lost, id)| == |kept| + |B.HandedTo(w.lost, id)|;
  }

  /**
   A text is lost by exactly one kind of step: `send` of the chat handler finds the stop flag lowered
   when it begins and raised when it comes to its queue.
   */
  lemma LosesExactly(w: Office, e: Event)
    requires C.Bounded(w.engine.contacts)
    ensures Next(w, e).lost != w.lost <==>
            && e.EngineDoes? && e.action.MailFinish? && w.engine.external.Mailing?
            && !Own(w.engine, w.engine.external.id)
            && w.engine.chat.current == Some(w.engine.external.id) && w.engine.external.id < |w.engine.chat.messages|
            && w.engine.chat.life == 1
  {
    if e.EngineDoes? && e.action.MailFinish? && w.engine.external.Mailing? {
      SendIsSpoken(w.engine.chat, w.engine.external.id, w.engine.external.text, e.action.now, 0);
      assert |w.lost + [B.Handed(w.engine.external.id, w.engine.external.text)]| != |w.lost|;
    }
  }

  lemma BeginIsHalf(e: E.Engine, text: string, now: M.Timestamp)
    requires C.Bounded(e.contacts) && e.external == E.Quiet
    ensures var n, t := Peers.NodeOf(e), E.MailBeginStep(e, text);
            && C.Bounded(t.contacts) && t.host == e.host && |t.contacts.contacts| == |e.contacts.contacts|
            && (t.external == E.Quiet ==> !B.Dispatch(n, text, now).ok && !E.Running(t))
            && (t.external != E.Quiet ==>
                  && e.contacts.current.Some? && t.external == E.Mailing(e.contacts.current.value, text) && t.chat == e.chat
                  && var h := H.Send(e.chat, e.contacts.current.value, text, now);
                  && B.Dispatch(n, text, now) == B.Dispatched(B.Node(t.contacts, h.model, e.host), h.ok)
                  && (B.Outgoing(n) <==> !Own(t, e.contacts.current.value)))
  {
    if !E.Mismatch(e) {
      E.UpdateFrame(e.contacts, Sent(e.contacts.current.value));
      B.ChangeStaysBounded(e.contacts, Sent(e.contacts.current.value));
    }
  }

  /** With nobody in between, the three steps are `handleSend`. */
  lemma ThreeStepsAreHandleSend(w: Office, text: string, now: M.Timestamp, stubMade: bool)
    requires C.Bounded(w.engine.contacts) && w.engine.external == E.Quiet && w.posting.None?
    ensures var begun := Next(w, EngineDoes(E.MailBegin(text)));
            var stored := Next(begun, EngineDoes(E.MailFinish(now)));
            var t := Next(stored, PostFinish(stubMade));
            var n := Peers.NodeOf(w.engine);
            var d := B.Dispatch(n, text, now);
            && (d.ok ==> Peers.NodeOf(t.engine) == d.node)
            && (!d.ok ==> !E.Running(t.engine))
            && t.post == (if d.ok && B.Outgoing(n) then B.Enqueue(w.post, n.contacts.current.value, text, stubMade) else w.post)
  {
    BeginIsHalf(w.engine, text, now);
    var begun := Next(w, EngineDoes(E.MailBegin(text)));
    assert begun == w.(engine := E.MailBeginStep(w.engine, text));
    FinishMoves(begun, now);
  }

  // ------------------------------------------------------------- a lost text

  const SETUP := E.Setup(100, 6, "you", "A", "10.0.0.1:9000", M.Timestamp(""))

  lemma RunSnoc(events: seq<Event>, a: E.Action)
    requires E.Inv(Run(SETUP, events).engine)
    ensures Run(SETUP, events + [EngineDoes(a)]) == EngineNext(Run(SETUP, events), a)
  {
    assert (events + [EngineDoes(a)])[..|events|] == events;
  }

  /** A running engine whose chat handler reads the stop flag lowered `left` more times. */
  ghost predicate Stands(e: E.Engine, left: nat)
  {
    && E.Inv(e) && E.Running(e) && e.contacts.life >= 80 && e.chat.life == left && e.host == "10.0.0.1:9000"
  }

  lemma Begins()
    ensures var e := E.Bootstrap(SETUP);
            && Stands(e, 4) && e.contacts.life >= 90 && e.adding == E.Free && e.external == E.Quiet
            && |e.contacts.contacts| == 1 && e.contacts.identities == map["A" := 0] && e.chat.messages == [[]] && e.chat.current == Some(0)
  {
    E.BootstrapInv(SETUP);
  }

  lemma Greeted(e: E.Engine)
    requires Stands(e, 4) && e.contacts.life >= 90 && e.adding == E.Free && e.external == E.Quiet
    requires |e.contacts.contacts| == 1 && e.contacts.identities == map["A" := 0] && e.chat.messages == [[]] && e.chat.current == Some(0)
    ensures var t := E.Step(e, E.NEIGHBOUR);
            && Stands(t, 4) && t.contacts.life >= 89 && t.adding == E.Created(1) && t.external == E.Quiet
            && |t.contacts.contacts| == 2 && t.contacts.contacts[1].ipAddressAndPort != t.host && t.chat == e.chat
  {
    E.GreetingOpensTheWindow(e, E.NEIGHBOUR);
    E.NewcomerIsThere(e, E.NEIGHBOUR);
  }

  lemma Stored(e: E.Engine)
    requires Stands(e, 4) && e.contacts.life >= 89 && e.adding == E.Created(1) && e.external == E.Quiet && e.chat.messages == [[]] && e.chat.current == Some(0)
    ensures var t := E.Step(e, E.GreetStore);
            && Stands(t, 3) && t.contacts == e.contacts && t.external == E.Quiet && t.chat.messages == [[], []] && t.chat.current == Some(0)
  {
    E.GreetStoreKeeps(e);
  }

  lemma Selecting(e: E.Engine)
    requires Stands(e, 3) && e.contacts.life >= 89 && e.external == E.Quiet && |e.contacts.contacts| == 2
    requires e.contacts.contacts[1].ipAddressAndPort != e.host
    ensures var t := E.Step(e, E.SelectBegin(1));
            && Stands(t, 3) && t.external == E.Selecting(1, true) && t.chat == e.chat
            && |t.contacts.contacts| == 2 && t.contacts.contacts[1].ipAddressAndPort != t.host
  {
    E.SelectBeginKeeps(e, 1);
    E.SelectFrame(e.contacts, 1);
    SelectLifeLeft(e.contacts, 1);
  }

  lemma SelectLifeLeft(m: C.Model, id: nat)
    requires C.Bounded(m)
    ensures C.Select(m, id).model.life + 2 >= m.life
  {
  }

  lemma Chosen(e: E.Engine)
    requires Stands(e, 3) && e.external == E.Selecting(1, true) && e.chat.messages == [[], []] && e.chat.current == Some(0)
    ensures var t := E.Step(e, E.SelectFinish(M.Timestamp("")));
            && Stands(t, 1) && t.external == E.Quiet && t.chat.messages == [[], []] && t.chat.current == Some(1)
            && t.contacts == e.contacts
  {
    E.SelectFinishKeeps(e, M.Timestamp(""));
  }

  lemma Mailed(e: E.Engine)
    requires Stands(e, 1) && e.external == E.Quiet && e.chat.current == Some(1) && |e.contacts.contacts| == 2
    requires e.contacts.contacts[1].ipAddressAndPort != e.host
    ensures var t := E.Step(e, E.MailBegin("hi"));
            && E.Inv(t) && t.external == E.Mailing(1, "hi") && t.chat == e.chat && !Own(t, 1)
  {
    E.MailBeginKeeps(e, "hi");
    E.UpdateFrame(e.contacts, Sent(1));
    AcceptedExactly(e.contacts.contacts[1].state, 1);
  }

  /** A run of steps of the engine alone that ends on `e`. */
  ghost predicate EndsOn(events: seq<Event>, e: E.Engine)
  {
    Run(SETUP, events) == Office(e, B.EMPTY, None, [])
  }

  lemma GoesOn(events: seq<Event>, e: E.Engine, a: E.Action) returns (later: seq<Event>, t: E.Engine)
    requires EndsOn(events, e) && E.Inv(e) && !a.MailFinish?
    ensures t == E.Step(e, a) && EndsOn(later, t)
  {
    RunSnoc(events, a);
    later, t := events + [EngineDoes(a)], E.Step(e, a);
  }

  /** The neighbour joins. */
  lemma Joined() returns (events: seq<Event>, e: E.Engine)
    ensures EndsOn(events, e)
    ensures Stands(e, 3) && e.contacts.life >= 89 && e.external == E.Quiet && |e.contacts.contacts| == 2
    ensures e.contacts.contacts[1].ipAddressAndPort != e.host
    ensures e.chat.messages == [[], []] && e.chat.current == Some(0)
  {
    events, e := [], E.Bootstrap(SETUP);
    Begins();
    Greeted(e);
    events, e := GoesOn(events, e, E.NEIGHBOUR);
    Stored(e);
    events, e := GoesOn(events, e, E.GreetStore);
  }

  /** It is selected. */
  lemma Opened() returns (events: seq<Event>, e: E.Engine)
    ensures EndsOn(events, e)
    ensures Stands(e, 1) && e.external == E.Quiet && |e.contacts.contacts| == 2
    ensures e.contacts.contacts[1].ipAddressAndPort != e.host
    ensures e.chat.messages == [[], []] && e.chat.current == Some(1)
  {
    events, e := Joined();
    Selecting(e);
    events, e := GoesOn(events, e, E.SelectBegin(1));
    Chosen(e);
    events, e := GoesOn(events, e, E.SelectFinish(M.Timestamp("")));
  }

  /** And a text is typed for it. */
  lemma Typed() returns (events: seq<Event>, e: E.Engine)
    ensures EndsOn(events, e)
    ensures E.Inv(e) && e.external == E.Mailing(1, "hi") && !Own(e, 1)
    ensures e.chat.life == 1 && e.chat.current == Some(1) && e.chat.messages == [[], []]
  {
    events, e := Opened();
    Mailed(e);
    events, e := GoesOn(events, e, E.MailBegin("hi"));
  }

  /**
   There is a run in which a text is shown as sent and is never handed over: the stop lands between
   storing and queueing it.
   */
  lemma LostText() returns (events: seq<Event>)
    ensures var w := Run(SETUP, events);
            && w.lost == [B.Handed(1, "hi")] && !Own(w.engine, 1)
            && SpokenIn(w.engine.chat.messages, 1) == ["hi"]
            && B.HandedTo(w.post.handed, 1) == [] && w.posting.None?
  {
    var e;
    events, e := Typed();
    var w, now := Office(e, B.EMPTY, None, []), M.Timestamp("");
    RunSnoc(events, E.MailFinish(now));
    FinishMoves(w, now);
    SendIsSpoken(w.engine.chat, 1, "hi", now, 1);
    events := events + [EngineDoes(E.MailFinish(now))];
  }
}
