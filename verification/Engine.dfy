/**
 The engine (engine/src/TTEngine.cpp) and what its parts do to the two stores it owns: the
 contacts and the conversations. Every region under a lock is one step; steps of different
 threads interleave arbitrarily.
 */
module Engine {
  import opened Common
  import opened ContactStates
  import opened Discovery
  import C = ContactsHandlers
  import CR = ContactsReplica
  import H = ChatHandlers
  import M = ChatMessages
  import ChatPipeline

  /** `addNeighbor` between its three writes, under the neighbour lock. */
  datatype Adding = Free | Created(id: nat) | Stored(id: nat)

  /** `selection` and `mailbox` between their two handler calls, under the external-calls lock. */
  datatype External = Quiet | Selecting(id: nat, ok: bool) | Mailing(id: nat, text: string)

  /** A `handleReceive` between the contacts call and its chat calls. */
  datatype Inbound = Inbound(id: nat, texts: seq<string>)

  datatype Engine = Engine(
    contacts: C.Model, chat: H.Model, host: string,
    adding: Adding, external: External, inbound: seq<Inbound>, dynamic: map<nat, Dynamic>)

  datatype Action =
    | GreetBegin(nickname: string, identity: string, address: string)
    | GreetStore
    | GreetFinish
    | SelectBegin(id: nat)
    | SelectFinish(now: M.Timestamp)
    | MailBegin(text: string)
    | MailFinish(now: M.Timestamp)
    | ReceiveBegin(identity: string, texts: seq<string>)
    | ReceiveNext(k: nat, now: M.Timestamp)
    | ProbeNext(id: nat, probe: Probe)
    | HeartbeatFrom(identity: string)
    | StopContacts
    | StopChat

  /** Every component is stopped. */
  function StopAll(e: Engine): Engine
  {
    e.(contacts := e.contacts.(life := 0), chat := e.chat.(life := 0))
  }

  /**
   A failed assertion ends the whole process: nothing runs any more. The bounded nickname of a
   contacts message is guarded by one, and it fails before the contact is stored.
   */
  function Aborted(e: Engine): Engine
  {
    StopAll(e)
  }

  predicate Running(e: Engine)
  {
    e.contacts.life > 0 && e.chat.life > 0
  }

  function WithContacts(e: Engine, r: C.Result): Engine
  {
    if r.ok then e.(contacts := r.model) else StopAll(e.(contacts := r.model))
  }

  function WithChat(e: Engine, r: H.Result): Engine
  {
    if r.ok then e.(chat := r.model) else StopAll(e.(chat := r.model))
  }

  function Known(e: Engine, identity: string): Option<nat>
  {
    C.Lookup(e.contacts.identities, identity)
  }

  function GreetBeginStep(e: Engine, nickname: string, identity: string, address: string): Engine
    requires C.Bounded(e.contacts)
  {
    if e.adding != Free || nickname == "" || identity == "" || address == "" then e
    else if Known(e, identity).Some? then WithContacts(e, C.Update(e.contacts, Activated(Known(e, identity).value)))
    else if !CR.Fits(nickname) then Aborted(e)
    else
      var r := C.Create(e.contacts, nickname, identity, address);
      if !r.ok then e.(contacts := r.model)
      else e.(contacts := r.model, adding := Created(r.model.identities[identity]))
  }

  function GreetStoreStep(e: Engine): Engine
  {
    if !e.adding.Created? then e
    else
      var r := H.Create(e.chat, e.adding.id);
      WithChat(e, r).(adding := if r.ok then Stored(e.adding.id) else Free)
  }

  function GreetFinishStep(e: Engine): Engine
  {
    if !e.adding.Stored? then e
    else e.(adding := Free,
            dynamic := if e.adding.id in e.dynamic then e.dynamic else e.dynamic[e.adding.id := NEWCOMER])
  }

  function SelectBeginStep(e: Engine, id: nat): Engine
    requires C.Bounded(e.contacts)
  {
    if e.external != Quiet || id >= |e.contacts.contacts| then e
    else
      var r := C.Select(e.contacts, id);
      e.(contacts := r.model, external := Selecting(id, r.ok))
  }

  function SelectFinishStep(e: Engine, now: M.Timestamp): Engine
  {
    if !e.external.Selecting? then e
    else
      var r := H.Select(e.chat, e.external.id, now);
      WithChat(e, H.Result(r.model, r.ok && e.external.ok)).(external := Quiet)
  }

  /** The mismatch arm of `handleSend` is the second condition. */
  predicate Mismatch(e: Engine)
  {
    e.contacts.current.None? || e.chat.current != e.contacts.current
  }

  function MailBeginStep(e: Engine, text: string): Engine
    requires C.Bounded(e.contacts)
  {
    if e.external != Quiet then e
    else if Mismatch(e) then StopAll(e)
    else
      var r := C.Update(e.contacts, Sent(e.contacts.current.value));
      WithContacts(e, r).(external := if r.ok then Mailing(e.contacts.current.value, text) else Quiet)
  }

  function MailFinishStep(e: Engine, now: M.Timestamp): Engine
  {
    if !e.external.Mailing? then e
    else WithChat(e, H.Send(e.chat, e.external.id, e.external.text, now)).(external := Quiet)
  }

  function ReceiveBeginStep(e: Engine, identity: string, texts: seq<string>): Engine
    requires C.Bounded(e.contacts)
  {
    var id := Known(e, identity);
    if id.None? || id.value >= |e.contacts.contacts| || e.contacts.contacts[id.value].ipAddressAndPort == e.host then e
    else
      var r := C.Update(e.contacts, Received(id.value));
      WithContacts(e, r).(inbound := if r.ok then e.inbound + [Inbound(id.value, texts)] else e.inbound)
  }

  function ReceiveNextStep(e: Engine, k: nat, now: M.Timestamp): Engine
  {
    if k >= |e.inbound| then e
    else if e.inbound[k].texts == [] then e.(inbound := e.inbound[..k] + e.inbound[k + 1..])
    else
      var i := e.inbound[k];
      var r := H.Receive(e.chat, i.id, i.texts[0], now);
      WithChat(e, r).(inbound := if r.ok then e.inbound[k := Inbound(i.id, i.texts[1..])]
                                 else e.inbound[..k] + e.inbound[k + 1..])
  }

  /** One neighbour of the dynamic loop; the contact is told before the counter is decremented. */
  function ProbeStep(e: Engine, id: nat, probe: Probe): Engine
    requires C.Bounded(e.contacts)
  {
    if e.adding != Free || id !in e.dynamic || e.dynamic[id].trials == 0 then e
    else
      var r := if probe == NoStub then C.Result(e.contacts, true)
               else C.Update(e.contacts, if probe == Answered then Activated(id) else Deactivated(id));
      if !r.ok then WithContacts(e, r)
      else e.(contacts := r.model, dynamic := e.dynamic[id := Probed(e.dynamic[id], probe)])
  }

  function HeartbeatStep(e: Engine, identity: string): Engine
    requires C.Bounded(e.contacts)
  {
    if Known(e, identity).None? then e
    else WithContacts(e, C.Update(e.contacts, Activated(Known(e, identity).value)))
  }

  function Step(e: Engine, a: Action): Engine
    requires C.Bounded(e.contacts)
  {
    match a
    case GreetBegin(nickname, identity, address) => GreetBeginStep(e, nickname, identity, address)
    case GreetStore => GreetStoreStep(e)
    case GreetFinish => GreetFinishStep(e)
    case SelectBegin(id) => SelectBeginStep(e, id)
    case SelectFinish(now) => SelectFinishStep(e, now)
    case MailBegin(text) => MailBeginStep(e, text)
    case MailFinish(now) => MailFinishStep(e, now)
    case ReceiveBegin(identity, texts) => ReceiveBeginStep(e, identity, texts)
    case ReceiveNext(k, now) => ReceiveNextStep(e, k, now)
    case ProbeNext(id, probe) => ProbeStep(e, id, probe)
    case HeartbeatFrom(identity) => HeartbeatStep(e, identity)
    case StopContacts => e.(contacts := e.contacts.(life := 0))
    case StopChat => e.(chat := e.chat.(life := 0))
  }

  /** What an engine is constructed with; the stop flags may be raised at any later moment. */
  datatype Setup = Setup(contactsLife: nat, chatLife: nat, nickname: string, identity: string, host: string, now: M.Timestamp)

  /** The constructor's bootstrap: the host is contact 0, and selected. */
  function Bootstrap(setup: Setup): Engine
    requires CR.Fits(setup.nickname)
  {
    var c := C.Create(C.Initial(setup.contactsLife), setup.nickname, setup.identity, setup.host).model;
    var h := H.Create(H.Model([], None, [], setup.chatLife), 0).model;
    Engine(C.Select(c, 0).model, H.Select(h, 0, setup.now).model, setup.host, Free, Quiet, [], map[])
  }

  // -------------------------------------------------------------- invariants

  /** No two contacts share an identity. */
  ghost predicate Unique(contacts: seq<C.Contact>)
  {
    forall i, j :: 0 <= i < j < |contacts| ==> contacts[i].identity != contacts[j].identity
  }

  /** Holds in every reachable state, stopped or not. */
  ghost predicate Always(e: Engine)
  {
    && C.Inv(e.contacts)
    && Unique(e.contacts.contacts)
    && ChatPipeline.HandlerInv(e.chat)
    && (forall id :: id in e.dynamic ==> id < |e.contacts.contacts| && DynamicInv(e.dynamic[id]))
    && (e.external.Selecting? ==> e.external.id < |e.contacts.contacts|)
    && (e.adding != Free ==> e.adding.id < |e.contacts.contacts|)
  }

  function Window(a: Adding): nat
  {
    if a.Created? then 1 else 0
  }

  ghost predicate CountsAgree(e: Engine)
  {
    && 1 <= |e.contacts.contacts| == |e.chat.messages| + Window(e.adding)
    && (e.adding != Free ==> 1 <= e.adding.id == |e.contacts.contacts| - 1)
    && (forall id :: id in e.dynamic <==> 1 <= id < |e.contacts.contacts| && !(e.adding != Free && id == e.adding.id))
    && (forall k :: 0 <= k < |e.inbound| ==> e.inbound[k].id < |e.contacts.contacts|)
  }

  ghost predicate CurrentsAgree(e: Engine)
  {
    && e.contacts.current.Some?
    && (e.external.Selecting? ==> e.external.ok && e.contacts.current == Some(e.external.id))
    && (!e.external.Selecting? ==> e.chat.current == e.contacts.current)
    && (e.external.Mailing? ==> e.contacts.current == Some(e.external.id))
  }

  ghost predicate Inv(e: Engine)
  {
    && Always(e)
    && (Running(e) ==> CountsAgree(e) && CurrentsAgree(e))
  }

  // ------------------------------------------------------------- store facts

  lemma LookupIsLast(m: C.Model, identity: string)
    requires C.IndexInv(m.identities, m.contacts)
    ensures C.Lookup(m.identities, identity) == C.LastWith(m.contacts, identity)
  {
  }

  /** With unique identities the index and the list are inverse to each other. */
  lemma IndexIsInverse(e: Engine, i: nat)
    requires Always(e) && i < |e.contacts.contacts|
    ensures Known(e, e.contacts.contacts[i].identity) == Some(i)
  {
    var identity := e.contacts.contacts[i].identity;
    LookupIsLast(e.contacts, identity);
    C.LastWithIsLast(e.contacts.contacts, identity);
  }

  lemma KnownIsContact(e: Engine, identity: string)
    requires Always(e)
    ensures Known(e, identity).Some? ==>
              Known(e, identity).value < |e.contacts.contacts| && e.contacts.contacts[Known(e, identity).value].identity == identity
    ensures Known(e, identity).None? ==>
              forall i :: 0 <= i < |e.contacts.contacts| ==> e.contacts.contacts[i].identity != identity
  {
    LookupIsLast(e.contacts, identity);
    C.LastWithIsLast(e.contacts.contacts, identity);
  }

  /** What an operation on existing contacts leaves alone. */
  ghost predicate SameContacts(m: C.Model, n: C.Model)
  {
    && |m.contacts| == |n.contacts| && n.life <= m.life
    && forall i :: 0 <= i < |m.contacts| ==>
         && n.contacts[i].identity == m.contacts[i].identity
         && n.contacts[i].ipAddressAndPort == m.contacts[i].ipAddressAndPort
  }

  lemma AcceptFrame(m: C.Model, e: Event, state: State)
    requires e.id < |m.contacts|
    ensures SameContacts(m, C.Accept(m, e, state)) && C.Accept(m, e, state).current == m.current
    ensures SameContacts(m, C.Announce(C.Accept(m, e, state), e.id).model)
  {
  }

  lemma UpdateFrame(m: C.Model, e: Event)
    requires C.Bounded(m)
    ensures SameContacts(m, C.Update(m, e).model) && C.Update(m, e).model.current == m.current
  {
    if e.id < |m.contacts| && On(e, m.contacts[e.id].state).Some? {
      AcceptFrame(m, e, On(e, m.contacts[e.id].state).value);
    }
  }

  lemma SelectFrame(m: C.Model, id: nat)
    requires C.Bounded(m)
    ensures SameContacts(m, C.Select(m, id).model)
  {
  }

  lemma {:induction false} ReplayFrame(h: H.Model, entries: seq<M.Entry>)
    ensures var r := H.Replay(h, entries);
            r.model == h.(queue := r.model.queue, life := r.model.life) && r.model.life <= h.life
    ensures !H.Replay(h, entries).ok ==> H.Replay(h, entries).model.life == 0
    decreases |entries|
  {
    if entries != [] && h.life > 0 {
      ReplayFrame(H.Enqueue(h, entries[0].kind, entries[0].data, entries[0].timestamp).model, entries[1..]);
    }
  }

  /** Selecting an existing conversation fails only because of a stop. */
  lemma ChatSelectFrame(h: H.Model, id: nat, now: M.Timestamp)
    ensures var r := H.Select(h, id, now);
            && r.model.messages == h.messages && r.model.life <= h.life
            && (r.model.life > 0 ==> (r.ok <==> id < |h.messages|))
            && (r.model.life > 0 && r.ok ==> r.model.current == Some(id))
            && (r.model.current == h.current || r.model.current == Some(id))
            && (r.model.current == Some(id) ==> id < |h.messages| || h.current == Some(id))
  {
    if h.life > 0 && id < |h.messages| && h.current != Some(id) {
      var looked := H.Look(h).model;
      var cleared := if h.current.Some? then H.Enqueue(looked, M.CLEAR, "", now) else H.Result(looked, true);
      if cleared.ok { ReplayFrame(cleared.model.(current := Some(id)), h.messages[id]); }
    }
  }

  lemma ChatStoreKeepsTalk(h: H.Model, id: nat, e: M.Entry)
    requires ChatPipeline.HandlerInv(h) && id < |h.messages| && M.IsTalk(e.kind)
    ensures ChatPipeline.HandlerInv(H.Store(h, id, e))
  {
  }

  // ------------------------------------------------------------ preservation

  lemma ContactsUpdateKeeps(e: Engine, ev: Event)
    requires Inv(e) && (ev.Sent? || ev.Received? || ev.Activated? || ev.Deactivated?)
    ensures Inv(WithContacts(e, C.Update(e.contacts, ev)))
    ensures Inv(e.(contacts := C.Update(e.contacts, ev).model))
  {
    C.UpdateKeepsInv(e.contacts, ev);
    UpdateFrame(e.contacts, ev);
    ContactsMoveKeeps(e, C.Update(e.contacts, ev).model);
    StopKeepsInv(e.(contacts := C.Update(e.contacts, ev).model));
  }

  lemma ContactsMoveKeeps(e: Engine, m: C.Model)
    requires Inv(e) && C.Inv(m) && SameContacts(e.contacts, m) && m.current == e.contacts.current
    ensures Inv(e.(contacts := m))
  {
  }

  lemma StopKeepsInv(e: Engine)
    requires Always(e)
    ensures Inv(StopAll(e))
    ensures Inv(e.(contacts := e.contacts.(life := 0)))
    ensures Inv(e.(chat := e.chat.(life := 0)))
  {
    C.SameContactsKeepInv(e.contacts, e.contacts.(life := 0));
  }

  lemma GreetBeginKeeps(e: Engine, nickname: string, identity: string, address: string)
    requires Inv(e)
    ensures Inv(GreetBeginStep(e, nickname, identity, address))
  {
    if e.adding == Free && nickname != "" && identity != "" && address != "" {
      if Known(e, identity).Some? {
        ContactsUpdateKeeps(e, Activated(Known(e, identity).value));
      } else if !CR.Fits(nickname) {
        StopKeepsInv(e);
      } else {
        KnownIsContact(e, identity);
        C.CreateKeepsInv(e.contacts, nickname, identity, address);
        NewcomerKeeps(e, nickname, identity, address);
      }
    }
  }

  lemma NewcomerKeeps(e: Engine, nickname: string, identity: string, address: string)
    requires Inv(e) && e.adding == Free && nickname != "" && identity != "" && address != ""
    requires Known(e, identity).None? && CR.Fits(nickname)
    requires forall i :: 0 <= i < |e.contacts.contacts| ==> e.contacts.contacts[i].identity != identity
    requires C.Inv(C.Create(e.contacts, nickname, identity, address).model)
    ensures Inv(GreetBeginStep(e, nickname, identity, address))
  {
    var t := GreetBeginStep(e, nickname, identity, address);
    var n := |e.contacts.contacts|;
    assert t.contacts.contacts[..n] == e.contacts.contacts && t.contacts.contacts[n].identity == identity;
    assert t.contacts.life > 0 ==> t.adding == Created(n);
  }

  lemma GreetStoreKeeps(e: Engine)
    requires Inv(e)
    ensures Inv(GreetStoreStep(e))
  {
    if e.adding.Created? {
      var r := H.Create(e.chat, e.adding.id);
      StopKeepsInv(e.(chat := r.model, adding := Free));
    }
  }

  /** The conversation of a new contact can only be refused by a handler that has stopped. */
  lemma StoreFailsOnlyWhenStopped(e: Engine)
    requires Inv(e) && e.adding.Created?
    ensures var r := H.Create(e.chat, e.adding.id);
            && (Running(e) ==> r.ok)
            && (!r.ok ==> Inv(e.(chat := r.model, adding := Free)))
  {
  }

  lemma GreetFinishKeeps(e: Engine)
    requires Inv(e)
    ensures Inv(GreetFinishStep(e))
  {
  }

  lemma SelectBeginKeeps(e: Engine, id: nat)
    requires Inv(e)
    ensures Inv(SelectBeginStep(e, id))
  {
    if e.external == Quiet && id < |e.contacts.contacts| {
      var r := C.Select(e.contacts, id);
      C.SelectKeepsInv(e.contacts, id);
      SelectFrame(e.contacts, id);
      C.SelectArms(e.contacts, id);
    }
  }

  lemma SelectFinishKeeps(e: Engine, now: M.Timestamp)
    requires Inv(e)
    ensures Inv(SelectFinishStep(e, now))
  {
    if e.external.Selecting? {
      var r := H.Select(e.chat, e.external.id, now);
      ChatSelectFrame(e.chat, e.external.id, now);
      StopKeepsInv(e.(chat := r.model, external := Quiet));
    }
  }

  lemma MailBeginKeeps(e: Engine, text: string)
    requires Inv(e)
    ensures Inv(MailBeginStep(e, text))
  {
    if e.external == Quiet {
      if Mismatch(e) {
        StopKeepsInv(e);
      } else {
        ContactsUpdateKeeps(e, Sent(e.contacts.current.value));
        UpdateFrame(e.contacts, Sent(e.contacts.current.value));
      }
    }
  }

  lemma MailFinishKeeps(e: Engine, now: M.Timestamp)
    requires Inv(e)
    ensures Inv(MailFinishStep(e, now))
  {
    if e.external.Mailing? {
      var r := H.Send(e.chat, e.external.id, e.external.text, now);
      if e.external.id < |e.chat.messages| {
        ChatStoreKeepsTalk(e.chat, e.external.id, M.Entry(M.SENDER, now, e.external.text));
      }
      assert ChatPipeline.HandlerInv(r.model);
      StopKeepsInv(e.(chat := r.model, external := Quiet));
    }
  }

  lemma ReceiveBeginKeeps(e: Engine, identity: string, texts: seq<string>)
    requires Inv(e)
    ensures Inv(ReceiveBeginStep(e, identity, texts))
  {
    var id := Known(e, identity);
    if id.Some? && id.value < |e.contacts.contacts| {
      ContactsUpdateKeeps(e, Received(id.value));
      UpdateFrame(e.contacts, Received(id.value));
    }
  }

  lemma ReceiveNextKeeps(e: Engine, k: nat, now: M.Timestamp)
    requires Inv(e)
    ensures Inv(ReceiveNextStep(e, k, now))
  {
    if k < |e.inbound| && e.inbound[k].texts != [] {
      var i := e.inbound[k];
      var r := H.Receive(e.chat, i.id, i.texts[0], now);
      if i.id < |e.chat.messages| {
        ChatStoreKeepsTalk(e.chat, i.id, M.Entry(M.RECEIVER, now, i.texts[0]));
      }
      assert ChatPipeline.HandlerInv(r.model);
      StopKeepsInv(e.(chat := r.model, inbound := e.inbound[..k] + e.inbound[k + 1..]));
    }
  }

  lemma ProbeKeeps(e: Engine, id: nat, probe: Probe)
    requires Inv(e)
    ensures Inv(ProbeStep(e, id, probe))
  {
    if e.adding == Free && id in e.dynamic && e.dynamic[id].trials > 0 {
      ProbedKeepsInv(e.dynamic[id], probe);
      if probe != NoStub {
        ContactsUpdateKeeps(e, if probe == Answered then Activated(id) else Deactivated(id));
      }
    }
  }

  lemma StepKeepsInv(e: Engine, a: Action)
    requires Inv(e)
    ensures Inv(Step(e, a))
  {
    match a
    case GreetBegin(nickname, identity, address) => GreetBeginKeeps(e, nickname, identity, address);
    case GreetStore => GreetStoreKeeps(e);
    case GreetFinish => GreetFinishKeeps(e);
    case SelectBegin(id) => SelectBeginKeeps(e, id);
    case SelectFinish(now) => SelectFinishKeeps(e, now);
    case MailBegin(text) => MailBeginKeeps(e, text);
    case MailFinish(now) => MailFinishKeeps(e, now);
    case ReceiveBegin(identity, texts) => ReceiveBeginKeeps(e, identity, texts);
    case ReceiveNext(k, now) => ReceiveNextKeeps(e, k, now);
    case ProbeNext(id, probe) => ProbeKeeps(e, id, probe);
    case HeartbeatFrom(identity) =>
      if Known(e, identity).Some? { ContactsUpdateKeeps(e, Activated(Known(e, identity).value)); }
    case StopContacts => StopKeepsInv(e);
    case StopChat => StopKeepsInv(e);
  }

  // ------------------------------------------------------------------- runs

  lemma BootstrapInv(setup: Setup)
    requires CR.Fits(setup.nickname)
    ensures Inv(Bootstrap(setup))
  {
    var c0 := C.Initial(setup.contactsLife);
    C.InitialInv(setup.contactsLife);
    C.CreateKeepsInv(c0, setup.nickname, setup.identity, setup.host);
    var c := C.Create(c0, setup.nickname, setup.identity, setup.host).model;
    C.SelectKeepsInv(c, 0);
    SelectFrame(c, 0);
    C.SelectArms(c, 0);
    var h := H.Create(H.Model([], None, [], setup.chatLife), 0).model;
    ChatSelectFrame(h, 0, setup.now);
  }

  /** The state after a run; by `RunKeepsInv` its last arm is never taken. */
  function Run(setup: Setup, actions: seq<Action>): Engine
    requires CR.Fits(setup.nickname)
  {
    if actions == [] then Bootstrap(setup)
    else
      var e := Run(setup, actions[..|actions| - 1]);
      if C.Bounded(e.contacts) then Step(e, actions[|actions| - 1]) else e
  }

  lemma {:induction false} RunKeepsInv(setup: Setup, actions: seq<Action>)
    requires CR.Fits(setup.nickname)
    ensures Inv(Run(setup, actions))
  {
    if actions == [] {
      BootstrapInv(setup);
    } else {
      RunKeepsInv(setup, actions[..|actions| - 1]);
      StepKeepsInv(Run(setup, actions[..|actions| - 1]), actions[|actions| - 1]);
    }
  }

  // ---------------------------------------------------------------- theorems

  /**
   While running, in every reachable state: the stores have the same size but for the one
   contact `addNeighbor` is creating, its conversation can then be created, every other
   contact but the host is probed, and outside `selection` both currents agree.
   */
  lemma StoresAgree(setup: Setup, actions: seq<Action>)
    requires CR.Fits(setup.nickname)
    ensures var e := Run(setup, actions);
            Running(e) ==>
              && |e.contacts.contacts| == |e.chat.messages| + Window(e.adding)
              && (e.adding.Created? ==> H.Create(e.chat, e.adding.id).ok)
              && (e.adding == Free ==> forall id :: id in e.dynamic <==> 1 <= id < |e.contacts.contacts|)
              && (!e.external.Selecting? ==> !Mismatch(e))
  {
    RunKeepsInv(setup, actions);
  }

  /** In every reachable state, stopped or not, the index and the list are inverse to each other. */
  lemma IdentitiesAreUnique(setup: Setup, actions: seq<Action>, identity: string, i: nat)
    requires CR.Fits(setup.nickname)
    ensures var e := Run(setup, actions);
            i < |e.contacts.contacts| ==> (Known(e, identity) == Some(i) <==> e.contacts.contacts[i].identity == identity)
  {
    RunKeepsInv(setup, actions);
    var e := Run(setup, actions);
    KnownIsContact(e, identity);
    if i < |e.contacts.contacts| { IndexIsInverse(e, i); }
  }

  /** In every reachable state a trial counter is five minus the misses in a row, and never below zero. */
  lemma CountersFollowProbes(setup: Setup, actions: seq<Action>, id: nat)
    requires CR.Fits(setup.nickname)
    requires id in Run(setup, actions).dynamic
    ensures var d := Run(setup, actions).dynamic[id];
            && id < |Run(setup, actions).contacts.contacts|
            && d.trials == INACTIVITY_TRIALS - Misses(d.probes)
  {
    RunKeepsInv(setup, actions);
    assert DynamicInv(Run(setup, actions).dynamic[id]);
  }

  /** No stop by another thread lands within the next operation. */
  ghost predicate Unhurried(e: Engine)
  {
    && e.contacts.life >= 3
    && e.chat.life >= 4
    && forall id :: 0 <= id < |e.chat.messages| ==> e.chat.life >= |e.chat.messages[id]| + 4
  }

  /** The steps by which a running engine stops itself. */
  predicate Fatal(e: Engine, a: Action)
    requires CountsAgree(e)
  {
    match a
    // A greeting from an unknown neighbour whose nickname is too long for a message.
    case GreetBegin(nickname, identity, address) =>
      && e.adding == Free && nickname != "" && identity != "" && address != ""
      && Known(e, identity).None? && !CR.Fits(nickname)
    // Selecting the contact whose conversation does not exist yet.
    case SelectFinish(now) => e.external.Selecting? && e.adding == Created(e.external.id)
    // A message from a known contact that is marked inactive.
    case ReceiveBegin(identity, texts) =>
      var id := Known(e, identity);
      && id.Some? && id.value < |e.contacts.contacts| && e.contacts.contacts[id.value].ipAddressAndPort != e.host
      && !IsActive(e.contacts.contacts[id.value].state)
    // A message from the contact whose conversation does not exist yet.
    case ReceiveNext(k, now) => k < |e.inbound| && e.inbound[k].texts != [] && e.adding == Created(e.inbound[k].id)
    case StopContacts => true
    case StopChat => true
    case _ => false
  }

  lemma {:induction false} ReplayLife(h: H.Model, entries: seq<M.Entry>)
    requires h.life > |entries|
    ensures H.Replay(h, entries).ok && H.Replay(h, entries).model.life == h.life - |entries|
    decreases |entries|
  {
    if entries != [] {
      ReplayLife(H.Enqueue(h, entries[0].kind, entries[0].data, entries[0].timestamp).model, entries[1..]);
    }
  }

  lemma ChatSelectLife(e: Engine, id: nat, now: M.Timestamp)
    requires Unhurried(e)
    ensures H.Select(e.chat, id, now).model.life > 0
  {
    if id < |e.chat.messages| && e.chat.current != Some(id) {
      var looked := H.Look(e.chat).model;
      var cleared := if e.chat.current.Some? then H.Enqueue(looked, M.CLEAR, "", now).model else looked;
      ReplayLife(cleared.(current := Some(id)), e.chat.messages[id]);
    }
  }

  lemma UpdateLife(m: C.Model, e: Event)
    requires C.Bounded(m) && m.life >= 3
    ensures C.Update(m, e).model.life > 0
    ensures C.Update(m, e).ok <==> e.id < |m.contacts| && On(e, m.contacts[e.id].state).Some?
  {
  }

  /** Activation is accepted in every state, deactivation too. */
  lemma LivenessNeverFails(e: Engine, id: nat)
    requires Inv(e) && Running(e) && Unhurried(e) && id < |e.contacts.contacts|
    ensures var r := C.Update(e.contacts, Activated(id)); r.ok && r.model.life > 0
    ensures var r := C.Update(e.contacts, Deactivated(id)); r.ok && r.model.life > 0
  {
    UpdateLife(e.contacts, Activated(id));
    UpdateLife(e.contacts, Deactivated(id));
  }

  lemma GreetingStopsExactly(e: Engine, nickname: string, identity: string, address: string)
    requires Inv(e) && Running(e) && Unhurried(e)
    ensures Running(GreetBeginStep(e, nickname, identity, address)) <==> !Fatal(e, GreetBegin(nickname, identity, address))
    ensures Running(GreetStoreStep(e)) && Running(GreetFinishStep(e))
  {
    KnownIsContact(e, identity);
    if Known(e, identity).Some? { LivenessNeverFails(e, Known(e, identity).value); }
  }

  lemma ProbingNeverStops(e: Engine, id: nat, probe: Probe, identity: string)
    requires Inv(e) && Running(e) && Unhurried(e)
    ensures Running(ProbeStep(e, id, probe)) && Running(HeartbeatStep(e, identity))
  {
    KnownIsContact(e, identity);
    if Known(e, identity).Some? { LivenessNeverFails(e, Known(e, identity).value); }
    if id in e.dynamic { LivenessNeverFails(e, id); }
  }

  lemma SelectionStopsExactly(e: Engine, id: nat, now: M.Timestamp)
    requires Inv(e) && Running(e) && Unhurried(e)
    ensures Running(SelectBeginStep(e, id))
    ensures Running(SelectFinishStep(e, now)) <==> !Fatal(e, SelectFinish(now))
  {
    C.SelectArms(e.contacts, id);
    SelectLife(e.contacts, id);
    if e.external.Selecting? {
      ChatSelectLife(e, e.external.id, now);
      ChatSelectFrame(e.chat, e.external.id, now);
    }
  }

  lemma SelectLife(m: C.Model, id: nat)
    requires C.Bounded(m) && m.life >= 3
    ensures C.Select(m, id).model.life > 0
  {
  }

  lemma SendingNeverStops(e: Engine, text: string, now: M.Timestamp)
    requires Inv(e) && Running(e) && Unhurried(e)
    ensures Running(MailBeginStep(e, text)) && Running(MailFinishStep(e, now))
  {
    var id := e.contacts.current.value;
    UpdateLife(e.contacts, Sent(id));
    AcceptedExactly(e.contacts.contacts[id].state, id);
  }

  lemma ReceivingStopsExactly(e: Engine, identity: string, texts: seq<string>)
    requires Inv(e) && Running(e) && Unhurried(e)
    ensures Running(ReceiveBeginStep(e, identity, texts)) <==> !Fatal(e, ReceiveBegin(identity, texts))
  {
    KnownIsContact(e, identity);
    if Known(e, identity).Some? {
      var id := Known(e, identity).value;
      UpdateLife(e.contacts, Received(id));
      AcceptedExactly(e.contacts.contacts[id].state, id);
    }
  }

  lemma StoringStopsExactly(e: Engine, k: nat, now: M.Timestamp)
    requires Inv(e) && Running(e) && Unhurried(e)
    ensures Running(ReceiveNextStep(e, k, now)) <==> !Fatal(e, ReceiveNext(k, now))
  {
  }

  /**
   A running engine that nobody else stops goes on running after any step, except exactly
   the fatal ones; in particular `mChat->create` and `handleSend` never stop it.
   */
  lemma StopsItselfExactly(e: Engine, a: Action)
    requires Inv(e) && Running(e) && Unhurried(e)
    ensures Running(Step(e, a)) <==> !Fatal(e, a)
  {
    match a
    case GreetBegin(nickname, identity, address) => GreetingStopsExactly(e, nickname, identity, address);
    case GreetStore => GreetingStopsExactly(e, "", "", "");
    case GreetFinish =>
    case SelectBegin(id) => SelectionStopsExactly(e, id, M.Timestamp(""));
    case SelectFinish(now) => SelectionStopsExactly(e, 0, now);
    case MailBegin(text) => SendingNeverStops(e, text, M.Timestamp(""));
    case MailFinish(now) => SendingNeverStops(e, "", now);
    case ReceiveBegin(identity, texts) => ReceivingStopsExactly(e, identity, texts);
    case ReceiveNext(k, now) => StoringStopsExactly(e, k, now);
    case ProbeNext(id, probe) => ProbingNeverStops(e, id, probe, "");
    case HeartbeatFrom(identity) => ProbingNeverStops(e, 0, NoStub, identity);
    case StopContacts =>
    case StopChat =>
  }

  /** The engine right after its constructor, with room for `life` reads of each stop flag. */
  function ExampleSetup(now: M.Timestamp): Setup
  {
    Setup(100, 100, "you", "A", "10.0.0.1:9000", now)
  }

  function Example(now: M.Timestamp): Engine
  {
    Bootstrap(ExampleSetup(now))
  }

  lemma ExampleFacts(now: M.Timestamp)
    ensures var e := Example(now);
            && Inv(e) && Running(e) && e.contacts.life >= 95 && e.chat.life >= 95
            && e.adding == Free && e.external == Quiet && e.host == "10.0.0.1:9000"
            && |e.contacts.contacts| == 1 && e.contacts.identities == map["A" := 0] && |e.chat.messages| == 1
  {
    BootstrapInv(ExampleSetup(now));
  }

  lemma GreetingOpensTheWindow(e: Engine, a: Action)
    requires Inv(e) && Running(e) && e.contacts.life >= 3 && e.adding == Free
    requires a.GreetBegin? && CR.Fits(a.nickname) && a.nickname != "" && a.identity != "" && a.address != ""
    requires Known(e, a.identity).None?
    ensures var t := Step(e, a);
            && Inv(t) && Running(t) && t.contacts.life == e.contacts.life - 1
            && t.adding == Created(|e.contacts.contacts|) && t.chat == e.chat && t.external == e.external
  {
    StepKeepsInv(e, a);
  }

  lemma SelectingTheNewcomer(e: Engine)
    requires Inv(e) && Running(e) && e.contacts.life >= 3 && e.adding.Created? && e.external == Quiet
    ensures var t := Step(e, SelectBegin(e.adding.id));
            && Inv(t) && t.chat == e.chat && t.adding == e.adding && Running(t)
            && t.external.Selecting? && t.external.id == e.adding.id
  {
    StepKeepsInv(e, SelectBegin(e.adding.id));
    SelectLife(e.contacts, e.adding.id);
  }

  lemma SelectionFails(e: Engine, now: M.Timestamp)
    requires Inv(e) && Running(e) && e.external.Selecting? && e.adding == Created(e.external.id)
    ensures !Running(Step(e, SelectFinish(now)))
  {
    ChatSelectFrame(e.chat, e.external.id, now);
  }

  /**
   The window is real: in every running state, selecting a neighbour between the two writes
   that create it stops the engine, even when nobody else does.
   */
  lemma SelectionInTheWindowStops(e: Engine, a: Action, now: M.Timestamp)
    requires Inv(e) && Running(e) && e.contacts.life >= 4 && e.adding == Free && e.external == Quiet
    requires a.GreetBegin? && CR.Fits(a.nickname) && a.nickname != "" && a.identity != "" && a.address != ""
    requires Known(e, a.identity).None?
    ensures var greeted := Step(e, a);
            && Inv(greeted) && Running(greeted)
            && var selecting := Step(greeted, SelectBegin(|e.contacts.contacts|));
            && Inv(selecting) && Running(selecting)
            && !Running(Step(selecting, SelectFinish(now)))
  {
    GreetingOpensTheWindow(e, a);
    var greeted := Step(e, a);
    SelectingTheNewcomer(greeted);
    SelectionFails(Step(greeted, SelectBegin(greeted.adding.id)), now);
  }

  /** So does a message of that neighbour arriving in the window. */
  lemma MessageInTheWindowStops(e: Engine, a: Action, texts: seq<string>, now: M.Timestamp)
    requires Inv(e) && Running(e) && e.contacts.life >= 4 && e.adding == Free && e.external == Quiet
    requires a.GreetBegin? && CR.Fits(a.nickname) && a.nickname != "" && a.identity != "" && a.address != ""
    requires Known(e, a.identity).None? && a.address != e.host && texts != []
    ensures var greeted := Step(e, a);
            && Inv(greeted) && Running(greeted)
            && var receiving := Step(greeted, ReceiveBegin(a.identity, texts));
            && Inv(receiving) && Running(receiving)
            && !Running(Step(receiving, ReceiveNext(|e.inbound|, now)))
  {
    GreetingOpensTheWindow(e, a);
    NewcomerIsThere(e, a);
    MessageReachesTheWindow(Step(e, a), a.identity, texts);
    StoringFails(Step(Step(e, a), ReceiveBegin(a.identity, texts)), |e.inbound|, now);
  }

  lemma NewcomerIsThere(e: Engine, a: Action)
    requires Inv(e) && Running(e) && e.contacts.life >= 3 && e.adding == Free
    requires a.GreetBegin? && CR.Fits(a.nickname) && a.nickname != "" && a.identity != "" && a.address != ""
    requires Known(e, a.identity).None?
    ensures var t, n := Step(e, a), |e.contacts.contacts|;
            && Known(t, a.identity) == Some(n) && |t.contacts.contacts| == n + 1
            && t.contacts.contacts[n].state == ACTIVE && t.contacts.contacts[n].ipAddressAndPort == a.address
            && t.host == e.host && t.inbound == e.inbound && t.dynamic == e.dynamic
  {
  }

  lemma MessageReachesTheWindow(e: Engine, identity: string, texts: seq<string>)
    requires Inv(e) && Running(e) && e.contacts.life >= 3 && e.adding.Created?
    requires Known(e, identity) == Some(e.adding.id) && e.contacts.contacts[e.adding.id].state == ACTIVE
    requires e.contacts.contacts[e.adding.id].ipAddressAndPort != e.host
    ensures var t := Step(e, ReceiveBegin(identity, texts));
            && Inv(t) && Running(t) && t.adding == e.adding && t.chat == e.chat
            && t.inbound == e.inbound + [Inbound(e.adding.id, texts)]
  {
    StepKeepsInv(e, ReceiveBegin(identity, texts));
    UpdateLife(e.contacts, Received(e.adding.id));
  }

  lemma StoringFails(e: Engine, k: nat, now: M.Timestamp)
    requires Inv(e) && Running(e) && k < |e.inbound| && e.inbound[k].texts != []
    requires e.adding == Created(e.inbound[k].id)
    ensures !Running(Step(e, ReceiveNext(k, now)))
  {
  }

  /** And so does, at any time, a message from a neighbour that is marked inactive. */
  lemma InactiveMessageStops(e: Engine, id: nat, texts: seq<string>)
    requires Inv(e) && id < |e.contacts.contacts| && !IsActive(e.contacts.contacts[id].state)
    requires e.contacts.contacts[id].ipAddressAndPort != e.host
    ensures !Running(Step(e, ReceiveBegin(e.contacts.contacts[id].identity, texts)))
  {
    IndexIsInverse(e, id);
    AcceptedExactly(e.contacts.contacts[id].state, id);
  }

  /** And a greeting whose nickname does not fit: the assertion ends the process. */
  lemma LongNicknameStops(e: Engine, nickname: string, identity: string, address: string)
    requires e.adding == Free && C.Bounded(e.contacts) && identity != "" && address != ""
    requires Known(e, identity).None? && |nickname| >= CR.NICKNAME_LIMIT
    ensures !Running(Step(e, GreetBegin(nickname, identity, address)))
  {
  }

  // ------------------------------------------------- a neighbour that falls silent

  lemma RunSnoc(setup: Setup, actions: seq<Action>, a: Action)
    requires CR.Fits(setup.nickname) && C.Bounded(Run(setup, actions).contacts)
    ensures Run(setup, actions + [a]) == Step(Run(setup, actions), a)
  {
    assert (actions + [a])[..|actions|] == actions;
  }

  /** A neighbour whose trials are used up is never probed again, whatever happens. */
  lemma ExhaustedStaysExhausted(e: Engine, a: Action, id: nat)
    requires C.Bounded(e.contacts) && id in e.dynamic && e.dynamic[id].trials == 0
    ensures id in Step(e, a).dynamic && Step(e, a).dynamic[id] == e.dynamic[id]
  {
  }

  lemma OneMoreStep(setup: Setup, past: seq<Action>, a: Action, id: nat, d: Dynamic)
    requires CR.Fits(setup.nickname) && id in Run(setup, past).dynamic && Run(setup, past).dynamic[id] == d && d.trials == 0
    ensures var t := Run(setup, past + [a]); id in t.dynamic && t.dynamic[id] == d
  {
    RunKeepsInv(setup, past);
    RunSnoc(setup, past, a);
    ExhaustedStaysExhausted(Run(setup, past), a, id);
  }

  lemma {:induction false} ExhaustedIsNeverProbed(setup: Setup, actions: seq<Action>, later: seq<Action>, id: nat)
    requires CR.Fits(setup.nickname) && id in Run(setup, actions).dynamic && Run(setup, actions).dynamic[id].trials == 0
    ensures var t := Run(setup, actions + later);
            id in t.dynamic && t.dynamic[id] == Run(setup, actions).dynamic[id]
    decreases |later|
  {
    if later == [] {
      assert actions + later == actions;
    } else {
      var before, a := later[..|later| - 1], later[|later| - 1];
      ExhaustedIsNeverProbed(setup, actions, before, id);
      assert actions + later == actions + before + [a];
      OneMoreStep(setup, actions + before, a, id, Run(setup, actions).dynamic[id]);
    }
  }

  const NEIGHBOUR := GreetBegin("me", "B", "10.0.0.2:9000")

  /** Contact 1 is the neighbour above, has missed `misses` probes, and is active only before the first. */
  ghost predicate HasMissed(e: Engine, misses: nat)
  {
    && Inv(e) && Running(e) && e.contacts.life >= 90 - misses && e.adding == Free
    && |e.contacts.contacts| == 2 && Known(e, "B") == Some(1)
    && e.contacts.contacts[1].ipAddressAndPort != e.host
    && IsActive(e.contacts.contacts[1].state) == (misses == 0)
    && 1 in e.dynamic && misses <= INACTIVITY_TRIALS && e.dynamic[1].trials == INACTIVITY_TRIALS - misses
  }

  lemma NeighbourSettles(e: Engine)
    requires Inv(e) && Running(e) && e.contacts.life >= 90 && e.chat.life >= 90 && e.adding == Created(1)
    requires |e.contacts.contacts| == 2 && Known(e, "B") == Some(1) && e.contacts.contacts[1].state == ACTIVE
    requires e.contacts.contacts[1].ipAddressAndPort != e.host
    ensures C.Bounded(Step(e, GreetStore).contacts) && HasMissed(Step(Step(e, GreetStore), GreetFinish), 0)
  {
    StepKeepsInv(e, GreetStore);
    StepKeepsInv(Step(e, GreetStore), GreetFinish);
    assert 1 !in e.dynamic;
  }

  lemma NeighbourJoins(now: M.Timestamp) returns (actions: seq<Action>)
    ensures HasMissed(Run(ExampleSetup(now), actions), 0)
  {
    ExampleFacts(now);
    var e := Example(now);
    GreetingOpensTheWindow(e, NEIGHBOUR);
    NewcomerIsThere(e, NEIGHBOUR);
    NeighbourSettles(Step(e, NEIGHBOUR));
    RunSnoc(ExampleSetup(now), [], NEIGHBOUR);
    RunSnoc(ExampleSetup(now), [] + [NEIGHBOUR], GreetStore);
    RunSnoc(ExampleSetup(now), [] + [NEIGHBOUR] + [GreetStore], GreetFinish);
    actions := [] + [NEIGHBOUR] + [GreetStore] + [GreetFinish];
  }

  lemma MissOne(e: Engine, misses: nat)
    requires HasMissed(e, misses) && misses < INACTIVITY_TRIALS
    ensures HasMissed(Step(e, ProbeNext(1, Silent)), misses + 1)
  {
    StepKeepsInv(e, ProbeNext(1, Silent));
    ProbedKeepsInv(e.dynamic[1], Silent);
    DeactivatedOnce(e.contacts, 1);
    var t := Step(e, ProbeNext(1, Silent));
    KnownIsContact(t, "B");
    IndexIsInverse(t, 1);
  }

  lemma DeactivatedOnce(m: C.Model, id: nat)
    requires C.Bounded(m) && id < |m.contacts| && m.life > 1
    ensures var r := C.Update(m, Deactivated(id));
            && r.ok && r.model.life >= m.life - 1 && |r.model.contacts| == |m.contacts|
            && !IsActive(r.model.contacts[id].state)
            && r.model.contacts[id].identity == m.contacts[id].identity
            && r.model.contacts[id].ipAddressAndPort == m.contacts[id].ipAddressAndPort
            && r.model.identities == m.identities
  {
  }

  lemma {:induction false} NeighbourMisses(now: M.Timestamp, misses: nat) returns (actions: seq<Action>)
    requires misses <= INACTIVITY_TRIALS
    ensures HasMissed(Run(ExampleSetup(now), actions), misses)
    decreases misses
  {
    if misses == 0 {
      actions := NeighbourJoins(now);
    } else {
      actions := NeighbourMisses(now, misses - 1);
      MissOne(Run(ExampleSetup(now), actions), misses - 1);
      RunSnoc(ExampleSetup(now), actions, ProbeNext(1, Silent));
      actions := actions + [ProbeNext(1, Silent)];
    }
  }

  /** There is a run in which a message from a neighbour that missed one probe stops the engine. */
  lemma InactiveMessageExample(now: M.Timestamp) returns (actions: seq<Action>)
    ensures Running(Run(ExampleSetup(now), actions))
    ensures !Running(Run(ExampleSetup(now), actions + [ReceiveBegin("B", ["hello"])]))
  {
    actions := NeighbourMisses(now, 1);
    var e := Run(ExampleSetup(now), actions);
    KnownIsContact(e, "B");
    InactiveMessageStops(e, 1, ["hello"]);
    RunSnoc(ExampleSetup(now), actions, ReceiveBegin("B", ["hello"]));
  }

  ghost predicate IsActiveYetExhausted(e: Engine)
  {
    && Running(e) && |e.contacts.contacts| == 2 && IsActive(e.contacts.contacts[1].state)
    && 1 in e.dynamic && e.dynamic[1].trials == 0
  }

  lemma HeartbeatRevives(e: Engine)
    requires HasMissed(e, INACTIVITY_TRIALS)
    ensures IsActiveYetExhausted(Step(e, HeartbeatFrom("B")))
  {
    ActivatedOnce(e.contacts, 1);
  }

  lemma GreetingRevives(e: Engine)
    requires HasMissed(e, INACTIVITY_TRIALS)
    ensures IsActiveYetExhausted(Step(e, NEIGHBOUR))
  {
    ActivatedOnce(e.contacts, 1);
  }

  /** Contact 1 is active, and `skips` probes of it have failed for want of a stub. */
  ghost predicate WasSkipped(e: Engine, skips: nat)
  {
    && Inv(e) && Running(e) && e.adding == Free
    && |e.contacts.contacts| == 2 && IsActive(e.contacts.contacts[1].state)
    && 1 in e.dynamic && skips <= INACTIVITY_TRIALS && e.dynamic[1].trials == INACTIVITY_TRIALS - skips
  }

  lemma SkipOne(e: Engine, skips: nat)
    requires WasSkipped(e, skips) && skips < INACTIVITY_TRIALS
    ensures WasSkipped(Step(e, ProbeNext(1, NoStub)), skips + 1)
  {
    ProbeKeeps(e, 1, NoStub);
    ProbedKeepsInv(e.dynamic[1], NoStub);
  }

  function Skips(n: nat): seq<Action>
  {
    seq(n, i requires 0 <= i => ProbeNext(1, NoStub))
  }

  lemma SkipNext(setup: Setup, actions: seq<Action>, skips: nat)
    requires CR.Fits(setup.nickname) && WasSkipped(Run(setup, actions), skips) && skips < INACTIVITY_TRIALS
    ensures WasSkipped(Run(setup, actions + [ProbeNext(1, NoStub)]), skips + 1)
  {
    SkipOne(Run(setup, actions), skips);
    RunSnoc(setup, actions, ProbeNext(1, NoStub));
  }

  lemma {:induction false} NeighbourIsSkipped(setup: Setup, joined: seq<Action>, skips: nat) returns (actions: seq<Action>)
    requires CR.Fits(setup.nickname) && WasSkipped(Run(setup, joined), 0) && skips <= INACTIVITY_TRIALS
    ensures actions == joined + Skips(skips)
    ensures WasSkipped(Run(setup, actions), skips)
    decreases skips
  {
    if skips == 0 {
      actions := joined;
    } else {
      actions := NeighbourIsSkipped(setup, joined, skips - 1);
      SkipNext(setup, actions, skips - 1);
      actions := actions + [ProbeNext(1, NoStub)];
    }
  }

  /**
   There are runs in which a neighbour is active while its counter is at zero, so that it is never
   probed again: after a heartbeat of it, after a greeting from it, and with neither of them when
   all probes failed for want of a stub.
   */
  lemma ActiveYetNeverProbed(now: M.Timestamp) returns (missed: seq<Action>, joined: seq<Action>, skipped: seq<Action>)
    ensures IsActiveYetExhausted(Run(ExampleSetup(now), missed + [HeartbeatFrom("B")]))
    ensures IsActiveYetExhausted(Run(ExampleSetup(now), missed + [NEIGHBOUR]))
    ensures HasMissed(Run(ExampleSetup(now), joined), 0)
    ensures skipped == joined + Skips(INACTIVITY_TRIALS) && IsActiveYetExhausted(Run(ExampleSetup(now), skipped))
  {
    missed := NeighbourMisses(now, INACTIVITY_TRIALS);
    var e := Run(ExampleSetup(now), missed);
    HeartbeatRevives(e);
    GreetingRevives(e);
    RunSnoc(ExampleSetup(now), missed, HeartbeatFrom("B"));
    RunSnoc(ExampleSetup(now), missed, NEIGHBOUR);
    joined := NeighbourJoins(now);
    skipped := NeighbourIsSkipped(ExampleSetup(now), joined, INACTIVITY_TRIALS);
  }

  lemma ProbeIsMade(e: Engine, id: nat, probe: Probe)
    requires Always(e)
    ensures var t := ProbeStep(e, id, probe);
            Running(e) && e.adding == Free && id in e.dynamic ==>
              && id in t.dynamic
              && t.dynamic[id].probes
                 == e.dynamic[id].probes + if Misses(e.dynamic[id].probes) < INACTIVITY_TRIALS then [probe] else []
  {
    if id in e.dynamic {
      AcceptedExactly(e.contacts.contacts[id].state, id);
      assert DynamicInv(e.dynamic[id]);
      assert e.dynamic[id].probes + [] == e.dynamic[id].probes;
    }
  }

  /** In every run, a neighbour is probed at its next opportunity if and only if it has missed fewer than five in a row. */
  lemma ProbedExactly(setup: Setup, actions: seq<Action>, id: nat, probe: Probe)
    requires CR.Fits(setup.nickname)
    ensures C.Bounded(Run(setup, actions).contacts)
    ensures var e := Run(setup, actions);
            var t := ProbeStep(e, id, probe);
            Running(e) && e.adding == Free && id in e.dynamic ==>
              && id in t.dynamic
              && t.dynamic[id].probes
                 == e.dynamic[id].probes + if Misses(e.dynamic[id].probes) < INACTIVITY_TRIALS then [probe] else []
  {
    RunKeepsInv(setup, actions);
    ProbeIsMade(Run(setup, actions), id, probe);
  }

  lemma ActiveByHistory(m: C.Model, id: nat)
    requires C.HistoryInv(m.contacts, m.history) && id < |m.contacts|
    ensures IsActive(m.contacts[id].state) <==> !Since(m.history, Deactivated(id), Activated(id))
  {
    assert C.FollowsHistory(m.contacts[id], m.history, id);
    SinceIsHolds(m.history, id);
  }

  /**
   In every reachable state a neighbour that will never be probed again is active if and only if
   every time it was marked inactive, something has activated it since.
   */
  lemma ExhaustedYetActiveExactly(setup: Setup, actions: seq<Action>, id: nat)
    requires CR.Fits(setup.nickname)
    ensures var e := Run(setup, actions);
            id in e.dynamic ==>
              && id < |e.contacts.contacts|
              && (e.dynamic[id].trials == 0 && IsActive(e.contacts.contacts[id].state)
                  <==> Misses(e.dynamic[id].probes) == INACTIVITY_TRIALS
                       && !Since(e.contacts.history, Deactivated(id), Activated(id)))
  {
    RunKeepsInv(setup, actions);
    var e := Run(setup, actions);
    if id in e.dynamic {
      assert DynamicInv(e.dynamic[id]);
      ActiveByHistory(e.contacts, id);
    }
  }

  lemma ActivatedOnce(m: C.Model, id: nat)
    requires C.Bounded(m) && id < |m.contacts| && m.life > 1
    ensures var r := C.Update(m, Activated(id));
            && r.ok && r.model.life >= m.life - 1 && |r.model.contacts| == |m.contacts|
            && IsActive(r.model.contacts[id].state)
  {
  }

  /** A state that meets the hypotheses of the last lemmas on the window exists: right after the constructor. */
  lemma WindowExample(now: M.Timestamp)
    ensures var e := Example(now);
            && Inv(e) && Running(e) && e.contacts.life >= 4 && e.adding == Free && e.external == Quiet
            && Known(e, "B").None? && e.host != "10.0.0.2:9000"
  {
    ExampleFacts(now);
  }
}
