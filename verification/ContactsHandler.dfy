/**
 `TTContactsHandler` (contacts/src/TTContactsHandler.cpp): the contact list, its identity
 index, the selected contact and the queue of state changes for the display process.

 As for the chat handler, `life` is the number of further `isStopped()` reads that still
 find the stop flag lowered. `history`, `emitted` and `snapshots` record what happened; the
 source has no such fields, and they are ghost in the class.
 */
module ContactsHandlers {
  import opened Common
  import opened ContactStates
  import opened ContactsReplica

  datatype Contact = Contact(
    nickname: string, identity: string, ipAddressAndPort: string,
    sentMessages: nat, receivedMessages: nat, state: State)

  /** `snapshots[k]` is what the contacts looked like after the `k`-th emitted message. */
  datatype Model = Model(
    contacts: seq<Contact>, identities: map<string, nat>,
    current: Option<nat>, previous: Option<nat>,
    queue: seq<Message>, life: nat,
    history: seq<Event>, emitted: seq<Message>, snapshots: seq<seq<Entry>>)

  datatype Result = Result(model: Model, ok: bool)

  function Initial(life: nat): Model
  {
    Model([], map[], None, None, [], life, [], [], [[]])
  }

  /** What the display is meant to show. */
  function Projected(contacts: seq<Contact>): (entries: seq<Entry>)
    ensures |entries| == |contacts|
    ensures forall i :: 0 <= i < |contacts| ==> entries[i] == Entry(i, contacts[i].state, contacts[i].nickname)
  {
    seq(|contacts|, i requires 0 <= i < |contacts| => Entry(i, contacts[i].state, contacts[i].nickname))
  }

  predicate Bounded(m: Model)
  {
    && (m.current.Some? ==> m.current.value < |m.contacts|)
    && forall i :: 0 <= i < |m.contacts| ==> Fits(m.contacts[i].nickname)
  }

  /** The generic `send`. */
  function Emit(m: Model, message: Message): Result
  {
    if m.life == 0 then Result(m, false)
    else Result(m.(queue := m.queue + [message], life := m.life - 1,
                   emitted := m.emitted + [message], snapshots := m.snapshots + [Projected(m.contacts)]), true)
  }

  function Announce(m: Model, id: nat): Result
    requires id < |m.contacts|
  {
    Emit(m, Change(m.contacts[id].state, id, m.contacts[id].nickname))
  }

  /** `create` does not ask whether the identity is already known. */
  function Grown(m: Model, nickname: string, identity: string, address: string): Model
  {
    m.(contacts := m.contacts + [Contact(nickname, identity, address, 0, 0, ACTIVE)],
       identities := m.identities[identity := |m.contacts|])
  }

  function Create(m: Model, nickname: string, identity: string, address: string): Result
  {
    Emit(Grown(m, nickname, identity, address), Change(ACTIVE, |m.contacts|, nickname))
  }

  /** An accepted event: new state, counters, history. */
  function Accept(m: Model, e: Event, state: State): Model
    requires e.id < |m.contacts|
  {
    var c := m.contacts[e.id];
    var d := c.(state := state,
                sentMessages := if e.Sent? then c.sentMessages + 1 else c.sentMessages,
                receivedMessages := if e.Received? then c.receivedMessages + 1 else c.receivedMessages);
    m.(contacts := m.contacts[e.id := d], history := m.history + [e])
  }

  /** `send`, `receive`, `activate` and `deactivate`: a message only when the state changed. */
  function Update(m: Model, e: Event): Result
    requires Bounded(m)
  {
    if e.id >= |m.contacts| then Result(m, false)
    else
      var before := m.contacts[e.id].state;
      var after := On(e, before);
      if after.None? then Result(m, false)
      else
        var n := Accept(m, e, after.value);
        if before != after.value then Announce(n, e.id) else Result(n, true)
  }

  /** One half of `select`. */
  function Toggle(m: Model, e: Event): Result
    requires e.id < |m.contacts|
  {
    var after := On(e, m.contacts[e.id].state);
    if after.None? then Result(m, false) else Announce(Accept(m, e, after.value), e.id)
  }

  function Select(m: Model, id: nat): Result
    requires Bounded(m)
  {
    if id >= |m.contacts| then Result(m, false)
    else
      var start := m.(previous := m.current);
      var unselected := if m.current.Some? then Toggle(start, Unselected(m.current.value)) else Result(start, true);
      if !unselected.ok then unselected
      else Toggle(unselected.model.(current := Some(id)), Selected(id))
  }

  function SendHeartbeat(m: Model): Model
  {
    if m.life == 0 then m else Emit(m.(life := m.life - 1), Heartbeat).model
  }

  /** Rounds of the heartbeat loop. */
  function Heartbeats(m: Model, rounds: nat): Model
    decreases rounds
  {
    if rounds == 0 then m else Heartbeats(SendHeartbeat(m), rounds - 1)
  }

  lemma {:induction false} SilentHeartbeats(m: Model, rounds: nat)
    requires m.life == 0
    ensures Heartbeats(m, rounds) == m
    decreases rounds
  {
    if rounds > 0 { SilentHeartbeats(m, rounds - 1); }
  }

  // -------------------------------------------------------------- invariants

  /** Linear search for the last contact with an identity. */
  function LastWith(contacts: seq<Contact>, identity: string): Option<nat>
  {
    if contacts == [] then None
    else if contacts[|contacts| - 1].identity == identity then Some(|contacts| - 1)
    else LastWith(contacts[..|contacts| - 1], identity)
  }

  function Lookup(identities: map<string, nat>, identity: string): Option<nat>
  {
    if identity in identities then Some(identities[identity]) else None
  }

  function Times(history: seq<Event>, e: Event): nat
  {
    if history == [] then 0
    else Times(history[..|history| - 1], e) + if history[|history| - 1] == e then 1 else 0
  }

  /** A contact is what the history says, counters included. */
  ghost predicate FollowsHistory(c: Contact, history: seq<Event>, id: nat)
  {
    && BitsOf(c.state) == BitsByHistory(history, id)
    && c.sentMessages == Times(history, Sent(id))
    && c.receivedMessages == Times(history, Received(id))
  }

  ghost predicate HistoryInv(contacts: seq<Contact>, history: seq<Event>)
  {
    && (forall i {:trigger FollowsHistory(contacts[i], history, i)} ::
          0 <= i < |contacts| ==> FollowsHistory(contacts[i], history, i))
    && (forall t :: 0 <= t < |history| ==> history[t].id < |contacts|)
  }

  /** At most the current contact is selected; while running the current one is. */
  ghost predicate SelectionInv(m: Model)
  {
    && (forall i :: 0 <= i < |m.contacts| && IsSelected(m.contacts[i].state) ==> m.current == Some(i))
    && (m.life > 0 && m.current.Some? ==>
          m.current.value < |m.contacts| && IsSelected(m.contacts[m.current.value].state))
  }

  ghost predicate IndexInv(identities: map<string, nat>, contacts: seq<Contact>)
  {
    forall identity :: Lookup(identities, identity) == LastWith(contacts, identity)
  }

  /** Every prefix of the emitted stream rebuilds the contacts as they were then. */
  ghost predicate RebuildsAll(emitted: seq<Message>, snapshots: seq<seq<Entry>>)
  {
    && |snapshots| == |emitted| + 1
    && forall k {:trigger Replay(emitted[..k])} :: 0 <= k <= |emitted| ==> Replay(emitted[..k]) == Some(snapshots[k])
  }

  ghost predicate ReplicaInv(m: Model)
  {
    && RebuildsAll(m.emitted, m.snapshots)
    && (m.life > 0 ==> m.snapshots[|m.emitted|] == Projected(m.contacts))
  }

  ghost predicate Inv(m: Model)
    ensures Inv(m) ==> Bounded(m)
  {
    Bounded(m) && HistoryInv(m.contacts, m.history) && SelectionInv(m)
    && IndexInv(m.identities, m.contacts) && ReplicaInv(m)
  }

  // ------------------------------------------------- every operation keeps them

  lemma TimesSnoc(history: seq<Event>, e: Event, x: Event)
    ensures Times(history + [e], x) == Times(history, x) + if e == x then 1 else 0
  {
    assert (history + [e])[..|history|] == history;
  }

  lemma AcceptKeepsHistory(m: Model, e: Event)
    requires HistoryInv(m.contacts, m.history) && e.id < |m.contacts| && On(e, m.contacts[e.id].state).Some?
    ensures var n := Accept(m, e, On(e, m.contacts[e.id].state).value); HistoryInv(n.contacts, n.history)
  {
    var n := Accept(m, e, On(e, m.contacts[e.id].state).value);
    forall i | 0 <= i < |n.contacts| ensures FollowsHistory(n.contacts[i], n.history, i) {
      assert FollowsHistory(m.contacts[i], m.history, i);
      HistoryStep(m.history, e, i);
      TimesSnoc(m.history, e, Sent(i));
      TimesSnoc(m.history, e, Received(i));
      if i == e.id {
        TransitionsFollowHistory(e, m.contacts[i].state);
      } else {
        assert Moved(BitsByHistory(m.history, i), e, i) == BitsByHistory(m.history, i);
      }
    }
  }

  lemma {:induction false} LastWithIgnoresStates(a: seq<Contact>, b: seq<Contact>, identity: string)
    requires |a| == |b| && forall i :: 0 <= i < |a| ==> a[i].identity == b[i].identity
    ensures LastWith(a, identity) == LastWith(b, identity)
  {
    if a != [] { LastWithIgnoresStates(a[..|a| - 1], b[..|b| - 1], identity); }
  }

  lemma AcceptKeepsIndex(m: Model, e: Event, state: State)
    requires IndexInv(m.identities, m.contacts) && e.id < |m.contacts|
    ensures IndexInv(m.identities, Accept(m, e, state).contacts)
  {
    var n := Accept(m, e, state);
    forall identity ensures Lookup(n.identities, identity) == LastWith(n.contacts, identity) {
      LastWithIgnoresStates(m.contacts, n.contacts, identity);
    }
  }

  /** The emitted stream follows when the message turns the last snapshot into the contacts. */
  lemma EmitKeepsReplica(m: Model, message: Message)
    requires RebuildsAll(m.emitted, m.snapshots)
    requires m.life > 0 ==>
               && InBounds(m.snapshots[|m.emitted|], message)
               && Apply(m.snapshots[|m.emitted|], message) == Projected(m.contacts)
    ensures ReplicaInv(Emit(m, message).model)
  {
    var n := Emit(m, message).model;
    if m.life > 0 {
      assert m.emitted[..|m.emitted|] == m.emitted;
      ReplaySnoc(m.emitted, message);
      forall k | 0 <= k <= |n.emitted| ensures Replay(n.emitted[..k]) == Some(n.snapshots[k]) {
        if k <= |m.emitted| {
          assert n.emitted[..k] == m.emitted[..k];
        } else {
          assert n.emitted[..k] == n.emitted;
        }
      }
    }
  }

  lemma AnnounceKeepsReplica(m: Model, e: Event, state: State)
    requires ReplicaInv(m) && e.id < |m.contacts|
    ensures ReplicaInv(Announce(Accept(m, e, state), e.id).model)
  {
    var n := Accept(m, e, state);
    var message := Change(n.contacts[e.id].state, e.id, n.contacts[e.id].nickname);
    if m.life > 0 {
      assert Apply(m.snapshots[|m.emitted|], message) == Projected(n.contacts);
    }
    EmitKeepsReplica(n, message);
  }

  lemma GrownKeeps(m: Model, nickname: string, identity: string, address: string)
    requires Inv(m)
    ensures var n := Grown(m, nickname, identity, address);
            HistoryInv(n.contacts, n.history) && IndexInv(n.identities, n.contacts) && SelectionInv(n)
  {
    var n := Grown(m, nickname, identity, address);
    var id := |m.contacts|;
    assert n.contacts[..id] == m.contacts;
    NewcomerHasNoHistory(m.history, id);
    forall i | 0 <= i < |n.contacts| ensures FollowsHistory(n.contacts[i], n.history, i) {
      if i < id { assert FollowsHistory(m.contacts[i], m.history, i); }
    }
    forall x ensures Lookup(n.identities, x) == LastWith(n.contacts, x) {
      assert Lookup(m.identities, x) == LastWith(m.contacts, x);
    }
  }

  lemma CreateKeepsInv(m: Model, nickname: string, identity: string, address: string)
    requires Inv(m) && Fits(nickname)
    ensures Inv(Create(m, nickname, identity, address).model)
  {
    var n := Grown(m, nickname, identity, address);
    var message := Change(ACTIVE, |m.contacts|, nickname);
    GrownKeeps(m, nickname, identity, address);
    if m.life > 0 {
      assert Apply(m.snapshots[|m.emitted|], message) == Projected(n.contacts);
    }
    EmitKeepsReplica(n, message);
  }

  lemma {:induction false} NewcomerHasNoHistory(history: seq<Event>, id: nat)
    requires forall t :: 0 <= t < |history| ==> history[t].id < id
    ensures BitsByHistory(history, id) == BitsOf(ACTIVE)
    ensures Times(history, Sent(id)) == 0 && Times(history, Received(id)) == 0
  {
    if history != [] {
      var before, last := history[..|history| - 1], history[|history| - 1];
      assert history == before + [last];
      NewcomerHasNoHistory(before, id);
      HistoryStep(before, last, id);
    }
  }

  lemma UpdateKeepsInv(m: Model, e: Event)
    requires Inv(m) && (e.Sent? || e.Received? || e.Activated? || e.Deactivated?)
    ensures Inv(Update(m, e).model)
  {
    if e.id < |m.contacts| && On(e, m.contacts[e.id].state).Some? {
      var before := m.contacts[e.id].state;
      var after := On(e, before).value;
      AcceptKeepsHistory(m, e);
      AcceptKeepsIndex(m, e, after);
      UpdateKeepsSelection(m, e);
      if before != after {
        AnnounceKeepsReplica(m, e, after);
      } else {
        assert Projected(Accept(m, e, after).contacts) == Projected(m.contacts);
      }
    }
  }

  /** Only the halves of `select` move the selection. */
  lemma SelectionStays(e: Event, s: State)
    requires On(e, s).Some? && (e.Sent? || e.Received? || e.Activated? || e.Deactivated?)
    ensures IsSelected(On(e, s).value) == IsSelected(s)
  {
    TransitionsFollowHistory(e, s);
  }

  lemma UpdateKeepsSelection(m: Model, e: Event)
    requires Bounded(m) && SelectionInv(m) && (e.Sent? || e.Received? || e.Activated? || e.Deactivated?)
    ensures SelectionInv(Update(m, e).model)
  {
    if e.id < |m.contacts| && On(e, m.contacts[e.id].state).Some? {
      SelectionStays(e, m.contacts[e.id].state);
      SameSelection(m, Update(m, e).model);
    }
  }

  lemma SameSelection(m: Model, n: Model)
    requires SelectionInv(m) && n.current == m.current && n.life <= m.life
    requires |n.contacts| == |m.contacts|
    requires forall i :: 0 <= i < |m.contacts| ==> IsSelected(n.contacts[i].state) == IsSelected(m.contacts[i].state)
    ensures SelectionInv(n)
  {
  }

  /** A half of `select` that is accepted keeps everything but the selection. */
  lemma ToggleKeeps(m: Model, e: Event)
    requires Bounded(m) && HistoryInv(m.contacts, m.history) && IndexInv(m.identities, m.contacts) && ReplicaInv(m)
    requires e.id < |m.contacts|
    ensures var n := Toggle(m, e).model;
            Bounded(n) && HistoryInv(n.contacts, n.history) && IndexInv(n.identities, n.contacts) && ReplicaInv(n)
  {
    if On(e, m.contacts[e.id].state).Some? {
      AcceptKeepsHistory(m, e);
      AcceptKeepsIndex(m, e, On(e, m.contacts[e.id].state).value);
      AnnounceKeepsReplica(m, e, On(e, m.contacts[e.id].state).value);
    }
  }

  /** Nobody is selected between the two halves. */
  ghost predicate NoneSelected(m: Model)
  {
    forall i :: 0 <= i < |m.contacts| ==> !IsSelected(m.contacts[i].state)
  }

  lemma UnselectClears(m: Model)
    requires Bounded(m) && SelectionInv(m) && m.current.Some?
    ensures var r := Toggle(m.(previous := m.current), Unselected(m.current.value));
            && (r.ok ==> NoneSelected(r.model))
            && (!r.ok ==> r.model.life == 0 && SelectionInv(r.model))
            && r.model.current == m.current && |r.model.contacts| == |m.contacts|
  {
    AcceptedExactly(m.contacts[m.current.value].state, m.current.value);
  }

  lemma SelectKeepsInv(m: Model, id: nat)
    requires Inv(m)
    ensures Inv(Select(m, id).model)
  {
    if id < |m.contacts| {
      var start := m.(previous := m.current);
      if m.current.Some? {
        ToggleKeeps(start, Unselected(m.current.value));
        UnselectClears(m);
      }
      var unselected := if m.current.Some? then Toggle(start, Unselected(m.current.value)) else Result(start, true);
      if unselected.ok {
        var chosen := unselected.model.(current := Some(id));
        assert NoneSelected(chosen);
        ToggleKeeps(chosen, Selected(id));
        AcceptedExactly(chosen.contacts[id].state, id);
      }
    }
  }

  /**
   The error arms of `select`: the second one is unreachable, and the first one is reached
   exactly when the previous contact was already unselected, which needs a landed stop.
   */
  lemma SelectArms(m: Model, id: nat)
    requires Inv(m)
    ensures m.life >= 2 && id < |m.contacts| ==>
              && Select(m, id).ok
              && Select(m, id).model.current == Some(id)
              && IsSelected(Select(m, id).model.contacts[id].state)
    ensures m.current.Some? && OnUnselect(m.contacts[m.current.value].state).None? ==> m.life == 0
    ensures id < |m.contacts| ==>
              var start := m.(previous := m.current);
              var unselected := if m.current.Some? then Toggle(start, Unselected(m.current.value)) else Result(start, true);
              unselected.ok ==> OnSelect(unselected.model.contacts[id].state).Some?
  {
    if m.current.Some? {
      UnselectClears(m);
      AcceptedExactly(m.contacts[m.current.value].state, m.current.value);
    }
    if id < |m.contacts| {
      var start := m.(previous := m.current);
      var unselected := if m.current.Some? then Toggle(start, Unselected(m.current.value)) else Result(start, true);
      if unselected.ok {
        assert NoneSelected(unselected.model);
        AcceptedExactly(unselected.model.contacts[id].state, id);
      }
    }
  }

  lemma HeartbeatKeepsInv(m: Model)
    requires Inv(m)
    ensures Inv(SendHeartbeat(m))
  {
    if m.life > 0 {
      EmitKeepsReplica(m.(life := m.life - 1), Heartbeat);
    }
  }

  // --------------------------------------------------------------------- runs

  datatype Operation =
    | DoCreate(nickname: string, identity: string, address: string)
    | DoUpdate(event: Event)
    | DoSelect(id: nat)
    | DoHeartbeat
    | DoDrain   // main takes the queue
    | DoStop

  predicate Legal(op: Operation)
  {
    match op
    case DoCreate(nickname, _, _) => Fits(nickname)
    case DoUpdate(e) => e.Sent? || e.Received? || e.Activated? || e.Deactivated?
    case _ => true
  }

  function Step(m: Model, op: Operation): Model
    requires Bounded(m)
  {
    match op
    case DoCreate(nickname, identity, address) => Create(m, nickname, identity, address).model
    case DoUpdate(e) => Update(m, e).model
    case DoSelect(id) => Select(m, id).model
    case DoHeartbeat => SendHeartbeat(m)
    case DoDrain => m.(queue := [])
    case DoStop => m.(life := 0)
  }

  lemma StepKeepsInv(m: Model, op: Operation)
    requires Inv(m) && Legal(op)
    ensures Inv(Step(m, op))
  {
    match op
    case DoCreate(nickname, identity, address) => CreateKeepsInv(m, nickname, identity, address);
    case DoUpdate(e) => UpdateKeepsInv(m, e);
    case DoSelect(id) => SelectKeepsInv(m, id);
    case DoHeartbeat => HeartbeatKeepsInv(m);
    case _ => SameContactsKeepInv(m, Step(m, op));
  }

  lemma SameContactsKeepInv(m: Model, n: Model)
    requires Inv(m) && n == m.(queue := n.queue, life := n.life) && n.life <= m.life
    ensures Inv(n)
  {
  }

  lemma InitialInv(life: nat)
    ensures Inv(Initial(life))
  {
  }

  predicate AllLegal(ops: seq<Operation>)
  {
    forall i :: 0 <= i < |ops| ==> Legal(ops[i])
  }

  /** The state after a run; by `RunKeepsInv` its last arm is never taken. */
  function Run(life: nat, ops: seq<Operation>): Model
  {
    if ops == [] then Initial(life)
    else
      var m := Run(life, ops[..|ops| - 1]);
      if Bounded(m) then Step(m, ops[|ops| - 1]) else m
  }

  lemma {:induction false} RunKeepsInv(life: nat, ops: seq<Operation>)
    requires AllLegal(ops)
    ensures Inv(Run(life, ops))
  {
    if ops == [] {
      InitialInv(life);
    } else {
      RunKeepsInv(life, ops[..|ops| - 1]);
      StepKeepsInv(Run(life, ops[..|ops| - 1]), ops[|ops| - 1]);
    }
  }

  // ------------------------------------------------------------------ the class

  class ContactsHandler {
    var mContacts: seq<Contact>
    var mIdentityMap: map<string, nat>
    var mCurrentContact: Option<nat>
    var mPreviousContact: Option<nat>
    var mQueuedMessages: seq<Message>
    var life: nat
    ghost var history: seq<Event>
    ghost var emitted: seq<Message>
    ghost var snapshots: seq<seq<Entry>>

    ghost function State(): Model
      reads this
    {
      Model(mContacts, mIdentityMap, mCurrentContact, mPreviousContact, mQueuedMessages, life,
            history, emitted, snapshots)
    }

    constructor (life: nat)
      ensures State() == Initial(life)
    {
      mContacts, mIdentityMap, mCurrentContact, mPreviousContact := [], map[], None, None;
      mQueuedMessages := [];
      this.life := life;
      history, emitted, snapshots := [], [], [[]];
    }

    method IsStopped() returns (stopped: bool)
      modifies this`life
      ensures stopped == (old(life) == 0)
      ensures life == if stopped then 0 else old(life) - 1
    {
      stopped := life == 0;
      if !stopped { life := life - 1; }
    }

    method Stop()
      modifies this`life
      ensures State() == old(State()).(life := 0)
    {
      life := 0;
    }

    /** The generic `send`. */
    method QueueMessage(message: Message) returns (ok: bool)
      modifies this`life, this`mQueuedMessages, this`emitted, this`snapshots
      ensures Result(State(), ok) == Emit(old(State()), message)
    {
      var stopped := IsStopped();
      if stopped { return false; }
      mQueuedMessages := mQueuedMessages + [message];
      emitted := emitted + [message];
      snapshots := snapshots + [Projected(mContacts)];
      return true;
    }

    method CreateContact(nickname: string, identity: string, ipAddressAndPort: string) returns (ok: bool)
      requires Fits(nickname)
      modifies this
      ensures Result(State(), ok) == Create(old(State()), nickname, identity, ipAddressAndPort)
    {
      var message := Change(ACTIVE, |mContacts|, nickname);
      mContacts := mContacts + [Contact(nickname, identity, ipAddressAndPort, 0, 0, ACTIVE)];
      mIdentityMap := mIdentityMap[identity := message.identity];
      ok := QueueMessage(message);
    }

    /** `send`: only the selected contact takes a message; an inactive one gets it pending. */
    method SendMessage(id: nat) returns (ok: bool)
      requires Bounded(State())
      modifies this
      ensures Result(State(), ok) == Update(old(State()), Sent(id))
    {
      if id >= |mContacts| { return false; }
      var previousState := mContacts[id].state;
      var state;
      match previousState {
        case SELECTED_ACTIVE => state := SELECTED_ACTIVE;
        case SELECTED_INACTIVE => state := SELECTED_PENDING_MSG_INACTIVE;
        case SELECTED_PENDING_MSG_INACTIVE => state := SELECTED_PENDING_MSG_INACTIVE;
        case _ => return false;
      }
      mContacts := mContacts[id := mContacts[id].(state := state, sentMessages := mContacts[id].sentMessages + 1)];
      history := history + [Sent(id)];
      if previousState != state {
        ok := QueueMessage(Change(state, id, mContacts[id].nickname));
        return;
      }
      return true;
    }

    /** `receive`: an inactive contact is refused. */
    method ReceiveMessage(id: nat) returns (ok: bool)
      requires Bounded(State())
      modifies this
      ensures Result(State(), ok) == Update(old(State()), Received(id))
    {
      if id >= |mContacts| { return false; }
      var previousState := mContacts[id].state;
      var state;
      match previousState {
        case ACTIVE => state := UNREAD_MSG_ACTIVE;
        case SELECTED_ACTIVE => state := SELECTED_ACTIVE;
        case UNREAD_MSG_ACTIVE => state := UNREAD_MSG_ACTIVE;
        case _ => return false;
      }
      mContacts := mContacts[id := mContacts[id].(state := state, receivedMessages := mContacts[id].receivedMessages + 1)];
      history := history + [Received(id)];
      if previousState != state {
        ok := QueueMessage(Change(state, id, mContacts[id].nickname));
        return;
      }
      return true;
    }

    /** `activate`: pending messages count as sent from here on. */
    method Activate(id: nat) returns (ok: bool)
      requires Bounded(State())
      modifies this
      ensures Result(State(), ok) == Update(old(State()), Activated(id))
    {
      if id >= |mContacts| { return false; }
      var previousState := mContacts[id].state;
      var state;
      match previousState {
        case ACTIVE => state := ACTIVE;
        case INACTIVE => state := ACTIVE;
        case SELECTED_ACTIVE => state := SELECTED_ACTIVE;
        case SELECTED_INACTIVE => state := SELECTED_ACTIVE;
        case UNREAD_MSG_ACTIVE => state := UNREAD_MSG_ACTIVE;
        case UNREAD_MSG_INACTIVE => state := UNREAD_MSG_ACTIVE;
        case PENDING_MSG_INACTIVE => state := ACTIVE;
        case SELECTED_PENDING_MSG_INACTIVE => state := SELECTED_ACTIVE;
      }
      mContacts := mContacts[id := mContacts[id].(state := state)];
      history := history + [Activated(id)];
      if previousState != state {
        ok := QueueMessage(Change(state, id, mContacts[id].nickname));
        return;
      }
      return true;
    }

    /** `deactivate`. */
    method Deactivate(id: nat) returns (ok: bool)
      requires Bounded(State())
      modifies this
      ensures Result(State(), ok) == Update(old(State()), Deactivated(id))
    {
      if id >= |mContacts| { return false; }
      var previousState := mContacts[id].state;
      var state;
      match previousState {
        case ACTIVE => state := INACTIVE;
        case INACTIVE => state := INACTIVE;
        case SELECTED_ACTIVE => state := SELECTED_INACTIVE;
        case SELECTED_INACTIVE => state := SELECTED_INACTIVE;
        case UNREAD_MSG_ACTIVE => state := UNREAD_MSG_INACTIVE;
        case UNREAD_MSG_INACTIVE => state := UNREAD_MSG_INACTIVE;
        case PENDING_MSG_INACTIVE => state := PENDING_MSG_INACTIVE;
        case SELECTED_PENDING_MSG_INACTIVE => state := SELECTED_PENDING_MSG_INACTIVE;
      }
      mContacts := mContacts[id := mContacts[id].(state := state)];
      history := history + [Deactivated(id)];
      if previousState != state {
        ok := QueueMessage(Change(state, id, mContacts[id].nickname));
        return;
      }
      return true;
    }

    method SelectContact(id: nat) returns (ok: bool)
      requires Bounded(State())
      modifies this
      ensures Result(State(), ok) == Select(old(State()), id)
    {
      if id >= |mContacts| { return false; }
      mPreviousContact := mCurrentContact;
      if mPreviousContact != None {
        ok := Unselect(mPreviousContact.value);
        if !ok { return false; }
      }
      mCurrentContact := Some(id);
      ok := Choose(id);
    }

    /** The first half of `select`. */
    method Unselect(previous: nat) returns (ok: bool)
      requires previous < |mContacts|
      modifies this
      ensures Result(State(), ok) == Toggle(old(State()), Unselected(previous))
    {
      var state;
      match mContacts[previous].state {
        case SELECTED_ACTIVE => state := ACTIVE;
        case SELECTED_INACTIVE => state := INACTIVE;
        case SELECTED_PENDING_MSG_INACTIVE => state := PENDING_MSG_INACTIVE;
        case _ => return false;
      }
      mContacts := mContacts[previous := mContacts[previous].(state := state)];
      history := history + [Unselected(previous)];
      ok := QueueMessage(Change(state, previous, mContacts[previous].nickname));
    }

    /** The second half of `select`. */
    method Choose(id: nat) returns (ok: bool)
      requires id < |mContacts|
      modifies this
      ensures Result(State(), ok) == Toggle(old(State()), Selected(id))
    {
      var state;
      match mContacts[id].state {
        case ACTIVE => state := SELECTED_ACTIVE;
        case INACTIVE => state := SELECTED_INACTIVE;
        case UNREAD_MSG_ACTIVE => state := SELECTED_ACTIVE;
        case UNREAD_MSG_INACTIVE => state := SELECTED_INACTIVE;
        case PENDING_MSG_INACTIVE => state := SELECTED_PENDING_MSG_INACTIVE;
        case _ => return false;
      }
      mContacts := mContacts[id := mContacts[id].(state := state)];
      history := history + [Selected(id)];
      ok := QueueMessage(Change(state, id, mContacts[id].nickname));
    }

    method Get(id: nat) returns (entry: Option<Contact>)
      ensures entry == if id < |mContacts| then Some(mContacts[id]) else None
    {
      if id >= |mContacts| { return None; }
      return Some(mContacts[id]);
    }

    /** Where `IndexInv` holds this is the linear search. */
    method Find(identity: string) returns (id: Option<nat>)
      ensures id == Lookup(mIdentityMap, identity)
      ensures IndexInv(mIdentityMap, mContacts) ==> id == LastWith(mContacts, identity)
    {
      if identity !in mIdentityMap { return None; }
      return Some(mIdentityMap[identity]);
    }

    method Current() returns (id: Option<nat>)
      ensures id == mCurrentContact
    {
      return mCurrentContact;
    }

    method Size() returns (n: nat)
      ensures n == |mContacts|
    {
      return |mContacts|;
    }

    /** One round of the heartbeat loop; false ends it. */
    method HeartbeatRound() returns (again: bool)
      modifies this`life, this`mQueuedMessages, this`emitted, this`snapshots
      ensures State() == SendHeartbeat(old(State()))
      ensures mQueuedMessages == old(mQueuedMessages) + if old(life) >= 2 then [Heartbeat] else []
      ensures again <==> old(life) >= 2
    {
      var stopped := IsStopped();
      if stopped { return false; }
      again := QueueMessage(Heartbeat);
    }

    /**
     The heartbeat loop: a heartbeat every round until the stop lands, and a stop at the end. `rounds`
     is how many rounds fit before the observation ends.
     */
    method HeartbeatLoop(rounds: nat)
      modifies this`life, this`mQueuedMessages, this`emitted, this`snapshots
      ensures State() == Heartbeats(old(State()), rounds).(life := 0)
    {
      var left, again := rounds, true;
      while left > 0 && again
        invariant again ==> Heartbeats(State(), left).(life := 0) == Heartbeats(old(State()), rounds).(life := 0)
        invariant !again ==> State().(life := 0) == Heartbeats(old(State()), rounds).(life := 0)
      {
        again := HeartbeatRound();
        left := left - 1;
        if !again { SilentHeartbeats(State(), left); }
      }
      Stop();
    }

    /**
     `main` fills its list of messages once its wait has ended, which takes a message or a stop;
     None is the forced exit.
     */
    method TakeQueue() returns (messages: Option<seq<Message>>)
      requires mQueuedMessages != [] || life == 0
      modifies this`life, this`mQueuedMessages
      ensures messages.None? <==> old(life) == 0
      ensures messages.None? ==> mQueuedMessages == old(mQueuedMessages)
      ensures messages.Some? ==> messages.value == old(mQueuedMessages) && mQueuedMessages == []
      ensures life == if old(life) == 0 then 0 else old(life) - 1
    {
      var stopped := IsStopped();
      if stopped { return None; }
      var list := [];
      while mQueuedMessages != []
        invariant list + mQueuedMessages == old(mQueuedMessages) && life == old(life) - 1
        decreases |mQueuedMessages|
      {
        list := list + [mQueuedMessages[0]];
        mQueuedMessages := mQueuedMessages[1..];
      }
      return Some(list);
    }
  }

  // ---------------------------------------------------------------- theorems

  /** Every contact is what its history says, in every reachable state, stopped or not. */
  lemma StateIsHistory(life: nat, ops: seq<Operation>, i: nat)
    requires AllLegal(ops)
    requires i < |Run(life, ops).contacts|
    ensures var m := Run(life, ops);
            && BitsOf(m.contacts[i].state) == BitsByHistory(m.history, i)
            && Possible(BitsByHistory(m.history, i))
            && m.contacts[i].sentMessages == Times(m.history, Sent(i))
            && m.contacts[i].receivedMessages == Times(m.history, Received(i))
  {
    RunKeepsInv(life, ops);
    var m := Run(life, ops);
    assert FollowsHistory(m.contacts[i], m.history, i);
    EncodingIsExact(BitsOf(m.contacts[i].state));
  }

  /** While not stopped the emitted stream rebuilds exactly the contacts; no access is out of bounds. */
  lemma StreamIsReplica(life: nat, ops: seq<Operation>)
    requires AllLegal(ops)
    ensures var m := Run(life, ops);
            && Replay(m.emitted).Some?
            && (m.life > 0 ==> Replay(m.emitted) == Some(Projected(m.contacts)))
  {
    RunKeepsInv(life, ops);
    var m := Run(life, ops);
    assert Replay(m.emitted[..|m.emitted|]) == Some(m.snapshots[|m.emitted|]);
    assert m.emitted[..|m.emitted|] == m.emitted;
  }

  // ------------------------------------------- when the replica is lost

  /** Replaying the emitted stream gives exactly the contacts. */
  ghost predicate InStep(m: Model)
  {
    Replay(m.emitted) == Some(Projected(m.contacts))
  }

  /** The operations that change the contacts and are cut off before they can say so. */
  predicate Breaks(m: Model, op: Operation)
    requires Bounded(m)
  {
    match op
    case DoCreate(_, _, _) => m.life == 0
    case DoUpdate(e) =>
      && m.life == 0 && e.id < |m.contacts|
      && On(e, m.contacts[e.id].state).Some? && On(e, m.contacts[e.id].state).value != m.contacts[e.id].state
    case DoSelect(id) =>
      && id < |m.contacts|
      && if m.current.None? then m.life == 0 else IsSelected(m.contacts[m.current.value].state) && m.life <= 1
    case _ => false
  }

  lemma LastSnapshot(m: Model)
    requires RebuildsAll(m.emitted, m.snapshots)
    ensures InStep(m) <==> m.snapshots[|m.emitted|] == Projected(m.contacts)
  {
    assert Replay(m.emitted[..|m.emitted|]) == Some(m.snapshots[|m.emitted|]);
    assert m.emitted[..|m.emitted|] == m.emitted;
  }

  /** A change of state is followed by a message exactly when a read is left. */
  lemma AnnounceExactly(m: Model, e: Event, state: State)
    requires RebuildsAll(m.emitted, m.snapshots) && InStep(m)
    requires e.id < |m.contacts| && state != m.contacts[e.id].state
    ensures var n := Announce(Accept(m, e, state), e.id).model;
            RebuildsAll(n.emitted, n.snapshots) && (InStep(n) <==> m.life > 0)
  {
    var a := Accept(m, e, state);
    var n := Announce(a, e.id).model;
    var message := Change(a.contacts[e.id].state, e.id, a.contacts[e.id].nickname);
    LastSnapshot(m);
    assert Apply(Projected(m.contacts), message) == Projected(a.contacts);
    EmitKeepsReplica(a, message);
    LastSnapshot(n);
    assert Projected(a.contacts)[e.id] != Projected(m.contacts)[e.id];
  }

  lemma CreateLosesExactly(m: Model, nickname: string, identity: string, address: string)
    requires Inv(m) && InStep(m)
    ensures InStep(Create(m, nickname, identity, address).model) <==> m.life > 0
  {
    var g := Grown(m, nickname, identity, address);
    var message := Change(ACTIVE, |m.contacts|, nickname);
    LastSnapshot(m);
    assert Apply(Projected(m.contacts), message) == Projected(g.contacts);
    EmitKeepsReplica(g, message);
    LastSnapshot(Emit(g, message).model);
    assert |Projected(g.contacts)| != |Projected(m.contacts)|;
  }

  lemma UpdateLosesExactly(m: Model, e: Event)
    requires Inv(m) && InStep(m) && Legal(DoUpdate(e))
    ensures InStep(Update(m, e).model) <==> !Breaks(m, DoUpdate(e))
  {
    if e.id < |m.contacts| && On(e, m.contacts[e.id].state).Some? {
      var before, after := m.contacts[e.id].state, On(e, m.contacts[e.id].state).value;
      if before != after {
        AnnounceExactly(m, e, after);
      } else {
        assert Projected(Accept(m, e, after).contacts) == Projected(m.contacts);
      }
    }
  }

  /** The halves of `select` always change the state. */
  lemma HalvesChange(s: State, id: nat)
    ensures OnUnselect(s).Some? ==> OnUnselect(s).value != s
    ensures OnSelect(s).Some? ==> OnSelect(s).value != s
    ensures OnUnselect(s).Some? <==> IsSelected(s)
  {
  }

  lemma SelectLosesExactly(m: Model, id: nat)
    requires Inv(m) && InStep(m)
    ensures InStep(Select(m, id).model) <==> !Breaks(m, DoSelect(id))
  {
    if id < |m.contacts| {
      var start := m.(previous := m.current);
      var unselected := if m.current.Some? then Toggle(start, Unselected(m.current.value)) else Result(start, true);
      assert InStep(start);
      if m.current.Some? {
        var state := m.contacts[m.current.value].state;
        HalvesChange(state, id);
        UnselectClears(m);
        if IsSelected(state) { AnnounceExactly(start, Unselected(m.current.value), OnUnselect(state).value); }
      }
      if unselected.ok {
        var chosen := unselected.model.(current := Some(id));
        ChooseExactly(chosen, id);
      }
    }
  }

  lemma ChooseExactly(m: Model, id: nat)
    requires RebuildsAll(m.emitted, m.snapshots) && InStep(m) && id < |m.contacts| && NoneSelected(m)
    ensures InStep(Toggle(m, Selected(id)).model) <==> m.life > 0
  {
    var state := m.contacts[id].state;
    HalvesChange(state, id);
    AcceptedExactly(state, id);
    AnnounceExactly(m, Selected(id), OnSelect(state).value);
  }

  /** From a replica, an operation ends on a replica except exactly when it is cut off. */
  lemma StepLosesExactly(m: Model, op: Operation)
    requires Inv(m) && InStep(m) && Legal(op)
    ensures InStep(Step(m, op)) <==> !Breaks(m, op)
  {
    match op
    case DoCreate(nickname, identity, address) => CreateLosesExactly(m, nickname, identity, address);
    case DoUpdate(e) => UpdateLosesExactly(m, e);
    case DoSelect(id) => SelectLosesExactly(m, id);
    case DoHeartbeat => HeartbeatKeepsStep(m);
    case _ =>
  }

  lemma HeartbeatKeepsStep(m: Model)
    requires Inv(m) && InStep(m)
    ensures InStep(SendHeartbeat(m))
  {
    LastSnapshot(m);
    if m.life > 0 {
      EmitKeepsReplica(m.(life := m.life - 1), Heartbeat);
      LastSnapshot(SendHeartbeat(m));
    }
  }

  /** The stream is a replica at every moment of the run. */
  ghost predicate AlwaysInStep(life: nat, ops: seq<Operation>)
  {
    InStep(Run(life, ops)) && (ops != [] ==> AlwaysInStep(life, ops[..|ops| - 1]))
  }

  /** No operation of the run was cut off. */
  predicate Unbroken(life: nat, ops: seq<Operation>)
  {
    ops != [] ==>
      && Unbroken(life, ops[..|ops| - 1])
      && Bounded(Run(life, ops[..|ops| - 1]))
      && !Breaks(Run(life, ops[..|ops| - 1]), ops[|ops| - 1])
  }

  /** Stopped or not: the stream is a replica throughout a run exactly when no operation was cut off. */
  lemma {:induction false} ReplicaExactly(life: nat, ops: seq<Operation>)
    requires AllLegal(ops)
    ensures AlwaysInStep(life, ops) <==> Unbroken(life, ops)
  {
    if ops == [] {
      InitialInStep(life);
    } else {
      var before := ops[..|ops| - 1];
      ReplicaExactly(life, before);
      RunKeepsInv(life, before);
      if AlwaysInStep(life, before) { StepLosesExactly(Run(life, before), ops[|ops| - 1]); }
    }
  }

  lemma InitialInStep(life: nat)
    ensures InStep(Initial(life))
  {
    assert Projected([]) == [];
  }

  lemma RunSnoc(life: nat, ops: seq<Operation>, op: Operation)
    requires Bounded(Run(life, ops))
    ensures Run(life, ops + [op]) == Step(Run(life, ops), op)
  {
    assert (ops + [op])[..|ops|] == ops;
  }

  /** A run that is a replica and goes on with an operation that is cut off. */
  lemma CutOff(life: nat, ops: seq<Operation>, m: Model, op: Operation)
    requires m == Run(life, ops) && Inv(m) && InStep(m) && Legal(op) && Breaks(m, op)
    ensures !InStep(Run(life, ops + [op]))
  {
    RunSnoc(life, ops, op);
    StepLosesExactly(m, op);
  }

  const CREATE := DoCreate("n", "i", "a")

  /** The first operation, with `life` reads left after it. */
  function Created(life: nat): Model
  {
    Create(Initial(life + 1), "n", "i", "a").model
  }

  lemma CreatedFacts(life: nat)
    ensures var m := Created(life);
            && Inv(m) && InStep(m) && m.life == life && m.current == None
            && |m.contacts| == 1 && m.contacts[0].state == ACTIVE
  {
    InitialInv(life + 1);
    InitialInStep(life + 1);
    CreateKeepsInv(Initial(life + 1), "n", "i", "a");
    CreateLosesExactly(Initial(life + 1), "n", "i", "a");
  }

  lemma CreatedRun(life: nat)
    ensures Run(life + 1, [CREATE]) == Created(life)
  {
    RunSnoc(life + 1, [], CREATE);
    assert [] + [CREATE] == [CREATE];
  }

  lemma CutOffAfterCreate(op: Operation)
    requires Legal(op)
    ensures var m := Created(0); Bounded(m) && (Breaks(m, op) ==> !InStep(Run(1, [CREATE, op])))
  {
    CreatedFacts(0);
    if Breaks(Created(0), op) {
      CreatedRun(0);
      CutOff(1, [CREATE], Created(0), op);
      assert [CREATE] + [op] == [CREATE, op];
    }
  }

  /** A stop in the middle of `create` loses the replica, */
  lemma CreateCutOff()
    ensures !InStep(Run(0, [CREATE]))
  {
    InitialInv(0);
    InitialInStep(0);
    CutOff(0, [], Initial(0), CREATE);
    assert [] + [CREATE] == [CREATE];
  }

  /** and so does one in the middle of `deactivate`, */
  lemma UpdateCutOff()
    ensures !InStep(Run(1, [CREATE, DoUpdate(Deactivated(0))]))
  {
    CreatedFacts(0);
    CutOffAfterCreate(DoUpdate(Deactivated(0)));
  }

  /** in the second half of `select`, */
  lemma ChooseCutOff()
    ensures !InStep(Run(1, [CREATE, DoSelect(0)]))
  {
    CreatedFacts(0);
    CutOffAfterCreate(DoSelect(0));
  }

  function SelectedOnce(): Model
  {
    CreatedFacts(1);
    Select(Created(1), 0).model
  }

  lemma SelectedFacts()
    ensures var m := SelectedOnce();
            Inv(m) && InStep(m) && m.life == 0 && m.current == Some(0) && m.contacts[0].state == SELECTED_ACTIVE
  {
    CreatedFacts(1);
    SelectKeepsInv(Created(1), 0);
    SelectLosesExactly(Created(1), 0);
  }

  lemma SelectedRun()
    ensures Run(2, [CREATE, DoSelect(0)]) == SelectedOnce()
  {
    CreatedFacts(1);
    CreatedRun(1);
    RunSnoc(2, [CREATE], DoSelect(0));
    assert [CREATE] + [DoSelect(0)] == [CREATE, DoSelect(0)];
  }

  /** and in its first half. */
  lemma UnselectCutOff()
    ensures !InStep(Run(2, [CREATE, DoSelect(0), DoSelect(0)]))
  {
    SelectedFacts();
    SelectedRun();
    CutOff(2, [CREATE, DoSelect(0)], SelectedOnce(), DoSelect(0));
    assert [CREATE, DoSelect(0)] + [DoSelect(0)] == [CREATE, DoSelect(0), DoSelect(0)];
  }

  /**
   What an operation tells the display, and when it succeeds: a change of state is announced, once,
   unless a stop has landed, which is the only reason to fail after the contact has changed.
   */
  lemma UpdateSpeaks(m: Model, e: Event)
    requires Bounded(m) && e.id < |m.contacts|
    ensures var r, before, after := Update(m, e), m.contacts[e.id].state, On(e, m.contacts[e.id].state);
            && (r.ok <==> after.Some? && (after.value == before || m.life > 0))
            && r.model.queue == m.queue + (if after.Some? && after.value != before && m.life > 0
                                           then [Change(after.value, e.id, m.contacts[e.id].nickname)] else [])
            && (after.None? ==> r.model == m)
  {
  }

  /**
   What `select` tells the display: first the contact it leaves, then the one it chooses, which is the
   current one from then on.
   */
  lemma SelectSpeaks(m: Model, id: nat)
    requires Bounded(m) && SelectionInv(m) && m.life >= 2
    ensures id >= |m.contacts| ==> Select(m, id) == Result(m, false)
    ensures id < |m.contacts| ==>
              var r := Select(m, id);
              var left := if m.current.Some? then OnUnselect(m.contacts[m.current.value].state) else None;
              var chosen := OnSelect(if m.current == Some(id) then left.value else m.contacts[id].state);
              && r.ok && r.model.current == Some(id) && r.model.previous == m.current
              && (m.current.Some? ==> left.Some?) && chosen.Some?
              && r.model.queue == m.queue
                                  + (if m.current.Some? then [Change(left.value, m.current.value, m.contacts[m.current.value].nickname)] else [])
                                  + [Change(chosen.value, id, m.contacts[id].nickname)]
  {
    if id < |m.contacts| {
      AcceptedExactly(m.contacts[id].state, id);
      if m.current.Some? { AcceptedExactly(m.contacts[m.current.value].state, m.current.value); }
    }
  }

  /** A new contact is active, has no messages, and is announced unless a stop has landed. */
  lemma CreateSpeaks(m: Model, nickname: string, identity: string, address: string)
    ensures var r, id := Create(m, nickname, identity, address), |m.contacts|;
            && |r.model.contacts| == id + 1 && r.model.contacts[..id] == m.contacts
            && r.model.contacts[id].nickname == nickname && r.model.contacts[id].identity == identity
            && r.model.contacts[id].ipAddressAndPort == address && r.model.contacts[id].state == ACTIVE
            && r.model.contacts[id].sentMessages == 0 && r.model.contacts[id].receivedMessages == 0
            && (r.ok <==> m.life > 0)
            && r.model.queue == m.queue + if m.life > 0 then [Change(ACTIVE, id, nickname)] else []
  {
  }

  // What is lost can come back: after a stop the contacts still change, and may change back.

  /** The contacts as they were after the last emitted message. */
  function LastShown(m: Model): seq<Entry>
    requires |m.snapshots| == |m.emitted| + 1
  {
    m.snapshots[|m.emitted|]
  }

  /** They are the contacts of then: the list has only grown since, and no nickname has changed. */
  ghost predicate NamesInv(m: Model)
  {
    && |m.snapshots| == |m.emitted| + 1
    && |LastShown(m)| <= |m.contacts|
    && forall i :: 0 <= i < |LastShown(m)| ==>
         LastShown(m)[i].identity == i && LastShown(m)[i].nickname == m.contacts[i].nickname
  }

  lemma EmitKeepsNames(m: Model, message: Message)
    requires NamesInv(m)
    ensures NamesInv(Emit(m, message).model)
  {
  }

  lemma AcceptKeepsNames(m: Model, e: Event, state: State)
    requires NamesInv(m) && e.id < |m.contacts|
    ensures NamesInv(Accept(m, e, state))
  {
  }

  lemma AnnounceKeepsNames(m: Model, e: Event, state: State)
    requires NamesInv(m) && e.id < |m.contacts|
    ensures NamesInv(Announce(Accept(m, e, state), e.id).model)
  {
    var n := Accept(m, e, state);
    AcceptKeepsNames(m, e, state);
    EmitKeepsNames(n, Change(n.contacts[e.id].state, e.id, n.contacts[e.id].nickname));
  }

  lemma SelectKeepsNames(m: Model, id: nat)
    requires NamesInv(m) && Bounded(m)
    ensures NamesInv(Select(m, id).model)
  {
    if id < |m.contacts| {
      var start := m.(previous := m.current);
      var unselected := Result(start, true);
      if m.current.Some? {
        var e := Unselected(m.current.value);
        unselected := Toggle(start, e);
        if On(e, m.contacts[e.id].state).Some? { AnnounceKeepsNames(start, e, On(e, m.contacts[e.id].state).value); }
      }
      if unselected.ok {
        var chosen := unselected.model.(current := Some(id));
        if OnSelect(chosen.contacts[id].state).Some? {
          AnnounceKeepsNames(chosen, Selected(id), OnSelect(chosen.contacts[id].state).value);
        }
      }
    }
  }

  lemma StepKeepsNames(m: Model, op: Operation)
    requires NamesInv(m) && Bounded(m)
    ensures NamesInv(Step(m, op))
  {
    match op
    case DoCreate(nickname, identity, address) =>
      EmitKeepsNames(Grown(m, nickname, identity, address), Change(ACTIVE, |m.contacts|, nickname));
    case DoUpdate(e) =>
      if e.id < |m.contacts| && On(e, m.contacts[e.id].state).Some? {
        AcceptKeepsNames(m, e, On(e, m.contacts[e.id].state).value);
        AnnounceKeepsNames(m, e, On(e, m.contacts[e.id].state).value);
      }
    case DoSelect(id) => SelectKeepsNames(m, id);
    case DoHeartbeat => if m.life > 0 { EmitKeepsNames(m.(life := m.life - 1), Heartbeat); }
    case _ =>
  }

  lemma {:induction false} RunKeepsNames(life: nat, ops: seq<Operation>)
    ensures NamesInv(Run(life, ops))
  {
    if ops != [] {
      RunKeepsNames(life, ops[..|ops| - 1]);
      if Bounded(Run(life, ops[..|ops| - 1])) { StepKeepsNames(Run(life, ops[..|ops| - 1]), ops[|ops| - 1]); }
    }
  }

  /**
   At the end of any run, stopped or not: the stream is a replica if and only if no contact was added
   since the last message that got through, and every contact is in the state it was in then.
   */
  lemma AtTheEndExactly(life: nat, ops: seq<Operation>)
    requires AllLegal(ops)
    ensures var m := Run(life, ops);
            && |m.snapshots| == |m.emitted| + 1
            && (InStep(m) <==>
                  && |LastShown(m)| == |m.contacts|
                  && forall i :: 0 <= i < |m.contacts| ==> LastShown(m)[i].state == m.contacts[i].state)
  {
    RunKeepsInv(life, ops);
    RunKeepsNames(life, ops);
    var m := Run(life, ops);
    LastSnapshot(m);
    var now := Projected(m.contacts);
    assert |LastShown(m)| == |m.contacts| ==>
             forall i :: 0 <= i < |m.contacts| ==>
               (LastShown(m)[i] == now[i] <==> LastShown(m)[i].state == m.contacts[i].state);
  }

  /** The contact of `UpdateCutOff`, after the change that was not announced. */
  function Silenced(): Model
  {
    CreatedFacts(0);
    Step(Created(0), DoUpdate(Deactivated(0)))
  }

  lemma SilencedRun()
    ensures Run(1, [CREATE, DoUpdate(Deactivated(0))]) == Silenced()
  {
    CreatedFacts(0);
    CreatedRun(0);
    RunSnoc(1, [CREATE], DoUpdate(Deactivated(0)));
    assert [CREATE] + [DoUpdate(Deactivated(0))] == [CREATE, DoUpdate(Deactivated(0))];
  }

  lemma ThereAndBack(c: Model)
    requires Inv(c) && InStep(c) && c.life == 0 && c.contacts != [] && c.contacts[0].state == ACTIVE
    ensures var m := Step(c, DoUpdate(Deactivated(0)));
            && Bounded(m) && !InStep(m) && m.life == 0
            && InStep(Step(m, DoUpdate(Activated(0)))) && Step(m, DoUpdate(Activated(0))).life == 0
  {
    UpdateLosesExactly(c, Deactivated(0));
    var n := Step(Step(c, DoUpdate(Deactivated(0))), DoUpdate(Activated(0)));
    assert n.contacts[0].state == ACTIVE;
    assert Projected(n.contacts) == Projected(c.contacts);
  }

  lemma SilencedChangesBack()
    ensures var m := Silenced();
            && Bounded(m) && !InStep(m) && m.life == 0
            && InStep(Step(m, DoUpdate(Activated(0)))) && Step(m, DoUpdate(Activated(0))).life == 0
  {
    CreatedFacts(0);
    ThereAndBack(Created(0));
  }

  /** A replica lost by a stop within `deactivate` is regained by the next `activate`, with the stop in place. */
  lemma LostAndRegained()
    ensures !InStep(Run(1, [CREATE, DoUpdate(Deactivated(0))]))
    ensures var m := Run(1, [CREATE, DoUpdate(Deactivated(0)), DoUpdate(Activated(0))]); InStep(m) && m.life == 0
  {
    SilencedRun();
    SilencedChangesBack();
    RunSnoc(1, [CREATE, DoUpdate(Deactivated(0))], DoUpdate(Activated(0)));
    assert [CREATE, DoUpdate(Deactivated(0))] + [DoUpdate(Activated(0))] ==
           [CREATE, DoUpdate(Deactivated(0)), DoUpdate(Activated(0))];
  }

  lemma {:induction false} LastWithIsLast(contacts: seq<Contact>, identity: string)
    ensures match LastWith(contacts, identity)
            case None => forall i :: 0 <= i < |contacts| ==> contacts[i].identity != identity
            case Some(id) =>
              && id < |contacts| && contacts[id].identity == identity
              && forall i :: id < i < |contacts| ==> contacts[i].identity != identity
  {
    if contacts != [] { LastWithIsLast(contacts[..|contacts| - 1], identity); }
  }

  /** The identity index finds the last contact created with that identity, and nothing else. */
  lemma IndexFindsLast(life: nat, ops: seq<Operation>, identity: string)
    requires AllLegal(ops)
    ensures var m := Run(life, ops);
            match Lookup(m.identities, identity)
            case None => forall i :: 0 <= i < |m.contacts| ==> m.contacts[i].identity != identity
            case Some(id) =>
              && id < |m.contacts| && m.contacts[id].identity == identity
              && forall i :: id < i < |m.contacts| ==> m.contacts[i].identity != identity
  {
    RunKeepsInv(life, ops);
    var m := Run(life, ops);
    LastWithIsLast(m.contacts, identity);
    assert Lookup(m.identities, identity) == LastWith(m.contacts, identity);
  }

  /** Only the current contact can be selected, in every reachable state; while running it is. */
  lemma OneSelected(life: nat, ops: seq<Operation>, i: nat, j: nat)
    requires AllLegal(ops)
    requires i < |Run(life, ops).contacts| && j < |Run(life, ops).contacts|
    ensures var m := Run(life, ops);
            && (IsSelected(m.contacts[i].state) ==> m.current == Some(i))
            && (IsSelected(m.contacts[i].state) && IsSelected(m.contacts[j].state) ==> i == j)
            && (m.life > 0 ==> (IsSelected(m.contacts[i].state) <==> m.current == Some(i)))
  {
    RunKeepsInv(life, ops);
  }
}
