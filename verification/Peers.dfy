/**
 Engines as peers of each other: what an engine does between two deliveries is what the sender's
 broadcaster relies on, and what it does during one is its own steps.
 */
module Peers {
  import opened Common
  import opened ContactStates
  import opened Discovery
  import B = ChatBroadcaster
  import C = ContactsHandlers
  import ChatPipeline
  import CR = ContactsReplica
  import E = Engine
  import H = ChatHandlers
  import M = ChatMessages

  /** An engine as its senders see it. */
  function NodeOf(e: E.Engine): B.Node
  {
    B.Node(e.contacts, e.chat, e.host)
  }

  /** A greeting that claims an identity for the receiver's own address. */
  predicate Impersonates(e: E.Engine, a: E.Action, identity: string)
  {
    a.GreetBegin? && a.identity == identity && a.address == e.host
  }

  /** What a step leaves of the stores: contacts stay where they are, conversations only grow. */
  ghost predicate Grown(e: E.Engine, t: E.Engine, a: E.Action)
  {
    var before, after := e.contacts.contacts, t.contacts.contacts;
    && t.host == e.host && |before| <= |after|
    && (forall i :: 0 <= i < |before| ==>
          after[i].identity == before[i].identity && after[i].ipAddressAndPort == before[i].ipAddressAndPort)
    && (forall j :: |before| <= j < |after| ==>
          a.GreetBegin? && after[j].identity == a.identity && after[j].ipAddressAndPort == a.address)
    && ChatPipeline.Grows(e.chat.messages, t.chat.messages)
  }

  lemma GreetGrows(e: E.Engine, nickname: string, identity: string, address: string)
    requires C.Bounded(e.contacts)
    ensures Grown(e, E.GreetBeginStep(e, nickname, identity, address), E.GreetBegin(nickname, identity, address))
  {
    if E.Known(e, identity).Some? { E.UpdateFrame(e.contacts, Activated(E.Known(e, identity).value)); }
  }

  lemma ChatMoves(e: E.Engine, a: E.Action, r: H.Result)
    requires ChatPipeline.Grows(e.chat.messages, r.model.messages)
    ensures Grown(e, E.WithChat(e, r), a)
  {
  }

  lemma ContactsMove(e: E.Engine, a: E.Action, r: C.Result)
    requires E.SameContacts(e.contacts, r.model)
    ensures Grown(e, E.WithContacts(e, r), a)
  {
  }

  lemma GreetStoreGrows(e: E.Engine)
    requires ChatPipeline.HandlerInv(e.chat)
    ensures Grown(e, E.GreetStoreStep(e), E.GreetStore)
  {
    if e.adding.Created? {
      ChatPipeline.OperationsGrow(e.chat, e.adding.id, "", M.Timestamp(""));
      ChatMoves(e, E.GreetStore, H.Create(e.chat, e.adding.id));
    }
  }

  lemma SelectFinishGrows(e: E.Engine, now: M.Timestamp)
    ensures Grown(e, E.SelectFinishStep(e, now), E.SelectFinish(now))
  {
    if e.external.Selecting? {
      E.ChatSelectFrame(e.chat, e.external.id, now);
      var r := H.Select(e.chat, e.external.id, now);
      ChatMoves(e, E.SelectFinish(now), H.Result(r.model, r.ok && e.external.ok));
    }
  }

  lemma MailFinishGrows(e: E.Engine, now: M.Timestamp)
    requires ChatPipeline.HandlerInv(e.chat)
    ensures Grown(e, E.MailFinishStep(e, now), E.MailFinish(now))
  {
    if e.external.Mailing? {
      ChatPipeline.OperationsGrow(e.chat, e.external.id, e.external.text, now);
      ChatMoves(e, E.MailFinish(now), H.Send(e.chat, e.external.id, e.external.text, now));
    }
  }

  lemma ReceiveNextGrows(e: E.Engine, k: nat, now: M.Timestamp)
    requires ChatPipeline.HandlerInv(e.chat)
    ensures Grown(e, E.ReceiveNextStep(e, k, now), E.ReceiveNext(k, now))
  {
    if k < |e.inbound| && e.inbound[k].texts != [] {
      ChatPipeline.OperationsGrow(e.chat, e.inbound[k].id, e.inbound[k].texts[0], now);
      ChatMoves(e, E.ReceiveNext(k, now), H.Receive(e.chat, e.inbound[k].id, e.inbound[k].texts[0], now));
    }
  }

  lemma SelectBeginGrows(e: E.Engine, id: nat)
    requires C.Bounded(e.contacts)
    ensures Grown(e, E.SelectBeginStep(e, id), E.SelectBegin(id))
  {
    E.SelectFrame(e.contacts, id);
  }

  lemma MailBeginGrows(e: E.Engine, text: string)
    requires C.Bounded(e.contacts)
    ensures Grown(e, E.MailBeginStep(e, text), E.MailBegin(text))
  {
    if !E.Mismatch(e) { E.UpdateFrame(e.contacts, Sent(e.contacts.current.value)); }
  }

  lemma ReceiveBeginGrows(e: E.Engine, identity: string, texts: seq<string>)
    requires C.Bounded(e.contacts)
    ensures Grown(e, E.ReceiveBeginStep(e, identity, texts), E.ReceiveBegin(identity, texts))
  {
    if E.Known(e, identity).Some? { E.UpdateFrame(e.contacts, Received(E.Known(e, identity).value)); }
  }

  lemma ProbeGrows(e: E.Engine, id: nat, probe: Probe)
    requires C.Bounded(e.contacts)
    ensures Grown(e, E.ProbeStep(e, id, probe), E.ProbeNext(id, probe))
  {
    E.UpdateFrame(e.contacts, Activated(id));
    E.UpdateFrame(e.contacts, Deactivated(id));
  }

  lemma HeartbeatGrows(e: E.Engine, identity: string)
    requires C.Bounded(e.contacts)
    ensures Grown(e, E.HeartbeatStep(e, identity), E.HeartbeatFrom(identity))
  {
    if E.Known(e, identity).Some? { E.UpdateFrame(e.contacts, Activated(E.Known(e, identity).value)); }
  }

  lemma StepGrows(e: E.Engine, a: E.Action)
    requires C.Bounded(e.contacts) && ChatPipeline.HandlerInv(e.chat)
    ensures Grown(e, E.Step(e, a), a)
  {
    match a
    case GreetBegin(nickname, identity, address) => GreetGrows(e, nickname, identity, address);
    case GreetStore => GreetStoreGrows(e);
    case GreetFinish =>
    case SelectBegin(id) => SelectBeginGrows(e, id);
    case SelectFinish(now) => SelectFinishGrows(e, now);
    case MailBegin(text) => MailBeginGrows(e, text);
    case MailFinish(now) => MailFinishGrows(e, now);
    case ReceiveBegin(identity, texts) => ReceiveBeginGrows(e, identity, texts);
    case ReceiveNext(k, now) => ReceiveNextGrows(e, k, now);
    case ProbeNext(id, probe) => ProbeGrows(e, id, probe);
    case HeartbeatFrom(identity) => HeartbeatGrows(e, identity);
    case StopContacts =>
    case StopChat =>
  }

  lemma PlaceIsKnown(e: E.Engine, identity: string)
    requires E.Always(e)
    ensures B.Place(NodeOf(e), identity) == E.Known(e, identity)
  {
    E.KnownIsContact(e, identity);
  }

  lemma GrownFollows(e: E.Engine, t: E.Engine, a: E.Action, identity: string)
    requires E.Always(e) && E.Always(t) && B.Foreign(NodeOf(e), identity)
    requires Grown(e, t, a) && !Impersonates(e, a, identity)
    ensures B.Follows(identity, NodeOf(e), NodeOf(t))
  {
    PlaceIsKnown(e, identity);
    PlaceIsKnown(t, identity);
    E.KnownIsContact(e, identity);
    E.KnownIsContact(t, identity);
    var before := E.Known(e, identity);
    if before.Some? {
      assert t.contacts.contacts[before.value].identity == identity;
      E.IndexIsInverse(t, before.value);
    }
  }

  /** Every step of an engine is one the sender relies on, unless it impersonates the sender. */
  lemma StepFollows(e: E.Engine, a: E.Action, identity: string)
    requires E.Inv(e) && B.Foreign(NodeOf(e), identity) && !Impersonates(e, a, identity)
    ensures B.Follows(identity, NodeOf(e), NodeOf(E.Step(e, a)))
  {
    E.StepKeepsInv(e, a);
    StepGrows(e, a);
    GrownFollows(e, E.Step(e, a), a, identity);
  }

  lemma FollowsTwice(identity: string, n: B.Node, m: B.Node, later: B.Node)
    requires B.Follows(identity, n, m) && B.Follows(identity, m, later)
    ensures B.Follows(identity, n, later)
  {
    B.GrowsOn(n.chat.messages, m.chat.messages, later.chat.messages);
  }

  // ------------------------------------------------------- receiving a batch

  /** The chat calls of a `handleReceive` whose contacts call was the last one made. */
  function StoreAll(e: E.Engine, k: nat, n: nat, now: M.Timestamp): E.Engine
    decreases n
  {
    var t := E.ReceiveNextStep(e, k, now);
    if n == 0 || |t.inbound| < |e.inbound| then t else StoreAll(t, k, n - 1, now)
  }

  /** A whole `handleReceive` as steps of the engine. */
  function Receives(e: E.Engine, identity: string, texts: seq<string>, now: M.Timestamp): E.Engine
    requires C.Bounded(e.contacts)
  {
    var begun := E.ReceiveBeginStep(e, identity, texts);
    if |begun.inbound| > |e.inbound| then StoreAll(begun, |e.inbound|, |texts|, now) else begun
  }

  lemma StoreFollows(e: E.Engine, k: nat, now: M.Timestamp, identity: string)
    requires E.Inv(e) && B.Foreign(NodeOf(e), identity)
    ensures B.Follows(identity, NodeOf(e), NodeOf(E.ReceiveNextStep(e, k, now)))
  {
    E.ReceiveNextKeeps(e, k, now);
    ReceiveNextGrows(e, k, now);
    GrownFollows(e, E.ReceiveNextStep(e, k, now), E.ReceiveNext(k, now), identity);
  }

  lemma {:induction false} StoreAllKeepsInv(e: E.Engine, k: nat, n: nat, now: M.Timestamp)
    requires E.Inv(e)
    ensures E.Inv(StoreAll(e, k, n, now))
    decreases n
  {
    var t := E.ReceiveNextStep(e, k, now);
    E.ReceiveNextKeeps(e, k, now);
    if !(n == 0 || |t.inbound| < |e.inbound|) { StoreAllKeepsInv(t, k, n - 1, now); }
  }

  lemma {:induction false} StoreAllFollows(e: E.Engine, k: nat, n: nat, now: M.Timestamp, identity: string)
    requires E.Inv(e) && B.Foreign(NodeOf(e), identity)
    ensures B.Follows(identity, NodeOf(e), NodeOf(StoreAll(e, k, n, now)))
    decreases n
  {
    var t := E.ReceiveNextStep(e, k, now);
    E.ReceiveNextKeeps(e, k, now);
    StoreFollows(e, k, now, identity);
    if !(n == 0 || |t.inbound| < |e.inbound|) {
      StoreAllFollows(t, k, n - 1, now, identity);
      FollowsTwice(identity, NodeOf(e), NodeOf(t), NodeOf(StoreAll(t, k, n - 1, now)));
    }
  }

  lemma ReceivesKeepsInv(e: E.Engine, from: string, texts: seq<string>, now: M.Timestamp)
    requires E.Inv(e)
    ensures E.Inv(Receives(e, from, texts, now))
  {
    var begun := E.ReceiveBeginStep(e, from, texts);
    E.ReceiveBeginKeeps(e, from, texts);
    if |begun.inbound| > |e.inbound| { StoreAllKeepsInv(begun, |e.inbound|, |texts|, now); }
  }

  lemma ReceivesFollows(e: E.Engine, from: string, texts: seq<string>, now: M.Timestamp, identity: string)
    requires E.Inv(e) && B.Foreign(NodeOf(e), identity)
    ensures B.Follows(identity, NodeOf(e), NodeOf(Receives(e, from, texts, now)))
  {
    var begun := E.ReceiveBeginStep(e, from, texts);
    E.ReceiveBeginKeeps(e, from, texts);
    ReceiveBeginGrows(e, from, texts);
    GrownFollows(e, begun, E.ReceiveBegin(from, texts), identity);
    if |begun.inbound| > |e.inbound| {
      StoreAllFollows(begun, |e.inbound|, |texts|, now, identity);
      FollowsTwice(identity, NodeOf(e), NodeOf(begun), NodeOf(Receives(e, from, texts, now)));
    }
  }

  lemma {:induction false} StoreAllIsReceiveAll(e: E.Engine, k: nat, now: M.Timestamp)
    requires k < |e.inbound| && B.ReceiveAll(e.chat, e.inbound[k].id, e.inbound[k].texts, now).ok
    ensures var t := StoreAll(e, k, |e.inbound[k].texts|, now);
            && t.chat == B.ReceiveAll(e.chat, e.inbound[k].id, e.inbound[k].texts, now).model
            && t.contacts == e.contacts && t.host == e.host
    decreases |e.inbound[k].texts|
  {
    if e.inbound[k].texts != [] {
      var t := E.ReceiveNextStep(e, k, now);
      assert t.inbound[k] == E.Inbound(e.inbound[k].id, e.inbound[k].texts[1..]);
      StoreAllIsReceiveAll(t, k, now);
    }
  }

  /** A batch the broadcaster takes in leaves the engine exactly as its own steps do. */
  lemma AcceptedBySteps(e: E.Engine, identity: string, texts: seq<string>, now: M.Timestamp)
    requires E.Inv(e) && B.TakeIn(NodeOf(e), identity, texts, now).ok
    ensures NodeOf(Receives(e, identity, texts, now)) == B.TakeIn(NodeOf(e), identity, texts, now).node
  {
    var begun := E.ReceiveBeginStep(e, identity, texts);
    if |begun.inbound| > |e.inbound| {
      StoreAllIsReceiveAll(begun, |e.inbound|, now);
    }
  }

  // ------------------------------------------------------------ many engines

  /** The outgoing mail of one engine and the engines it is meant for. */
  datatype World = World(post: B.Post, peers: map<nat, E.Engine>)

  datatype Event =
    | AcceptText(id: nat, text: string, stubMade: bool)
    | Visiting(id: nat, trip: B.Trip, inactive: bool)
    | PeerSteps(id: nat, action: E.Action)

  function NodesOf(peers: map<nat, E.Engine>): map<nat, B.Node>
  {
    map id | id in peers :: NodeOf(peers[id])
  }

  function Abstract(w: World): B.World
  {
    B.World(w.post, NodesOf(w.peers))
  }

  /** The peer runs its `handleReceive` on what got through, and its answer may get back. */
  function Visit(w: World, identity: string, id: nat, trip: B.Trip, inactive: bool): World
  {
    if !B.Tries(w.post, id, trip.expired, trip.stubMade, inactive) || id !in w.peers then
      w.(post := B.Deliver(w.post, id, B.Visit(trip.expired, trip.stubMade, false), inactive))
    else
      var e := w.peers[id];
      var arrived := B.FirstOf(w.post.neighbors[id].pending, trip.arrives);
      if arrived == [] || !C.Bounded(e.contacts) then
        w.(post := B.Deliver(w.post, id, B.Visit(trip.expired, trip.stubMade, false), inactive))
      else
        var whole := trip.arrives >= |w.post.neighbors[id].pending|;
        var acknowledged := B.TakeIn(NodeOf(e), identity, arrived, trip.now).ok && whole && trip.answered;
        World(B.Deliver(w.post, id, B.Visit(trip.expired, trip.stubMade, acknowledged), inactive),
              w.peers[id := Receives(e, identity, arrived, trip.now)])
  }

  function Next(w: World, identity: string, e: Event): World
  {
    match e
    case AcceptText(id, text, stubMade) => w.(post := B.Enqueue(w.post, id, text, stubMade))
    case Visiting(id, trip, inactive) => Visit(w, identity, id, trip, inactive)
    case PeerSteps(id, action) =>
      if id in w.peers && C.Bounded(w.peers[id].contacts) && !Impersonates(w.peers[id], action, identity)
      then w.(peers := w.peers[id := E.Step(w.peers[id], action)]) else w
  }

  /** The peers right after their constructors; none of them has this engine's identity. */
  predicate Distinct(setups: map<nat, E.Setup>, identity: string)
  {
    forall id :: id in setups ==> CR.Fits(setups[id].nickname) && setups[id].identity != identity
  }

  function Start(setups: map<nat, E.Setup>, identity: string): World
    requires Distinct(setups, identity)
  {
    World(B.EMPTY, map id | id in setups :: E.Bootstrap(setups[id]))
  }

  function Play(setups: map<nat, E.Setup>, identity: string, events: seq<Event>): World
    requires Distinct(setups, identity)
  {
    if events == [] then Start(setups, identity)
    else Next(Play(setups, identity, events[..|events| - 1]), identity, events[|events| - 1])
  }

  predicate IsThere(peers: map<nat, E.Engine>, id: nat)
  {
    id in peers
  }

  ghost predicate Sound(peers: map<nat, E.Engine>)
  {
    forall id {:trigger IsThere(peers, id)} :: IsThere(peers, id) ==> E.Inv(peers[id])
  }

  ghost predicate Inv(w: World, identity: string)
  {
    Sound(w.peers) && B.WorldInv(Abstract(w), identity)
  }

  lemma PeerIsSound(peers: map<nat, E.Engine>, id: nat)
    requires Sound(peers) && id in peers
    ensures E.Inv(peers[id])
  {
    assert IsThere(peers, id);
  }

  lemma PeerIsForeign(w: World, identity: string, id: nat)
    requires B.WorldInv(Abstract(w), identity) && id in w.peers
    ensures B.Foreign(NodeOf(w.peers[id]), identity)
  {
    assert B.Holds(w.post, identity, id, Abstract(w).peers[id]);
  }

  lemma StaysSound(peers: map<nat, E.Engine>, id: nat, later: E.Engine)
    requires Sound(peers) && E.Inv(later)
    ensures Sound(peers[id := later])
  {
    var moved := peers[id := later];
    forall other | IsThere(moved, other) ensures E.Inv(moved[other]) {
      if other != id { PeerIsSound(peers, other); }
    }
  }

  lemma PeerMoves(w: World, identity: string, id: nat, later: E.Engine)
    requires B.WorldInv(Abstract(w), identity) && id in w.peers && B.Follows(identity, NodeOf(w.peers[id]), NodeOf(later))
    ensures B.WorldInv(Abstract(w.(peers := w.peers[id := later])), identity)
  {
    var t := w.(peers := w.peers[id := later]);
    NodesMove(w.peers, id, later);
    B.PeerKeepsWorld(Abstract(w), identity, id, NodeOf(later));
  }

  /** A visit of which nothing gets through. */
  lemma VisitInVain(w: World, identity: string, id: nat, trip: B.Trip, inactive: bool)
    requires B.WorldInv(Abstract(w), identity)
    ensures var post := B.Deliver(w.post, id, B.Visit(trip.expired, trip.stubMade, false), inactive);
            B.WorldInv(Abstract(w.(post := post)), identity)
  {
    var vain := trip.(arrives := 0);
    B.VisitKeepsWorld(Abstract(w), identity, id, vain, inactive);
    var u := B.AttendStep(Abstract(w), identity, id, vain, inactive);
    assert u.peers == Abstract(w).peers;
  }

  lemma NodesMove(peers: map<nat, E.Engine>, id: nat, later: E.Engine)
    requires id in peers
    ensures NodesOf(peers[id := later]) == NodesOf(peers)[id := NodeOf(later)]
  {
  }

  /** A visit of which something gets through, to the peer as it is after taking it in. */
  lemma VisitArrives(w: World, identity: string, id: nat, trip: B.Trip, inactive: bool, later: E.Engine)
    requires B.WorldInv(Abstract(w), identity) && id in w.peers
    requires B.Tries(w.post, id, trip.expired, trip.stubMade, inactive) && C.Bounded(w.peers[id].contacts)
    requires var arrived := B.FirstOf(w.post.neighbors[id].pending, trip.arrives);
             arrived != [] && NodeOf(later) == B.TakeIn(NodeOf(w.peers[id]), identity, arrived, trip.now).node
    ensures var arrived := B.FirstOf(w.post.neighbors[id].pending, trip.arrives);
            var whole := trip.arrives >= |w.post.neighbors[id].pending|;
            var ok := B.TakeIn(NodeOf(w.peers[id]), identity, arrived, trip.now).ok && whole && trip.answered;
            var t := World(B.Deliver(w.post, id, B.Visit(trip.expired, trip.stubMade, ok), inactive), w.peers[id := later]);
            B.WorldInv(Abstract(t), identity)
  {
    B.VisitKeepsWorld(Abstract(w), identity, id, trip, inactive);
    NodesMove(w.peers, id, later);
  }

  lemma VisitKeepsWorld(w: World, identity: string, id: nat, trip: B.Trip, inactive: bool)
    requires B.WorldInv(Abstract(w), identity) && (id in w.peers ==> E.Inv(w.peers[id]))
    ensures B.WorldInv(Abstract(Visit(w, identity, id, trip, inactive)), identity)
  {
    VisitInVain(w, identity, id, trip, inactive);
    if B.Tries(w.post, id, trip.expired, trip.stubMade, inactive) && id in w.peers {
      var e, arrived := w.peers[id], B.FirstOf(w.post.neighbors[id].pending, trip.arrives);
      if arrived != [] {
        var later := Receives(e, identity, arrived, trip.now);
        if B.TakeIn(NodeOf(e), identity, arrived, trip.now).ok {
          AcceptedBySteps(e, identity, arrived, trip.now);
          VisitArrives(w, identity, id, trip, inactive, later);
        } else {
          PeerIsForeign(w, identity, id);
          ReceivesFollows(e, identity, arrived, trip.now, identity);
          PeerMoves(w, identity, id, later);
          VisitInVain(w.(peers := w.peers[id := later]), identity, id, trip, inactive);
        }
      }
    }
  }

  lemma VisitKeepsSound(w: World, identity: string, id: nat, trip: B.Trip, inactive: bool)
    requires Sound(w.peers)
    ensures Sound(Visit(w, identity, id, trip, inactive).peers)
  {
    if B.Tries(w.post, id, trip.expired, trip.stubMade, inactive) && id in w.peers {
      var e, arrived := w.peers[id], B.FirstOf(w.post.neighbors[id].pending, trip.arrives);
      PeerIsSound(w.peers, id);
      ReceivesKeepsInv(e, identity, arrived, trip.now);
      StaysSound(w.peers, id, Receives(e, identity, arrived, trip.now));
    }
  }

  lemma AcceptKeepsWorld(w: World, identity: string, id: nat, text: string, stubMade: bool)
    requires B.WorldInv(Abstract(w), identity)
    ensures B.WorldInv(Abstract(w.(post := B.Enqueue(w.post, id, text, stubMade))), identity)
  {
    B.NextKeepsWorld(Abstract(w), identity, B.AcceptText(id, text, stubMade));
    assert Abstract(w.(post := B.Enqueue(w.post, id, text, stubMade)))
        == B.Next(Abstract(w), identity, B.AcceptText(id, text, stubMade));
  }

  lemma PeerStepKeepsInv(w: World, identity: string, id: nat, a: E.Action)
    requires Inv(w, identity) && id in w.peers && C.Bounded(w.peers[id].contacts) && !Impersonates(w.peers[id], a, identity)
    ensures Inv(w.(peers := w.peers[id := E.Step(w.peers[id], a)]), identity)
  {
    PeerIsSound(w.peers, id);
    PeerIsForeign(w, identity, id);
    StepFollows(w.peers[id], a, identity);
    E.StepKeepsInv(w.peers[id], a);
    StaysSound(w.peers, id, E.Step(w.peers[id], a));
    PeerMoves(w, identity, id, E.Step(w.peers[id], a));
  }

  lemma NextKeepsInv(w: World, identity: string, e: Event)
    requires Inv(w, identity)
    ensures Inv(Next(w, identity, e), identity)
  {
    match e
    case AcceptText(id, text, stubMade) => AcceptKeepsWorld(w, identity, id, text, stubMade);
    case Visiting(id, trip, inactive) =>
      if id in w.peers { PeerIsSound(w.peers, id); }
      VisitKeepsSound(w, identity, id, trip, inactive);
      VisitKeepsWorld(w, identity, id, trip, inactive);
    case PeerSteps(id, action) =>
      if id in w.peers && C.Bounded(w.peers[id].contacts) && !Impersonates(w.peers[id], action, identity) {
        PeerStepKeepsInv(w, identity, id, action);
      }
  }

  lemma BootstrapHasOneContact(setup: E.Setup)
    requires CR.Fits(setup.nickname)
    ensures var contacts := E.Bootstrap(setup).contacts.contacts;
            |contacts| == 1 && contacts[0].identity == setup.identity
  {
    E.SelectFrame(C.Create(C.Initial(setup.contactsLife), setup.nickname, setup.identity, setup.host).model, 0);
  }

  lemma BootstrapIsForeign(setup: E.Setup, identity: string)
    requires CR.Fits(setup.nickname) && setup.identity != identity
    ensures E.Inv(E.Bootstrap(setup)) && B.Foreign(NodeOf(E.Bootstrap(setup)), identity)
  {
    E.BootstrapInv(setup);
    BootstrapHasOneContact(setup);
    UnknownIsForeign(E.Bootstrap(setup), identity);
  }

  lemma UnknownIsForeign(e: E.Engine, identity: string)
    requires E.Always(e) && forall i :: 0 <= i < |e.contacts.contacts| ==> e.contacts.contacts[i].identity != identity
    ensures B.Foreign(NodeOf(e), identity)
  {
    E.KnownIsContact(e, identity);
    PlaceIsKnown(e, identity);
  }

  lemma StartInv(setups: map<nat, E.Setup>, identity: string)
    requires Distinct(setups, identity)
    ensures Inv(Start(setups, identity), identity)
  {
    var w := Start(setups, identity);
    forall id | id in w.peers ensures E.Inv(w.peers[id]) && B.Foreign(NodeOf(w.peers[id]), identity) {
      BootstrapIsForeign(setups[id], identity);
    }
    B.PlayKeepsWorld(NodesOf(w.peers), identity, []);
  }

  lemma {:induction false} PlayKeepsInv(setups: map<nat, E.Setup>, identity: string, events: seq<Event>)
    requires Distinct(setups, identity)
    ensures Inv(Play(setups, identity, events), identity)
  {
    if events == [] {
      StartInv(setups, identity);
    } else {
      PlayKeepsInv(setups, identity, events[..|events| - 1]);
      NextKeepsInv(Play(setups, identity, events[..|events| - 1]), identity, events[|events| - 1]);
    }
  }

  lemma NextKeepsPeers(w: World, identity: string, e: Event)
    ensures Next(w, identity, e).peers.Keys == w.peers.Keys
  {
  }

  lemma {:induction false} PlayKeepsPeers(setups: map<nat, E.Setup>, identity: string, events: seq<Event>)
    requires Distinct(setups, identity)
    ensures Play(setups, identity, events).peers.Keys == setups.Keys
  {
    if events != [] {
      PlayKeepsPeers(setups, identity, events[..|events| - 1]);
      NextKeepsPeers(Play(setups, identity, events[..|events| - 1]), identity, events[|events| - 1]);
    }
  }

  /**
   At least once, in order, between real engines: over any run in which the peers take any steps of
   theirs between the deliveries, and lose any texts and answers, what this engine holds as
   acknowledged is found, in order, among the texts the peer has received from it, and nothing
   accepted is lost.
   */
  lemma EnginesDeliver(setups: map<nat, E.Setup>, identity: string, events: seq<Event>, id: nat) returns (at: seq<nat>)
    requires Distinct(setups, identity)
    ensures var w := Play(setups, identity, events);
            && B.AcknowledgedBy(w.post.attempts, id) + B.PendingFor(w.post, id) == B.HandedTo(w.post.handed, id)
            && (id in setups <==> id in w.peers)
            && (id in setups ==> B.Embeds(B.AcknowledgedBy(w.post.attempts, id), B.HeardFrom(NodeOf(w.peers[id]), identity), at))
            && (id !in setups ==> B.AcknowledgedBy(w.post.attempts, id) == [])
  {
    PlayKeepsInv(setups, identity, events);
    PlayKeepsPeers(setups, identity, events);
    var w := Play(setups, identity, events);
    assert B.Conserved(w.post);
    at := [];
    if id in w.peers {
      assert B.Holds(w.post, identity, id, Abstract(w).peers[id]);
      at :| B.Embeds(B.AcknowledgedBy(w.post.attempts, id), B.HeardFrom(NodeOf(w.peers[id]), identity), at);
    } else {
      assert id !in Abstract(w).peers;
    }
  }
}
