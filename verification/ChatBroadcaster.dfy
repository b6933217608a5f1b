/**
 `TTBroadcasterChat` (engine/src/TTBroadcasterChat.cpp): store and forward of outgoing
 messages, and delivery of incoming ones to the handlers.
 */
module ChatBroadcaster {
  import opened Common
  import opened ContactStates
  import C = ContactsHandlers
  import H = ChatHandlers
  import M = ChatMessages
  import ChatPipeline

  datatype Neighbor = Neighbor(stub: bool, pending: seq<string>)

  /** One pending message is told, several are narrated. */
  datatype Request = Tell(message: string) | Narrate(messages: seq<string>)

  function Carried(r: Request): seq<string>
  {
    match r case Tell(message) => [message] case Narrate(messages) => messages
  }

  /** A text accepted for a contact. */
  datatype Handed = Handed(id: nat, text: string)

  /**
   One attempt to deliver: what it carried and whether it was acknowledged. `when` is the number of
   texts accepted before it.
   */
  datatype Attempt = Attempt(id: nat, when: nat, request: Request, acknowledged: bool)

  datatype Post = Post(neighbors: map<nat, Neighbor>, handed: seq<Handed>, attempts: seq<Attempt>)

  /** What the environment contributes to one visit of a neighbour by the loop of `run`. */
  datatype Visit = Visit(expired: bool, stubMade: bool, acknowledged: bool)

  /** The end of `handleSend`: insert the neighbour or append to it. */
  function Enqueue(p: Post, id: nat, text: string, stubMade: bool): Post
  {
    var n := if id in p.neighbors then p.neighbors[id] else Neighbor(stubMade, []);
    p.(neighbors := p.neighbors[id := n.(pending := n.pending + [text])], handed := p.handed + [Handed(id, text)])
  }

  function RequestFor(pending: seq<string>): Request
    requires pending != []
  {
    if |pending| > 1 then Narrate(pending) else Tell(pending[|pending| - 1])
  }

  /** The loop body for one neighbour gets as far as sending what is pending. */
  predicate Tries(p: Post, id: nat, expired: bool, stubMade: bool, inactive: bool)
  {
    && id in p.neighbors && expired && !inactive
    && (p.neighbors[id].stub || stubMade) && p.neighbors[id].pending != []
  }

  /** The loop body for one neighbour. */
  function Deliver(p: Post, id: nat, v: Visit, inactive: bool): Post
  {
    if id !in p.neighbors || !v.expired || inactive then p
    else
      var n := p.neighbors[id].(stub := p.neighbors[id].stub || v.stubMade);
      if !n.stub || n.pending == [] then p.(neighbors := p.neighbors[id := n])
      else
        var request := RequestFor(n.pending);
        p.(neighbors := p.neighbors[id := if v.acknowledged then n.(pending := []) else n],
           attempts := p.attempts + [Attempt(id, |p.handed|, request, v.acknowledged)])
  }

  // --------------------------------------------------------- accounts per contact

  function HandedTo(handed: seq<Handed>, id: nat): seq<string>
  {
    if handed == [] then []
    else HandedTo(handed[..|handed| - 1], id) + if handed[|handed| - 1].id == id then [handed[|handed| - 1].text] else []
  }

  /** The acknowledged batches, one after the other. */
  function AcknowledgedBy(attempts: seq<Attempt>, id: nat): seq<string>
  {
    if attempts == [] then []
    else
      var last := attempts[|attempts| - 1];
      AcknowledgedBy(attempts[..|attempts| - 1], id) + if last.id == id && last.acknowledged then Carried(last.request) else []
  }

  function PendingFor(p: Post, id: nat): seq<string>
  {
    if id in p.neighbors then p.neighbors[id].pending else []
  }

  ghost predicate Conserved(p: Post)
  {
    forall id {:trigger PendingFor(p, id)} :: AcknowledgedBy(p.attempts, id) + PendingFor(p, id) == HandedTo(p.handed, id)
  }

  /** The `k`-th attempt carried exactly what was accepted and not acknowledged at that time. */
  ghost predicate CarriedTheRest(p: Post, k: nat)
    requires k < |p.attempts|
  {
    var a := p.attempts[k];
    && a.when <= |p.handed|
    && AcknowledgedBy(p.attempts[..k], a.id) + Carried(a.request) == HandedTo(p.handed[..a.when], a.id)
  }

  ghost predicate Inv(p: Post)
  {
    Conserved(p) && forall k :: 0 <= k < |p.attempts| ==> CarriedTheRest(p, k)
  }

  lemma EnqueueKeepsInv(p: Post, id: nat, text: string, stubMade: bool)
    requires Inv(p)
    ensures Inv(Enqueue(p, id, text, stubMade))
  {
    var q := Enqueue(p, id, text, stubMade);
    assert q.handed[..|p.handed|] == p.handed;
    forall i ensures AcknowledgedBy(q.attempts, i) + PendingFor(q, i) == HandedTo(q.handed, i) {
      assert AcknowledgedBy(p.attempts, i) + PendingFor(p, i) == HandedTo(p.handed, i);
      if i == id {
        assert PendingFor(q, i) == PendingFor(p, i) + [text];
        assert AcknowledgedBy(p.attempts, i) + (PendingFor(p, i) + [text]) == AcknowledgedBy(p.attempts, i) + PendingFor(p, i) + [text];
      }
    }
    forall k | 0 <= k < |q.attempts| ensures CarriedTheRest(q, k) {
      assert CarriedTheRest(p, k);
      assert q.handed[..q.attempts[k].when] == p.handed[..p.attempts[k].when];
    }
  }

  lemma CarriedIsPending(pending: seq<string>)
    requires pending != []
    ensures Carried(RequestFor(pending)) == pending
  {
  }

  lemma DeliverKeepsAttempts(p: Post, id: nat, v: Visit, inactive: bool)
    requires Inv(p)
    ensures var q := Deliver(p, id, v, inactive); forall k :: 0 <= k < |q.attempts| ==> CarriedTheRest(q, k)
  {
    var q := Deliver(p, id, v, inactive);
    forall k | 0 <= k < |q.attempts| ensures CarriedTheRest(q, k) {
      if k < |p.attempts| {
        assert CarriedTheRest(p, k);
        assert q.attempts[..k] == p.attempts[..k];
      } else {
        CarriedIsPending(p.neighbors[id].pending);
        assert AcknowledgedBy(p.attempts, id) + PendingFor(p, id) == HandedTo(p.handed, id);
        assert q.attempts[..k] == p.attempts && p.handed[..|p.handed|] == p.handed;
      }
    }
  }

  lemma DeliverKeepsInv(p: Post, id: nat, v: Visit, inactive: bool)
    requires Inv(p)
    ensures Inv(Deliver(p, id, v, inactive))
  {
    var q := Deliver(p, id, v, inactive);
    DeliverKeepsAttempts(p, id, v, inactive);
    forall i ensures AcknowledgedBy(q.attempts, i) + PendingFor(q, i) == HandedTo(q.handed, i) {
      assert AcknowledgedBy(p.attempts, i) + PendingFor(p, i) == HandedTo(p.handed, i);
      if q.attempts != p.attempts {
        CarriedIsPending(p.neighbors[id].pending);
        assert q.attempts[..|p.attempts|] == p.attempts;
      }
    }
  }

  // --------------------------------------------------------------------- runs

  datatype Action = Accept(id: nat, text: string, stubMade: bool) | Attend(id: nat, visit: Visit, inactive: bool)

  function Step(p: Post, a: Action): Post
  {
    match a
    case Accept(id, text, stubMade) => Enqueue(p, id, text, stubMade)
    case Attend(id, visit, inactive) => Deliver(p, id, visit, inactive)
  }

  const EMPTY := Post(map[], [], [])

  function Run(actions: seq<Action>): Post
  {
    if actions == [] then EMPTY else Step(Run(actions[..|actions| - 1]), actions[|actions| - 1])
  }

  lemma {:induction false} RunKeepsInv(actions: seq<Action>)
    ensures Inv(Run(actions))
  {
    if actions != [] {
      var a := actions[|actions| - 1];
      RunKeepsInv(actions[..|actions| - 1]);
      var p := Run(actions[..|actions| - 1]);
      match a {
        case Accept(id, text, stubMade) => EnqueueKeepsInv(p, id, text, stubMade);
        case Attend(id, visit, inactive) => DeliverKeepsInv(p, id, visit, inactive);
      }
    }
  }

  /**
   Conservation, for every run and every pattern of lost requests and lost acknowledgements:
   the acknowledged batches followed by what is pending are all the texts accepted, in order.
   */
  lemma NothingIsLost(actions: seq<Action>, id: nat)
    ensures var p := Run(actions); AcknowledgedBy(p.attempts, id) + PendingFor(p, id) == HandedTo(p.handed, id)
  {
    RunKeepsInv(actions);
    assert Conserved(Run(actions));
  }

  /** Every attempt carries exactly the unacknowledged rest, as one tell or one narrate. */
  lemma AttemptsCarryTheRest(actions: seq<Action>, k: nat)
    requires k < |Run(actions).attempts|
    ensures var p := Run(actions);
            var a := p.attempts[k];
            && a.when <= |p.handed|
            && AcknowledgedBy(p.attempts[..k], a.id) <= HandedTo(p.handed[..a.when], a.id)
            && Carried(a.request) == HandedTo(p.handed[..a.when], a.id)[|AcknowledgedBy(p.attempts[..k], a.id)|..]
  {
    RunKeepsInv(actions);
    assert CarriedTheRest(Run(actions), k);
  }

  // -------------------------------------------------------------------- passes

  /** What other threads do to the contacts, one operation after the other. */
  function Meanwhile(m: C.Model, ops: seq<C.Operation>): C.Model
    decreases |ops|
  {
    if ops == [] || !C.Bounded(m) then m else Meanwhile(C.Step(m, ops[0]), ops[1..])
  }

  /** The contacts at the turn of neighbour `id`; `others(i)` is what other threads did to them since turn `i`. */
  function ContactsAt(m: C.Model, others: nat -> seq<C.Operation>, id: nat): C.Model
  {
    if id == 0 then m else Meanwhile(ContactsAt(m, others, id - 1), others(id - 1))
  }

  predicate IsInactive(m: C.Model, id: nat)
  {
    id < |m.contacts| && !IsActive(m.contacts[id].state)
  }

  ghost predicate AllLegal(others: nat -> seq<C.Operation>)
  {
    forall i, k {:trigger others(i)[k]} :: 0 <= k < |others(i)| ==> C.Legal(others(i)[k])
  }

  /** A pass as it begins, and what the environment contributes to it. */
  datatype Course = Course(start: Post, visits: nat -> Visit, contacts: C.Model, others: nat -> seq<C.Operation>, life: nat)

  /** The stop has not landed before the turn of `id`. */
  predicate HasTurn(c: Course, id: nat)
  {
    Rank(c.start.neighbors, id) < c.life
  }

  predicate InactiveAt(c: Course, id: nat)
  {
    IsInactive(ContactsAt(c.contacts, c.others, id), id)
  }

  /** The turns of the neighbours below `limit`, up to the moment at which the stop lands. */
  function DeliverAll(c: Course, limit: nat): Post
  {
    if limit == 0 then c.start
    else if HasTurn(c, limit - 1) then Deliver(DeliverAll(c, limit - 1), limit - 1, c.visits(limit - 1), InactiveAt(c, limit - 1))
    else DeliverAll(c, limit - 1)
  }

  /** Once the stop has landed nobody is served any more. */
  lemma {:induction false} NobodyServed(c: Course, id: nat, limit: nat)
    requires id <= limit && !HasTurn(c, id)
    ensures DeliverAll(c, limit) == DeliverAll(c, id)
    decreases limit - id
  {
    if id < limit {
      NobodyServed(c, id, limit - 1);
      RankGrows(c.start.neighbors, id, limit - 1);
    }
  }

  lemma StopsHere(c: Course, id: nat, limit: nat)
    requires id <= limit && Rank(c.start.neighbors, id) == c.life
    ensures DeliverAll(c, limit) == DeliverAll(c, id)
    ensures Left(c.start.neighbors, c.life, limit) == 0
  {
    NobodyServed(c, id, limit);
    RankGrows(c.start.neighbors, id, limit);
  }

  lemma DeliverFrame(p: Post, id: nat, v: Visit, inactive: bool)
    ensures var q := Deliver(p, id, v, inactive);
            && q.handed == p.handed && q.neighbors.Keys == p.neighbors.Keys && p.attempts <= q.attempts
            && forall other :: other in p.neighbors && other != id ==> q.neighbors[other] == p.neighbors[other]
  {
  }

  /**
   A pass keeps the accounts, accepts nothing and forgets nobody, wherever the stop lands and
   whatever other threads do to the contacts.
   */
  lemma {:induction false} PassKeepsInv(c: Course, limit: nat)
    requires Inv(c.start)
    ensures var q := DeliverAll(c, limit);
            Inv(q) && q.handed == c.start.handed && q.neighbors.Keys == c.start.neighbors.Keys && c.start.attempts <= q.attempts
  {
    if limit > 0 {
      PassKeepsInv(c, limit - 1);
      TurnKeeps(DeliverAll(c, limit - 1), limit - 1, c.visits(limit - 1), InactiveAt(c, limit - 1));
    }
  }

  lemma TurnKeeps(p: Post, id: nat, v: Visit, inactive: bool)
    requires Inv(p)
    ensures var q := Deliver(p, id, v, inactive);
            Inv(q) && q.handed == p.handed && q.neighbors.Keys == p.neighbors.Keys && p.attempts <= q.attempts
  {
    DeliverFrame(p, id, v, inactive);
    DeliverKeepsInv(p, id, v, inactive);
  }

  /**
   In a pass every neighbour has exactly one turn, on its own record and with its contact as it is
   then, unless the stop has landed before it: no other turn touches its record.
   */
  lemma {:induction false} OneTurnEach(c: Course, limit: nat, id: nat)
    requires id in c.start.neighbors
    ensures var q := DeliverAll(c, limit);
            && q.neighbors.Keys == c.start.neighbors.Keys
            && q.neighbors[id] == if id < limit && HasTurn(c, id)
                                  then Deliver(c.start, id, c.visits(id), InactiveAt(c, id)).neighbors[id]
                                  else c.start.neighbors[id]
  {
    if limit > 0 {
      OneTurnEach(c, limit - 1, id);
      DeliverFrame(DeliverAll(c, limit - 1), limit - 1, c.visits(limit - 1), InactiveAt(c, limit - 1));
    }
  }

  /** Other threads leave the contacts in good order, and never remove one. */
  lemma StepStaysBounded(m: C.Model, op: C.Operation)
    requires C.Bounded(m) && C.Legal(op)
    ensures C.Bounded(C.Step(m, op)) && |C.Step(m, op).contacts| >= |m.contacts|
  {
    if op.DoUpdate? { ChangeStaysBounded(m, op.event); }
    if op.DoSelect? { SelectStaysBounded(m, op.id); }
  }

  lemma ChangeStaysBounded(m: C.Model, e: ContactStates.Event)
    requires C.Bounded(m)
    ensures C.Bounded(C.Update(m, e).model) && |C.Update(m, e).model.contacts| == |m.contacts|
  {
  }

  lemma SelectStaysBounded(m: C.Model, id: nat)
    requires C.Bounded(m)
    ensures C.Bounded(C.Select(m, id).model) && |C.Select(m, id).model.contacts| == |m.contacts|
  {
    if id < |m.contacts| && m.current.Some? {
      ToggleStaysBounded(m.(previous := m.current), Unselected(m.current.value));
    }
  }

  lemma ToggleStaysBounded(m: C.Model, e: ContactStates.Event)
    requires C.Bounded(m) && e.id < |m.contacts|
    ensures var n := C.Toggle(m, e).model; C.Bounded(n) && |n.contacts| == |m.contacts| && n.current == m.current
  {
  }

  // ---------------------------------------------------------------- receiving

  /** Chat calls of `handleReceive`, up to the first failure. */
  function ReceiveAll(h: H.Model, id: nat, texts: seq<string>, now: M.Timestamp): H.Result
    decreases |texts|
  {
    if texts == [] then H.Result(h, true)
    else
      var first := H.Receive(h, id, texts[0], now);
      if first.ok then ReceiveAll(first.model, id, texts[1..], now) else first
  }

  function EntriesOf(texts: seq<string>, now: M.Timestamp): seq<M.Entry>
  {
    seq(|texts|, i requires 0 <= i < |texts| => M.Entry(M.RECEIVER, now, texts[i]))
  }

  /** An accepted batch is stored whole, in order, in that contact's conversation and no other. */
  lemma {:induction false} BatchIsStored(h: H.Model, id: nat, texts: seq<string>, now: M.Timestamp)
    requires ReceiveAll(h, id, texts, now).ok && (texts == [] ==> id < |h.messages|)
    ensures var n := ReceiveAll(h, id, texts, now).model;
            && id < |h.messages| == |n.messages|
            && n.messages == h.messages[id := h.messages[id] + EntriesOf(texts, now)]
    decreases |texts|
  {
    if texts == [] {
      assert h.messages[id] + [] == h.messages[id];
    } else {
      var first := H.Receive(h, id, texts[0], now).model;
      BatchIsStored(first, id, texts[1..], now);
      assert EntriesOf(texts, now) == [M.Entry(M.RECEIVER, now, texts[0])] + EntriesOf(texts[1..], now);
      assert first.messages[id] + EntriesOf(texts[1..], now) == h.messages[id] + EntriesOf(texts, now);
    }
  }

  /** The receiving side of another engine, with its own address. */
  datatype Node = Node(contacts: C.Model, chat: H.Model, host: string)

  datatype Reception = Reception(node: Node, ok: bool, stop: bool)

  /** `handleReceive`: contact first, then the texts one by one, and a stop when either refuses. */
  function TakeIn(n: Node, identity: string, texts: seq<string>, now: M.Timestamp): Reception
    requires C.Bounded(n.contacts)
  {
    var id := C.Lookup(n.contacts.identities, identity);
    if id.None? then Reception(n, false, false)
    else if id.value >= |n.contacts.contacts| then Reception(n, false, true)
    else if n.contacts.contacts[id.value].ipAddressAndPort == n.host then Reception(n, true, false)
    else
      var c := C.Update(n.contacts, Received(id.value));
      if !c.ok then Reception(n.(contacts := c.model), false, true)
      else
        var h := ReceiveAll(n.chat, id.value, texts, now);
        Reception(n.(contacts := c.model, chat := h.model), h.ok, !h.ok)
  }

  /** The reads of the chat handler's stop flag that one text takes. */
  function Cost(h: H.Model, id: nat): nat
  {
    if h.current == Some(id) then 2 else 1
  }

  lemma {:induction false} ReceiveAllExactly(h: H.Model, id: nat, texts: seq<string>, now: M.Timestamp)
    ensures ReceiveAll(h, id, texts, now).ok <==> texts == [] || (id < |h.messages| && h.life >= Cost(h, id) * |texts|)
    decreases |texts|
  {
    if texts != [] && id < |h.messages| && h.life >= Cost(h, id) {
      var first := H.Receive(h, id, texts[0], now).model;
      ReceiveAllExactly(first, id, texts[1..], now);
      assert Cost(h, id) * |texts| == Cost(h, id) + Cost(h, id) * |texts[1..]|;
    } else {
      assert texts != [] ==> Cost(h, id) * |texts| >= Cost(h, id);
    }
  }

  /** Contact and conversation both take the batch: the contact is active, and nothing is stopped before the last text is queued. */
  predicate TakesAll(n: Node, id: nat, texts: seq<string>)
    requires id < |n.contacts.contacts|
  {
    && IsActive(n.contacts.contacts[id].state)
    && (n.contacts.contacts[id].state == ACTIVE ==> n.contacts.life > 0)
    && (texts == [] || (id < |n.chat.messages| && n.chat.life >= Cost(n.chat, id) * |texts|))
  }

  /**
   An unknown sender is only refused. A known one under another address is accepted if both handlers
   take the whole batch, and stops the broadcaster if not; one known under the own address is accepted.
   */
  lemma TakeInExactly(n: Node, identity: string, texts: seq<string>, now: M.Timestamp)
    requires C.Bounded(n.contacts)
    ensures var id, r := C.Lookup(n.contacts.identities, identity), TakeIn(n, identity, texts, now);
            && (id.None? ==> !r.ok && !r.stop && r.node == n)
            && (id.Some? && id.value < |n.contacts.contacts| ==>
                  var own := n.contacts.contacts[id.value].ipAddressAndPort == n.host;
                  && (r.ok <==> own || TakesAll(n, id.value, texts))
                  && (r.stop <==> !r.ok)
                  && (own ==> r.node == n))
  {
    var id := C.Lookup(n.contacts.identities, identity);
    if id.Some? && id.value < |n.contacts.contacts| {
      ReceiveAllExactly(n.chat, id.value, texts, now);
      AcceptedExactly(n.contacts.contacts[id.value].state, id.value);
    }
  }

  /** The sender as the receiving side knows it. */
  function Place(n: Node, identity: string): Option<nat>
  {
    var id := C.Lookup(n.contacts.identities, identity);
    if id.Some? && id.value < |n.contacts.contacts| then id else None
  }

  /** The receiving side does not know the sender under its own address. */
  predicate Foreign(n: Node, identity: string)
  {
    var id := Place(n, identity);
    id.Some? ==> n.contacts.contacts[id.value].ipAddressAndPort != n.host
  }

  function Heard(entries: seq<M.Entry>): seq<string>
  {
    if entries == [] then []
    else
      var last := entries[|entries| - 1];
      Heard(entries[..|entries| - 1]) + if last.kind == M.RECEIVER then [last.data] else []
  }

  /** The texts received in the conversation with the sender. */
  function HeardFrom(n: Node, identity: string): seq<string>
  {
    var id := Place(n, identity);
    if id.Some? && id.value < |n.chat.messages| then Heard(n.chat.messages[id.value]) else []
  }

  lemma {:induction false} HeardConcat(a: seq<M.Entry>, b: seq<M.Entry>)
    ensures Heard(a + b) == Heard(a) + Heard(b)
  {
    if b == [] {
      assert a + b == a;
      assert Heard(a) + [] == Heard(a);
    } else {
      var last := |b| - 1;
      assert (a + b)[..|a + b| - 1] == a + b[..last];
      HeardConcat(a, b[..last]);
    }
  }

  lemma {:induction false} HeardEntries(texts: seq<string>, now: M.Timestamp)
    ensures Heard(EntriesOf(texts, now)) == texts
  {
    if texts != [] {
      var last := |texts| - 1;
      assert EntriesOf(texts, now)[..last] == EntriesOf(texts[..last], now);
      HeardEntries(texts[..last], now);
      assert texts == texts[..last] + [texts[last]];
    }
  }

  /** The sender keeps its place, and the list its soundness, whatever is received. */
  lemma UpdateKeepsPlace(m: C.Model, id: nat)
    requires C.Bounded(m)
    ensures var n := C.Update(m, Received(id)).model;
            && C.Bounded(n) && n.identities == m.identities && |n.contacts| == |m.contacts|
            && forall i :: 0 <= i < |m.contacts| ==> n.contacts[i].ipAddressAndPort == m.contacts[i].ipAddressAndPort
  {
  }

  lemma {:induction false} ReceiveAllGrows(h: H.Model, id: nat, texts: seq<string>, now: M.Timestamp)
    ensures ChatPipeline.Grows(h.messages, ReceiveAll(h, id, texts, now).model.messages)
    decreases |texts|
  {
    if texts != [] {
      var first := H.Receive(h, id, texts[0], now).model;
      ReceiveAllGrows(first, id, texts[1..], now);
      GrowsOn(h.messages, first.messages, ReceiveAll(h, id, texts, now).model.messages);
    }
  }

  lemma GrowsOn(a: seq<seq<M.Entry>>, b: seq<seq<M.Entry>>, c: seq<seq<M.Entry>>)
    requires ChatPipeline.Grows(a, b) && (b == c || ChatPipeline.Grows(b, c))
    ensures ChatPipeline.Grows(a, c)
  {
    forall i | 0 <= i < |a| ensures a[i] <= c[i] { assert a[i] <= b[i] && b[i] <= c[i]; }
  }

  /**
   An accepted batch is stored whole, at the end of the conversation with the sender, if and only if
   the receiving side does not know the sender under its own address.
   */
  lemma AcceptedIsStored(n: Node, identity: string, texts: seq<string>, now: M.Timestamp)
    requires C.Bounded(n.contacts) && TakeIn(n, identity, texts, now).ok && texts != []
    ensures HeardFrom(TakeIn(n, identity, texts, now).node, identity) == HeardFrom(n, identity) + texts
            <==> Foreign(n, identity)
  {
    var later := TakeIn(n, identity, texts, now).node;
    var id := Place(n, identity).value;
    if Foreign(n, identity) {
      UpdateKeepsPlace(n.contacts, id);
      BatchIsStored(n.chat, id, texts, now);
      HeardConcat(n.chat.messages[id], EntriesOf(texts, now));
      HeardEntries(texts, now);
    } else {
      assert |HeardFrom(later, identity)| == |HeardFrom(n, identity)|;
    }
  }

  // ------------------------------------------------------------- sender and peers

  /** What the network does to one visit: how many of the texts get through, and whether the answer does. */
  datatype Trip = Trip(expired: bool, stubMade: bool, arrives: nat, answered: bool, now: M.Timestamp)

  /** This engine's outgoing mail and the engines it is meant for. */
  datatype World = World(post: Post, peers: map<nat, Node>)

  /** The beginning of a list, at most `n` long. */
  function FirstOf(s: seq<string>, n: nat): seq<string>
  {
    if n < |s| then s[..n] else s
  }

  /** The peer takes in what got through of the pending texts. */
  function Arrival(w: World, identity: string, id: nat, trip: Trip): Reception
    requires id in w.post.neighbors && id in w.peers
  {
    var arrived := FirstOf(w.post.neighbors[id].pending, trip.arrives);
    if arrived == [] || !C.Bounded(w.peers[id].contacts) then Reception(w.peers[id], false, false)
    else TakeIn(w.peers[id], identity, arrived, trip.now)
  }

  /** An acknowledgement is the answer of a peer that took in the whole batch. */
  function AttendStep(w: World, identity: string, id: nat, trip: Trip, inactive: bool): World
  {
    if !Tries(w.post, id, trip.expired, trip.stubMade, inactive) || id !in w.peers then
      w.(post := Deliver(w.post, id, Visit(trip.expired, trip.stubMade, false), inactive))
    else
      var r := Arrival(w, identity, id, trip);
      var whole := trip.arrives >= |w.post.neighbors[id].pending|;
      World(Deliver(w.post, id, Visit(trip.expired, trip.stubMade, r.ok && whole && trip.answered), inactive),
            w.peers[id := r.node])
  }

  /**
   What a peer may do on its own between visits: anything that only appends to its conversations,
   keeps the sender where it is, and does not take the sender's identity for its own address.
   */
  ghost predicate Follows(identity: string, n: Node, later: Node)
  {
    && C.Bounded(later.contacts) && Foreign(later, identity)
    && ChatPipeline.Grows(n.chat.messages, later.chat.messages)
    && (Place(n, identity).Some? ==> Place(later, identity) == Place(n, identity))
  }

  datatype Event =
    | AcceptText(id: nat, text: string, stubMade: bool)
    | Visiting(id: nat, trip: Trip, inactive: bool)
    | PeerActs(id: nat, later: Node)

  ghost function Next(w: World, identity: string, e: Event): World
  {
    match e
    case AcceptText(id, text, stubMade) => w.(post := Enqueue(w.post, id, text, stubMade))
    case Visiting(id, trip, inactive) => AttendStep(w, identity, id, trip, inactive)
    case PeerActs(id, later) =>
      if id in w.peers && Follows(identity, w.peers[id], later) then w.(peers := w.peers[id := later]) else w
  }

  ghost function Play(peers: map<nat, Node>, identity: string, events: seq<Event>): World
  {
    if events == [] then World(EMPTY, peers)
    else Next(Play(peers, identity, events[..|events| - 1]), identity, events[|events| - 1])
  }

  /** `part` is found in `whole` at the increasing positions `at`. */
  ghost predicate Embeds(part: seq<string>, whole: seq<string>, at: seq<nat>)
  {
    && |at| == |part|
    && (forall i :: 0 <= i < |at| ==> at[i] < |whole| && whole[at[i]] == part[i])
    && (forall i, j :: 0 <= i < j < |at| ==> at[i] < at[j])
  }

  ghost predicate Embedded(part: seq<string>, whole: seq<string>)
  {
    exists at :: Embeds(part, whole, at)
  }

  lemma EmbeddedLater(part: seq<string>, whole: seq<string>, later: seq<string>)
    requires Embedded(part, whole) && whole <= later
    ensures Embedded(part, later)
  {
    var at :| Embeds(part, whole, at);
    assert Embeds(part, later, at);
  }

  lemma EmbeddedBatch(part: seq<string>, whole: seq<string>, batch: seq<string>)
    requires Embedded(part, whole)
    ensures Embedded(part + batch, whole + batch)
  {
    var at :| Embeds(part, whole, at);
    assert Embeds(part + batch, whole + batch, at + seq(|batch|, i requires 0 <= i => |whole| + i));
  }

  lemma HeardLater(n: Node, later: Node, identity: string)
    requires ChatPipeline.Grows(n.chat.messages, later.chat.messages)
    requires Place(n, identity).Some? ==> Place(later, identity) == Place(n, identity)
    ensures HeardFrom(n, identity) <= HeardFrom(later, identity)
  {
    var id := Place(n, identity);
    if id.Some? && id.value < |n.chat.messages| {
      var a, b := n.chat.messages[id.value], later.chat.messages[id.value];
      assert a <= b && b == a + b[|a|..];
      HeardConcat(a, b[|a|..]);
    }
  }

  lemma TakeInFollows(n: Node, identity: string, texts: seq<string>, now: M.Timestamp)
    requires C.Bounded(n.contacts) && Foreign(n, identity)
    ensures Follows(identity, n, TakeIn(n, identity, texts, now).node)
  {
    var id := Place(n, identity);
    if id.Some? {
      UpdateKeepsPlace(n.contacts, id.value);
      ReceiveAllGrows(n.chat, id.value, texts, now);
    }
  }

  /** A peer in good order that stores, in order, everything this engine holds as acknowledged. */
  ghost predicate Holds(post: Post, identity: string, id: nat, n: Node)
  {
    && C.Bounded(n.contacts) && Foreign(n, identity)
    && Embedded(AcknowledgedBy(post.attempts, id), HeardFrom(n, identity))
  }

  ghost predicate WorldInv(w: World, identity: string)
  {
    && Inv(w.post)
    && (forall id {:trigger w.peers[id]} :: id in w.peers ==> Holds(w.post, identity, id, w.peers[id]))
    && (forall id {:trigger AcknowledgedBy(w.post.attempts, id)} :: id !in w.peers ==> AcknowledgedBy(w.post.attempts, id) == [])
  }

  /** What one delivery adds to the acknowledged texts of each neighbour. */
  lemma DeliverAcknowledges(p: Post, id: nat, v: Visit, inactive: bool, other: nat)
    ensures AcknowledgedBy(Deliver(p, id, v, inactive).attempts, other) ==
            AcknowledgedBy(p.attempts, other)
            + if other == id && v.acknowledged && Tries(p, id, v.expired, v.stubMade, inactive) then p.neighbors[id].pending else []
  {
    var q := Deliver(p, id, v, inactive);
    if Tries(p, id, v.expired, v.stubMade, inactive) {
      CarriedIsPending(p.neighbors[id].pending);
      assert q.attempts[..|p.attempts|] == p.attempts;
    }
    assert AcknowledgedBy(p.attempts, other) + [] == AcknowledgedBy(p.attempts, other);
  }

  lemma ArrivalHolds(w: World, identity: string, id: nat, trip: Trip, inactive: bool)
    requires WorldInv(w, identity) && Tries(w.post, id, trip.expired, trip.stubMade, inactive) && id in w.peers
    ensures var t := AttendStep(w, identity, id, trip, inactive);
            id in t.peers && Holds(t.post, identity, id, t.peers[id])
  {
    var n, pending := w.peers[id], w.post.neighbors[id].pending;
    var r := Arrival(w, identity, id, trip);
    var acknowledged := r.ok && trip.arrives >= |pending| && trip.answered;
    var before := AcknowledgedBy(w.post.attempts, id);
    DeliverAcknowledges(w.post, id, Visit(trip.expired, trip.stubMade, acknowledged), inactive, id);
    TakeInFollows(n, identity, FirstOf(pending, trip.arrives), trip.now);
    if acknowledged {
      AcceptedIsStored(n, identity, pending, trip.now);
      EmbeddedBatch(before, HeardFrom(n, identity), pending);
    } else {
      assert before + [] == before;
      if r.node != n { HeardLater(n, r.node, identity); }
      EmbeddedLater(before, HeardFrom(n, identity), HeardFrom(r.node, identity));
    }
  }

  lemma VisitKeepsWorld(w: World, identity: string, id: nat, trip: Trip, inactive: bool)
    requires WorldInv(w, identity)
    ensures WorldInv(AttendStep(w, identity, id, trip, inactive), identity)
  {
    var t := AttendStep(w, identity, id, trip, inactive);
    var tries := Tries(w.post, id, trip.expired, trip.stubMade, inactive);
    var v := if tries && id in w.peers
             then Visit(trip.expired, trip.stubMade,
                        Arrival(w, identity, id, trip).ok && trip.arrives >= |w.post.neighbors[id].pending| && trip.answered)
             else Visit(trip.expired, trip.stubMade, false);
    assert t.post == Deliver(w.post, id, v, inactive);
    DeliverKeepsInv(w.post, id, v, inactive);
    forall other | other in t.peers ensures Holds(t.post, identity, other, t.peers[other]) {
      assert Holds(w.post, identity, other, w.peers[other]);
      if other == id && tries {
        ArrivalHolds(w, identity, id, trip, inactive);
      } else {
        UnvisitedHolds(w, identity, id, v, inactive, other);
      }
    }
    forall other | other !in t.peers ensures AcknowledgedBy(t.post.attempts, other) == [] {
      DeliverAcknowledges(w.post, id, v, inactive, other);
      assert AcknowledgedBy(w.post.attempts, other) == [];
    }
  }

  lemma UnvisitedHolds(w: World, identity: string, id: nat, v: Visit, inactive: bool, other: nat)
    requires other in w.peers && Holds(w.post, identity, other, w.peers[other])
    requires other != id || !Tries(w.post, id, v.expired, v.stubMade, inactive)
    ensures Holds(Deliver(w.post, id, v, inactive), identity, other, w.peers[other])
  {
    DeliverAcknowledges(w.post, id, v, inactive, other);
    assert AcknowledgedBy(w.post.attempts, other) + [] == AcknowledgedBy(w.post.attempts, other);
  }

  lemma PeerKeepsWorld(w: World, identity: string, id: nat, later: Node)
    requires WorldInv(w, identity) && id in w.peers && Follows(identity, w.peers[id], later)
    ensures WorldInv(w.(peers := w.peers[id := later]), identity)
  {
    var t := w.(peers := w.peers[id := later]);
    forall other | other in t.peers ensures Holds(t.post, identity, other, t.peers[other]) {
      assert Holds(w.post, identity, other, w.peers[other]);
      if other == id {
        HeardLater(w.peers[id], later, identity);
        EmbeddedLater(AcknowledgedBy(w.post.attempts, id), HeardFrom(w.peers[id], identity), HeardFrom(later, identity));
      }
    }
  }

  lemma NextKeepsWorld(w: World, identity: string, e: Event)
    requires WorldInv(w, identity)
    ensures WorldInv(Next(w, identity, e), identity)
  {
    match e
    case AcceptText(id, text, stubMade) =>
      EnqueueKeepsInv(w.post, id, text, stubMade);
      assert forall other :: other in w.peers ==> Holds(w.post, identity, other, w.peers[other]);
    case Visiting(id, trip, inactive) => VisitKeepsWorld(w, identity, id, trip, inactive);
    case PeerActs(id, later) =>
      if id in w.peers && Follows(identity, w.peers[id], later) { PeerKeepsWorld(w, identity, id, later); }
  }

  /** The peers at the beginning: in good order, and none of them takes this engine for itself. */
  ghost predicate Strangers(peers: map<nat, Node>, identity: string)
  {
    forall id {:trigger peers[id]} :: id in peers ==> C.Bounded(peers[id].contacts) && Foreign(peers[id], identity)
  }

  lemma {:induction false} PlayKeepsWorld(peers: map<nat, Node>, identity: string, events: seq<Event>)
    requires Strangers(peers, identity)
    ensures WorldInv(Play(peers, identity, events), identity) && Play(peers, identity, events).peers.Keys == peers.Keys
  {
    if events == [] {
      forall id | id in peers ensures Holds(EMPTY, identity, id, peers[id]) {
        assert Embeds([], HeardFrom(peers[id], identity), []);
      }
    } else {
      PlayKeepsWorld(peers, identity, events[..|events| - 1]);
      NextKeepsWorld(Play(peers, identity, events[..|events| - 1]), identity, events[|events| - 1]);
    }
  }

  /**
   At least once, in order, end to end: over any run, any losses of texts and of answers, and any
   behaviour of the peers, the acknowledged texts are found, in order, among the texts received in
   the peer's conversation with this engine; and nothing accepted is lost.
   */
  lemma DeliveredAtLeastOnce(peers: map<nat, Node>, identity: string, events: seq<Event>, id: nat) returns (at: seq<nat>)
    requires Strangers(peers, identity)
    ensures var w := Play(peers, identity, events);
            && AcknowledgedBy(w.post.attempts, id) + PendingFor(w.post, id) == HandedTo(w.post.handed, id)
            && (id in peers <==> id in w.peers)
            && (id in peers ==> Embeds(AcknowledgedBy(w.post.attempts, id), HeardFrom(w.peers[id], identity), at))
            && (id !in peers ==> AcknowledgedBy(w.post.attempts, id) == [])
  {
    PlayKeepsWorld(peers, identity, events);
    var w := Play(peers, identity, events);
    assert Conserved(w.post);
    at := [];
    if id in w.peers {
      assert Holds(w.post, identity, id, w.peers[id]);
      at :| Embeds(AcknowledgedBy(w.post.attempts, id), HeardFrom(w.peers[id], identity), at);
    }
  }

  // ------------------------------------------------------------------ sending

  datatype Dispatched = Dispatched(node: Node, ok: bool)

  /** The two handlers after `handleSend`, wherever it gives up. */
  function Dispatch(n: Node, text: string, now: M.Timestamp): Dispatched
    requires C.Bounded(n.contacts)
  {
    var id := n.contacts.current;
    if id.None? || n.chat.current != id then Dispatched(n, false)
    else
      var c := C.Update(n.contacts, Sent(id.value));
      if !c.ok then Dispatched(n.(contacts := c.model), false)
      else
        var h := H.Send(n.chat, id.value, text, now);
        Dispatched(n.(contacts := c.model, chat := h.model), h.ok)
  }

  /**
   Exactly when `handleSend` succeeds: both handlers have the same contact current, it is selected, its
   conversation exists, and nothing is stopped before the text is queued. A mismatch changes nothing.
   */
  lemma DispatchExactly(n: Node, text: string, now: M.Timestamp)
    requires C.Bounded(n.contacts)
    ensures var id, d := n.contacts.current, Dispatch(n, text, now);
            && (id.None? || n.chat.current != id ==> !d.ok && d.node == n)
            && (d.ok <==>
                  && id.Some? && n.chat.current == id && id.value < |n.chat.messages| && n.chat.life >= 2
                  && IsSelected(n.contacts.contacts[id.value].state)
                  && (n.contacts.contacts[id.value].state == SELECTED_INACTIVE ==> n.contacts.life > 0))
            && (d.ok ==> d.node.chat.messages ==
                         n.chat.messages[id.value := n.chat.messages[id.value] + [M.Entry(M.SENDER, now, text)]])
  {
    if n.contacts.current.Some? {
      AcceptedExactly(n.contacts.contacts[n.contacts.current.value].state, n.contacts.current.value);
    }
  }

  /** The current contact is not the host itself. */
  predicate Outgoing(n: Node)
    requires C.Bounded(n.contacts)
  {
    n.contacts.current.Some? && n.contacts.contacts[n.contacts.current.value].ipAddressAndPort != n.host
  }

  // -------------------------------------------------------------------- class

  class Broadcaster {
    const mContactsHandler: C.ContactsHandler
    const mChatHandler: H.ChatHandler
    const mHostAddress: string
    var mNeighbors: map<nat, Neighbor>
    var life: nat
    ghost var handed: seq<Handed>
    ghost var attempts: seq<Attempt>

    ghost function State(): Post
      reads this
    {
      Post(mNeighbors, handed, attempts)
    }

    constructor (contacts: C.ContactsHandler, chat: H.ChatHandler, host: string, life: nat)
      ensures State() == EMPTY && this.life == life
      ensures mContactsHandler == contacts && mChatHandler == chat && mHostAddress == host
    {
      mContactsHandler, mChatHandler, mHostAddress := contacts, chat, host;
      mNeighbors, handed, attempts := map[], [], [];
      this.life := life;
    }

    ghost function Self(): Node
      reads this, mContactsHandler, mChatHandler
    {
      Node(mContactsHandler.State(), mChatHandler.State(), mHostAddress)
    }

    /**
     `handleSend`: both currents must agree and both handlers must accept; the text is then
     stored, and queued for the neighbour unless it is the host itself.
     */
    method HandleSend(message: string, now: M.Timestamp, stubMade: bool) returns (ok: bool)
      requires C.Bounded(mContactsHandler.State())
      modifies this, mContactsHandler, mChatHandler
      ensures Dispatched(Self(), ok) == Dispatch(old(Self()), message, now)
      ensures State() == (if ok && Outgoing(old(Self()))
                          then Enqueue(old(State()), old(Self()).contacts.current.value, message, stubMade) else old(State()))
      ensures life == if ok then old(life) else 0
    {
      var contactsCurrent := mContactsHandler.Current();
      if contactsCurrent == None { life := 0; return false; }
      var chatCurrent := mChatHandler.Current();
      if chatCurrent == None { life := 0; return false; }
      if chatCurrent != contactsCurrent { life := 0; return false; }
      var id := contactsCurrent.value;
      ok := mContactsHandler.SendMessage(id);
      if !ok { life := 0; return false; }
      ok := mChatHandler.SendMessage(id, message, now);
      if !ok { life := 0; return false; }
      var entry := mContactsHandler.Get(id);
      // The source's last error arm: the current contact always exists.
      if entry == None { assert false; }
      if entry.value.ipAddressAndPort == mHostAddress { return true; }
      if id in mNeighbors {
        mNeighbors := mNeighbors[id := mNeighbors[id].(pending := mNeighbors[id].pending + [message])];
      } else {
        var neighbor := Neighbor(stubMade, []);
        mNeighbors := mNeighbors[id := neighbor.(pending := [message])];
        assert [] + [message] == [message];
      }
      handed := handed + [Handed(id, message)];
      return true;
    }

    /** One neighbour of the loop of `run`. */
    method Serve(id: nat, v: Visit) returns (ghost inactive: bool)
      requires id in mNeighbors && id < |mContactsHandler.mContacts|
      modifies this
      ensures inactive == !IsActive(mContactsHandler.mContacts[id].state)
      ensures var neighbor := old(mNeighbors[id]);
              var turn := v.expired && !inactive;
              var sends := turn && (neighbor.stub || v.stubMade) && neighbor.pending != [];
              var request := if |neighbor.pending| == 1 then Tell(neighbor.pending[0]) else Narrate(neighbor.pending);
              && attempts == old(attempts) + (if sends then [Attempt(id, |handed|, request, v.acknowledged)] else [])
              && mNeighbors == old(mNeighbors)[id := Neighbor(neighbor.stub || (turn && v.stubMade),
                                                              if sends && v.acknowledged then [] else neighbor.pending)]
              && handed == old(handed)
      ensures State() == Deliver(old(State()), id, v, inactive) && life == old(life)
    {
      inactive := !IsActive(mContactsHandler.mContacts[id].state);
      if !v.expired { return; }
      var entry := mContactsHandler.Get(id);
      if !IsActive(entry.value.state) { return; }
      var neighbor := mNeighbors[id];
      if !neighbor.stub { neighbor := neighbor.(stub := v.stubMade); }
      mNeighbors := mNeighbors[id := neighbor];
      if !neighbor.stub { return; }
      if |neighbor.pending| > 1 {
        attempts := attempts + [Attempt(id, |handed|, Narrate(neighbor.pending), v.acknowledged)];
        if v.acknowledged { mNeighbors := mNeighbors[id := neighbor.(pending := [])]; }
      } else if neighbor.pending != [] {
        attempts := attempts + [Attempt(id, |handed|, Tell(neighbor.pending[|neighbor.pending| - 1]), v.acknowledged)];
        if v.acknowledged { mNeighbors := mNeighbors[id := neighbor.(pending := [])]; }
      }
    }

    method IsStopped() returns (stopped: bool)
      modifies this`life
      ensures stopped == (old(life) == 0)
      ensures life == if stopped then 0 else old(life) - 1
    {
      stopped := life == 0;
      if !stopped { life := life - 1; }
    }

    /** Other threads at work on the contacts. */
    method Others(ops: seq<C.Operation>)
      requires C.Bounded(mContactsHandler.State()) && forall k :: 0 <= k < |ops| ==> C.Legal(ops[k])
      modifies mContactsHandler
      ensures mContactsHandler.State() == Meanwhile(old(mContactsHandler.State()), ops)
      ensures C.Bounded(mContactsHandler.State())
      ensures |mContactsHandler.mContacts| >= old(|mContactsHandler.mContacts|)
    {
      assert ops[0..] == ops;
      for k := 0 to |ops|
        invariant C.Bounded(mContactsHandler.State()) && |mContactsHandler.mContacts| >= old(|mContactsHandler.mContacts|)
        invariant Meanwhile(mContactsHandler.State(), ops[k..]) == Meanwhile(old(mContactsHandler.State()), ops)
      {
        assert ops[k..][1..] == ops[k + 1..];
        StepStaysBounded(mContactsHandler.State(), ops[k]);
        Other(ops[k]);
      }
    }

    method Other(op: C.Operation)
      requires C.Bounded(mContactsHandler.State()) && C.Legal(op)
      modifies mContactsHandler
      ensures mContactsHandler.State() == C.Step(old(mContactsHandler.State()), op)
    {
      match op
      case DoCreate(nickname, identity, address) => var _ := mContactsHandler.CreateContact(nickname, identity, address);
      case DoUpdate(Sent(id)) => var _ := mContactsHandler.SendMessage(id);
      case DoUpdate(Received(id)) => var _ := mContactsHandler.ReceiveMessage(id);
      case DoUpdate(Activated(id)) => var _ := mContactsHandler.Activate(id);
      case DoUpdate(Deactivated(id)) => var _ := mContactsHandler.Deactivate(id);
      case DoUpdate(_) => assert false;
      case DoSelect(id) => var _ := mContactsHandler.SelectContact(id);
      case DoHeartbeat => var _ := mContactsHandler.HeartbeatRound();
      case DoDrain => mContactsHandler.mQueuedMessages := [];
      case DoStop => mContactsHandler.Stop();
    }

    /** One turn of the loop: a neighbour is served unless the stop has landed. */
    method Turn(id: nat, v: Visit) returns (over: bool)
      requires id in mNeighbors ==> id < |mContactsHandler.mContacts|
      modifies this
      ensures over <==> id in old(mNeighbors) && old(life) == 0
      ensures over ==> State() == old(State()) && life == 0
      ensures !over ==> State() == Deliver(old(State()), id, v, IsInactive(mContactsHandler.State(), id))
      ensures !over ==> mNeighbors.Keys == old(mNeighbors.Keys) && life == old(life) - if id in mNeighbors then 1 else 0
    {
      if id !in mNeighbors { return false; }
      over := IsStopped();
      if over { return; }
      ghost var inactive := Serve(id, v);
    }

    /** Where a pass stands before the turn of `id`. */
    ghost predicate InPass(pass: Course, id: nat)
      reads this, mContactsHandler
    {
      && State() == DeliverAll(pass, id)
      && mNeighbors.Keys == pass.start.neighbors.Keys
      && Rank(pass.start.neighbors, id) <= pass.life && life == pass.life - Rank(pass.start.neighbors, id)
      && mContactsHandler.State() == ContactsAt(pass.contacts, pass.others, id)
    }

    ghost predicate InOrder(limit: nat)
      reads this, mContactsHandler
    {
      && C.Bounded(mContactsHandler.State()) && |mContactsHandler.mContacts| >= limit
      && forall id :: id in mNeighbors ==> id < limit
    }

    /** A turn, and what other threads do until the next one. */
    method Round(id: nat, visits: nat -> Visit, others: nat -> seq<C.Operation>, limit: nat, ghost pass: Course) returns (over: bool)
      requires InOrder(limit) && id < limit && AllLegal(others)
      requires pass.visits == visits && pass.others == others && InPass(pass, id)
      modifies this, mContactsHandler
      ensures InOrder(limit)
      ensures over ==> life == 0 && State() == DeliverAll(pass, id)
      ensures over ==> Rank(pass.start.neighbors, id) == pass.life
      ensures !over ==> InPass(pass, id + 1)
    {
      over := Turn(id, visits(id));
      if !over { Others(others(id)); }
    }

    /**
     One pass of the loop of `run`: every neighbour in ascending order gets its delivery, up to the
     moment at which the stop lands. Other threads go on working on the contacts between two turns.
     */
    method Pass(visits: nat -> Visit, others: nat -> seq<C.Operation>)
      requires InOrder(|mContactsHandler.mContacts|) && AllLegal(others)
      modifies this, mContactsHandler
      ensures var limit := |old(mContactsHandler.mContacts)|;
              && InOrder(limit)
              && State() == DeliverAll(Course(old(State()), visits, old(mContactsHandler.State()), others, old(life)), limit)
              && life == Left(old(mNeighbors), old(life), limit)
    {
      var limit := |mContactsHandler.mContacts|;
      ghost var pass := Course(State(), visits, mContactsHandler.State(), others, life);
      for id := 0 to limit
        invariant InOrder(limit) && InPass(pass, id)
      {
        var over := Round(id, visits, others, limit, pass);
        if over {
          StopsHere(pass, id, limit);
          return;
        }
      }
    }

    /** `handleReceive` for a narrate request; a tell request is the one-message case. */
    method HandleReceive(identity: string, texts: seq<string>, now: M.Timestamp) returns (ok: bool)
      requires C.Bounded(mContactsHandler.State())
      modifies this`life, mContactsHandler, mChatHandler
      ensures var r := TakeIn(old(Self()), identity, texts, now);
              Self() == r.node && ok == r.ok && life == if r.stop then 0 else old(life)
    {
      var id := mContactsHandler.Find(identity);
      if id == None { return false; }
      var entry := mContactsHandler.Get(id.value);
      if entry == None { life := 0; return false; }
      if entry.value.ipAddressAndPort == mHostAddress { return true; }
      ok := mContactsHandler.ReceiveMessage(id.value);
      if !ok { life := 0; return false; }
      ghost var h := mChatHandler.State();
      assert texts[0..] == texts;
      for i := 0 to |texts|
        invariant ReceiveAll(mChatHandler.State(), id.value, texts[i..], now) == ReceiveAll(h, id.value, texts, now)
        invariant life == old(life)
        invariant mContactsHandler.State() == C.Update(old(mContactsHandler.State()), Received(id.value)).model
      {
        assert texts[i..][1..] == texts[i + 1..];
        ok := mChatHandler.ReceiveMessage(id.value, texts[i], now);
        if !ok { life := 0; return false; }
      }
      return true;
    }
  }
}
