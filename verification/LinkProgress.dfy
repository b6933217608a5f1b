/**
 Progress of the contacts pipeline: what is queued does get to the display when nothing fails and no
 stop lands.
 */
module LinkProgress {
  import opened Common
  import opened ContactsReplica
  import opened SharedMemory
  import opened L = ContactsLink
  import H = ContactsHandlers

  // ------------------------------------------------------------- one rendezvous

  /** `link` after its message has crossed and both sides are idle again. */
  function Crossed(l: Link): Link
  {
    l.(buffer := l.outgoing, incoming := l.outgoing, sender := SIdle, receiver := RIdle,
       posted := l.posted + [l.outgoing], confirmed := l.confirmed + 1, received := l.received + [l.outgoing])
  }

  lemma {:induction false} CopiedOut(l: Link) returns (actions: seq<Action>)
    requires l.sender.SCopying? && l.sender.at <= l.size && l.buffer[..l.sender.at] == l.outgoing[..l.sender.at]
    ensures forall i :: 0 <= i < |actions| ==> actions[i] == SendCell
    ensures Play(l, actions) == l.(buffer := l.outgoing, sender := SCopying(l.size, l.sender.attempts))
    decreases l.size - l.sender.at
  {
    var at := l.sender.at;
    if at == l.size {
      actions := [];
      assert l.buffer == l.buffer[..l.size] && l.outgoing == l.outgoing[..l.size];
    } else {
      var n := Step(l, SendCell);
      assert n.buffer[..at + 1] == l.buffer[..at] + [l.outgoing[at]];
      assert l.outgoing[..at + 1] == l.outgoing[..at] + [l.outgoing[at]];
      var rest := CopiedOut(n);
      actions := [SendCell] + rest;
      assert actions[1..] == rest;
    }
  }

  lemma {:induction false} CopiedIn(l: Link) returns (actions: seq<Action>)
    requires l.receiver.RCopying? && l.receiver.at <= l.size && l.incoming[..l.receiver.at] == l.buffer[..l.receiver.at]
    ensures forall i :: 0 <= i < |actions| ==> actions[i] == ReceiveCell
    ensures Play(l, actions) == l.(incoming := l.buffer, receiver := RCopying(l.size))
    decreases l.size - l.receiver.at
  {
    var at := l.receiver.at;
    if at == l.size {
      actions := [];
      assert l.incoming == l.incoming[..l.size] && l.buffer == l.buffer[..l.size];
    } else {
      var n := Step(l, ReceiveCell);
      assert n.incoming[..at + 1] == l.incoming[..at] + [l.buffer[at]];
      assert l.buffer[..at + 1] == l.buffer[..at] + [l.buffer[at]];
      var rest := CopiedIn(n);
      actions := [ReceiveCell] + rest;
      assert actions[1..] == rest;
    }
  }

  /** Both sides up to the point at which the receiver begins. */
  function Announced(l: Link): Link
    requires l.sender.SCopying?
  {
    l.(buffer := l.outgoing, sender := SWaiting(l.sender.attempts), produced := l.produced + 1, posted := l.posted + [l.outgoing])
  }

  lemma Announces(l: Link) returns (actions: seq<Action>)
    requires Inv(l) && l.sender.SCopying?
    ensures Quiet(actions) && Play(l, actions) == Announced(l)
  {
    var cells := CopiedOut(l);
    PlayConcat(l, cells, [PostProduced(true)]);
    PlayOne(Play(l, cells), PostProduced(true));
    actions := cells + [PostProduced(true)];
  }

  /** Steps that begin no call. */
  ghost predicate Quiet(actions: seq<Action>)
  {
    forall i :: 0 <= i < |actions| ==> !actions[i].BeginSend? && !actions[i].BeginReceive?
  }

  /** The receiver takes the message over and confirms it, and the sender sees that. */
  lemma TakesOver(l: Link) returns (actions: seq<Action>)
    requires l.sender.SWaiting? && l.sender.attempts > 0 && l.receiver == RWaiting(1) && l.produced == 1 && l.consumed == 0
    ensures Quiet(actions)
    ensures Play(l, actions) == l.(produced := 0, incoming := l.buffer, receiver := RIdle, received := l.received + [l.buffer],
                                   confirmed := l.confirmed + 1, sender := SIdle)
  {
    var taken := Step(l, AwaitProduced(Acquired));
    assert taken.incoming[..0] == taken.buffer[..0];
    var cells := CopiedIn(taken);
    var ends := [PostConsumed(true), AwaitConsumed(Acquired)];
    var copied := Play(taken, cells);
    assert ends[1..] == [AwaitConsumed(Acquired)];
    PlayOne(Step(copied, PostConsumed(true)), AwaitConsumed(Acquired));
    PlayConcat(taken, cells, ends);
    actions := [AwaitProduced(Acquired)] + (cells + ends);
    assert actions[1..] == cells + ends;
  }

  // ------------------------------------------------------------------ the system

  /** The events one after the other; by `NextKeepsInv` each of them is defined where the invariant holds. */
  function RunFrom(s: System, events: seq<Event>): System
    decreases |events|
  {
    if events == [] || !Ready(s) then s else RunFrom(Next(s, events[0]), events[1..])
  }

  lemma {:induction false} RunKeeps(s: System, events: seq<Event>)
    requires SystemInv(s) && forall i :: 0 <= i < |events| ==> Allowed(events[i])
    ensures SystemInv(RunFrom(s, events))
    decreases |events|
  {
    if events != [] {
      NextIsDefined(s);
      NextKeepsInv(s, events[0]);
      RunKeeps(Next(s, events[0]), events[1..]);
    }
  }

  lemma {:induction false} RunFromConcat(s: System, a: seq<Event>, b: seq<Event>)
    requires SystemInv(s) && forall i :: 0 <= i < |a| ==> Allowed(a[i])
    ensures RunFrom(s, a + b) == RunFrom(RunFrom(s, a), b)
    decreases |a|
  {
    if a == [] {
      assert a + b == b;
    } else {
      NextIsDefined(s);
      NextKeepsInv(s, a[0]);
      assert (a + b)[1..] == a[1..] + b;
      RunFromConcat(Next(s, a[0]), a[1..], b);
    }
  }

  function Links(actions: seq<Action>): (events: seq<Event>)
    ensures |events| == |actions|
  {
    seq(|actions|, i requires 0 <= i < |actions| => L.Link(actions[i]))
  }

  lemma LinkRuns(s: System, a: Action)
    requires SystemInv(s) && !a.BeginSend? && !a.BeginReceive?
    ensures Ready(s) && Next(s, L.Link(a)) == s.(link := Step(s.link, a)) && SystemInv(Next(s, L.Link(a)))
  {
    NextIsDefined(s);
    NextKeepsInv(s, L.Link(a));
  }

  lemma {:induction false} LinksRun(s: System, actions: seq<Action>)
    requires SystemInv(s) && Quiet(actions)
    ensures RunFrom(s, Links(actions)) == s.(link := Play(s.link, actions))
    decreases |actions|
  {
    if actions != [] {
      LinkRuns(s, actions[0]);
      var events := Links(actions);
      assert events[0] == L.Link(actions[0]) && events[1..] == Links(actions[1..]);
      LinksRun(Next(s, events[0]), actions[1..]);
    }
  }

  // ---------------------------------------------------------------- one message

  /** Nothing is on its way, and neither process has given up. */
  ghost predicate Idle(s: System)
  {
    && SystemInv(s) && s.link.sender.SIdle? && s.link.receiver.RIdle?
    && !s.readerDone && !s.farewell && !s.mainDone && s.handled == |s.handed|
  }

  lemma IdleFacts(s: System)
    requires Idle(s)
    ensures |s.link.received| == |s.link.posted| == |s.handed| && s.link.produced == 0 && s.link.consumed == 0
    ensures Core(s.handed, false) + (s.inHand + s.handler.queue) == s.handler.emitted
  {
  }

  /** Steps of main loop, link and display. */
  ghost predicate AllAllowed(events: seq<Event>)
  {
    forall i :: 0 <= i < |events| ==> Allowed(events[i]) && !events[i].Operate?
  }

  /** The last message handed over is being copied out; all others have arrived. */
  ghost predicate Starting(s: System)
  {
    && SystemInv(s) && s.link.sender == SCopying(0, 5) && s.link.receiver.RIdle?
    && !s.readerDone && !s.mainDone && s.handled + 1 == |s.handed|
  }

  /** It is announced, or it has been received, and is not yet handled. */
  ghost predicate Underway(s: System, t: System, sender: Sender, received: nat)
  {
    && SystemInv(t) && t == s.(link := t.link)
    && t.link.sender == sender && t.link.receiver.RIdle? && |t.link.received| == received
  }

  lemma StartingFacts(s: System)
    requires Starting(s)
    ensures s.handled == |s.link.received| == |s.link.posted| && s.link.produced == 0 && s.link.consumed == 0
  {
  }

  /** The sender announces it. */
  lemma Posts(s: System) returns (events: seq<Event>)
    requires Starting(s)
    ensures AllAllowed(events) && Underway(s, RunFrom(s, events), SWaiting(5), s.handled)
  {
    StartingFacts(s);
    var actions := Announces(s.link);
    LinksRun(s, actions);
    events := Links(actions);
    RunKeeps(s, events);
  }

  lemma UnderwayFacts(s: System, t: System)
    requires Starting(s) && Underway(s, t, SWaiting(5), s.handled)
    ensures t.link.produced == 1 && t.link.consumed == 0
  {
  }

  lemma BeginsToReceive(t: System)
    requires SystemInv(t) && t.link.receiver.RIdle? && !t.readerDone && t.handled == |t.link.received|
    ensures var n := RunFrom(t, [L.Link(BeginReceive(1))]);
            SystemInv(n) && n == t.(link := t.link.(receiver := RWaiting(1)))
  {
    NextIs(t, L.Link(BeginReceive(1)));
  }

  /** The display receives it. */
  lemma Receives(s: System, t: System) returns (events: seq<Event>)
    requires Starting(s) && Underway(s, t, SWaiting(5), s.handled)
    ensures AllAllowed(events) && Underway(s, RunFrom(t, events), SIdle, s.handled + 1)
  {
    UnderwayFacts(s, t);
    BeginsToReceive(t);
    var begin := [L.Link(BeginReceive(1))];
    var n := RunFrom(t, begin);
    var actions := TakesOver(n.link);
    LinksRun(n, actions);
    RunFromConcat(t, begin, Links(actions));
    events := begin + Links(actions);
    RunKeeps(t, events);
  }

  /** The display handles it, and goes on unless it is the goodbye. */
  lemma Handles(s: System, t: System)
    requires Starting(s) && Underway(s, t, SIdle, s.handled + 1)
    ensures var u := RunFrom(t, [L.Handle]);
            SystemInv(u) && u == t.(entries := u.entries, handled := t.handled + 1, readerDone := t.handed[t.handled].Goodbye?)
  {
    NextIs(t, L.Handle);
    NextRecord(t);
    HandleStepIs(t, t.handed[t.handled]);
  }

  /** It arrives. */
  lemma Arrives(s: System) returns (events: seq<Event>)
    requires Starting(s)
    ensures AllAllowed(events)
    ensures var t := RunFrom(s, events);
            && SystemInv(t) && t.link.sender.SIdle? && t.link.receiver.RIdle?
            && t == s.(link := t.link, entries := t.entries, handled := s.handled + 1, readerDone := s.handed[s.handled].Goodbye?)
  {
    var first := Posts(s);
    var s1 := RunFrom(s, first);
    var second := Receives(s, s1);
    var s2 := RunFrom(s1, second);
    Handles(s, s2);
    ThreeLegs(s, first, second, [L.Handle]);
    events := first + second + [L.Handle];
  }

  /** What was handed over before the end is no goodbye. */
  lemma NoGoodbye(s: System)
    requires Starting(s) && !s.farewell
    ensures !s.handed[s.handled].Goodbye?
  {
    if s.handled > 0 { assert s.handed[s.handled] == Core(s.handed, false)[s.handled - 1] == s.handler.emitted[s.handled - 1]; }
  }

  /** The connecting heartbeat does, and with that the link is idle. */
  lemma Connects(life: nat) returns (events: seq<Event>)
    ensures AllAllowed(events) && Idle(RunFrom(L.Start(life), events)) && RunFrom(L.Start(life), events).handler == H.Initial(life)
  {
    L.StartInv(life);
    NoGoodbye(L.Start(life));
    events := Arrives(L.Start(life));
  }

  lemma NextIs(s: System, e: Event)
    requires SystemInv(s) && Allowed(e)
    ensures Ready(s) && RunFrom(s, [e]) == Next(s, e) && SystemInv(RunFrom(s, [e]))
  {
    NextIsDefined(s);
    NextKeepsInv(s, e);
    assert [e][1..] == [];
  }

  lemma HandsOver(s: System)
    requires Idle(s) && s.inHand != [] && s.handler.life > 0
    ensures var t := RunFrom(s, [SendNext(5)]);
            && Starting(t) && !t.farewell && t.inHand == s.inHand[1..] && t.handler == s.handler.(life := s.handler.life - 1)
  {
    NextIs(s, SendNext(5));
  }

  /** One message gets across. */
  lemma Crosses(s: System) returns (events: seq<Event>)
    requires Idle(s) && s.inHand != [] && s.handler.life > 0
    ensures AllAllowed(events)
    ensures var t := RunFrom(s, events);
            && Idle(t) && t.inHand == s.inHand[1..] && t.handler == s.handler.(life := s.handler.life - 1)
  {
    HandsOver(s);
    NoGoodbye(RunFrom(s, [SendNext(5)]));
    var rest := Arrives(RunFrom(s, [SendNext(5)]));
    RunFromConcat(s, [SendNext(5)], rest);
    events := [SendNext(5)] + rest;
  }

  /** The whole batch gets across. */
  lemma {:induction false} AllCross(s: System) returns (events: seq<Event>)
    requires Idle(s) && s.handler.life > |s.inHand|
    ensures AllAllowed(events)
    ensures var t := RunFrom(s, events);
            && Idle(t) && t.inHand == [] && t.handler == s.handler.(life := s.handler.life - |s.inHand|)
    decreases |s.inHand|
  {
    if s.inHand == [] {
      events := [];
    } else {
      var first := Crosses(s);
      var rest := AllCross(RunFrom(s, first));
      RunFromConcat(s, first, rest);
      events := first + rest;
    }
  }

  lemma Exits(s: System)
    requires Idle(s) && s.inHand == [] && s.handler.life == 0
    ensures var t := RunFrom(s, [Take(5)]);
            Starting(t) && t.farewell && t.handed == s.handed + [Goodbye] && t.entries == s.entries
  {
    NextIs(s, Take(5));
  }

  /** After a stop the goodbye gets across, and ends the display. */
  lemma SaysGoodbye(s: System) returns (events: seq<Event>)
    requires Idle(s) && s.inHand == [] && s.handler.life == 0
    ensures AllAllowed(events)
    ensures var t := RunFrom(s, events);
            t.farewell && t.readerDone && t.handed == s.handed + [Goodbye] && t.handled == |t.handed|
  {
    Exits(s);
    var rest := Arrives(RunFrom(s, [Take(5)]));
    RunFromConcat(s, [Take(5)], rest);
    events := [Take(5)] + rest;
  }

  lemma Takes(s: System)
    requires Idle(s) && s.inHand == [] && s.handler.life > 0
    ensures var t := RunFrom(s, [Take(5)]);
            && Idle(t) && t.inHand == s.handler.queue && t.handler == s.handler.(queue := [], life := s.handler.life - 1)
  {
    NextIs(s, Take(5));
  }

  /**
   From every state in which nothing is on its way, as long as no stop lands for as many reads as there are
   messages and no system call fails, the steps of main loop, link and display alone bring the present
   contacts onto the display.
   */
  lemma CanCatchUp(s: System) returns (events: seq<Event>)
    requires Idle(s) && s.handler.life > |s.inHand| + |s.handler.queue| + 1
    ensures AllAllowed(events)
    ensures var t := RunFrom(s, events);
            && t.entries == H.Projected(s.handler.contacts)
            && Idle(t) && t.inHand == [] && t.handler == s.handler.(queue := [], life := t.handler.life) && t.handler.life > 0
  {
    var first := AllCross(s);
    var s1 := RunFrom(s, first);
    Takes(s1);
    var second := AllCross(RunFrom(s1, [Take(5)]));
    ThreeLegs(s, first, [Take(5)], second);
    events := first + [Take(5)] + second;
    IsCurrent(RunFrom(s, events));
  }

  lemma ThreeLegs(s: System, a: seq<Event>, b: seq<Event>, c: seq<Event>)
    requires SystemInv(s) && AllAllowed(a) && AllAllowed(b)
    ensures RunFrom(s, a + b + c) == RunFrom(RunFrom(RunFrom(s, a), b), c)
  {
    RunFromConcat(s, a, b);
    RunFromConcat(s, a + b, c);
  }

  lemma IsCurrent(s: System)
    requires Idle(s) && s.inHand == [] && s.handler.queue == [] && s.handler.life > 0
    ensures s.entries == H.Projected(s.handler.contacts)
  {
    IdleFacts(s);
    assert L.Reached(s) == Passed(s) == |s.handler.emitted|;
  }
}
