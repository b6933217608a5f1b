/**
 `TTUtilsSharedMem` (utils/src/TTUtilsSharedMem.cpp:140-220): one shared buffer guarded by
 two semaphores, as a machine whose steps are single memory cells and single system calls
 of two processes, interleaved arbitrarily.
 */
module SharedMemory {

  type Cell = int
  type Block = seq<Cell>

  /**
   Outcome of one `sem_timedwait`, or the clock failing before it. A semaphore that is down
   cannot be acquired: such a wait is a miss whatever the system claims.
   */
  datatype Wait = Acquired | Missed | ClockFailed

  /** A copy is at cell `at`; when `at` has reached the size the post comes next. */
  datatype Sender = SIdle | SCopying(at: nat, attempts: nat) | SWaiting(attempts: nat) | SDead

  /** `holding`: died after taking a token it did not hand back. */
  datatype Receiver = RIdle | RWaiting(attempts: nat) | RCopying(at: nat) | RDead(holding: bool)

  datatype RawLink = RawLink(
    size: nat, buffer: Block, produced: nat, consumed: nat,
    sender: Sender, outgoing: Block, receiver: Receiver, incoming: Block,
    posted: seq<Block>, confirmed: nat, received: seq<Block>)

  predicate Sized(l: RawLink)
  {
    |l.buffer| == |l.outgoing| == |l.incoming| == l.size
  }

  type Link = l: RawLink | Sized(l) witness RawLink(0, [], 0, 0, SIdle, [], RIdle, [], [], 0, [])

  datatype Action =
    | BeginSend(message: Block, attempts: nat)
    | SendCell
    | PostProduced(success: bool)
    | AwaitConsumed(wait: Wait)
    | BeginReceive(attempts: nat)
    | AwaitProduced(wait: Wait)
    | ReceiveCell
    | PostConsumed(success: bool)

  predicate BySender(a: Action)
  {
    a.BeginSend? || a.SendCell? || a.PostProduced? || a.AwaitConsumed?
  }

  function Fresh(size: nat): (l: Link)
  {
    var zeros := seq(size, i => 0);
    RawLink(size, zeros, 0, 0, SIdle, zeros, RIdle, zeros, [], 0, [])
  }

  /** An action that is not possible leaves the state as it is. */
  function Step(l: Link, a: Action): Link
  {
    match a
    case BeginSend(message, attempts) =>
      if l.sender.SIdle? && |message| == l.size then l.(sender := SCopying(0, attempts), outgoing := message) else l
    case SendCell =>
      if l.sender.SCopying? && l.sender.at < l.size then
        l.(buffer := l.buffer[l.sender.at := l.outgoing[l.sender.at]], sender := SCopying(l.sender.at + 1, l.sender.attempts))
      else l
    case PostProduced(success) =>
      if l.sender.SCopying? && l.sender.at == l.size then
        if success then l.(produced := l.produced + 1, posted := l.posted + [l.outgoing], sender := SWaiting(l.sender.attempts))
        else l.(sender := SDead)
      else l
    case AwaitConsumed(wait) =>
      if !l.sender.SWaiting? then l
      else if l.sender.attempts == 0 || wait == ClockFailed then l.(sender := SDead)
      else if wait == Missed || l.consumed == 0 then l.(sender := SWaiting(l.sender.attempts - 1))
      else l.(consumed := l.consumed - 1, confirmed := l.confirmed + 1, sender := SIdle)
    case BeginReceive(attempts) =>
      if l.receiver.RIdle? then l.(receiver := RWaiting(attempts)) else l
    case AwaitProduced(wait) =>
      if !l.receiver.RWaiting? then l
      else if l.receiver.attempts == 0 || wait == ClockFailed then l.(receiver := RDead(false))
      else if wait == Missed || l.produced == 0 then l.(receiver := RWaiting(l.receiver.attempts - 1))
      else l.(produced := l.produced - 1, receiver := RCopying(0))
    case ReceiveCell =>
      if l.receiver.RCopying? && l.receiver.at < l.size then
        l.(incoming := l.incoming[l.receiver.at := l.buffer[l.receiver.at]], receiver := RCopying(l.receiver.at + 1))
      else l
    case PostConsumed(success) =>
      if l.receiver.RCopying? && l.receiver.at == l.size then
        if success then l.(consumed := l.consumed + 1, received := l.received + [l.incoming], receiver := RIdle)
        else l.(receiver := RDead(true))
      else l
  }

  // -------------------------------------------------------------- invariant

  /** The receiver has taken a token it has not handed back. */
  function Busy(r: Receiver): nat
  {
    if r.RCopying? || (r.RDead? && r.holding) then 1 else 0
  }

  /** Every posted message is exactly one token somewhere. */
  ghost predicate Tokens(l: Link)
  {
    && |l.posted| == |l.received| + l.produced + Busy(l.receiver)
    && |l.received| == l.confirmed + l.consumed
    && |l.posted| <= l.confirmed + 1
    && (l.sender.SIdle? || l.sender.SCopying? ==> |l.posted| == l.confirmed)
    && (l.sender.SWaiting? ==> |l.posted| == l.confirmed + 1)
  }

  /** What the buffer and the two private copies hold. */
  ghost predicate Contents(l: Link)
  {
    && l.received <= l.posted
    && (|l.posted| > |l.received| ==> l.buffer == l.posted[|l.posted| - 1])
    && (l.sender.SCopying? ==> l.sender.at <= |l.buffer| && l.buffer[..l.sender.at] == l.outgoing[..l.sender.at])
    && (l.receiver.RCopying? ==> l.receiver.at <= |l.buffer| && l.incoming[..l.receiver.at] == l.buffer[..l.receiver.at])
  }

  ghost predicate Inv(l: Link)
  {
    Tokens(l) && Contents(l)
  }

  lemma SenderStepKeepsInv(l: Link, a: Action)
    requires Inv(l) && BySender(a)
    ensures Inv(Step(l, a))
  {
    var n := Step(l, a);
    match a {
      case SendCell =>
        if n != l {
          var at := l.sender.at;
          assert n.buffer[..at + 1] == l.buffer[..at] + [l.outgoing[at]];
          assert l.outgoing[..at + 1] == l.outgoing[..at] + [l.outgoing[at]];
        }
      case PostProduced(success) =>
        if n != l && success {
          assert l.buffer[..l.size] == l.buffer && l.outgoing[..l.size] == l.outgoing;
        }
      case _ =>
    }
  }

  lemma ReceiverStepKeepsInv(l: Link, a: Action)
    requires Inv(l) && !BySender(a)
    ensures Inv(Step(l, a))
  {
    var n := Step(l, a);
    match a {
      case ReceiveCell =>
        if n != l {
          var at := l.receiver.at;
          assert n.incoming[..at + 1] == l.incoming[..at] + [l.buffer[at]];
          assert l.buffer[..at + 1] == l.buffer[..at] + [l.buffer[at]];
        }
      case PostConsumed(success) =>
        if n != l && success {
          assert l.buffer[..l.size] == l.buffer && l.incoming[..l.size] == l.incoming;
          assert l.incoming == l.posted[|l.received|];
        }
      case _ =>
    }
  }

  lemma StepKeepsInv(l: Link, a: Action)
    requires Inv(l)
    ensures Inv(Step(l, a))
  {
    if BySender(a) { SenderStepKeepsInv(l, a); } else { ReceiverStepKeepsInv(l, a); }
  }

  /** Any sequence of actions of both processes, in any interleaving. */
  function Play(l: Link, actions: seq<Action>): Link
    decreases |actions|
  {
    if actions == [] then l else Play(Step(l, actions[0]), actions[1..])
  }

  lemma {:induction false} PlayKeepsInv(l: Link, actions: seq<Action>)
    requires Inv(l)
    ensures Inv(Play(l, actions)) && Play(l, actions).size == l.size
    decreases |actions|
  {
    if actions != [] {
      StepKeepsInv(l, actions[0]);
      PlayKeepsInv(Step(l, actions[0]), actions[1..]);
    }
  }

  lemma {:induction false} PlayConcat(l: Link, a: seq<Action>, b: seq<Action>)
    ensures Play(l, a + b) == Play(Play(l, a), b)
    decreases |a|
  {
    if a == [] {
      assert a + b == b;
    } else {
      assert (a + b)[1..] == a[1..] + b;
      PlayConcat(Step(l, a[0]), a[1..], b);
    }
  }

  lemma PlayOne(l: Link, a: Action)
    ensures Play(l, [a]) == Step(l, a)
  {
    assert [a][1..] == [];
  }

  // --------------------------------------------------------------- theorems

  /**
   The rendezvous: at every moment of every interleaving the counts are within one of each
   other, what was received is a prefix of what was posted, and the copies never overlap.
   */
  lemma Rendezvous(size: nat, actions: seq<Action>)
    ensures var l := Play(Fresh(size), actions);
            && l.confirmed <= |l.received| <= |l.posted| <= l.confirmed + 1
            && l.received <= l.posted
            && !(l.sender.SCopying? && l.receiver.RCopying?)
            && l.produced + l.consumed <= 1
  {
    PlayKeepsInv(Fresh(size), actions);
  }

  lemma DeadStep(l: Link, a: Action)
    ensures l.sender.SDead? ==>
              var n := Step(l, a);
              n.sender.SDead? && n.buffer == l.buffer && n.posted == l.posted && n.confirmed == l.confirmed
    ensures l.receiver.RDead? ==>
              var n := Step(l, a);
              n.receiver == l.receiver && n.incoming == l.incoming && n.received == l.received
  {
  }

  /** A side that has failed never acts again, so it never touches the buffer again. */
  lemma {:induction false} DeadStaysDead(l: Link, actions: seq<Action>)
    ensures l.sender.SDead? ==>
              var n := Play(l, actions);
              n.sender.SDead? && n.buffer == l.buffer && n.posted == l.posted && n.confirmed == l.confirmed
    ensures l.receiver.RDead? ==>
              var n := Play(l, actions);
              n.receiver == l.receiver && n.incoming == l.incoming && n.received == l.received
    decreases |actions|
  {
    if actions != [] {
      DeadStep(l, actions[0]);
      DeadStaysDead(Step(l, actions[0]), actions[1..]);
    }
  }

  ghost predicate OnlyReceiver(actions: seq<Action>)
  {
    forall i :: 0 <= i < |actions| ==> !BySender(actions[i])
  }

  ghost predicate OnlySender(actions: seq<Action>)
  {
    forall i :: 0 <= i < |actions| ==> BySender(actions[i])
  }

  /** The parts of the state that belong to the sending side. */
  ghost predicate SameSender(l: Link, n: Link)
  {
    && n.sender == l.sender && n.outgoing == l.outgoing && n.buffer == l.buffer
    && n.posted == l.posted && n.confirmed == l.confirmed && n.size == l.size
  }

  ghost predicate SameReceiver(l: Link, n: Link)
  {
    n.receiver == l.receiver && n.incoming == l.incoming && n.received == l.received && n.size == l.size
  }

  /** Whatever one process does, it leaves the other process's side alone. */
  lemma {:induction false} SidesAreSeparate(l: Link, actions: seq<Action>)
    ensures OnlyReceiver(actions) ==> SameSender(l, Play(l, actions))
    ensures OnlySender(actions) ==> SameReceiver(l, Play(l, actions))
    decreases |actions|
  {
    if actions != [] {
      assert OnlyReceiver(actions) ==> SameSender(l, Step(l, actions[0])) && OnlyReceiver(actions[1..]);
      assert OnlySender(actions) ==> SameReceiver(l, Step(l, actions[0])) && OnlySender(actions[1..]);
      SidesAreSeparate(Step(l, actions[0]), actions[1..]);
    }
  }

  // ------------------------------------------------------------------- calls

  /**
   What happens around one step of a call: what the other process makes of the link before it, and the
   system's answers.
   */
  datatype Turn = Turn(peer: Link -> Link, wait: Wait, success: bool)

  /** `n` is where steps of the other process alone can lead from `l`. */
  ghost predicate ReceiverMoves(l: Link, n: Link)
  {
    exists actions {:trigger Play(l, actions)} :: OnlyReceiver(actions) && n == Play(l, actions)
  }

  ghost predicate SenderMoves(l: Link, n: Link)
  {
    exists actions {:trigger Play(l, actions)} :: OnlySender(actions) && n == Play(l, actions)
  }

  /** In a script of `send` the other process is the receiver, whatever it does. */
  ghost predicate WithReceiver(script: nat -> Turn)
  {
    forall k, l {:trigger ReceiverMoves(l, script(k).peer(l))} :: ReceiverMoves(l, script(k).peer(l))
  }

  ghost predicate WithSender(script: nat -> Turn)
  {
    forall k, l {:trigger SenderMoves(l, script(k).peer(l))} :: SenderMoves(l, script(k).peer(l))
  }

  lemma ReceiverKeeps(l: Link, script: nat -> Turn, k: nat)
    requires WithReceiver(script) && Inv(l)
    ensures var n := script(k).peer(l); Inv(n) && SameSender(l, n)
  {
    assert ReceiverMoves(l, script(k).peer(l));
    var actions :| OnlyReceiver(actions) && script(k).peer(l) == Play(l, actions);
    PlayKeepsInv(l, actions);
    SidesAreSeparate(l, actions);
  }

  lemma SenderKeeps(l: Link, script: nat -> Turn, k: nat)
    requires WithSender(script) && Inv(l)
    ensures var n := script(k).peer(l); Inv(n) && SameReceiver(l, n)
  {
    assert SenderMoves(l, script(k).peer(l));
    var actions :| OnlySender(actions) && script(k).peer(l) == Play(l, actions);
    PlayKeepsInv(l, actions);
    SidesAreSeparate(l, actions);
  }

  /** One step of a call: the other process first. */
  function Turned(l: Link, t: Turn, a: Action): Link
  {
    Step(t.peer(l), a)
  }

  lemma SendTurnKeeps(l: Link, script: nat -> Turn, k: nat, a: Action)
    requires Inv(l) && BySender(a) && WithReceiver(script)
    ensures SameSender(l, script(k).peer(l)) && Inv(script(k).peer(l))
    ensures Inv(Turned(l, script(k), a)) && Turned(l, script(k), a).size == l.size
  {
    ReceiverKeeps(l, script, k);
    SenderStepKeepsInv(script(k).peer(l), a);
  }

  lemma ReceiveTurnKeeps(l: Link, script: nat -> Turn, k: nat, a: Action)
    requires Inv(l) && !BySender(a) && WithSender(script)
    ensures SameReceiver(l, script(k).peer(l)) && Inv(script(k).peer(l))
    ensures Inv(Turned(l, script(k), a)) && Turned(l, script(k), a).size == l.size
  {
    SenderKeeps(l, script, k);
    ReceiverStepKeepsInv(script(k).peer(l), a);
  }

  /** `send` after copying the first `cells` cells. */
  function CopyingOut(l: Link, message: Block, attempts: nat, script: nat -> Turn, cells: nat): Link
  {
    if cells == 0 then Turned(l, script(0), BeginSend(message, attempts))
    else Turned(CopyingOut(l, message, attempts, script, cells - 1), script(cells), SendCell)
  }

  /** `send` after its post. */
  function Posting(l: Link, message: Block, attempts: nat, script: nat -> Turn): Link
  {
    Turned(CopyingOut(l, message, attempts, script, l.size), script(l.size + 1), PostProduced(script(l.size + 1).success))
  }

  /** `send` after `waits` more waits. */
  function Waiting(l: Link, script: nat -> Turn, from: nat, waits: nat): Link
    decreases waits
  {
    if waits == 0 then l else Waiting(Turned(l, script(from), AwaitConsumed(script(from).wait)), script, from + 1, waits - 1)
  }

  /** The retry loop of `send`. */
  function Confirming(l: Link, attempts: nat, script: nat -> Turn, from: nat): Link
    decreases attempts
  {
    if attempts == 0 then Step(l, AwaitConsumed(Missed))
    else
      var n := Turned(l, script(from), AwaitConsumed(script(from).wait));
      if n.sender.SWaiting? then Confirming(n, attempts - 1, script, from + 1) else n
  }

  /** All of `send`. */
  function Sending(l: Link, message: Block, attempts: nat, script: nat -> Turn): Link
  {
    var posting := Posting(l, message, attempts, script);
    if script(l.size + 1).success then Confirming(posting, attempts, script, l.size + 2) else posting
  }

  /** `receive` after `waits` more waits. */
  function Expecting(l: Link, script: nat -> Turn, from: nat, waits: nat): Link
    decreases waits
  {
    if waits == 0 then l else Expecting(Turned(l, script(from), AwaitProduced(script(from).wait)), script, from + 1, waits - 1)
  }

  /** The retry loop of `receive`. */
  function Fetching(l: Link, attempts: nat, script: nat -> Turn, from: nat): Link
    decreases attempts
  {
    if attempts == 0 then Step(l, AwaitProduced(Missed))
    else
      var n := Turned(l, script(from), AwaitProduced(script(from).wait));
      if n.receiver.RWaiting? then Fetching(n, attempts - 1, script, from + 1) else n
  }

  /** `receive` after copying the first `cells` cells. */
  function CopyingIn(l: Link, script: nat -> Turn, from: nat, cells: nat): Link
  {
    if cells == 0 then l else Turned(CopyingIn(l, script, from, cells - 1), script(from + cells - 1), ReceiveCell)
  }

  /** The copy of `receive` and its post. */
  function Returning(l: Link, script: nat -> Turn, from: nat, size: nat): Link
  {
    Turned(CopyingIn(l, script, from, size), script(from + size), PostConsumed(script(from + size).success))
  }

  function Begun(l: Link, attempts: nat, script: nat -> Turn): Link
  {
    Turned(l, script(0), BeginReceive(attempts))
  }

  /** A side that has given up copies nothing. */
  function HandedBack(l: Link, script: nat -> Turn, from: nat, size: nat): Link
  {
    if l.receiver.RCopying? then Returning(l, script, from, size) else l
  }

  /** `receive` up to its copy. */
  function Fetched(l: Link, attempts: nat, script: nat -> Turn): Link
  {
    Fetching(Begun(l, attempts, script), attempts, script, 1)
  }

  /** All of `receive`. */
  function Receiving(l: Link, attempts: nat, script: nat -> Turn): Link
  {
    HandedBack(Fetched(l, attempts, script), script, attempts + 1, l.size)
  }

  /**
   The wait of turn `t` is answered: the other process has put the semaphore up by then, the system
   says so, and no clock has failed before.
   */
  ghost predicate ConfirmedAt(l: Link, script: nat -> Turn, from: nat, t: nat)
    requires from <= t
  {
    && script(t).wait == Acquired && script(t).peer(Waiting(l, script, from, t - from)).consumed > 0
    && forall i {:trigger script(i)} :: from <= i < t ==> script(i).wait != ClockFailed
  }

  ghost predicate ProducedAt(l: Link, script: nat -> Turn, from: nat, t: nat)
    requires from <= t
  {
    && script(t).wait == Acquired && script(t).peer(Expecting(l, script, from, t - from)).produced > 0
    && forall i {:trigger script(i)} :: from <= i < t ==> script(i).wait != ClockFailed
  }

  ghost predicate IsConfirmed(l: Link, attempts: nat, script: nat -> Turn, from: nat)
  {
    exists t {:trigger ConfirmedAt(l, script, from, t)} :: from <= t < from + attempts && ConfirmedAt(l, script, from, t)
  }

  ghost predicate IsProduced(l: Link, attempts: nat, script: nat -> Turn, from: nat)
  {
    exists t {:trigger ProducedAt(l, script, from, t)} :: from <= t < from + attempts && ProducedAt(l, script, from, t)
  }

  /** One wait of `send`. */
  lemma WaitOnce(l: Link, script: nat -> Turn, from: nat)
    requires Inv(l) && l.sender.SWaiting? && l.sender.attempts > 0 && WithReceiver(script)
    ensures var n := Turned(l, script(from), AwaitConsumed(script(from).wait));
            && Inv(n) && n.size == l.size && n.posted == l.posted && n.confirmed == l.confirmed + (if n.sender.SIdle? then 1 else 0)
            && (n.sender.SIdle? || n.sender.SDead? || n.sender == SWaiting(l.sender.attempts - 1))
            && (n.sender.SIdle? <==> script(from).wait == Acquired && script(from).peer(l).consumed > 0)
            && (n.sender.SWaiting? ==> script(from).wait != ClockFailed)
            && (!n.sender.SIdle? && !n.sender.SWaiting? ==> script(from).wait == ClockFailed)
  {
    SendTurnKeeps(l, script, from, AwaitConsumed(script(from).wait));
  }

  /** A first wait that misses leaves the question to the waits that follow. */
  lemma ConfirmedLater(l: Link, attempts: nat, script: nat -> Turn, from: nat)
    requires attempts > 0 && script(from).wait != ClockFailed && !ConfirmedAt(l, script, from, from)
    ensures var n := Turned(l, script(from), AwaitConsumed(script(from).wait));
            IsConfirmed(l, attempts, script, from) <==> IsConfirmed(n, attempts - 1, script, from + 1)
  {
    var n := Turned(l, script(from), AwaitConsumed(script(from).wait));
    if IsConfirmed(l, attempts, script, from) {
      var t :| from <= t < from + attempts && ConfirmedAt(l, script, from, t);
      assert ConfirmedAt(n, script, from + 1, t);
    }
    if IsConfirmed(n, attempts - 1, script, from + 1) {
      var t :| from + 1 <= t < from + attempts && ConfirmedAt(n, script, from + 1, t);
      assert ConfirmedAt(l, script, from, t);
    }
  }

  lemma ConfirmedFirst(l: Link, attempts: nat, script: nat -> Turn, from: nat)
    requires attempts > 0
    ensures ConfirmedAt(l, script, from, from) <==> script(from).wait == Acquired && script(from).peer(l).consumed > 0
    ensures ConfirmedAt(l, script, from, from) ==> IsConfirmed(l, attempts, script, from)
    ensures script(from).wait == ClockFailed ==> !IsConfirmed(l, attempts, script, from)
  {
  }

  /** The retry loop of `send` succeeds exactly when one of its waits is answered. */
  lemma {:induction false} ConfirmedExactly(l: Link, attempts: nat, script: nat -> Turn, from: nat)
    requires Inv(l) && l.sender == SWaiting(attempts) && WithReceiver(script)
    ensures var n := Confirming(l, attempts, script, from);
            && Inv(n) && n.size == l.size && n.posted == l.posted && n.confirmed == l.confirmed + (if n.sender.SIdle? then 1 else 0)
            && (n.sender.SIdle? || n.sender.SDead?)
            && (n.sender.SIdle? <==> IsConfirmed(l, attempts, script, from))
    decreases attempts
  {
    if attempts == 0 {
      SenderStepKeepsInv(l, AwaitConsumed(Missed));
    } else {
      WaitOnce(l, script, from);
      ConfirmedFirst(l, attempts, script, from);
      var n := Turned(l, script(from), AwaitConsumed(script(from).wait));
      if n.sender.SWaiting? {
        ConfirmedLater(l, attempts, script, from);
        ConfirmedExactly(n, attempts - 1, script, from + 1);
      }
    }
  }

  /** One wait of `receive`. */
  lemma ExpectOnce(l: Link, script: nat -> Turn, from: nat)
    requires Inv(l) && l.receiver.RWaiting? && l.receiver.attempts > 0 && WithSender(script)
    ensures var n := Turned(l, script(from), AwaitProduced(script(from).wait));
            && Inv(n) && n.size == l.size && n.received == l.received
            && (n.receiver == RCopying(0) || n.receiver == RDead(false) || n.receiver == RWaiting(l.receiver.attempts - 1))
            && (n.receiver.RCopying? <==> script(from).wait == Acquired && script(from).peer(l).produced > 0)
            && (n.receiver.RWaiting? ==> script(from).wait != ClockFailed)
            && (!n.receiver.RCopying? && !n.receiver.RWaiting? ==> script(from).wait == ClockFailed)
  {
    ReceiveTurnKeeps(l, script, from, AwaitProduced(script(from).wait));
  }

  /** A first wait that misses leaves the question to the waits that follow. */
  lemma ProducedLater(l: Link, attempts: nat, script: nat -> Turn, from: nat)
    requires attempts > 0 && script(from).wait != ClockFailed && !ProducedAt(l, script, from, from)
    ensures var n := Turned(l, script(from), AwaitProduced(script(from).wait));
            IsProduced(l, attempts, script, from) <==> IsProduced(n, attempts - 1, script, from + 1)
  {
    var n := Turned(l, script(from), AwaitProduced(script(from).wait));
    if IsProduced(l, attempts, script, from) {
      var t :| from <= t < from + attempts && ProducedAt(l, script, from, t);
      assert ProducedAt(n, script, from + 1, t);
    }
    if IsProduced(n, attempts - 1, script, from + 1) {
      var t :| from + 1 <= t < from + attempts && ProducedAt(n, script, from + 1, t);
      assert ProducedAt(l, script, from, t);
    }
  }

  lemma ProducedFirst(l: Link, attempts: nat, script: nat -> Turn, from: nat)
    requires attempts > 0
    ensures ProducedAt(l, script, from, from) <==> script(from).wait == Acquired && script(from).peer(l).produced > 0
    ensures ProducedAt(l, script, from, from) ==> IsProduced(l, attempts, script, from)
    ensures script(from).wait == ClockFailed ==> !IsProduced(l, attempts, script, from)
  {
  }

  /** The retry loop of `receive` succeeds exactly when one of its waits is answered. */
  lemma {:induction false} ProducedExactly(l: Link, attempts: nat, script: nat -> Turn, from: nat)
    requires Inv(l) && l.receiver == RWaiting(attempts) && WithSender(script)
    ensures var n := Fetching(l, attempts, script, from);
            && Inv(n) && n.size == l.size && n.received == l.received
            && (n.receiver == RCopying(0) || n.receiver == RDead(false))
            && (n.receiver.RCopying? <==> IsProduced(l, attempts, script, from))
    decreases attempts
  {
    if attempts == 0 {
      ReceiverStepKeepsInv(l, AwaitProduced(Missed));
    } else {
      ExpectOnce(l, script, from);
      ProducedFirst(l, attempts, script, from);
      var n := Turned(l, script(from), AwaitProduced(script(from).wait));
      if n.receiver.RWaiting? {
        ProducedLater(l, attempts, script, from);
        ProducedExactly(n, attempts - 1, script, from + 1);
      }
    }
  }

  lemma {:induction false} CopyingOutIs(l: Link, message: Block, attempts: nat, script: nat -> Turn, cells: nat)
    requires Inv(l) && l.sender.SIdle? && |message| == l.size && cells <= l.size && WithReceiver(script)
    ensures var n := CopyingOut(l, message, attempts, script, cells);
            && Inv(n) && n.sender == SCopying(cells, attempts) && n.outgoing == message
            && n.posted == l.posted && n.confirmed == l.confirmed && n.size == l.size
  {
    if cells == 0 {
      SendTurnKeeps(l, script, 0, BeginSend(message, attempts));
    } else {
      CopyingOutIs(l, message, attempts, script, cells - 1);
      SendTurnKeeps(CopyingOut(l, message, attempts, script, cells - 1), script, cells, SendCell);
    }
  }

  lemma PostingIs(l: Link, message: Block, attempts: nat, script: nat -> Turn)
    requires Inv(l) && l.sender.SIdle? && |message| == l.size && WithReceiver(script)
    ensures var n := Posting(l, message, attempts, script);
            && Inv(n) && n.confirmed == l.confirmed && n.size == l.size
            && n.sender == (if script(l.size + 1).success then SWaiting(attempts) else SDead)
            && n.posted == l.posted + if script(l.size + 1).success then [message] else []
  {
    CopyingOutIs(l, message, attempts, script, l.size);
    SendTurnKeeps(CopyingOut(l, message, attempts, script, l.size), script, l.size + 1, PostProduced(script(l.size + 1).success));
    assert l.posted + [] == l.posted;
  }

  /** When `send` succeeds, and what it leaves behind. */
  lemma SendingExactly(l: Link, message: Block, attempts: nat, script: nat -> Turn)
    requires Inv(l) && l.sender.SIdle? && |message| == l.size && WithReceiver(script)
    ensures var n, success := Sending(l, message, attempts, script), script(l.size + 1).success;
            && (n.sender.SIdle? <==> success && IsConfirmed(Posting(l, message, attempts, script), attempts, script, l.size + 2))
            && (n.sender.SIdle? || n.sender.SDead?)
            && n.posted == l.posted + (if success then [message] else [])
            && n.confirmed == l.confirmed + (if n.sender.SIdle? then 1 else 0)
            && (n.sender.SIdle? ==> n.received == n.posted)
  {
    PostingIs(l, message, attempts, script);
    if script(l.size + 1).success {
      ConfirmedExactly(Posting(l, message, attempts, script), attempts, script, l.size + 2);
    }
  }

  lemma {:induction false} CopyingInIs(l: Link, script: nat -> Turn, from: nat, cells: nat)
    requires Inv(l) && l.receiver == RCopying(0) && cells <= l.size && WithSender(script)
    ensures var n := CopyingIn(l, script, from, cells);
            Inv(n) && n.receiver == RCopying(cells) && n.received == l.received && n.size == l.size
  {
    if cells > 0 {
      CopyingInIs(l, script, from, cells - 1);
      ReceiveTurnKeeps(CopyingIn(l, script, from, cells - 1), script, from + cells - 1, ReceiveCell);
    }
  }

  lemma ReturningIs(l: Link, script: nat -> Turn, from: nat, size: nat)
    requires Inv(l) && l.receiver == RCopying(0) && l.size == size && WithSender(script)
    ensures var n, success := Returning(l, script, from, size), script(from + size).success;
            && Inv(n) && n.size == l.size
            && n.receiver == (if success then RIdle else RDead(true))
            && n.received == l.received + (if success then [n.incoming] else [])
            && (success ==> |n.posted| > |l.received| && n.incoming == n.posted[|l.received|])
  {
    CopyingInIs(l, script, from, size);
    ReceiveTurnKeeps(CopyingIn(l, script, from, size), script, from + size, PostConsumed(script(from + size).success));
    assert l.received + [] == l.received;
    assert script(from + size).success ==> Returning(l, script, from, size).received[|l.received|] == Returning(l, script, from, size).incoming;
  }

  lemma BegunIs(l: Link, attempts: nat, script: nat -> Turn)
    requires Inv(l) && l.receiver.RIdle? && WithSender(script)
    ensures var n := Begun(l, attempts, script);
            Inv(n) && n.receiver == RWaiting(attempts) && n.received == l.received && n.size == l.size
  {
    ReceiveTurnKeeps(l, script, 0, BeginReceive(attempts));
  }

  lemma FetchedIs(l: Link, attempts: nat, script: nat -> Turn)
    requires Inv(l) && l.receiver.RIdle? && WithSender(script)
    ensures var n := Fetched(l, attempts, script);
            && Inv(n) && n.received == l.received && n.size == l.size
            && (n.receiver == RCopying(0) || n.receiver == RDead(false))
            && (n.receiver.RCopying? <==> IsProduced(Begun(l, attempts, script), attempts, script, 1))
  {
    BegunIs(l, attempts, script);
    ProducedExactly(Begun(l, attempts, script), attempts, script, 1);
  }

  lemma HandedBackIs(l: Link, script: nat -> Turn, from: nat, size: nat)
    requires Inv(l) && (l.receiver == RCopying(0) || l.receiver == RDead(false)) && l.size == size && WithSender(script)
    ensures var n := HandedBack(l, script, from, size);
            && (n.receiver.RIdle? <==> l.receiver.RCopying? && script(from + size).success)
            && (n.receiver.RIdle? || n.receiver.RDead?)
            && n.received == l.received + (if n.receiver.RIdle? then [n.incoming] else [])
            && (n.receiver.RIdle? ==> |n.posted| > |l.received| && n.incoming == n.posted[|l.received|])
  {
    assert l.received + [] == l.received;
    if l.receiver.RCopying? { ReturningIs(l, script, from, size); }
  }

  /** When `receive` succeeds, and what it leaves behind. */
  lemma ReceivingExactly(l: Link, attempts: nat, script: nat -> Turn)
    requires Inv(l) && l.receiver.RIdle? && WithSender(script)
    ensures var n, success := Receiving(l, attempts, script), script(attempts + 1 + l.size).success;
            && (n.receiver.RIdle? <==> success && IsProduced(Begun(l, attempts, script), attempts, script, 1))
            && (n.receiver.RIdle? || n.receiver.RDead?)
            && n.received == l.received + (if n.receiver.RIdle? then [n.incoming] else [])
            && (n.receiver.RIdle? ==> |n.posted| > |l.received| && n.incoming == n.posted[|l.received|])
  {
    FetchedIs(l, attempts, script);
    HandedBackIs(Fetched(l, attempts, script), script, attempts + 1, l.size);
  }

  /** The states of a retry loop of `send`, one wait after the other. */
  ghost predicate SenderWaits(states: seq<Link>, attempts: nat, script: nat -> Turn, from: nat)
  {
    && 1 <= |states| <= attempts + 1
    && forall k {:trigger SenderWaitsAt(states, attempts, script, from, k)} :: 0 <= k < |states| - 1 ==> SenderWaitsAt(states, attempts, script, from, k)
  }

  ghost predicate SenderWaitsAt(states: seq<Link>, attempts: nat, script: nat -> Turn, from: nat, k: nat)
    requires k + 1 < |states| && k < attempts
  {
    && states[k].sender == SWaiting(attempts - k)
    && states[k + 1] == Turned(states[k], script(from + k), AwaitConsumed(script(from + k).wait))
  }

  lemma SenderWaitsOn(states: seq<Link>, next: Link, attempts: nat, script: nat -> Turn, from: nat)
    requires SenderWaits(states, attempts, script, from) && |states| <= attempts
    requires var k := |states| - 1;
             && states[k].sender == SWaiting(attempts - k)
             && next == Turned(states[k], script(from + k), AwaitConsumed(script(from + k).wait))
    ensures SenderWaits(states + [next], attempts, script, from)
  {
    forall k | 0 <= k < |states| ensures SenderWaitsAt(states + [next], attempts, script, from, k) {
      if k < |states| - 1 { assert SenderWaitsAt(states, attempts, script, from, k); }
    }
  }

  /** The loop has come as far as its last state says. */
  lemma {:induction false} SenderWaitsAre(states: seq<Link>, attempts: nat, script: nat -> Turn, from: nat)
    requires SenderWaits(states, attempts, script, from) && states[0].sender.SWaiting?
    ensures var k := |states| - 1;
            Confirming(states[0], attempts, script, from)
            == if states[k].sender.SWaiting? then Confirming(states[k], attempts - k, script, from + k) else states[k]
    decreases |states|
  {
    var k := |states| - 1;
    if k > 0 {
      var before := states[..k];
      forall i | 0 <= i < k - 1 ensures SenderWaitsAt(before, attempts, script, from, i) {
        assert SenderWaitsAt(states, attempts, script, from, i);
      }
      SenderWaitsAre(before, attempts, script, from);
      assert SenderWaitsAt(states, attempts, script, from, k - 1);
    }
  }

  /** The states of a retry loop of `receive`, one wait after the other. */
  ghost predicate ReceiverWaits(states: seq<Link>, attempts: nat, script: nat -> Turn, from: nat)
  {
    && 1 <= |states| <= attempts + 1
    && forall k {:trigger ReceiverWaitsAt(states, attempts, script, from, k)} :: 0 <= k < |states| - 1 ==> ReceiverWaitsAt(states, attempts, script, from, k)
  }

  ghost predicate ReceiverWaitsAt(states: seq<Link>, attempts: nat, script: nat -> Turn, from: nat, k: nat)
    requires k + 1 < |states| && k < attempts
  {
    && states[k].receiver == RWaiting(attempts - k)
    && states[k + 1] == Turned(states[k], script(from + k), AwaitProduced(script(from + k).wait))
  }

  lemma ReceiverWaitsOn(states: seq<Link>, next: Link, attempts: nat, script: nat -> Turn, from: nat)
    requires ReceiverWaits(states, attempts, script, from) && |states| <= attempts
    requires var k := |states| - 1;
             && states[k].receiver == RWaiting(attempts - k)
             && next == Turned(states[k], script(from + k), AwaitProduced(script(from + k).wait))
    ensures ReceiverWaits(states + [next], attempts, script, from)
  {
    forall k | 0 <= k < |states| ensures ReceiverWaitsAt(states + [next], attempts, script, from, k) {
      if k < |states| - 1 { assert ReceiverWaitsAt(states, attempts, script, from, k); }
    }
  }

  /** The loop has come as far as its last state says. */
  lemma {:induction false} ReceiverWaitsAre(states: seq<Link>, attempts: nat, script: nat -> Turn, from: nat)
    requires ReceiverWaits(states, attempts, script, from) && states[0].receiver.RWaiting?
    ensures var k := |states| - 1;
            Fetching(states[0], attempts, script, from)
            == if states[k].receiver.RWaiting? then Fetching(states[k], attempts - k, script, from + k) else states[k]
    decreases |states|
  {
    var k := |states| - 1;
    if k > 0 {
      var before := states[..k];
      forall i | 0 <= i < k - 1 ensures ReceiverWaitsAt(before, attempts, script, from, i) {
        assert ReceiverWaitsAt(states, attempts, script, from, i);
      }
      ReceiverWaitsAre(before, attempts, script, from);
      assert ReceiverWaitsAt(states, attempts, script, from, k - 1);
    }
  }

  // Every call is an interleaving of its own steps with those of the other process.

  lemma TurnIsPlay(l: Link, past: seq<Action>, t: Turn, peer: seq<Action>, a: Action) returns (trace: seq<Action>)
    requires t.peer(Play(l, past)) == Play(Play(l, past), peer)
    ensures Turned(Play(l, past), t, a) == Play(l, trace)
  {
    PlayConcat(l, past, peer);
    PlayConcat(l, past + peer, [a]);
    PlayOne(Play(l, past + peer), a);
    trace := past + peer + [a];
  }

  lemma SendTurnIsPlay(l: Link, past: seq<Action>, script: nat -> Turn, k: nat, a: Action) returns (trace: seq<Action>)
    requires WithReceiver(script)
    ensures Turned(Play(l, past), script(k), a) == Play(l, trace)
  {
    assert ReceiverMoves(Play(l, past), script(k).peer(Play(l, past)));
    var peer :| OnlyReceiver(peer) && script(k).peer(Play(l, past)) == Play(Play(l, past), peer);
    trace := TurnIsPlay(l, past, script(k), peer, a);
  }

  lemma {:induction false} CopyingOutIsPlay(l: Link, message: Block, attempts: nat, script: nat -> Turn, cells: nat)
    returns (trace: seq<Action>)
    requires WithReceiver(script)
    ensures CopyingOut(l, message, attempts, script, cells) == Play(l, trace)
  {
    if cells == 0 {
      trace := SendTurnIsPlay(l, [], script, 0, BeginSend(message, attempts));
    } else {
      trace := CopyingOutIsPlay(l, message, attempts, script, cells - 1);
      trace := SendTurnIsPlay(l, trace, script, cells, SendCell);
    }
  }

  lemma {:induction false} ConfirmingIsPlay(l: Link, past: seq<Action>, attempts: nat, script: nat -> Turn, from: nat)
    returns (trace: seq<Action>)
    requires WithReceiver(script)
    ensures Confirming(Play(l, past), attempts, script, from) == Play(l, trace)
    decreases attempts
  {
    if attempts == 0 {
      PlayConcat(l, past, [AwaitConsumed(Missed)]);
      PlayOne(Play(l, past), AwaitConsumed(Missed));
      trace := past + [AwaitConsumed(Missed)];
    } else {
      trace := SendTurnIsPlay(l, past, script, from, AwaitConsumed(script(from).wait));
      if Play(l, trace).sender.SWaiting? { trace := ConfirmingIsPlay(l, trace, attempts - 1, script, from + 1); }
    }
  }

  /** So all theorems about interleavings hold of `send`. */
  lemma SendingIsPlay(l: Link, message: Block, attempts: nat, script: nat -> Turn) returns (trace: seq<Action>)
    requires WithReceiver(script)
    ensures Sending(l, message, attempts, script) == Play(l, trace)
  {
    trace := CopyingOutIsPlay(l, message, attempts, script, l.size);
    trace := SendTurnIsPlay(l, trace, script, l.size + 1, PostProduced(script(l.size + 1).success));
    if script(l.size + 1).success { trace := ConfirmingIsPlay(l, trace, attempts, script, l.size + 2); }
  }

  lemma ReceiveTurnIsPlay(l: Link, past: seq<Action>, script: nat -> Turn, k: nat, a: Action) returns (trace: seq<Action>)
    requires WithSender(script)
    ensures Turned(Play(l, past), script(k), a) == Play(l, trace)
  {
    assert SenderMoves(Play(l, past), script(k).peer(Play(l, past)));
    var peer :| OnlySender(peer) && script(k).peer(Play(l, past)) == Play(Play(l, past), peer);
    trace := TurnIsPlay(l, past, script(k), peer, a);
  }

  lemma {:induction false} FetchingIsPlay(l: Link, past: seq<Action>, attempts: nat, script: nat -> Turn, from: nat)
    returns (trace: seq<Action>)
    requires WithSender(script)
    ensures Fetching(Play(l, past), attempts, script, from) == Play(l, trace)
    decreases attempts
  {
    if attempts == 0 {
      PlayConcat(l, past, [AwaitProduced(Missed)]);
      PlayOne(Play(l, past), AwaitProduced(Missed));
      trace := past + [AwaitProduced(Missed)];
    } else {
      trace := ReceiveTurnIsPlay(l, past, script, from, AwaitProduced(script(from).wait));
      if Play(l, trace).receiver.RWaiting? { trace := FetchingIsPlay(l, trace, attempts - 1, script, from + 1); }
    }
  }

  lemma {:induction false} CopyingInIsPlay(l: Link, past: seq<Action>, n: Link, script: nat -> Turn, from: nat, cells: nat)
    returns (trace: seq<Action>)
    requires WithSender(script) && n == Play(l, past)
    ensures CopyingIn(n, script, from, cells) == Play(l, trace)
  {
    if cells == 0 {
      trace := past;
    } else {
      trace := CopyingInIsPlay(l, past, n, script, from, cells - 1);
      trace := CellIsPlay(l, trace, CopyingIn(n, script, from, cells - 1), script, from + cells - 1);
    }
  }

  lemma CellIsPlay(l: Link, past: seq<Action>, n: Link, script: nat -> Turn, k: nat) returns (trace: seq<Action>)
    requires WithSender(script) && n == Play(l, past)
    ensures Turned(n, script(k), ReceiveCell) == Play(l, trace)
  {
    trace := ReceiveTurnIsPlay(l, past, script, k, ReceiveCell);
  }

  lemma HandedBackIsPlay(l: Link, past: seq<Action>, script: nat -> Turn, from: nat, size: nat) returns (trace: seq<Action>)
    requires WithSender(script)
    ensures HandedBack(Play(l, past), script, from, size) == Play(l, trace)
  {
    trace := past;
    if Play(l, past).receiver.RCopying? { trace := ReturningIsPlay(l, past, script, from, size); }
  }

  lemma ReturningIsPlay(l: Link, past: seq<Action>, script: nat -> Turn, from: nat, size: nat) returns (trace: seq<Action>)
    requires WithSender(script)
    ensures Returning(Play(l, past), script, from, size) == Play(l, trace)
  {
    trace := CopyingInIsPlay(l, past, Play(l, past), script, from, size);
    trace := ReceiveTurnIsPlay(l, trace, script, from + size, PostConsumed(script(from + size).success));
  }

  /** And of `receive`. */
  lemma ReceivingIsPlay(l: Link, attempts: nat, script: nat -> Turn) returns (trace: seq<Action>)
    requires WithSender(script)
    ensures Receiving(l, attempts, script) == Play(l, trace)
  {
    trace := ReceiveTurnIsPlay(l, [], script, 0, BeginReceive(attempts));
    trace := FetchingIsPlay(l, trace, attempts, script, 1);
    trace := HandedBackIsPlay(l, trace, script, attempts + 1, l.size);
  }

  /**
   The shared objects and what the two processes know about them. A call takes a script,
   which fixes for each of its steps what the other process did before it and how the system call
   ended; a statement about every script is a statement about every interleaving.
   */
  class Channel {
    const mSharedMessage: array<Cell>
    var mDataProduced: nat
    var mDataConsumed: nat
    var mSenderAlive: bool
    var mReceiverAlive: bool
    var sender: Sender
    var outgoing: Block
    var receiver: Receiver
    var incoming: Block
    var posted: seq<Block>
    var confirmed: nat
    var received: seq<Block>

    function Raw(): RawLink
      reads this, mSharedMessage
    {
      RawLink(mSharedMessage.Length, mSharedMessage[..], mDataProduced, mDataConsumed,
              sender, outgoing, receiver, incoming, posted, confirmed, received)
    }

    ghost predicate Valid()
      reads this, mSharedMessage
    {
      Sized(Raw()) && Inv(Raw())
    }

    function State(): Link
      requires Valid()
      reads this, mSharedMessage
    {
      Raw()
    }

    constructor (size: nat)
      ensures Valid() && State() == Fresh(size) && mSenderAlive && mReceiverAlive && fresh(mSharedMessage)
    {
      mSharedMessage := new Cell[size](i => 0);
      mDataProduced, mDataConsumed, mSenderAlive, mReceiverAlive := 0, 0, true, true;
      sender, receiver := SIdle, RIdle;
      var zeros := seq(size, i => 0);
      outgoing, incoming := zeros, zeros;
      posted, confirmed, received := [], 0, [];
      new;
      assert mSharedMessage[..] == zeros;
    }

    /** One atomic step of the sending process on the shared objects. */
    method SenderStep(a: Action)
      requires Valid() && BySender(a)
      modifies this, mSharedMessage
      ensures Valid() && State() == Step(old(State()), a)
      ensures mSenderAlive == old(mSenderAlive) && mReceiverAlive == old(mReceiverAlive)
    {
      ghost var before := State();
      SenderStepKeepsInv(before, a);
      var size := mSharedMessage.Length;
      match a {
        case BeginSend(message, attempts) =>
          if sender.SIdle? && |message| == size { sender, outgoing := SCopying(0, attempts), message; }
        case SendCell =>
          if sender.SCopying? && sender.at < size {
            mSharedMessage[sender.at] := outgoing[sender.at];
            sender := SCopying(sender.at + 1, sender.attempts);
          }
        case PostProduced(success) =>
          if sender.SCopying? && sender.at == size {
            if success {
              mDataProduced := mDataProduced + 1;
              posted := posted + [outgoing];
              sender := SWaiting(sender.attempts);
            } else {
              sender := SDead;
            }
          }
        case AwaitConsumed(wait) =>
          if sender.SWaiting? {
            if sender.attempts == 0 || wait == ClockFailed {
              sender := SDead;
            } else if wait == Missed || mDataConsumed == 0 {
              sender := SWaiting(sender.attempts - 1);
            } else {
              mDataConsumed, sender := mDataConsumed - 1, SIdle;
              confirmed := confirmed + 1;
            }
          }
      }
      assert Raw() == Step(before, a);
    }

    /** One atomic step of the receiving process on the shared objects. */
    method ReceiverStep(a: Action)
      requires Valid() && !BySender(a)
      modifies this
      ensures Valid() && State() == Step(old(State()), a)
      ensures mSenderAlive == old(mSenderAlive) && mReceiverAlive == old(mReceiverAlive)
    {
      ghost var before := State();
      ReceiverStepKeepsInv(before, a);
      var size := mSharedMessage.Length;
      match a {
        case BeginReceive(attempts) =>
          if receiver.RIdle? { receiver := RWaiting(attempts); }
        case AwaitProduced(wait) =>
          if receiver.RWaiting? {
            if receiver.attempts == 0 || wait == ClockFailed {
              receiver := RDead(false);
            } else if wait == Missed || mDataProduced == 0 {
              receiver := RWaiting(receiver.attempts - 1);
            } else {
              mDataProduced, receiver := mDataProduced - 1, RCopying(0);
            }
          }
        case ReceiveCell =>
          if receiver.RCopying? && receiver.at < size {
            incoming := incoming[receiver.at := mSharedMessage[receiver.at]];
            receiver := RCopying(receiver.at + 1);
          }
        case PostConsumed(success) =>
          if receiver.RCopying? && receiver.at == size {
            if success {
              mDataConsumed, receiver := mDataConsumed + 1, RIdle;
              received := received + [incoming];
            } else {
              receiver := RDead(true);
            }
          }
      }
      assert Raw() == Step(before, a);
    }

    /** The other process runs for a while, and leaves the link as `next`. */
    method Interfere(next: Link)
      requires Valid() && Inv(next) && next.size == mSharedMessage.Length
      modifies this, mSharedMessage
      ensures Valid() && State() == next
      ensures mSenderAlive == old(mSenderAlive) && mReceiverAlive == old(mReceiverAlive)
    {
      for i := 0 to mSharedMessage.Length
        invariant mSharedMessage[..i] == next.buffer[..i] && unchanged(this)
      {
        mSharedMessage[i] := next.buffer[i];
      }
      mDataProduced, mDataConsumed := next.produced, next.consumed;
      sender, outgoing, receiver, incoming := next.sender, next.outgoing, next.receiver, next.incoming;
      posted, confirmed, received := next.posted, next.confirmed, next.received;
      assert mSharedMessage[..] == next.buffer;
      assert Raw() == next;
    }

    /** The other process runs, then one step of the sender's own call is made. */
    method SendTurn(script: nat -> Turn, k: nat, a: Action)
      requires Valid() && BySender(a) && WithReceiver(script)
      modifies this, mSharedMessage
      ensures Valid() && State() == Turned(old(State()), script(k), a) && mSenderAlive == old(mSenderAlive)
    {
      ReceiverKeeps(State(), script, k);
      Interfere(script(k).peer(State()));
      SenderStep(a);
    }

    method ReceiveTurn(script: nat -> Turn, k: nat, a: Action)
      requires Valid() && !BySender(a) && WithSender(script)
      modifies this, mSharedMessage
      ensures Valid() && State() == Turned(old(State()), script(k), a) && mReceiverAlive == old(mReceiverAlive)
    {
      SenderKeeps(State(), script, k);
      Interfere(script(k).peer(State()));
      ReceiverStep(a);
    }

    /** Between calls the flag says whether the side still works. */
    ghost predicate SenderRests()
      reads this
    {
      (mSenderAlive ==> sender.SIdle?) && (!mSenderAlive ==> sender.SDead?)
    }

    ghost predicate ReceiverRests()
      reads this
    {
      (mReceiverAlive ==> receiver.RIdle?) && (!mReceiverAlive ==> receiver.RDead?)
    }

    /** The `memcpy` of `send`, cell by cell. */
    method CopyOut(message: Block, attempts: nat, script: nat -> Turn)
      requires Valid() && WithReceiver(script)
      modifies this, mSharedMessage
      ensures Valid() && State() == CopyingOut(old(State()), message, attempts, script, mSharedMessage.Length)
    {
      ghost var was := State();
      SendTurn(script, 0, BeginSend(message, attempts));
      for k := 0 to mSharedMessage.Length
        invariant Valid() && State() == CopyingOut(was, message, attempts, script, k)
      {
        SendTurn(script, k + 1, SendCell);
      }
    }

    /**
     `send`: true exactly when the other process has confirmed this very message, and that is so exactly
     when the side was alive, the post succeeded and one of the waits is answered; after a failure
     the flag stays down and the buffer is left alone for ever.
     */
    method Send(message: Block, attempts: nat, script: nat -> Turn) returns (result: bool)
      requires Valid() && SenderRests() && |message| == mSharedMessage.Length && WithReceiver(script)
      modifies this, mSharedMessage
      ensures Valid() && SenderRests() && mSenderAlive == result
      ensures State() == if old(mSenderAlive) then Sending(old(State()), message, attempts, script) else old(State())
      ensures result <==>
                && old(mSenderAlive) && script(mSharedMessage.Length + 1).success
                && IsConfirmed(Posting(old(State()), message, attempts, script), attempts, script, mSharedMessage.Length + 2)
      ensures posted == old(posted) + if old(mSenderAlive) && script(mSharedMessage.Length + 1).success then [message] else []
      ensures confirmed == old(confirmed) + if result then 1 else 0
      ensures result ==> received == posted
    {
      result := false;
      if mSenderAlive {
        SendingExactly(State(), message, attempts, script);
        result := Deliver(message, attempts, script);
      }
      mSenderAlive := result;
    }

    /** The body of `send` for a side that is alive. */
    method Deliver(message: Block, attempts: nat, script: nat -> Turn) returns (result: bool)
      requires Valid() && sender.SIdle? && |message| == mSharedMessage.Length && WithReceiver(script)
      modifies this, mSharedMessage
      ensures Valid() && State() == Sending(old(State()), message, attempts, script)
      ensures result == sender.SIdle?
    {
      ghost var was := State();
      PostingIs(was, message, attempts, script);
      Post(message, attempts, script);
      result := false;
      if script(mSharedMessage.Length + 1).success {
        result := AwaitConfirmation(attempts, mSharedMessage.Length + 2, script);
      }
    }

    /** The copy, and the post that announces it. */
    method Post(message: Block, attempts: nat, script: nat -> Turn)
      requires Valid() && WithReceiver(script)
      modifies this, mSharedMessage
      ensures Valid() && State() == Posting(old(State()), message, attempts, script)
    {
      ghost var was := State();
      CopyOut(message, attempts, script);
      var step := mSharedMessage.Length + 1;
      SendTurn(script, step, PostProduced(script(step).success));
    }

    /** The retry loop of `send`. */
    method AwaitConfirmation(attempts: nat, from: nat, script: nat -> Turn) returns (result: bool)
      requires Valid() && sender == SWaiting(attempts) && WithReceiver(script)
      modifies this, mSharedMessage
      ensures Valid() && State() == Confirming(old(State()), attempts, script, from)
      ensures result == sender.SIdle?
      ensures result <==> IsConfirmed(old(State()), attempts, script, from)
    {
      ConfirmedExactly(State(), attempts, script, from);
      ghost var states := TryConsumedLoop(attempts, from, script);
      SenderWaitsAre(states, attempts, script, from);
      result := sender.SIdle?;
      if sender.SWaiting? { SenderStep(AwaitConsumed(Missed)); }
    }

    /** Its waits, up to the one that is answered, the last attempt, or a failing clock. */
    method TryConsumedLoop(attempts: nat, from: nat, script: nat -> Turn) returns (ghost states: seq<Link>)
      requires Valid() && sender == SWaiting(attempts) && WithReceiver(script)
      modifies this, mSharedMessage
      ensures Valid() && SenderWaits(states, attempts, script, from)
      ensures states[0] == old(State()) && State() == states[|states| - 1]
      ensures sender.SWaiting? ==> |states| == attempts + 1 && sender == SWaiting(0)
    {
      states := [State()];
      var attempt: nat := attempts;
      while attempt > 0
        invariant Valid() && attempt <= attempts && |states| == attempts - attempt + 1
        invariant State() == states[attempts - attempt] && sender == SWaiting(attempt) && states[0] == old(State())
        invariant SenderWaits(states, attempts, script, from)
      {
        ghost var next := TryConsumed(from + (attempts - attempt), script, states[attempts - attempt]);
        SenderWaitsOn(states, next, attempts, script, from);
        states := states + [next];
        if !sender.SWaiting? { return; }
        attempt := attempt - 1;
      }
    }

    /** One `sem_timedwait` of `send`; it cannot succeed while the semaphore is down. */
    method TryConsumed(k: nat, script: nat -> Turn, ghost at: Link) returns (ghost next: Link)
      requires Valid() && State() == at && at.sender.SWaiting? && at.sender.attempts > 0 && WithReceiver(script)
      modifies this, mSharedMessage
      ensures Valid() && State() == next == Turned(at, script(k), AwaitConsumed(script(k).wait))
      ensures next.sender.SIdle? || next.sender.SDead? || next.sender == SWaiting(at.sender.attempts - 1)
    {
      WaitOnce(at, script, k);
      SendTurn(script, k, AwaitConsumed(script(k).wait));
      next := Turned(at, script(k), AwaitConsumed(script(k).wait));
    }

    /**
     `receive`: true exactly when a new message was taken over whole and confirmed, which is the oldest
     posted message that was not received before; and that is so exactly when the side was alive,
     one of its waits is answered and its own post succeeds.
     */
    method Receive(attempts: nat, script: nat -> Turn) returns (result: bool, message: Block)
      requires Valid() && ReceiverRests() && WithSender(script)
      modifies this, mSharedMessage
      ensures Valid() && ReceiverRests() && mReceiverAlive == result
      ensures State() == if old(mReceiverAlive) then Receiving(old(State()), attempts, script) else old(State())
      ensures result <==>
                && old(mReceiverAlive) && script(attempts + 1 + mSharedMessage.Length).success
                && IsProduced(Begun(old(State()), attempts, script), attempts, script, 1)
      ensures result ==> received == old(received) + [message] && |posted| > |old(received)| && message == posted[|old(received)|]
      ensures !result ==> received == old(received)
    {
      result, message := false, incoming;
      if mReceiverAlive {
        ReceivingExactly(State(), attempts, script);
        result := TakeOver(attempts, script);
        message := incoming;
      }
      mReceiverAlive := result;
    }

    /** The body of `receive` for a side that is alive. */
    method TakeOver(attempts: nat, script: nat -> Turn) returns (result: bool)
      requires Valid() && receiver.RIdle? && WithSender(script)
      modifies this, mSharedMessage
      ensures Valid() && State() == Receiving(old(State()), attempts, script)
      ensures result == receiver.RIdle?
    {
      Fetch(attempts, script);
      result := HandBack(attempts + 1, script);
    }

    /** The data is there, or the side gives up. */
    method Fetch(attempts: nat, script: nat -> Turn)
      requires Valid() && receiver.RIdle? && WithSender(script)
      modifies this, mSharedMessage
      ensures Valid() && State() == Fetched(old(State()), attempts, script)
      ensures receiver == RCopying(0) || receiver == RDead(false)
    {
      ghost var was := State();
      BegunIs(was, attempts, script);
      FetchedIs(was, attempts, script);
      ReceiveTurn(script, 0, BeginReceive(attempts));
      var ready := AwaitData(attempts, 1, script);
    }

    /** The copy, and the post that confirms it, unless the side has given up. */
    method HandBack(from: nat, script: nat -> Turn) returns (result: bool)
      requires Valid() && (receiver == RCopying(0) || receiver == RDead(false)) && WithSender(script)
      modifies this, mSharedMessage
      ensures Valid() && State() == HandedBack(old(State()), script, from, mSharedMessage.Length)
      ensures result == receiver.RIdle?
    {
      ghost var was := State();
      HandedBackIs(was, script, from, mSharedMessage.Length);
      if !receiver.RCopying? { return false; }
      CopyIn(from, script);
      var last := from + mSharedMessage.Length;
      ReceiveTurn(script, last, PostConsumed(script(last).success));
      return script(last).success;
    }

    /** The `memcpy` of `receive`, cell by cell. */
    method CopyIn(from: nat, script: nat -> Turn)
      requires Valid() && WithSender(script)
      modifies this, mSharedMessage
      ensures Valid() && State() == CopyingIn(old(State()), script, from, mSharedMessage.Length)
    {
      ghost var was := State();
      for k := 0 to mSharedMessage.Length
        invariant Valid() && State() == CopyingIn(was, script, from, k)
      {
        ReceiveTurn(script, from + k, ReceiveCell);
      }
    }

    /** The retry loop of `receive`. */
    method AwaitData(attempts: nat, from: nat, script: nat -> Turn) returns (ready: bool)
      requires Valid() && receiver == RWaiting(attempts) && WithSender(script)
      modifies this, mSharedMessage
      ensures Valid() && State() == Fetching(old(State()), attempts, script, from)
      ensures ready == receiver.RCopying?
      ensures ready <==> IsProduced(old(State()), attempts, script, from)
    {
      ProducedExactly(State(), attempts, script, from);
      ghost var states := TryProducedLoop(attempts, from, script);
      ReceiverWaitsAre(states, attempts, script, from);
      ready := receiver.RCopying?;
      if receiver.RWaiting? { ReceiverStep(AwaitProduced(Missed)); }
    }

    /** Its waits, up to the one that is answered, the last attempt, or a failing clock. */
    method TryProducedLoop(attempts: nat, from: nat, script: nat -> Turn) returns (ghost states: seq<Link>)
      requires Valid() && receiver == RWaiting(attempts) && WithSender(script)
      modifies this, mSharedMessage
      ensures Valid() && ReceiverWaits(states, attempts, script, from)
      ensures states[0] == old(State()) && State() == states[|states| - 1]
      ensures receiver.RWaiting? ==> |states| == attempts + 1 && receiver == RWaiting(0)
    {
      states := [State()];
      var attempt: nat := attempts;
      while attempt > 0
        invariant Valid() && attempt <= attempts && |states| == attempts - attempt + 1
        invariant State() == states[attempts - attempt] && receiver == RWaiting(attempt) && states[0] == old(State())
        invariant ReceiverWaits(states, attempts, script, from)
      {
        ghost var next := TryProduced(from + (attempts - attempt), script, states[attempts - attempt]);
        ReceiverWaitsOn(states, next, attempts, script, from);
        states := states + [next];
        if !receiver.RWaiting? { return; }
        attempt := attempt - 1;
      }
    }

    /** One `sem_timedwait` of `receive`. */
    method TryProduced(k: nat, script: nat -> Turn, ghost at: Link) returns (ghost next: Link)
      requires Valid() && State() == at && at.receiver.RWaiting? && at.receiver.attempts > 0 && WithSender(script)
      modifies this, mSharedMessage
      ensures Valid() && State() == next == Turned(at, script(k), AwaitProduced(script(k).wait))
      ensures next.receiver == RCopying(0) || next.receiver == RDead(false) || next.receiver == RWaiting(at.receiver.attempts - 1)
    {
      ExpectOnce(at, script, k);
      ReceiveTurn(script, k, AwaitProduced(script(k).wait));
      next := Turned(at, script(k), AwaitProduced(script(k).wait));
    }
  }
}
