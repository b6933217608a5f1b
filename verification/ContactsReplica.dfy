/**
 The contacts wire messages and `TTContacts` (contacts/src/TTContacts.cpp): the process that
 rebuilds the contact list from the stream of state changes.
 */
module ContactsReplica {
  import opened Common
  import opened ContactStates

  const NICKNAME_LIMIT: nat := 256

  /** A nickname has to leave room in the fixed buffer of a message. */
  predicate Fits(nickname: string)
  {
    |nickname| < NICKNAME_LIMIT
  }

  datatype Message =
    | Change(state: State, identity: nat, nickname: string)
    | Heartbeat
    | Goodbye

  datatype Entry = Entry(identity: nat, state: State, nickname: string)

  /** The element access of `handle` is inside the list. */
  predicate InBounds(entries: seq<Entry>, m: Message)
  {
    m.Change? && !(m.state == ACTIVE && m.identity >= |entries|) ==> m.identity < |entries|
  }

  /** The list after one message; a state change never ends the display's loop. */
  function Apply(entries: seq<Entry>, m: Message): seq<Entry>
    requires InBounds(entries, m)
  {
    match m
    case Change(state, identity, nickname) =>
      if state == ACTIVE && identity >= |entries| then entries + [Entry(identity, state, nickname)]
      else entries[identity := entries[identity].(state := state)]
    case Heartbeat => entries
    case Goodbye => entries
  }

  /** The list after a stream, or None when some access would be out of bounds. */
  function Replay(messages: seq<Message>): Option<seq<Entry>>
  {
    if messages == [] then Some([])
    else
      var before := Replay(messages[..|messages| - 1]);
      var m := messages[|messages| - 1];
      if before.Some? && InBounds(before.value, m) then Some(Apply(before.value, m)) else None
  }

  lemma ReplaySnoc(messages: seq<Message>, m: Message)
    ensures Replay(messages + [m]) ==
            if Replay(messages).Some? && InBounds(Replay(messages).value, m)
            then Some(Apply(Replay(messages).value, m)) else None
  {
    assert (messages + [m])[..|messages|] == messages;
  }

  /** The result of `handle`: a change of the list ends the loop when the window cannot be refreshed. */
  predicate GoesOn(m: Message, refreshed: bool)
  {
    match m case Change(_, _, _) => refreshed case Heartbeat => true case Goodbye => false
  }

  /** What one round of the loop meets: a message or a failed receive, and how a refresh would end. */
  datatype Round = Round(message: Option<Message>, refreshed: bool)

  /** The loop ends by itself, or another thread stops it after `life` rounds. */
  predicate Over(rounds: seq<Round>, life: nat)
  {
    rounds == [] || life == 0 || rounds[0].message.None?
  }

  /** No list access of the loop is out of bounds. */
  predicate Accessible(entries: seq<Entry>, rounds: seq<Round>, life: nat)
    decreases |rounds|
  {
    !Over(rounds, life) ==>
      var m := rounds[0].message.value;
      && InBounds(entries, m)
      && (GoesOn(m, rounds[0].refreshed) ==> Accessible(Apply(entries, m), rounds[1..], life - 1))
  }

  /** The list after the loop of `run`. */
  function Loop(entries: seq<Entry>, rounds: seq<Round>, life: nat): seq<Entry>
    requires Accessible(entries, rounds, life)
    decreases |rounds|
  {
    if Over(rounds, life) then entries
    else
      var m := rounds[0].message.value;
      if GoesOn(m, rounds[0].refreshed) then Loop(Apply(entries, m), rounds[1..], life - 1) else Apply(entries, m)
  }

  /** The rounds that are handled: all up to the first that ends the loop, which is handled too if it is a message. */
  function Handled(rounds: seq<Round>, life: nat): nat
    decreases |rounds|
  {
    if Over(rounds, life) then 0
    else if GoesOn(rounds[0].message.value, rounds[0].refreshed) then 1 + Handled(rounds[1..], life - 1)
    else 1
  }

  /** A heartbeat, or a change that could be shown: the loop goes on after it. */
  predicate IsHarmless(r: Round)
  {
    r.message.Some? && (r.message.value.Heartbeat? || (r.message.value.Change? && r.refreshed))
  }

  /** A goodbye, or a change that could not be shown: the loop handles it and ends. */
  predicate IsLast(r: Round)
  {
    r.message.Some? && (r.message.value.Goodbye? || (r.message.value.Change? && !r.refreshed))
  }

  /** `n` rounds are handled: the loop goes on after all but perhaps the last, and no further round could be. */
  ghost predicate HandlesExactly(rounds: seq<Round>, life: nat, n: nat)
  {
    && n <= |rounds| && n <= life
    && (forall i :: 0 <= i < n - 1 ==> IsHarmless(rounds[i]))
    && (n > 0 ==> IsHarmless(rounds[n - 1]) || IsLast(rounds[n - 1]))
    && (n == |rounds| || n == life || rounds[n].message.None? || (n > 0 && IsLast(rounds[n - 1])))
  }

  /** Which rounds the loop handles. */
  lemma {:induction false} HandledExactly(rounds: seq<Round>, life: nat)
    ensures HandlesExactly(rounds, life, Handled(rounds, life))
    decreases |rounds|
  {
    if !Over(rounds, life) && IsHarmless(rounds[0]) {
      var n := Handled(rounds[1..], life - 1);
      HandledExactly(rounds[1..], life - 1);
      forall i | 0 <= i < n ensures IsHarmless(rounds[i]) {
        if i > 0 { assert rounds[1..][i - 1] == rounds[i]; }
      }
      assert n > 0 ==> rounds[1..][n - 1] == rounds[n];
      assert n < |rounds[1..]| ==> rounds[1..][n] == rounds[n + 1];
    }
  }

  /** The messages of the rounds that are handled. */
  function Messages(rounds: seq<Round>, life: nat): seq<Message>
    decreases |rounds|
  {
    if Over(rounds, life) then []
    else
      [rounds[0].message.value]
      + if GoesOn(rounds[0].message.value, rounds[0].refreshed) then Messages(rounds[1..], life - 1) else []
  }

  lemma {:induction false} MessagesAre(rounds: seq<Round>, life: nat)
    ensures |Messages(rounds, life)| == Handled(rounds, life) <= |rounds|
    ensures forall i :: 0 <= i < Handled(rounds, life) ==> rounds[i].message == Some(Messages(rounds, life)[i])
    decreases |rounds|
  {
    if !Over(rounds, life) { MessagesAre(rounds[1..], life - 1); }
  }

  lemma MessagesStep(before: seq<Message>, rounds: seq<Round>, life: nat)
    requires !Over(rounds, life)
    ensures var m := rounds[0].message.value;
            before + Messages(rounds, life) ==
            before + [m] + if GoesOn(m, rounds[0].refreshed) then Messages(rounds[1..], life - 1) else []
  {
  }

  /** Whenever the loop ends, the list is the replay of the messages received so far. */
  lemma {:induction false} LoopReplays(before: seq<Message>, entries: seq<Entry>, rounds: seq<Round>, life: nat, all: seq<Message>)
    requires Replay(before) == Some(entries) && Accessible(entries, rounds, life)
    requires all == before + Messages(rounds, life)
    ensures Replay(all) == Some(Loop(entries, rounds, life))
    decreases |rounds|
  {
    if Over(rounds, life) {
      assert all == before;
    } else {
      var m := rounds[0].message.value;
      ReplaySnoc(before, m);
      MessagesStep(before, rounds, life);
      if GoesOn(m, rounds[0].refreshed) {
        LoopReplays(before + [m], Apply(entries, m), rounds[1..], life - 1, all);
      } else {
        assert all == before + [m];
      }
    }
  }

  class Contacts {
    var mEntries: seq<Entry>
    var stopped: bool

    constructor ()
      ensures mEntries == [] && !stopped
    {
      mEntries, stopped := [], false;
    }

    /** `handle`; the caller has to know that the accessed entry exists. */
    method HandleMessage(message: Message, refreshed: bool) returns (again: bool)
      requires InBounds(mEntries, message)
      modifies this`mEntries
      ensures mEntries == Apply(old(mEntries), message)
      ensures again <==> message.Heartbeat? || (message.Change? && refreshed)
    {
      match message
      case Change(state, identity, nickname) =>
        if state == ACTIVE && identity >= |mEntries| {
          mEntries := mEntries + [Entry(identity, state, nickname)];
        } else {
          mEntries := mEntries[identity := mEntries[identity].(state := state)];
        }
        return refreshed;
      case Heartbeat => return true;
      case Goodbye => return false;
    }

    /**
     `run` over the rounds it would meet; it ends with the display stopped. `handled` rounds are handled: all
     up to the first failed receive, failed refresh, goodbye or stop.
     */
    method Run(alive: bool, rounds: seq<Round>, life: nat) returns (handled: nat)
      requires Accessible(mEntries, rounds, life)
      modifies this
      ensures stopped
      ensures mEntries == if alive then Loop(old(mEntries), rounds, life) else old(mEntries)
      ensures if alive then HandlesExactly(rounds, life, handled) && handled == Handled(rounds, life) else handled == 0
    {
      handled := 0;
      if alive {
        HandledExactly(rounds, life);
        var rest, left, again := rounds, life, true;
        while again && rest != [] && left > 0 && rest[0].message.Some?
          invariant handled + (if again then Handled(rest, left) else 0) == Handled(rounds, life)
          invariant again ==> Accessible(mEntries, rest, left) && Loop(mEntries, rest, left) == Loop(old(mEntries), rounds, life)
          invariant !again ==> mEntries == Loop(old(mEntries), rounds, life)
          decreases |rest|
        {
          again := HandleMessage(rest[0].message.value, rest[0].refreshed);
          rest, left, handled := rest[1..], left - 1, handled + 1;
        }
      }
      stopped := true;
    }
  }
}
