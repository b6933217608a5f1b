/**
 The eight contact states (contacts/src/TTContactsState.hpp) and the transitions of
 `TTContactsHandler`, read as four bits: active, selected, unread, pending.
 */
module ContactStates {
  import opened Common

  datatype State =
    | ACTIVE
    | INACTIVE
    | SELECTED_ACTIVE
    | SELECTED_INACTIVE
    | UNREAD_MSG_ACTIVE
    | UNREAD_MSG_INACTIVE
    | PENDING_MSG_INACTIVE
    | SELECTED_PENDING_MSG_INACTIVE

  predicate IsActive(s: State)
  {
    s == ACTIVE || s == SELECTED_ACTIVE || s == UNREAD_MSG_ACTIVE
  }

  predicate IsSelected(s: State)
  {
    s == SELECTED_ACTIVE || s == SELECTED_INACTIVE || s == SELECTED_PENDING_MSG_INACTIVE
  }

  predicate IsUnread(s: State)
  {
    s == UNREAD_MSG_ACTIVE || s == UNREAD_MSG_INACTIVE
  }

  predicate IsPending(s: State)
  {
    s == PENDING_MSG_INACTIVE || s == SELECTED_PENDING_MSG_INACTIVE
  }

  /** Four bits; the header lists the combinations it calls impossible. */
  datatype Bits = Bits(active: bool, selected: bool, unread: bool, pending: bool)

  function BitsOf(s: State): Bits
  {
    Bits(IsActive(s), IsSelected(s), IsUnread(s), IsPending(s))
  }

  predicate Possible(b: Bits)
  {
    !(b.active && b.pending) && !(b.selected && b.unread) && !(b.unread && b.pending)
  }

  /** The eight states are exactly the possible combinations, each encoded once. */
  lemma EncodingIsExact(b: Bits)
    ensures Possible(b) <==> exists s :: BitsOf(s) == b
    ensures forall s, t :: BitsOf(s) == BitsOf(t) ==> s == t
  {
    var all := [ACTIVE, INACTIVE, SELECTED_ACTIVE, SELECTED_INACTIVE,
                UNREAD_MSG_ACTIVE, UNREAD_MSG_INACTIVE, PENDING_MSG_INACTIVE, SELECTED_PENDING_MSG_INACTIVE];
    assert forall i :: 0 <= i < |all| ==> Possible(BitsOf(all[i]));
    if Possible(b) {
      assert exists i :: 0 <= i < |all| && BitsOf(all[i]) == b by {
        assert BitsOf(all[0]) == b || BitsOf(all[1]) == b || BitsOf(all[2]) == b || BitsOf(all[3]) == b
            || BitsOf(all[4]) == b || BitsOf(all[5]) == b || BitsOf(all[6]) == b || BitsOf(all[7]) == b;
      }
    }
  }

  // The switch statements; None is the error arm.

  function OnSend(s: State): Option<State>
  {
    match s
    case SELECTED_ACTIVE => Some(SELECTED_ACTIVE)
    case SELECTED_INACTIVE => Some(SELECTED_PENDING_MSG_INACTIVE)
    case SELECTED_PENDING_MSG_INACTIVE => Some(SELECTED_PENDING_MSG_INACTIVE)
    case _ => None
  }

  function OnReceive(s: State): Option<State>
  {
    match s
    case ACTIVE => Some(UNREAD_MSG_ACTIVE)
    case SELECTED_ACTIVE => Some(SELECTED_ACTIVE)
    case UNREAD_MSG_ACTIVE => Some(UNREAD_MSG_ACTIVE)
    case _ => None
  }

  function OnActivate(s: State): Option<State>
  {
    match s
    case ACTIVE => Some(ACTIVE)
    case INACTIVE => Some(ACTIVE)
    case SELECTED_ACTIVE => Some(SELECTED_ACTIVE)
    case SELECTED_INACTIVE => Some(SELECTED_ACTIVE)
    case UNREAD_MSG_ACTIVE => Some(UNREAD_MSG_ACTIVE)
    case UNREAD_MSG_INACTIVE => Some(UNREAD_MSG_ACTIVE)
    case PENDING_MSG_INACTIVE => Some(ACTIVE)
    case SELECTED_PENDING_MSG_INACTIVE => Some(SELECTED_ACTIVE)
  }

  function OnDeactivate(s: State): Option<State>
  {
    match s
    case ACTIVE => Some(INACTIVE)
    case SELECTED_ACTIVE => Some(SELECTED_INACTIVE)
    case UNREAD_MSG_ACTIVE => Some(UNREAD_MSG_INACTIVE)
    case _ => Some(s)
  }

  function OnUnselect(s: State): Option<State>
  {
    match s
    case SELECTED_ACTIVE => Some(ACTIVE)
    case SELECTED_INACTIVE => Some(INACTIVE)
    case SELECTED_PENDING_MSG_INACTIVE => Some(PENDING_MSG_INACTIVE)
    case _ => None
  }

  function OnSelect(s: State): Option<State>
  {
    match s
    case ACTIVE => Some(SELECTED_ACTIVE)
    case INACTIVE => Some(SELECTED_INACTIVE)
    case UNREAD_MSG_ACTIVE => Some(SELECTED_ACTIVE)
    case UNREAD_MSG_INACTIVE => Some(SELECTED_INACTIVE)
    case PENDING_MSG_INACTIVE => Some(SELECTED_PENDING_MSG_INACTIVE)
    case _ => None
  }

  // ---------------------------------------------------------------- history

  /** What happened to the contacts: every change a handler operation accepted, in order. */
  datatype Event =
    | Sent(id: nat)
    | Received(id: nat)
    | Activated(id: nat)
    | Deactivated(id: nat)
    | Unselected(id: nat)
    | Selected(id: nat)

  datatype Mark = Inactive | Chosen | Unread | Pending

  /** Event `up` occurred and no `down` has occurred since. */
  ghost predicate Since(h: seq<Event>, up: Event, down: Event)
  {
    exists t :: 0 <= t < |h| && h[t] == up && forall u :: t < u < |h| ==> h[u] != down
  }

  /** The event at `t` raises the mark of contact `id`. */
  ghost predicate Raises(mark: Mark, h: seq<Event>, t: nat, id: nat)
    requires t < |h|
  {
    match mark
    case Inactive => h[t] == Deactivated(id)
    case Chosen => h[t] == Selected(id)
    case Unread => h[t] == Received(id) && !Since(h[..t], Selected(id), Unselected(id))
    case Pending => h[t] == Sent(id) && Since(h[..t], Deactivated(id), Activated(id))
  }

  function Drop(mark: Mark, id: nat): Event
  {
    match mark
    case Inactive => Activated(id)
    case Chosen => Unselected(id)
    case Unread => Selected(id)
    case Pending => Activated(id)
  }

  /** The mark was raised and nothing has dropped it since. */
  ghost predicate Holds(mark: Mark, h: seq<Event>, id: nat)
  {
    exists t :: 0 <= t < |h| && Raises(mark, h, t, id) && forall u :: t < u < |h| ==> h[u] != Drop(mark, id)
  }

  /** The bits of a contact as a function of the history alone. */
  ghost function BitsByHistory(h: seq<Event>, id: nat): Bits
  {
    Bits(!Holds(Inactive, h, id), Holds(Chosen, h, id), Holds(Unread, h, id), Holds(Pending, h, id))
  }

  lemma HoldsStep(mark: Mark, h: seq<Event>, e: Event, id: nat)
    ensures Holds(mark, h + [e], id) <==>
            Raises(mark, h + [e], |h|, id) || (e != Drop(mark, id) && Holds(mark, h, id))
  {
    var g := h + [e];
    assert g[|h|] == e;
    forall t | 0 <= t < |h| ensures Raises(mark, g, t, id) == Raises(mark, h, t, id) {
      assert g[t] == h[t] && g[..t] == h[..t];
    }
    assert forall u :: 0 <= u < |h| ==> g[u] == h[u];
    if e != Drop(mark, id) && Holds(mark, h, id) {
      var t :| 0 <= t < |h| && Raises(mark, h, t, id) && forall u :: t < u < |h| ==> h[u] != Drop(mark, id);
      assert Raises(mark, g, t, id);
    }
    if Holds(mark, g, id) && !Raises(mark, g, |h|, id) {
      var t :| 0 <= t < |g| && Raises(mark, g, t, id) && forall u :: t < u < |g| ==> g[u] != Drop(mark, id);
      assert Raises(mark, h, t, id);
      assert forall u :: t < u < |h| ==> h[u] != Drop(mark, id);
    }
  }

  /** How one event moves the bits of contact `id`. */
  function Moved(b: Bits, e: Event, id: nat): Bits
  {
    Bits(
      if e == Deactivated(id) then false else e == Activated(id) || b.active,
      if e == Selected(id) then true else e != Unselected(id) && b.selected,
      if e == Received(id) && !b.selected then true else e != Selected(id) && b.unread,
      if e == Sent(id) && !b.active then true else e != Activated(id) && b.pending)
  }

  lemma SinceIsHolds(h: seq<Event>, id: nat)
    ensures Since(h, Selected(id), Unselected(id)) == Holds(Chosen, h, id)
    ensures Since(h, Deactivated(id), Activated(id)) == Holds(Inactive, h, id)
  {
    assert forall t :: 0 <= t < |h| ==> Raises(Chosen, h, t, id) == (h[t] == Selected(id));
    assert forall t :: 0 <= t < |h| ==> Raises(Inactive, h, t, id) == (h[t] == Deactivated(id));
  }

  lemma HistoryStep(h: seq<Event>, e: Event, id: nat)
    ensures BitsByHistory(h + [e], id) == Moved(BitsByHistory(h, id), e, id)
  {
    assert (h + [e])[..|h|] == h && (h + [e])[|h|] == e;
    SinceIsHolds(h, id);
    HoldsStep(Inactive, h, e, id);
    HoldsStep(Chosen, h, e, id);
    HoldsStep(Unread, h, e, id);
    HoldsStep(Pending, h, e, id);
  }

  /** The transition the handler makes for an event. */
  function On(e: Event, s: State): Option<State>
  {
    match e
    case Sent(_) => OnSend(s)
    case Received(_) => OnReceive(s)
    case Activated(_) => OnActivate(s)
    case Deactivated(_) => OnDeactivate(s)
    case Unselected(_) => OnUnselect(s)
    case Selected(_) => OnSelect(s)
  }

  /** The switch statements move the bits exactly as the history does. */
  lemma TransitionsFollowHistory(e: Event, s: State)
    requires On(e, s).Some?
    ensures BitsOf(On(e, s).value) == Moved(BitsOf(s), e, e.id)
  {
  }

  /** What each switch accepts, in terms of the bits. */
  lemma AcceptedExactly(s: State, id: nat)
    ensures On(Sent(id), s).Some? <==> IsSelected(s)
    ensures On(Received(id), s).Some? <==> IsActive(s)
    ensures On(Activated(id), s).Some? && On(Deactivated(id), s).Some?
    ensures On(Unselected(id), s).Some? <==> IsSelected(s)
    ensures On(Selected(id), s).Some? <==> !IsSelected(s)
  {
  }
}
