/**
 `TTBroadcasterDiscovery` (engine/src/TTBroadcasterDiscovery.cpp): adding neighbours, answering
 greetings and heartbeats, and the two probing loops, against the steps of the engine.
 */
module DiscoveryBroadcaster {
  import opened Common
  import opened ContactStates
  import opened Discovery
  import C = ContactsHandlers
  import CR = ContactsReplica
  import H = ChatHandlers
  import E = Engine

  datatype DynamicNeighbor = DynamicNeighbor(record: Dynamic, stub: bool)

  datatype StaticNeighbor = StaticNeighbor(record: Static, address: string)

  /** What the network answers to one heartbeat probe. */
  datatype Answer = Answer(expired: bool, stubMade: bool, status: bool, identity: string)

  /** What the network answers to one greeting. */
  datatype Reply = Reply(expired: bool, stubMade: bool, status: bool, nickname: string, identity: string, address: string)

  function OutcomeOf(stub: bool, a: Answer): Probe
  {
    if !stub && !a.stubMade then NoStub else if a.status && a.identity != "" then Answered else Silent
  }

  /** The neighbour is reached at all. */
  predicate IsAsked(stub: bool, a: Answer)
  {
    stub || a.stubMade
  }

  /** An answer that tops the counter up. */
  predicate IsPositive(a: Answer)
  {
    a.status && a.identity != ""
  }

  /**
   What a probe is for: a positive answer leaves the contact active and all trials, any other one
   leaves it inactive and one trial fewer; without a stub the contact stays as it is.
   */
  predicate Means(stub: bool, a: Answer, before: Dynamic, after: Dynamic, was: State, now: State)
  {
    if !IsAsked(stub, a) then now == was && after.trials == before.trials - 1
    else if IsPositive(a) then IsActive(now) && after.trials == INACTIVITY_TRIALS
    else !IsActive(now) && after.trials == before.trials - 1
  }

  /** The contact has to change, which takes the contacts handler one more look at its stop flag. */
  predicate Turns(stub: bool, a: Answer, was: State)
  {
    IsAsked(stub, a) && IsActive(was) != IsPositive(a)
  }

  /**
   One neighbour's turn as the contacts see it: nobody else's contact changes, a probe does what it is
   for, and it is refused exactly when the contact has to change after a stop.
   */
  ghost predicate OneTold(was: C.Model, now: C.Model, id: nat, a: Answer, before: DynamicNeighbor, after: DynamicNeighbor,
                          probed: bool, refused: bool)
  {
    && |now.contacts| == |was.contacts| && id < |was.contacts|
    && (forall k {:trigger now.contacts[k]} :: 0 <= k < |was.contacts| && k != id ==> now.contacts[k] == was.contacts[k])
    && (refused <==> probed && Turns(before.stub, a, was.contacts[id].state) && was.life == 0)
    && (!probed ==> now.contacts[id] == was.contacts[id] && now.life == was.life)
    && (probed && !refused ==>
          && Means(before.stub, a, before.record, after.record, was.contacts[id].state, now.contacts[id].state)
          && now.life == was.life - if Turns(before.stub, a, was.contacts[id].state) then 1 else 0)
  }

  /** An update changes one contact only, and is refused exactly when it would change the state after a stop. */
  lemma LivenessFrame(m: C.Model, id: nat, active: bool)
    requires C.Bounded(m) && id < |m.contacts|
    ensures var r := C.Update(m, if active then Activated(id) else Deactivated(id));
            && |r.model.contacts| == |m.contacts|
            && (forall k :: 0 <= k < |m.contacts| && k != id ==> r.model.contacts[k] == m.contacts[k])
            && IsActive(r.model.contacts[id].state) == active
            && (!r.ok <==> IsActive(m.contacts[id].state) != active && m.life == 0)
            && r.model.life == (if r.ok && IsActive(m.contacts[id].state) != active then m.life - 1 else m.life)
  {
  }

  /** The three steps of `addNeighbor` without interruption. */
  function Greet(e: E.Engine, nickname: string, identity: string, address: string): E.Engine
    requires C.Bounded(e.contacts)
  {
    E.GreetFinishStep(E.GreetStoreStep(E.GreetBeginStep(e, nickname, identity, address)))
  }

  /** A probe of one contact. */
  datatype Shot = Shot(id: nat, probe: Probe)

  ghost predicate Shoots(e: E.Engine, shots: seq<Shot>, last: E.Engine)
    decreases |shots|
  {
    if shots == [] then last == e
    else
      && C.Bounded(e.contacts) && shots[0].id in e.dynamic && e.dynamic[shots[0].id].trials > 0
      && Shoots(E.ProbeStep(e, shots[0].id, shots[0].probe), shots[1..], last)
  }

  lemma {:induction false} ShootsSnoc(e: E.Engine, shots: seq<Shot>, mid: E.Engine, s: Shot)
    requires Shoots(e, shots, mid) && C.Bounded(mid.contacts) && s.id in mid.dynamic && mid.dynamic[s.id].trials > 0
    ensures Shoots(e, shots + [s], E.ProbeStep(mid, s.id, s.probe))
    decreases |shots|
  {
    if shots == [] {
      assert [s][1..] == [];
    } else {
      assert (shots + [s])[1..] == shots[1..] + [s];
      ShootsSnoc(E.ProbeStep(e, shots[0].id, shots[0].probe), shots[1..], mid, s);
    }
  }

  /** What the environment contributes to one pass: the answers, and how often the stop flag is still found lowered. */
  datatype Course = Course(neighbors: map<nat, DynamicNeighbor>, answers: nat -> Answer, life: nat)

  predicate IsDue(c: Course, id: nat)
  {
    id in c.neighbors && Rank(c.neighbors, id) < c.life && c.answers(id).expired && c.neighbors[id].record.trials > 0
  }

  function DueProbe(c: Course, id: nat): Probe
    requires id in c.neighbors
  {
    OutcomeOf(c.neighbors[id].stub, c.answers(id))
  }

  /** The probes one pass owes to the contacts below `limit`, in ascending order. */
  function DueShots(c: Course, limit: nat): seq<Shot>
  {
    if limit == 0 then []
    else DueShots(c, limit - 1) + if IsDue(c, limit - 1) then [Shot(limit - 1, DueProbe(c, limit - 1))] else []
  }

  /** `now` are the neighbours after those below `limit` have had their turn. */
  ghost predicate Served(c: Course, now: map<nat, DynamicNeighbor>, limit: nat)
  {
    && now.Keys == c.neighbors.Keys
    && (forall id {:trigger now[id]} :: id in now ==>
          now[id].record == if id < limit && IsDue(c, id) then Probed(c.neighbors[id].record, DueProbe(c, id))
                            else c.neighbors[id].record)
    && (forall id {:trigger now[id]} :: id in now && id >= limit ==> now[id] == c.neighbors[id])
  }

  /** `now` and `records` are contacts and records after the neighbours below `limit` have had their turn. */
  ghost predicate Told(c: Course, was: seq<C.Contact>, now: seq<C.Contact>, records: map<nat, Dynamic>, limit: nat)
  {
    && |now| == |was| && records.Keys == c.neighbors.Keys
    && forall k {:trigger ToldAt(c, was, now, records, limit, k)} :: 0 <= k < |was| ==> ToldAt(c, was, now, records, limit, k)
  }

  /** Whoever is due has been told what the answer means, and nobody else anything. */
  ghost predicate ToldAt(c: Course, was: seq<C.Contact>, now: seq<C.Contact>, records: map<nat, Dynamic>, limit: nat, k: nat)
    requires k < |was| == |now| && records.Keys == c.neighbors.Keys
  {
    if k < limit && k in c.neighbors && Rank(c.neighbors, k) < c.life && c.answers(k).expired && c.neighbors[k].record.trials > 0
    then Means(c.neighbors[k].stub, c.answers(k), c.neighbors[k].record, records[k], was[k].state, now[k].state)
    else now[k] == was[k]
  }

  lemma ToldNext(c: Course, was: seq<C.Contact>, mid: seq<C.Contact>, now: seq<C.Contact>,
                 before: map<nat, Dynamic>, records: map<nat, Dynamic>, id: nat)
    requires Told(c, was, mid, before, id) && id < |was| && |now| == |mid| && records.Keys == before.Keys
    requires forall k :: k in records && k != id ==> records[k] == before[k]
    requires forall k {:trigger now[k]} :: 0 <= k < |mid| && k != id ==> now[k] == mid[k]
    requires if IsDue(c, id)
             then Means(c.neighbors[id].stub, c.answers(id), c.neighbors[id].record, records[id], mid[id].state, now[id].state)
             else now[id] == mid[id]
    ensures Told(c, was, now, records, id + 1)
  {
    assert ToldAt(c, was, mid, before, id, id);
    forall k {:trigger ToldAt(c, was, now, records, id + 1, k)} | 0 <= k < |was| ensures ToldAt(c, was, now, records, id + 1, k) {
      assert ToldAt(c, was, mid, before, id, k);
    }
  }

  lemma ServedNext(c: Course, mid: map<nat, DynamicNeighbor>, now: map<nat, DynamicNeighbor>, id: nat)
    requires Served(c, mid, id) && now.Keys == mid.Keys
    requires forall k :: k in now && k != id ==> now[k] == mid[k]
    requires id in now ==>
               now[id].record == if IsDue(c, id) then Probed(mid[id].record, DueProbe(c, id)) else mid[id].record
    ensures Served(c, now, id + 1)
  {
    if id in now { assert mid[id] == c.neighbors[id]; }
  }

  /** Once the stop has landed nobody is probed any more. */
  lemma {:induction false} NobodyProbed(c: Course, now: map<nat, DynamicNeighbor>, id: nat, limit: nat)
    requires id <= limit && Rank(c.neighbors, id) >= c.life
    ensures DueShots(c, limit) == DueShots(c, id)
    ensures Served(c, now, id) ==> Served(c, now, limit)
    ensures Left(c.neighbors, c.life, limit) == 0
    decreases limit - id
  {
    RankGrows(c.neighbors, id, limit);
    if id < limit {
      NobodyProbed(c, now, id, limit - 1);
      RankGrows(c.neighbors, id, limit - 1);
    }
  }

  predicate Complete(nickname: string, identity: string, address: string)
  {
    nickname != "" && identity != "" && address != ""
  }

  predicate IsComplete(r: Reply)
  {
    Complete(r.nickname, r.identity, r.address)
  }

  /** What a greeting can come to: only a complete, positive answer is a welcome. */
  predicate ComesTo(g: Greeting, r: Reply)
  {
    && (g == NoGreet <==> !r.stubMade)
    && (g == Welcomed ==> r.status && IsComplete(r))
  }

  /** What `addNeighbor` leaves behind, its result, and whether it stops the broadcaster. */
  datatype Added = Added(engine: E.Engine, ok: bool, stop: bool)

  /** A known neighbour was heard of. */
  function Revived(e: E.Engine, id: nat): Added
    requires C.Bounded(e.contacts)
  {
    var r := C.Update(e.contacts, Activated(id));
    Added(e.(contacts := r.model), r.ok, !r.ok)
  }

  /** An unknown one: contact, conversation and probing record, in this order, up to the first refusal. */
  function Enlisted(e: E.Engine, nickname: string, identity: string, address: string): Added
  {
    var n := |e.contacts.contacts|;
    var c := C.Create(e.contacts, nickname, identity, address);
    var h := H.Create(e.chat, n);
    if !c.ok then Added(e.(contacts := c.model), false, false)
    else if !h.ok then Added(e.(contacts := c.model, chat := h.model), false, true)
    else
      Added(e.(contacts := c.model, chat := h.model, dynamic := if n in e.dynamic then e.dynamic else e.dynamic[n := NEWCOMER]),
            true, false)
  }

  /** All of `addNeighbor`, refusals included. */
  function Adding(e: E.Engine, nickname: string, identity: string, address: string): Added
    requires C.Bounded(e.contacts)
  {
    if !Complete(nickname, identity, address) then Added(e, false, false)
    else if E.Known(e, identity).Some? then Revived(e, E.Known(e, identity).value)
    else if !CR.Fits(nickname) then Added(E.Aborted(e), false, true)
    else Enlisted(e, nickname, identity, address)
  }

  lemma RevivedFacts(e: E.Engine, id: nat)
    requires E.Inv(e) && id < |e.contacts.contacts|
    ensures var r := Revived(e, id);
            && E.Inv(r.engine)
            && (r.ok <==> !r.stop) && (r.stop ==> r.engine.contacts.life == 0) && (E.Running(e) ==> r.ok)
            && (r.ok ==> r.engine == E.WithContacts(e, C.Update(e.contacts, Activated(id))))
  {
    E.ContactsUpdateKeeps(e, Activated(id));
    AcceptedExactly(e.contacts.contacts[id].state, id);
  }

  /** The stages of adding an unknown neighbour, and how each of them can fail. */
  lemma EnlistedFacts(e: E.Engine, nickname: string, identity: string, address: string)
    requires E.Inv(e) && e.adding == E.Free && E.Known(e, identity).None?
    requires Complete(nickname, identity, address) && CR.Fits(nickname)
    ensures var r := Enlisted(e, nickname, identity, address);
            && E.Inv(r.engine)
            && (r.stop ==> r.engine.chat.life == 0 || r.engine.contacts.life == 0)
            && (E.Running(e) ==> r.ok)
            && (r.ok ==> !r.stop && r.engine == Greet(e, nickname, identity, address))
  {
    var begun := E.GreetBeginStep(e, nickname, identity, address);
    E.GreetBeginKeeps(e, nickname, identity, address);
    if begun.adding.Created? {
      E.LookupIsLast(begun.contacts, identity);
      E.StoreFailsOnlyWhenStopped(begun);
      E.GreetStoreKeeps(begun);
      E.GreetFinishKeeps(E.GreetStoreStep(begun));
    }
  }

  /** The index finds the new contact. */
  lemma NewcomerIsFound(m: C.Model, nickname: string, identity: string, address: string)
    ensures C.Lookup(C.Create(m, nickname, identity, address).model.identities, identity) == Some(|m.contacts|)
  {
  }

  /**
   When `addNeighbor` succeeds, the contact, its conversation and its probing record have been created
   together, or the known contact has been activated. While both handlers run it succeeds exactly for
   complete data of a known identity or with a nickname that fits. It stops the broadcaster only
   when a handler has stopped too.
   */
  lemma AddingExactly(e: E.Engine, nickname: string, identity: string, address: string)
    requires E.Inv(e) && e.adding == E.Free
    ensures var r := Adding(e, nickname, identity, address);
            && E.Inv(r.engine)
            && (r.ok ==> !r.stop && r.engine == Greet(e, nickname, identity, address))
            && (r.stop ==> !E.Running(r.engine))
            && (r.ok ==> Complete(nickname, identity, address))
            && (E.Running(e) ==>
                  (r.ok <==> Complete(nickname, identity, address) && (E.Known(e, identity).Some? || CR.Fits(nickname))))
  {
    if Complete(nickname, identity, address) {
      E.KnownIsContact(e, identity);
      if E.Known(e, identity).Some? {
        RevivedFacts(e, E.Known(e, identity).value);
      } else if !CR.Fits(nickname) {
        E.StopKeepsInv(e);
      } else {
        EnlistedFacts(e, nickname, identity, address);
      }
    }
  }

  /** The stages of a probe. */
  lemma ProbeFacts(e: E.Engine, id: nat, probe: Probe)
    requires E.Inv(e) && e.adding == E.Free && id in e.dynamic && e.dynamic[id].trials > 0
    ensures var r := C.Update(e.contacts, if probe == Answered then Activated(id) else Deactivated(id));
            && (!r.ok ==> r.model.life == 0 && e.contacts.life == 0)
            && E.Inv(e.(contacts := r.model))
            && E.Inv(E.ProbeStep(e, id, probe))
            && (probe == NoStub || r.ok ==>
                  E.ProbeStep(e, id, probe) ==
                  e.(contacts := if probe == NoStub then e.contacts else r.model,
                     dynamic := e.dynamic[id := Probed(e.dynamic[id], probe)]))
  {
    var ev := if probe == Answered then Activated(id) else Deactivated(id);
    E.ContactsUpdateKeeps(e, ev);
    E.ProbeKeeps(e, id, probe);
    AcceptedExactly(e.contacts.contacts[id].state, id);
  }

  /**
   The pass comes as far as neighbour `at`, whose probe is due and has to change its contact, and there
   the contacts handler has been stopped.
   */
  ghost predicate Refuses(start: E.Engine, c: Course, at: nat, mid: E.Engine)
  {
    && Shoots(start, DueShots(c, at), mid) && IsDue(c, at) && mid.contacts.life == 0 && at < |mid.contacts.contacts|
    && Turns(c.neighbors[at].stub, c.answers(at), mid.contacts.contacts[at].state)
  }

  /** What has become of the records when the neighbours below `limit` have had their turn, none of them refused. */
  ghost predicate Recorded(c: Course, records: map<nat, Dynamic>, limit: nat)
  {
    && records.Keys == c.neighbors.Keys
    && forall id {:trigger RecordedAt(c, records, limit, id)} :: id in records ==> RecordedAt(c, records, limit, id)
  }

  predicate RecordedAt(c: Course, records: map<nat, Dynamic>, limit: nat, id: nat)
    requires id in records && records.Keys == c.neighbors.Keys
  {
    records[id] == if id < limit && IsDue(c, id) then Probed(c.neighbors[id].record, DueProbe(c, id)) else c.neighbors[id].record
  }

  lemma {:induction false} ShootsLast(e: E.Engine, shots: seq<Shot>, s: Shot, last: E.Engine) returns (mid: E.Engine)
    requires Shoots(e, shots + [s], last)
    ensures Shoots(e, shots, mid) && C.Bounded(mid.contacts) && s.id in mid.dynamic && mid.dynamic[s.id].trials > 0
    ensures last == E.ProbeStep(mid, s.id, s.probe)
    decreases |shots|
  {
    if shots == [] {
      mid := e;
      assert ([] + [s])[1..] == [];
    } else {
      assert (shots + [s])[1..] == shots[1..] + [s];
      mid := ShootsLast(E.ProbeStep(e, shots[0].id, shots[0].probe), shots[1..], s, last);
    }
  }

  /** What one probe that was not refused does to the contacts. */
  lemma ShotTells(e: E.Engine, id: nat, stub: bool, a: Answer)
    requires E.Inv(e) && e.adding == E.Free && id in e.dynamic && e.dynamic[id].trials > 0
    requires E.ProbeStep(e, id, OutcomeOf(stub, a)).dynamic[id] == Probed(e.dynamic[id], OutcomeOf(stub, a))
    ensures var t := E.ProbeStep(e, id, OutcomeOf(stub, a));
            && t.adding == E.Free && t.dynamic == e.dynamic[id := t.dynamic[id]]
            && id < |e.contacts.contacts| == |t.contacts.contacts|
            && (forall k :: 0 <= k < |e.contacts.contacts| && k != id ==> t.contacts.contacts[k] == e.contacts.contacts[k])
            && Means(stub, a, e.dynamic[id], t.dynamic[id], e.contacts.contacts[id].state, t.contacts.contacts[id].state)
  {
    ProbeFacts(e, id, OutcomeOf(stub, a));
    LivenessFrame(e.contacts, id, IsPositive(a));
    assert |Probed(e.dynamic[id], OutcomeOf(stub, a)).probes| > |e.dynamic[id].probes|;
  }

  lemma ShotKeepsInv(e: E.Engine, id: nat, probe: Probe)
    requires E.Inv(e)
    ensures E.Inv(E.ProbeStep(e, id, probe)) && E.ProbeStep(e, id, probe).adding == e.adding
    ensures forall k :: k in e.dynamic && k != id ==>
              k in E.ProbeStep(e, id, probe).dynamic && E.ProbeStep(e, id, probe).dynamic[k] == e.dynamic[k]
    ensures E.ProbeStep(e, id, probe).dynamic.Keys == e.dynamic.Keys
  {
    E.ProbeKeeps(e, id, probe);
  }

  /** The probes of a pass leave the records of later neighbours alone. */
  lemma {:induction false} ShotsSpare(start: E.Engine, c: Course, limit: nat, last: E.Engine)
    requires E.Inv(start) && Shoots(start, DueShots(c, limit), last)
    ensures E.Inv(last) && last.adding == start.adding && last.dynamic.Keys == start.dynamic.Keys
    ensures forall id :: id in start.dynamic && id >= limit ==> last.dynamic[id] == start.dynamic[id]
  {
    if limit > 0 {
      var id := limit - 1;
      if IsDue(c, id) {
        var mid := ShootsLast(start, DueShots(c, id), Shot(id, DueProbe(c, id)), last);
        ShotsSpare(start, c, id, mid);
        ShotKeepsInv(mid, id, DueProbe(c, id));
      } else {
        assert DueShots(c, id) + [] == DueShots(c, id);
        ShotsSpare(start, c, id, last);
      }
    }
  }

  /** The last turn of a pass, and the engine before it. */
  lemma LastTurn(start: E.Engine, c: Course, id: nat, last: E.Engine) returns (mid: E.Engine)
    requires E.Inv(start) && start.adding == E.Free && id < |start.contacts.contacts|
    requires Recorded(c, start.dynamic, 0) && Shoots(start, DueShots(c, id + 1), last) && Recorded(c, last.dynamic, id + 1)
    ensures Shoots(start, DueShots(c, id), mid) && Recorded(c, mid.dynamic, id)
    ensures var was := start.contacts.contacts;
            Told(c, was, mid.contacts.contacts, mid.dynamic, id) ==> Told(c, was, last.contacts.contacts, last.dynamic, id + 1)
  {
    var was := start.contacts.contacts;
    if IsDue(c, id) {
      mid := ShootsLast(start, DueShots(c, id), Shot(id, DueProbe(c, id)), last);
      ShotsSpare(start, c, id, mid);
      assert RecordedAt(c, start.dynamic, 0, id);
      MidIsRecorded(c, mid, last, id);
      if Told(c, was, mid.contacts.contacts, mid.dynamic, id) { DueIsTold(c, was, mid, last, id); }
    } else {
      mid := last;
      assert DueShots(c, id) + [] == DueShots(c, id);
      NotDueIsRecorded(c, last.dynamic, id);
      if Told(c, was, last.contacts.contacts, last.dynamic, id) {
        ToldNext(c, was, last.contacts.contacts, last.contacts.contacts, last.dynamic, last.dynamic, id);
      }
    }
  }

  /** The probes of a pass tell every contact what its neighbour's answer means. */
  lemma {:induction false} ShotsTell(start: E.Engine, c: Course, limit: nat, last: E.Engine)
    requires E.Inv(start) && start.adding == E.Free && limit <= |start.contacts.contacts|
    requires Recorded(c, start.dynamic, 0) && Shoots(start, DueShots(c, limit), last) && Recorded(c, last.dynamic, limit)
    ensures Told(c, start.contacts.contacts, last.contacts.contacts, last.dynamic, limit)
  {
    if limit == 0 {
      NothingTold(c, start.contacts.contacts, last.dynamic);
    } else {
      var mid := LastTurn(start, c, limit - 1, last);
      ShotsTell(start, c, limit - 1, mid);
    }
  }

  lemma NothingTold(c: Course, was: seq<C.Contact>, records: map<nat, Dynamic>)
    requires records.Keys == c.neighbors.Keys
    ensures Told(c, was, was, records, 0)
  {
    forall k {:trigger ToldAt(c, was, was, records, 0, k)} | 0 <= k < |was| ensures ToldAt(c, was, was, records, 0, k) { }
  }

  lemma DueIsTold(c: Course, was: seq<C.Contact>, mid: E.Engine, last: E.Engine, id: nat)
    requires E.Inv(mid) && mid.adding == E.Free && IsDue(c, id) && id < |was|
    requires Told(c, was, mid.contacts.contacts, mid.dynamic, id) && Recorded(c, mid.dynamic, id)
    requires last == E.ProbeStep(mid, id, DueProbe(c, id)) && Recorded(c, last.dynamic, id + 1)
    ensures Told(c, was, last.contacts.contacts, last.dynamic, id + 1)
  {
    assert RecordedAt(c, mid.dynamic, id, id) && RecordedAt(c, last.dynamic, id + 1, id);
    ShotTells(mid, id, c.neighbors[id].stub, c.answers(id));
    ToldNext(c, was, mid.contacts.contacts, last.contacts.contacts, mid.dynamic, last.dynamic, id);
  }

  lemma NotDueIsRecorded(c: Course, records: map<nat, Dynamic>, id: nat)
    requires !IsDue(c, id) && Recorded(c, records, id + 1)
    ensures Recorded(c, records, id)
  {
    forall k {:trigger RecordedAt(c, records, id, k)} | k in records ensures RecordedAt(c, records, id, k) {
      assert RecordedAt(c, records, id + 1, k);
    }
  }

  lemma RecordsAreServed(c: Course, neighbors: map<nat, DynamicNeighbor>, records: map<nat, Dynamic>, limit: nat)
    requires Served(c, neighbors, limit) && records.Keys == neighbors.Keys
    requires forall id {:trigger records[id]} :: id in records ==> records[id] == neighbors[id].record
    ensures Recorded(c, records, limit)
  {
    forall k {:trigger RecordedAt(c, records, limit, k)} | k in records ensures RecordedAt(c, records, limit, k) {
      assert records[k] == neighbors[k].record;
    }
  }

  lemma MidIsRecorded(c: Course, mid: E.Engine, last: E.Engine, id: nat)
    requires IsDue(c, id) && C.Bounded(mid.contacts) && id in mid.dynamic
    requires last == E.ProbeStep(mid, id, DueProbe(c, id)) && Recorded(c, last.dynamic, id + 1)
    requires mid.dynamic[id] == c.neighbors[id].record
    ensures Recorded(c, mid.dynamic, id)
  {
    forall k {:trigger RecordedAt(c, mid.dynamic, id, k)} | k in mid.dynamic ensures RecordedAt(c, mid.dynamic, id, k) {
      assert RecordedAt(c, last.dynamic, id + 1, k);
      assert k != id ==> last.dynamic[k] == mid.dynamic[k];
    }
  }

  /**
   The turn of one static neighbour: it is greeted when it has trials left and its time has come, and
   what it answers is added; only the addition changes the engine or stops the broadcaster.
   */
  ghost predicate OneGreeted(before: Static, now: Static, r: Reply, e: E.Engine, t: E.Engine, life: nat, left: nat)
    requires C.Bounded(e.contacts)
  {
    var due := before.trials > 0 && r.expired;
    var offered := due && r.stubMade && r.status;
    var a := Adding(e, r.nickname, r.identity, r.address);
    && t == (if offered then a.engine else e)
    && left == (if offered && a.stop then 0 else life)
    && now == if !due then before
              else Greeted(before, if !r.stubMade then NoGreet else if offered && a.ok then Welcomed else Refused)
  }

  /** The engines and the reads of the stop flag left, from one turn of a pass to the next. */
  datatype Trail = Trail(engines: seq<E.Engine>, lives: seq<nat>)

  ghost predicate Greets(before: seq<StaticNeighbor>, now: seq<StaticNeighbor>, replies: nat -> Reply, trail: Trail)
  {
    && 1 <= |trail.engines| == |trail.lives| <= |before| + 1 && |now| == |before|
    && forall k {:trigger GreetsAt(before, now, replies, trail, k)} :: 0 <= k < |trail.engines| - 1 ==> GreetsAt(before, now, replies, trail, k)
  }

  ghost predicate GreetsAt(before: seq<StaticNeighbor>, now: seq<StaticNeighbor>, replies: nat -> Reply, trail: Trail, k: nat)
    requires k + 1 < |trail.engines| == |trail.lives| && k < |now| == |before|
  {
    && C.Bounded(trail.engines[k].contacts) && trail.lives[k] > 0 && now[k].address == before[k].address
    && OneGreeted(before[k].record, now[k].record, replies(k),
                  trail.engines[k], trail.engines[k + 1], trail.lives[k] - 1, trail.lives[k + 1])
  }

  lemma GreetsOn(before: seq<StaticNeighbor>, now: seq<StaticNeighbor>, later: seq<StaticNeighbor>, replies: nat -> Reply,
                 trail: Trail, t: E.Engine, left: nat)
    requires Greets(before, now, replies, trail) && |trail.engines| <= |before| == |later|
    requires var k := |trail.engines| - 1;
             && C.Bounded(trail.engines[k].contacts) && trail.lives[k] > 0 && later[k].address == before[k].address
             && OneGreeted(before[k].record, later[k].record, replies(k), trail.engines[k], t, trail.lives[k] - 1, left)
    requires forall k :: 0 <= k < |trail.engines| - 1 ==> later[k] == now[k]
    ensures Greets(before, later, replies, Trail(trail.engines + [t], trail.lives + [left]))
  {
    var longer := Trail(trail.engines + [t], trail.lives + [left]);
    forall k | 0 <= k < |trail.engines| ensures GreetsAt(before, later, replies, longer, k) {
      if k < |trail.engines| - 1 { assert GreetsAt(before, now, replies, trail, k); }
    }
  }

  class Broadcaster {
    const mContactsHandler: C.ContactsHandler
    const mChatHandler: H.ChatHandler
    const mHostAddress: string
    var mStaticNeighbors: seq<StaticNeighbor>
    var mDynamicNeighbors: map<nat, DynamicNeighbor>
    var life: nat

    ghost function Records(): map<nat, Dynamic>
      reads this`mDynamicNeighbors
    {
      map id | id in mDynamicNeighbors :: mDynamicNeighbors[id].record
    }

    ghost function View(): E.Engine
      reads this`mDynamicNeighbors, mContactsHandler, mChatHandler
    {
      E.Engine(mContactsHandler.State(), mChatHandler.State(), mHostAddress, E.Free, E.Quiet, [], Records())
    }

    constructor (contacts: C.ContactsHandler, chat: H.ChatHandler, host: string, neighbors: seq<string>, life: nat)
      ensures mDynamicNeighbors == map[] && this.life == life
      ensures mContactsHandler == contacts && mChatHandler == chat && mHostAddress == host
      ensures |mStaticNeighbors| == |neighbors|
      ensures forall i :: 0 <= i < |neighbors| ==> mStaticNeighbors[i] == StaticNeighbor(UNTRIED, neighbors[i])
    {
      mContactsHandler, mChatHandler, mHostAddress := contacts, chat, host;
      mStaticNeighbors := seq(|neighbors|, i requires 0 <= i < |neighbors| => StaticNeighbor(UNTRIED, neighbors[i]));
      mDynamicNeighbors := map[];
      this.life := life;
    }

    method IsStopped() returns (stopped: bool)
      modifies this`life
      ensures stopped == (old(life) == 0)
      ensures life == if stopped then 0 else old(life) - 1
    {
      stopped := life == 0;
      if !stopped { life := life - 1; }
    }

    /** The failing assertion of `setNickname`, which ends the process. */
    method Abort()
      modifies this`life, mContactsHandler, mChatHandler
      ensures life == 0 && View() == E.Aborted(old(View()))
    {
      mContactsHandler.Stop();
      mChatHandler.Stop();
      life := 0;
    }

    method Revive(id: nat) returns (ok: bool)
      requires C.Bounded(mContactsHandler.State())
      modifies this`life, mContactsHandler
      ensures var r := Revived(old(View()), id);
              View() == r.engine && ok == r.ok && life == if r.stop then 0 else old(life)
    {
      ghost var e := View();
      ok := mContactsHandler.Activate(id);
      assert View() == e.(contacts := mContactsHandler.State());
      if !ok { life := 0; }
    }

    /** `addNeighbor`. */
    method AddNeighbor(nickname: string, identity: string, address: string, stub: bool) returns (ok: bool)
      requires E.Inv(View())
      modifies this`mDynamicNeighbors, this`life, mContactsHandler, mChatHandler
      ensures E.Inv(View())
      ensures var r := Adding(old(View()), nickname, identity, address);
              View() == r.engine && ok == r.ok && life == if r.stop then 0 else old(life)
    {
      AddingExactly(View(), nickname, identity, address);
      if nickname == "" || identity == "" || address == "" { return false; }
      var id := mContactsHandler.Find(identity);
      if id != None {
        ok := Revive(id.value);
        return;
      }
      if !CR.Fits(nickname) {
        Abort();
        return false;
      }
      ok := Enlist(nickname, identity, address, stub);
    }

    /** The part of `addNeighbor` that creates a contact not known so far: three writes, in the source's order. */
    method Enlist(nickname: string, identity: string, address: string, stub: bool) returns (ok: bool)
      requires CR.Fits(nickname)
      modifies this`mDynamicNeighbors, this`life, mContactsHandler, mChatHandler
      ensures var r := Enlisted(old(View()), nickname, identity, address);
              View() == r.engine && ok == r.ok && life == if r.stop then 0 else old(life)
    {
      ghost var e := View();
      NewcomerIsFound(e.contacts, nickname, identity, address);
      ok := mContactsHandler.CreateContact(nickname, identity, address);
      if !ok { return; }
      var id := mContactsHandler.Find(identity);
      ok := mChatHandler.CreateStorage(id.value);
      if !ok { life := 0; return; }
      if id.value !in mDynamicNeighbors {
        mDynamicNeighbors := mDynamicNeighbors[id.value := DynamicNeighbor(NEWCOMER, stub)];
        assert Records() == e.dynamic[id.value := NEWCOMER];
      }
    }

    /** `handleGreet`: the neighbour came to us, so there is no stub yet. */
    method HandleGreet(nickname: string, identity: string, address: string) returns (ok: bool)
      requires E.Inv(View())
      modifies this`mDynamicNeighbors, this`life, mContactsHandler, mChatHandler
      ensures E.Inv(View())
      ensures var r := Adding(old(View()), nickname, identity, address);
              View() == r.engine && ok == r.ok && life == if r.stop then 0 else old(life)
    {
      ok := AddNeighbor(nickname, identity, address, false);
    }

    /** `handleHeartbeat`: activates a known contact; its probing counter is left alone. */
    method HandleHeartbeat(identity: string) returns (ok: bool)
      requires E.Inv(View())
      modifies this`life, mContactsHandler
      ensures E.Inv(View()) && View().dynamic == old(View()).dynamic
      ensures var id := E.Known(old(View()), identity);
              var r := if id.None? then Added(old(View()), false, false) else Revived(old(View()), id.value);
              View() == r.engine && ok == r.ok && life == if r.stop then 0 else old(life)
      ensures ok ==> View() == E.HeartbeatStep(old(View()), identity)
      ensures E.Running(old(View())) ==> (ok <==> E.Known(old(View()), identity).Some?)
    {
      ghost var e := View();
      E.KnownIsContact(e, identity);
      var id := mContactsHandler.Find(identity);
      if id == None { return false; }
      RevivedFacts(e, id.value);
      ok := Revive(id.value);
    }

    /**
     The body of the dynamic loop for one neighbour; `Some` when it was probed, `refused` when the
     contacts refused its outcome, which takes a stopped handler and ends the loop.
     */
    method ProbeOne(id: nat, a: Answer) returns (probe: Option<Probe>, refused: bool)
      requires E.Inv(View()) && id in mDynamicNeighbors
      modifies this`mDynamicNeighbors, this`life, mContactsHandler
      ensures E.Inv(View()) && mDynamicNeighbors.Keys == old(mDynamicNeighbors.Keys)
      ensures forall k :: k in mDynamicNeighbors && k != id ==> mDynamicNeighbors[k] == old(mDynamicNeighbors)[k]
      ensures probe.Some? <==> a.expired && old(mDynamicNeighbors[id].record.trials) > 0
      ensures probe.Some? ==> probe.value == OutcomeOf(old(mDynamicNeighbors[id].stub), a)
      ensures probe.None? ==> !refused && mDynamicNeighbors == old(mDynamicNeighbors) && View() == old(View())
      ensures probe.Some? && !refused ==>
                && mDynamicNeighbors[id].record == Probed(old(mDynamicNeighbors[id].record), probe.value)
                && View() == E.ProbeStep(old(View()), id, probe.value)
      ensures refused ==> life == 0 && View().contacts.life == 0 && !E.Running(old(View()))
      ensures !refused ==> life == old(life)
      ensures OneTold(old(View()).contacts, View().contacts, id, a, old(mDynamicNeighbors[id]), mDynamicNeighbors[id], probe.Some?, refused)
      ensures probe.Some? && !refused ==> mDynamicNeighbors[id].stub == IsAsked(old(mDynamicNeighbors[id]).stub, a)
    {
      probe, refused := None, false;
      assert id in View().dynamic;
      if !a.expired { return; }
      if mDynamicNeighbors[id].record.trials == 0 { return; }
      ProbeFacts(View(), id, OutcomeOf(mDynamicNeighbors[id].stub, a));
      LivenessFrame(View().contacts, id, IsPositive(a));
      var outcome;
      outcome, refused := ProbeSteps(id, a);
      probe := Some(outcome);
    }

    /** A probe: stub, heartbeat, contact, counter. */
    method ProbeSteps(id: nat, a: Answer) returns (outcome: Probe, refused: bool)
      requires C.Bounded(mContactsHandler.State())
      requires id in mDynamicNeighbors && mDynamicNeighbors[id].record.trials > 0
      modifies this`mDynamicNeighbors, this`life, mContactsHandler
      ensures mDynamicNeighbors.Keys == old(mDynamicNeighbors.Keys)
      ensures forall k :: k in mDynamicNeighbors && k != id ==> mDynamicNeighbors[k] == old(mDynamicNeighbors)[k]
      ensures !refused ==> mDynamicNeighbors[id].record == Probed(old(mDynamicNeighbors[id].record), outcome)
      ensures !refused ==> mDynamicNeighbors[id].stub == IsAsked(old(mDynamicNeighbors[id].stub), a)
      ensures outcome == OutcomeOf(old(mDynamicNeighbors[id].stub), a)
      ensures var e := old(View());
              var r := C.Update(e.contacts, if outcome == Answered then Activated(id) else Deactivated(id));
              && (refused <==> outcome != NoStub && !r.ok)
              && (if refused then life == 0 && View() == e.(contacts := r.model)
                  else
                    && life == old(life)
                    && View() == e.(contacts := if outcome == NoStub then e.contacts else r.model,
                                    dynamic := e.dynamic[id := Probed(e.dynamic[id], outcome)]))
    {
      ghost var e := View();
      refused := false;
      var neighbor := mDynamicNeighbors[id];
      var stub := neighbor.stub || a.stubMade;
      var trials := neighbor.record.trials;
      outcome := NoStub;
      if stub {
        var ok;
        if a.status && a.identity != "" {
          outcome := Answered;
          trials := INACTIVITY_TRIALS + 1;
          ok := mContactsHandler.Activate(id);
        } else {
          outcome := Silent;
          ok := mContactsHandler.Deactivate(id);
        }
        if !ok {
          // The topped-up counter is not looked at any more.
          life := 0;
          return outcome, true;
        }
      }
      trials := trials - 1;
      var record := Dynamic(trials, neighbor.record.probes + [outcome]);
      mDynamicNeighbors := mDynamicNeighbors[id := DynamicNeighbor(record, stub)];
      assert Records() == e.dynamic[id := Probed(neighbor.record, outcome)];
    }

    /** Where a pass stands before the turn of `id`. */
    ghost predicate InPass(start: E.Engine, c: Course, id: nat)
      reads this`mDynamicNeighbors, this`life, mContactsHandler, mChatHandler
    {
      && Shoots(start, DueShots(c, id), View()) && Served(c, mDynamicNeighbors, id)
      && Rank(c.neighbors, id) <= c.life && life == c.life - Rank(c.neighbors, id)
    }

    /**
     One pass of `resolveDynamicNeighbors`: every neighbour whose time has come is probed once, up to
     the moment at which the stop lands, and contact and counter become what its answer means. It ends early
     only when a contact has to change and the contacts handler has been stopped: that of neighbour `at`, in
     state `mid` of the engine.
     */
    method ProbePass(answers: nat -> Answer) returns (refused: bool, ghost at: nat, ghost mid: E.Engine)
      requires E.Inv(View())
      modifies this`mDynamicNeighbors, this`life, mContactsHandler
      ensures E.Inv(View()) && mDynamicNeighbors.Keys == old(mDynamicNeighbors.Keys)
      ensures refused ==> life == 0 && Refuses(old(View()), Course(old(mDynamicNeighbors), answers, old(life)), at, mid)
      ensures !refused ==>
                var limit := |old(mContactsHandler.mContacts)|;
                var c := Course(old(mDynamicNeighbors), answers, old(life));
                && Shoots(old(View()), DueShots(c, limit), View())
                && Served(c, mDynamicNeighbors, limit)
                && life == Left(c.neighbors, c.life, limit)
                && Told(c, old(View()).contacts.contacts, View().contacts.contacts, Records(), limit)
    {
      ghost var start, c := View(), Course(mDynamicNeighbors, answers, life);
      RecordsAreServed(c, mDynamicNeighbors, Records(), 0);
      refused, at, mid := ProbeAll(answers);
      if !refused {
        RecordsAreServed(c, mDynamicNeighbors, Records(), |start.contacts.contacts|);
        ShotsTell(start, c, |start.contacts.contacts|, View());
      }
    }

    /** The loop of a pass. */
    method ProbeAll(answers: nat -> Answer) returns (refused: bool, ghost at: nat, ghost mid: E.Engine)
      requires E.Inv(View())
      modifies this`mDynamicNeighbors, this`life, mContactsHandler
      ensures E.Inv(View()) && mDynamicNeighbors.Keys == old(mDynamicNeighbors.Keys)
      ensures refused ==> life == 0 && Refuses(old(View()), Course(old(mDynamicNeighbors), answers, old(life)), at, mid)
      ensures !refused ==>
                var limit := |old(mContactsHandler.mContacts)|;
                var c := Course(old(mDynamicNeighbors), answers, old(life));
                && Shoots(old(View()), DueShots(c, limit), View())
                && Served(c, mDynamicNeighbors, limit)
                && life == Left(c.neighbors, c.life, limit)
    {
      var limit := mContactsHandler.Size();
      ghost var start, c := View(), Course(mDynamicNeighbors, answers, life);
      at, mid := 0, start;
      for id := 0 to limit
        invariant E.Inv(View()) && InPass(start, c, id)
      {
        var over;
        over, refused, mid := ProbeNext(id, answers, start, c);
        if refused {
          at := id;
          return;
        }
        if over {
          NobodyProbed(c, mDynamicNeighbors, id, limit);
          return;
        }
      }
      refused := false;
    }

    /** The loop body: a neighbour that is not known, not due or exhausted is left alone. */
    method ProbeNext(id: nat, answers: nat -> Answer, ghost start: E.Engine, ghost c: Course)
      returns (over: bool, refused: bool, ghost mid: E.Engine)
      requires E.Inv(View()) && InPass(start, c, id) && c.answers == answers
      modifies this`mDynamicNeighbors, this`life, mContactsHandler
      ensures E.Inv(View()) && mDynamicNeighbors.Keys == c.neighbors.Keys
      ensures refused ==> life == 0 && Refuses(start, c, id, mid)
      ensures over && !refused ==> InPass(start, c, id) && Rank(c.neighbors, id) == c.life
      ensures !over && !refused ==> InPass(start, c, id + 1)
    {
      ghost var past, known := DueShots(c, id), mDynamicNeighbors;
      mid := View();
      assert past + [] == past;
      assert id in known ==> known[id] == c.neighbors[id];
      over, refused := false, false;
      if id in mDynamicNeighbors {
        over := IsStopped();
        if over { return; }
        var probe;
        probe, refused := ProbeOne(id, answers(id));
        if refused { return; }
        if probe.Some? { ShootsSnoc(start, past, mid, Shot(id, probe.value)); }
      }
      ServedNext(c, known, mDynamicNeighbors, id);
    }

    /** The body of the static loop for one neighbour. */
    method GreetOne(i: nat, r: Reply) returns (greeting: Option<Greeting>)
      requires E.Inv(View()) && i < |mStaticNeighbors|
      modifies this, mContactsHandler, mChatHandler
      ensures E.Inv(View())
      ensures greeting.Some? <==> r.expired && old(mStaticNeighbors[i].record.trials) > 0
      ensures mStaticNeighbors == old(mStaticNeighbors)[i := old(mStaticNeighbors[i]).(
                record := if greeting.Some? then Greeted(old(mStaticNeighbors[i].record), greeting.value)
                          else old(mStaticNeighbors[i].record))]
      ensures greeting.Some? ==> ComesTo(greeting.value, r)
      ensures var added := greeting.Some? && r.stubMade && r.status;
              var a := Adding(old(View()), r.nickname, r.identity, r.address);
              && (greeting == Some(Welcomed) <==> added && a.ok)
              && View() == (if added then a.engine else old(View()))
              && life == if added && a.stop then 0 else old(life)
      ensures life == old(life) || (life == 0 && !E.Running(View()))
      ensures E.Running(old(View())) && greeting.Some? ==>
                (greeting.value == Welcomed <==>
                   r.stubMade && r.status && IsComplete(r)
                   && (CR.Fits(r.nickname) || E.Known(old(View()), r.identity).Some?))
    {
      greeting := None;
      var neighbor := mStaticNeighbors[i];
      if neighbor.record.trials == 0 || !r.expired { return; }
      var trials := neighbor.record.trials - 1;
      var outcome := NoGreet;
      if r.stubMade {
        outcome := Refused;
        if r.status {
          AddingExactly(View(), r.nickname, r.identity, r.address);
          var added := AddNeighbor(r.nickname, r.identity, r.address, true);
          if added {
            trials := 0;
            outcome := Welcomed;
          }
        }
      }
      mStaticNeighbors := mStaticNeighbors[i := neighbor.(record := Static(trials, neighbor.record.attempts + [outcome]))];
      return Some(outcome);
    }

    /** The loop body. */
    method GreetNext(i: nat, replies: nat -> Reply, ghost before: seq<StaticNeighbor>, ghost trail: Trail)
      returns (over: bool, tried: bool, ghost longer: Trail)
      requires E.Inv(View()) && i < |mStaticNeighbors| == |before| && mStaticNeighbors[i] == before[i]
      requires Greets(before, mStaticNeighbors, replies, trail) && |trail.engines| == i + 1
      requires trail.engines[i] == View() && trail.lives[i] == life
      modifies this, mContactsHandler, mChatHandler
      ensures E.Inv(View()) && |mStaticNeighbors| == |before| && (over <==> old(life) == 0)
      ensures Greets(before, mStaticNeighbors, replies, longer)
      ensures |mStaticNeighbors| == |old(mStaticNeighbors)|
      ensures forall k :: 0 <= k < |before| && (over || k != i) ==> mStaticNeighbors[k] == old(mStaticNeighbors)[k]
      ensures over ==> longer == trail && View() == old(View()) && life == 0
      ensures !over ==> longer == Trail(trail.engines + [View()], trail.lives + [life])
      ensures !over ==> (tried <==> before[i].record.trials > 0)
    {
      tried, longer := false, trail;
      over := IsStopped();
      if over { return; }
      ghost var known := mStaticNeighbors;
      tried := GreetTurn(i, replies(i));
      GreetsOn(before, known, mStaticNeighbors, replies, trail, View(), life);
      longer := Trail(trail.engines + [View()], trail.lives + [life]);
    }

    /** The loop body, after its look at the stop flag. */
    method GreetTurn(i: nat, r: Reply) returns (tried: bool)
      requires E.Inv(View()) && i < |mStaticNeighbors|
      modifies this, mContactsHandler, mChatHandler
      ensures E.Inv(View()) && |mStaticNeighbors| == |old(mStaticNeighbors)|
      ensures forall k :: 0 <= k < |mStaticNeighbors| && k != i ==> mStaticNeighbors[k] == old(mStaticNeighbors)[k]
      ensures mStaticNeighbors[i].address == old(mStaticNeighbors)[i].address
      ensures OneGreeted(old(mStaticNeighbors)[i].record, mStaticNeighbors[i].record, r, old(View()), View(), old(life), life)
      ensures tried <==> old(mStaticNeighbors)[i].record.trials > 0
    {
      tried := mStaticNeighbors[i].record.trials > 0;
      if tried {
        var greeting := GreetOne(i, r);
      }
    }

    /**
     One pass of `resolveStaticNeighbors`: whoever has trials left and whose time has come is greeted
     once, up to the moment at which the stop lands; `turns` neighbours had their turn. The loop
     is left exactly when none of them had trials left.
     */
    method GreetPass(replies: nat -> Reply) returns (resolved: bool, turns: nat, ghost trail: Trail)
      requires E.Inv(View())
      modifies this, mContactsHandler, mChatHandler
      ensures E.Inv(View()) && |mStaticNeighbors| == |old(mStaticNeighbors)|
      ensures Greets(old(mStaticNeighbors), mStaticNeighbors, replies, trail) && |trail.engines| == turns + 1
      ensures trail.engines[0] == old(View()) && trail.engines[turns] == View()
      ensures trail.lives[0] == old(life) && trail.lives[turns] == life
      ensures turns <= |mStaticNeighbors| && (turns < |mStaticNeighbors| ==> life == 0)
      ensures mStaticNeighbors[turns..] == old(mStaticNeighbors)[turns..]
      ensures resolved <==> forall i :: 0 <= i < turns ==> old(mStaticNeighbors)[i].record.trials == 0
    {
      resolved, turns, trail := true, 0, Trail([View()], [life]);
      ghost var before := mStaticNeighbors;
      while turns < |mStaticNeighbors|
        invariant E.Inv(View()) && |mStaticNeighbors| == |before| && turns <= |before|
        invariant Greets(before, mStaticNeighbors, replies, trail) && |trail.engines| == turns + 1
        invariant trail.engines[0] == old(View()) && trail.engines[turns] == View()
        invariant trail.lives[0] == old(life) && trail.lives[turns] == life
        invariant forall k :: turns <= k < |before| ==> mStaticNeighbors[k] == before[k]
        invariant resolved <==> forall k :: 0 <= k < turns ==> before[k].record.trials == 0
      {
        var over, tried;
        over, tried, trail := GreetNext(turns, replies, before, trail);
        if over { return; }
        if tried { resolved := false; }
        turns := turns + 1;
      }
    }
  }
}
