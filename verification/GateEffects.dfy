/** What each step does to every gate, key and request, told without the steps' own terms: which gates end and with them
    which requests, and what stays as it was. */
module GateEffects {
  import opened Gates
  import opened GateSafety

  /** The gate is the active one of its key. */
  predicate Current(w: World, g: nat)
    requires g < |w.gates|
  {
    w.gates[g].key in w.active && w.active[w.gates[g].key] == g
  }

  /** The request is the one its gate holds for its peer, at gate `g`. */
  predicate HeldAt(w: World, c: nat, g: nat)
    requires c < |w.controllers| && g < |w.gates|
  {
    var held := w.gates[g].controllers;
    w.controllers[c].gate == g && w.controllers[c].peer in held && held[w.controllers[c].peer] == c
  }

  /** The gate settled, holding nothing. */
  function Over(g: Gate): Gate {
    Gate(g.key, g.workspaceId, g.sessionId, map[], g.settling, true)
  }

  function Aborted(c: Controller): Controller {
    Controller(c.gate, c.peer, true)
  }

  predicate SameButRequests(a: Gate, b: Gate) {
    a.(controllers := b.controllers) == b
  }

  // ----- cancellation -----

  predicate Cancellation(e: Event) {
    e.CancelProposal? || e.CancelSession? || e.Clear?
  }

  /** The gate is current and is what the event cancels: a proposal no longer proposed, a gate of the session, or any. */
  predicate Cancels(w: World, e: Event, g: nat)
    requires g < |w.gates|
  {
    Current(w, g) &&
    match e
    case CancelProposal(workspaceId, entryId, stillProposed) =>
      !stillProposed && w.gates[g].key == Key(workspaceId, Proposal, entryId)
    case CancelSession(workspaceId, sessionId) =>
      w.gates[g].workspaceId == workspaceId && w.gates[g].sessionId == sessionId
    case Clear => true
    case _ => false
  }

  /** The indices the step closes are those of the gates it cancels. */
  lemma CancelledGates(w: World, e: Event) returns (hit: set<nat>)
    requires Invariant(w) && Cancellation(e)
    ensures (forall g: nat :: g < |w.gates| ==> (g in hit <==> Cancels(w, e, g))) && Step(w, e) == CloseAll(w, hit)
  {
    match e {
      case CancelProposal(workspaceId, entryId, stillProposed) =>
        var key := Key(workspaceId, Proposal, entryId);
        hit := if stillProposed || key !in w.active then {} else {w.active[key]};
        if hit == {} {
          NothingCloses(w);
        }
      case CancelSession(workspaceId, sessionId) => hit := GatesOfSession(w, workspaceId, {sessionId});
      case Clear => hit := w.active.Values;
    }
    assert Step(w, e) == CloseAll(w, hit);
    assert forall g: nat :: g < |w.gates| ==> (g in hit <==> Cancels(w, e, g));
  }

  lemma NothingCloses(w: World)
    requires Invariant(w)
    ensures CloseAll(w, {}) == w
  {
    var r := CloseAll(w, {});
    assert r.gates == w.gates && r.active == w.active && r.controllers == w.controllers;
  }

  /** After a cancellation each gate it is for is settled, holds no request and is under no key, and every request it held
      is aborted; every other gate, key and request is as it was, and nothing else changes. */
  lemma CancellationExactly(w: World, e: Event)
    requires Invariant(w) && Cancellation(e)
    ensures var r := Step(w, e);
      && |r.gates| == |w.gates| && |r.controllers| == |w.controllers|
      && (forall g: nat :: g < |w.gates| ==>
            r.gates[g] == if Cancels(w, e, g) then Over(w.gates[g]) else w.gates[g])
      && (forall k :: k in r.active <==> k in w.active && !Cancels(w, e, w.active[k]))
      && (forall k :: k in r.active ==> r.active[k] == w.active[k])
      && (forall c: nat :: c < |w.controllers| ==>
            r.controllers[c] == if Cancels(w, e, w.controllers[c].gate) && HeldAt(w, c, w.controllers[c].gate)
                                then Aborted(w.controllers[c]) else w.controllers[c])
      && r.waiting == w.waiting && r.flights == w.flights && r.log == w.log
  {
    var hit := CancelledGates(w, e);
  }

  // ----- removal of a peer -----

  /** The request is the one a current gate holds for the removed peer, at the gates the event is for. */
  predicate Removes(w: World, e: Event, g: nat, peer: Peer)
    requires g < |w.gates|
  {
    Current(w, g) &&
    match e
    case RemovePeer(p) => peer == p
    case RemovePeerSession(p, workspaceId, sessionIds) =>
      peer == p && w.gates[g].workspaceId == workspaceId && w.gates[g].sessionId in sessionIds
    case _ => false
  }

  /** The requests left are those of the peers not removed. */
  ghost predicate Left(w: World, e: Event, g: nat, left: map<Peer, nat>)
    requires g < |w.gates|
  {
    && (forall p :: p in left <==> p in w.gates[g].controllers && !Removes(w, e, g, p))
    && (forall p :: p in left ==> left[p] == w.gates[g].controllers[p])
  }

  /** Removing a peer aborts and forgets its request at each current gate the event is for, and changes nothing else. */
  lemma RemovalExactly(w: World, e: Event)
    requires Invariant(w) && (e.RemovePeer? || e.RemovePeerSession?)
    ensures var r := Step(w, e);
      && |r.gates| == |w.gates| && |r.controllers| == |w.controllers|
      && (forall g: nat :: g < |w.gates| ==> SameButRequests(w.gates[g], r.gates[g]) && Left(w, e, g, r.gates[g].controllers))
      && (forall c: nat :: c < |w.controllers| ==>
            r.controllers[c] == if Removes(w, e, w.controllers[c].gate, w.controllers[c].peer) && HeldAt(w, c, w.controllers[c].gate)
                                then Aborted(w.controllers[c]) else w.controllers[c])
      && r.active == w.active && r.waiting == w.waiting && r.flights == w.flights && r.log == w.log
  {
    var hit := if e.RemovePeer? then w.active.Values else GatesOfSession(w, e.workspace, e.sessionIds);
    assert Step(w, e) == DropPeer(w, e.peer, hit);
    assert forall g: nat :: g < |w.gates| ==> (g in hit <==> Removes(w, e, g, e.peer));
  }

  // ----- opening, questions and answers -----

  /** Opening a key that has no gate makes one for the session, unsettled, holding nothing and current; a key that has one
      keeps it. */
  lemma OpenExactly(w: World, key: Key, sessionId: int)
    requires Invariant(w)
    ensures var r, g := Step(w, Open(key, sessionId)), |w.gates|;
      if key in w.active then r == w
      else
        && |r.gates| == g + 1 && r.gates[g] == Gate(key, key.workspaceId, sessionId, map[], false, false) && Current(r, g)
        && (forall x: nat :: x < g ==> r.gates[x] == w.gates[x] && (Current(r, x) <==> Current(w, x)))
        && r.controllers == w.controllers && r.waiting == w.waiting && r.flights == w.flights && r.log == w.log
  {
  }

  /** A rejected request is answered, and its gate holds nothing of its peer any more; nothing else changes. */
  lemma RejectionExactly(w: World, c: nat)
    requires Invariant(w) && c in w.waiting
    ensures var r, g, peer := Step(w, Reject(c)), w.controllers[c].gate, w.controllers[c].peer;
      && r.waiting == w.waiting - {c} && |r.gates| == |w.gates|
      && SameButRequests(w.gates[g], r.gates[g]) && r.gates[g].controllers == w.gates[g].controllers - {peer}
      && (forall x: nat :: x < |w.gates| && x != g ==> r.gates[x] == w.gates[x])
      && r.active == w.active && r.controllers == w.controllers && r.flights == w.flights && r.log == w.log
  {
  }

  /** A peer is asked exactly when it is connected, the gate is unsettled and holds no request of it; the new request is open
      and held by the gate. Otherwise nothing happens. */
  lemma DispatchExactly(w: World, gate: nat, peer: Peer, connected: bool)
    requires Invariant(w) && gate < |w.gates|
    ensures var r, c := Step(w, Dispatch(gate, peer, connected)), |w.controllers|;
      if connected && !w.gates[gate].settled && peer !in w.gates[gate].controllers then
        && |r.gates| == |w.gates| && |r.controllers| == c + 1
        && r.controllers[c].peer == peer && !r.controllers[c].aborted && HeldAt(r, c, gate) && r.waiting == w.waiting + {c}
        && SameButRequests(w.gates[gate], r.gates[gate])
        && r.gates[gate].controllers - {peer} == w.gates[gate].controllers
        && (forall g: nat :: g < |w.gates| && g != gate ==> r.gates[g] == w.gates[g])
        && (forall x: nat :: x < c ==> r.controllers[x] == w.controllers[x])
        && r.active == w.active && r.flights == w.flights && r.log == w.log
      else r == w
  {
  }

  /** An answer begins a resolution exactly when it is valid, its request was not aborted and its gate is unsettled with no
      resolution in flight; otherwise the request is only answered. */
  lemma ResponseExactly(w: World, c: nat, valid: bool)
    requires Invariant(w) && c in w.waiting
    ensures var r, g := Step(w, Respond(c, valid)), w.controllers[c].gate;
      && r.waiting == w.waiting - {c} && r.active == w.active && r.controllers == w.controllers
      && if valid && !w.controllers[c].aborted && !w.gates[g].settled
            && (forall f: nat :: Unfinished(w, f) ==> w.flights[f].gate != g)
         then
           && r.log == w.log + [Began(g)] && r.flights == w.flights + [Flight(g, w.controllers[c].peer, false)]
           && r.gates == w.gates[g := w.gates[g].(settling := true)]
         else r.log == w.log && r.flights == w.flights && r.gates == w.gates
  {
    var g := w.controllers[c].gate;
    if w.gates[g].settling {
      var f: nat :| Unfinished(w, f) && w.flights[f].gate == g;
      assert !(forall f: nat :: Unfinished(w, f) ==> w.flights[f].gate != g);
    }
  }

  // ----- the end of a resolution -----

  predicate Lands(e: Event) {
    e.CoreSucceeds? || e.CoreFails?
  }

  /** The gate is over: the core resolved it, or it was already settled elsewhere. */
  predicate Finishes(e: Event) {
    e.CoreSucceeds? || (e.CoreFails? && e.alreadySettled)
  }

  /** When a resolution lands its gate is free for another and forgets the winner's request. If the core resolved the gate,
      or it was already settled, it is settled, its key freed and every other request it held aborted and forgotten;
      nothing else changes. */
  lemma SettlementExactly(w: World, e: Event)
    requires Invariant(w) && Lands(e) && Enabled(w, e)
    ensures var r, g, winner := Step(w, e), w.flights[e.flight].gate, w.flights[e.flight].winner;
      && |r.gates| == |w.gates| && |r.controllers| == |w.controllers|
      && (forall x: nat :: x < |w.gates| && x != g ==> r.gates[x] == w.gates[x])
      && r.gates[g] == w.gates[g].(settling := false, settled := w.gates[g].settled || Finishes(e),
                                   controllers := if Finishes(e) then map[] else w.gates[g].controllers - {winner})
      && r.active == (if Finishes(e) then w.active - {w.gates[g].key} else w.active)
      && (forall c: nat :: c < |w.controllers| ==>
            r.controllers[c] == if Finishes(e) && HeldAt(w, c, g) && w.controllers[c].peer != winner
                                then Aborted(w.controllers[c]) else w.controllers[c])
      && r.waiting == w.waiting && r.flights == w.flights[e.flight := w.flights[e.flight].(done := true)]
      && r.log == (if e.CoreSucceeds? then w.log + [Resolved(g)] else w.log)
  {
    var f, g := e.flight, w.flights[e.flight].gate;
    LandedIsWellFormed(w, f);
    var l := Landed(w, f);
    var k := CloseByKey(l, g);
    assert Closed(l.gates[g]) == l.gates[g].(settled := true, controllers := map[]);
    forall x: nat | x < |w.gates| && x != g ensures k.gates[x] == w.gates[x] {
      assert l.gates[x] == w.gates[x];
    }
    assert k.active == w.active - {w.gates[g].key};
  }

  // ----- ended for good -----

  /** At a settled gate nothing begins any more, whatever happens. */
  lemma {:induction false} SettledStaysQuiet(w: World, events: seq<Event>, g: nat)
    requires Invariant(w) && Feasible(w, events) && g < |w.gates| && w.gates[g].settled
    ensures var r := Run(w, events);
      |w.log| <= |r.log| && forall i: nat :: |w.log| <= i < |r.log| ==> r.log[i] != Began(g)
    decreases |events|
  {
    if events != [] {
      var s := Step(w, events[0]);
      StepKeeps(w, events[0]);
      BeginsOnlyFree(w, events[0]);
      SettledStaysQuiet(s, events[1..], g);
      RunKeeps(s, events[1..]);
      assert forall i: nat :: i < |s.log| ==> Run(s, events[1..]).log[i] == s.log[i];
    }
  }

  /** In every run no resolution begins at a gate after it was cancelled, and none of the requests it held is ever un-aborted. */
  lemma NothingBeginsAfterCancellation(w: World, e: Event, later: seq<Event>, g: nat)
    requires Invariant(w) && Cancellation(e) && g < |w.gates| && Cancels(w, e, g)
    requires Invariant(Step(w, e)) && Feasible(Step(w, e), later)
    ensures var r := Run(Step(w, e), later);
      && (forall i: nat :: |w.log| <= i < |r.log| ==> r.log[i] != Began(g))
      && g < |r.gates| && r.gates[g].settled
      && (forall c: nat :: c < |w.controllers| && HeldAt(w, c, g) ==> c < |r.controllers| && r.controllers[c].aborted)
  {
    CancellationExactly(w, e);
    SettledStaysQuiet(Step(w, e), later, g);
    RunKeeps(Step(w, e), later);
  }
}
