/** First-responder-wins gates as a state machine over its atomic steps. A gate, a controller and a running
    settlement are named by their index in the order they were created, as the program names them by reference. */
module Gates {

  type Peer = nat

  datatype Kind = Proposal | Interaction

  datatype Key = Key(workspaceId: int, kind: Kind, id: int)

  /** `controllers` names the controller of each peer's open request. */
  datatype Gate = Gate(key: Key, workspaceId: int, sessionId: int, controllers: map<Peer, nat>, settling: bool, settled: bool)

  /** The abort controller of one request, made for `peer` at `gate`. */
  datatype Controller = Controller(gate: nat, peer: Peer, aborted: bool)

  /** One settlement awaiting the core, for the response of `winner`. */
  datatype Flight = Flight(gate: nat, winner: Peer, done: bool)

  /** The core's part of the history: resolutions begun, and those that succeeded. */
  datatype Mark = Began(gate: nat) | Resolved(gate: nat)

  /** `waiting` are the requests neither answered nor rejected yet. */
  datatype World = World(
    gates: seq<Gate>,
    active: map<Key, nat>,
    controllers: seq<Controller>,
    waiting: set<nat>,
    flights: seq<Flight>,
    log: seq<Mark>)

  datatype Event =
    | Open(key: Key, sessionId: int)
    | Dispatch(gate: nat, peer: Peer, connected: bool)
    | Respond(request: nat, valid: bool)
    | Reject(request: nat)
    | CoreSucceeds(flight: nat)
    | CoreFails(flight: nat, alreadySettled: bool)
    | CancelProposal(workspaceId: int, entryId: int, stillProposed: bool)
    | CancelSession(workspace: int, sessionId: int)
    | RemovePeer(peer: Peer)
    | RemovePeerSession(peer: Peer, workspace: int, sessionIds: set<int>)
    | Clear

  // ----- well-formedness, needed to read the indices -----

  ghost predicate WellFormed(w: World) {
    && (forall k :: k in w.active ==> w.active[k] < |w.gates| && w.gates[w.active[k]].key == k)
    && (forall g, p :: 0 <= g < |w.gates| && p in w.gates[g].controllers ==>
          var c := w.gates[g].controllers[p];
          c < |w.controllers| && w.controllers[c].gate == g && w.controllers[c].peer == p)
    && (forall c :: 0 <= c < |w.controllers| ==> w.controllers[c].gate < |w.gates|)
    && (forall c :: c in w.waiting ==> c < |w.controllers|)
    && (forall f: nat :: 0 <= f < |w.flights| ==> w.flights[f].gate < |w.gates|)
  }

  /** The controller is the one its gate holds for its peer. */
  predicate Registered(w: World, c: nat)
    requires c < |w.controllers| && w.controllers[c].gate < |w.gates|
  {
    var held := w.gates[w.controllers[c].gate].controllers;
    w.controllers[c].peer in held && held[w.controllers[c].peer] == c
  }

  // ----- steps -----

  function Closed(g: Gate): Gate {
    g.(settled := true, controllers := map[])
  }

  /** Settles every gate of `hit`: its held requests are aborted and forgotten, and it is active no more. */
  function CloseAll(w: World, hit: set<nat>): World
    requires WellFormed(w)
  {
    w.(gates := seq(|w.gates|, g requires 0 <= g < |w.gates| => if g in hit then Closed(w.gates[g]) else w.gates[g]),
       active := map k | k in w.active && w.active[k] !in hit :: w.active[k],
       controllers := seq(|w.controllers|, c requires 0 <= c < |w.controllers| && w.controllers[c].gate < |w.gates| =>
         if w.controllers[c].gate in hit && Registered(w, c) then w.controllers[c].(aborted := true) else w.controllers[c]))
  }

  /** Aborts and forgets the request of `peer` at every gate of `hit`. */
  function DropPeer(w: World, peer: Peer, hit: set<nat>): World
    requires WellFormed(w)
  {
    w.(gates := seq(|w.gates|, g requires 0 <= g < |w.gates| =>
         if g in hit then w.gates[g].(controllers := w.gates[g].controllers - {peer}) else w.gates[g]),
       controllers := seq(|w.controllers|, c requires 0 <= c < |w.controllers| && w.controllers[c].gate < |w.gates| =>
         if w.controllers[c].gate in hit && w.controllers[c].peer == peer && Registered(w, c)
         then w.controllers[c].(aborted := true) else w.controllers[c]))
  }

  function OpenStep(w: World, key: Key, sessionId: int): World
    requires WellFormed(w)
  {
    if key in w.active && !w.gates[w.active[key]].settled then w
    else w.(gates := w.gates + [Gate(key, key.workspaceId, sessionId, map[], false, false)],
            active := w.active[key := |w.gates|])
  }

  function DispatchStep(w: World, gate: nat, peer: Peer, connected: bool): World
    requires gate < |w.gates|
  {
    var g := w.gates[gate];
    if !connected || g.settled || peer in g.controllers then w
    else
      var c := |w.controllers|;
      w.(gates := w.gates[gate := g.(controllers := g.controllers[peer := c])],
         controllers := w.controllers + [Controller(gate, peer, false)],
         waiting := w.waiting + {c})
  }

  /** A response: ignored once the gate settled or the request was aborted, else it may start the settlement. */
  function RespondStep(w: World, c: nat, valid: bool): World
    requires c < |w.controllers| && w.controllers[c].gate < |w.gates|
  {
    var (gate, g) := (w.controllers[c].gate, w.gates[w.controllers[c].gate]);
    var w1 := w.(waiting := w.waiting - {c});
    if g.settled || w.controllers[c].aborted || !valid || g.settling then w1
    else w1.(gates := w.gates[gate := g.(settling := true)],
             flights := w.flights + [Flight(gate, w.controllers[c].peer, false)],
             log := w.log + [Began(gate)])
  }

  /** A rejection forgets whatever request the gate holds for the peer. */
  function RejectStep(w: World, c: nat): World
    requires c < |w.controllers| && w.controllers[c].gate < |w.gates|
  {
    var (gate, g) := (w.controllers[c].gate, w.gates[w.controllers[c].gate]);
    w.(waiting := w.waiting - {c},
       gates := w.gates[gate := g.(controllers := g.controllers - {w.controllers[c].peer})])
  }

  /** The settlement is over: the flag falls and the winner's entry at the gate goes. */
  function Landed(w: World, f: nat): World
    requires f < |w.flights| && w.flights[f].gate < |w.gates|
  {
    var (gate, g) := (w.flights[f].gate, w.gates[w.flights[f].gate]);
    w.(flights := w.flights[f := w.flights[f].(done := true)],
       gates := w.gates[gate := g.(settling := false, controllers := g.controllers - {w.flights[f].winner})])
  }

  lemma LandedIsWellFormed(w: World, f: nat)
    requires WellFormed(w) && f < |w.flights|
    ensures WellFormed(Landed(w, f))
  {
  }

  /** Settles the gate and frees its key, whichever gate is active under it. */
  function CloseByKey(w: World, gate: nat): World
    requires WellFormed(w) && gate < |w.gates|
  {
    CloseAll(w, {gate}).(active := w.active - {w.gates[gate].key})
  }

  function CoreSucceedsStep(w: World, f: nat): World
    requires WellFormed(w) && f < |w.flights|
  {
    LandedIsWellFormed(w, f);
    var r := CloseByKey(Landed(w, f), w.flights[f].gate);
    r.(log := r.log + [Resolved(w.flights[f].gate)])
  }

  function CoreFailsStep(w: World, f: nat, alreadySettled: bool): World
    requires WellFormed(w) && f < |w.flights|
  {
    LandedIsWellFormed(w, f);
    if alreadySettled then CloseByKey(Landed(w, f), w.flights[f].gate) else Landed(w, f)
  }

  function GatesOfSession(w: World, workspaceId: int, sessionIds: set<int>): set<nat>
    requires WellFormed(w)
  {
    set k | k in w.active && w.gates[w.active[k]].workspaceId == workspaceId && w.gates[w.active[k]].sessionId in sessionIds :: w.active[k]
  }

  ghost predicate Enabled(w: World, e: Event) {
    match e
    case Dispatch(gate, _, _) => gate < |w.gates|
    case Respond(c, _) => c in w.waiting
    case Reject(c) => c in w.waiting
    case CoreSucceeds(f) => f < |w.flights| && !w.flights[f].done
    case CoreFails(f, _) => f < |w.flights| && !w.flights[f].done
    case _ => true
  }

  ghost function Step(w: World, e: Event): World
    requires WellFormed(w) && Enabled(w, e)
  {
    match e
    case Open(key, sessionId) => OpenStep(w, key, sessionId)
    case Dispatch(gate, peer, connected) => DispatchStep(w, gate, peer, connected)
    case Respond(c, valid) => RespondStep(w, c, valid)
    case Reject(c) => RejectStep(w, c)
    case CoreSucceeds(f) => CoreSucceedsStep(w, f)
    case CoreFails(f, already) => CoreFailsStep(w, f, already)
    case CancelProposal(ws, id, stillProposed) =>
      var key := Key(ws, Proposal, id);
      if stillProposed || key !in w.active then w else CloseAll(w, {w.active[key]})
    case CancelSession(ws, sessionId) => CloseAll(w, GatesOfSession(w, ws, {sessionId}))
    case RemovePeer(peer) => DropPeer(w, peer, w.active.Values)
    case RemovePeerSession(peer, ws, sessionIds) => DropPeer(w, peer, GatesOfSession(w, ws, sessionIds))
    case Clear => CloseAll(w, w.active.Values)
  }

  // ----- the invariant of every interleaving -----

  ghost predicate ActiveUnsettled(w: World)
    requires WellFormed(w)
  {
    forall k :: k in w.active ==> !w.gates[w.active[k]].settled
  }

  ghost predicate SettledHoldsNothing(w: World) {
    forall g :: 0 <= g < |w.gates| && w.gates[g].settled ==> w.gates[g].controllers == map[]
  }

  ghost predicate Unfinished(w: World, f: nat) {
    f < |w.flights| && !w.flights[f].done
  }

  /** At most one resolution per gate is in flight, exactly while the gate is settling. */
  ghost predicate OneFlight(w: World)
    requires WellFormed(w)
  {
    && (forall f: nat, g: nat :: Unfinished(w, f) && Unfinished(w, g) && w.flights[f].gate == w.flights[g].gate ==> f == g)
    && (forall f: nat :: Unfinished(w, f) ==> w.gates[w.flights[f].gate].settling)
  }

  ghost predicate SettlingHasFlight(w: World)
    requires WellFormed(w)
  {
    forall g :: 0 <= g < |w.gates| && w.gates[g].settling ==> exists f: nat :: Unfinished(w, f) && w.flights[f].gate == g
  }

  /** Nothing begins at a gate after its resolution succeeded, and none succeeds twice. */
  ghost predicate LogOk(log: seq<Mark>) {
    forall i, j :: 0 <= i < j < |log| && log[i].Resolved? ==> log[j].gate != log[i].gate
  }

  ghost predicate ResolvedSettled(w: World) {
    forall i :: 0 <= i < |w.log| && w.log[i].Resolved? ==>
      && w.log[i].gate < |w.gates| && w.gates[w.log[i].gate].settled
      && forall f: nat :: Unfinished(w, f) ==> w.flights[f].gate != w.log[i].gate
  }

  ghost predicate Invariant(w: World) {
    && WellFormed(w)
    && ActiveUnsettled(w) && SettledHoldsNothing(w)
    && OneFlight(w) && SettlingHasFlight(w)
    && LogOk(w.log) && ResolvedSettled(w)
  }

  const EMPTY := World([], map[], [], {}, [], [])

  /** What never changes back: gates keep their identity and stay settled, aborted requests stay aborted. */
  ghost predicate OnlyForward(w: World, r: World) {
    && |w.gates| <= |r.gates| && |w.controllers| <= |r.controllers| && w.log <= r.log
    && (forall g :: 0 <= g < |w.gates| ==>
          && r.gates[g].key == w.gates[g].key && r.gates[g].sessionId == w.gates[g].sessionId
          && (w.gates[g].settled ==> r.gates[g].settled))
    && (forall c :: 0 <= c < |w.controllers| ==>
          && r.controllers[c].gate == w.controllers[c].gate && r.controllers[c].peer == w.controllers[c].peer
          && (w.controllers[c].aborted ==> r.controllers[c].aborted))
  }

  lemma OpenKeeps(w: World, key: Key, sessionId: int)
    requires Invariant(w)
    ensures var r := OpenStep(w, key, sessionId); Invariant(r) && OnlyForward(w, r)
  {
    var r := OpenStep(w, key, sessionId);
    assert forall f: nat :: Unfinished(r, f) <==> Unfinished(w, f);
  }

  lemma DispatchKeeps(w: World, gate: nat, peer: Peer, connected: bool)
    requires Invariant(w) && gate < |w.gates|
    ensures var r := DispatchStep(w, gate, peer, connected); Invariant(r) && OnlyForward(w, r)
  {
    var r := DispatchStep(w, gate, peer, connected);
    assert forall f: nat :: Unfinished(r, f) <==> Unfinished(w, f);
  }

  /** A settlement starts for the answered request `c`. */
  function Started(w: World, c: nat): World
    requires c < |w.controllers| && w.controllers[c].gate < |w.gates|
  {
    var gate := w.controllers[c].gate;
    w.(gates := w.gates[gate := w.gates[gate].(settling := true)],
       flights := w.flights + [Flight(gate, w.controllers[c].peer, false)],
       log := w.log + [Began(gate)])
  }

  lemma StartedFlights(w: World, c: nat)
    requires Invariant(w) && c < |w.controllers|
    requires !w.gates[w.controllers[c].gate].settling && !w.gates[w.controllers[c].gate].settled
    ensures var r := Started(w, c); WellFormed(r) && OneFlight(r) && SettlingHasFlight(r) && ResolvedSettled(r)
  {
    var r, last := Started(w, c), |w.flights|;
    forall f: nat
      ensures Unfinished(r, f) <==> Unfinished(w, f) || f == last
      ensures Unfinished(w, f) ==> r.flights[f] == w.flights[f] && w.flights[f].gate != w.controllers[c].gate
    {
    }
    forall g | 0 <= g < |r.gates| && r.gates[g].settling
      ensures exists f: nat :: Unfinished(r, f) && r.flights[f].gate == g
    {
      if g == w.controllers[c].gate {
        assert Unfinished(r, last);
      } else {
        var f: nat :| Unfinished(w, f) && w.flights[f].gate == g;
        assert Unfinished(r, f);
      }
    }
  }

  lemma RespondKeeps(w: World, c: nat, valid: bool)
    requires Invariant(w) && c in w.waiting
    ensures var r := RespondStep(w, c, valid); Invariant(r) && OnlyForward(w, r)
  {
    var r, w1 := RespondStep(w, c, valid), w.(waiting := w.waiting - {c});
    assert forall f: nat :: Unfinished(w1, f) <==> Unfinished(w, f);
    assert Invariant(w1);
    if r != w1 {
      assert r == Started(w1, c);
      StartedFlights(w1, c);
    }
  }

  lemma RejectKeeps(w: World, c: nat)
    requires Invariant(w) && c in w.waiting
    ensures var r := RejectStep(w, c); Invariant(r) && OnlyForward(w, r)
  {
    var r := RejectStep(w, c);
    assert forall f: nat :: Unfinished(r, f) <==> Unfinished(w, f);
  }

  lemma CloseAllKeeps(w: World, hit: set<nat>)
    requires Invariant(w)
    ensures var r := CloseAll(w, hit); Invariant(r) && OnlyForward(w, r)
  {
    var r := CloseAll(w, hit);
    assert forall f: nat :: Unfinished(r, f) <==> Unfinished(w, f);
  }

  lemma DropPeerKeeps(w: World, peer: Peer, hit: set<nat>)
    requires Invariant(w)
    ensures var r := DropPeer(w, peer, hit); Invariant(r) && OnlyForward(w, r)
  {
    var r := DropPeer(w, peer, hit);
    assert forall f: nat :: Unfinished(r, f) <==> Unfinished(w, f);
  }

  lemma LandedKeeps(w: World, f: nat)
    requires Invariant(w) && Unfinished(w, f)
    ensures var r := Landed(w, f);
      Invariant(r) && OnlyForward(w, r) && forall h: nat :: Unfinished(r, h) ==> r.flights[h].gate != w.flights[f].gate
  {
    var r := Landed(w, f);
    forall h: nat
      ensures Unfinished(r, h) <==> Unfinished(w, h) && h != f
    {
    }
    forall g | 0 <= g < |r.gates| && r.gates[g].settling
      ensures exists h: nat :: Unfinished(r, h) && r.flights[h].gate == g
    {
      var h: nat :| Unfinished(w, h) && w.flights[h].gate == g;
      assert Unfinished(r, h);
    }
  }

  lemma CloseByKeyKeeps(w: World, gate: nat)
    requires Invariant(w) && gate < |w.gates|
    ensures var r := CloseByKey(w, gate); Invariant(r) && OnlyForward(w, r) && r.gates[gate].settled
  {
    CloseAllKeeps(w, {gate});
    var c, r := CloseAll(w, {gate}), CloseByKey(w, gate);
    assert forall f: nat :: Unfinished(r, f) <==> Unfinished(c, f);
  }

  lemma StepKeeps(w: World, e: Event)
    requires Invariant(w) && Enabled(w, e)
    ensures Invariant(Step(w, e)) && OnlyForward(w, Step(w, e))
  {
    match e {
      case Open(key, sessionId) => OpenKeeps(w, key, sessionId);
      case Dispatch(gate, peer, connected) => DispatchKeeps(w, gate, peer, connected);
      case Respond(c, valid) => RespondKeeps(w, c, valid);
      case Reject(c) => RejectKeeps(w, c);
      case CoreSucceeds(f) =>
        LandedKeeps(w, f);
        CloseByKeyKeeps(Landed(w, f), w.flights[f].gate);
        ResolvedKeeps(w, f);
      case CoreFails(f, already) =>
        LandedKeeps(w, f);
        CloseByKeyKeeps(Landed(w, f), w.flights[f].gate);
      case CancelProposal(ws, id, stillProposed) =>
        var key := Key(ws, Proposal, id);
        if key in w.active {
          CloseAllKeeps(w, {w.active[key]});
        }
      case CancelSession(ws, sessionId) => CloseAllKeeps(w, GatesOfSession(w, ws, {sessionId}));
      case RemovePeer(peer) => DropPeerKeeps(w, peer, w.active.Values);
      case RemovePeerSession(peer, ws, sessionIds) => DropPeerKeeps(w, peer, GatesOfSession(w, ws, sessionIds));
      case Clear => CloseAllKeeps(w, w.active.Values);
    }
  }

  lemma ResolvedKeeps(w: World, f: nat)
    requires Invariant(w) && Unfinished(w, f)
    requires var r := CloseByKey(Landed(w, f), w.flights[f].gate);
      Invariant(r) && r.gates[w.flights[f].gate].settled
    requires forall h: nat :: Unfinished(Landed(w, f), h) ==> w.flights[h].gate != w.flights[f].gate
    ensures Invariant(CoreSucceedsStep(w, f))
  {
    var r, s := CloseByKey(Landed(w, f), w.flights[f].gate), CoreSucceedsStep(w, f);
    assert forall h: nat :: Unfinished(s, h) <==> Unfinished(r, h);
    assert forall h: nat :: Unfinished(r, h) <==> Unfinished(Landed(w, f), h);
    assert s.log == w.log + [Resolved(w.flights[f].gate)];
  }
}
