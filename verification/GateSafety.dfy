/** The promises of the gates over every run: the arbitration itself holds under any interleaving; that no request
    and no gate is lost track of holds exactly while no handler acts on a newer entry than its own. */
module GateSafety {
  import opened Gates

  ghost predicate Feasible(w: World, events: seq<Event>)
    requires Invariant(w)
    decreases |events|
  {
    events == [] || (Enabled(w, events[0]) && (StepKeeps(w, events[0]); Feasible(Step(w, events[0]), events[1..])))
  }

  ghost function Run(w: World, events: seq<Event>): World
    requires Invariant(w) && Feasible(w, events)
    decreases |events|
  {
    if events == [] then w
    else
      StepKeeps(w, events[0]);
      Run(Step(w, events[0]), events[1..])
  }

  /** Under every interleaving the invariant holds, gates stay settled and aborted requests stay aborted. */
  lemma {:induction false} RunKeeps(w: World, events: seq<Event>)
    requires Invariant(w) && Feasible(w, events)
    ensures Invariant(Run(w, events)) && OnlyForward(w, Run(w, events))
    decreases |events|
  {
    if events != [] {
      StepKeeps(w, events[0]);
      RunKeeps(Step(w, events[0]), events[1..]);
      ForwardComposes(w, Step(w, events[0]), Run(w, events));
    }
  }

  lemma ForwardComposes(a: World, b: World, c: World)
    requires OnlyForward(a, b) && OnlyForward(b, c)
    ensures OnlyForward(a, c)
  {
  }

  /** In every run: once the core resolved a gate nothing begins or resolves there again; at most one resolution is
      in flight per gate; active gates are unsettled, under their own key; settled gates hold no controller. */
  lemma Arbitration(events: seq<Event>, i: nat, j: nat, f: nat, g: nat, key: Key)
    requires Feasible(EMPTY, events)
    ensures var w := Run(EMPTY, events);
      && (i < j < |w.log| && w.log[i].Resolved? ==> w.log[j].gate != w.log[i].gate)
      && (Unfinished(w, f) && Unfinished(w, g) && w.flights[f].gate == w.flights[g].gate ==> f == g)
      && (key in w.active ==> w.active[key] < |w.gates| && w.gates[w.active[key]].key == key && !w.gates[w.active[key]].settled)
      && (g < |w.gates| && w.gates[g].settled ==> w.gates[g].controllers == map[])
  {
    RunKeeps(EMPTY, events);
  }

  /** A resolution begins only at an unsettled gate with none in flight. */
  lemma BeginsOnlyFree(w: World, e: Event)
    requires Invariant(w) && Enabled(w, e)
    ensures |Step(w, e).log| <= |w.log| + 1
    ensures |Step(w, e).log| > |w.log| && Step(w, e).log[|w.log|].Began? ==>
      var gate := Step(w, e).log[|w.log|].gate;
      && gate < |w.gates| && !w.gates[gate].settled
      && (forall f: nat :: Unfinished(w, f) ==> w.flights[f].gate != gate)
      && e.Respond? && !w.controllers[e.request].aborted && w.controllers[e.request].gate == gate
  {
  }

  /** The reopened gate is the one already there: an active gate is never settled. */
  lemma OpenReturnsTheActiveGate(w: World, key: Key, sessionId: int)
    requires Invariant(w)
    ensures key in w.active ==> OpenStep(w, key, sessionId) == w
    ensures var r := OpenStep(w, key, sessionId); key in r.active && r.active[key] < |r.gates| && !r.gates[r.active[key]].settled
  {
  }

  // ----- no request is lost track of -----

  ghost predicate Waiting(w: World, c: nat)
    requires WellFormed(w)
  {
    c in w.waiting && !w.controllers[c].aborted
  }

  /** Every open request that was not aborted is the one its gate holds. */
  ghost predicate Tracked(w: World)
    requires WellFormed(w)
  {
    forall c: nat :: Waiting(w, c) ==> Registered(w, c)
  }

  /** The gate holds, for `peer`, an open request other than `own`. */
  ghost predicate HoldsAnother(w: World, gate: nat, peer: Peer, own: int)
    requires WellFormed(w) && gate < |w.gates|
  {
    var held := w.gates[gate].controllers;
    peer in held && held[peer] != own && Waiting(w, held[peer])
  }

  /** A handler that acts by peer is about to drop a newer request of that peer. */
  ghost predicate Loses(w: World, e: Event)
    requires WellFormed(w) && Enabled(w, e)
  {
    match e
    case Reject(c) => HoldsAnother(w, w.controllers[c].gate, w.controllers[c].peer, c)
    case CoreSucceeds(f) => HoldsAnother(w, w.flights[f].gate, w.flights[f].winner, -1)
    case CoreFails(f, _) => HoldsAnother(w, w.flights[f].gate, w.flights[f].winner, -1)
    case _ => false
  }

  lemma LandedTracked(w: World, f: nat)
    requires Invariant(w) && Tracked(w) && Unfinished(w, f)
    ensures WellFormed(Landed(w, f))
    ensures Tracked(Landed(w, f)) <==> !HoldsAnother(w, w.flights[f].gate, w.flights[f].winner, -1)
    ensures !Tracked(Landed(w, f)) ==>
      exists c: nat :: Waiting(Landed(w, f), c) && !Registered(Landed(w, f), c)
        && w.controllers[c].gate == w.flights[f].gate && w.controllers[c].peer == w.flights[f].winner
  {
    var (gate, peer) := (w.flights[f].gate, w.flights[f].winner);
    var r := Landed(w, f);
    if HoldsAnother(w, gate, peer, -1) {
      var c := w.gates[gate].controllers[peer];
      assert Waiting(r, c) && !Registered(r, c);
    } else {
      forall c: nat | Waiting(r, c)
        ensures Registered(r, c)
      {
        assert Waiting(w, c) && Registered(w, c);
      }
    }
  }

  lemma CloseTracked(w: World, hit: set<nat>)
    requires WellFormed(w)
    ensures WellFormed(CloseAll(w, hit))
    ensures Tracked(w) <==> Tracked(CloseAll(w, hit))
  {
    var r := CloseAll(w, hit);
    if Tracked(w) {
      forall c: nat | Waiting(r, c)
        ensures Registered(r, c)
      {
        assert Waiting(w, c) && Registered(w, c);
      }
    }
    if Tracked(r) {
      forall c: nat | Waiting(w, c)
        ensures Registered(w, c)
      {
        assert !Registered(w, c) ==> Waiting(r, c);
      }
    }
  }

  lemma DropTracked(w: World, peer: Peer, hit: set<nat>)
    requires WellFormed(w) && Tracked(w)
    ensures WellFormed(DropPeer(w, peer, hit)) && Tracked(DropPeer(w, peer, hit))
  {
    var r := DropPeer(w, peer, hit);
    forall c: nat | Waiting(r, c)
      ensures Registered(r, c)
    {
      assert Waiting(w, c) && Registered(w, c);
    }
  }

  lemma CloseByKeyTracked(w: World, gate: nat)
    requires WellFormed(w) && gate < |w.gates|
    ensures WellFormed(CloseByKey(w, gate))
    ensures Tracked(w) <==> Tracked(CloseByKey(w, gate))
  {
    CloseTracked(w, {gate});
    var c, r := CloseAll(w, {gate}), CloseByKey(w, gate);
    assert forall x: nat :: Waiting(r, x) <==> Waiting(c, x);
    assert forall x: nat :: x in w.waiting ==> (Registered(r, x) <==> Registered(c, x));
  }

  lemma RejectTracked(w: World, c: nat)
    requires Invariant(w) && Tracked(w) && c in w.waiting
    ensures WellFormed(RejectStep(w, c))
    ensures Tracked(RejectStep(w, c)) <==> !HoldsAnother(w, w.controllers[c].gate, w.controllers[c].peer, c)
  {
    var r := RejectStep(w, c);
    var (gate, peer) := (w.controllers[c].gate, w.controllers[c].peer);
    if HoldsAnother(w, gate, peer, c) {
      var d := w.gates[gate].controllers[peer];
      assert Waiting(r, d) && !Registered(r, d);
    } else {
      forall d: nat | Waiting(r, d)
        ensures Registered(r, d)
      {
        assert Waiting(w, d) && Registered(w, d);
      }
    }
  }

  lemma OpenDispatchRespondTracked(w: World, e: Event)
    requires Invariant(w) && Tracked(w) && Enabled(w, e) && (e.Open? || e.Dispatch? || e.Respond?)
    ensures WellFormed(Step(w, e)) && Tracked(Step(w, e))
  {
    StepKeeps(w, e);
    var r := Step(w, e);
    forall c: nat | Waiting(r, c)
      ensures Registered(r, c)
    {
      assert c < |w.controllers| ==> Waiting(w, c) && Registered(w, c);
    }
  }

  /** From a state that tracks every open request, a step keeps doing so exactly when it does not drop a newer one. */
  lemma TrackedExactly(w: World, e: Event)
    requires Invariant(w) && Tracked(w) && Enabled(w, e)
    ensures WellFormed(Step(w, e))
    ensures Tracked(Step(w, e)) <==> !Loses(w, e)
  {
    match e {
      case Reject(c) => RejectTracked(w, c);
      case CoreSucceeds(f) =>
        LandedTracked(w, f);
        CloseByKeyTracked(Landed(w, f), w.flights[f].gate);
        var r, s := CloseByKey(Landed(w, f), w.flights[f].gate), Step(w, e);
        assert forall x: nat :: Waiting(r, x) <==> Waiting(s, x);
        assert forall x: nat :: x in w.waiting ==> (Registered(r, x) <==> Registered(s, x));
      case CoreFails(f, already) =>
        LandedTracked(w, f);
        CloseByKeyTracked(Landed(w, f), w.flights[f].gate);
      case CancelProposal(ws, id, stillProposed) =>
        var key := Key(ws, Proposal, id);
        if key in w.active {
          CloseTracked(w, {w.active[key]});
        }
      case CancelSession(ws, sessionId) => CloseTracked(w, GatesOfSession(w, ws, {sessionId}));
      case RemovePeer(peer) => DropTracked(w, peer, w.active.Values);
      case RemovePeerSession(peer, ws, sessionIds) => DropTracked(w, peer, GatesOfSession(w, ws, sessionIds));
      case Clear => CloseTracked(w, w.active.Values);
      case _ => OpenDispatchRespondTracked(w, e);
    }
  }

  /** While every request is tracked, a settled gate leaves no request open that was not aborted. */
  lemma SettledAbortsAll(w: World, c: nat)
    requires Invariant(w) && Tracked(w) && c in w.waiting && w.gates[w.controllers[c].gate].settled
    ensures w.controllers[c].aborted
  {
    assert w.gates[w.controllers[c].gate].controllers == map[];
    assert Waiting(w, c) || w.controllers[c].aborted;
  }

  // ----- no gate is lost track of -----

  /** Every unsettled gate is the active one of its key, so a cancellation finds it. */
  ghost predicate Reachable(w: World) {
    forall g :: 0 <= g < |w.gates| && !w.gates[g].settled ==> w.gates[g].key in w.active && w.active[w.gates[g].key] == g
  }

  /** A finished settlement is about to remove a newer gate that took its key. */
  ghost predicate Evicts(w: World, e: Event)
    requires WellFormed(w) && Enabled(w, e)
  {
    (e.CoreSucceeds? || (e.CoreFails? && e.alreadySettled)) &&
    var gate := w.flights[e.flight].gate;
    w.gates[gate].key in w.active && w.active[w.gates[gate].key] != gate
  }

  lemma EvictionHides(w: World, e: Event)
    requires Invariant(w) && Enabled(w, e) && Evicts(w, e)
    ensures !Reachable(Step(w, e))
  {
    StepKeeps(w, e);
    var newer := w.active[w.gates[w.flights[e.flight].gate].key];
    assert !Step(w, e).gates[newer].settled && Step(w, e).gates[newer].key !in Step(w, e).active;
  }

  lemma ReachableStays(w: World, e: Event)
    requires Invariant(w) && Reachable(w) && Enabled(w, e) && !Evicts(w, e)
    ensures Reachable(Step(w, e))
  {
    StepKeeps(w, e);
    forall g: nat | g < |Step(w, e).gates| && !Step(w, e).gates[g].settled ensures Found(Step(w, e), g) {
      GateStaysFound(w, e, g);
    }
  }

  ghost predicate Found(w: World, g: nat)
    requires g < |w.gates|
  {
    w.gates[g].key in w.active && w.active[w.gates[g].key] == g
  }

  lemma GateStaysFound(w: World, e: Event, g: nat)
    requires Invariant(w) && Reachable(w) && Enabled(w, e) && !Evicts(w, e)
    requires g < |Step(w, e).gates| && !Step(w, e).gates[g].settled
    ensures Found(Step(w, e), g)
  {
    if e.Open? {
      OpenFinds(w, e.key, e.sessionId, g);
    } else if e.CoreSucceeds? || e.CoreFails? {
      CoreFinds(w, e, g);
    } else {
      assert g < |w.gates| && Found(w, g);
    }
  }

  lemma OpenFinds(w: World, key: Key, sessionId: int, g: nat)
    requires Invariant(w) && Reachable(w) && g < |OpenStep(w, key, sessionId).gates| && !OpenStep(w, key, sessionId).gates[g].settled
    ensures Found(OpenStep(w, key, sessionId), g)
  {
    assert g < |w.gates| ==> Found(w, g);
  }

  lemma CoreFinds(w: World, e: Event, g: nat)
    requires Invariant(w) && Reachable(w) && Enabled(w, e) && !Evicts(w, e) && (e.CoreSucceeds? || e.CoreFails?)
    requires g < |Step(w, e).gates| && !Step(w, e).gates[g].settled
    ensures Found(Step(w, e), g)
  {
    assert g < |w.gates| && Found(w, g);
  }

  lemma ReachableExactly(w: World, e: Event)
    requires Invariant(w) && Reachable(w) && Enabled(w, e)
    ensures Reachable(Step(w, e)) <==> !Evicts(w, e)
  {
    if Evicts(w, e) {
      EvictionHides(w, e);
    } else {
      ReachableStays(w, e);
    }
  }

  // ----- runs in which neither happens -----

  /** A dispatch that asks the peer anew comes only once its earlier request at the gate was answered or rejected and no
      settlement of its own is under way; one that asks nobody, as the gate settled or holds a request of the peer or the
      peer is gone, comes at any time. A key is opened again only once no older gate of it is settling. */
  ghost predicate Orderly(w: World, e: Event)
    requires WellFormed(w)
  {
    match e
    case Dispatch(gate, peer, connected) =>
      Enabled(w, e) ==>
      || !connected || w.gates[gate].settled || peer in w.gates[gate].controllers
      || ((forall c :: c in w.waiting ==> !(w.controllers[c].gate == gate && w.controllers[c].peer == peer))
          && (forall f: nat :: Unfinished(w, f) ==> !(w.flights[f].gate == gate && w.flights[f].winner == peer)))
    case Open(key, _) =>
      key in w.active || forall f: nat :: Unfinished(w, f) ==> w.gates[w.flights[f].gate].key != key
    case _ => true
  }

  /** The two requests were made for the same peer at the same gate. */
  ghost predicate SameAsk(w: World, c: nat, d: nat)
    requires c < |w.controllers| && d < |w.controllers|
  {
    w.controllers[c].gate == w.controllers[d].gate && w.controllers[c].peer == w.controllers[d].peer
  }

  ghost predicate OneAsk(w: World)
    requires WellFormed(w)
  {
    forall c, d :: c in w.waiting && d in w.waiting && SameAsk(w, c, d) ==> c == d
  }

  ghost predicate WinnersNotAsked(w: World)
    requires WellFormed(w)
  {
    forall f: nat, c :: Unfinished(w, f) && c in w.waiting ==>
      w.controllers[c].gate != w.flights[f].gate || w.controllers[c].peer != w.flights[f].winner
  }

  ghost predicate SettlingKeepKey(w: World)
    requires WellFormed(w)
  {
    forall f: nat :: Unfinished(w, f) && w.gates[w.flights[f].gate].key in w.active ==>
      w.active[w.gates[w.flights[f].gate].key] == w.flights[f].gate
  }

  /** One open request per peer and gate, none of a peer whose response is being settled, and settling gates that hold
      their key or leave it free. */
  ghost predicate Solo(w: World)
    requires WellFormed(w)
  {
    OneAsk(w) && WinnersNotAsked(w) && SettlingKeepKey(w)
  }

  lemma SoloIsSafe(w: World, e: Event)
    requires Invariant(w) && Solo(w) && Enabled(w, e)
    ensures !Loses(w, e) && !Evicts(w, e)
  {
    match e {
      case CoreSucceeds(f) => assert Unfinished(w, f);
      case CoreFails(f, _) => assert Unfinished(w, f);
      case _ =>
    }
  }

  /** Only a response starts a settlement, and only for the request it answers. */
  lemma FlightsOf(w: World, e: Event, f: nat)
    requires Invariant(w) && Enabled(w, e) && Unfinished(Step(w, e), f)
    ensures var r := Step(w, e);
      (Unfinished(w, f) && r.flights[f] == w.flights[f])
      || (e.Respond? && r.flights[f].gate == w.controllers[e.request].gate
          && r.flights[f].winner == w.controllers[e.request].peer && !w.gates[r.flights[f].gate].settled)
  {
  }

  /** Only a dispatch opens a request. */
  lemma RequestsOf(w: World, e: Event, c: nat)
    requires Invariant(w) && Enabled(w, e) && c in Step(w, e).waiting
    ensures WellFormed(Step(w, e))
    ensures var r := Step(w, e);
      if c in w.waiting then
        && r.controllers[c].gate == w.controllers[c].gate && r.controllers[c].peer == w.controllers[c].peer
        && (e.Respond? ==> c != e.request)
      else e.Dispatch? && c == |w.controllers| && r.controllers[c].gate == e.gate && r.controllers[c].peer == e.peer
  {
    StepKeeps(w, e);
  }

  /** Keys are given to gates by opening them and otherwise only freed. */
  lemma KeysOf(w: World, e: Event, k: Key)
    requires Invariant(w) && Enabled(w, e) && k in Step(w, e).active
    ensures var r := Step(w, e);
      (k in w.active && r.active[k] == w.active[k]) || (e.Open? && e.key == k && k !in w.active)
  {
  }

  lemma SoloKept(w: World, e: Event)
    requires Invariant(w) && Solo(w) && Reachable(w) && Enabled(w, e) && Orderly(w, e)
    ensures WellFormed(Step(w, e)) && Solo(Step(w, e))
  {
    StepKeeps(w, e);
    var r := Step(w, e);
    forall c, d | c in r.waiting && d in r.waiting && SameAsk(r, c, d)
      ensures c == d
    {
      RequestsOf(w, e, c);
      RequestsOf(w, e, d);
      assert c in w.waiting && d in w.waiting ==> SameAsk(w, c, d);
    }
    assert e.Respond? ==> forall d :: d in w.waiting && SameAsk(w, d, e.request) ==> d == e.request;
    forall f: nat, c | Unfinished(r, f) && c in r.waiting
      ensures r.controllers[c].gate != r.flights[f].gate || r.controllers[c].peer != r.flights[f].winner
    {
      FlightsOf(w, e, f);
      RequestsOf(w, e, c);
    }
    forall f: nat | Unfinished(r, f) && r.gates[r.flights[f].gate].key in r.active
      ensures r.active[r.gates[r.flights[f].gate].key] == r.flights[f].gate
    {
      FlightsOf(w, e, f);
      KeysOf(w, e, r.gates[r.flights[f].gate].key);
    }
  }

  ghost predicate OrderlyRun(w: World, events: seq<Event>)
    requires Invariant(w) && Feasible(w, events)
    decreases |events|
  {
    events == [] || (Orderly(w, events[0]) && (StepKeeps(w, events[0]); OrderlyRun(Step(w, events[0]), events[1..])))
  }

  lemma {:induction false} OrderlyRunsLoseNothing(w: World, events: seq<Event>)
    requires Invariant(w) && Feasible(w, events) && OrderlyRun(w, events)
    requires Solo(w) && Tracked(w) && Reachable(w)
    ensures Invariant(Run(w, events))
    ensures Solo(Run(w, events)) && Tracked(Run(w, events)) && Reachable(Run(w, events))
    decreases |events|
  {
    if events != [] {
      var e := events[0];
      StepKeeps(w, e);
      SoloIsSafe(w, e);
      TrackedExactly(w, e);
      ReachableExactly(w, e);
      SoloKept(w, e);
      OrderlyRunsLoseNothing(Step(w, e), events[1..]);
    }
  }

  /** In an orderly run every unsettled gate is found by its key, and a settled gate has no open request that was
      not aborted. */
  lemma SettledGatesLeaveNothingOpen(events: seq<Event>, c: nat, g: nat)
    requires Feasible(EMPTY, events) && OrderlyRun(EMPTY, events)
    ensures var w := Run(EMPTY, events);
      && WellFormed(w)
      && (c in w.waiting && w.gates[w.controllers[c].gate].settled ==> w.controllers[c].aborted)
      && (g < |w.gates| && !w.gates[g].settled ==> w.gates[g].key in w.active && w.active[w.gates[g].key] == g)
  {
    OrderlyRunsLoseNothing(EMPTY, events);
    var w := Run(EMPTY, events);
    if c in w.waiting && w.gates[w.controllers[c].gate].settled {
      SettledAbortsAll(w, c);
    }
  }

  // ----- and that they do happen otherwise -----

  const KEY := Key(1, Proposal, 7)

  const OPENED := World([Gate(KEY, 1, 5, map[], false, false)], map[KEY := 0], [], {}, [], [])
  const ASKED := World([Gate(KEY, 1, 5, map[0 := 0], false, false)], map[KEY := 0], [Controller(0, 0, false)], {0}, [], [])
  const REMOVED := World([Gate(KEY, 1, 5, map[], false, false)], map[KEY := 0], [Controller(0, 0, true)], {0}, [], [])
  const ASKED_AGAIN := World([Gate(KEY, 1, 5, map[0 := 1], false, false)], map[KEY := 0],
                             [Controller(0, 0, true), Controller(0, 0, false)], {0, 1}, [], [])
  const FORGOTTEN := World([Gate(KEY, 1, 5, map[], false, false)], map[KEY := 0],
                           [Controller(0, 0, true), Controller(0, 0, false)], {1}, [], [])

  const SETTLING := World([Gate(KEY, 1, 5, map[0 := 0], true, false)], map[KEY := 0], [Controller(0, 0, false)], {},
                          [Flight(0, 0, false)], [Began(0)])
  const CANCELLED := World([Gate(KEY, 1, 5, map[], true, true)], map[], [Controller(0, 0, true)], {},
                           [Flight(0, 0, false)], [Began(0)])
  const REOPENED := World([Gate(KEY, 1, 5, map[], true, true), Gate(KEY, 1, 5, map[], false, false)], map[KEY := 1],
                          [Controller(0, 0, true)], {}, [Flight(0, 0, false)], [Began(0)])

  ghost predicate Leads(w: World, end: World)
    requires Invariant(w)
  {
    exists events :: Feasible(w, events) && Run(w, events) == end
  }

  lemma LeadsBy(w: World, e: Event, end: World)
    requires Invariant(w) && Enabled(w, e)
    requires (StepKeeps(w, e); Leads(Step(w, e), end))
    ensures Leads(w, end)
  {
    StepKeeps(w, e);
    var rest :| Feasible(Step(w, e), rest) && Run(Step(w, e), rest) == end;
    assert ([e] + rest)[1..] == rest;
    assert Feasible(w, [e] + rest) && Run(w, [e] + rest) == end;
  }

  lemma LeadsNowhere(w: World)
    requires Invariant(w)
    ensures Leads(w, w)
  {
    assert Feasible(w, []) && Run(w, []) == w;
  }

  lemma AskedByStep()
    ensures Step(EMPTY, Open(KEY, 5)) == OPENED
    ensures Invariant(OPENED) && Step(OPENED, Dispatch(0, 0, true)) == ASKED
  {
  }

  lemma RemovedByStep()
    ensures Invariant(ASKED) && Step(ASKED, RemovePeerSession(0, 1, {5})) == REMOVED
  {
    var w := ASKED;
    assert GatesOfSession(w, 1, {5}) == {0} by {
      assert KEY in w.active && w.active[KEY] == 0;
    }
    var r := Step(w, RemovePeerSession(0, 1, {5}));
    assert r.gates == REMOVED.gates && r.controllers == REMOVED.controllers;
  }

  lemma AskedAgainByStep()
    ensures Invariant(REMOVED) && Step(REMOVED, Dispatch(0, 0, true)) == ASKED_AGAIN
  {
  }

  lemma ForgottenByStep()
    ensures Invariant(ASKED_AGAIN) && Tracked(ASKED_AGAIN) && Step(ASKED_AGAIN, Reject(0)) == FORGOTTEN
  {
    var r := Step(ASKED_AGAIN, Reject(0));
    assert r.gates == FORGOTTEN.gates && r.waiting == FORGOTTEN.waiting;
  }

  lemma SettlingByStep()
    ensures Invariant(ASKED) && Step(ASKED, Respond(0, true)) == SETTLING && Invariant(SETTLING)
  {
    StepKeeps(ASKED, Respond(0, true));
  }

  lemma CancelledByStep()
    requires Invariant(SETTLING)
    ensures Step(SETTLING, CancelProposal(1, 7, false)) == CANCELLED && Invariant(CANCELLED)
  {
    var r := Step(SETTLING, CancelProposal(1, 7, false));
    StepKeeps(SETTLING, CancelProposal(1, 7, false));
    assert r.gates == CANCELLED.gates && r.active == CANCELLED.active && r.controllers == CANCELLED.controllers;
  }

  lemma ReopenedByStep()
    requires Invariant(CANCELLED)
    ensures Step(CANCELLED, Open(KEY, 5)) == REOPENED && Invariant(REOPENED)
  {
    StepKeeps(CANCELLED, Open(KEY, 5));
  }

  /** A request that is still open at a settled gate and was never aborted. */
  ghost predicate LeftOpen(w: World, c: nat)
    requires WellFormed(w)
  {
    c in w.waiting && w.gates[w.controllers[c].gate].settled && !w.controllers[c].aborted
  }

  /** Some run leaves a request open: a peer is removed from a session and asked again before its first request's
      rejection is handled, the handler forgets the second request, and the gate's cancellation passes it by. */
  lemma RequestCanBeLost()
    ensures exists events, c: nat :: Feasible(EMPTY, events) && (RunKeeps(EMPTY, events); LeftOpen(Run(EMPTY, events), c))
  {
    ForgottenByStep();
    StepKeeps(ASKED_AGAIN, Reject(0));
    StepKeeps(FORGOTTEN, CancelProposal(1, 7, false));
    var end := Step(FORGOTTEN, CancelProposal(1, 7, false));
    assert LeftOpen(end, 1);
    LeadsToForgotten(end);
    var events :| Feasible(EMPTY, events) && Run(EMPTY, events) == end;
    RunKeeps(EMPTY, events);
    assert LeftOpen(Run(EMPTY, events), 1);
  }

  lemma LeadsToForgotten(end: World)
    requires Invariant(FORGOTTEN) && end == Step(FORGOTTEN, CancelProposal(1, 7, false))
    ensures Leads(EMPTY, end)
  {
    AskedByStep();
    RemovedByStep();
    AskedAgainByStep();
    ForgottenByStep();
    StepKeeps(FORGOTTEN, CancelProposal(1, 7, false));
    LeadsNowhere(end);
    LeadsBy(FORGOTTEN, CancelProposal(1, 7, false), end);
    LeadsBy(ASKED_AGAIN, Reject(0), end);
    LeadsBy(REMOVED, Dispatch(0, 0, true), end);
    LeadsBy(ASKED, RemovePeerSession(0, 1, {5}), end);
    LeadsBy(OPENED, Dispatch(0, 0, true), end);
    LeadsBy(EMPTY, Open(KEY, 5), end);
  }

  /** A gate that is not settled and that no key leads to. */
  ghost predicate Hidden(w: World, g: nat) {
    g < |w.gates| && !w.gates[g].settled && forall k :: k in w.active ==> w.active[k] != g
  }

  /** Some run hides a gate: it is cancelled while its winner is being resolved, its key is opened again, and the late
      success removes the new gate from the active ones although nothing settled it. */
  lemma GateCanBeLost()
    ensures exists events, g: nat :: Feasible(EMPTY, events) && Hidden(Run(EMPTY, events), g)
  {
    SettlingByStep();
    CancelledByStep();
    ReopenedByStep();
    assert Unfinished(REOPENED, 0);
    var end := Step(REOPENED, CoreSucceeds(0));
    EvictedByStep(end);
    LeadsToReopened(end);
    var events :| Feasible(EMPTY, events) && Run(EMPTY, events) == end;
    assert Hidden(Run(EMPTY, events), 1);
  }

  lemma EvictedByStep(end: World)
    requires Invariant(REOPENED) && Unfinished(REOPENED, 0) && end == Step(REOPENED, CoreSucceeds(0))
    ensures Hidden(end, 1)
  {
    assert end.active == map[];
  }

  lemma LeadsToReopened(end: World)
    requires Invariant(REOPENED) && Unfinished(REOPENED, 0) && end == Step(REOPENED, CoreSucceeds(0))
    ensures Leads(EMPTY, end)
  {
    AskedByStep();
    SettlingByStep();
    CancelledByStep();
    ReopenedByStep();
    StepKeeps(REOPENED, CoreSucceeds(0));
    LeadsNowhere(end);
    LeadsBy(REOPENED, CoreSucceeds(0), end);
    LeadsBy(CANCELLED, Open(KEY, 5), end);
    LeadsBy(SETTLING, CancelProposal(1, 7, false), end);
    LeadsBy(ASKED, Respond(0, true), end);
    LeadsBy(OPENED, Dispatch(0, 0, true), end);
    LeadsBy(EMPTY, Open(KEY, 5), end);
  }
}
