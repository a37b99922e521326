/** The tracker in place: every method makes exactly the step of the gate machine it is named for. */
module GateTracker {
  import opened Gates

  class Tracker {
    var gates: seq<Gate>
    var active: map<Key, nat>
    var controllers: seq<Controller>
    var waiting: set<nat>
    var flights: seq<Flight>
    ghost var log: seq<Mark>

    constructor ()
      ensures Model() == EMPTY
    {
      gates, active, controllers, waiting, flights := [], map[], [], {}, [];
      log := [];
    }

    ghost function Model(): World
      reads this
    {
      World(gates, active, controllers, waiting, flights, log)
    }

    ghost predicate Valid()
      reads this
    {
      Invariant(Model())
    }

    method OpenOrGet(key: Key, sessionId: int) returns (gate: nat)
      requires Valid()
      modifies this
      ensures Model() == OpenStep(old(Model()), key, sessionId)
      ensures Valid() && key in active && active[key] == gate
    {
      ghost var before := Model();
      OpenKeeps(before, key, sessionId);
      if key in active && !gates[active[key]].settled {
        return active[key];
      }
      gate := |gates|;
      gates := gates + [Gate(key, key.workspaceId, sessionId, map[], false, false)];
      active := active[key := gate];
    }

    method DispatchToPeer(gate: nat, peer: Peer, connected: bool)
      requires Valid() && gate < |gates|
      modifies this
      ensures Valid() && Model() == DispatchStep(old(Model()), gate, peer, connected)
    {
      DispatchKeeps(Model(), gate, peer, connected);
      if !connected || gates[gate].settled || peer in gates[gate].controllers {
        return;
      }
      var c := |controllers|;
      gates := gates[gate := gates[gate].(controllers := gates[gate].controllers[peer := c])];
      controllers := controllers + [Controller(gate, peer, false)];
      waiting := waiting + {c};
    }

    method OnResponse(c: nat, valid: bool)
      requires Valid() && c in waiting
      modifies this
      ensures Valid() && Model() == RespondStep(old(Model()), c, valid)
    {
      RespondKeeps(Model(), c, valid);
      waiting := waiting - {c};
      var gate := controllers[c].gate;
      if gates[gate].settled || controllers[c].aborted || !valid {
        return;
      }
      if gates[gate].settled || gates[gate].settling {
        return;
      }
      gates := gates[gate := gates[gate].(settling := true)];
      flights := flights + [Flight(gate, controllers[c].peer, false)];
      log := log + [Began(gate)];
    }

    method OnRejection(c: nat)
      requires Valid() && c in waiting
      modifies this
      ensures Valid() && Model() == RejectStep(old(Model()), c)
    {
      RejectKeeps(Model(), c);
      waiting := waiting - {c};
      var gate := controllers[c].gate;
      gates := gates[gate := gates[gate].(controllers := gates[gate].controllers - {controllers[c].peer})];
    }

    /** Aborts every request the gate holds and forgets them; the gate is settled. */
    method Close(gate: nat)
      requires WellFormed(Model()) && gate < |gates|
      modifies `gates, `controllers
      ensures gates == CloseAll(old(Model()), {gate}).gates
      ensures controllers == CloseAll(old(Model()), {gate}).controllers
    {
      ghost var before := Model();
      var held := gates[gate].controllers;
      gates := gates[gate := gates[gate].(settled := true)];
      var peers := held.Keys;
      while peers != {}
        invariant peers <= held.Keys
        invariant gates == before.gates[gate := before.gates[gate].(settled := true)]
        invariant AbortedExcept(before, gate, peers, controllers)
      {
        var p :| p in peers;
        var c := held[p];
        assert p in before.gates[gate].controllers && before.gates[gate].controllers[p] == c;
        AbortedNext(before, gate, peers, controllers, p);
        controllers := controllers[c := controllers[c].(aborted := true)];
        peers := peers - {p};
      }
      gates := gates[gate := gates[gate].(controllers := map[])];
      ClosesOne(before, gate, gates, controllers);
    }

    /** Settles a gate and frees its key, whichever gate is active under it. */
    method CloseAtKey(gate: nat)
      requires WellFormed(Model()) && gate < |gates|
      modifies this
      ensures Model() == CloseByKey(old(Model()), gate)
    {
      ghost var before := Model();
      active := active - {gates[gate].key};
      Close(gate);
    }

    /** Settles one gate that holds its own key. */
    method CloseActive(key: Key)
      requires Valid() && key in active
      modifies this
      ensures Valid() && Model() == CloseAll(old(Model()), {old(active)[key]})
    {
      CloseAllKeeps(Model(), {active[key]});
      ActiveWithout(Model(), key);
      CloseAtKey(active[key]);
    }

    /** The awaited settlement is over. */
    method Land(f: nat)
      requires WellFormed(Model()) && f < |flights|
      modifies this
      ensures Model() == Landed(old(Model()), f)
    {
      var gate, winner := flights[f].gate, flights[f].winner;
      // The winner's request is forgotten without being aborted.
      gates := gates[gate := gates[gate].(settling := false, controllers := gates[gate].controllers - {winner})];
      flights := flights[f := flights[f].(done := true)];
    }

    method OnCoreSuccess(f: nat)
      requires Valid() && Unfinished(Model(), f)
      modifies this
      ensures Valid() && Model() == CoreSucceedsStep(old(Model()), f)
    {
      StepKeeps(Model(), CoreSucceeds(f));
      LandedIsWellFormed(Model(), f);
      Land(f);
      var gate := flights[f].gate;
      CloseAtKey(gate);
      log := log + [Resolved(gate)];
    }

    method OnCoreFailure(f: nat, alreadySettled: bool)
      requires Valid() && Unfinished(Model(), f)
      modifies this
      ensures Valid() && Model() == CoreFailsStep(old(Model()), f, alreadySettled)
    {
      StepKeeps(Model(), CoreFails(f, alreadySettled));
      LandedIsWellFormed(Model(), f);
      Land(f);
      if alreadySettled {
        CloseAtKey(flights[f].gate);
      }
    }

    method CancelProposalIfSettled(workspaceId: int, entryId: int, stillProposed: bool)
      requires Valid()
      modifies this
      ensures Valid() && Model() == Step(old(Model()), CancelProposal(workspaceId, entryId, stillProposed))
    {
      var key := Key(workspaceId, Proposal, entryId);
      if !stillProposed && key in active {
        CloseActive(key);
      }
    }

    /** Settles, one after the other, the active gates whose keys are in `keys`. */
    method CloseKeys(keys: set<Key>)
      requires Valid() && keys <= active.Keys
      modifies this
      ensures Valid() && Model() == CloseAll(old(Model()), set k | k in keys :: old(active)[k])
    {
      ghost var before := Model();
      var left := keys;
      ghost var hit: set<nat> := {};
      CloseNothing(before);
      while left != {}
        invariant left <= keys && left <= active.Keys
        invariant hit == set k | k in keys - left :: before.active[k]
        invariant Valid() && Model() == CloseAll(before, hit)
        invariant forall k :: k in left ==> active[k] == before.active[k]
      {
        var k :| k in left;
        CloseTwice(before, hit, before.active[k]);
        HitGrows(before, keys, left, k);
        CloseActive(k);
        left := left - {k};
        hit := hit + {before.active[k]};
      }
      assert keys - left == keys;
    }

    method CancelSessionGates(workspaceId: int, sessionId: int)
      requires Valid()
      modifies this
      ensures Valid() && Model() == Step(old(Model()), CancelSession(workspaceId, sessionId))
    {
      var keys := set k | k in active && gates[active[k]].workspaceId == workspaceId && gates[active[k]].sessionId == sessionId;
      assert (set k | k in keys :: active[k]) == GatesOfSession(Model(), workspaceId, {sessionId});
      CloseKeys(keys);
    }

    method ClearAll()
      requires Valid()
      modifies this
      ensures Valid() && Model() == Step(old(Model()), Clear)
    {
      assert (set k | k in active.Keys :: active[k]) == active.Values;
      CloseKeys(active.Keys);
    }

    /** Aborts and forgets the request of a peer at one gate, if the gate holds one. */
    method DropAt(gate: nat, peer: Peer)
      requires WellFormed(Model()) && gate < |gates|
      modifies `gates, `controllers
      ensures peer !in old(gates)[gate].controllers ==> Model() == old(Model())
      ensures peer in old(gates)[gate].controllers ==>
        var held, c := old(gates)[gate].controllers, old(gates)[gate].controllers[peer];
        && c < |old(controllers)|
        && gates == old(gates)[gate := old(gates)[gate].(controllers := held - {peer})]
        && controllers == old(controllers)[c := old(controllers)[c].(aborted := true)]
    {
      if peer in gates[gate].controllers {
        var c := gates[gate].controllers[peer];
        controllers := controllers[c := controllers[c].(aborted := true)];
        gates := gates[gate := gates[gate].(controllers := gates[gate].controllers - {peer})];
      }
    }

    /** Aborts and forgets the request of `peer` at the active gates whose keys are in `keys`. */
    method DropAtKeys(peer: Peer, keys: set<Key>)
      requires Valid() && keys <= active.Keys
      modifies this
      ensures Valid() && Model() == DropPeer(old(Model()), peer, set k | k in keys :: old(active)[k])
    {
      ghost var before := Model();
      var left := keys;
      ghost var hit: set<nat> := {};
      DropNothing(before, peer);
      while left != {}
        invariant left <= keys
        invariant hit == set k | k in keys - left :: before.active[k]
        invariant Model() == DropPeer(before, peer, hit)
      {
        var k :| k in left;
        DropPeerKeeps(before, peer, hit);
        DropTwice(before, peer, hit, before.active[k]);
        DropAt(active[k], peer);
        HitGrows(before, keys, left, k);
        left := left - {k};
        hit := hit + {active[k]};
      }
      assert keys - left == keys;
      DropPeerKeeps(before, peer, hit);
    }

    method RemovePeerEverywhere(peer: Peer)
      requires Valid()
      modifies this
      ensures Valid() && Model() == Step(old(Model()), RemovePeer(peer))
    {
      assert (set k | k in active.Keys :: active[k]) == active.Values;
      DropAtKeys(peer, active.Keys);
    }

    method RemovePeerFromSessions(peer: Peer, workspaceId: int, sessionIds: set<int>)
      requires Valid()
      modifies this
      ensures Valid() && Model() == Step(old(Model()), RemovePeerSession(peer, workspaceId, sessionIds))
    {
      var keys := set k | k in active && gates[active[k]].workspaceId == workspaceId && gates[active[k]].sessionId in sessionIds;
      assert (set k | k in keys :: active[k]) == GatesOfSession(Model(), workspaceId, sessionIds);
      DropAtKeys(peer, keys);
    }
  }

  // ----- closing one gate -----

  /** The requests the gate holds are aborted, except those of `peers`; no other is touched. */
  ghost predicate AbortedExcept(before: World, gate: nat, peers: set<Peer>, controllers: seq<Controller>)
    requires WellFormed(before)
  {
    && |controllers| == |before.controllers|
    && forall c :: 0 <= c < |controllers| ==>
         controllers[c] ==
           if before.controllers[c].gate == gate && Registered(before, c) && before.controllers[c].peer !in peers
           then before.controllers[c].(aborted := true) else before.controllers[c]
  }

  lemma AbortedNext(before: World, gate: nat, peers: set<Peer>, controllers: seq<Controller>, p: Peer)
    requires WellFormed(before) && gate < |before.gates| && p in before.gates[gate].controllers && p in peers
    requires AbortedExcept(before, gate, peers, controllers)
    ensures var c := before.gates[gate].controllers[p];
      c < |controllers| && AbortedExcept(before, gate, peers - {p}, controllers[c := controllers[c].(aborted := true)])
  {
    var c := before.gates[gate].controllers[p];
    assert before.controllers[c].gate == gate && before.controllers[c].peer == p;
  }

  lemma ClosesOne(before: World, gate: nat, gates: seq<Gate>, controllers: seq<Controller>)
    requires WellFormed(before) && gate < |before.gates|
    requires gates == before.gates[gate := Closed(before.gates[gate])]
    requires AbortedExcept(before, gate, {}, controllers)
    ensures gates == CloseAll(before, {gate}).gates && controllers == CloseAll(before, {gate}).controllers
  {
  }

  lemma ActiveWithout(w: World, key: Key)
    requires WellFormed(w) && key in w.active
    ensures CloseAll(w, {w.active[key]}).active == w.active - {key}
  {
  }

  // ----- closing gates one after the other -----

  /** The gates dealt with grow by one; the keys still to come are not among them. */
  lemma HitGrows(w: World, keys: set<Key>, left: set<Key>, k: Key)
    requires WellFormed(w) && left <= keys <= w.active.Keys && k in left
    ensures var hit := set j | j in keys - left :: w.active[j];
      && (set j | j in keys - (left - {k}) :: w.active[j]) == hit + {w.active[k]}
      && forall j :: j in left - {k} ==> w.active[j] !in hit + {w.active[k]}
  {
    assert keys - (left - {k}) == (keys - left) + {k};
    assert forall j :: j in keys ==> w.gates[w.active[j]].key == j;
  }

  lemma CloseNothing(w: World)
    requires Invariant(w)
    ensures CloseAll(w, {}) == w
  {
    var r := CloseAll(w, {});
    assert r.gates == w.gates && r.active == w.active && r.controllers == w.controllers;
  }

  lemma CloseTwice(w: World, hit: set<nat>, gate: nat)
    requires Invariant(w)
    ensures WellFormed(CloseAll(w, hit)) && CloseAll(CloseAll(w, hit), {gate}) == CloseAll(w, hit + {gate})
  {
    CloseAllKeeps(w, hit);
    var once := CloseAll(w, hit);
    var twice, both := CloseAll(once, {gate}), CloseAll(w, hit + {gate});
    assert twice.gates == both.gates;
    assert twice.active == both.active;
    forall c | 0 <= c < |w.controllers|
      ensures twice.controllers[c] == both.controllers[c]
    {
      assert w.controllers[c].gate !in hit ==> (Registered(once, c) <==> Registered(w, c));
    }
    assert twice.controllers == both.controllers;
  }

  lemma DropNothing(w: World, peer: Peer)
    requires Invariant(w)
    ensures DropPeer(w, peer, {}) == w
  {
    var r := DropPeer(w, peer, {});
    assert r.gates == w.gates && r.controllers == w.controllers;
  }

  /** Dropping a peer at one more gate. */
  lemma DropTwice(w: World, peer: Peer, hit: set<nat>, gate: nat)
    requires Invariant(w) && gate < |w.gates|
    ensures var once, both := DropPeer(w, peer, hit), DropPeer(w, peer, hit + {gate});
      if peer in once.gates[gate].controllers then
        var c := once.gates[gate].controllers[peer];
        && c < |once.controllers|
        && both == once.(gates := once.gates[gate := once.gates[gate].(controllers := once.gates[gate].controllers - {peer})],
                         controllers := once.controllers[c := once.controllers[c].(aborted := true)])
      else both == once
  {
    var once, both := DropPeer(w, peer, hit), DropPeer(w, peer, hit + {gate});
    if peer in once.gates[gate].controllers {
      var c := once.gates[gate].controllers[peer];
      assert gate !in hit && w.gates[gate] == once.gates[gate];
      forall x | 0 <= x < |w.controllers|
        ensures (w.controllers[x].gate == gate && w.controllers[x].peer == peer && Registered(w, x)) <==> x == c
      {
      }
      assert both.gates == once.gates[gate := once.gates[gate].(controllers := once.gates[gate].controllers - {peer})];
      assert both.controllers == once.controllers[c := once.controllers[c].(aborted := true)];
    } else {
      assert peer !in w.gates[gate].controllers ==> w.gates[gate].controllers - {peer} == w.gates[gate].controllers;
      forall g | 0 <= g < |w.gates|
        ensures both.gates[g] == once.gates[g]
      {
      }
      assert both.gates == once.gates;
      forall x | 0 <= x < |w.controllers|
        ensures both.controllers[x] == once.controllers[x]
      {
        assert gate !in hit ==> once.gates[gate] == w.gates[gate];
      }
      assert both.controllers == once.controllers;
    }
  }
}
