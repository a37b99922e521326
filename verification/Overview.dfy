/** Coalesced overview refreshes: requests set a flag, and one flush at a time passes over the subscribers until the
    flag stays down (plurnk-acp/src/Module.ts). Everything between two awaits is one step. */
module Overview {

  import opened Optional

  type Peer = int

  /** What happened, in order: a request while someone listened, a pass over the subscribers it found, a stop. */
  datatype Entry = Requested | Looked(peers: set<Peer>) | Stopped

  /** `callbacks` are the flushes handed to setImmediate and not yet begun; `passing` are the peers of the flush that is
      waiting for its pass to settle. `subscribers` are the connected peers with a subscription. */
  datatype State = State(dirty: bool, flushScheduled: bool, stopped: bool, callbacks: nat, passing: Option<set<Peer>>,
    subscribers: set<Peer>, log: seq<Entry>)

  datatype Event = Request | Fire | Settle | Stop | Subscribe(peer: Peer) | Leave(peer: Peer)

  const INITIAL := State(false, false, false, 0, None, {}, [])

  // ----- the steps -----

  function Schedule(s: State): State {
    if s.stopped || s.subscribers == {} then s
    else
      var dirty := s.(dirty := true, log := s.log + [Requested]);
      if s.flushScheduled then dirty else dirty.(flushScheduled := true, callbacks := s.callbacks + 1)
  }

  /** The flush loop from its test to the next await or to its end. */
  function Turn(s: State): State {
    if !s.dirty || s.stopped then s.(flushScheduled := false, passing := None)
    else
      var looked := s.(dirty := false, log := s.log + [Looked(s.subscribers)]);
      if s.subscribers == {} then looked.(flushScheduled := false, passing := None)
      else looked.(passing := Some(s.subscribers))
  }

  /** Steps that are not enabled change nothing. */
  function Step(s: State, e: Event): State {
    match e
    case Request => Schedule(s)
    case Fire => if s.callbacks == 0 then s else Turn(s.(callbacks := s.callbacks - 1))
    case Settle => if s.passing.None? then s else Turn(s)
    case Stop => s.(stopped := true, log := s.log + [Stopped])
    case Subscribe(peer) => s.(subscribers := s.subscribers + {peer})
    case Leave(peer) => s.(subscribers := s.subscribers - {peer})
  }

  function Run(s: State, events: seq<Event>): State
    decreases |events|
  {
    if events == [] then s else Run(Step(s, events[0]), events[1..])
  }

  // ----- the class -----

  class Module {
    var dirty: bool
    var flushScheduled: bool
    var stopped: bool
    var callbacks: nat
    var passing: Option<set<Peer>>
    var subscribers: set<Peer>
    ghost var log: seq<Entry>

    ghost function Now(): State
      reads this
    {
      State(dirty, flushScheduled, stopped, callbacks, passing, subscribers, log)
    }

    constructor ()
      ensures Now() == INITIAL
    {
      dirty, flushScheduled, stopped, callbacks, passing, subscribers, log := false, false, false, 0, None, {}, [];
    }

    method ScheduleOverviewRefresh()
      modifies this
      ensures Now() == Step(old(Now()), Request)
    {
      if stopped {
        return;
      }
      if subscribers == {} {
        return;
      }
      dirty, log := true, log + [Requested];
      if flushScheduled {
        return;
      }
      flushScheduled, callbacks := true, callbacks + 1;
    }

    method BeginFlush()
      requires callbacks > 0
      modifies this
      ensures Now() == Step(old(Now()), Fire)
    {
      callbacks := callbacks - 1;
      Continue();
    }

    method PassSettled()
      requires passing.Some?
      modifies this
      ensures Now() == Step(old(Now()), Settle)
    {
      Continue();
    }

    method Continue()
      modifies this
      ensures Now() == Turn(old(Now()))
    {
      passing := None;
      if dirty && !stopped {
        dirty := false;
        var activePeers := subscribers;
        log := log + [Looked(activePeers)];
        if activePeers != {} {
          passing := Some(activePeers);
          return;
        }
      }
      flushScheduled := false;
    }

    method StopRefreshing()
      modifies this
      ensures Now() == Step(old(Now()), Stop)
    {
      stopped, log := true, log + [Stopped];
    }
  }

  // ----- what every step keeps -----

  /** How many flushes exist: begun ones and those still to begin. */
  function Flushes(s: State): nat {
    s.callbacks + if s.passing.Some? then 1 else 0
  }

  ghost predicate Answers(e: Entry) {
    e.Looked? || e.Stopped?
  }

  /** Position `i` of the log is followed by a pass or a stop. */
  ghost predicate Answered(log: seq<Entry>, i: nat) {
    exists j :: i < j < |log| && Answers(log[j])
  }

  ghost predicate Invariant(s: State) {
    && Flushes(s) == (if s.flushScheduled then 1 else 0)
    && (s.dirty && !s.stopped ==> s.flushScheduled)
    && (s.stopped <==> Stopped in s.log)
    && (s.passing.Some? ==> s.passing.value != {})
    && forall i :: 0 <= i < |s.log| && s.log[i] == Requested ==> Answered(s.log, i) || s.dirty
  }

  lemma AnsweredStays(log: seq<Entry>, e: Entry, i: nat)
    requires i < |log|
    ensures Answered(log, i) ==> Answered(log + [e], i)
    ensures Answers(e) ==> Answered(log + [e], i)
  {
    if Answered(log, i) {
      var j :| i < j < |log| && Answers(log[j]);
      assert (log + [e])[j] == log[j];
    }
    if Answers(e) {
      assert (log + [e])[|log|] == e;
    }
  }

  lemma LogGrows(s: State, e: Entry)
    requires Invariant(s)
    ensures forall i :: 0 <= i < |s.log| && s.log[i] == Requested ==> Answered(s.log + [e], i) || (s.dirty && !Answers(e))
  {
    forall i | 0 <= i < |s.log| && s.log[i] == Requested ensures Answered(s.log + [e], i) || (s.dirty && !Answers(e)) {
      AnsweredStays(s.log, e, i);
    }
  }

  /** At every step a raised flag on a running module has a flush to serve it, at most one flush exists, and a request not
      yet followed by a pass or a stop still has the flag up. */
  lemma StepKeeps(s: State, e: Event)
    requires Invariant(s)
    ensures Invariant(Step(s, e))
  {
    match e {
      case Request => LogGrows(s, Requested);
      case Fire => LogGrows(s, Looked(s.subscribers));
      case Settle => LogGrows(s, Looked(s.subscribers));
      case Stop => LogGrows(s, Stopped);
      case _ =>
    }
  }

  lemma {:induction false} RunKeeps(s: State, events: seq<Event>)
    requires Invariant(s)
    ensures Invariant(Run(s, events))
    decreases |events|
  {
    if events != [] {
      StepKeeps(s, events[0]);
      RunKeeps(Step(s, events[0]), events[1..]);
    }
  }

  // ----- no request is lost -----

  /** Nothing is scheduled and nothing is waiting. */
  predicate Quiet(s: State) {
    s.callbacks == 0 && s.passing.None?
  }

  /** In every run that has come to rest, a pass or a stop follows each request. */
  lemma NoRequestIsLost(events: seq<Event>, i: nat)
    requires var s := Run(INITIAL, events); Quiet(s) && i < |s.log| && s.log[i] == Requested
    ensures Answered(Run(INITIAL, events).log, i)
  {
    RunKeeps(INITIAL, events);
    var s := Run(INITIAL, events);
    if s.dirty {
      StopAnswers(events, i);
    }
  }

  /** No request enters the log after a stop. */
  ghost predicate NoRequestAfterStop(log: seq<Entry>) {
    forall i, j :: 0 <= i < j < |log| && log[i] == Stopped ==> log[j] != Requested
  }

  lemma {:induction false} StopIsLast(s: State, events: seq<Event>)
    requires Invariant(s) && NoRequestAfterStop(s.log)
    ensures NoRequestAfterStop(Run(s, events).log)
    decreases |events|
  {
    if events != [] {
      StepKeeps(s, events[0]);
      StopIsLast(Step(s, events[0]), events[1..]);
    }
  }

  lemma StopAnswers(events: seq<Event>, i: nat)
    requires var s := Run(INITIAL, events); s.stopped && i < |s.log| && s.log[i] == Requested
    ensures Answered(Run(INITIAL, events).log, i)
  {
    RunKeeps(INITIAL, events);
    StopIsLast(INITIAL, events);
    var log := Run(INITIAL, events).log;
    var j :| 0 <= j < |log| && log[j] == Stopped;
    assert i < j && Answers(log[j]);
  }

  /** The step the event loop takes next on its own, if there is one. */
  function Tick(s: State): State {
    if s.callbacks > 0 then Step(s, Fire) else Step(s, Settle)
  }

  /** Left alone, every run comes to rest within two such steps. */
  lemma ComesToRest(events: seq<Event>)
    ensures Quiet(Tick(Tick(Run(INITIAL, events))))
  {
    RunKeeps(INITIAL, events);
  }

  /** Since position `n` of the log a pass has served the peer, or the flag is up and the peer is still there. */
  ghost predicate Served(log: seq<Entry>, n: nat, peer: Peer) {
    exists j :: n <= j < |log| && log[j].Looked? && peer in log[j].peers
  }

  ghost predicate Owed(s: State, n: nat, peer: Peer) {
    n <= |s.log| && !s.stopped && peer in s.subscribers && (Served(s.log, n, peer) || s.dirty)
  }

  lemma ServedStays(log: seq<Entry>, n: nat, peer: Peer, e: Entry)
    requires n <= |log|
    ensures Served(log, n, peer) ==> Served(log + [e], n, peer)
    ensures e.Looked? && peer in e.peers ==> Served(log + [e], n, peer)
  {
    if Served(log, n, peer) {
      var j :| n <= j < |log| && log[j].Looked? && peer in log[j].peers;
      assert (log + [e])[j] == log[j];
    }
    assert (log + [e])[|log|] == e;
  }

  lemma OwedStays(s: State, e: Event, n: nat, peer: Peer)
    requires Owed(s, n, peer) && e != Stop && e != Leave(peer)
    ensures Owed(Step(s, e), n, peer)
  {
    ServedStays(s.log, n, peer, Requested);
    ServedStays(s.log, n, peer, Looked(s.subscribers));
  }

  lemma {:induction false} OwedThroughout(s: State, events: seq<Event>, n: nat, peer: Peer)
    requires Owed(s, n, peer) && Stop !in events && Leave(peer) !in events
    ensures Owed(Run(s, events), n, peer)
    decreases |events|
  {
    if events != [] {
      OwedStays(s, events[0], n, peer);
      OwedThroughout(Step(s, events[0]), events[1..], n, peer);
    }
  }

  /** A request made while a peer listens is served to that peer by a pass that starts after it, whatever happens in
      between, as long as the peer stays and the module is not stopped. */
  lemma StayingSubscriberIsServed(before: seq<Event>, peer: Peer, after: seq<Event>)
    requires var s := Run(INITIAL, before); !s.stopped && peer in s.subscribers
    requires Stop !in after && Leave(peer) !in after
    requires Quiet(Run(Step(Run(INITIAL, before), Request), after))
    ensures Served(Run(Step(Run(INITIAL, before), Request), after).log, |Run(INITIAL, before).log| + 1, peer)
  {
    var s := Run(INITIAL, before);
    var n := |s.log| + 1;
    RunKeeps(INITIAL, before);
    StepKeeps(s, Request);
    RunKeeps(Step(s, Request), after);
    OwedThroughout(Step(s, Request), after, n, peer);
  }

  /** The log since position `n`. */
  ghost predicate Silent(log: seq<Entry>, n: nat) {
    forall j :: n <= j < |log| ==> log[j] == Stopped
  }

  lemma {:induction false} StoppedStaysSilent(s: State, events: seq<Event>, n: nat)
    requires s.stopped && n <= |s.log| && Silent(s.log, n)
    ensures Silent(Run(s, events).log, n) && Run(s, events).stopped
    decreases |events|
  {
    if events != [] {
      StoppedStaysSilent(Step(s, events[0]), events[1..], n);
    }
  }

  /** After a stop no request is taken and no pass begins. */
  lemma StopIsFinal(before: seq<Event>, after: seq<Event>)
    ensures Silent(Run(Step(Run(INITIAL, before), Stop), after).log, |Run(INITIAL, before).log|)
  {
    StoppedStaysSilent(Step(Run(INITIAL, before), Stop), after, |Run(INITIAL, before).log|);
  }

  lemma {:induction false} UnsubscribedIsNotServed(s: State, events: seq<Event>, n: nat, peer: Peer)
    requires peer !in s.subscribers && Subscribe(peer) !in events && n <= |s.log| && !Served(s.log, n, peer)
    ensures !Served(Run(s, events).log, n, peer)
    decreases |events|
  {
    if events != [] {
      UnsubscribedIsNotServed(Step(s, events[0]), events[1..], n, peer);
    }
  }

  /** A peer that left is in no pass begun afterwards, until it subscribes again. */
  lemma LeaverIsNotServed(before: seq<Event>, peer: Peer, after: seq<Event>)
    requires Subscribe(peer) !in after
    ensures !Served(Run(Step(Run(INITIAL, before), Leave(peer)), after).log, |Run(INITIAL, before).log|, peer)
  {
    UnsubscribedIsNotServed(Step(Run(INITIAL, before), Leave(peer)), after, |Run(INITIAL, before).log|, peer);
  }

  /** The peer subscribed and has not left since. */
  predicate Stays(events: seq<Event>, peer: Peer) {
    events != [] &&
    var last := events[|events| - 1];
    last == Subscribe(peer) || (last != Leave(peer) && Stays(events[..|events| - 1], peer))
  }

  lemma {:induction false} SubscribedFrom(s: State, events: seq<Event>, peer: Peer)
    ensures peer in Run(s, events).subscribers
       <==> Stays(events, peer) || (peer in s.subscribers && Leave(peer) !in events)
    decreases |events|
  {
    if events != [] {
      var rest := events[1..];
      SubscribedFrom(Step(s, events[0]), rest, peer);
      StaysAfter(events[0], rest, peer);
      assert events == [events[0]] + rest;
    }
  }

  lemma {:induction false} StaysAfter(e: Event, rest: seq<Event>, peer: Peer)
    ensures Stays([e] + rest, peer) <==> Stays(rest, peer) || (e == Subscribe(peer) && Leave(peer) !in rest)
    decreases |rest|
  {
    var all := [e] + rest;
    if rest == [] {
      assert all == [e] && all[..0] == [];
    } else {
      var init, last := rest[..|rest| - 1], rest[|rest| - 1];
      StaysAfter(e, init, peer);
      assert all[..|all| - 1] == [e] + init && all[|all| - 1] == last;
      assert rest == init + [last];
    }
  }

  /** In every run the subscribers are those that subscribed and have not left since. */
  lemma SubscribersAre(events: seq<Event>, peer: Peer)
    ensures peer in Run(INITIAL, events).subscribers <==> Stays(events, peer)
  {
    SubscribedFrom(INITIAL, events, peer);
  }

  /** A request counts exactly while the module runs and somebody listens. */
  lemma RequestCounts(s: State)
    requires Invariant(s)
    ensures var r := Step(s, Request);
      if s.stopped || s.subscribers == {} then r == s
      else r.dirty && r.log == s.log + [Requested] && Flushes(r) == 1 && r.passing == s.passing
  {
  }

  /** A pass begins exactly when a flush goes on with the flag up and the module running, over the subscribers of that
      moment; a flush that begins none is over. */
  lemma PassBegins(s: State, e: Event)
    requires Invariant(s) && ((e == Fire && s.callbacks > 0) || (e == Settle && s.passing.Some?))
    ensures var r := Step(s, e);
      && (if s.dirty && !s.stopped then r.log == s.log + [Looked(s.subscribers)] && !r.dirty else r.log == s.log && r.dirty == s.dirty)
      && (if s.dirty && !s.stopped && s.subscribers != {} then r.passing == Some(s.subscribers) && r.flushScheduled
          else Quiet(r) && !r.flushScheduled)
  {
  }

  /** Requests made while a pass is waiting coalesce: however many there are, one more pass answers them all. */
  lemma RequestsCoalesce(s: State, n: nat)
    requires Invariant(s) && s.passing.Some? && !s.stopped && s.subscribers != {} && n > 0
    ensures var busy := Run(s, seq(n, _ => Request));
      Flushes(busy) == 1 && busy.dirty && busy.passing == s.passing
        && Step(busy, Settle).passing == Some(s.subscribers) && !Step(busy, Settle).dirty
        && Quiet(Step(Step(busy, Settle), Settle))
    decreases n
  {
    var events := seq(n, _ => Request);
    var one := Step(s, Request);
    StepKeeps(s, Request);
    if n > 1 {
      RequestsCoalesce(one, n - 1);
      assert events[1..] == seq(n - 1, _ => Request);
    } else {
      assert events[1..] == [];
    }
  }
}
