/** What arrives at a session: every conclusion and every other event of it, and a read for each length that is longer than
    those announced before; each is handled once (plurnk-acp/src/events.ts). */
module EventArrivals {

  import opened EventContent
  import opened EventQueue
  import opened Optional

  /** The channel an event announces a length of, if it announces one. */
  function ChannelOf(e: Event): Option<Channel> {
    if e.StreamEvent? && e.target.Some? && e.channel.Some? then Some(Channel(e.key.workspaceId, e.entryId, e.channel.value)) else None
  }

  /** The longest length announced for the channel so far, on whichever session. */
  function Longest(events: seq<Event>, channel: Channel): int {
    if events == [] then 0
    else
      var before, e := Longest(events[..|events| - 1], channel), events[|events| - 1];
      if ChannelOf(e) == Some(channel) && e.contentLength > before then e.contentLength else before
  }

  /** What the event brings to the session, given those before it. */
  function Brings(before: seq<Event>, e: Event, key: Key): seq<Job> {
    if e.key != key then []
    else
      match e
      case StreamConcluded(_, entryId, status) => [Conclude(entryId, status)]
      case Arrives(_, topic) => [Handle(topic)]
      case StreamEvent(_, _, _, _, contentLength) =>
        if ChannelOf(e).None? || contentLength <= Longest(before, ChannelOf(e).value) then []
        else [Read(ChannelOf(e).value, e.target.value, Longest(before, ChannelOf(e).value), contentLength)]
      case _ => []
  }

  function AllBrought(events: seq<Event>, key: Key): seq<Job> {
    if events == [] then []
    else AllBrought(events[..|events| - 1], key) + Brings(events[..|events| - 1], events[|events| - 1], key)
  }

  lemma RunNext(events: seq<Event>)
    requires events != []
    ensures Run(INITIAL, events) == Step(Run(INITIAL, events[..|events| - 1]), events[|events| - 1])
  {
    var before, e := events[..|events| - 1], events[|events| - 1];
    RunAppends(INITIAL, before, [e]);
    assert events == before + [e] && [e][1..] == [];
    assert Run(Run(INITIAL, before), [e]) == Run(Step(Run(INITIAL, before), e), []);
  }

  /** Only an announcement moves the length kept for a channel. */
  lemma OffsetNext(s: State, e: Event, channel: Channel)
    ensures Offset(Step(s, e), channel)
         == if ChannelOf(e) == Some(channel) && e.contentLength > Offset(s, channel) then e.contentLength else Offset(s, channel)
  {
    if e.StreamConcluded? {
      EnqueueLeavesOffsets(s, e.key, Conclude(e.entryId, e.status));
    } else if e.Arrives? {
      EnqueueLeavesOffsets(s, e.key, Handle(e.topic));
    }
  }

  lemma {:induction false} OffsetIsLongest(events: seq<Event>, channel: Channel)
    ensures Offset(Run(INITIAL, events), channel) == Longest(events, channel)
    decreases |events|
  {
    if events != [] {
      OffsetIsLongest(events[..|events| - 1], channel);
      RunNext(events);
      OffsetNext(Run(INITIAL, events[..|events| - 1]), events[|events| - 1], channel);
    }
  }

  lemma AnnounceBrings(s: State, e: Event, key: Key)
    requires ChannelOf(e).Some?
    ensures var c := ChannelOf(e).value;
      HistoryOf(Step(s, e), key).arrived == HistoryOf(s, key).arrived
        + if e.key == key && e.contentLength > Offset(s, c) then [Read(c, e.target.value, Offset(s, c), e.contentLength)] else []
  {
    var c := ChannelOf(e).value;
    if e.contentLength > Offset(s, c) {
      AnnounceArrives(s, e.key, c, e.target.value, e.contentLength, key);
    }
  }

  lemma OthersBringNothing(s: State, e: Event, key: Key)
    requires e.Settles? || e.CleansUp? || e.Starts?
    ensures HistoryOf(Step(s, e), key).arrived == HistoryOf(s, key).arrived
  {
  }

  lemma ArrivesNext(before: seq<Event>, e: Event, key: Key)
    ensures var s := Run(INITIAL, before);
      HistoryOf(Step(s, e), key).arrived == HistoryOf(s, key).arrived + Brings(before, e, key)
  {
    var s := Run(INITIAL, before);
    match e {
      case StreamEvent(at, _, _, _, _) =>
        if ChannelOf(e).Some? {
          OffsetIsLongest(before, ChannelOf(e).value);
          AnnounceBrings(s, e, key);
        }
      case StreamConcluded(at, entryId, status) => EnqueueArrives(s, at, Conclude(entryId, status), key);
      case Arrives(at, topic) => EnqueueArrives(s, at, Handle(topic), key);
      case _ => OthersBringNothing(s, e, key);
    }
  }

  /** In every run exactly this has arrived at a session, in this order. */
  lemma {:induction false} ArrivedExactly(events: seq<Event>, key: Key)
    ensures HistoryOf(Run(INITIAL, events), key).arrived == AllBrought(events, key)
    decreases |events|
  {
    if events != [] {
      ArrivedExactly(events[..|events| - 1], key);
      RunNext(events);
      ArrivesNext(events[..|events| - 1], events[|events| - 1], key);
    }
  }

  // ----- conclusions and other events -----

  function Conclusions(jobs: seq<Job>): seq<(int, int)> {
    if jobs == [] then []
    else
      var last := jobs[|jobs| - 1];
      Conclusions(jobs[..|jobs| - 1]) + if last.Conclude? then [(last.entryId, last.status)] else []
  }

  function ConclusionsOf(events: seq<Event>, key: Key): seq<(int, int)> {
    if events == [] then []
    else
      var last := events[|events| - 1];
      ConclusionsOf(events[..|events| - 1], key)
        + if last.StreamConcluded? && last.key == key then [(last.entryId, last.status)] else []
  }

  function Topics(jobs: seq<Job>): seq<Topic> {
    if jobs == [] then []
    else
      var last := jobs[|jobs| - 1];
      Topics(jobs[..|jobs| - 1]) + if last.Handle? then [last.topic] else []
  }

  function TopicsOf(events: seq<Event>, key: Key): seq<Topic> {
    if events == [] then []
    else
      var last := events[|events| - 1];
      TopicsOf(events[..|events| - 1], key) + if last.Arrives? && last.key == key then [last.topic] else []
  }

  lemma BringsOneAtMost(jobs: seq<Job>, more: seq<Job>)
    requires |more| <= 1
    ensures Conclusions(jobs + more) == Conclusions(jobs) + Conclusions(more)
    ensures Topics(jobs + more) == Topics(jobs) + Topics(more)
  {
    if more == [] {
      assert jobs + more == jobs;
    } else {
      assert (jobs + more)[..|jobs|] == jobs && more[..0] == [];
      assert Conclusions([]) == [] && Topics([]) == [];
    }
  }

  lemma OneBrought(before: seq<Event>, e: Event, key: Key)
    ensures var more := Brings(before, e, key);
      && |more| <= 1
      && Conclusions(more) == (if e.StreamConcluded? && e.key == key then [(e.entryId, e.status)] else [])
      && Topics(more) == (if e.Arrives? && e.key == key then [e.topic] else [])
  {
    var more := Brings(before, e, key);
    assert Conclusions([]) == [] && Topics([]) == [];
    if more != [] {
      assert more[..0] == [];
    }
  }

  lemma {:induction false} BroughtAre(events: seq<Event>, key: Key)
    ensures Conclusions(AllBrought(events, key)) == ConclusionsOf(events, key)
    ensures Topics(AllBrought(events, key)) == TopicsOf(events, key)
    decreases |events|
  {
    if events != [] {
      var before, e := events[..|events| - 1], events[|events| - 1];
      BroughtAre(before, key);
      OneBrought(before, e, key);
      BringsOneAtMost(AllBrought(before, key), Brings(before, e, key));
    }
  }

  /** No conclusion of a session is lost, made up, changed or overtaken, and none of its other events is. */
  lemma NothingIsSwallowed(events: seq<Event>, key: Key)
    ensures var arrived := HistoryOf(Run(INITIAL, events), key).arrived;
      Conclusions(arrived) == ConclusionsOf(events, key) && Topics(arrived) == TopicsOf(events, key)
  {
    ArrivedExactly(events, key);
    BroughtAre(events, key);
  }

  // ----- each is handled once -----

  /** The mark stands there and nowhere else. */
  ghost predicate OnlyAt(log: seq<Mark>, m: Mark, p: nat) {
    p < |log| && forall q: nat :: q < |log| ==> (log[q] == m <==> q == p)
  }

  /** The handler of that place began once and ended once, later. */
  ghost predicate Once(log: seq<Mark>, k: nat) {
    exists b: nat, d: nat :: b < d && OnlyAt(log, Began(k), b) && OnlyAt(log, Ended(k), d)
  }

  lemma InTurnOnce(n: nat, k: nat)
    requires k < n
    ensures Once(InTurn(n), k)
  {
    var log, b, d := InTurn(n), 2 * k, 2 * k + 1;
    InTurnAt(n, k);
    forall p: nat | p < |log| ensures (log[p] == Began(k) <==> p == b) && (log[p] == Ended(k) <==> p == d) {
      InTurnAt(n, p / 2);
      assert p == 2 * (p / 2) || p == 2 * (p / 2) + 1;
    }
    assert OnlyAt(log, Began(k), b) && OnlyAt(log, Ended(k), d);
  }

  /** Once nothing of a session is pending, each thing brought to it has begun once and ended once, and nothing else has
      happened there. */
  lemma EachHandledOnce(events: seq<Event>, key: Key)
    requires key !in Run(INITIAL, events).queues
    ensures var log, n := HistoryOf(Run(INITIAL, events), key).log, |AllBrought(events, key)|;
      (forall k: nat :: k < n ==> Once(log, k)) && |log| == 2 * n
  {
    IdleMeansDone(events, key);
    ArrivedExactly(events, key);
    var n := |AllBrought(events, key)|;
    forall k: nat | k < n ensures Once(InTurn(n), k) {
      InTurnOnce(n, k);
    }
    if n > 0 {
      InTurnAt(n, 0);
    }
  }
}
