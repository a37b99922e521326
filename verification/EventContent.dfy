/** What the chunks of a streamed channel show together (plurnk-acp/src/events.ts). */
module EventContent {

  import opened EventQueue
  import opened Optional

  /** What a read returns that succeeds while the channel, which only grows towards `final`, holds at least the announced
      length: everything from its offset on. */
  predicate Truthful(job: Job, chunk: Chunk, final: seq<char>)
    requires job.Read?
  {
    && chunk.Some? && 0 <= job.offset && job.announced <= job.offset + |chunk.value| <= |final|
    && chunk.value == final[job.offset..job.offset + |chunk.value|]
  }

  lemma GrowingChannelIsTruthful(job: Job, content: seq<char>, final: seq<char>)
    requires job.Read? && 0 <= job.offset < job.announced <= |content| && content <= final
    ensures Truthful(job, Some(content[job.offset..]), final)
  {
    assert content == final[..|content|];
  }

  predicate ReadsOf(job: Job, channel: Channel) {
    job.Read? && job.channel == channel
  }

  /** If the event settles a read of the channel, it is one that succeeds. */
  predicate SettlesTruthfully(s: State, e: Event, channel: Channel, final: seq<char>) {
    e.Settles? && At(s, e.key, Running) && ReadsOf(s.queues[e.key].jobs[0], channel) ==>
      Truthful(s.queues[e.key].jobs[0], e.chunk, final)
  }

  /** All reads of the channel that settle in the run succeed. */
  predicate AllSucceed(s: State, events: seq<Event>, channel: Channel, final: seq<char>)
    decreases |events|
  {
    events == [] || (SettlesTruthfully(s, events[0], channel, final) && AllSucceed(Step(s, events[0]), events[1..], channel, final))
  }

  // ----- what every step keeps -----

  ghost predicate ChunksTrue(s: State, channel: Channel, final: seq<char>) {
    forall job :: job in s.chunks && ReadsOf(job, channel) ==> Truthful(job, s.chunks[job], final)
  }

  /** Every read issued for the channel waits in some session's queue or has waited there. */
  ghost predicate AllArrived(s: State, channel: Channel) {
    forall job :: job in Issued(s, channel) ==> exists key :: job in HistoryOf(s, key).arrived
  }

  /** How many handlers of a session have ended. */
  function Done(l: Lane): int {
    |l.arrived| - |l.jobs| + if l.jobs != [] && l.phase == Settled then 1 else 0
  }

  /** The reads among the handlers that ended have returned something. */
  ghost predicate LaneReturned(l: Lane, chunks: map<Job, Chunk>) {
    forall n: nat :: n < Done(l) && n < |l.arrived| && l.arrived[n].Read? ==> l.arrived[n] in chunks
  }

  ghost predicate Returned(s: State, key: Key) {
    LaneReturned(LaneOf(s, key), s.chunks)
  }

  lemma LaneEnqueueReturns(l: Lane, job: Job, chunks: map<Job, Chunk>)
    requires |l.jobs| <= |l.arrived| && LaneReturned(l, chunks)
    ensures LaneReturned(LaneEnqueue(l, job), chunks)
  {
    var r := LaneEnqueue(l, job);
    forall n: nat | n < Done(r) && n < |r.arrived| && r.arrived[n].Read? ensures r.arrived[n] in chunks {
      assert n < |l.arrived| ==> r.arrived[n] == l.arrived[n];
    }
  }

  lemma EnqueueReturns(s: State, at: Key, job: Job, key: Key)
    requires Serial(s, key) && Returned(s, key)
    ensures Returned(Enqueue(s, at, job), key)
  {
    EnqueueLane(s, at, job, key);
    LaneEnqueueReturns(LaneOf(s, key), job, s.chunks);
    EnqueueKeepsChunks(s, at, job);
  }

  lemma EnqueueKeepsChunks(s: State, at: Key, job: Job)
    ensures Enqueue(s, at, job).chunks == s.chunks
  {
  }

  lemma LaneSettleReturns(l: Lane, log: seq<Mark>, chunks: map<Job, Chunk>, chunk: Chunk)
    requires SerialLane(l) && l.jobs != [] && l.phase == Running && LaneReturned(l, chunks)
    ensures LaneReturned(l.(phase := Settled, log := log), if l.jobs[0].Read? then chunks[l.jobs[0] := chunk] else chunks)
  {
    assert l.arrived[|l.arrived| - |l.jobs|] == l.jobs[0];
  }

  lemma SettleReturns(s: State, at: Key, chunk: Chunk, key: Key)
    requires Serial(s, key) && Returned(s, key) && At(s, at, Running)
    ensures Returned(Settle(s, at, chunk), key)
  {
    var l, r := LaneOf(s, key), LaneOf(Settle(s, at, chunk), key);
    if at == key {
      LaneSettleReturns(l, r.log, s.chunks, chunk);
    } else {
      assert r == l;
    }
  }

  lemma LaneCleanReturns(l: Lane, chunks: map<Job, Chunk>)
    requires l.jobs != [] && l.phase == Settled && LaneReturned(l, chunks)
    ensures LaneReturned(l.(jobs := l.jobs[1..], phase := Ready), chunks)
  {
  }

  lemma CleanReturns(s: State, at: Key, key: Key)
    requires Returned(s, key) && At(s, at, Settled)
    ensures Returned(Clean(s, at), key)
  {
    CleanedLane(s, at, key);
    if at == key {
      LaneCleanReturns(LaneOf(s, key), s.chunks);
    }
    assert Clean(s, at).chunks == s.chunks;
  }

  lemma LaneStartReturns(l: Lane, phase: Phase, log: seq<Mark>, chunks: map<Job, Chunk>)
    requires SerialLane(l) && l.jobs != [] && l.phase == Ready && LaneReturned(l, chunks)
    requires phase == Settled ==> !l.jobs[0].Read?
    ensures LaneReturned(l.(phase := phase, log := log), chunks)
  {
    assert l.arrived[|l.arrived| - |l.jobs|] == l.jobs[0];
  }

  lemma StartReturns(s: State, at: Key, key: Key)
    requires Serial(s, key) && Returned(s, key) && At(s, at, Ready)
    ensures Returned(Start(s, at), key)
  {
    StartedLane(s, at, key);
    var r := LaneOf(Start(s, at), key);
    if at == key {
      LaneStartReturns(LaneOf(s, key), r.phase, r.log, s.chunks);
    }
    assert Start(s, at).chunks == s.chunks;
  }

  lemma AnnounceReturns(s: State, at: Key, channel: Channel, target: string, contentLength: int, key: Key)
    requires Serial(s, key) && Returned(s, key)
    ensures Returned(Announce(s, at, channel, target, contentLength), key)
  {
    if contentLength > Offset(s, channel) {
      var read := Read(channel, target, Offset(s, channel), contentLength);
      var t := s.(streamOffsets := s.streamOffsets[channel := contentLength],
                  issued := s.issued[channel := Issued(s, channel) + [read]]);
      KeepsLane(s, t, key);
      EnqueueReturns(t, at, read, key);
      assert Announce(s, at, channel, target, contentLength) == Enqueue(t, at, read);
    }
  }

  lemma KeepsLane(s: State, t: State, key: Key)
    requires Serial(s, key) && Returned(s, key)
    requires t.queues == s.queues && t.histories == s.histories && t.chunks == s.chunks
    ensures Serial(t, key) && Returned(t, key)
  {
    assert LaneOf(t, key) == LaneOf(s, key);
  }

  lemma ArrivalReturns(s: State, e: Event, key: Key)
    requires Serial(s, key) && Returned(s, key) && (e.StreamEvent? || e.StreamConcluded? || e.Arrives?)
    ensures Returned(Step(s, e), key)
  {
    match e {
      case StreamEvent(at, entryId, target, channel, contentLength) =>
        if target.Some? && channel.Some? {
          AnnounceReturns(s, at, Channel(at.workspaceId, entryId, channel.value), target.value, contentLength, key);
        }
      case StreamConcluded(at, entryId, status) => EnqueueReturns(s, at, Conclude(entryId, status), key);
      case Arrives(at, topic) => EnqueueReturns(s, at, Handle(topic), key);
    }
  }

  lemma SettlingReturns(s: State, at: Key, chunk: Chunk, key: Key)
    requires Serial(s, key) && Returned(s, key)
    ensures Returned(Step(s, Settles(at, chunk)), key)
  {
    if At(s, at, Running) {
      SettleReturns(s, at, chunk, key);
    }
  }

  lemma CleaningReturns(s: State, at: Key, key: Key)
    requires Serial(s, key) && Returned(s, key)
    ensures Returned(Step(s, CleansUp(at)), key)
  {
    if At(s, at, Settled) {
      CleanReturns(s, at, key);
    }
  }

  lemma StartingReturns(s: State, at: Key, key: Key)
    requires Serial(s, key) && Returned(s, key)
    ensures Returned(Step(s, Starts(at)), key)
  {
    if At(s, at, Ready) {
      StartReturns(s, at, key);
    }
  }

  lemma StepReturns(s: State, e: Event, key: Key)
    requires Serial(s, key) && Returned(s, key)
    ensures Returned(Step(s, e), key)
  {
    match e {
      case Settles(at, chunk) => SettlingReturns(s, at, chunk, key);
      case CleansUp(at) => CleaningReturns(s, at, key);
      case Starts(at) => StartingReturns(s, at, key);
      case _ => ArrivalReturns(s, e, key);
    }
  }

  lemma EnqueueArrives(s: State, at: Key, job: Job, key: Key)
    ensures HistoryOf(Enqueue(s, at, job), key).arrived
         == HistoryOf(s, key).arrived + if at == key then [job] else []
  {
  }

  /** Handlers never leave a session's history, and a new read enters one. */
  lemma StepArrives(s: State, e: Event, key: Key)
    ensures HistoryOf(s, key).arrived <= HistoryOf(Step(s, e), key).arrived
  {
    match e {
      case StreamEvent(at, entryId, target, channel, contentLength) =>
        if target.Some? && channel.Some? {
          var c := Channel(at.workspaceId, entryId, channel.value);
          if contentLength > Offset(s, c) {
            AnnounceArrives(s, at, c, target.value, contentLength, key);
          }
        }
      case StreamConcluded(at, entryId, status) => EnqueueArrives(s, at, Conclude(entryId, status), key);
      case Arrives(at, topic) => EnqueueArrives(s, at, Handle(topic), key);
      case _ =>
    }
  }

  lemma AnnounceArrives(s: State, at: Key, channel: Channel, target: string, contentLength: int, key: Key)
    requires contentLength > Offset(s, channel)
    ensures var read := Read(channel, target, Offset(s, channel), contentLength);
      HistoryOf(Announce(s, at, channel, target, contentLength), key).arrived
        == HistoryOf(s, key).arrived + if at == key then [read] else []
  {
    var read := Read(channel, target, Offset(s, channel), contentLength);
    var t := s.(streamOffsets := s.streamOffsets[channel := contentLength],
                issued := s.issued[channel := Issued(s, channel) + [read]]);
    EnqueueArrives(t, at, read, key);
  }

  lemma StepIssues(s: State, e: Event, channel: Channel, job: Job)
    requires job in Issued(Step(s, e), channel)
    ensures job in Issued(s, channel) || (e.StreamEvent? && job in HistoryOf(Step(s, e), e.key).arrived)
  {
    match e {
      case StreamEvent(at, entryId, target, ch, contentLength) =>
        if target.Some? && ch.Some? {
          var c := Channel(at.workspaceId, entryId, ch.value);
          if contentLength > Offset(s, c) {
            AnnounceArrives(s, at, c, target.value, contentLength, at);
            var read := Read(c, target.value, Offset(s, c), contentLength);
            EnqueueLeavesOffsets(s.(streamOffsets := s.streamOffsets[c := contentLength],
                                    issued := s.issued[c := Issued(s, c) + [read]]), at, read);
          }
        }
      case StreamConcluded(at, entryId, status) => EnqueueLeavesOffsets(s, at, Conclude(entryId, status));
      case Arrives(at, topic) => EnqueueLeavesOffsets(s, at, Handle(topic));
      case _ =>
    }
  }

  lemma StepAllArrived(s: State, e: Event, channel: Channel)
    requires AllArrived(s, channel)
    ensures AllArrived(Step(s, e), channel)
  {
    forall job | job in Issued(Step(s, e), channel) ensures exists key :: job in HistoryOf(Step(s, e), key).arrived {
      StepIssues(s, e, channel, job);
      if job in Issued(s, channel) {
        var key :| job in HistoryOf(s, key).arrived;
        StepArrives(s, e, key);
      }
    }
  }

  lemma StepChunks(s: State, e: Event, channel: Channel, final: seq<char>)
    requires ChunksTrue(s, channel, final) && SettlesTruthfully(s, e, channel, final)
    ensures ChunksTrue(Step(s, e), channel, final)
  {
  }

  lemma {:induction false} RunKeepsAll(s: State, events: seq<Event>, channel: Channel, final: seq<char>)
    requires AllArrived(s, channel) && ChunksTrue(s, channel, final) && AllSucceed(s, events, channel, final)
    ensures AllArrived(Run(s, events), channel) && ChunksTrue(Run(s, events), channel, final)
    decreases |events|
  {
    if events != [] {
      StepAllArrived(s, events[0], channel);
      StepChunks(s, events[0], channel, final);
      RunKeepsAll(Step(s, events[0]), events[1..], channel, final);
    }
  }

  lemma {:induction false} RunReturns(s: State, events: seq<Event>, key: Key)
    requires Serial(s, key) && Returned(s, key)
    ensures Returned(Run(s, events), key)
    decreases |events|
  {
    if events != [] {
      StepKeepsSerial(s, events[0], key);
      StepReturns(s, events[0], key);
      RunReturns(Step(s, events[0]), events[1..], key);
    }
  }

  // ----- what is shown once nothing is pending -----

  /** Once nothing is pending every read issued for the channel has returned its piece of the final content. */
  lemma AllReturned(events: seq<Event>, channel: Channel, final: seq<char>, job: Job)
    requires AllSucceed(INITIAL, events, channel, final) && Run(INITIAL, events).queues == map[]
    requires job in Issued(Run(INITIAL, events), channel)
    ensures ReadsOf(job, channel) && job in Run(INITIAL, events).chunks
    ensures Truthful(job, Run(INITIAL, events).chunks[job], final)
  {
    var s := Run(INITIAL, events);
    RunKeepsTiles(INITIAL, events, channel);
    RunKeepsAll(INITIAL, events, channel, final);
    var key :| job in HistoryOf(s, key).arrived;
    RunReturns(INITIAL, events, key);
    DoneReturned(LaneOf(s, key), s.chunks, job);
  }

  lemma DoneReturned(l: Lane, chunks: map<Job, Chunk>, job: Job)
    requires l.jobs == [] && LaneReturned(l, chunks) && job in l.arrived && job.Read?
    ensures job in chunks
  {
    var n: nat :| n < |l.arrived| && l.arrived[n] == job;
    assert Done(l) == |l.arrived|;
  }

  /** The pieces that were returned, in order of their reads. */
  function Pieces(issued: seq<Job>, chunks: map<Job, Chunk>): seq<seq<char>> {
    seq(|issued|, k requires 0 <= k < |issued| =>
      if issued[k] in chunks && chunks[issued[k]].Some? then chunks[issued[k]].value else [])
  }

  function Joined(pieces: seq<seq<char>>): seq<char> {
    if pieces == [] then [] else Joined(pieces[..|pieces| - 1]) + pieces[|pieces| - 1]
  }

  /** In every run whose reads of a channel succeed, each announced character is shown once nothing is pending: it stands
      at its place in the piece some read returned. */
  lemma EveryCharacterIsShown(events: seq<Event>, channel: Channel, final: seq<char>, x: nat)
    requires AllSucceed(INITIAL, events, channel, final) && Run(INITIAL, events).queues == map[]
    requires x < Offset(Run(INITIAL, events), channel)
    ensures x < |final|
    ensures exists job: Job :: job in Issued(Run(INITIAL, events), channel) && Shows(job, Run(INITIAL, events).chunks, x, final[x])
  {
    var s := Run(INITIAL, events);
    RunKeepsTiles(INITIAL, events, channel);
    var all := Issued(s, channel);
    var k := Covering(all, channel, Offset(s, channel), |all|, x);
    AllReturned(events, channel, final, all[k]);
    assert Shows(all[k], s.chunks, x, final[x]);
  }

  /** The piece the read returned holds the character at position `x` of the channel. */
  predicate Shows(job: Job, chunks: map<Job, Chunk>, x: nat, c: char) {
    && job.Read? && job in chunks && chunks[job].Some?
    && job.offset <= x < job.offset + |chunks[job].value| && chunks[job].value[x - job.offset] == c
  }

  /** A length once announced is among those shown. */
  lemma AnnouncedIsShown(before: seq<Event>, e: Event, after: seq<Event>)
    requires e.StreamEvent? && e.target.Some? && e.channel.Some?
    ensures e.contentLength <= Offset(Run(INITIAL, before + [e] + after), Channel(e.key.workspaceId, e.entryId, e.channel.value))
  {
    var channel := Channel(e.key.workspaceId, e.entryId, e.channel.value);
    RunAppends(INITIAL, before + [e], after);
    RunAppends(INITIAL, before, [e]);
    assert Run(Run(INITIAL, before), [e]) == Run(Step(Run(INITIAL, before), e), []);
    StepRaises(Run(INITIAL, before), e, channel);
    RunRaises(Step(Run(INITIAL, before), e), after, channel);
  }

  lemma StepRaises(s: State, e: Event, channel: Channel)
    ensures Offset(s, channel) <= Offset(Step(s, e), channel)
    ensures e.StreamEvent? && e.target.Some? && e.channel.Some? && channel == Channel(e.key.workspaceId, e.entryId, e.channel.value) ==>
      e.contentLength <= Offset(Step(s, e), channel)
  {
    match e {
      case StreamEvent(at, entryId, target, ch, contentLength) =>
        if target.Some? && ch.Some? {
          var c := Channel(at.workspaceId, entryId, ch.value);
          if contentLength > Offset(s, c) {
            var read := Read(c, target.value, Offset(s, c), contentLength);
            EnqueueLeavesOffsets(s.(streamOffsets := s.streamOffsets[c := contentLength],
                                    issued := s.issued[c := Issued(s, c) + [read]]), at, read);
          }
        }
      case StreamConcluded(at, entryId, status) => EnqueueLeavesOffsets(s, at, Conclude(entryId, status));
      case Arrives(at, topic) => EnqueueLeavesOffsets(s, at, Handle(topic));
      case _ =>
    }
  }

  lemma {:induction false} RunRaises(s: State, events: seq<Event>, channel: Channel)
    ensures Offset(s, channel) <= Offset(Run(s, events), channel)
    decreases |events|
  {
    if events != [] {
      StepRaises(s, events[0], channel);
      RunRaises(Step(s, events[0]), events[1..], channel);
    }
  }

  // ----- and shown once -----

  /** Every read found the channel at exactly the length announced to it. */
  ghost predicate Prompt(issued: seq<Job>, chunks: map<Job, Chunk>) {
    forall k: nat :: k < |issued| ==>
      issued[k].Read? && issued[k] in chunks && chunks[issued[k]].Some?
      && |chunks[issued[k]].value| == issued[k].announced - issued[k].offset
  }

  ghost predicate AllTrue(issued: seq<Job>, chunks: map<Job, Chunk>, channel: Channel, final: seq<char>) {
    forall k: nat :: k < |issued| ==> ReadsOf(issued[k], channel) && issued[k] in chunks && Truthful(issued[k], chunks[issued[k]], final)
  }

  lemma AllTrueShorter(issued: seq<Job>, chunks: map<Job, Chunk>, channel: Channel, final: seq<char>)
    requires AllTrue(issued, chunks, channel, final) && issued != []
    ensures AllTrue(issued[..|issued| - 1], chunks, channel, final)
    ensures var last := issued[|issued| - 1]; last.Read? && last in chunks && Truthful(last, chunks[last], final)
  {
    var init := issued[..|issued| - 1];
    assert forall k: nat :: k < |init| ==> init[k] == issued[k];
    assert ReadsOf(issued[|init|], channel);
  }

  lemma TilesShorter(issued: seq<Job>, channel: Channel, end: int)
    requires TiledTo(issued, channel, end) && issued != []
    ensures var init, last := issued[..|issued| - 1], issued[|issued| - 1];
      TiledTo(init, channel, last.offset) && last.announced == end && last.offset < end
  {
    var init := issued[..|issued| - 1];
    assert forall k: nat :: k < |init| ==> init[k] == issued[k];
    forall k: nat | k <= |init| ensures Expected(init, k) == Expected(issued, k) {
      assert k > 0 ==> init[k - 1] == issued[k - 1];
    }
    forall k: nat | k < |issued| ensures issued[k].offset == Expected(issued, k) && issued[k].offset < issued[k].announced {
    }
    assert issued[|init|].offset == Expected(issued, |init|);
  }

  /** The pieces are together at least as long as what was announced, and exactly as long when each read was prompt. */
  lemma {:induction false} PiecesCover(issued: seq<Job>, chunks: map<Job, Chunk>, channel: Channel, final: seq<char>,
      end: int)
    requires TiledTo(issued, channel, end) && AllTrue(issued, chunks, channel, final)
    ensures 0 <= end <= |Joined(Pieces(issued, chunks))| && end <= |final|
    ensures |Joined(Pieces(issued, chunks))| == end <==> Prompt(issued, chunks)
    ensures Prompt(issued, chunks) ==> Joined(Pieces(issued, chunks)) == final[..end]
    decreases |issued|
  {
    if issued == [] {
      assert end == 0 && Joined(Pieces(issued, chunks)) == [];
    } else {
      var init, last := issued[..|issued| - 1], issued[|issued| - 1];
      TilesShorter(issued, channel, end);
      AllTrueShorter(issued, chunks, channel, final);
      PiecesCover(init, chunks, channel, final, last.offset);
      PiecesNext(issued, chunks);
      PromptNext(issued, chunks);
      OnePieceMore(Joined(Pieces(init, chunks)), last, chunks[last].value, final, end);
    }
  }

  /** A piece joined to those before it. */
  lemma OnePieceMore(before: seq<char>, last: Job, piece: seq<char>, final: seq<char>, end: int)
    requires last.Read? && 0 <= last.offset <= |before| && last.offset < end == last.announced && Truthful(last, Some(piece), final)
    ensures end <= |before + piece| && end <= |final|
    ensures |before + piece| == end <==> |before| == last.offset && |piece| == end - last.offset
    ensures |before + piece| == end && before == final[..last.offset] ==> before + piece == final[..end]
  {
  }

  lemma PiecesNext(issued: seq<Job>, chunks: map<Job, Chunk>)
    requires issued != []
    ensures var init, last := issued[..|issued| - 1], issued[|issued| - 1];
      Joined(Pieces(issued, chunks)) == Joined(Pieces(init, chunks))
        + if last in chunks && chunks[last].Some? then chunks[last].value else []
  {
    assert Pieces(issued, chunks)[..|issued| - 1] == Pieces(issued[..|issued| - 1], chunks);
  }

  lemma PromptNext(issued: seq<Job>, chunks: map<Job, Chunk>)
    requires issued != []
    ensures var last := issued[|issued| - 1];
      Prompt(issued, chunks) <==> (Prompt(issued[..|issued| - 1], chunks) && last.Read? && last in chunks && chunks[last].Some?
        && |chunks[last].value| == last.announced - last.offset)
  {
    var init := issued[..|issued| - 1];
    assert forall k: nat :: k < |issued| ==> issued[k] == if k < |init| then init[k] else issued[|init|];
  }

  /** In every run whose reads of a channel succeed, the pieces joined in order are the announced content exactly when each
      read found no more than was announced to it; else some of it is shown twice. */
  lemma ShownOnceExactly(events: seq<Event>, channel: Channel, final: seq<char>)
    requires AllSucceed(INITIAL, events, channel, final) && Run(INITIAL, events).queues == map[]
    ensures var s := Run(INITIAL, events);
      && 0 <= Offset(s, channel) <= |final|
      && (Joined(Pieces(Issued(s, channel), s.chunks)) == final[..Offset(s, channel)] <==> Prompt(Issued(s, channel), s.chunks))
  {
    var s := Run(INITIAL, events);
    RunKeepsTiles(INITIAL, events, channel);
    forall k: nat | k < |Issued(s, channel)|
      ensures ReadsOf(Issued(s, channel)[k], channel) && Issued(s, channel)[k] in s.chunks
      ensures Truthful(Issued(s, channel)[k], s.chunks[Issued(s, channel)[k]], final)
    {
      AllReturned(events, channel, final, Issued(s, channel)[k]);
    }
    PiecesCover(Issued(s, channel), s.chunks, channel, final, Offset(s, channel));
  }

  // ----- a run that shows a character twice -----

  const KEY := Key(1, 5)
  const OUT := Channel(1, 9, "out")
  const FIRST := Read(OUT, "sh:9", 0, 1)
  const SECOND := Read(OUT, "sh:9", 1, 2)
  const ASKED := State(map[OUT := 2], map[KEY := Queue([FIRST, SECOND], Running)],
    map[KEY := History([FIRST, SECOND], [Began(0)])], map[OUT := [FIRST, SECOND]], map[])
  const TURNED := State(map[OUT := 2], map[KEY := Queue([SECOND], Running)],
    map[KEY := History([FIRST, SECOND], [Began(0), Ended(0), Began(1)])], map[OUT := [FIRST, SECOND]], map[FIRST := Some("ab")])

  /** All reads of the channel succeeded and nothing is pending, but what they show is not the announced content. */
  predicate Repeats(events: seq<Event>, channel: Channel, final: seq<char>) {
    var s := Run(INITIAL, events);
    && AllSucceed(INITIAL, events, channel, final) && s.queues == map[] && 0 <= Offset(s, channel) <= |final|
    && Joined(Pieces(Issued(s, channel), s.chunks)) != final[..Offset(s, channel)]
  }

  const ANNOUNCED := StreamEvent(KEY, 9, Some("sh:9"), Some("out"), 1)
  const GROWN := StreamEvent(KEY, 9, Some("sh:9"), Some("out"), 2)

  lemma Asks()
    ensures Step(Step(INITIAL, ANNOUNCED), GROWN) == ASKED
  {
    var one := State(map[OUT := 1], map[KEY := Queue([FIRST], Running)], map[KEY := History([FIRST], [Began(0)])],
                     map[OUT := [FIRST]], map[]);
    Announces(one);
    Grows(one);
  }

  lemma Announces(one: State)
    requires one == State(map[OUT := 1], map[KEY := Queue([FIRST], Running)], map[KEY := History([FIRST], [Began(0)])],
                          map[OUT := [FIRST]], map[])
    ensures Step(INITIAL, ANNOUNCED) == one
  {
    var none: seq<Mark> := [];
    assert [] + [FIRST] == [FIRST] && none + [Began(0)] == [Began(0)];
  }

  lemma Grows(one: State)
    requires one == State(map[OUT := 1], map[KEY := Queue([FIRST], Running)], map[KEY := History([FIRST], [Began(0)])],
                          map[OUT := [FIRST]], map[])
    ensures Step(one, GROWN) == ASKED
  {
    assert [FIRST] + [SECOND] == [FIRST, SECOND];
    assert one.streamOffsets[OUT := 2] == ASKED.streamOffsets;
  }

  lemma Turns()
    ensures Step(Step(Step(ASKED, Settles(KEY, Some("ab"))), CleansUp(KEY)), Starts(KEY)) == TURNED
  {
    var one := ASKED.(queues := map[KEY := Queue([FIRST, SECOND], Settled)], chunks := map[FIRST := Some("ab")],
                      histories := map[KEY := History([FIRST, SECOND], [Began(0), Ended(0)])]);
    FirstSettles(one);
    CleansAndStarts(one);
  }

  lemma FirstSettles(one: State)
    requires one == ASKED.(queues := map[KEY := Queue([FIRST, SECOND], Settled)], chunks := map[FIRST := Some("ab")],
                           histories := map[KEY := History([FIRST, SECOND], [Began(0), Ended(0)])])
    ensures Step(ASKED, Settles(KEY, Some("ab"))) == one
  {
    assert [Began(0)] + [Ended(0)] == [Began(0), Ended(0)];
  }

  lemma CleansAndStarts(one: State)
    requires one == ASKED.(queues := map[KEY := Queue([FIRST, SECOND], Settled)], chunks := map[FIRST := Some("ab")],
                           histories := map[KEY := History([FIRST, SECOND], [Began(0), Ended(0)])])
    ensures Step(Step(one, CleansUp(KEY)), Starts(KEY)) == TURNED
  {
    var two := Step(one, CleansUp(KEY));
    assert [FIRST, SECOND][1..] == [SECOND];
    assert two == one.(queues := map[KEY := Queue([SECOND], Ready)]);
    assert [Began(0), Ended(0)] + [Began(1)] == [Began(0), Ended(0), Began(1)];
  }

  lemma Finishes()
    ensures var s := Step(Step(TURNED, Settles(KEY, Some("b"))), CleansUp(KEY));
      s.queues == map[] && s.issued == TURNED.issued && FIRST in s.chunks && s.chunks[FIRST] == Some("ab")
  {
  }

  lemma SettleAsPromised()
    ensures SettlesTruthfully(ASKED, Settles(KEY, Some("ab")), OUT, "ab")
    ensures SettlesTruthfully(TURNED, Settles(KEY, Some("b")), OUT, "ab")
  {
  }

  /** A read that starts late finds more than was announced to it; the next one returns the rest again. */
  lemma ChunksCanRepeat()
    ensures exists events, channel, final :: Repeats(events, channel, final)
  {
    Asks();
    Turns();
    Finishes();
    SettleAsPromised();
    var events := RunsOver(ANNOUNCED, GROWN, Settles(KEY, Some("ab")), CleansUp(KEY), Starts(KEY), Settles(KEY, Some("b")), OUT, "ab");
    RepeatsUnlessPrompt(events, OUT, "ab", FIRST);
  }

  lemma RepeatsUnlessPrompt(events: seq<Event>, channel: Channel, final: seq<char>, late: Job)
    requires AllSucceed(INITIAL, events, channel, final) && Run(INITIAL, events).queues == map[]
    requires late in Issued(Run(INITIAL, events), channel) && late.Read?
    requires var chunks := Run(INITIAL, events).chunks;
      late in chunks && chunks[late].Some? && |chunks[late].value| != late.announced - late.offset
    ensures Repeats(events, channel, final)
  {
    ShownOnceExactly(events, channel, final);
    var issued := Issued(Run(INITIAL, events), channel);
    var k: nat :| k < |issued| && issued[k] == late;
  }

  lemma RunsNext(s: State, e: Event, rest: seq<Event>, channel: Channel, final: seq<char>)
    ensures Run(s, [e] + rest) == Run(Step(s, e), rest)
    ensures AllSucceed(s, [e] + rest, channel, final)
        <==> SettlesTruthfully(s, e, channel, final) && AllSucceed(Step(s, e), rest, channel, final)
  {
    assert ([e] + rest)[1..] == rest;
  }

  lemma RunsOver(a: Event, b: Event, c: Event, d: Event, e: Event, f: Event, channel: Channel, final: seq<char>)
    returns (events: seq<Event>)
    requires !a.Settles? && !b.Settles? && !d.Settles? && !e.Settles?
    requires Step(Step(INITIAL, a), b) == ASKED && Step(Step(Step(ASKED, c), d), e) == TURNED
    requires SettlesTruthfully(ASKED, c, channel, final) && SettlesTruthfully(TURNED, f, channel, final)
    ensures Run(INITIAL, events) == Step(Step(TURNED, f), d) && AllSucceed(INITIAL, events, channel, final)
  {
    var last: seq<Event> := [];
    var six := [f] + ([d] + last);
    RunsNext(Step(TURNED, f), d, last, channel, final);
    RunsNext(TURNED, f, [d] + last, channel, final);
    var three := [c] + ([d] + ([e] + six));
    RunsNext(Step(Step(ASKED, c), d), e, six, channel, final);
    RunsNext(Step(ASKED, c), d, [e] + six, channel, final);
    RunsNext(ASKED, c, [d] + ([e] + six), channel, final);
    events := [a] + ([b] + three);
    RunsNext(Step(INITIAL, a), b, three, channel, final);
    RunsNext(INITIAL, a, [b] + three, channel, final);
  }
}
