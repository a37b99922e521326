/** Events of the daemon: each session's handlers run one after the other, and each announced length of a stream starts
    one read where the announcement before it ended (plurnk-acp/src/events.ts). */
module EventQueue {

  import opened Optional

  datatype Key = Key(workspaceId: int, sessionId: int)

  datatype Channel = Channel(workspaceId: int, entryId: int, name: string)

  /** The other events whose handlers share the queue. */
  datatype Topic = LogRow | Packet | Termination | Notice

  /** A handler: it reads a channel from an offset, reports a conclusion, or handles another event. */
  datatype Job =
    | Read(channel: Channel, target: string, offset: int, announced: int)
    | Conclude(entryId: int, status: int)
    | Handle(topic: Topic)

  /** The handler is asynchronous and takes until its promise settles; the others are done at once. */
  predicate Awaits(job: Job) {
    !job.Conclude? && job != Handle(Notice)
  }

  /** The handler at the front of a queue waits for its turn, runs, or has settled and still holds its place. */
  datatype Phase = Ready | Running | Settled

  datatype Queue = Queue(jobs: seq<Job>, phase: Phase)

  datatype Mark = Began(job: nat) | Ended(job: nat)

  /** A session's handlers in order of arrival, and what they did, by their place in that order. */
  datatype History = History(arrived: seq<Job>, log: seq<Mark>)

  /** What a read returned: the rest of the channel from its offset on, or nothing when it failed. */
  type Chunk = Option<seq<char>>

  /** `issued` are the reads of each channel in order, `chunks` what those that settled returned. */
  datatype State = State(streamOffsets: map<Channel, int>, queues: map<Key, Queue>, histories: map<Key, History>,
    issued: map<Channel, seq<Job>>, chunks: map<Job, Chunk>)

  datatype Event =
    | StreamEvent(key: Key, entryId: int, target: Option<string>, channel: Option<string>, contentLength: int)
    | StreamConcluded(key: Key, entryId: int, status: int)
    | Arrives(key: Key, topic: Topic)
    | Settles(key: Key, chunk: Chunk)
    | CleansUp(key: Key)
    | Starts(key: Key)

  const INITIAL := State(map[], map[], map[], map[], map[])

  // ----- the steps -----

  function Offset(s: State, channel: Channel): int {
    if channel in s.streamOffsets then s.streamOffsets[channel] else 0
  }

  function Issued(s: State, channel: Channel): seq<Job> {
    if channel in s.issued then s.issued[channel] else []
  }

  function HistoryOf(s: State, key: Key): History {
    if key in s.histories then s.histories[key] else History([], [])
  }

  function Pending(s: State, key: Key): seq<Job> {
    if key in s.queues then s.queues[key].jobs else []
  }

  predicate At(s: State, key: Key, phase: Phase) {
    key in s.queues && s.queues[key].phase == phase && 0 < |s.queues[key].jobs| <= |HistoryOf(s, key).arrived|
  }

  /** The place in the order of arrival of the handler at the front. */
  function Front(s: State, key: Key): nat
    requires |Pending(s, key)| <= |HistoryOf(s, key).arrived|
  {
    |HistoryOf(s, key).arrived| - |Pending(s, key)|
  }

  function Logged(s: State, key: Key, marks: seq<Mark>): State {
    var h := HistoryOf(s, key);
    s.(histories := s.histories[key := History(h.arrived, h.log + marks)])
  }

  function Arrived(s: State, key: Key, job: Job): State {
    var h := HistoryOf(s, key);
    s.(histories := s.histories[key := History(h.arrived + [job], h.log)])
  }

  function Enqueue(s: State, key: Key, job: Job): State {
    var n, t := |HistoryOf(s, key).arrived|, Arrived(s, key, job);
    if key in s.queues then t.(queues := s.queues[key := Queue(s.queues[key].jobs + [job], s.queues[key].phase)])
    else if Awaits(job) then Logged(t, key, [Began(n)]).(queues := s.queues[key := Queue([job], Running)])
    else Logged(t, key, [Began(n), Ended(n)])
  }

  function Announce(s: State, key: Key, channel: Channel, target: string, contentLength: int): State {
    if contentLength > Offset(s, channel) then
      var read := Read(channel, target, Offset(s, channel), contentLength);
      Enqueue(s.(streamOffsets := s.streamOffsets[channel := contentLength],
                 issued := s.issued[channel := Issued(s, channel) + [read]]), key, read)
    else s
  }

  /** The running handler's promise settles; a read has returned its chunk. */
  function Settle(s: State, key: Key, chunk: Chunk): State
    requires At(s, key, Running)
  {
    Logged(s, key, [Ended(Front(s, key))]).(queues := s.queues[key := s.queues[key].(phase := Settled)],
      chunks := if s.queues[key].jobs[0].Read? then s.chunks[s.queues[key].jobs[0] := chunk] else s.chunks)
  }

  function Clean(s: State, key: Key): State
    requires At(s, key, Settled)
  {
    if |s.queues[key].jobs| == 1 then s.(queues := s.queues - {key})
    else s.(queues := s.queues[key := Queue(s.queues[key].jobs[1..], Ready)])
  }

  function Start(s: State, key: Key): State
    requires At(s, key, Ready)
  {
    var n := Front(s, key);
    if Awaits(s.queues[key].jobs[0]) then Logged(s, key, [Began(n)]).(queues := s.queues[key := s.queues[key].(phase := Running)])
    else Logged(s, key, [Began(n), Ended(n)]).(queues := s.queues[key := s.queues[key].(phase := Settled)])
  }

  /** Steps that are not enabled change nothing. */
  function Step(s: State, e: Event): State {
    match e
    case StreamEvent(key, entryId, target, channel, contentLength) =>
      if target.None? || channel.None? then s
      else Announce(s, key, Channel(key.workspaceId, entryId, channel.value), target.value, contentLength)
    case StreamConcluded(key, entryId, status) => Enqueue(s, key, Conclude(entryId, status))
    case Arrives(key, topic) => Enqueue(s, key, Handle(topic))
    case Settles(key, chunk) => if At(s, key, Running) then Settle(s, key, chunk) else s
    case CleansUp(key) => if At(s, key, Settled) then Clean(s, key) else s
    case Starts(key) => if At(s, key, Ready) then Start(s, key) else s
  }

  function Run(s: State, events: seq<Event>): State
    decreases |events|
  {
    if events == [] then s else Run(Step(s, events[0]), events[1..])
  }

  // ----- the class -----

  class Dispatcher {
    var streamOffsets: map<Channel, int>
    var queues: map<Key, Queue>
    ghost var histories: map<Key, History>
    ghost var issued: map<Channel, seq<Job>>
    ghost var chunks: map<Job, Chunk>

    ghost function Now(): State
      reads this
    {
      State(streamOffsets, queues, histories, issued, chunks)
    }

    constructor ()
      ensures Now() == INITIAL
    {
      streamOffsets, queues, histories, issued, chunks := map[], map[], map[], map[], map[];
    }

    /** Runs the handler now when nothing of its session is pending, and behind the others otherwise. */
    method EnqueueOrRun(key: Key, job: Job)
      modifies this
      ensures Now() == Enqueue(old(Now()), key, job)
    {
      ghost var n := |HistoryOf(Now(), key).arrived|;
      histories := Arrived(Now(), key, job).histories;
      if key !in queues {
        if Awaits(job) {
          histories := Logged(Now(), key, [Began(n)]).histories;
          queues := queues[key := Queue([job], Running)];
        } else {
          histories := Logged(Now(), key, [Began(n), Ended(n)]).histories;
        }
        return;
      }
      queues := queues[key := Queue(queues[key].jobs + [job], queues[key].phase)];
    }

    method OnStreamEvent(key: Key, entryId: int, target: Option<string>, channel: Option<string>, contentLength: int)
      modifies this
      ensures Now() == Step(old(Now()), StreamEvent(key, entryId, target, channel, contentLength))
    {
      if target.None? || channel.None? {
        return;
      }
      var offsetKey := Channel(key.workspaceId, entryId, channel.value);
      var prevOffset := if offsetKey in streamOffsets then streamOffsets[offsetKey] else 0;
      if contentLength > prevOffset {
        var read := Read(offsetKey, target.value, prevOffset, contentLength);
        issued := issued[offsetKey := Issued(Now(), offsetKey) + [read]];
        streamOffsets := streamOffsets[offsetKey := contentLength];
        EnqueueOrRun(key, read);
      }
    }

    method OnStreamConcluded(key: Key, entryId: int, status: int)
      modifies this
      ensures Now() == Step(old(Now()), StreamConcluded(key, entryId, status))
    {
      EnqueueOrRun(key, Conclude(entryId, status));
    }

    /** A log row, a packet, a termination or a notice of the session. */
    method OnSessionEvent(key: Key, topic: Topic)
      modifies this
      ensures Now() == Step(old(Now()), Arrives(key, topic))
    {
      EnqueueOrRun(key, Handle(topic));
    }

    /** The running handler's promise resolves or rejects. */
    method OnSettled(key: Key, chunk: Chunk)
      requires At(Now(), key, Running)
      modifies this
      ensures Now() == Step(old(Now()), Settles(key, chunk))
    {
      if queues[key].jobs[0].Read? {
        chunks := chunks[queues[key].jobs[0] := chunk];
      }
      histories := Logged(Now(), key, [Ended(Front(Now(), key))]).histories;
      queues := queues[key := queues[key].(phase := Settled)];
    }

    /** The settled handler gives up its place; the last one takes the queue with it. */
    method OnFinally(key: Key)
      requires At(Now(), key, Settled)
      modifies this
      ensures Now() == Step(old(Now()), CleansUp(key))
    {
      var jobs := queues[key].jobs;
      if |jobs| == 1 {
        queues := queues - {key};
      } else {
        queues := queues[key := Queue(jobs[1..], Ready)];
      }
    }

    /** The next handler begins. */
    method OnTurn(key: Key)
      requires At(Now(), key, Ready)
      modifies this
      ensures Now() == Step(old(Now()), Starts(key))
    {
      ghost var n := Front(Now(), key);
      if Awaits(queues[key].jobs[0]) {
        histories := Logged(Now(), key, [Began(n)]).histories;
        queues := queues[key := queues[key].(phase := Running)];
      } else {
        histories := Logged(Now(), key, [Began(n), Ended(n)]).histories;
        queues := queues[key := queues[key].(phase := Settled)];
      }
    }
  }

  // ----- one handler at a time, in arrival order -----

  /** Each of the first `n` handlers begins and ends before the next begins. */
  function InTurn(n: nat): seq<Mark> {
    if n == 0 then [] else InTurn(n - 1) + [Began(n - 1), Ended(n - 1)]
  }

  lemma {:induction false} InTurnAt(n: nat, k: nat)
    requires k < n
    ensures |InTurn(n)| == 2 * n && InTurn(n)[2 * k] == Began(k) && InTurn(n)[2 * k + 1] == Ended(k)
  {
    if n == 1 {
      assert InTurn(0) == [];
    } else {
      InTurnAt(n - 1, if k < n - 1 then k else 0);
    }
  }

  /** All there is of one session: its queue and its history. */
  datatype Lane = Lane(jobs: seq<Job>, phase: Phase, arrived: seq<Job>, log: seq<Mark>)

  function LaneOf(s: State, key: Key): Lane {
    var h := HistoryOf(s, key);
    Lane(Pending(s, key), if key in s.queues then s.queues[key].phase else Ready, h.arrived, h.log)
  }

  /** What the front of a queue has done so far. */
  function FrontMarks(l: Lane, n: nat): seq<Mark> {
    if l.jobs == [] || l.phase == Ready then []
    else if l.phase == Running then [Began(n)]
    else [Began(n), Ended(n)]
  }

  /** The pending handlers are the last to have arrived; all before them ran in turn, and of them only the first has
      begun. */
  ghost predicate SerialLane(l: Lane) {
    && |l.jobs| <= |l.arrived|
    && (forall k: nat :: k < |l.jobs| ==> l.jobs[k] == l.arrived[|l.arrived| - |l.jobs| + k])
    && l.log == InTurn(|l.arrived| - |l.jobs|) + FrontMarks(l, |l.arrived| - |l.jobs|)
  }

  ghost predicate Serial(s: State, key: Key) {
    SerialLane(LaneOf(s, key)) && (key in s.queues ==> s.queues[key].jobs != [])
  }

  function LaneEnqueue(l: Lane, job: Job): Lane {
    var n, arrived := |l.arrived|, l.arrived + [job];
    if l.jobs != [] then Lane(l.jobs + [job], l.phase, arrived, l.log)
    else if Awaits(job) then Lane([job], Running, arrived, l.log + [Began(n)])
    else Lane([], Ready, arrived, l.log + [Began(n), Ended(n)])
  }

  lemma EnqueueLane(s: State, at: Key, job: Job, key: Key)
    requires key in s.queues ==> s.queues[key].jobs != []
    ensures LaneOf(Enqueue(s, at, job), key) == if at == key then LaneEnqueue(LaneOf(s, key), job) else LaneOf(s, key)
    ensures key in Enqueue(s, at, job).queues ==> Enqueue(s, at, job).queues[key].jobs != []
  {
  }

  lemma LaneEnqueueKeeps(l: Lane, job: Job)
    requires SerialLane(l)
    ensures SerialLane(LaneEnqueue(l, job))
  {
    var n := |l.arrived|;
    if l.jobs == [] && !Awaits(job) {
      assert l.log + [Began(n), Ended(n)] == InTurn(n + 1) + [];
    } else if l.jobs == [] {
      assert l.log == InTurn(n);
    }
  }

  lemma EnqueueKeepsSerial(s: State, at: Key, job: Job, key: Key)
    requires Serial(s, key)
    ensures Serial(Enqueue(s, at, job), key)
  {
    EnqueueLane(s, at, job, key);
    LaneEnqueueKeeps(LaneOf(s, key), job);
  }

  lemma SettleLane(l: Lane)
    requires SerialLane(l) && l.jobs != [] && l.phase == Running
    ensures SerialLane(l.(phase := Settled, log := l.log + [Ended(|l.arrived| - |l.jobs|)]))
  {
    var n := |l.arrived| - |l.jobs|;
    assert (InTurn(n) + [Began(n)]) + [Ended(n)] == InTurn(n) + [Began(n), Ended(n)];
  }

  lemma SettleKeepsSerial(s: State, at: Key, chunk: Chunk, key: Key)
    requires Serial(s, key) && At(s, at, Running)
    ensures Serial(Settle(s, at, chunk), key)
  {
    if at == key {
      SettleLane(LaneOf(s, key));
    } else {
      assert LaneOf(Settle(s, at, chunk), key) == LaneOf(s, key);
    }
  }

  lemma CleanLane(l: Lane)
    requires SerialLane(l) && l.jobs != [] && l.phase == Settled
    ensures SerialLane(Lane(l.jobs[1..], Ready, l.arrived, l.log))
  {
    var n := |l.arrived| - |l.jobs|;
    var r := Lane(l.jobs[1..], Ready, l.arrived, l.log);
    assert FrontMarks(r, n + 1) == [];
    var turns := InTurn(n + 1);
    assert turns == InTurn(n) + [Began(n), Ended(n)];
    assert turns + [] == turns;
    assert forall k: nat :: k < |r.jobs| ==> r.jobs[k] == l.jobs[k + 1];
  }

  lemma CleanedLane(s: State, at: Key, key: Key)
    requires At(s, at, Settled)
    ensures LaneOf(Clean(s, at), key) ==
      if at == key then LaneOf(s, key).(jobs := LaneOf(s, key).jobs[1..], phase := Ready) else LaneOf(s, key)
  {
    var jobs := s.queues[at].jobs;
    assert |jobs| == 1 ==> jobs[1..] == [];
  }

  lemma CleanKeepsSerial(s: State, at: Key, key: Key)
    requires Serial(s, key) && At(s, at, Settled)
    ensures Serial(Clean(s, at), key)
  {
    CleanedLane(s, at, key);
    if at == key {
      CleanLane(LaneOf(s, key));
    }
  }

  lemma StartLane(l: Lane, phase: Phase, marks: seq<Mark>)
    requires SerialLane(l) && l.jobs != [] && l.phase == Ready
    requires marks == FrontMarks(l.(phase := phase), |l.arrived| - |l.jobs|)
    ensures SerialLane(l.(phase := phase, log := l.log + marks))
  {
    assert l.log == InTurn(|l.arrived| - |l.jobs|);
  }

  lemma StartedLane(s: State, at: Key, key: Key)
    requires At(s, at, Ready)
    ensures LaneOf(Start(s, at), key) ==
      var l, n := LaneOf(s, key), Front(s, at);
      if at != key then l
      else if Awaits(l.jobs[0]) then l.(phase := Running, log := l.log + [Began(n)])
      else l.(phase := Settled, log := l.log + [Began(n), Ended(n)])
  {
  }

  lemma StartKeepsSerial(s: State, at: Key, key: Key)
    requires Serial(s, key) && At(s, at, Ready)
    ensures Serial(Start(s, at), key)
  {
    StartedLane(s, at, key);
    if at == key {
      var l, n := LaneOf(s, key), Front(s, key);
      if Awaits(l.jobs[0]) {
        StartLane(l, Running, [Began(n)]);
      } else {
        StartLane(l, Settled, [Began(n), Ended(n)]);
      }
    }
  }

  lemma AnnounceKeepsSerial(s: State, at: Key, channel: Channel, target: string, contentLength: int, key: Key)
    requires Serial(s, key)
    ensures Serial(Announce(s, at, channel, target, contentLength), key)
  {
    if contentLength > Offset(s, channel) {
      var read := Read(channel, target, Offset(s, channel), contentLength);
      var t := s.(streamOffsets := s.streamOffsets[channel := contentLength],
                  issued := s.issued[channel := Issued(s, channel) + [read]]);
      assert LaneOf(t, key) == LaneOf(s, key);
      EnqueueKeepsSerial(t, at, read, key);
    }
  }

  lemma ArrivalKeepsSerial(s: State, e: Event, key: Key)
    requires Serial(s, key) && (e.StreamEvent? || e.StreamConcluded? || e.Arrives?)
    ensures Serial(Step(s, e), key)
  {
    match e {
      case StreamEvent(at, entryId, target, channel, contentLength) =>
        if target.Some? && channel.Some? {
          AnnounceKeepsSerial(s, at, Channel(at.workspaceId, entryId, channel.value), target.value, contentLength, key);
        }
      case StreamConcluded(at, entryId, status) => EnqueueKeepsSerial(s, at, Conclude(entryId, status), key);
      case Arrives(at, topic) => EnqueueKeepsSerial(s, at, Handle(topic), key);
    }
  }

  lemma SettlingKeepsSerial(s: State, at: Key, chunk: Chunk, key: Key)
    requires Serial(s, key)
    ensures Serial(Step(s, Settles(at, chunk)), key)
  {
    if At(s, at, Running) {
      SettleKeepsSerial(s, at, chunk, key);
    }
  }

  lemma CleaningKeepsSerial(s: State, at: Key, key: Key)
    requires Serial(s, key)
    ensures Serial(Step(s, CleansUp(at)), key)
  {
    if At(s, at, Settled) {
      CleanKeepsSerial(s, at, key);
    }
  }

  lemma StartingKeepsSerial(s: State, at: Key, key: Key)
    requires Serial(s, key)
    ensures Serial(Step(s, Starts(at)), key)
  {
    if At(s, at, Ready) {
      StartKeepsSerial(s, at, key);
    }
  }

  lemma StepKeepsSerial(s: State, e: Event, key: Key)
    requires Serial(s, key)
    ensures Serial(Step(s, e), key)
  {
    match e {
      case Settles(at, chunk) => SettlingKeepsSerial(s, at, chunk, key);
      case CleansUp(at) => CleaningKeepsSerial(s, at, key);
      case Starts(at) => StartingKeepsSerial(s, at, key);
      case _ => ArrivalKeepsSerial(s, e, key);
    }
  }

  lemma {:induction false} RunKeepsSerial(s: State, events: seq<Event>, key: Key)
    requires Serial(s, key)
    ensures Serial(Run(s, events), key)
    decreases |events|
  {
    if events != [] {
      StepKeepsSerial(s, events[0], key);
      RunKeepsSerial(Step(s, events[0]), events[1..], key);
    }
  }

  /** In every run a session's handlers begin in order of arrival, and none begins before the one ahead of it ended. */
  lemma OneAtATime(events: seq<Event>, key: Key)
    ensures var h := HistoryOf(Run(INITIAL, events), key); h.log <= InTurn(|h.arrived|)
  {
    RunKeepsSerial(INITIAL, events, key);
    LaneInTurn(LaneOf(Run(INITIAL, events), key));
  }

  lemma LaneInTurn(l: Lane)
    requires SerialLane(l)
    ensures l.log <= InTurn(|l.arrived|)
  {
    var n := |l.arrived| - |l.jobs|;
    InTurnGrows(n, |l.arrived|);
    if l.jobs != [] {
      InTurnGrows(n + 1, |l.arrived|);
      assert InTurn(n + 1) == InTurn(n) + [Began(n), Ended(n)];
    }
  }

  lemma {:induction false} InTurnGrows(m: nat, n: nat)
    requires m <= n
    ensures InTurn(m) <= InTurn(n)
  {
    if m < n {
      InTurnGrows(m, n - 1);
    }
  }

  /** A conclusion begins only when every chunk read that arrived before it, on the same session, has ended. */
  lemma ConclusionFollowsChunks(events: seq<Event>, key: Key, p: nat, chunk: nat)
    requires var h := HistoryOf(Run(INITIAL, events), key);
      && p < |h.log| && h.log[p].Began? && h.log[p].job < |h.arrived| && h.arrived[h.log[p].job].Conclude?
      && chunk < h.log[p].job
    ensures exists q :: 0 <= q < p && HistoryOf(Run(INITIAL, events), key).log[q] == Ended(chunk)
  {
    OneAtATime(events, key);
    var h := HistoryOf(Run(INITIAL, events), key);
    var all := InTurn(|h.arrived|);
    InTurnAt(|h.arrived|, chunk);
    var k := p / 2;
    InTurnAt(|h.arrived|, k);
    assert h.log[p] == all[p] && 2 * k <= p <= 2 * k + 1;
    assert h.log[2 * chunk + 1] == all[2 * chunk + 1];
  }

  /** A session with nothing pending has run everything that arrived. */
  lemma IdleMeansDone(events: seq<Event>, key: Key)
    requires key !in Run(INITIAL, events).queues
    ensures var h := HistoryOf(Run(INITIAL, events), key); h.log == InTurn(|h.arrived|)
  {
    RunKeepsSerial(INITIAL, events, key);
  }

  /** How many steps the handlers of a session still need. */
  function Remaining(s: State, key: Key): nat {
    if key !in s.queues || s.queues[key].jobs == [] then 0
    else
      3 * |s.queues[key].jobs| - match s.queues[key].phase { case Ready => 0 case Running => 1 case Settled => 2 }
  }

  /** The step the front of a queue takes next. */
  function Next(s: State, key: Key): Event {
    if At(s, key, Running) then Settles(key, None) else if At(s, key, Settled) then CleansUp(key) else Starts(key)
  }

  /** No handler waits for ever behind another: while any is pending its front has a step, and each step brings the end
      nearer. */
  lemma NothingIsStuck(events: seq<Event>, key: Key)
    ensures var s := Run(INITIAL, events);
      key in s.queues ==> Remaining(Step(s, Next(s, key)), key) < Remaining(s, key)
  {
    RunKeepsSerial(INITIAL, events, key);
  }

  // ----- reads of a channel -----

  /** Where a read must start: at the beginning, or where the announcement of the one before it ended. */
  function Expected(issued: seq<Job>, k: nat): int
    requires k <= |issued| && forall i :: 0 <= i < |issued| ==> issued[i].Read?
  {
    if k == 0 then 0 else issued[k - 1].announced
  }

  /** Each read starts where it must and ends further on; the last ends at `end`. */
  ghost predicate TiledTo(issued: seq<Job>, channel: Channel, end: int) {
    && (forall k :: 0 <= k < |issued| ==> issued[k].Read? && issued[k].channel == channel)
    && (forall k: nat :: k < |issued| ==> issued[k].offset == Expected(issued, k) && issued[k].offset < issued[k].announced)
    && end == Expected(issued, |issued|)
  }

  /** The reads of a channel tile everything up to the length kept for it. */
  ghost predicate Tiled(s: State, channel: Channel) {
    TiledTo(Issued(s, channel), channel, Offset(s, channel))
  }

  lemma TilesGrow(issued: seq<Job>, channel: Channel, end: int, target: string, announced: int)
    requires TiledTo(issued, channel, end) && end < announced
    ensures TiledTo(issued + [Read(channel, target, end, announced)], channel, announced)
  {
    var more := issued + [Read(channel, target, end, announced)];
    forall k: nat | k < |more| ensures more[k].offset == Expected(more, k) && more[k].offset < more[k].announced {
      if k < |issued| {
        assert more[k] == issued[k] && Expected(more, k) == Expected(issued, k);
      } else {
        assert Expected(more, k) == Expected(issued, k);
      }
    }
  }

  lemma EnqueueLeavesOffsets(s: State, key: Key, job: Job)
    ensures Enqueue(s, key, job).issued == s.issued && Enqueue(s, key, job).streamOffsets == s.streamOffsets
  {
  }

  lemma StepKeepsTiles(s: State, e: Event, channel: Channel)
    requires Tiled(s, channel)
    ensures Tiled(Step(s, e), channel)
    ensures Issued(s, channel) <= Issued(Step(s, e), channel)
  {
    if e.StreamEvent? && e.target.Some? && e.channel.Some? {
      var c := Channel(e.key.workspaceId, e.entryId, e.channel.value);
      var prevOffset := Offset(s, c);
      if e.contentLength > prevOffset {
        var read := Read(c, e.target.value, prevOffset, e.contentLength);
        EnqueueLeavesOffsets(s.(streamOffsets := s.streamOffsets[c := e.contentLength],
                                issued := s.issued[c := Issued(s, c) + [read]]), e.key, read);
        if c == channel {
          TilesGrow(Issued(s, channel), channel, prevOffset, e.target.value, e.contentLength);
        }
      }
    } else if e.StreamConcluded? {
      EnqueueLeavesOffsets(s, e.key, Conclude(e.entryId, e.status));
    } else if e.Arrives? {
      EnqueueLeavesOffsets(s, e.key, Handle(e.topic));
    }
  }

  lemma {:induction false} RunKeepsTiles(s: State, events: seq<Event>, channel: Channel)
    requires Tiled(s, channel)
    ensures Tiled(Run(s, events), channel)
    ensures Issued(s, channel) <= Issued(Run(s, events), channel)
    decreases |events|
  {
    if events != [] {
      StepKeepsTiles(s, events[0], channel);
      RunKeepsTiles(Step(s, events[0]), events[1..], channel);
    }
  }

  /** In every run the reads of a channel start at strictly increasing offsets. */
  lemma OffsetsIncrease(events: seq<Event>, channel: Channel, i: nat, k: nat)
    requires i < k < |Issued(Run(INITIAL, events), channel)|
    requires Issued(Run(INITIAL, events), channel)[i].Read? && Issued(Run(INITIAL, events), channel)[k].Read?
    ensures Issued(Run(INITIAL, events), channel)[i].offset < Issued(Run(INITIAL, events), channel)[k].offset
  {
    RunKeepsTiles(INITIAL, events, channel);
    var s := Run(INITIAL, events);
    Increasing(Issued(s, channel), channel, Offset(s, channel), i, k);
  }

  lemma {:induction false} Increasing(issued: seq<Job>, channel: Channel, end: int, i: nat, k: nat)
    requires TiledTo(issued, channel, end) && i < k < |issued|
    ensures issued[i].offset < issued[k].offset
    decreases k
  {
    assert issued[k].offset == Expected(issued, k);
    if i < k - 1 {
      Increasing(issued, channel, end, i, k - 1);
    }
  }

  /** The read that covers a position, among the first `n`. */
  lemma {:induction false} Covering(issued: seq<Job>, channel: Channel, end: int, n: nat, x: nat) returns (k: nat)
    requires TiledTo(issued, channel, end) && n <= |issued| && x < Expected(issued, n)
    ensures k < n && issued[k].offset <= x < issued[k].announced
    decreases n
  {
    k := n - 1;
    assert issued[k].offset == Expected(issued, k);
    if x < issued[k].offset {
      k := Covering(issued, channel, end, k, x);
    }
  }

  lemma {:induction false} RunAppends(s: State, a: seq<Event>, b: seq<Event>)
    ensures Run(s, a + b) == Run(Run(s, a), b)
    decreases |a|
  {
    if a == [] {
      assert a + b == b;
    } else {
      RunAppends(Step(s, a[0]), a[1..], b);
      assert (a + b)[1..] == a[1..] + b;
    }
  }

  /** The announced length is covered: once a channel of `contentLength` characters is announced, each of them lies in
      some read that starts at or before it and was issued for a length beyond it. */
  lemma NoGap(before: seq<Event>, e: Event, after: seq<Event>, x: nat) returns (k: nat)
    requires e.StreamEvent? && e.target.Some? && e.channel.Some? && x < e.contentLength
    ensures var all := Issued(Run(INITIAL, before + [e] + after), Channel(e.key.workspaceId, e.entryId, e.channel.value));
      k < |all| && all[k].Read? && all[k].offset <= x < all[k].announced
  {
    var channel := Channel(e.key.workspaceId, e.entryId, e.channel.value);
    var s := Run(INITIAL, before);
    var t := Step(s, e);
    RunKeepsTiles(INITIAL, before, channel);
    StepKeepsTiles(s, e, channel);
    k := Covering(Issued(t, channel), channel, Offset(t, channel), |Issued(t, channel)|, x);
    RunKeepsTiles(t, after, channel);
    RunAppends(INITIAL, before + [e], after);
    RunAppends(INITIAL, before, [e]);
    assert Run(s, [e]) == Run(t, []);
    assert Issued(t, channel) <= Issued(Run(t, after), channel);
  }
}
