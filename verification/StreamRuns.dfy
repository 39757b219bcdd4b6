/**
 * Runs of a stream-managed client with a first-in first-out server: what every step keeps, and which
 * steps keep every unhandled stanza in the queue.
 */
module StreamRuns {
  import opened Numerals
  import opened XmlTree
  import opened StreamManagement

  datatype Phase = Up | Down | Resuming

  /**
   * sent: stanzas recorded by onSent, in order; inflight: written to the stream but not yet
   * recorded; wire: on their way to the server; log: handled by the server since Enable; acks: true
   * counts of acknowledgements on their way to the client; confirmed: the last count processed;
   * received: stanzas delivered to the client; answers: the counts it reported; writes: how many
   * stanzas were written, from which each takes its serial number.
   */
  datatype System = System(
    sm: Sm, phase: Phase, sent: seq<Stanza>, inflight: seq<Stanza>, wire: seq<Stanza>, log: seq<Stanza>,
    acks: seq<nat>, confirmed: nat, received: nat, answers: seq<uint32>, writes: nat)

  datatype Step =
    | Write(x: Stanza)
    | Record(i: nat)
    | Handle
    | SendAck
    | ReadAck
    | Deliver
    | Request
    | Break
    | Resume
    | Refuse
    | Replay
    | Reopen

  function Init(enabled: Node): System {
    System(ParseEnabled(enabled), Up, [], [], [], [], [], 0, 0, [], 0)
  }

  predicate CanStep(s: System, step: Step) {
    match step
    case Write(x) => s.phase.Up? && x.serial == s.writes
    case Record(i) => i < |s.inflight|
    case Handle => s.phase.Up? && s.wire != []
    case SendAck => s.phase.Up?
    case ReadAck => s.phase.Up? && s.acks != []
    case Deliver => s.phase.Up?
    case Request => s.phase.Up?
    case Break => s.phase.Up?
    case Resume => s.phase.Down?
    case Refuse => s.phase.Down?
    case Replay => s.phase.Resuming?
    case Reopen => s.phase.Resuming?
  }

  /** The i-th stanza between its write and its record is recorded. */
  function Recorded(s: System, i: nat): System
    requires i < |s.inflight|
  {
    s.(sm := OnSent(s.sm, s.inflight[i]), sent := s.sent + [s.inflight[i]],
       inflight := s.inflight[..i] + s.inflight[i + 1..])
  }

  /** The client processes the true count c. */
  function Confirmed(s: System, c: nat): System {
    s.(sm := ApplyAck(s.sm, Wrap(c)), confirmed := c)
  }

  /**
   * One step. Send is Write followed by Record of the same stanza, with anything in between.
   * ReadAck, Request and Resume are onElement on the elements "a", "r" and "resumed" (AckNodeReads,
   * RequestAnswered, ResumedNodeReads). A broken stream loses what was in transit; resumption tells
   * the client how many stanzas the server handled, unless the server refuses it. The application then either writes the queue
   * again without recording it twice, which is Replay, or goes on with whatever it sends, which is
   * Reopen; sending the queue again with Send is a Reopen followed by Writes and Records.
   */
  function Next(s: System, step: Step): System
    requires CanStep(s, step)
  {
    match step
    case Write(x) => s.(inflight := s.inflight + [x], wire := s.wire + [x], writes := s.writes + 1)
    case Record(i) => Recorded(s, i)
    case Handle => s.(wire := s.wire[1..], log := s.log + [s.wire[0]])
    case SendAck => s.(acks := s.acks + [|s.log|])
    case ReadAck => Confirmed(s, s.acks[0]).(acks := s.acks[1..])
    case Deliver => s.(sm := OnReceived(s.sm), received := s.received + 1)
    case Request => if s.sm.enabled then s.(answers := s.answers + [s.sm.inbound]) else s
    case Break => s.(phase := Down, wire := [], acks := [])
    case Resume =>
      var t := Confirmed(s, |s.log|);
      t.(sm := t.sm.(enabled := true), phase := Resuming)
    case Refuse => s.(sm := OnElement(s.sm, NewNode(SM_NS, "failed")).0)
    case Replay => s.(wire := s.sm.unacked, phase := Up)
    case Reopen => s.(phase := Up)
  }

  /** The steps that read an element are what the element handler does with it. */
  lemma StepsReadElements(s: System, step: Step)
    requires CanStep(s, step)
    ensures step.ReadAck? ==> Next(s, step).sm == OnElement(s.sm, AckNode(Wrap(s.acks[0]))).0
    ensures step.Resume? ==> Next(s, step).sm == OnElement(s.sm, ResumedNode(s.sm.id, Wrap(|s.log|))).0
    ensures step.Request? && s.sm.enabled ==>
              && Next(s, step).sm == OnElement(s.sm, NewNode(SM_NS, "r")).0
              && OnElement(s.sm, NewNode(SM_NS, "r")).1 == Answer(AckNode(s.sm.inbound))
              && Next(s, step).answers == s.answers + [s.sm.inbound]
  {
    if step.ReadAck? {
      AckNodeReads(s.sm, Wrap(s.acks[0]));
    } else if step.Resume? {
      ResumedNodeReads(s.sm, s.sm.id, Wrap(|s.log|));
    } else if step.Request? && s.sm.enabled {
      RequestAnswered(s.sm);
    }
  }

  /** A refused resumption loses nothing: the whole state is as it was. */
  lemma RefusedKeepsAll(s: System)
    requires CanStep(s, Refuse)
    ensures Next(s, Refuse) == s
  {
    OthersLeaveState(s.sm, NewNode(SM_NS, "failed"));
  }

  /** Everything written to the stream, in the order of the record and then of the writes. */
  function Written(s: System): seq<Stanza> {
    s.sent + s.inflight
  }

  /** The bound under which wrapped counts are unambiguous: fewer than 2^32 stanzas confirmed at once. */
  predicate Bounded(s: System, step: Step)
    requires CanStep(s, step)
  {
    && (step.ReadAck? ==> s.acks[0] - s.confirmed < UINT32_SIZE)
    && (step.Resume? ==> |s.log| - s.confirmed < UINT32_SIZE)
  }

  predicate May(s: System, step: Step) {
    CanStep(s, step) && Bounded(s, step)
  }

  predicate IsRun(s: System, steps: seq<Step>)
    decreases |steps|
  {
    steps != [] ==> May(s, steps[0]) && IsRun(Next(s, steps[0]), steps[1..])
  }

  function Final(s: System, steps: seq<Step>): System
    requires IsRun(s, steps)
    decreases |steps|
  {
    if steps == [] then s else Final(Next(s, steps[0]), steps[1..])
  }

  // What every step keeps, whatever the order of records and however the stream is reopened

  /** How many recorded stanzas have left the queue. */
  function Head(s: System): int {
    |s.sent| - |s.sm.unacked|
  }

  /** How far the confirmed count is ahead of the head of the queue. */
  function Lag(s: System): int {
    s.confirmed - Head(s)
  }

  /** The queue is a suffix of the record, and the counters are the true counts modulo 2^32. */
  predicate Queued(s: System) {
    && s.sm.enabled
    && 0 <= Head(s) <= s.confirmed
    && Tracks(s.sm, s.sent, Head(s), s.confirmed)
    && s.sm.inbound == Wrap(s.received)
  }

  predicate Sorted(acks: seq<nat>) {
    forall i, j :: 0 <= i < j < |acks| ==> acks[i] <= acks[j]
  }

  predicate Counted(s: System) {
    && s.confirmed <= |s.log|
    && Sorted(s.acks)
    && (forall i :: 0 <= i < |s.acks| ==> s.confirmed <= s.acks[i] <= |s.log|)
    && (!s.phase.Up? ==> s.wire == [] && s.acks == [])
    && (s.phase.Resuming? ==> s.confirmed == |s.log|)
    && |s.log| + |s.wire| <= |Written(s)| + Lag(s)
  }

  predicate Distinct(xs: seq<Stanza>) {
    forall i, j :: 0 <= i < j < |xs| ==> xs[i] != xs[j]
  }

  predicate Below(xs: seq<Stanza>, n: nat) {
    forall i :: 0 <= i < |xs| ==> xs[i].serial < n
  }

  predicate Numbered(s: System) {
    Distinct(Written(s)) && Below(Written(s), s.writes) && Below(s.wire, s.writes) && Below(s.log, s.writes)
  }

  predicate Basic(s: System) {
    Queued(s) && Counted(s) && Numbered(s)
  }

  function Max(a: int, b: int): int {
    if a >= b then a else b
  }

  lemma SentTracks(s: Sm, sent: seq<Stanza>, from: nat, confirmed: nat, x: Stanza)
    requires s.enabled && Tracks(s, sent, from, confirmed)
    ensures Tracks(OnSent(s, x), sent + [x], from, confirmed)
  {
    WrapPlus1(|sent|);
    assert (sent + [x])[from..] == sent[from..] + [x];
  }

  /** A count moves the head of the queue on by what it newly confirms, but not past the record. */
  lemma ConfirmMoves(s: System, c: nat)
    requires Queued(s) && s.confirmed <= c && c - s.confirmed < UINT32_SIZE
    ensures var t := Confirmed(s, c); Queued(t) && Lag(t) == Max(Lag(s), c - |s.sent|)
  {
    AckSafe(s.sm, s.sent, Head(s), s.confirmed, c);
  }

  lemma RecordQueued(s: System, i: nat)
    requires Queued(s) && i < |s.inflight|
    ensures Queued(Recorded(s, i)) && Head(Recorded(s, i)) == Head(s)
  {
    SentTracks(s.sm, s.sent, Head(s), s.confirmed, s.inflight[i]);
  }

  /** What each step does to the lag, exactly. */
  lemma LagStep(s: System, step: Step)
    requires Basic(s) && May(s, step)
    ensures Queued(Next(s, step))
    ensures Lag(Next(s, step)) ==
            if step.ReadAck? then Max(Lag(s), s.acks[0] - |s.sent|)
            else if step.Resume? then Max(Lag(s), |s.log| - |s.sent|)
            else Lag(s)
  {
    match step {
      case Record(i) => RecordQueued(s, i);
      case ReadAck => ConfirmMoves(s, s.acks[0]);
      case Resume => ConfirmMoves(s, |s.log|);
      case Deliver => WrapPlus1(s.received);
      case _ =>
    }
  }

  lemma CountedStep(s: System, step: Step)
    requires Basic(s) && May(s, step)
    ensures Counted(Next(s, step))
  {
    LagStep(s, step);
    var t := Next(s, step);
    if step.Record? {
      assert |Written(t)| == |Written(s)|;
    }
  }

  /** Recording the i-th stanza in flight moves it to the end of the record; the others keep their order. */
  lemma RecordMoves(s: System, i: nat, j: nat)
    requires i < |s.inflight| && j < |Written(s)|
    ensures |Written(Recorded(s, i))| == |Written(s)|
    ensures Written(Recorded(s, i))[j] == Written(s)[Origin(s, i, j)]
  {
    var t := Recorded(s, i);
    if j > |s.sent| {
      var k := j - |s.sent| - 1;
      assert Written(t)[j] == t.inflight[k];
    }
  }

  /** Where the stanza now at place j of what was written stood before the record. */
  function Origin(s: System, i: nat, j: nat): (o: nat)
    requires i < |s.inflight| && j < |Written(s)|
    ensures o < |Written(s)|
  {
    if j < |s.sent| || j > |s.sent| + i then j else if j == |s.sent| then |s.sent| + i else j - 1
  }

  lemma NumberedRecord(s: System, i: nat)
    requires Numbered(s) && i < |s.inflight|
    ensures Numbered(Recorded(s, i))
  {
    var t := Recorded(s, i);
    forall j | 0 <= j < |Written(t)|
      ensures |Written(t)| == |Written(s)| && Written(t)[j] == Written(s)[Origin(s, i, j)]
    {
      RecordMoves(s, i, j);
    }
  }

  lemma NumberedStep(s: System, step: Step)
    requires Basic(s) && May(s, step)
    ensures Numbered(Next(s, step))
  {
    var t := Next(s, step);
    match step {
      case Write(x) => assert Written(t) == Written(s) + [x];
      case Record(i) => NumberedRecord(s, i);
      case Replay => assert forall k :: 0 <= k < |s.sm.unacked| ==> s.sm.unacked[k] == Written(s)[Head(s) + k];
      case _ => assert Written(t) == Written(s);
    }
  }

  lemma BasicStep(s: System, step: Step)
    requires Basic(s) && May(s, step)
    ensures Basic(Next(s, step))
  {
    LagStep(s, step);
    CountedStep(s, step);
    NumberedStep(s, step);
  }

  lemma {:induction false} BasicRun(s: System, steps: seq<Step>)
    requires Basic(s) && IsRun(s, steps)
    ensures Basic(Final(s, steps))
    decreases |steps|
  {
    if steps != [] {
      BasicStep(s, steps[0]);
      BasicRun(Next(s, steps[0]), steps[1..]);
    }
  }

  lemma InitBasic(enabled: Node)
    ensures Basic(Init(enabled)) && Timely(Init(enabled)) && Ordered(Init(enabled)) && Lag(Init(enabled)) == 0
  {
  }

  // No loss

  /**
   * A stanza at place j of what was written is handled before any acknowledgement that removes it:
   * it has been handled, or it is on the wire early enough. While the stream is down it must not be
   * among those that the server's present count will remove.
   */
  predicate OnTime(s: System, x: Stanza, j: int) {
    || x in s.log
    || if s.phase.Up? then exists k :: 0 <= k < |s.wire| && s.wire[k] == x && |s.log| + k <= j + Lag(s)
       else |s.log| <= j + Lag(s)
  }

  predicate Timely(s: System) {
    forall j :: 0 <= j < |Written(s)| ==> OnTime(s, Written(s)[j], j)
  }

  /**
   * What keeps a stanza from being lost, step by step. A record may jump the order of writes only as
   * far as the stanza stays on time; a replay needs every stanza in flight to have been handled; going
   * on without a replay needs that of the queue, too.
   */
  predicate Guard(s: System, step: Step)
    requires CanStep(s, step)
  {
    match step
    case Record(i) => OnTime(s, s.inflight[i], |s.sent|)
    case Replay => forall x :: x in s.inflight ==> x in s.log
    case Reopen => forall x :: x in s.sm.unacked + s.inflight ==> x in s.log
    case _ => true
  }

  lemma TimelyWrite(s: System, x: Stanza)
    requires Basic(s) && Timely(s) && CanStep(s, Write(x))
    ensures Timely(Next(s, Write(x)))
  {
    var t := Next(s, Write(x));
    assert Written(t) == Written(s) + [x];
    forall j | 0 <= j < |Written(t)|
      ensures OnTime(t, Written(t)[j], j)
    {
      if j < |Written(s)| {
        assert OnTime(s, Written(s)[j], j);
        assert forall k :: 0 <= k < |s.wire| ==> t.wire[k] == s.wire[k];
      } else {
        assert t.wire[|s.wire|] == x;
      }
    }
  }

  lemma TimelyRecordIff(s: System, i: nat)
    requires Basic(s) && Timely(s) && i < |s.inflight|
    ensures Timely(Recorded(s, i)) <==> OnTime(s, s.inflight[i], |s.sent|)
  {
    var t := Recorded(s, i);
    RecordQueued(s, i);
    RecordMoves(s, i, |s.sent|);
    if OnTime(s, s.inflight[i], |s.sent|) {
      forall j | 0 <= j < |Written(t)|
        ensures OnTime(t, Written(t)[j], j)
      {
        RecordMoves(s, i, j);
        assert OnTime(s, Written(s)[Origin(s, i, j)], Origin(s, i, j));
      }
    }
    if Timely(t) {
      assert OnTime(t, Written(t)[|s.sent|], |s.sent|);
    }
  }

  lemma TimelyHandle(s: System)
    requires Basic(s) && Timely(s) && CanStep(s, Handle)
    ensures Timely(Next(s, Handle))
  {
    var t := Next(s, Handle);
    forall j | 0 <= j < |Written(t)|
      ensures OnTime(t, Written(t)[j], j)
    {
      var x := Written(s)[j];
      assert OnTime(s, x, j);
      if x !in t.log {
        var k :| 0 <= k < |s.wire| && s.wire[k] == x && |s.log| + k <= j + Lag(s);
        assert t.wire[k - 1] == x;
      }
    }
  }

  /** Steps that leave what was written, handled and on the wire alone only ever leave more time. */
  lemma TimelyQuiet(s: System, t: System)
    requires Timely(s) && Written(t) == Written(s) && t.log == s.log && Lag(t) >= Lag(s)
    requires t.phase.Up? ==> s.phase.Up? && t.wire == s.wire
    ensures Timely(t)
  {
    forall j | 0 <= j < |Written(t)|
      ensures OnTime(t, Written(t)[j], j)
    {
      assert OnTime(s, Written(s)[j], j);
    }
  }

  /** While the client resumes, everything that has left the queue has been handled. */
  lemma LeftHandled(s: System, j: nat)
    requires Basic(s) && Timely(s) && s.phase.Resuming? && j < Head(s)
    ensures Written(s)[j] in s.log
  {
    assert OnTime(s, Written(s)[j], j);
  }

  lemma TimelyReplayIff(s: System)
    requires Basic(s) && Timely(s) && s.phase.Resuming?
    ensures Timely(Next(s, Replay)) <==> forall x :: x in s.inflight ==> x in s.log
  {
    var t := Next(s, Replay);
    assert Written(t) == Written(s);
    if forall x :: x in s.inflight ==> x in s.log {
      forall j | 0 <= j < |Written(t)|
        ensures OnTime(t, Written(t)[j], j)
      {
        if j < Head(s) {
          LeftHandled(s, j);
        } else if j < |s.sent| {
          assert t.wire[j - Head(s)] == Written(s)[j];
        } else {
          assert Written(s)[j] in s.inflight;
        }
      }
    }
    if Timely(t) {
      forall x | x in s.inflight
        ensures x in s.log
      {
        var m :| 0 <= m < |s.inflight| && s.inflight[m] == x;
        assert OnTime(t, Written(t)[|s.sent| + m], |s.sent| + m);
        assert forall k :: 0 <= k < |t.wire| ==> t.wire[k] == Written(s)[Head(s) + k];
      }
    }
  }

  lemma TimelyReopenIff(s: System)
    requires Basic(s) && Timely(s) && s.phase.Resuming?
    ensures Timely(Next(s, Reopen)) <==> forall x :: x in s.sm.unacked + s.inflight ==> x in s.log
  {
    var t, rest := Next(s, Reopen), s.sm.unacked + s.inflight;
    assert Written(t) == Written(s) && t.wire == [];
    assert forall k :: 0 <= k < |rest| ==> rest[k] == Written(s)[Head(s) + k];
    if forall x :: x in rest ==> x in s.log {
      forall j | 0 <= j < |Written(t)|
        ensures OnTime(t, Written(t)[j], j)
      {
        if j < Head(s) {
          LeftHandled(s, j);
        } else {
          assert rest[j - Head(s)] == Written(s)[j];
        }
      }
    }
    if Timely(t) {
      forall x | x in rest
        ensures x in s.log
      {
        var k :| 0 <= k < |rest| && rest[k] == x;
        assert OnTime(t, Written(t)[Head(s) + k], Head(s) + k);
      }
    }
  }

  /** From a timely state, a step leads to a timely state exactly when its guard holds. */
  lemma TimelyStepIff(s: System, step: Step)
    requires Basic(s) && Timely(s) && May(s, step)
    ensures Timely(Next(s, step)) <==> Guard(s, step)
  {
    var t := Next(s, step);
    LagStep(s, step);
    match step {
      case Write(x) => TimelyWrite(s, x);
      case Record(i) => TimelyRecordIff(s, i);
      case Handle => TimelyHandle(s);
      case Replay => TimelyReplayIff(s);
      case Reopen => TimelyReopenIff(s);
      case _ => TimelyQuiet(s, t);
    }
  }

  predicate Guarded(s: System, steps: seq<Step>)
    requires IsRun(s, steps)
    decreases |steps|
  {
    steps != [] ==> Guard(s, steps[0]) && Guarded(Next(s, steps[0]), steps[1..])
  }

  lemma {:induction false} GuardedRun(s: System, steps: seq<Step>)
    requires Basic(s) && Timely(s) && IsRun(s, steps) && Guarded(s, steps)
    ensures Basic(Final(s, steps)) && Timely(Final(s, steps))
    decreases |steps|
  {
    if steps != [] {
      BasicStep(s, steps[0]);
      TimelyStepIff(s, steps[0]);
      GuardedRun(Next(s, steps[0]), steps[1..]);
    }
  }

  /** A recorded stanza that the server has not handled and that is gone from the queue. */
  predicate Lost(s: System, x: Stanza) {
    x in s.sent && x !in s.log && x !in s.sm.unacked
  }

  predicate Lossless(s: System) {
    forall x :: x in s.sent ==> !Lost(s, x)
  }

  lemma InQueue(s: System, n: nat)
    requires Basic(s) && Timely(s) && n < |s.sent| && s.sent[n] !in s.log
    ensures Head(s) <= n && s.sm.unacked[n - Head(s)] == s.sent[n]
  {
    assert Written(s)[n] == s.sent[n];
    assert OnTime(s, Written(s)[n], n);
  }

  lemma TimelyLossless(s: System)
    requires Basic(s) && Timely(s)
    ensures Lossless(s)
  {
    forall x | x in s.sent && x !in s.log
      ensures x in s.sm.unacked
    {
      var n :| 0 <= n < |s.sent| && s.sent[n] == x;
      InQueue(s, n);
    }
  }

  /**
   * In every run whose steps keep the guards, each recorded stanza the server has not handled is in the
   * queue at its place, however writes, records, acknowledgements, breaks and replays interleave.
   */
  lemma NoLoss(enabled: Node, steps: seq<Step>, n: nat)
    requires IsRun(Init(enabled), steps) && Guarded(Init(enabled), steps)
    requires var t := Final(Init(enabled), steps); n < |t.sent| && t.sent[n] !in t.log
    ensures var t := Final(Init(enabled), steps); Head(t) <= n && t.sm.unacked[n - Head(t)] == t.sent[n]
  {
    InitBasic(enabled);
    GuardedRun(Init(enabled), steps);
    InQueue(Final(Init(enabled), steps), n);
  }

  /** One sender: stanzas are recorded in the order they were written. */
  predicate InOrder(steps: seq<Step>) {
    forall i :: 0 <= i < |steps| ==> steps[i].Record? ==> steps[i].i == 0
  }

  /** Stanzas are recorded in the order of writes, and the stream is not reopened after a break. */
  predicate Plain(steps: seq<Step>) {
    InOrder(steps) && forall i :: 0 <= i < |steps| ==> !steps[i].Replay? && !steps[i].Reopen?
  }

  predicate Opens(step: Step) {
    step.Replay? || step.Reopen?
  }

  /** The stream is reopened as its guards ask, for instance by replays while nothing is in flight. */
  predicate OpensGuarded(s: System, steps: seq<Step>)
    requires IsRun(s, steps)
    decreases |steps|
  {
    steps != [] ==> (Opens(steps[0]) ==> Guard(s, steps[0])) && OpensGuarded(Next(s, steps[0]), steps[1..])
  }

  lemma RecordFirstOnTime(s: System)
    requires Timely(s) && s.inflight != []
    ensures OnTime(s, s.inflight[0], |s.sent|)
  {
    assert Written(s)[|s.sent|] == s.inflight[0];
  }

  /** One sender has to guard only how the stream is reopened. */
  lemma {:induction false} SingleSenderGuarded(s: System, steps: seq<Step>)
    requires Basic(s) && Timely(s) && IsRun(s, steps) && InOrder(steps)
    ensures Guarded(s, steps) <==> OpensGuarded(s, steps)
    decreases |steps|
  {
    if steps != [] {
      if steps[0].Record? {
        RecordFirstOnTime(s);
      }
      assert Guard(s, steps[0]) <==> (Opens(steps[0]) ==> Guard(s, steps[0]));
      if Guard(s, steps[0]) {
        BasicStep(s, steps[0]);
        TimelyStepIff(s, steps[0]);
        assert forall i :: 0 <= i < |steps[1..]| ==> steps[1..][i] == steps[i + 1];
        SingleSenderGuarded(Next(s, steps[0]), steps[1..]);
      }
    }
  }

  /** So a sender that replays the queue when all its stanzas in flight are handled loses none. */
  lemma SingleSenderNoLoss(enabled: Node, steps: seq<Step>)
    requires IsRun(Init(enabled), steps) && InOrder(steps) && OpensGuarded(Init(enabled), steps)
    ensures Lossless(Final(Init(enabled), steps))
  {
    InitBasic(enabled);
    SingleSenderGuarded(Init(enabled), steps);
    GuardedRun(Init(enabled), steps);
    TimelyLossless(Final(Init(enabled), steps));
  }

  lemma {:induction false} PlainGuarded(s: System, steps: seq<Step>)
    requires IsRun(s, steps) && Plain(steps)
    ensures OpensGuarded(s, steps)
    decreases |steps|
  {
    if steps != [] {
      assert forall i :: 0 <= i < |steps[1..]| ==> steps[1..][i] == steps[i + 1];
      PlainGuarded(Next(s, steps[0]), steps[1..]);
    }
  }

  // The stream as it is before the first replay

  /** What was handled and what is on the wire is what was written, in its order. */
  predicate Ordered(s: System) {
    s.log <= Written(s) && (s.phase.Up? ==> s.log + s.wire == Written(s))
  }

  lemma OrderedStep(s: System, step: Step)
    requires Basic(s) && Ordered(s) && May(s, step)
    requires !step.Replay? && !step.Reopen? && (step.Record? ==> step.i == 0)
    ensures Ordered(Next(s, step))
  {
    var t := Next(s, step);
    match step {
      case Write(x) =>
        assert Written(t) == Written(s) + [x];
        assert s.log + (s.wire + [x]) == (s.log + s.wire) + [x];
      case Record(_) =>
        assert s.inflight == [s.inflight[0]] + s.inflight[1..];
        assert Written(t) == Written(s);
      case Handle =>
        assert s.log + s.wire == (s.log + [s.wire[0]]) + s.wire[1..];
        assert Written(t) == Written(s);
      case SendAck | ReadAck | Deliver | Request | Break | Resume | Refuse => assert Written(t) == Written(s);
    }
  }

  lemma {:induction false} OrderedRun(s: System, steps: seq<Step>)
    requires Basic(s) && Ordered(s) && IsRun(s, steps) && Plain(steps)
    ensures Basic(Final(s, steps)) && Ordered(Final(s, steps))
    decreases |steps|
  {
    if steps != [] {
      assert forall i :: 0 <= i < |steps[1..]| ==> steps[1..][i] == steps[i + 1];
      BasicStep(s, steps[0]);
      OrderedStep(s, steps[0]);
      OrderedRun(Next(s, steps[0]), steps[1..]);
    }
  }

  lemma OrderedTimely(s: System)
    requires Basic(s) && Ordered(s)
    ensures Timely(s)
  {
    forall j | 0 <= j < |Written(s)|
      ensures OnTime(s, Written(s)[j], j)
    {
      if j < |s.log| {
        assert s.log[j] == Written(s)[j];
      } else if s.phase.Up? {
        assert (s.log + s.wire)[j] == s.wire[j - |s.log|];
      }
    }
  }

  // The lag

  /** The acknowledgement read by this step counts more stanzas than the client has recorded. */
  predicate Overtakes(s: System, step: Step)
    requires CanStep(s, step)
  {
    (step.ReadAck? && s.acks[0] > |s.sent|) || (step.Resume? && |s.log| > |s.sent|)
  }

  predicate NeverOvertaken(s: System, steps: seq<Step>)
    requires IsRun(s, steps)
    decreases |steps|
  {
    steps != [] ==> !Overtakes(s, steps[0]) && NeverOvertaken(Next(s, steps[0]), steps[1..])
  }

  /**
   * At the end of any run, the queue is the record from the confirmed count on if and only if no
   * acknowledgement counted more stanzas than were recorded when it was read.
   */
  lemma {:induction false} ExactIffNeverOvertaken(s: System, steps: seq<Step>)
    requires Basic(s) && IsRun(s, steps)
    ensures Lag(Final(s, steps)) == 0 <==> Lag(s) == 0 && NeverOvertaken(s, steps)
    decreases |steps|
  {
    if steps != [] {
      BasicStep(s, steps[0]);
      LagStep(s, steps[0]);
      ExactIffNeverOvertaken(Next(s, steps[0]), steps[1..]);
    }
  }

  /** At most k stanzas are ever between their write and their record. */
  predicate AtMostInFlight(s: System, steps: seq<Step>, k: nat)
    requires IsRun(s, steps)
    decreases |steps|
  {
    |s.inflight| <= k && (steps != [] ==> AtMostInFlight(Next(s, steps[0]), steps[1..], k))
  }

  function Reopenings(steps: seq<Step>): nat {
    if steps == [] then 0 else (if Opens(steps[0]) then 1 else 0) + Reopenings(steps[1..])
  }

  /** An allowance of k, granted once more each time the stream is reopened. */
  function Allowance(b: nat, k: nat, steps: seq<Step>): nat
    decreases |steps|
  {
    if steps == [] then b + k else Allowance(if Opens(steps[0]) then b + k else b, k, steps[1..])
  }

  lemma {:induction false} AllowanceIs(b: nat, k: nat, steps: seq<Step>)
    ensures Allowance(b, k, steps) == b + k + Reopenings(steps) * k
    decreases |steps|
  {
    if steps != [] {
      AllowanceIs(if Opens(steps[0]) then b + k else b, k, steps[1..]);
      var n := Reopenings(steps[1..]);
      assert (1 + n) * k == k + n * k;
    }
  }

  /** The lag grows by at most k, the stanzas that may be in flight, each time the stream is opened. */
  lemma {:induction false} LagWithin(s: System, steps: seq<Step>, k: nat, b: nat)
    requires Basic(s) && IsRun(s, steps) && AtMostInFlight(s, steps, k)
    requires |s.log| + |s.wire| <= |Written(s)| + b && Lag(s) <= b + k
    ensures Lag(Final(s, steps)) <= Allowance(b, k, steps)
    decreases |steps|
  {
    if steps != [] {
      LagStep(s, steps[0]);
      BasicStep(s, steps[0]);
      LagWithin(Next(s, steps[0]), steps[1..], k, if Opens(steps[0]) then b + k else b);
    }
  }

  /**
   * From the start, with at most k stanzas ever between write and record, the queue keeps at most k
   * handled stanzas until the stream is first reopened, and the lag gains at most k each time.
   */
  lemma LagBounded(enabled: Node, steps: seq<Step>, k: nat)
    requires IsRun(Init(enabled), steps) && AtMostInFlight(Init(enabled), steps, k)
    ensures Lag(Final(Init(enabled), steps)) <= k + Reopenings(steps) * k
  {
    InitBasic(enabled);
    LagWithin(Init(enabled), steps, k, 0);
    AllowanceIs(0, k, steps);
  }

  // Exactness with write and record atomic

  /** Each write is followed at once by its record, and the stream is reopened by replaying the queue. */
  predicate Atomic(steps: seq<Step>) {
    steps != [] ==>
      if steps[0].Write? then |steps| > 1 && steps[1] == Record(0) && Atomic(steps[2..])
      else !steps[0].Record? && !steps[0].Reopen? && Atomic(steps[1..])
  }

  predicate Exact(s: System) {
    Basic(s) && Ordered(s) && s.inflight == [] && Lag(s) == 0
  }

  lemma ExactStep(s: System, step: Step)
    requires Exact(s) && May(s, step) && !step.Write? && !step.Record? && !step.Reopen?
    ensures Exact(Next(s, step))
  {
    BasicStep(s, step);
    LagStep(s, step);
    if step.Replay? {
      assert s.log + s.sm.unacked == Written(s);
    } else {
      OrderedStep(s, step);
    }
  }

  lemma ExactSend(s: System, x: Stanza)
    requires Exact(s) && CanStep(s, Write(x))
    ensures CanStep(Next(s, Write(x)), Record(0))
    ensures Exact(Next(Next(s, Write(x)), Record(0)))
  {
    var m := Next(s, Write(x));
    BasicStep(s, Write(x));
    OrderedStep(s, Write(x));
    LagStep(s, Write(x));
    BasicStep(m, Record(0));
    OrderedStep(m, Record(0));
    LagStep(m, Record(0));
  }

  lemma {:induction false} ExactRun(s: System, steps: seq<Step>)
    requires Exact(s) && IsRun(s, steps) && Atomic(steps)
    ensures Exact(Final(s, steps))
    decreases |steps|
  {
    if steps != [] {
      var t := Next(s, steps[0]);
      if steps[0].Write? {
        assert steps[1..][1..] == steps[2..] && steps[1..][0] == steps[1];
        assert IsRun(t, steps[1..]);
        ExactSend(s, steps[0].x);
        ExactRun(Next(t, steps[1]), steps[2..]);
      } else {
        ExactStep(s, steps[0]);
        ExactRun(t, steps[1..]);
      }
    }
  }

  /**
   * Queue and counters are exact, and the server handled a prefix of what was sent, each stanza once
   * and in order; while the stream is up the rest is on the wire, and after a resumption it is
   * exactly the queue, so that replaying the queue delivers each stanza once.
   */
  predicate Accounted(t: System) {
    && t.confirmed <= |t.log| <= |t.sent| && Distinct(t.sent)
    && t.sm.unacked == t.sent[t.confirmed..]
    && t.sm.outbound == Wrap(|t.sent|) && t.sm.acked == Wrap(t.confirmed) && t.sm.inbound == Wrap(t.received)
    && t.log == t.sent[..|t.log|]
    && (t.phase.Up? ==> t.log + t.wire == t.sent)
    && (t.phase.Resuming? ==> t.log + t.sm.unacked == t.sent)
  }

  lemma ExactAccounted(t: System)
    requires Exact(t)
    ensures Accounted(t)
  {
    assert Written(t) == t.sent;
  }

  /** So it is in every reachable state, over any number of wraparounds and resumptions. */
  lemma AtomicExact(enabled: Node, steps: seq<Step>)
    requires IsRun(Init(enabled), steps) && Atomic(steps)
    ensures Accounted(Final(Init(enabled), steps))
  {
    InitBasic(enabled);
    ExactRun(Init(enabled), steps);
    ExactAccounted(Final(Init(enabled), steps));
  }
}
