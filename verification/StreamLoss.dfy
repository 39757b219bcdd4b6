/**
 * When a stanza can be lost: from every state that is not timely a run loses one, so the guards of the
 * steps are exact. Witness runs, and what a replay leaves that records the queue again.
 */
module StreamLoss {
  import opened Numerals
  import opened XmlTree
  import opened StreamManagement
  import opened StreamRuns

  // Putting runs together

  predicate Reaches(s: System, steps: seq<Step>, t: System) {
    IsRun(s, steps) && Final(s, steps) == t
  }

  lemma ReachesOne(s: System, step: Step)
    requires May(s, step)
    ensures Reaches(s, [step], Next(s, step))
  {
    assert [step][1..] == [];
    assert Reaches(Next(s, step), [], Next(s, step));
  }

  lemma {:induction false} ReachesConcat(s: System, a: seq<Step>, m: System, b: seq<Step>, t: System)
    requires Reaches(s, a, m) && Reaches(m, b, t)
    ensures Reaches(s, a + b, t)
    decreases |a|
  {
    if a == [] {
      assert a + b == b;
    } else {
      assert (a + b)[1..] == a[1..] + b;
      ReachesConcat(Next(s, a[0]), a[1..], m, b, t);
    }
  }

  lemma ReachesStep(s: System, steps: seq<Step>, m: System, step: Step)
    requires Reaches(s, steps, m) && May(m, step)
    ensures Reaches(s, steps + [step], Next(m, step))
  {
    ReachesOne(m, step);
    ReachesConcat(s, steps, m, [step], Next(m, step));
  }

  /** Steps of the server and the acknowledgements it sends. */
  predicate ServerOnly(steps: seq<Step>) {
    forall i :: 0 <= i < |steps| ==> steps[i].Handle? || steps[i].SendAck? || steps[i].ReadAck?
  }

  // Stages of a run that loses a stanza

  /** Record the first n stanzas in flight, in order. */
  lemma {:induction false} RecordSome(s: System, n: nat) returns (steps: seq<Step>, t: System)
    requires Basic(s) && n <= |s.inflight|
    ensures Reaches(s, steps, t) && Plain(steps) && (n == 0 ==> steps == []) && Basic(t)
    ensures Written(t) == Written(s) && |t.sent| == |s.sent| + n && Head(t) == Head(s)
    ensures t == s.(sm := t.sm, sent := t.sent, inflight := t.inflight)
    decreases n
  {
    if n == 0 {
      steps, t := [], s;
    } else {
      var m := Recorded(s, 0);
      BasicStep(s, Record(0));
      LagStep(s, Record(0));
      assert s.inflight == [s.inflight[0]] + s.inflight[1..];
      assert Written(m) == Written(s);
      ReachesOne(s, Record(0));
      var rest;
      rest, t := RecordSome(m, n - 1);
      ReachesConcat(s, [Record(0)], m, rest, t);
      steps := [Record(0)] + rest;
    }
  }

  /** Write n further stanzas. */
  lemma {:induction false} WriteSome(s: System, n: nat) returns (steps: seq<Step>, t: System)
    requires Basic(s) && s.phase.Up?
    ensures Reaches(s, steps, t) && Plain(steps) && (n == 0 ==> steps == []) && Basic(t)
    ensures t == s.(inflight := t.inflight, wire := t.wire, writes := t.writes)
    ensures s.wire <= t.wire && |t.wire| == |s.wire| + n
    ensures forall k :: |s.wire| <= k < |t.wire| ==> t.wire[k].serial >= s.writes
    decreases n
  {
    if n == 0 {
      steps, t := [], s;
    } else {
      var x := Stanza(s.writes, "message", "");
      var m := Next(s, Write(x));
      BasicStep(s, Write(x));
      ReachesOne(s, Write(x));
      var rest;
      rest, t := WriteSome(m, n - 1);
      ReachesConcat(s, [Write(x)], m, rest, t);
      steps := [Write(x)] + rest;
    }
  }

  /** The server handles the next n stanzas. */
  lemma {:induction false} HandleSome(s: System, n: nat) returns (steps: seq<Step>, t: System)
    requires Basic(s) && s.phase.Up? && n <= |s.wire|
    ensures Reaches(s, steps, t) && ServerOnly(steps) && Basic(t)
    ensures t == s.(wire := s.wire[n..], log := s.log + s.wire[..n])
    decreases n
  {
    if n == 0 {
      steps, t := [], s;
      assert s.log + s.wire[..0] == s.log;
    } else {
      var m := Next(s, Handle);
      BasicStep(s, Handle);
      ReachesOne(s, Handle);
      var rest;
      rest, t := HandleSome(m, n - 1);
      ReachesConcat(s, [Handle], m, rest, t);
      steps := [Handle] + rest;
      assert m.log + m.wire[..n - 1] == s.log + s.wire[..n];
    }
  }

  /** The client reads every acknowledgement on its way, the last of which is the count c. */
  lemma {:induction false} ReadAll(s: System, c: nat) returns (steps: seq<Step>, t: System)
    requires Basic(s) && s.phase.Up? && s.acks != [] && s.acks[|s.acks| - 1] == c && c - s.confirmed < UINT32_SIZE
    ensures Reaches(s, steps, t) && ServerOnly(steps) && Basic(t)
    ensures t == s.(sm := t.sm, confirmed := c, acks := [])
    ensures Head(t) >= c - Lag(s) || Head(t) >= |s.sent|
    decreases |s.acks|
  {
    var m := Next(s, ReadAck);
    assert s.acks[0] <= c;
    BasicStep(s, ReadAck);
    LagStep(s, ReadAck);
    ReachesOne(s, ReadAck);
    if |s.acks| == 1 {
      steps, t := [ReadAck], m;
    } else {
      var rest;
      rest, t := ReadAll(m, c);
      ReachesConcat(s, [ReadAck], m, rest, t);
      steps := [ReadAck] + rest;
    }
  }

  /** The server acknowledges what it has handled, and the client reads up to that. */
  lemma Acknowledge(s: System) returns (steps: seq<Step>, t: System)
    requires Basic(s) && s.phase.Up? && |s.log| - s.confirmed < UINT32_SIZE
    ensures Reaches(s, steps, t) && ServerOnly(steps) && Basic(t)
    ensures t == s.(sm := t.sm, confirmed := |s.log|, acks := [])
    ensures Head(t) >= |s.log| - Lag(s) || Head(t) >= |s.sent|
  {
    var m := Next(s, SendAck);
    BasicStep(s, SendAck);
    ReachesOne(s, SendAck);
    var rest;
    rest, t := ReadAll(m, |s.log|);
    ReachesConcat(s, [SendAck], m, rest, t);
    steps := [SendAck] + rest;
  }

  // From a stanza that is not on time to its loss

  lemma GoneIsLost(s: System, x: Stanza, j: nat)
    requires Basic(s) && j < |s.sent| && s.sent[j] == x && x !in s.log && j < Head(s)
    ensures Lost(s, x)
  {
    forall k | 0 <= k < |s.sm.unacked|
      ensures s.sm.unacked[k] != x
    {
      assert s.sm.unacked[k] == Written(s)[Head(s) + k] && x == Written(s)[j];
    }
  }

  /** Room for the run: the acknowledgements it reads stay below the 2^32 of the wrapped counters. */
  predicate Room(s: System) {
    |s.log| - s.confirmed < UINT32_SIZE && |Written(s)| - Head(s) < UINT32_SIZE
  }

  /** A recorded stanza that is not on time, once the wire is long enough. */
  lemma LateIsLost(s: System, x: Stanza, j: nat) returns (steps: seq<Step>, t: System)
    requires Basic(s) && s.phase.Up? && j < |s.sent| && s.sent[j] == x && !OnTime(s, x, j)
    requires |s.log| - s.confirmed < UINT32_SIZE && |s.sent| - Head(s) < UINT32_SIZE
    requires j + Lag(s) < |s.log| + |s.wire|
    ensures Reaches(s, steps, t) && ServerOnly(steps) && Lost(t, x)
  {
    var n := if |s.log| > j + Lag(s) then 0 else j + Lag(s) + 1 - |s.log|;
    var a, m := HandleSome(s, n);
    assert x !in m.log by {
      assert forall k :: 0 <= k < n ==> s.wire[k] != x;
    }
    var b;
    b, t := Acknowledge(m);
    ReachesConcat(s, a, m, b, t);
    steps := a + b;
    GoneIsLost(t, x, j);
  }

  lemma StillLate(s: System, t: System, x: Stanza, j: nat)
    requires s.phase.Up? && !OnTime(s, x, j) && x.serial < s.writes
    requires t == s.(sm := t.sm, sent := t.sent, inflight := t.inflight, wire := t.wire, writes := t.writes)
    requires Lag(t) == Lag(s) && s.wire <= t.wire
    requires forall k :: |s.wire| <= k < |t.wire| ==> t.wire[k].serial >= s.writes
    ensures !OnTime(t, x, j)
  {
    assert forall k :: 0 <= k < |s.wire| ==> t.wire[k] == s.wire[k];
  }

  /** Record the stanza, and write until its place in the queue is within the server's reach. */
  lemma MakeLate(s: System, j: nat) returns (steps: seq<Step>, t: System)
    requires Basic(s) && s.phase.Up? && j < |Written(s)| && !OnTime(s, Written(s)[j], j)
    ensures Reaches(s, steps, t) && Plain(steps) && Basic(t)
    ensures t == s.(sm := t.sm, sent := t.sent, inflight := t.inflight, wire := t.wire, writes := t.writes)
    ensures j < |t.sent| <= |Written(s)| && t.sent[j] == Written(s)[j] && Head(t) == Head(s)
    ensures !OnTime(t, t.sent[j], j) && j + Lag(t) < |t.log| + |t.wire|
  {
    var a, m := RecordSome(s, if j < |s.sent| then 0 else j + 1 - |s.sent|);
    assert m.sent[j] == Written(m)[j];
    var line := |s.log| + |s.wire|;
    var b;
    b, t := WriteSome(m, if j + Lag(s) < line then 0 else j + Lag(s) + 1 - line);
    StillLate(s, t, t.sent[j], j);
    ReachesConcat(s, a, m, b, t);
    steps := a + b;
  }

  /** Any stanza that is not on time while the stream is up. */
  lemma UpIsLost(s: System, j: nat) returns (steps: seq<Step>, t: System)
    requires Basic(s) && Room(s) && s.phase.Up? && j < |Written(s)| && !OnTime(s, Written(s)[j], j)
    ensures Reaches(s, steps, t) && Plain(steps) && Lost(t, Written(s)[j])
  {
    var a, m := MakeLate(s, j);
    var b;
    b, t := LateIsLost(m, m.sent[j], j);
    ReachesConcat(s, a, m, b, t);
    steps := a + b;
  }

  /** While the stream is down, the resumption removes it. */
  lemma DownIsLost(s: System, j: nat) returns (steps: seq<Step>, t: System)
    requires Basic(s) && Room(s) && !s.phase.Up? && j < |Written(s)| && !OnTime(s, Written(s)[j], j)
    ensures Reaches(s, steps, t) && Plain(steps) && Lost(t, Written(s)[j])
  {
    var x := Written(s)[j];
    var a, m := RecordSome(s, if j < |s.sent| then 0 else j + 1 - |s.sent|);
    assert m.sent[j] == Written(m)[j] == x;
    if s.phase.Down? {
      LagStep(m, Resume);
      BasicStep(m, Resume);
      t := Next(m, Resume);
      ReachesStep(s, a, m, Resume);
      steps := a + [Resume];
    } else {
      steps, t := a, m;
    }
    GoneIsLost(t, x, j);
  }

  /** A state is timely exactly when no run of a single sender without replays loses a stanza from it. */
  lemma TimelyIff(s: System)
    requires Basic(s) && Room(s)
    ensures Timely(s) <==> forall steps :: IsRun(s, steps) && Plain(steps) ==> Lossless(Final(s, steps))
  {
    if Timely(s) {
      forall steps | IsRun(s, steps) && Plain(steps)
        ensures Lossless(Final(s, steps))
      {
        PlainGuarded(s, steps);
        SingleSenderGuarded(s, steps);
        GuardedRun(s, steps);
        TimelyLossless(Final(s, steps));
      }
    } else {
      var j :| 0 <= j < |Written(s)| && !OnTime(s, Written(s)[j], j);
      var steps, t;
      if s.phase.Up? {
        steps, t := UpIsLost(s, j);
      } else {
        steps, t := DownIsLost(s, j);
      }
      assert !Lossless(Final(s, steps));
    }
  }

  /**
   * The guards are exact. After a run that kept them, a step keeps its guard if and only if, whatever a
   * single sender does next without a replay, no stanza is lost.
   */
  lemma GuardExact(enabled: Node, steps: seq<Step>, step: Step)
    requires IsRun(Init(enabled), steps) && Guarded(Init(enabled), steps)
    requires var s := Final(Init(enabled), steps); May(s, step) && Room(Next(s, step))
    ensures var s := Final(Init(enabled), steps);
            Guard(s, step) <==>
            forall more :: IsRun(Next(s, step), more) && Plain(more) ==> Lossless(Final(Next(s, step), more))
  {
    var s := Final(Init(enabled), steps);
    InitBasic(enabled);
    GuardedRun(Init(enabled), steps);
    TimelyStepIff(s, step);
    BasicStep(s, step);
    TimelyIff(Next(s, step));
  }

  // Records out of order

  /** What the server handles and acknowledges next can lose the stanza, without any step of the client. */
  ghost predicate ServerLoses(s: System, x: Stanza) {
    exists more :: IsRun(s, more) && ServerOnly(more) && Lost(Final(s, more), x)
  }

  /**
   * While the server has handled and is sent what was written, in that order, recording the i-th stanza
   * in flight lets the server's acknowledgements alone remove it unhandled if and only if it has not
   * been handled and the queue lags by less than the stanzas it overtakes.
   */
  lemma OutOfOrderIff(s: System, i: nat)
    requires Basic(s) && Ordered(s) && Room(s) && s.phase.Up? && i < |s.inflight|
    ensures ServerLoses(Recorded(s, i), s.inflight[i]) <==> |s.log| <= |s.sent| + i && Lag(s) < i
  {
    var x, t, at := s.inflight[i], Recorded(s, i), |s.sent| + i;
    OrderedTimely(s);
    BasicStep(s, Record(i));
    RecordQueued(s, i);
    TimelyRecordIff(s, i);
    OrderedPlace(s, at);
    if |s.log| <= at && Lag(s) < i {
      var steps, u := LateIsLost(t, x, |s.sent|);
    } else {
      assert |s.log| > at ==> s.log[at] == x;
      forall more | IsRun(t, more) && ServerOnly(more)
        ensures !Lost(Final(t, more), x)
      {
        PlainGuarded(t, more);
        SingleSenderGuarded(t, more);
        GuardedRun(t, more);
        TimelyLossless(Final(t, more));
      }
    }
  }

  /** In an ordered state a stanza written is either handled or has one place on the wire. */
  lemma OrderedPlace(s: System, at: nat)
    requires Basic(s) && Ordered(s) && s.phase.Up? && at < |Written(s)|
    ensures at < |s.log| ==> s.log[at] == Written(s)[at]
    ensures at >= |s.log| ==> Written(s)[at] !in s.log && s.wire[at - |s.log|] == Written(s)[at]
    ensures forall k :: 0 <= k < |s.wire| && s.wire[k] == Written(s)[at] ==> |s.log| + k == at
  {
    var line := s.log + s.wire;
    assert line == Written(s);
    assert forall k :: 0 <= k < |s.log| ==> s.log[k] == line[k];
    assert forall k :: 0 <= k < |s.wire| ==> s.wire[k] == line[|s.log| + k];
  }

  /** So it is after every run of in-order records without a replay. */
  lemma OutOfOrderAfterRun(enabled: Node, steps: seq<Step>, i: nat)
    requires IsRun(Init(enabled), steps) && Plain(steps)
    requires var s := Final(Init(enabled), steps); Room(s) && s.phase.Up? && i < |s.inflight|
    ensures var s := Final(Init(enabled), steps);
            ServerLoses(Recorded(s, i), s.inflight[i]) <==> |s.log| <= |s.sent| + i && Lag(s) < i
  {
    InitBasic(enabled);
    OrderedRun(Init(enabled), steps);
    OutOfOrderIff(Final(Init(enabled), steps), i);
  }

  // Witness runs

  /** What Enable leaves: stream management on, every counter zero, nothing in transit. */
  predicate Fresh(s: System) {
    && s.sm.enabled && s.sm.inbound == s.sm.outbound == s.sm.acked == 0 && s.sm.unacked == []
    && s.phase.Up? && s.sent == s.inflight == s.wire == s.log == [] && s.acks == []
    && s.confirmed == s.received == s.writes == 0
  }

  lemma InitFresh(enabled: Node)
    ensures Fresh(Init(enabled))
  {
  }

  predicate Leads(s: System, step: Step, t: System) {
    May(s, step) && t == Next(s, step)
  }

  lemma Prepend(s: System, step: Step, m: System, rest: seq<Step>, t: System)
    requires Leads(s, step, m) && Reaches(m, rest, t)
    ensures Reaches(s, [step] + rest, t)
  {
    ReachesOne(s, step);
    ReachesConcat(s, [step], m, rest, t);
  }

  /** Unrolls a run of five steps. */
  lemma RunOf5(s0: System, a: Step, s1: System, b: Step, s2: System, c: Step, s3: System, d: Step, s4: System,
               e: Step, s5: System)
    requires Leads(s0, a, s1) && Leads(s1, b, s2) && Leads(s2, c, s3) && Leads(s3, d, s4) && Leads(s4, e, s5)
    ensures Reaches(s0, [a, b, c, d, e], s5)
  {
    var r4 := [e];
    var r3 := [d] + r4;
    var r2 := [c] + r3;
    var r1 := [b] + r2;
    ReachesOne(s4, e);
    Prepend(s3, d, s4, r4, s5);
    Prepend(s2, c, s3, r3, s5);
    Prepend(s1, b, s2, r2, s5);
    Prepend(s0, a, s1, r1, s5);
    assert [a] + r1 == [a, b, c, d, e];
  }

  /** The server handles one stanza, acknowledges it, and the client reads the acknowledgement. */
  lemma FirstAck(s: System) returns (a: System, b: System, t: System)
    requires s.phase.Up? && s.wire != [] && s.log == [] && s.acks == [] && s.sm.acked == 0 && s.confirmed == 0
    ensures Leads(s, Handle, a) && Leads(a, SendAck, b) && Leads(b, ReadAck, t)
    ensures t == s.(wire := s.wire[1..], log := [s.wire[0]], confirmed := 1,
                    sm := s.sm.(acked := 1, unacked := if s.sm.unacked == [] then [] else s.sm.unacked[1..]))
  {
    a := Next(s, Handle);
    b := Next(a, SendAck);
    assert b.acks == [1];
    t := Next(b, ReadAck);
  }

  /** The acknowledgement of a stanza is read before the stanza is recorded. */
  lemma AckBeforeRecord(s: System, x: Stanza) returns (a: System, b: System, c: System, d: System)
    requires Fresh(s) && x.serial == 0
    ensures Leads(s, Write(x), a) && Leads(a, Handle, b) && Leads(b, SendAck, c) && Leads(c, ReadAck, d)
    ensures d == s.(inflight := [x], log := [x], confirmed := 1, writes := 1, sm := s.sm.(acked := 1))
  {
    a := Next(s, Write(x));
    assert a.wire == [x] && a.inflight == [x] && a.wire[1..] == [];
    b, c, d := FirstAck(a);
  }

  lemma LateRecord(s: System, x: Stanza)
    requires s.sm.enabled && s.sm.unacked == s.sent == [] && s.inflight == s.log == [x] && s.confirmed == 1
    ensures var t := Recorded(s, 0); t.log == [x] && t.sm.unacked == [x] && Lag(t) == 1
  {
  }

  lemma LagFromFresh(s: System, x: Stanza) returns (t: System)
    requires Fresh(s) && x.serial == 0
    ensures Reaches(s, [Write(x), Handle, SendAck, ReadAck, Record(0)], t)
    ensures t.log == [x] && t.sm.unacked == [x] && Lag(t) == 1
  {
    var s1, s2, s3, s4 := AckBeforeRecord(s, x);
    LateRecord(s4, x);
    t := Recorded(s4, 0);
    RunOf5(s, Write(x), s1, Handle, s2, SendAck, s3, ReadAck, s4, Record(0), t);
  }

  /** A single sender can leave one handled stanza in the queue: its acknowledgement overtakes its record. */
  lemma SingleSenderCanLag(enabled: Node, x: Stanza)
    requires x.serial == 0
    ensures var steps := [Write(x), Handle, SendAck, ReadAck, Record(0)];
            && IsRun(Init(enabled), steps) && Plain(steps)
            && var t := Final(Init(enabled), steps);
            t.log == [x] && t.sm.unacked == [x] && Lag(t) == 1
  {
    InitFresh(enabled);
    var t := LagFromFresh(Init(enabled), x);
  }

  /** Two stanzas are written, and the second is recorded first. */
  lemma SwappedRecords(s: System, x: Stanza, y: Stanza) returns (a: System, b: System, c: System)
    requires Fresh(s) && x.serial == 0 && y.serial == 1
    ensures Leads(s, Write(x), a) && Leads(a, Write(y), b) && Leads(b, Record(1), c)
    ensures c == s.(inflight := [x], wire := [x, y], sent := [y], writes := 2,
                    sm := s.sm.(outbound := 1, unacked := [y]))
  {
    a := Next(s, Write(x));
    b := Next(a, Write(y));
    assert b.inflight == [x, y] && b.wire == [x, y];
    c := Next(b, Record(1));
  }

  lemma LossFromFresh(s: System, x: Stanza, y: Stanza) returns (t: System)
    requires Fresh(s) && x.serial == 0 && y.serial == 1
    ensures Reaches(s, [Write(x)] + [Write(y), Record(1), Handle, SendAck, ReadAck], t) && Lost(t, y)
  {
    var s1, s2, s3 := SwappedRecords(s, x, y);
    var s4, s5;
    s4, s5, t := FirstAck(s3);
    var rest := [Write(y), Record(1), Handle, SendAck, ReadAck];
    RunOf5(s1, Write(y), s2, Record(1), s3, Handle, s4, SendAck, s5, ReadAck, t);
    Prepend(s, Write(x), s1, rest, t);
  }

  /**
   * Two senders whose records are swapped lose a stanza: the acknowledgement of the first removes
   * the second, which the server has not handled.
   */
  lemma TwoSendersCanLose(enabled: Node, x: Stanza, y: Stanza)
    requires x.serial == 0 && y.serial == 1
    ensures var steps := [Write(x)] + [Write(y), Record(1), Handle, SendAck, ReadAck];
            IsRun(Init(enabled), steps) && Lost(Final(Init(enabled), steps), y)
  {
    InitFresh(enabled);
    var t := LossFromFresh(Init(enabled), x, y);
  }

  /** The stream breaks, is resumed with nothing handled, and an empty queue is replayed. */
  lemma EmptyReplay(s: System) returns (a: System, b: System, t: System)
    requires s.phase.Up? && s.sm.enabled && s.sm.acked == 0 && s.sm.unacked == s.log == [] && s.confirmed == 0
    ensures Leads(s, Break, a) && Leads(a, Resume, b) && Leads(b, Replay, t)
    ensures t == s.(wire := [], acks := [])
  {
    a := Next(s, Break);
    b := Next(a, Resume);
    assert b.sm == s.sm;
    t := Next(b, Replay);
  }

  /** So it is between the write of x and its record. */
  lemma ReplayBeforeRecord(s: System, x: Stanza) returns (t: System)
    requires Fresh(s) && x.serial == 0
    ensures Reaches(s, [Write(x), Break, Resume, Replay, Record(0)], t)
    ensures t == s.(sent := [x], writes := 1, sm := s.sm.(outbound := 1, unacked := [x]))
  {
    var s1 := Next(s, Write(x));
    assert s1.inflight == [x];
    var s2, s3, s4 := EmptyReplay(s1);
    t := Recorded(s4, 0);
    assert t.inflight == [];
    RunOf5(s, Write(x), s1, Break, s2, Resume, s3, Replay, s4, Record(0), t);
  }

  /** With x queued but nowhere on the wire, the acknowledgement of y removes x. */
  lemma NextSendAcknowledged(s: System, x: Stanza, y: Stanza) returns (t: System)
    requires s.phase.Up? && s.sm.enabled && s.sent == s.sm.unacked == [x] && s.inflight == s.wire == s.log == []
    requires s.acks == [] && s.sm.acked == 0 && s.confirmed == 0 && s.writes == 1 && y.serial == 1
    ensures Reaches(s, [Write(y), Record(0), Handle, SendAck, ReadAck], t)
    ensures t.sent == [x, y] && t.log == [y] && t.sm.unacked == [y] && t.inflight == []
  {
    var a := Next(s, Write(y));
    assert a.inflight == [y] && a.wire == [y];
    var b := Recorded(a, 0);
    assert b.sm.unacked == [x, y] && b.sent == [x, y] && b.inflight == [];
    var c, d;
    c, d, t := FirstAck(b);
    RunOf5(s, Write(y), a, Record(0), b, Handle, c, SendAck, d, ReadAck, t);
  }

  /**
   * One sender that replays the queue while a stanza is between its write and its record loses it: the
   * replay leaves it out, and the acknowledgement of the next stanza removes it.
   */
  lemma ReplayCanLose(enabled: Node, x: Stanza, y: Stanza)
    requires x.serial == 0 && y.serial == 1
    ensures var steps := [Write(x), Break, Resume, Replay, Record(0)] + [Write(y), Record(0), Handle, SendAck, ReadAck];
            && IsRun(Init(enabled), steps) && InOrder(steps)
            && var t := Final(Init(enabled), steps);
            t.sent == [x, y] && t.log == [y] && t.sm.unacked == [y] && t.inflight == [] && Lost(t, x)
  {
    var s := Init(enabled);
    InitFresh(enabled);
    var t := ReplayBeforeRecord(s, x);
    var t5 := NextSendAcknowledged(t, x, y);
    ReachesConcat(s, [Write(x), Break, Resume, Replay, Record(0)], t,
                  [Write(y), Record(0), Handle, SendAck, ReadAck], t5);
  }

  // A replay that records the queue again

  /** The same stanzas as further writes. */
  function Copies(q: seq<Stanza>, n: nat): seq<Stanza> {
    seq(|q|, i requires 0 <= i < |q| => q[i].(serial := n + i))
  }

  predicate Serial(xs: seq<Stanza>, n: nat) {
    forall i :: 0 <= i < |xs| ==> xs[i].serial == n + i
  }

  lemma SendOne(s: System, x: Stanza) returns (t: System)
    requires Basic(s) && s.phase.Up? && s.inflight == [] && x.serial == s.writes
    ensures Reaches(s, [Write(x), Record(0)], t) && Basic(t)
    ensures t == s.(sm := OnSent(s.sm, x), sent := s.sent + [x], wire := s.wire + [x], writes := s.writes + 1)
  {
    var a := Next(s, Write(x));
    assert a.inflight == [x];
    t := Recorded(a, 0);
    BasicStep(s, Write(x));
    BasicStep(a, Record(0));
    ReachesOne(s, Write(x));
    ReachesStep(s, [Write(x)], a, Record(0));
    assert [Write(x)] + [Record(0)] == [Write(x), Record(0)];
  }

  /** The client after it has sent all of xs and recorded them. */
  predicate AllSent(s: System, xs: seq<Stanza>, t: System) {
    && t.sent == s.sent + xs && t.wire == s.wire + xs && t.sm.unacked == s.sm.unacked + xs
    && t == s.(sm := t.sm, sent := t.sent, wire := t.wire, writes := s.writes + |xs|)
  }

  lemma AllSentCons(s: System, x: Stanza, m: System, rest: seq<Stanza>, t: System)
    requires m == s.(sm := OnSent(s.sm, x), sent := s.sent + [x], wire := s.wire + [x], writes := s.writes + 1)
    requires s.sm.enabled && AllSent(m, rest, t)
    ensures AllSent(s, [x] + rest, t)
  {
    assert s.sent + [x] + rest == s.sent + ([x] + rest);
    assert s.wire + [x] + rest == s.wire + ([x] + rest);
    assert s.sm.unacked + [x] + rest == s.sm.unacked + ([x] + rest);
  }

  /** Each stanza sent in turn, its write followed by its record. */
  lemma {:induction false} SendAll(s: System, xs: seq<Stanza>) returns (steps: seq<Step>, t: System)
    requires Basic(s) && s.phase.Up? && s.inflight == [] && Serial(xs, s.writes)
    ensures Reaches(s, steps, t) && Atomic(steps) && Basic(t) && AllSent(s, xs, t)
    decreases |xs|
  {
    if xs == [] {
      steps, t := [], s;
    } else {
      var first := [Write(xs[0]), Record(0)];
      var m := SendOne(s, xs[0]);
      var more;
      more, t := SendAll(m, xs[1..]);
      AllSentCons(s, xs[0], m, xs[1..], t);
      assert xs == [xs[0]] + xs[1..];
      ReachesConcat(s, first, m, more, t);
      steps := first + more;
      assert steps[2..] == more;
    }
  }

  /** The queue is sent again: its copies are recorded and queued after it. */
  lemma Resend(s: System) returns (sends: seq<Step>, t: System)
    requires Exact(s) && s.phase.Resuming?
    ensures Reaches(s, [Reopen] + sends, t) && Atomic(sends) && Basic(t)
    ensures AllSent(Next(s, Reopen), Copies(s.sm.unacked, s.writes), t)
  {
    var o := Next(s, Reopen);
    BasicStep(s, Reopen);
    sends, t := SendAll(o, Copies(s.sm.unacked, s.writes));
    ReachesOne(s, Reopen);
    ReachesConcat(s, [Reopen], o, sends, t);
  }

  /**
   * After a resumption the queue q is sent again with Send, which records it again. The server handles
   * a copy of each stanza of q after what it had handled, so nothing is missing there, and reading the
   * last acknowledgement removes q; but the copies stay queued although they are handled.
   */
  lemma RecordedReplay(s: System) returns (sends: seq<Step>, t: System, rest: seq<Step>, u: System)
    requires Exact(s) && s.phase.Resuming? && |s.sm.unacked| < UINT32_SIZE
    ensures var q, copies := s.sm.unacked, Copies(s.sm.unacked, s.writes);
            && Reaches(s, [Reopen] + sends, t) && Atomic(sends)
            && t.sent == s.sent + copies && t.sm.unacked == q + copies && t.wire == copies
            && Reaches(t, rest, u) && ServerOnly(rest)
            && u.log == s.log + copies && u.sm.unacked == copies && u.sm.outbound == Wrap(|s.sent| + |copies|)
    ensures Basic(u) && u.phase.Up? && u.confirmed == |u.log| == |s.sent| && Lag(u) == 0
  {
    sends, t := Resend(s);
    rest, u := CopiesHandled(s, t, Copies(s.sm.unacked, s.writes));
  }

  lemma CopiesHandled(s: System, t: System, copies: seq<Stanza>) returns (rest: seq<Step>, u: System)
    requires Exact(s) && s.phase.Resuming? && |copies| == |s.sm.unacked| < UINT32_SIZE
    requires Basic(t) && AllSent(Next(s, Reopen), copies, t)
    ensures t.wire == copies
    ensures Reaches(t, rest, u) && ServerOnly(rest) && Basic(u) && u.phase.Up? && Lag(u) == 0
    ensures u.log == s.log + copies && u.confirmed == |u.log| == |s.sent| && u.sm.unacked == copies
    ensures u.sm.outbound == Wrap(|s.sent| + |copies|)
  {
    AllSentPlaces(s, t, copies);
    rest, u := HandleAndAcknowledge(t);
    QueueAt(u, s.sent, copies);
  }

  lemma AllSentPlaces(s: System, t: System, copies: seq<Stanza>)
    requires Exact(s) && s.phase.Resuming? && |copies| == |s.sm.unacked|
    requires AllSent(Next(s, Reopen), copies, t)
    ensures t.phase.Up? && t.wire == copies && t.log == s.log && t.confirmed == s.confirmed && t.sent == s.sent + copies
    ensures Lag(t) == 0 && |s.log| + |copies| == |s.sent| && s.confirmed == |s.log|
  {
    assert s.wire == [] && [] + copies == copies;
  }

  lemma QueueAt(s: System, a: seq<Stanza>, b: seq<Stanza>)
    requires Queued(s) && s.sent == a + b && Head(s) == |a|
    ensures s.sm.unacked == b
  {
  }

  /** The server handles everything on the wire and acknowledges it. */
  lemma HandleAndAcknowledge(s: System) returns (steps: seq<Step>, t: System)
    requires Basic(s) && s.phase.Up? && Lag(s) == 0 && |s.log| + |s.wire| - s.confirmed < UINT32_SIZE
    requires |s.log| + |s.wire| <= |s.sent|
    ensures Reaches(s, steps, t) && ServerOnly(steps) && Basic(t)
    ensures t == s.(sm := t.sm, wire := [], log := s.log + s.wire, confirmed := |s.log| + |s.wire|, acks := [])
    ensures Head(t) == t.confirmed
  {
    var a, m := HandleSome(s, |s.wire|);
    var b;
    b, t := Acknowledge(m);
    ReachesConcat(s, a, m, b, t);
    steps := a + b;
  }

  /** The next resumption from there replays whatever is queued, handled or not. */
  lemma ReplayAgain(s: System) returns (t: System)
    requires Basic(s) && s.phase.Up? && s.confirmed == |s.log| && Lag(s) == 0
    ensures Reaches(s, [Break, Resume, Replay], t) && t.wire == s.sm.unacked && t.log == s.log
  {
    var a := Next(s, Break);
    BasicStep(s, Break);
    var b := Next(a, Resume);
    LagStep(a, Resume);
    t := Next(b, Replay);
    ReachesOne(s, Break);
    ReachesStep(s, [Break], a, Resume);
    ReachesStep(s, [Break, Resume], b, Replay);
    assert [Break] + [Resume] == [Break, Resume] && [Break, Resume] + [Replay] == [Break, Resume, Replay];
  }
}
