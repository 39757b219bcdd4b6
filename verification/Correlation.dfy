/**
 * IQ correlation: one reader, many requesters, one-slot channels and a table of pending requests
 * under a lock. Every lock section, channel operation, timeout and close is one atomic step.
 */
module Correlation {
  import opened Wrappers
  import opened Numerals

  datatype IqKind = Get | Set | Result | Error | Unknown

  /** The part of an IQ payload that a MAM query looks at. */
  datatype Payload = Nothing | Fin(valid: bool) | Something(tag: int)

  datatype Iq = Iq(id: string, kind: IqKind, payload: Payload)

  /** What the reader takes off the stream. Archived is a message that carries a MAM result. */
  datatype Stanza = IqStanza(iq: Iq) | Archived(queryId: string, id: string, wellFormed: bool) | Other

  datatype Outcome = Response(iq: Iq) | SendError | TimedOut | Closed | Duplicate | Rejected

  /** Leaving: the select is over but the deferred removal has not run. */
  datatype Phase = Drawn | Registered | Waiting | Leaving(outcome: Outcome) | Done(outcome: Outcome)

  /**
   * A call of RequestIQ with its own channel. History: number is the counter value a drawn id was
   * printed from; begun, since and sentAt are log lengths when the call began, registered and sent;
   * offered are the log positions of the replies the reader offered to the channel.
   */
  datatype Req = Req(
    id: string, number: Option<nat>, phase: Phase, channel: Option<Iq>,
    begun: nat, since: nat, sentAt: nat, offered: seq<nat>)

  /** Between finding a channel and sending on it, the reader holds the stanza at log position at. */
  datatype Reader = Idle | Holding(at: nat, req: nat)

  /** pending maps an id to the request whose channel it holds; draws counts the ids drawn so far. */
  datatype System = System(
    reqs: seq<Req>, pending: map<string, nat>, draws: nat, reader: Reader, log: seq<Stanza>, closed: bool)

  datatype Step =
    | Begin(id: string, kind: IqKind)
    | Draw
    | Register(r: nat)
    | Send(r: nat, ok: bool)
    | Arrive(stanza: Stanza)
    | Deliver
    | Take(r: nat)
    | Timeout(r: nat)
    | NoticeClose(r: nat)
    | Close
    | Cleanup(r: nat)

  /** The id drawn when the 64-bit counter has been incremented n times. */
  function NextId(n: nat): string {
    "go-" + Format(n % UINT64_SIZE, 36)
  }

  /** Below 2^64 draws no id repeats. */
  lemma NextIdInjective(m: nat, n: nat)
    requires m < UINT64_SIZE && n < UINT64_SIZE
    requires NextId(m) == NextId(n)
    ensures m == n
  {
    var a, b := Format(m, 36), Format(n, 36);
    assert m % UINT64_SIZE == m && n % UINT64_SIZE == n;
    assert ("go-" + a)[3..] == a && ("go-" + b)[3..] == b;
    FormatInjective(m, n, 36);
  }

  /** A stanza the reader correlates: an IQ of type result or error. */
  predicate IsReply(s: Stanza) {
    s.IqStanza? && (s.iq.kind.Result? || s.iq.kind.Error?)
  }

  predicate Answers(s: Stanza, id: string) {
    IsReply(s) && s.iq.id == id
  }

  // The lock sections

  function TryRegister(pending: map<string, nat>, id: string, r: nat): (map<string, nat>, bool) {
    if id in pending then (pending, false) else (pending[id := r], true)
  }

  function Lookup(pending: map<string, nat>, id: string): Option<nat> {
    if id in pending then Some(pending[id]) else None
  }

  function Unregister(pending: map<string, nat>, id: string): map<string, nat> {
    pending - {id}
  }

  // Steps

  function Init(): System {
    System([], map[], 0, Idle, [], false)
  }

  predicate CanStep(s: System, step: Step) {
    match step
    case Begin(_, _) => true
    case Draw => true
    case Register(r) => r < |s.reqs| && s.reqs[r].phase.Drawn?
    case Send(r, _) => r < |s.reqs| && s.reqs[r].phase.Registered?
    case Arrive(_) => s.reader.Idle?
    case Deliver => s.reader.Holding? && s.reader.at < |s.log| && s.log[s.reader.at].IqStanza? && s.reader.req < |s.reqs|
    case Take(r) => r < |s.reqs| && s.reqs[r].phase.Waiting? && s.reqs[r].channel.Some?
    case Timeout(r) => r < |s.reqs| && s.reqs[r].phase.Waiting?
    case NoticeClose(r) => r < |s.reqs| && s.reqs[r].phase.Waiting? && s.closed
    case Close => true
    case Cleanup(r) => r < |s.reqs| && s.reqs[r].phase.Leaving?
  }

  function WithPhase(s: System, r: nat, phase: Phase): System
    requires r < |s.reqs|
  {
    s.(reqs := s.reqs[r := s.reqs[r].(phase := phase)])
  }

  function BeginReq(s: System, id: string, kind: IqKind): System {
    if !kind.Get? && !kind.Set? then
      s.(reqs := s.reqs + [Req(id, None, Done(Rejected), None, |s.log|, |s.log|, |s.log|, [])])
    else if id == "" then
      var n := s.draws + 1;
      s.(reqs := s.reqs + [Req(NextId(n), Some(n), Drawn, None, |s.log|, |s.log|, |s.log|, [])], draws := n)
    else
      s.(reqs := s.reqs + [Req(id, None, Drawn, None, |s.log|, |s.log|, |s.log|, [])])
  }

  function ArriveAt(s: System, stanza: Stanza): System {
    var target := if IsReply(stanza) then Lookup(s.pending, stanza.iq.id) else None;
    s.(log := s.log + [stanza], reader := if target.Some? then Holding(|s.log|, target.value) else Idle)
  }

  /** The non-blocking send: a full channel drops the reply. */
  function Offer(q: Req, at: nat, iq: Iq): Req {
    q.(channel := if q.channel.None? then Some(iq) else q.channel, offered := q.offered + [at])
  }

  function Next(s: System, step: Step): System
    requires CanStep(s, step)
  {
    match step
    case Begin(id, kind) => BeginReq(s, id, kind)
    case Draw => s.(draws := s.draws + 1)
    case Register(r) =>
      var (pending, ok) := TryRegister(s.pending, s.reqs[r].id, r);
      if ok then
        s.(pending := pending, reqs := s.reqs[r := s.reqs[r].(phase := Registered, since := |s.log|)])
      else WithPhase(s, r, Done(Duplicate))
    case Send(r, ok) =>
      s.(reqs := s.reqs[r := s.reqs[r].(phase := if ok then Waiting else Leaving(SendError), sentAt := |s.log|)])
    case Arrive(stanza) => ArriveAt(s, stanza)
    case Deliver =>
      s.(reqs := s.reqs[s.reader.req := Offer(s.reqs[s.reader.req], s.reader.at, s.log[s.reader.at].iq)],
         reader := Idle)
    case Take(r) =>
      s.(reqs := s.reqs[r := s.reqs[r].(phase := Leaving(Response(s.reqs[r].channel.value)), channel := None)])
    case Timeout(r) => WithPhase(s, r, Leaving(TimedOut))
    case NoticeClose(r) => WithPhase(s, r, Leaving(Closed))
    case Close => s.(closed := true)
    case Cleanup(r) =>
      WithPhase(s, r, Done(s.reqs[r].phase.outcome)).(pending := Unregister(s.pending, s.reqs[r].id))
  }

  // Invariant

  /** Registered and not yet cleaned up. */
  predicate Live(q: Req) {
    q.phase.Registered? || q.phase.Waiting? || q.phase.Leaving?
  }

  predicate HasOutcome(q: Req) {
    q.phase.Leaving? || q.phase.Done?
  }

  /** No reply to the request lies in the log between two positions. */
  predicate NoneBetween(log: seq<Stanza>, id: string, lo: nat, hi: nat)
    requires hi <= |log|
  {
    forall k :: lo <= k < hi ==> !Answers(log[k], id)
  }

  /** The reader is about to offer the stanza at this position to request r. */
  predicate HeldFor(s: System, r: nat, at: nat) {
    s.reader.Holding? && s.reader.req == r && s.reader.at == at
  }

  /** pending holds exactly the live requests, each under its own id and with its own channel. */
  ghost predicate Table(s: System) {
    && (forall id :: id in s.pending ==>
          s.pending[id] < |s.reqs| && s.reqs[s.pending[id]].id == id && Live(s.reqs[s.pending[id]]))
    && (forall r :: 0 <= r < |s.reqs| && Live(s.reqs[r]) ==>
          s.reqs[r].id in s.pending && s.pending[s.reqs[r].id] == r)
  }

  /** The history of one request: what was offered to it, and what it holds or returned. */
  predicate History(s: System, r: nat)
    requires r < |s.reqs|
  {
    var q := s.reqs[r];
    && q.begun <= q.since <= |s.log| && q.begun <= q.sentAt <= |s.log|
    && (forall k :: 0 <= k < |q.offered| ==>
          q.since <= q.offered[k] < |s.log| && Answers(s.log[q.offered[k]], q.id))
    && (q.offered != [] ==> NoneBetween(s.log, q.id, q.since, q.offered[0]))
    && (Live(q) && q.offered == [] ==>
          forall k :: q.since <= k < |s.log| && Answers(s.log[k], q.id) ==> HeldFor(s, r, k))
    && (q.phase.Drawn? ==> q.offered == [])
    && (HasOutcome(q) && q.phase.outcome.Response? ==>
          q.offered != [] && IqStanza(q.phase.outcome.iq) == s.log[q.offered[0]])
    && (!HasOutcome(q) ==>
          (q.channel.None? <==> q.offered == [])
          && (q.channel.Some? ==> IqStanza(q.channel.value) == s.log[q.offered[0]]))
  }

  predicate ReaderOk(s: System) {
    s.reader.Holding? ==>
      && s.reader.at < |s.log| && s.reader.req < |s.reqs|
      && var q := s.reqs[s.reader.req];
      Answers(s.log[s.reader.at], q.id) && !q.phase.Drawn? && q.since <= s.reader.at
      && (q.offered == [] ==> NoneBetween(s.log, q.id, q.since, s.reader.at))
  }

  /** Drawn ids come from distinct values of the counter. */
  predicate Drawing(s: System) {
    && (forall r :: 0 <= r < |s.reqs| && s.reqs[r].number.Some? ==>
          s.reqs[r].number.value <= s.draws && s.reqs[r].id == NextId(s.reqs[r].number.value))
    && (forall r, t :: 0 <= r < t < |s.reqs| && s.reqs[r].number.Some? && s.reqs[t].number.Some? ==>
          s.reqs[r].number != s.reqs[t].number)
  }

  ghost predicate Inv(s: System) {
    Table(s) && ReaderOk(s) && Drawing(s) && forall r :: 0 <= r < |s.reqs| ==> History(s, r)
  }

  /** A change to request r alone, that leaves the log and the reader as they are, is judged at r. */
  lemma OnlyAt(s: System, t: System, r: nat)
    requires Inv(s) && r < |s.reqs| == |t.reqs|
    requires t.reqs == s.reqs[r := t.reqs[r]] && t.log == s.log && t.reader == s.reader && t.draws == s.draws
    requires t.reqs[r].id == s.reqs[r].id && t.reqs[r].number == s.reqs[r].number
    requires t.reqs[r].offered == s.reqs[r].offered
    requires s.reader.Holding? && s.reader.req == r ==> t.reqs[r].since == s.reqs[r].since && !t.reqs[r].phase.Drawn?
    requires Table(t) && History(t, r)
    ensures Inv(t)
  {
    forall k | 0 <= k < |t.reqs|
      ensures History(t, k)
    {
      assert History(s, k);
    }
  }

  lemma AppendKeeps(s: System, q: Req, draws: nat)
    requires Inv(s) && (draws == s.draws || draws == s.draws + 1)
    requires q.begun == q.since == q.sentAt == |s.log| && q.offered == [] && q.channel.None?
    requires q.phase.Drawn? || q.phase == Done(Rejected)
    requires q.number.Some? ==> draws == s.draws + 1 && q.number.value == draws && q.id == NextId(draws)
    ensures Inv(s.(reqs := s.reqs + [q], draws := draws))
  {
    var t := s.(reqs := s.reqs + [q], draws := draws);
    forall k | 0 <= k < |t.reqs|
      ensures History(t, k)
    {
      assert k < |s.reqs| ==> History(s, k);
    }
    assert Table(t) by {
      assert forall k :: 0 <= k < |s.reqs| ==> t.reqs[k] == s.reqs[k];
    }
  }

  lemma BeginKeeps(s: System, id: string, kind: IqKind)
    requires Inv(s)
    ensures Inv(BeginReq(s, id, kind))
  {
    var t := BeginReq(s, id, kind);
    AppendKeeps(s, t.reqs[|s.reqs|], t.draws);
  }

  lemma RegisterTable(s: System, r: nat)
    requires Inv(s) && CanStep(s, Register(r)) && s.reqs[r].id !in s.pending
    ensures Table(Next(s, Register(r)))
  {
    var t := Next(s, Register(r));
    forall k | 0 <= k < |t.reqs| && Live(t.reqs[k])
      ensures t.reqs[k].id in t.pending && t.pending[t.reqs[k].id] == k
    {
      assert k != r ==> s.reqs[k].id in s.pending;
    }
  }

  lemma RegisterKeeps(s: System, r: nat)
    requires Inv(s) && CanStep(s, Register(r))
    ensures Inv(Next(s, Register(r)))
  {
    var t := Next(s, Register(r));
    assert History(s, r);
    assert History(t, r);
    if s.reqs[r].id in s.pending {
      assert Table(t);
    } else {
      RegisterTable(s, r);
    }
    OnlyAt(s, t, r);
  }

  lemma PhaseHistory(s: System, step: Step)
    requires Inv(s) && CanStep(s, step)
    requires step.Send? || step.Timeout? || step.NoticeClose? || step.Take? || step.Cleanup?
    ensures History(Next(s, step), step.r)
  {
    assert History(s, step.r);
  }

  lemma PhaseTable(s: System, step: Step)
    requires Inv(s) && CanStep(s, step)
    requires step.Send? || step.Timeout? || step.NoticeClose? || step.Take?
    ensures Table(Next(s, step))
  {
    var t := Next(s, step);
    assert t.pending == s.pending;
    assert forall k :: 0 <= k < |s.reqs| ==> t.reqs[k].id == s.reqs[k].id && (Live(t.reqs[k]) <==> Live(s.reqs[k]));
  }

  lemma PhaseKeeps(s: System, step: Step)
    requires Inv(s) && CanStep(s, step)
    requires step.Send? || step.Timeout? || step.NoticeClose? || step.Take? || step.Cleanup?
    ensures Inv(Next(s, step))
  {
    PhaseHistory(s, step);
    if step.Cleanup? {
      CleanupTable(s, step.r);
    } else {
      PhaseTable(s, step);
    }
    OnlyAt(s, Next(s, step), step.r);
  }

  lemma CleanupTable(s: System, r: nat)
    requires Inv(s) && CanStep(s, Cleanup(r))
    ensures Table(Next(s, Cleanup(r)))
  {
    var t := Next(s, Cleanup(r));
    forall k | 0 <= k < |t.reqs| && Live(t.reqs[k])
      ensures t.reqs[k].id in t.pending && t.pending[t.reqs[k].id] == k
    {
      assert k != r && s.pending[s.reqs[k].id] == k;
    }
  }

  lemma ArriveKeeps(s: System, stanza: Stanza)
    requires Inv(s) && CanStep(s, Arrive(stanza))
    ensures Inv(ArriveAt(s, stanza))
  {
    var t := ArriveAt(s, stanza);
    forall k | 0 <= k < |t.reqs|
      ensures History(t, k)
    {
      assert History(s, k);
    }
    if t.reader.Holding? {
      assert History(s, t.reader.req);
    }
  }

  lemma DeliverKeeps(s: System)
    requires Inv(s) && CanStep(s, Deliver)
    ensures Inv(Next(s, Deliver))
  {
    var t := Next(s, Deliver);
    var r := s.reader.req;
    forall k | 0 <= k < |t.reqs|
      ensures History(t, k)
    {
      assert History(s, k);
    }
  }

  lemma QuietKeeps(s: System, draws: nat, closed: bool)
    requires Inv(s) && draws >= s.draws
    ensures Inv(s.(draws := draws, closed := closed)) && s.(draws := s.draws) == s.(closed := s.closed) == s
  {
    var t := s.(draws := draws, closed := closed);
    forall k | 0 <= k < |t.reqs|
      ensures History(t, k)
    {
      assert History(s, k);
    }
  }

  /** Every step of every interleaving keeps the invariant. */
  lemma StepKeeps(s: System, step: Step)
    requires Inv(s) && CanStep(s, step)
    ensures Inv(Next(s, step))
  {
    match step {
      case Begin(id, kind) => BeginKeeps(s, id, kind);
      case Draw => QuietKeeps(s, s.draws + 1, s.closed);
      case Register(r) => RegisterKeeps(s, r);
      case Arrive(stanza) => ArriveKeeps(s, stanza);
      case Deliver => DeliverKeeps(s);
      case Close => QuietKeeps(s, s.draws, true);
      case Send(_, _) => PhaseKeeps(s, step);
      case Take(_) => PhaseKeeps(s, step);
      case Timeout(_) => PhaseKeeps(s, step);
      case NoticeClose(_) => PhaseKeeps(s, step);
      case Cleanup(_) => PhaseKeeps(s, step);
    }
  }

  predicate IsRun(s: System, steps: seq<Step>)
    decreases |steps|
  {
    steps != [] ==> CanStep(s, steps[0]) && IsRun(Next(s, steps[0]), steps[1..])
  }

  function Final(s: System, steps: seq<Step>): System
    requires IsRun(s, steps)
    decreases |steps|
  {
    if steps == [] then s else Final(Next(s, steps[0]), steps[1..])
  }

  lemma {:induction false} RunKeeps(s: System, steps: seq<Step>)
    requires Inv(s) && IsRun(s, steps)
    ensures Inv(Final(s, steps))
    decreases |steps|
  {
    if steps != [] {
      StepKeeps(s, steps[0]);
      RunKeeps(Next(s, steps[0]), steps[1..]);
    }
  }

  // What every reachable state shows

  /** pending holds exactly the live requests, each mapped to its own channel. */
  lemma PendingExact(steps: seq<Step>, id: string, r: nat)
    requires IsRun(Init(), steps)
    ensures var s := Final(Init(), steps);
            id in s.pending && s.pending[id] == r <==> r < |s.reqs| && s.reqs[r].id == id && Live(s.reqs[r])
  {
    RunKeeps(Init(), steps);
  }

  /**
   * A request returns a response only if it is the first reply with the request's id that the
   * reader took off the stream after the request registered.
   */
  lemma ResponseIsFirstReply(steps: seq<Step>, r: nat) returns (at: nat)
    requires IsRun(Init(), steps)
    requires var s := Final(Init(), steps);
             r < |s.reqs| && HasOutcome(s.reqs[r]) && s.reqs[r].phase.outcome.Response?
    ensures var s := Final(Init(), steps);
            var q := s.reqs[r];
            && q.since <= at < |s.log| && s.log[at] == IqStanza(q.phase.outcome.iq)
            && Answers(s.log[at], q.id) && NoneBetween(s.log, q.id, q.since, at)
  {
    RunKeeps(Init(), steps);
    var s := Final(Init(), steps);
    assert History(s, r);
    at := s.reqs[r].offered[0];
  }

  /** No reply is lost: once one has been offered to a request still waiting, the channel holds it. */
  lemma WaitingHoldsReply(steps: seq<Step>, r: nat, k: nat)
    requires IsRun(Init(), steps)
    requires var s := Final(Init(), steps);
             && r < |s.reqs| && s.reqs[r].phase.Waiting? && s.reader.Idle?
             && s.reqs[r].since <= k < |s.log| && Answers(s.log[k], s.reqs[r].id)
    ensures CanStep(Final(Init(), steps), Take(r))
  {
    RunKeeps(Init(), steps);
    var s := Final(Init(), steps);
    assert History(s, r) && !HeldFor(s, r, k);
  }

  /** The reader never blocks: mid-delivery it can always finish, and otherwise it can take any stanza. */
  lemma ReaderNeverBlocks(steps: seq<Step>, stanza: Stanza)
    requires IsRun(Init(), steps)
    ensures var s := Final(Init(), steps);
            if s.reader.Holding? then CanStep(s, Deliver) && Next(s, Deliver).reader.Idle? else CanStep(s, Arrive(stanza))
  {
    RunKeeps(Init(), steps);
  }

  /** A duplicate id is refused and nothing but the refused call changes. */
  lemma DuplicateRefused(s: System, r: nat, owner: nat)
    requires Inv(s) && CanStep(s, Register(r)) && owner < |s.reqs|
    requires Live(s.reqs[owner]) && s.reqs[owner].id == s.reqs[r].id
    ensures var t := Next(s, Register(r));
            && t.reqs[r].phase == Done(Duplicate)
            && t.reqs[owner] == s.reqs[owner] && t.pending == s.pending && t.pending[s.reqs[r].id] == owner
            && t.reader == s.reader && t.log == s.log
  {
  }

  /** With drawn ids, below 2^64 draws, a reply to one request never reaches another one. */
  lemma LateReplyIsolated(steps: seq<Step>, r: nat, other: nat)
    requires IsRun(Init(), steps)
    requires var s := Final(Init(), steps);
             && s.draws < UINT64_SIZE
             && r < |s.reqs| && other < |s.reqs| && s.reqs[r].number.Some? && s.reqs[other].number.Some?
             && HasOutcome(s.reqs[r]) && s.reqs[r].phase.outcome.Response?
             && s.reqs[r].phase.outcome.iq.id == s.reqs[other].id
    ensures r == other
  {
    RunKeeps(Init(), steps);
    var s := Final(Init(), steps);
    assert History(s, r);
    NextIdInjective(s.reqs[r].number.value, s.reqs[other].number.value);
  }

  /**
   * The id is all that correlates: a reply with the id of a waiting request is returned by it,
   * whichever request it was meant for. So an id chosen twice by the caller does confuse replies.
   */
  lemma MatchingReplyTaken(s: System, r: nat, iq: Iq)
    requires Inv(s) && r < |s.reqs| && s.reqs[r].phase.Waiting? && s.reqs[r].channel.None?
    requires s.reader.Idle? && Answers(IqStanza(iq), s.reqs[r].id)
    ensures var steps := [Arrive(IqStanza(iq)), Deliver, Take(r)];
            && IsRun(s, steps)
            && r < |Final(s, steps).reqs| && Final(s, steps).reqs[r].phase == Leaving(Response(iq))
  {
    var steps := [Arrive(IqStanza(iq)), Deliver, Take(r)];
    var s1 := Next(s, steps[0]);
    assert s1.reader == Holding(|s.log|, r) && s1.log[|s.log|] == IqStanza(iq);
    var s2 := Next(s1, steps[1]);
    assert s2.reqs[r].channel == Some(iq) && s2.reqs[r].phase.Waiting?;
    var s3 := Next(s2, steps[2]);
    assert steps[1..] == [Deliver, Take(r)] && steps[1..][1..] == [Take(r)];
    assert IsRun(s3, []) && Final(s3, []) == s3;
    assert IsRun(s2, [Take(r)]) && Final(s2, [Take(r)]) == s3;
    assert IsRun(s1, steps[1..]) && Final(s1, steps[1..]) == s3;
  }

  lemma CounterWraps(n: nat)
    ensures (n + 1) % UINT64_SIZE == if n % UINT64_SIZE == UINT64_SIZE - 1 then 0 else n % UINT64_SIZE + 1
  {
  }

  // The object itself

  /** The client's counter and its table of pending requests; each method is one critical section. */
  class Client {
    var nextId: uint64
    var pending: map<string, nat>

    constructor ()
      ensures nextId == 0 && pending == map[]
    {
      nextId, pending := 0, map[];
    }

    /** The n-th call, counting from one, returns NextId(n), also after the counter wraps. */
    method NextID(ghost n: nat) returns (id: string)
      requires nextId == n % UINT64_SIZE
      modifies this`nextId
      ensures id == NextId(n + 1) && nextId == (n + 1) % UINT64_SIZE
    {
      CounterWraps(n);
      nextId := if nextId == 0xffff_ffff_ffff_ffff then 0 else nextId + 1;
      id := "go-" + Format(nextId, 36);
    }

    method RegisterRequest(id: string, r: nat) returns (ok: bool)
      modifies this`pending
      ensures (pending, ok) == TryRegister(old(pending), id, r)
    {
      if id in pending {
        return false;
      }
      pending := pending[id := r];
      return true;
    }

    method FindChannel(id: string) returns (r: Option<nat>)
      ensures r == Lookup(pending, id)
    {
      r := if id in pending then Some(pending[id]) else None;
    }

    method RemoveRequest(id: string)
      modifies this`pending
      ensures pending == Unregister(old(pending), id)
    {
      pending := map k | k in pending && k != id :: pending[k];
    }
  }
}
