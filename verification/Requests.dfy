/** Whole calls of RequestIQ: which are accepted, and how each can end. */
module Requests {
  import opened Wrappers
  import opened Numerals
  import opened Correlation

  predicate Reaches(s: System, steps: seq<Step>, t: System) {
    IsRun(s, steps) && Final(s, steps) == t
  }

  lemma ReachesOne(s: System, step: Step)
    requires CanStep(s, step)
    ensures Reaches(s, [step], Next(s, step))
  {
    assert [step][1..] == [];
    assert Reaches(Next(s, step), [], Next(s, step));
  }

  lemma {:induction false} ReachesConcat(s: System, a: seq<Step>, m: System, b: seq<Step>, t: System)
    requires Reaches(s, a, m) && Reaches(m, b, t)
    ensures Reaches(s, a + b, t)
    decreases |a|
  {
    if a == [] {
      assert a + b == b;
    } else {
      assert (a + b)[1..] == a[1..] + b;
      ReachesConcat(Next(s, a[0]), a[1..], m, b, t);
    }
  }

  lemma ReachesStep(s: System, steps: seq<Step>, m: System, step: Step)
    requires Reaches(s, steps, m) && CanStep(m, step)
    ensures Reaches(s, steps + [step], Next(m, step))
  {
    ReachesOne(m, step);
    ReachesConcat(s, steps, m, [step], Next(m, step));
  }

  /** The id a call goes by: the caller's, or else the next one drawn. */
  function IdOf(s: System, id: string): string {
    if id == "" then NextId(s.draws + 1) else id
  }

  /** A request of type get or set is accepted, every other one is refused at once; nothing else changes. */
  lemma AcceptedIff(s: System, id: string, kind: IqKind)
    ensures var t, r := Next(s, Begin(id, kind)), |s.reqs|;
            && |t.reqs| == r + 1 && t.reqs[..r] == s.reqs
            && (kind == Get || kind == Set ==> t.reqs[r].phase == Drawn && t.reqs[r].id == IdOf(s, id))
            && (kind != Get && kind != Set ==> t.reqs[r].phase == Done(Rejected))
            && t.draws == (if (kind == Get || kind == Set) && id == "" then s.draws + 1 else s.draws)
            && t == s.(reqs := t.reqs, draws := t.draws)
  {
  }

  /** Request r, which was not there before, is all that changed; its entry in the table is as given. */
  predicate Only(s: System, t: System, r: nat, entry: bool) {
    && r == |s.reqs| && |t.reqs| == r + 1 && t.reqs[..r] == s.reqs && t.reader == s.reader
    && t.pending == if entry then s.pending[t.reqs[r].id := r] else s.pending
  }

  /** A call up to the end of its Send, which succeeds or fails. */
  lemma Sent(s: System, id: string, kind: IqKind, ok: bool) returns (steps: seq<Step>, t: System)
    requires kind == Get || kind == Set
    requires IdOf(s, id) !in s.pending
    ensures steps == [Begin(id, kind), Register(|s.reqs|), Send(|s.reqs|, ok)] && Reaches(s, steps, t)
    ensures Only(s, t, |s.reqs|, true) && t.log == s.log && t.closed == s.closed
    ensures var q := t.reqs[|s.reqs|];
            && q.id == IdOf(s, id) && q.phase == (if ok then Waiting else Leaving(SendError))
            && q.channel == None && q.offered == []
            && q.begun == q.since == q.sentAt == |s.log|
    ensures t.draws == if id == "" then s.draws + 1 else s.draws
  {
    var r := |s.reqs|;
    var a := Next(s, Begin(id, kind));
    var b := Next(a, Register(r));
    t := Next(b, Send(r, ok));
    ReachesOne(s, Begin(id, kind));
    ReachesStep(s, [Begin(id, kind)], a, Register(r));
    ReachesStep(s, [Begin(id, kind)] + [Register(r)], b, Send(r, ok));
    steps := [Begin(id, kind)] + [Register(r)] + [Send(r, ok)];
  }

  /** The deferred removal takes the entry away again. */
  lemma CleanedUp(s: System, t: System, r: nat) returns (u: System)
    requires Only(s, t, r, true) && t.reqs[r].phase.Leaving? && t.reqs[r].id !in s.pending
    ensures Reaches(t, [Cleanup(r)], u) && Only(s, u, r, false)
    ensures u.reqs[r].phase == Done(t.reqs[r].phase.outcome)
    ensures u.log == t.log && u.draws == t.draws && u.closed == t.closed && u.reqs[r].id == t.reqs[r].id
  {
    u := Next(t, Cleanup(r));
    ReachesOne(t, Cleanup(r));
    assert u.pending == s.pending;
  }

  function Arrivals(others: seq<Stanza>): seq<Step> {
    seq(|others|, i requires 0 <= i < |others| => Arrive(others[i]))
  }

  /** Stanzas that are no replies pass the table by. */
  lemma {:induction false} OthersPass(s: System, others: seq<Stanza>)
    requires s.reader.Idle?
    requires forall x :: x in others ==> !(x.IqStanza? && x.iq.kind in {IqKind.Result, IqKind.Error})
    ensures Reaches(s, Arrivals(others), s.(log := s.log + others))
    decreases |others|
  {
    if others == [] {
      assert s.log + others == s.log;
    } else {
      var m := Next(s, Arrive(others[0]));
      assert others[0] in others;
      OthersPass(m, others[1..]);
      ReachesOne(s, Arrive(others[0]));
      ReachesConcat(s, [Arrive(others[0])], m, Arrivals(others[1..]), m.(log := m.log + others[1..]));
      assert [Arrive(others[0])] + Arrivals(others[1..]) == Arrivals(others);
      assert m.log + others[1..] == s.log + others;
    }
  }

  /** The reply arrives, is delivered and taken. */
  lemma ReplyTaken(s: System, r: nat, iq: Iq) returns (t: System)
    requires r < |s.reqs| && s.reqs[r].phase == Waiting && s.reqs[r].channel == None && s.reader.Idle?
    requires iq.kind in {IqKind.Result, IqKind.Error} && iq.id in s.pending && s.pending[iq.id] == r
    ensures Reaches(s, [Arrive(IqStanza(iq)), Deliver, Take(r)], t)
    ensures |t.reqs| == |s.reqs| && t.reqs == s.reqs[r := t.reqs[r]] && t.reqs[r].phase == Leaving(Response(iq))
    ensures t.reqs[r].id == s.reqs[r].id && t.reqs[r].begun == s.reqs[r].begun
    ensures t == s.(reqs := t.reqs, log := s.log + [IqStanza(iq)])
  {
    var a := Next(s, Arrive(IqStanza(iq)));
    assert a.reader == Holding(|s.log|, r) && a.log[|s.log|] == IqStanza(iq);
    var b := Next(a, Deliver);
    assert b.reqs[r].channel == Some(iq);
    t := Next(b, Take(r));
    ReachesOne(s, Arrive(IqStanza(iq)));
    ReachesStep(s, [Arrive(IqStanza(iq))], a, Deliver);
    ReachesStep(s, [Arrive(IqStanza(iq))] + [Deliver], b, Take(r));
    assert [Arrive(IqStanza(iq))] + [Deliver] + [Take(r)] == [Arrive(IqStanza(iq)), Deliver, Take(r)];
  }

  /**
   * A request whose id is free, sent over a working stream, returns the reply that carries its id,
   * a result as well as an error, whatever else arrived in between; the table is then as it was.
   */
  lemma RequestAnswered(s: System, id: string, kind: IqKind, others: seq<Stanza>, iq: Iq) returns (steps: seq<Step>, t: System)
    requires kind == Get || kind == Set
    requires s.reader.Idle? && IdOf(s, id) !in s.pending
    requires forall x :: x in others ==> !(x.IqStanza? && x.iq.kind in {IqKind.Result, IqKind.Error})
    requires iq.id == IdOf(s, id) && (iq.kind == IqKind.Result || iq.kind == IqKind.Error)
    ensures var r := |s.reqs|;
            && steps == [Begin(id, kind), Register(r), Send(r, true)] + Arrivals(others)
                        + [Arrive(IqStanza(iq)), Deliver, Take(r)] + [Cleanup(r)]
            && Reaches(s, steps, t) && Only(s, t, r, false) && t.reqs[r].phase == Done(Response(iq))
  {
    var r := |s.reqs|;
    var first, a := Sent(s, id, kind, true);
    var b := a.(log := a.log + others);
    OthersPass(a, others);
    ReachesConcat(s, first, a, Arrivals(others), b);
    var c := ReplyTaken(b, r, iq);
    ReachesConcat(s, first + Arrivals(others), b, [Arrive(IqStanza(iq)), Deliver, Take(r)], c);
    t := CleanedUp(s, c, r);
    ReachesConcat(s, first + Arrivals(others) + [Arrive(IqStanza(iq)), Deliver, Take(r)], c, [Cleanup(r)], t);
    steps := first + Arrivals(others) + [Arrive(IqStanza(iq)), Deliver, Take(r)] + [Cleanup(r)];
  }

  /** A request whose Send fails returns that error and leaves no entry. */
  lemma RequestNotSent(s: System, id: string, kind: IqKind) returns (t: System)
    requires kind == Get || kind == Set
    requires IdOf(s, id) !in s.pending
    ensures var r := |s.reqs|;
            && Reaches(s, [Begin(id, kind), Register(r), Send(r, false)] + [Cleanup(r)], t)
            && Only(s, t, r, false) && t.reqs[r].phase == Done(SendError)
  {
    var first, a := Sent(s, id, kind, false);
    t := CleanedUp(s, a, |s.reqs|);
    ReachesConcat(s, first, a, [Cleanup(|s.reqs|)], t);
  }

  /** A request that runs out of time says so and leaves no entry. */
  lemma RequestTimesOut(s: System, id: string, kind: IqKind) returns (t: System)
    requires kind == Get || kind == Set
    requires IdOf(s, id) !in s.pending
    ensures var r := |s.reqs|;
            && Reaches(s, [Begin(id, kind), Register(r), Send(r, true)] + [Timeout(r)] + [Cleanup(r)], t)
            && Only(s, t, r, false) && t.reqs[r].phase == Done(TimedOut)
  {
    var r := |s.reqs|;
    var first, a := Sent(s, id, kind, true);
    var b := Next(a, Timeout(r));
    ReachesStep(s, first, a, Timeout(r));
    t := CleanedUp(s, b, r);
    ReachesConcat(s, first + [Timeout(r)], b, [Cleanup(r)], t);
  }

  /** A request that is waiting when the client closes says so and leaves no entry. */
  lemma RequestClosed(s: System, id: string, kind: IqKind) returns (t: System)
    requires kind == Get || kind == Set
    requires IdOf(s, id) !in s.pending
    ensures var r := |s.reqs|;
            && Reaches(s, [Begin(id, kind), Register(r), Send(r, true)] + [Close] + [NoticeClose(r)] + [Cleanup(r)], t)
            && Only(s, t, r, false) && t.reqs[r].phase == Done(Closed) && t.closed
  {
    var r := |s.reqs|;
    var first, a := Sent(s, id, kind, true);
    var b := Next(a, Close);
    var c := Next(b, NoticeClose(r));
    ReachesStep(s, first, a, Close);
    ReachesStep(s, first + [Close], b, NoticeClose(r));
    t := CleanedUp(s, c, r);
    ReachesConcat(s, first + [Close] + [NoticeClose(r)], c, [Cleanup(r)], t);
  }

  /** A request whose id is taken is refused, and neither the table nor any other request changes. */
  lemma RequestDuplicate(s: System, id: string, kind: IqKind) returns (t: System)
    requires kind == Get || kind == Set
    requires IdOf(s, id) in s.pending
    ensures var r := |s.reqs|;
            && Reaches(s, [Begin(id, kind)] + [Register(r)], t)
            && Only(s, t, r, false) && t.reqs[r].phase == Done(Duplicate) && t.log == s.log
  {
    var r := |s.reqs|;
    var a := Next(s, Begin(id, kind));
    t := Next(a, Register(r));
    ReachesOne(s, Begin(id, kind));
    ReachesStep(s, [Begin(id, kind)], a, Register(r));
  }

  /** The step at which request r comes by an outcome. */
  predicate Causes(s: System, step: Step, r: nat, outcome: Outcome)
    requires r < |s.reqs|
  {
    match outcome
    case Response(iq) => step == Take(r) && s.reqs[r].channel == Some(iq)
    case SendError => step == Send(r, false)
    case TimedOut => step == Timeout(r)
    case Closed => step == NoticeClose(r) && s.closed
    case Duplicate => step == Register(r) && s.reqs[r].id in s.pending
    case Rejected => false
  }

  /** A timeout, a close or a failed send never passes for a response: each outcome has its own cause. */
  lemma OutcomeHasCause(s: System, step: Step, r: nat)
    requires CanStep(s, step) && r < |s.reqs| && !HasOutcome(s.reqs[r])
    ensures var t := Next(s, step);
            r < |t.reqs| && (HasOutcome(t.reqs[r]) ==> Causes(s, step, r, t.reqs[r].phase.outcome))
  {
  }
}
