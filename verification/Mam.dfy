/**
 * MAM queries over the correlated IQ layer: concurrent queries collect the results that the single
 * reader hands to them until the fin response of their own request comes back.
 */
module Mam {
  import opened Numerals
  import C = Correlation

  type Stanza = C.Stanza

  datatype QueryOutcome = Page(results: seq<Stanza>) | Failed

  /** Running: the request is out. Leaving: the call returns but its buffer is still registered. */
  datatype QueryPhase =
    | Drawn
    | Registered
    | Running(req: nat)
    | Leaving(req: nat, outcome: QueryOutcome)
    | Done(req: nat, outcome: QueryOutcome)

  /**
   * One call of Query. number is the counter value its id was printed from; start and collected are
   * log lengths when it registered and when it copied its results.
   */
  datatype Query = Query(id: string, number: nat, phase: QueryPhase, results: seq<Stanza>, start: nat, collected: nat)

  /** pending maps a query id to the query whose buffer it holds. */
  datatype System = System(sys: C.System, pending: map<string, nat>, queries: seq<Query>)

  datatype Step =
    | Open
    | Register(q: nat)
    | Request(q: nat)
    | Collect(q: nat)
    | Cleanup(q: nat)
    | Arrive(stanza: Stanza)
    | Lower(step: C.Step)

  predicate IsResultFor(s: Stanza, id: string) {
    s.Archived? && s.wellFormed && s.queryId == id
  }

  /** The well-formed results of a query, in arrival order. */
  function ResultsFor(log: seq<Stanza>, id: string): seq<Stanza> {
    if log == [] then []
    else
      ResultsFor(log[..|log| - 1], id)
      + (if IsResultFor(log[|log| - 1], id) then [log[|log| - 1]] else [])
  }

  function Init(): System {
    System(C.Init(), map[], [])
  }

  predicate CanStep(s: System, step: Step) {
    match step
    case Open => true
    case Register(q) => q < |s.queries| && s.queries[q].phase.Drawn?
    case Request(q) => q < |s.queries| && s.queries[q].phase.Registered?
    case Collect(q) =>
      q < |s.queries| && s.queries[q].phase.Running? && s.queries[q].phase.req < |s.sys.reqs|
      && s.sys.reqs[s.queries[q].phase.req].phase.Done?
    case Cleanup(q) => q < |s.queries| && s.queries[q].phase.Leaving?
    case Arrive(stanza) => C.CanStep(s.sys, C.Arrive(stanza))
    case Lower(step) => !step.Arrive? && C.CanStep(s.sys, step)
  }

  /** What Query makes of the end of its request: a page only after a valid fin payload. */
  function Conclude(outcome: C.Outcome, results: seq<Stanza>): QueryOutcome {
    if outcome.Response? && outcome.iq.kind.Result? && outcome.iq.payload.Fin? && outcome.iq.payload.valid
    then Page(results) else Failed
  }

  /** The handler runs on the reader: a well-formed result goes to the buffer registered for its id. */
  function Handle(pending: map<string, nat>, queries: seq<Query>, stanza: Stanza): seq<Query> {
    if stanza.Archived? && stanza.wellFormed && stanza.queryId in pending && pending[stanza.queryId] < |queries| then
      var q := pending[stanza.queryId];
      queries[q := queries[q].(results := queries[q].results + [stanza])]
    else queries
  }

  /** A call of Query that has just drawn its id. */
  function Opened(s: System): System {
    s.(queries := s.queries + [Query(C.NextId(s.sys.draws), s.sys.draws, Drawn, [], 0, 0)])
  }

  /** A call of Query that has just begun its request r. */
  function Requested(s: System, q: nat, r: nat): System
    requires q < |s.queries|
  {
    s.(queries := s.queries[q := s.queries[q].(phase := Running(r))])
  }

  function Next(s: System, step: Step): System
    requires CanStep(s, step)
  {
    match step
    case Open => Opened(s.(sys := C.Next(s.sys, C.Draw)))
    case Register(q) =>
      s.(pending := s.pending[s.queries[q].id := q],
         queries := s.queries[q := s.queries[q].(phase := Registered, start := |s.sys.log|)])
    case Request(q) => Requested(s.(sys := C.BeginReq(s.sys, "", C.Set)), q, |s.sys.reqs|)
    case Collect(q) =>
      var r := s.queries[q].phase.req;
      s.(queries := s.queries[q := s.queries[q].(
           phase := Leaving(r, Conclude(s.sys.reqs[r].phase.outcome, s.queries[q].results)),
           collected := |s.sys.log|)])
    case Cleanup(q) =>
      s.(pending := s.pending - {s.queries[q].id},
         queries := s.queries[q := s.queries[q].(phase := Done(s.queries[q].phase.req, s.queries[q].phase.outcome))])
    case Arrive(stanza) => s.(sys := C.ArriveAt(s.sys, stanza), queries := Handle(s.pending, s.queries, stanza))
    case Lower(step) => s.(sys := C.Next(s.sys, step))
  }

  // Invariant, as long as ids are fresh

  /** The query's buffer is registered. */
  predicate Tracked(q: Query) {
    q.phase.Registered? || q.phase.Running? || q.phase.Leaving?
  }

  predicate Concluded(q: Query) {
    q.phase.Leaving? || q.phase.Done?
  }

  ghost predicate Table(s: System) {
    && (forall id :: id in s.pending ==>
          s.pending[id] < |s.queries| && s.queries[s.pending[id]].id == id && Tracked(s.queries[s.pending[id]]))
    && (forall q :: 0 <= q < |s.queries| && Tracked(s.queries[q]) ==>
          s.queries[q].id in s.pending && s.pending[s.queries[q].id] == q)
  }

  predicate Fresh(s: System) {
    && (forall q :: 0 <= q < |s.queries| ==>
          0 < s.queries[q].number <= s.sys.draws && s.queries[q].id == C.NextId(s.queries[q].number))
    && (forall q, p :: 0 <= q < p < |s.queries| ==> s.queries[q].number != s.queries[p].number)
  }

  /** The buffer of an open query holds what has arrived for it; a page is what had arrived when it was cut. */
  predicate Buffer(s: System, q: nat)
    requires q < |s.queries|
  {
    var v := s.queries[q];
    && v.start <= |s.sys.log|
    && (v.phase.Drawn? ==> v.results == [])
    && (Tracked(v) ==> v.results == ResultsFor(s.sys.log[v.start..], v.id))
    && (v.phase.Running? ==> v.phase.req < |s.sys.reqs| && v.start <= s.sys.reqs[v.phase.req].begun)
    && (Concluded(v) ==>
          && v.phase.req < |s.sys.reqs| && v.start <= s.sys.reqs[v.phase.req].begun
          && v.start <= v.collected <= |s.sys.log|
          && (v.phase.outcome.Page? ==>
                && v.phase.outcome.results == ResultsFor(s.sys.log[v.start..v.collected], v.id)
                && FinBefore(s.sys.log, s.sys.reqs[v.phase.req].id, v.start, v.collected)))
  }

  predicate FinBefore(log: seq<Stanza>, id: string, lo: nat, hi: nat)
    requires hi <= |log|
  {
    exists f :: lo <= f < hi && C.Answers(log[f], id)
  }

  ghost predicate Buffered(s: System) {
    Table(s) && Fresh(s) && forall q :: 0 <= q < |s.queries| ==> Buffer(s, q)
  }

  ghost predicate Inv(s: System) {
    C.Inv(s.sys) && Buffered(s)
  }

  // Filtering

  lemma {:induction false} ResultsForConcat(a: seq<Stanza>, b: seq<Stanza>, id: string)
    ensures ResultsFor(a + b, id) == ResultsFor(a, id) + ResultsFor(b, id)
    decreases |b|
  {
    if b == [] {
      assert a + b == a;
    } else {
      var front, last := b[..|b| - 1], b[|b| - 1];
      assert (a + b)[..|a + b| - 1] == a + front;
      ResultsForConcat(a, front, id);
    }
  }

  lemma {:induction false} ResultsForNone(log: seq<Stanza>, id: string)
    requires forall i :: 0 <= i < |log| ==> !IsResultFor(log[i], id)
    ensures ResultsFor(log, id) == []
    decreases |log|
  {
    if log != [] {
      ResultsForNone(log[..|log| - 1], id);
    }
  }

  lemma ResultsForSnoc(log: seq<Stanza>, start: nat, x: Stanza, id: string)
    requires start <= |log|
    ensures ResultsFor((log + [x])[start..], id) == ResultsFor(log[start..], id) + (if IsResultFor(x, id) then [x] else [])
  {
    var w := (log + [x])[start..];
    assert w == log[start..] + [x];
    assert w[..|w| - 1] == log[start..];
  }

  // Steps

  /** Below 2^64 draws no two queries share an id. */
  lemma IdsDiffer(s: System, q: nat, p: nat)
    requires Fresh(s) && s.sys.draws < UINT64_SIZE
    requires q < |s.queries| && p < |s.queries| && q != p
    ensures s.queries[q].id != s.queries[p].id
  {
    if s.queries[q].id == s.queries[p].id {
      C.NextIdInjective(s.queries[q].number, s.queries[p].number);
    }
  }

  /** The IQ layer may move under the queries as long as its log and its requests' ids and begin times stay. */
  predicate Under(s: C.System, t: C.System) {
    && t.log == s.log && t.draws >= s.draws && |t.reqs| >= |s.reqs|
    && forall r :: 0 <= r < |s.reqs| ==> t.reqs[r].id == s.reqs[r].id && t.reqs[r].begun == s.reqs[r].begun
  }

  lemma LowerUnder(s: C.System, step: C.Step)
    requires !step.Arrive? && C.CanStep(s, step)
    ensures Under(s, C.Next(s, step))
  {
  }

  lemma UnderKeeps(s: System, sys: C.System)
    requires Buffered(s) && Under(s.sys, sys)
    ensures Buffered(s.(sys := sys))
  {
    var t := s.(sys := sys);
    forall q | 0 <= q < |t.queries|
      ensures Buffer(t, q)
    {
      assert Buffer(s, q);
    }
  }

  lemma LowerKeeps(s: System, step: C.Step)
    requires Inv(s) && !step.Arrive? && C.CanStep(s.sys, step)
    ensures Inv(s.(sys := C.Next(s.sys, step)))
  {
    C.StepKeeps(s.sys, step);
    LowerUnder(s.sys, step);
    UnderKeeps(s, C.Next(s.sys, step));
  }

  lemma OpenKeeps(s: System)
    requires Buffered(s)
    ensures Buffered(Next(s, Step.Open))
  {
    var m := s.(sys := C.Next(s.sys, C.Draw));
    LowerUnder(s.sys, C.Draw);
    UnderKeeps(s, m.sys);
    OpenedKeeps(m);
  }

  lemma OpenedKeeps(m: System)
    requires Buffered(m) && m.sys.draws > 0
    requires forall q :: 0 <= q < |m.queries| ==> m.queries[q].number < m.sys.draws
    ensures Buffered(Opened(m))
  {
    var t := Opened(m);
    forall q | 0 <= q < |t.queries|
      ensures Buffer(t, q)
    {
      assert q < |m.queries| ==> Buffer(m, q);
    }
    assert forall q :: 0 <= q < |m.queries| ==> t.queries[q] == m.queries[q];
  }

  lemma RegisterTable(s: System, q: nat)
    requires Buffered(s) && s.sys.draws < UINT64_SIZE && CanStep(s, Register(q))
    ensures Table(Next(s, Register(q)))
  {
    var t := Next(s, Register(q));
    forall p | 0 <= p < |t.queries| && Tracked(t.queries[p])
      ensures t.queries[p].id in t.pending && t.pending[t.queries[p].id] == p
    {
      if p != q {
        IdsDiffer(s, p, q);
      }
    }
  }

  lemma RegisterKeeps(s: System, q: nat)
    requires Buffered(s) && s.sys.draws < UINT64_SIZE && CanStep(s, Register(q))
    ensures Buffered(Next(s, Register(q)))
  {
    var t := Next(s, Register(q));
    assert s.sys.log[|s.sys.log|..] == [];
    forall p | 0 <= p < |t.queries|
      ensures Buffer(t, p)
    {
      assert Buffer(s, p);
    }
    RegisterTable(s, q);
  }

  lemma RequestKeeps(s: System, q: nat)
    requires Buffered(s) && CanStep(s, Request(q))
    ensures Buffered(Next(s, Request(q)))
  {
    LowerUnder(s.sys, C.Begin("", C.Set));
    var m := s.(sys := C.BeginReq(s.sys, "", C.Set));
    UnderKeeps(s, m.sys);
    assert Buffer(s, q);
    RequestedKeeps(m, q, |s.sys.reqs|);
  }

  lemma RequestedKeeps(m: System, q: nat, r: nat)
    requires Buffered(m) && q < |m.queries| && m.queries[q].phase.Registered?
    requires r < |m.sys.reqs| && m.queries[q].start <= m.sys.reqs[r].begun
    ensures Buffered(Requested(m, q, r))
  {
    var t := Requested(m, q, r);
    forall p | 0 <= p < |t.queries|
      ensures Buffer(t, p)
    {
      assert Buffer(m, p);
    }
    PhaseTable(m, t, q);
  }

  lemma PhaseTable(s: System, t: System, q: nat)
    requires Table(s) && q < |s.queries| && t.pending == s.pending && |t.queries| == |s.queries|
    requires Tracked(s.queries[q]) && Tracked(t.queries[q]) && t.queries[q].id == s.queries[q].id
    requires forall p :: 0 <= p < |s.queries| && p != q ==> t.queries[p] == s.queries[p]
    ensures Table(t)
  {
  }

  lemma CollectKeeps(s: System, q: nat)
    requires Inv(s) && CanStep(s, Collect(q))
    ensures Inv(Next(s, Collect(q)))
  {
    var t := Next(s, Collect(q));
    var v := s.queries[q];
    var r := v.phase.req;
    forall p | 0 <= p < |t.queries|
      ensures Buffer(t, p)
    {
      assert Buffer(s, p);
      if p == q {
        assert s.sys.log[v.start..|s.sys.log|] == s.sys.log[v.start..];
        assert C.History(s.sys, r);
        if t.queries[q].phase.outcome.Page? {
          var f := s.sys.reqs[r].offered[0];
          assert C.Answers(s.sys.log[f], s.sys.reqs[r].id);
        }
      }
    }
    PhaseTable(s, t, q);
  }

  lemma CleanupKeeps(s: System, q: nat)
    requires Buffered(s) && s.sys.draws < UINT64_SIZE && CanStep(s, Cleanup(q))
    ensures Buffered(Next(s, Cleanup(q)))
  {
    var t := Next(s, Cleanup(q));
    forall p | 0 <= p < |t.queries|
      ensures Buffer(t, p)
    {
      assert Buffer(s, p);
    }
    forall p | 0 <= p < |t.queries| && Tracked(t.queries[p])
      ensures t.queries[p].id in t.pending && t.pending[t.queries[p].id] == p
    {
      IdsDiffer(s, p, q);
    }
  }

  lemma ArriveKeeps(s: System, stanza: Stanza)
    requires Buffered(s) && CanStep(s, Arrive(stanza))
    ensures Buffered(Next(s, Arrive(stanza)))
  {
    var t := Next(s, Arrive(stanza));
    forall p | 0 <= p < |t.queries|
      ensures Buffer(t, p)
    {
      ArriveBuffer(s, t, stanza, p);
    }
  }

  lemma ArriveBuffer(s: System, t: System, stanza: Stanza, p: nat)
    requires Table(s) && p < |s.queries| && Buffer(s, p)
    requires t.sys.log == s.sys.log + [stanza] && t.queries == Handle(s.pending, s.queries, stanza)
    requires |t.sys.reqs| == |s.sys.reqs|
    requires forall r :: 0 <= r < |s.sys.reqs| ==>
               t.sys.reqs[r].id == s.sys.reqs[r].id && t.sys.reqs[r].begun == s.sys.reqs[r].begun
    ensures Buffer(t, p)
  {
    var v := s.queries[p];
    ResultsForSnoc(s.sys.log, v.start, stanza, v.id);
    if Concluded(v) {
      assert t.sys.log[v.start..v.collected] == s.sys.log[v.start..v.collected];
      if v.phase.outcome.Page? {
        var f :| v.start <= f < v.collected && C.Answers(s.sys.log[f], s.sys.reqs[v.phase.req].id);
        assert t.sys.log[f] == s.sys.log[f];
      }
    }
  }

  lemma StepKeeps(s: System, step: Step)
    requires Inv(s) && s.sys.draws < UINT64_SIZE && CanStep(s, step)
    ensures Inv(Next(s, step))
  {
    match step {
      case Open => C.StepKeeps(s.sys, C.Draw); OpenKeeps(s);
      case Register(q) => RegisterKeeps(s, q);
      case Request(q) => C.StepKeeps(s.sys, C.Begin("", C.Set)); RequestKeeps(s, q);
      case Collect(q) => CollectKeeps(s, q);
      case Cleanup(q) => CleanupKeeps(s, q);
      case Arrive(stanza) => C.StepKeeps(s.sys, C.Arrive(stanza)); ArriveKeeps(s, stanza);
      case Lower(lower) => LowerKeeps(s, lower);
    }
  }

  /** Runs in which fewer than 2^64 ids have been drawn. */
  predicate IsRun(s: System, steps: seq<Step>)
    decreases |steps|
  {
    steps != [] ==> s.sys.draws < UINT64_SIZE && CanStep(s, steps[0]) && IsRun(Next(s, steps[0]), steps[1..])
  }

  function Final(s: System, steps: seq<Step>): System
    requires IsRun(s, steps)
    decreases |steps|
  {
    if steps == [] then s else Final(Next(s, steps[0]), steps[1..])
  }

  lemma {:induction false} RunKeeps(s: System, steps: seq<Step>)
    requires Inv(s) && IsRun(s, steps)
    ensures Inv(Final(s, steps))
    decreases |steps|
  {
    if steps != [] {
      StepKeeps(s, steps[0]);
      RunKeeps(Next(s, steps[0]), steps[1..]);
    }
  }

  /**
   * The server answers query q as XEP-0313 asks: it sends results only after the request is out, all
   * of them before the fin, and none after it.
   */
  predicate ServerOrdered(s: System, q: nat)
    requires q < |s.queries| && Concluded(s.queries[q]) && s.queries[q].phase.req < |s.sys.reqs|
  {
    var req := s.sys.reqs[s.queries[q].phase.req];
    forall i :: 0 <= i < |s.sys.log| && IsResultFor(s.sys.log[i], s.queries[q].id) ==>
      && req.sentAt <= i
      && forall f :: 0 <= f < |s.sys.log| && C.Answers(s.sys.log[f], req.id) ==> i < f
  }

  /**
   * In every interleaving, a query that returns a page returns exactly the well-formed results with
   * its id that the reader ever took off the stream, in arrival order.
   */
  lemma QueryExact(steps: seq<Step>, q: nat)
    requires IsRun(Init(), steps)
    requires var s := Final(Init(), steps);
             && q < |s.queries| && Concluded(s.queries[q]) && s.queries[q].phase.outcome.Page?
             && s.queries[q].phase.req < |s.sys.reqs| && ServerOrdered(s, q)
    ensures var s := Final(Init(), steps);
            s.queries[q].phase.outcome.results == ResultsFor(s.sys.log, s.queries[q].id)
  {
    RunKeeps(Init(), steps);
    PageExact(Final(Init(), steps), q);
  }

  lemma PageExact(s: System, q: nat)
    requires Inv(s) && q < |s.queries| && Concluded(s.queries[q]) && s.queries[q].phase.outcome.Page?
    requires s.queries[q].phase.req < |s.sys.reqs| && ServerOrdered(s, q)
    ensures s.queries[q].phase.outcome.results == ResultsFor(s.sys.log, s.queries[q].id)
  {
    var v := s.queries[q];
    assert Buffer(s, q) && C.History(s.sys, v.phase.req);
    var f :| v.start <= f < v.collected && C.Answers(s.sys.log[f], s.sys.reqs[v.phase.req].id);
    assert forall i :: 0 <= i < |s.sys.log| && IsResultFor(s.sys.log[i], v.id) ==> v.start <= i < f;
    ResultsInside(s.sys.log, v.start, v.collected, v.id);
  }

  /** When all results lie in a window of the log, filtering the window is filtering the log. */
  lemma ResultsInside(log: seq<Stanza>, lo: nat, hi: nat, id: string)
    requires lo <= hi <= |log|
    requires forall i :: 0 <= i < |log| && IsResultFor(log[i], id) ==> lo <= i < hi
    ensures ResultsFor(log[lo..hi], id) == ResultsFor(log, id)
  {
    var before, during, after := log[..lo], log[lo..hi], log[hi..];
    ResultsForNone(before, id);
    ResultsForNone(after, id);
    assert log == before + (during + after);
    ResultsForConcat(before, during + after, id);
    ResultsForConcat(during, after, id);
  }

  /** Whatever the server does, a page is a contiguous part of the results that arrived. */
  lemma PageIsWindow(steps: seq<Step>, q: nat)
    requires IsRun(Init(), steps)
    requires var s := Final(Init(), steps); q < |s.queries| && Concluded(s.queries[q]) && s.queries[q].phase.outcome.Page?
    ensures var s := Final(Init(), steps);
            var v := s.queries[q];
            && v.start <= v.collected <= |s.sys.log|
            && v.phase.outcome.results == ResultsFor(s.sys.log[v.start..v.collected], v.id)
  {
    RunKeeps(Init(), steps);
    assert Buffer(Final(Init(), steps), q);
  }

  // The object itself

  /** The plugin's table of result buffers; each method is one critical section. */
  class Archive {
    var pending: map<string, nat>
    var queries: seq<Query>

    constructor ()
      ensures pending == map[] && queries == []
    {
      pending, queries := map[], [];
    }

    /** now is the number of stanzas read so far. */
    method RegisterQuery(q: nat, now: nat, ghost s: System)
      requires s.pending == pending && s.queries == queries && CanStep(s, Register(q)) && now == |s.sys.log|
      modifies this
      ensures pending == Next(s, Register(q)).pending && queries == Next(s, Register(q)).queries
    {
      pending := pending[queries[q].id := q];
      queries := queries[q := queries[q].(phase := Registered, start := now)];
    }

    /** The handler: parse failures and unknown query ids leave every buffer as it is. */
    method HandleResult(stanza: Stanza)
      requires forall id :: id in pending ==> pending[id] < |queries|
      modifies this`queries
      ensures queries == Handle(pending, old(queries), stanza)
    {
      if !stanza.Archived? || !stanza.wellFormed {
        return;
      }
      if stanza.queryId in pending {
        var q := pending[stanza.queryId];
        queries := queries[q := queries[q].(results := queries[q].results + [stanza])];
      }
    }

    method RemoveQuery(q: nat, ghost s: System)
      requires s.pending == pending && s.queries == queries && CanStep(s, Cleanup(q))
      modifies this`pending
      ensures pending == Next(s, Cleanup(q)).pending
    {
      pending := map id | id in pending && id != queries[q].id :: pending[id];
    }
  }
}
