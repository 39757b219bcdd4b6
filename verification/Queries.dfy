/** Whole calls of Query: from the drawn id to the page. */
module Queries {
  import opened Wrappers
  import opened Numerals
  import opened Mam
  import C = Correlation
  import R = Requests

  predicate Reaches(s: System, steps: seq<Step>, t: System) {
    IsRun(s, steps) && Final(s, steps) == t
  }

  lemma ReachesOne(s: System, step: Step)
    requires CanStep(s, step) && s.sys.draws < UINT64_SIZE
    ensures Reaches(s, [step], Next(s, step))
  {
    assert [step][1..] == [];
    assert Reaches(Next(s, step), [], Next(s, step));
  }

  lemma {:induction false} ReachesConcat(s: System, a: seq<Step>, m: System, b: seq<Step>, t: System)
    requires Reaches(s, a, m) && Reaches(m, b, t)
    ensures Reaches(s, a + b, t)
    decreases |a|
  {
    if a == [] {
      assert a + b == b;
    } else {
      assert (a + b)[1..] == a[1..] + b;
      ReachesConcat(Next(s, a[0]), a[1..], m, b, t);
    }
  }

  lemma ReachesStep(s: System, steps: seq<Step>, m: System, step: Step)
    requires Reaches(s, steps, m) && CanStep(m, step) && m.sys.draws < UINT64_SIZE
    ensures Reaches(s, steps + [step], Next(m, step))
  {
    ReachesOne(m, step);
    ReachesConcat(s, steps, m, [step], Next(m, step));
  }

  /** A page comes of exactly the results whose fin is valid; every other end of the request fails the query. */
  lemma PageIff(outcome: C.Outcome, results: seq<Stanza>)
    ensures var q := Conclude(outcome, results);
            && (q.Page? <==> outcome.Response? && outcome.iq.kind == C.IqKind.Result && outcome.iq.payload == C.Fin(true))
            && (q.Page? ==> q.results == results)
  {
  }

  /** Both ids are free: no query and no request goes by them. */
  predicate Free(s: System) {
    C.NextId(s.sys.draws + 1) !in s.pending && C.NextId(s.sys.draws + 2) !in s.sys.pending
  }

  /** The id is drawn, the buffer registered, and the request begun. */
  lemma Opens(s: System) returns (steps: seq<Step>, t: System)
    requires s.sys.draws + 2 < UINT64_SIZE && Free(s)
    ensures steps == [Step.Open, Step.Register(|s.queries|), Step.Request(|s.queries|)] && Reaches(s, steps, t)
    ensures |t.queries| == |s.queries| + 1 && t.queries[..|s.queries|] == s.queries
    ensures t.queries[|s.queries|]
         == Query(C.NextId(s.sys.draws + 1), s.sys.draws + 1, Running(|s.sys.reqs|), [], |s.sys.log|, 0)
    ensures t.pending == s.pending[C.NextId(s.sys.draws + 1) := |s.queries|]
    ensures t.sys == C.BeginReq(s.sys.(draws := s.sys.draws + 1), "", C.Set)
  {
    var q := |s.queries|;
    var a := Next(s, Step.Open);
    var b := Next(a, Step.Register(q));
    t := Next(b, Step.Request(q));
    ReachesOne(s, Step.Open);
    ReachesStep(s, [Step.Open], a, Step.Register(q));
    ReachesStep(s, [Step.Open] + [Step.Register(q)], b, Step.Request(q));
    steps := [Step.Open] + [Step.Register(q)] + [Step.Request(q)];
  }

  /** The request is registered and sent. */
  lemma Sends(s: System, t: System) returns (steps: seq<Step>, u: System)
    requires s.sys.draws + 2 < UINT64_SIZE && Free(s)
    requires t.sys == C.BeginReq(s.sys.(draws := s.sys.draws + 1), "", C.Set)
    ensures var r := |s.sys.reqs|; steps == [Lower(C.Register(r)), Lower(C.Send(r, true))]
    ensures Reaches(t, steps, u) && u == t.(sys := u.sys) && u.sys.log == s.sys.log && u.sys.draws == s.sys.draws + 2
    ensures |u.sys.reqs| == |s.sys.reqs| + 1 && u.sys.reader == s.sys.reader
    ensures u.sys.pending == s.sys.pending[C.NextId(s.sys.draws + 2) := |s.sys.reqs|]
    ensures var req := u.sys.reqs[|s.sys.reqs|];
            req.id == C.NextId(s.sys.draws + 2) && req.phase == C.Waiting && req.channel == None
  {
    var r := |s.sys.reqs|;
    var a := Next(t, Lower(C.Register(r)));
    u := Next(a, Lower(C.Send(r, true)));
    ReachesOne(t, Lower(C.Register(r)));
    ReachesStep(t, [Lower(C.Register(r))], a, Lower(C.Send(r, true)));
    steps := [Lower(C.Register(r))] + [Lower(C.Send(r, true))];
  }

  function Arrivals(others: seq<Stanza>): seq<Step> {
    seq(|others|, i requires 0 <= i < |others| => Step.Arrive(others[i]))
  }

  /** While no replies arrive, the buffer of query q collects its results and the IQ layer only logs. */
  lemma {:induction false} Collects(s: System, q: nat, others: seq<Stanza>) returns (t: System)
    requires s.sys.reader.Idle? && s.sys.draws < UINT64_SIZE && q < |s.queries|
    requires s.queries[q].id in s.pending && s.pending[s.queries[q].id] == q
    requires forall id :: id in s.pending && s.pending[id] == q ==> id == s.queries[q].id
    requires forall x :: x in others ==> !x.IqStanza?
    ensures Reaches(s, Arrivals(others), t)
    ensures t.pending == s.pending && t.sys == s.sys.(log := s.sys.log + others) && |t.queries| == |s.queries|
    ensures t.queries[q] == s.queries[q].(results := s.queries[q].results + ResultsFor(others, s.queries[q].id))
    decreases |others|
  {
    if others == [] {
      t := s;
      assert s.sys.log + others == s.sys.log;
      assert s.queries[q].results + [] == s.queries[q].results;
    } else {
      var n := |others| - 1;
      var m := Collects(s, q, others[..n]);
      t := Next(m, Step.Arrive(others[n]));
      assert others[n] in others;
      ReachesStep(s, Arrivals(others[..n]), m, Step.Arrive(others[n]));
      assert Arrivals(others[..n]) + [Step.Arrive(others[n])] == Arrivals(others);
      assert s.sys.log + others[..n] + [others[n]] == s.sys.log + others;
      assert s.queries[q].results + (ResultsFor(others[..n], s.queries[q].id)
             + if IsResultFor(others[n], s.queries[q].id) then [others[n]] else []) == t.queries[q].results;
    }
  }

  /** The reply to the request arrives and is returned. */
  lemma Replied(s: System, r: nat, iq: C.Iq) returns (steps: seq<Step>, t: System)
    requires s.sys.reader.Idle? && s.sys.draws < UINT64_SIZE && r < |s.sys.reqs|
    requires s.sys.reqs[r].phase == C.Waiting && s.sys.reqs[r].channel == None
    requires iq.kind in {C.IqKind.Result, C.IqKind.Error}
    requires iq.id == s.sys.reqs[r].id && iq.id in s.sys.pending && s.sys.pending[iq.id] == r
    ensures steps == [Step.Arrive(C.IqStanza(iq)), Lower(C.Deliver), Lower(C.Take(r)), Lower(C.Cleanup(r))]
    ensures Reaches(s, steps, t) && t == s.(sys := t.sys) && t.sys.draws == s.sys.draws
    ensures |t.sys.reqs| == |s.sys.reqs| && t.sys.reqs[r].phase == C.Done(C.Response(iq))
  {
    var a := Next(s, Step.Arrive(C.IqStanza(iq)));
    assert a.sys.reader == C.Holding(|s.sys.log|, r) && a.sys.log[|s.sys.log|] == C.IqStanza(iq);
    var b := Next(a, Lower(C.Deliver));
    assert b.sys.reqs[r].channel == Some(iq);
    var c := Next(b, Lower(C.Take(r)));
    t := Next(c, Lower(C.Cleanup(r)));
    ReachesOne(s, Step.Arrive(C.IqStanza(iq)));
    ReachesStep(s, [Step.Arrive(C.IqStanza(iq))], a, Lower(C.Deliver));
    ReachesStep(s, [Step.Arrive(C.IqStanza(iq))] + [Lower(C.Deliver)], b, Lower(C.Take(r)));
    ReachesStep(s, [Step.Arrive(C.IqStanza(iq))] + [Lower(C.Deliver)] + [Lower(C.Take(r))], c, Lower(C.Cleanup(r)));
    steps := [Step.Arrive(C.IqStanza(iq))] + [Lower(C.Deliver)] + [Lower(C.Take(r))] + [Lower(C.Cleanup(r))];
  }

  lemma OneEntry(s: System, q: nat)
    requires Table(s) && q == |s.queries|
    ensures forall id :: id in s.pending ==> s.pending[id] != q
  {
  }

  /**
   * From any state with the reader idle and the two ids free, a query runs to its end: it returns the
   * results with its id among whatever arrived, in that order, if the request is answered by a valid
   * fin, and fails if the answer is an error or no valid fin.
   */
  lemma QueryCompletes(s: System, others: seq<Stanza>, kind: C.IqKind, payload: C.Payload)
    returns (steps: seq<Step>, t: System)
    requires Inv(s) && s.sys.reader.Idle? && s.sys.draws + 2 < UINT64_SIZE && Free(s)
    requires forall x :: x in others ==> !x.IqStanza?
    requires kind in {C.IqKind.Result, C.IqKind.Error}
    ensures Reaches(s, steps, t)
    ensures |t.queries| == |s.queries| + 1
    ensures var id := C.NextId(s.sys.draws + 1);
            t.queries[|s.queries|].phase
            == Done(|s.sys.reqs|, if kind.Result? && payload == C.Fin(true) then Page(ResultsFor(others, id)) else Failed)
  {
    var q, r := |s.queries|, |s.sys.reqs|;
    var iq := C.Iq(C.NextId(s.sys.draws + 2), kind, payload);
    OneEntry(s, q);
    var s1, a := Opens(s);
    var s2, b := Sends(s, a);
    ReachesConcat(s, s1, a, s2, b);
    var c := Collects(b, q, others);
    ReachesConcat(s, s1 + s2, b, Arrivals(others), c);
    var s4, d := Replied(c, r, iq);
    ReachesConcat(s, s1 + s2 + Arrivals(others), c, s4, d);
    var s5, e := Concludes(d, q, r, iq);
    ReachesConcat(s, s1 + s2 + Arrivals(others) + s4, d, s5, e);
    steps, t := s1 + s2 + Arrivals(others) + s4 + s5, e;
    assert [] + ResultsFor(others, b.queries[q].id) == ResultsFor(others, b.queries[q].id);
  }

  /** The query copies its results and takes its buffer out of the table. */
  lemma Concludes(s: System, q: nat, r: nat, iq: C.Iq) returns (steps: seq<Step>, t: System)
    requires s.sys.draws < UINT64_SIZE && q < |s.queries| && r < |s.sys.reqs|
    requires s.queries[q].phase == Running(r) && s.sys.reqs[r].phase == C.Done(C.Response(iq))
    ensures steps == [Collect(q), Step.Cleanup(q)] && Reaches(s, steps, t) && |t.queries| == |s.queries|
    ensures t.queries[q].phase
         == Done(r, if iq.kind.Result? && iq.payload == C.Fin(true) then Page(s.queries[q].results) else Failed)
    ensures s.queries[q].id !in t.pending
  {
    var a := Next(s, Collect(q));
    t := Next(a, Step.Cleanup(q));
    ReachesOne(s, Collect(q));
    ReachesStep(s, [Collect(q)], a, Step.Cleanup(q));
    steps := [Collect(q)] + [Step.Cleanup(q)];
  }
}
