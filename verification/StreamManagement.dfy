/**
 * XEP-0198 stream management: the client's wrapping counters beside its queue of unacknowledged
 * stanzas. Values and transitions, and the class that updates the same values in place.
 */
module StreamManagement {
  import opened Wrappers
  import opened Numerals
  import opened XmlTree

  const SM_NS := "urn:xmpp:sm:3"

  /** Stanzas are opaque to stream management. serial tells equal ones apart; nothing reads it. */
  datatype Stanza = Stanza(serial: nat, kind: string, id: string)

  datatype Sm = Sm(
    enabled: bool, resume: bool, id: string, location: string, max: int64,
    inbound: uint32, outbound: uint32, acked: uint32, unacked: seq<Stanza>)

  datatype Reaction = Quiet | Answer(node: Node) | Acknowledged | Resumed | Failed | BadAck

  function Plus1(n: uint32): uint32 {
    if n == UINT32_SIZE - 1 then 0 else n + 1
  }

  /** Unsigned 32-bit subtraction. */
  function Minus(a: uint32, b: uint32): uint32 {
    if a >= b then a - b else a + UINT32_SIZE - b
  }

  function OnSent(s: Sm, x: Stanza): Sm {
    if s.enabled then s.(outbound := Plus1(s.outbound), unacked := s.unacked + [x]) else s
  }

  function OnReceived(s: Sm): Sm {
    if s.enabled then s.(inbound := Plus1(s.inbound)) else s
  }

  /** How many queued stanzas an acknowledgement removes. */
  function Dropped(s: Sm, h: uint32): nat {
    var delta := Minus(h, s.acked);
    if delta > |s.unacked| then |s.unacked| else delta
  }

  function ApplyAck(s: Sm, h: uint32): Sm {
    s.(unacked := s.unacked[Dropped(s, h)..], acked := h)
  }

  /** ParseUint's value when its error is discarded: the largest value on overflow, else zero. */
  function ParseLoose(text: string): uint32 {
    match ParseUint(text, UINT32_SIZE)
    case Ok(n) => n
    case Err(Syntax) => 0
    case Err(Range) => UINT32_SIZE - 1
  }

  function OnElement(s: Sm, n: Node): (Sm, Reaction) {
    if n.name.space != SM_NS then (s, Quiet)
    else if n.name.local == "r" then
      (s, if s.enabled then Answer(AckNode(s.inbound)) else Quiet)
    else if n.name.local == "a" then
      (match ParseUint(AttrOr(n, "h"), UINT32_SIZE)
       case Ok(h) => (ApplyAck(s, h), Acknowledged)
       case Err(_) => (s, BadAck))
    else if n.name.local == "resumed" then
      (ApplyAck(s, ParseLoose(AttrOr(n, "h"))).(enabled := true, id := AttrOr(n, "previd")), Resumed)
    else if n.name.local == "failed" then (s, Failed)
    else (s, Quiet)
  }

  /** The state Enable installs. */
  function ParseEnabled(n: Node): Sm {
    var truthy := (v: string) => v == "true" || v == "1";
    Sm(true, truthy(AttrOr(n, "resume")), AttrOr(n, "id"), AttrOr(n, "location"),
       AtoiLoose(AttrOr(n, "max")), 0, 0, 0, [])
  }

  /** Atoi's value when its error is discarded. */
  function AtoiLoose(s: string): int64 {
    match Atoi(s)
    case Ok(n) => n
    case Err(Syntax) => 0
    case Err(Range) => if s[0] == '-' then -0x8000_0000_0000_0000 else 0x7fff_ffff_ffff_ffff
  }

  function AckNode(h: uint32): Node {
    SetAttr(NewNode(SM_NS, "a"), "h", Format(h, 10))
  }

  function ResumedNode(id: string, h: uint32): Node {
    SetAttr(SetAttr(NewNode(SM_NS, "resumed"), "previd", id), "h", Format(h, 10))
  }

  /** The element a server answers to a request to enable. */
  function EnabledNode(resume: bool, id: string, location: string, max: int64): Node {
    var n := SetAttr(SetAttr(NewNode(SM_NS, "enabled"), "id", id), "location", location);
    SetAttr(SetAttr(n, "max", Itoa(max)), "resume", if resume then "true" else "false")
  }

  /** The client's offer to resume. */
  function ResumeNode(previous: string, handled: uint32): Node {
    SetAttr(SetAttr(NewNode(SM_NS, "resume"), "previd", previous), "h", Format(handled, 10))
  }

  // Modular arithmetic

  function Wrap(n: nat): uint32 {
    n % UINT32_SIZE
  }

  lemma WrapPlus1(n: nat)
    ensures Plus1(Wrap(n)) == Wrap(n + 1)
  {
  }

  /** The 32-bit difference of two wrapped counts is their true difference, modulo 2^32. */
  lemma WrapMinus(c: nat, d: nat)
    requires d <= c
    ensures Minus(Wrap(c), Wrap(d)) == (c - d) % UINT32_SIZE
  {
    var a, b := Wrap(c), Wrap(d);
    var qc, qd := c / UINT32_SIZE, d / UINT32_SIZE;
    assert c == qc * UINT32_SIZE + a && d == qd * UINT32_SIZE + b;
    assert c - d == (qc - qd) * UINT32_SIZE + (a - b);
    if a >= b {
      ModUnique(c - d, qc - qd, a - b);
    } else {
      ModUnique(c - d, qc - qd - 1, a - b + UINT32_SIZE);
    }
  }

  lemma ModUnique(n: nat, q: int, r: nat)
    requires n == q * UINT32_SIZE + r && r < UINT32_SIZE
    ensures n % UINT32_SIZE == r
  {
  }

  /** An acknowledgement element printed with count h is applied with count h. */
  lemma AckNodeReads(s: Sm, h: uint32)
    ensures OnElement(s, AckNode(h)) == (ApplyAck(s, h), Acknowledged)
  {
    SetAttrReads([], Name("", "h"), Format(h, 10), Name("", "h"));
    ParseUintFormat(h, UINT32_SIZE);
  }

  lemma ResumedNodeReads(s: Sm, id: string, h: uint32)
    ensures OnElement(s, ResumedNode(id, h)) == (ApplyAck(s, h).(enabled := true, id := id), Resumed)
  {
    var one := SetAttrIn([], Name("", "previd"), id);
    SetAttrReads([], Name("", "previd"), id, Name("", "previd"));
    SetAttrReads(one, Name("", "h"), Format(h, 10), Name("", "h"));
    SetAttrReads(one, Name("", "h"), Format(h, 10), Name("", "previd"));
    ParseUintFormat(h, UINT32_SIZE);
  }

  lemma EnabledNodeAttr(resume: bool, id: string, location: string, max: int64, other: string)
    ensures AttrValue(EnabledNode(resume, id, location, max), other)
         == if other == "resume" then Some(if resume then "true" else "false")
            else if other == "max" then Some(Itoa(max))
            else if other == "location" then Some(location)
            else if other == "id" then Some(id)
            else None
  {
    var n := NewNode(SM_NS, "enabled");
    var a := SetAttr(n, "id", id);
    var b := SetAttr(a, "location", location);
    var c := SetAttr(b, "max", Itoa(max));
    SetAttrReads(n.attrs, Name("", "id"), id, Name("", other));
    SetAttrReads(a.attrs, Name("", "location"), location, Name("", other));
    SetAttrReads(b.attrs, Name("", "max"), Itoa(max), Name("", other));
    SetAttrReads(c.attrs, Name("", "resume"), if resume then "true" else "false", Name("", other));
  }

  /** Enable installs what the server said, with every counter at zero and nothing queued. */
  lemma EnabledNodeReads(resume: bool, id: string, location: string, max: int64)
    ensures ParseEnabled(EnabledNode(resume, id, location, max)) == Sm(true, resume, id, location, max, 0, 0, 0, [])
  {
    EnabledNodeAttr(resume, id, location, max, "id");
    EnabledNodeAttr(resume, id, location, max, "location");
    EnabledNodeAttr(resume, id, location, max, "max");
    EnabledNodeAttr(resume, id, location, max, "resume");
    AtoiItoa(max);
  }

  /** The server reads the stream to resume and the count of stanzas received from the client's offer. */
  lemma ResumeNodeReads(previous: string, handled: uint32)
    ensures AttrOr(ResumeNode(previous, handled), "previd") == previous
    ensures ParseUint(AttrOr(ResumeNode(previous, handled), "h"), UINT32_SIZE) == Ok(handled)
  {
    var one := SetAttrIn([], Name("", "previd"), previous);
    SetAttrReads([], Name("", "previd"), previous, Name("", "previd"));
    SetAttrReads(one, Name("", "h"), Format(handled, 10), Name("", "h"));
    SetAttrReads(one, Name("", "h"), Format(handled, 10), Name("", "previd"));
    ParseUintFormat(handled, UINT32_SIZE);
  }

  /** The answer to a request carries the count of stanzas received, as a decimal that reads back. */
  lemma RequestAnswered(s: Sm)
    requires s.enabled
    ensures OnElement(s, NewNode(SM_NS, "r")) == (s, Answer(AckNode(s.inbound)))
    ensures ParseUint(AttrOr(AckNode(s.inbound), "h"), UINT32_SIZE) == Ok(s.inbound)
  {
    SetAttrReads([], Name("", "h"), Format(s.inbound, 10), Name("", "h"));
    ParseUintFormat(s.inbound, UINT32_SIZE);
  }

  // What each element does, for every state and every element

  /** Only acknowledgements and resumptions change the state; a refused resumption leaves the queue alone. */
  lemma OthersLeaveState(s: Sm, n: Node)
    requires !(n.name.space == SM_NS && n.name.local in {"a", "resumed"})
    ensures OnElement(s, n).0 == s
  {
  }

  /** Which elements are answered, applied, refused or passed over. */
  lemma Reactions(s: Sm, n: Node)
    ensures var reaction := OnElement(s, n).1;
            var ours, count := n.name.space == SM_NS, ParseUint(AttrOr(n, "h"), UINT32_SIZE);
            && (reaction.Answer? <==> ours && n.name.local == "r" && s.enabled)
            && (reaction.Answer? ==> reaction.node == AckNode(s.inbound))
            && (reaction.Acknowledged? <==> ours && n.name.local == "a" && count.Ok?)
            && (reaction.BadAck? <==> ours && n.name.local == "a" && count.Err?)
            && (reaction.Resumed? <==> ours && n.name.local == "resumed")
            && (reaction.Failed? <==> ours && n.name.local == "failed")
  {
  }

  /** An acknowledgement that does not carry a 32-bit count changes nothing. */
  lemma BadAckLeavesState(s: Sm, n: Node)
    ensures OnElement(s, n).1.BadAck? ==> OnElement(s, n).0 == s
  {
  }

  /** A resumption without a readable count keeps the queue it can: as for count zero, or the largest one. */
  lemma ResumedCount(s: Sm, n: Node)
    requires n.name == Name(SM_NS, "resumed")
    ensures var t, text := OnElement(s, n).0, AttrOr(n, "h");
            && t.enabled && t.id == AttrOr(n, "previd") && t.inbound == s.inbound && t.outbound == s.outbound
            && t.acked == (if !IsNumeral(text, 10) then 0
                           else if Value(text, 10) < UINT32_SIZE then Value(text, 10) else UINT32_SIZE - 1)
            && t.unacked == ApplyAck(s, t.acked).unacked
  {
  }

  /** Before stream management is on, nothing is counted and nothing queued. */
  lemma DisabledCountsNothing(s: Sm, x: Stanza)
    requires !s.enabled
    ensures OnSent(s, x) == s && OnReceived(s) == s && OnElement(s, NewNode(SM_NS, "r")) == (s, Quiet)
  {
  }

  /** The offered resumption is taken as on for "true" and "1" alone. */
  lemma EnabledResume(n: Node)
    ensures ParseEnabled(n).resume <==> AttrOr(n, "resume") in {"true", "1"}
  {
  }

  // One acknowledgement

  /** The queue is everything sent from the from-th stanza on, and the counters wrap the true counts. */
  predicate Tracks(s: Sm, sent: seq<Stanza>, from: nat, confirmed: nat) {
    && from <= |sent|
    && s.unacked == sent[from..]
    && s.outbound == Wrap(|sent|)
    && s.acked == Wrap(confirmed)
  }

  /**
   * An acknowledgement of the true count c leaves the queue at exactly the stanzas after c if and
   * only if fewer than 2^32 of them were newly confirmed.
   */
  lemma AckExact(s: Sm, sent: seq<Stanza>, confirmed: nat, c: nat)
    requires Tracks(s, sent, confirmed, confirmed)
    requires confirmed <= c <= |sent|
    ensures Tracks(ApplyAck(s, Wrap(c)), sent, c, c) <==> c - confirmed < UINT32_SIZE
  {
    WrapMinus(c, confirmed);
    var d := Dropped(s, Wrap(c));
    assert d == (c - confirmed) % UINT32_SIZE;
    assert ApplyAck(s, Wrap(c)).unacked == sent[confirmed + d..];
    if c - confirmed >= UINT32_SIZE {
      assert d < c - confirmed;
      assert |sent[confirmed + d..]| != |sent[c..]|;
    }
  }

  /**
   * The general case, when the sender may have recorded fewer stanzas than it wrote, so that the
   * count c may run ahead of the record: the queue never skips past the stanza numbered c.
   */
  lemma AckSafe(s: Sm, sent: seq<Stanza>, from: nat, confirmed: nat, c: nat)
    requires Tracks(s, sent, from, confirmed)
    requires from <= confirmed <= c && c - confirmed < UINT32_SIZE
    ensures var t := ApplyAck(s, Wrap(c));
            var to := if from + (c - confirmed) <= |sent| then from + (c - confirmed) else |sent|;
            to <= c && Tracks(t, sent, to, c) && |sent| - |t.unacked| == to
  {
    WrapMinus(c, confirmed);
  }

  // The object itself

  /** The plugin's state, updated in place by its three event handlers. */
  class Tracker {
    var enabled: bool
    var resume: bool
    var id: string
    var location: string
    var max: int64
    var inbound: uint32
    var outbound: uint32
    var acked: uint32
    var unacked: seq<Stanza>

    function State(): Sm
      reads this
    {
      Sm(enabled, resume, id, location, max, inbound, outbound, acked, unacked)
    }

    /** NewStreamManagement: everything at its zero value. */
    constructor ()
      ensures State() == Sm(false, false, "", "", 0, 0, 0, 0, [])
    {
      enabled, resume, id, location, max := false, false, "", "", 0;
      inbound, outbound, acked, unacked := 0, 0, 0, [];
    }

    /** The last step of Enable. */
    method Install(n: Node)
      modifies this
      ensures State() == ParseEnabled(n)
    {
      var s := ParseEnabled(n);
      enabled, resume, id, location, max := true, s.resume, s.id, s.location, s.max;
      inbound, outbound, acked, unacked := 0, 0, 0, [];
    }

    method Sent(x: Stanza)
      modifies this`outbound, this`unacked
      ensures State() == OnSent(old(State()), x)
    {
      if enabled {
        outbound := if outbound == 0xffff_ffff then 0 else outbound + 1;
        unacked := unacked + [x];
      }
    }

    method Received()
      modifies this`inbound
      ensures State() == OnReceived(old(State()))
    {
      if enabled {
        inbound := if inbound == 0xffff_ffff then 0 else inbound + 1;
      }
    }

    method Ack(h: uint32)
      modifies this`acked, this`unacked
      ensures State() == ApplyAck(old(State()), h)
    {
      var delta: nat := if h >= acked then h - acked else h + 0x1_0000_0000 - acked;
      if delta > |unacked| {
        delta := |unacked|;
      }
      if delta > 0 {
        unacked := unacked[delta..];
      }
      acked := h;
    }

    /** The answer to an accepted offer to resume. */
    method Resumption(h: uint32, previous: string)
      modifies this`enabled, this`id, this`acked, this`unacked
      ensures State() == ApplyAck(old(State()), h).(enabled := true, id := previous)
    {
      Ack(h);
      enabled := true;
      id := previous;
    }

    method Element(n: Node) returns (reaction: Reaction)
      modifies this
      ensures (State(), reaction) == OnElement(old(State()), n)
    {
      reaction := Quiet;
      if n.name.space != SM_NS {
        return;
      }
      if n.name.local == "r" {
        if enabled {
          reaction := Answer(AckNode(inbound));
        }
      } else if n.name.local == "a" {
        var h := ParseUint(AttrOr(n, "h"), UINT32_SIZE);
        if h.Err? {
          return BadAck;
        }
        Ack(h.value);
        reaction := Acknowledged;
      } else if n.name.local == "resumed" {
        Resumption(ParseLoose(AttrOr(n, "h")), AttrOr(n, "previd"));
        reaction := Resumed;
      } else if n.name.local == "failed" {
        reaction := Failed;
      }
    }
  }
}
