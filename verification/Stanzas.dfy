/** Messages, presences and IQs: the elements they print to, and what parsing those gives back. */
module Stanzas {
  import opened Wrappers
  import opened Numerals
  import opened XmlTree
  import T = Text

  const XML_NS := "http://www.w3.org/XML/1998/namespace"
  const ERROR_NS := "urn:ietf:params:xml:ns:xmpp-stanzas"

  datatype LangText = LangText(lang: string, value: string)

  /** A text that may come in several languages: the main value beside the list of all of them. */
  datatype Localized = Localized(main: string, all: seq<LangText>)

  datatype StanzaError = StanzaError(kind: string, origin: string, condition: string, text: string, application: seq<Node>)

  datatype Message = Message(
    from: string, to: string, id: string, kind: string, lang: string, subject: Localized, body: Localized,
    thread: string, parent: string, extensions: seq<Node>, error: Option<StanzaError>)

  datatype Presence = Presence(
    from: string, to: string, id: string, kind: string, lang: string, show: string, status: Localized,
    priority: Option<int64>, extensions: seq<Node>, error: Option<StanzaError>)

  datatype Iq = Iq(from: string, to: string, id: string, kind: string, payloads: seq<Node>, error: Option<StanzaError>)

  datatype Stanza = MessageStanza(message: Message) | PresenceStanza(presence: Presence) | IqStanza(iq: Iq)

  // Elements and attributes

  function StanzaAttrs(from: string, to: string, id: string, kind: string, lang: string): seq<Attr> {
    Optional(Name("", "from"), from) + Optional(Name("", "to"), to) + Optional(Name("", "id"), id)
    + Optional(Name("", "type"), kind) + Optional(Name(XML_NS, "lang"), lang)
  }

  function AttrNSOr(n: Node, space: string, local: string): string {
    match AttrValueNS(n.attrs, Name(space, local))
    case Some(v) => v
    case None => ""
  }

  lemma StanzaAttrsRead(from: string, to: string, id: string, kind: string, lang: string, name: Name)
    ensures AttrValueNS(StanzaAttrs(from, to, id, kind, lang), name) ==
            var v := if name == Name("", "from") then from else if name == Name("", "to") then to
                     else if name == Name("", "id") then id else if name == Name("", "type") then kind
                     else if name == Name(XML_NS, "lang") then lang else "";
            if v == "" then None else Some(v)
  {
    var a, b, c := Optional(Name("", "from"), from), Optional(Name("", "to"), to), Optional(Name("", "id"), id);
    var d, e := Optional(Name("", "type"), kind), Optional(Name(XML_NS, "lang"), lang);
    AttrConcat(a + b + c + d, e, name);
    AttrConcat(a + b + c, d, name);
    AttrConcat(a + b, c, name);
    AttrConcat(a, b, name);
    OptionalReads(Name("", "from"), from, name);
    OptionalReads(Name("", "to"), to, name);
    OptionalReads(Name("", "id"), id, name);
    OptionalReads(Name("", "type"), kind, name);
    OptionalReads(Name(XML_NS, "lang"), lang, name);
  }

  // Localized texts

  function LangElement(local: string, v: LangText): Node {
    TextElement("", local, Optional(Name(XML_NS, "lang"), v.lang), v.value)
  }

  function LangOf(n: Node): LangText {
    LangText(AttrNSOr(n, XML_NS, "lang"), TextOf(n.parts))
  }

  function Without(all: seq<LangText>, v: LangText): seq<LangText> {
    if all == [] then []
    else (if all[0] == v then [] else [all[0]]) + Without(all[1..], v)
  }

  /** The texts written out: the main one first, then the others. */
  function Written(l: Localized): seq<LangText> {
    (if l.main == "" then [] else [LangText("", l.main)]) + Without(l.all, LangText("", l.main))
  }

  function LangElements(local: string, vs: seq<LangText>): seq<Node> {
    seq(|vs|, i requires 0 <= i < |vs| => LangElement(local, vs[i]))
  }

  /** The first non-empty value without a language. */
  function FirstPlain(vs: seq<LangText>): string {
    if vs == [] then ""
    else if vs[0].lang == "" && vs[0].value != "" then vs[0].value
    else FirstPlain(vs[1..])
  }

  function NormLocalized(l: Localized): Localized {
    Localized(FirstPlain(Written(l)), Written(l))
  }

  /** One more text, as the parser takes it in. */
  function Localize(l: Localized, v: LangText): Localized {
    Localized(if v.lang == "" && l.main == "" then v.value else l.main, l.all + [v])
  }

  lemma LangElementReads(local: string, v: LangText)
    ensures Norm(LangElement(local, v)) == LangElement(local, v)
    ensures LangOf(LangElement(local, v)) == v
  {
    TextElementReads("", local, Optional(Name(XML_NS, "lang"), v.lang), v.value);
    OptionalReads(Name(XML_NS, "lang"), v.lang, Name(XML_NS, "lang"));
  }

  function LocalizeAll(l: Localized, vs: seq<LangText>): Localized
    decreases |vs|
  {
    if vs == [] then l else LocalizeAll(Localize(l, vs[0]), vs[1..])
  }

  lemma {:induction false} LocalizeAllIs(l: Localized, vs: seq<LangText>)
    ensures LocalizeAll(l, vs) == Localized(if l.main != "" then l.main else FirstPlain(vs), l.all + vs)
    decreases |vs|
  {
    if vs != [] {
      LocalizeAllIs(Localize(l, vs[0]), vs[1..]);
      assert l.all + [vs[0]] + vs[1..] == l.all + vs;
    } else {
      assert l.all + [] == l.all;
    }
  }

  lemma {:induction false} WithoutMembers(all: seq<LangText>, v: LangText)
    ensures v !in Without(all, v)
    ensures v !in all ==> Without(all, v) == all
  {
    if all != [] {
      WithoutMembers(all[1..], v);
      assert all == [all[0]] + all[1..];
    }
  }

  lemma {:induction false} FirstPlainIn(vs: seq<LangText>)
    ensures FirstPlain(vs) != "" ==> LangText("", FirstPlain(vs)) in vs
  {
    if vs != [] && !(vs[0].lang == "" && vs[0].value != "") {
      FirstPlainIn(vs[1..]);
    }
  }

  /**
   * When normalising settles at once: the main text is set, or no text lacks a language, or the
   * first text lacks one and occurs only there.
   */
  predicate Settled(l: Localized) {
    var kept := Written(l);
    || l.main != ""
    || FirstPlain(kept) == ""
    || (kept[0] == LangText("", FirstPlain(kept)) && kept[0] !in kept[1..])
  }

  lemma WrittenLead(l: Localized)
    requires l.main != ""
    ensures Written(l)[0] == LangText("", l.main) && FirstPlain(Written(l)) == l.main
    ensures Written(l)[0] !in Written(l)[1..]
  {
    var x := LangText("", l.main);
    WithoutMembers(l.all, x);
    assert Written(l)[1..] == Without(l.all, x);
  }

  /** Rewriting a list leaves it alone exactly when its main text leads it and occurs only there. */
  lemma RewriteFixedIff(kept: seq<LangText>, v: string)
    requires v != "" && kept != []
    ensures Written(Localized(v, kept)) == kept <==> kept[0] == LangText("", v) && kept[0] !in kept[1..]
  {
    var x := LangText("", v);
    WithoutMembers(kept, x);
    WithoutMembers(kept[1..], x);
    var again := Written(Localized(v, kept));
    assert again == [x] + Without(kept, x);
    if kept[0] == x && kept[0] !in kept[1..] {
      assert Without(kept, x) == kept[1..];
      assert again == kept;
    }
    if again == kept {
      assert kept[1..] == Without(kept, x);
    }
  }

  /** The normal form is a fixed point of normalising exactly in the settled cases. */
  lemma NormLocalizedFixedIff(l: Localized)
    ensures NormLocalized(NormLocalized(l)) == NormLocalized(l) <==> Settled(l)
  {
    var kept := Written(l);
    var v := FirstPlain(kept);
    if l.main != "" {
      WrittenLead(l);
      RewriteFixedIff(kept, v);
    } else if v == "" {
      WithoutMembers(l.all, LangText("", ""));
      WithoutMembers(kept, LangText("", ""));
      assert Written(NormLocalized(l)) == kept;
    } else {
      FirstPlainIn(kept);
      RewriteFixedIff(kept, v);
    }
  }

  /** Two trips always settle. */
  lemma NormLocalizedTwice(l: Localized)
    ensures Settled(NormLocalized(l))
    ensures NormLocalized(NormLocalized(NormLocalized(l))) == NormLocalized(NormLocalized(l))
  {
    if FirstPlain(Written(l)) == "" {
      NormLocalizedFixedIff(l);
      assert Settled(l) || l.main == "";
      if l.main != "" {
        WrittenLead(l);
      }
      assert NormLocalized(NormLocalized(l)) == NormLocalized(l);
    }
    NormLocalizedFixedIff(NormLocalized(l));
  }

  /** The second trip moves a late language-less text to the front. */
  lemma NormLocalizedMoves()
    ensures var l := Localized("", [LangText("de", "b"), LangText("", "a")]);
            && NormLocalized(l).all == [LangText("de", "b"), LangText("", "a")]
            && NormLocalized(NormLocalized(l)).all == [LangText("", "a"), LangText("de", "b")]
  {
    var x, y := LangText("de", "b"), LangText("", "a");
    var l := Localized("", [x, y]);
    WithoutMembers([x, y], LangText("", ""));
    assert [x, y][1..] == [y] && [y][1..] == [];
    assert Written(l) == [x, y];
    assert FirstPlain([x, y]) == "a";
    assert Without([y], y) == [] + Without([], y);
    assert Without([x, y], y) == [x] + Without([y], y);
  }

  // Errors

  function ErrorHead(e: StanzaError): seq<Node> {
    (if e.condition == "" then [] else [NewNode(ERROR_NS, e.condition)])
    + if e.text == "" then [] else [NewTextNode(ERROR_NS, "text", e.text)]
  }

  function ErrorChildren(e: StanzaError): seq<Node> {
    ErrorHead(e) + e.application
  }

  function ErrorElement(e: StanzaError): Node {
    Element("", "error", [Attr(Name("", "type"), e.kind)] + Optional(Name("", "by"), e.origin), ErrorChildren(e))
  }

  function ErrorStep(e: StanzaError, c: Node): StanzaError {
    if c.name.space != ERROR_NS then e.(application := e.application + [c])
    else if c.name.local == "text" then e.(text := TextOf(c.parts))
    else e.(condition := c.name.local)
  }

  function ParseError(n: Node): StanzaError {
    Fold(ErrorStep, StanzaError(AttrOr(n, "type"), AttrOr(n, "by"), "", "", []), ChildrenOf(n.parts))
  }

  /** The text of the last text child in the error namespace. */
  function LastText(cs: seq<Node>): string {
    if cs == [] then ""
    else
      var c := cs[|cs| - 1];
      if c.name.space == ERROR_NS && c.name.local == "text" then TextOf(c.parts) else LastText(cs[..|cs| - 1])
  }

  /** The name of the last other child in the error namespace. */
  function LastCondition(cs: seq<Node>): string {
    if cs == [] then ""
    else
      var c := cs[|cs| - 1];
      if c.name.space == ERROR_NS && c.name.local != "text" then c.name.local else LastCondition(cs[..|cs| - 1])
  }

  function Outside(cs: seq<Node>): seq<Node> {
    if cs == [] then []
    else Outside(cs[..|cs| - 1]) + (if cs[|cs| - 1].name.space != ERROR_NS then [cs[|cs| - 1]] else [])
  }

  function NormError(e: StanzaError): StanzaError {
    var cs := NormAll(ErrorChildren(e));
    StanzaError(e.kind, e.origin, LastCondition(cs), LastText(cs), Outside(cs))
  }

  lemma {:induction false} ErrorFoldIs(e: StanzaError, cs: seq<Node>)
    requires e.condition == "" && e.text == "" && e.application == []
    ensures Fold(ErrorStep, e, cs) == StanzaError(e.kind, e.origin, LastCondition(cs), LastText(cs), Outside(cs))
    decreases |cs|
  {
    if cs != [] {
      var front, last := cs[..|cs| - 1], cs[|cs| - 1];
      ErrorFoldIs(e, front);
      FoldConcat(ErrorStep, e, front, [last]);
      FoldOne(ErrorStep, Fold(ErrorStep, e, front), last);
      assert cs == front + [last];
    }
  }

  lemma ErrorReads(e: StanzaError)
    ensures ParseError(Norm(ErrorElement(e))) == NormError(e)
  {
    var attrs := [Attr(Name("", "type"), e.kind)] + Optional(Name("", "by"), e.origin);
    ReadChildren("", "error", attrs, ErrorChildren(e));
    assert attrs[1..] == Optional(Name("", "by"), e.origin);
    OptionalReads(Name("", "by"), e.origin, Name("", "by"));
    ErrorFoldIs(StanzaError(e.kind, e.origin, "", "", []), NormAll(ErrorChildren(e)));
  }

  /** An error that does not misuse the error namespace comes back as it was. */
  predicate Ordinary(e: StanzaError) {
    e.condition != "text" && forall a :: a in e.application ==> a.name.space != ERROR_NS
  }

  lemma NewTextNodeNormal(space: string, local: string, value: string)
    ensures Norm(NewTextNode(space, local, value)) == NewTextNode(space, local, value)
    ensures TextOf(NewTextNode(space, local, value).parts) == value
  {
    TextElementReads("", local, [], value);
    assert NewTextNode(space, local, value).parts == TextElement("", local, [], value).parts;
    assert Norm(NewTextNode(space, local, value)).parts == Norm(TextElement("", local, [], value)).parts;
  }

  lemma ErrorChildrenNormal(e: StanzaError)
    ensures NormAll(ErrorChildren(e)) == ErrorHead(e) + NormAll(e.application)
  {
    NewTextNodeNormal(ERROR_NS, "text", e.text);
    assert forall n :: n in ErrorHead(e) ==> Norm(n) == n;
    NormAllFixed(ErrorHead(e));
    NormAllConcat(ErrorHead(e), e.application);
  }

  lemma ErrorHeadReads(e: StanzaError)
    requires e.condition != "text"
    ensures var start := StanzaError(e.kind, e.origin, "", "", []);
            Fold(ErrorStep, start, ErrorHead(e)) == e.(application := [])
  {
    var start := StanzaError(e.kind, e.origin, "", "", []);
    var cond, text := NewNode(ERROR_NS, e.condition), NewTextNode(ERROR_NS, "text", e.text);
    NewTextNodeNormal(ERROR_NS, "text", e.text);
    var first := if e.condition == "" then [] else [cond];
    FoldConcat(ErrorStep, start, first, if e.text == "" then [] else [text]);
    FoldOne(ErrorStep, start, cond);
    FoldOne(ErrorStep, start.(condition := e.condition), text);
  }

  lemma NormErrorOrdinary(e: StanzaError)
    requires Ordinary(e)
    ensures NormError(e) == e.(application := NormAll(e.application))
  {
    var start, apps := StanzaError(e.kind, e.origin, "", "", []), NormAll(e.application);
    ErrorChildrenNormal(e);
    ErrorFoldIs(start, ErrorHead(e) + apps);
    FoldConcat(ErrorStep, start, ErrorHead(e), apps);
    ErrorHeadReads(e);
    var put := (c: seq<Node>) => e.(application := c);
    forall c: seq<Node>, i | 0 <= i < |apps|
      ensures ErrorStep(put(c), apps[i]) == put(c + [apps[i]])
    {
      assert e.application[i] in e.application;
    }
    FoldCollects(ErrorStep, put, [], apps, apps);
    assert [] + apps == apps;
  }

  lemma {:induction false} OutsideMembers(cs: seq<Node>)
    ensures forall a :: a in Outside(cs) ==> a in cs && a.name.space != ERROR_NS
    ensures LastCondition(cs) != "text"
    decreases |cs|
  {
    if cs != [] {
      OutsideMembers(cs[..|cs| - 1]);
    }
  }

  lemma NormErrorIdempotent(e: StanzaError)
    ensures NormError(NormError(e)) == NormError(e)
  {
    var cs := NormAll(ErrorChildren(e));
    OutsideMembers(cs);
    var f := NormError(e);
    NormErrorOrdinary(f);
    forall a | a in f.application
      ensures Norm(a) == a
    {
      var i :| 0 <= i < |cs| && cs[i] == a;
      NormIdempotent(ErrorChildren(e)[i]);
    }
    NormAllFixed(f.application);
  }

  function ErrorElements(e: Option<StanzaError>): seq<Node> {
    match e
    case Some(error) => [ErrorElement(error)]
    case None => []
  }

  function NormErrorOption(e: Option<StanzaError>): Option<StanzaError> {
    match e
    case Some(error) => Some(NormError(error))
    case None => None
  }

  // Messages

  function ThreadElements(m: Message): seq<Node> {
    if m.thread == "" then [] else [TextElement("", "thread", Optional(Name("", "parent"), m.parent), m.thread)]
  }

  function MessageElement(m: Message): Node {
    Element("", "message", StanzaAttrs(m.from, m.to, m.id, m.kind, m.lang),
            LangElements("subject", Written(m.subject)) + LangElements("body", Written(m.body)) + ThreadElements(m)
            + m.extensions + ErrorElements(m.error))
  }

  function MessageStep(m: Message, c: Node): Message {
    if c.name.local == "subject" then m.(subject := Localize(m.subject, LangOf(c)))
    else if c.name.local == "body" then m.(body := Localize(m.body, LangOf(c)))
    else if c.name.local == "thread" then m.(thread := TextOf(c.parts), parent := AttrOr(c, "parent"))
    else if c.name.local == "error" then m.(error := Some(ParseError(c)))
    else m.(extensions := m.extensions + [c])
  }

  function ParseMessage(n: Node): Message {
    Fold(MessageStep,
      Message(AttrOr(n, "from"), AttrOr(n, "to"), AttrOr(n, "id"), AttrOr(n, "type"), AttrNSOr(n, XML_NS, "lang"),
              Localized("", []), Localized("", []), "", "", [], None),
      ChildrenOf(n.parts))
  }

  function NormMessage(m: Message): Message {
    m.(subject := NormLocalized(m.subject), body := NormLocalized(m.body),
       parent := if m.thread == "" then "" else m.parent,
       extensions := NormAll(m.extensions), error := NormErrorOption(m.error))
  }

  const MESSAGE_RESERVED := {"subject", "body", "thread", "error"}

  predicate Unreserved(ns: seq<Node>, reserved: set<string>) {
    forall n :: n in ns ==> n.name.local !in reserved
  }

  lemma {:induction false} MessageFoldSubjects(m: Message, vs: seq<LangText>)
    ensures Fold(MessageStep, m, LangElements("subject", vs)) == m.(subject := LocalizeAll(m.subject, vs))
    decreases |vs|
  {
    if vs != [] {
      var cs := LangElements("subject", vs);
      LangElementReads("subject", vs[0]);
      assert cs[1..] == LangElements("subject", vs[1..]);
      MessageFoldSubjects(MessageStep(m, cs[0]), vs[1..]);
    }
  }

  lemma {:induction false} MessageFoldBodies(m: Message, vs: seq<LangText>)
    ensures Fold(MessageStep, m, LangElements("body", vs)) == m.(body := LocalizeAll(m.body, vs))
    decreases |vs|
  {
    if vs != [] {
      var cs := LangElements("body", vs);
      LangElementReads("body", vs[0]);
      assert cs[1..] == LangElements("body", vs[1..]);
      MessageFoldBodies(MessageStep(m, cs[0]), vs[1..]);
    }
  }

  lemma {:induction false} MessageFoldExtensions(m: Message, ns: seq<Node>)
    requires Unreserved(ns, MESSAGE_RESERVED)
    ensures Fold(MessageStep, m, ns) == m.(extensions := m.extensions + ns)
    decreases |ns|
  {
    if ns != [] {
      assert ns[0] in ns;
      MessageFoldExtensions(MessageStep(m, ns[0]), ns[1..]);
      assert m.extensions + [ns[0]] + ns[1..] == m.extensions + ns;
    } else {
      assert m.extensions + ns == m.extensions;
    }
  }

  lemma LangElementsNormal(local: string, vs: seq<LangText>)
    ensures NormAll(LangElements(local, vs)) == LangElements(local, vs)
  {
    forall i | 0 <= i < |vs|
      ensures Norm(LangElement(local, vs[i])) == LangElement(local, vs[i])
    {
      LangElementReads(local, vs[i]);
    }
  }

  lemma UnreservedNorm(ns: seq<Node>, reserved: set<string>)
    requires Unreserved(ns, reserved)
    ensures Unreserved(NormAll(ns), reserved)
  {
    forall n | n in NormAll(ns)
      ensures n.name.local !in reserved
    {
      var i :| 0 <= i < |ns| && NormAll(ns)[i] == n;
      assert ns[i] in ns;
    }
  }

  lemma ThreadReads(m: Message, acc: Message)
    requires acc.thread == "" && acc.parent == ""
    ensures Fold(MessageStep, acc, NormAll(ThreadElements(m)))
         == acc.(thread := m.thread, parent := if m.thread == "" then "" else m.parent)
  {
    if m.thread != "" {
      var attrs := Optional(Name("", "parent"), m.parent);
      var c := TextElement("", "thread", attrs, m.thread);
      TextElementReads("", "thread", attrs, m.thread);
      OptionalReads(Name("", "parent"), m.parent, Name("", "parent"));
      assert NormAll(ThreadElements(m)) == [c] && [c][1..] == [];
    }
  }

  lemma MessageErrorReads(e: Option<StanzaError>, acc: Message)
    requires acc.error.None?
    ensures Fold(MessageStep, acc, NormAll(ErrorElements(e))) == acc.(error := NormErrorOption(e))
  {
    if e.Some? {
      ErrorReads(e.value);
      var cs := NormAll(ErrorElements(e));
      assert cs == [Norm(ErrorElement(e.value))] && cs[1..] == [];
    }
  }

  /** Printing a message and parsing the element read back yields its normal form. */
  lemma MessageReads(m: Message)
    requires Unreserved(m.extensions, MESSAGE_RESERVED)
    ensures ParseMessage(Norm(MessageElement(m))) == NormMessage(m)
  {
    var subjects, bodies := LangElements("subject", Written(m.subject)), LangElements("body", Written(m.body));
    var threads, errors := ThreadElements(m), ErrorElements(m.error);
    var children := subjects + bodies + threads + m.extensions + errors;
    var attrs := StanzaAttrs(m.from, m.to, m.id, m.kind, m.lang);
    ReadChildren("", "message", attrs, children);
    MessageAttrsRead(m);
    var m0 := Message(m.from, m.to, m.id, m.kind, m.lang, Localized("", []), Localized("", []), "", "", [], None);
    NormAllConcat(subjects + bodies + threads + m.extensions, errors);
    NormAllConcat(subjects + bodies + threads, m.extensions);
    NormAllConcat(subjects + bodies, threads);
    NormAllConcat(subjects, bodies);
    LangElementsNormal("subject", Written(m.subject));
    LangElementsNormal("body", Written(m.body));
    MessageSegments(m, m0, subjects, bodies, NormAll(threads), NormAll(m.extensions), NormAll(errors));
  }

  lemma MessageAttrsRead(m: Message)
    ensures var n := Norm(MessageElement(m));
            AttrOr(n, "from") == m.from && AttrOr(n, "to") == m.to && AttrOr(n, "id") == m.id
            && AttrOr(n, "type") == m.kind && AttrNSOr(n, XML_NS, "lang") == m.lang
  {
    StanzaAttrsRead(m.from, m.to, m.id, m.kind, m.lang, Name("", "from"));
    StanzaAttrsRead(m.from, m.to, m.id, m.kind, m.lang, Name("", "to"));
    StanzaAttrsRead(m.from, m.to, m.id, m.kind, m.lang, Name("", "id"));
    StanzaAttrsRead(m.from, m.to, m.id, m.kind, m.lang, Name("", "type"));
    StanzaAttrsRead(m.from, m.to, m.id, m.kind, m.lang, Name(XML_NS, "lang"));
  }

  lemma MessageSegments(m: Message, m0: Message, subjects: seq<Node>, bodies: seq<Node>, threads: seq<Node>,
                        extensions: seq<Node>, errors: seq<Node>)
    requires m0 == Message(m.from, m.to, m.id, m.kind, m.lang, Localized("", []), Localized("", []), "", "", [], None)
    requires subjects == LangElements("subject", Written(m.subject)) && bodies == LangElements("body", Written(m.body))
    requires threads == NormAll(ThreadElements(m)) && errors == NormAll(ErrorElements(m.error))
    requires extensions == NormAll(m.extensions) && Unreserved(m.extensions, MESSAGE_RESERVED)
    ensures Fold(MessageStep, m0, subjects + bodies + threads + extensions + errors) == NormMessage(m)
  {
    FoldConcat(MessageStep, m0, subjects + bodies + threads + extensions, errors);
    FoldConcat(MessageStep, m0, subjects + bodies + threads, extensions);
    FoldConcat(MessageStep, m0, subjects + bodies, threads);
    var m2 := m0.(subject := NormLocalized(m.subject), body := NormLocalized(m.body));
    MessageTexts(m, m0, subjects, bodies);
    ThreadReads(m, m2);
    var m3 := m2.(thread := m.thread, parent := if m.thread == "" then "" else m.parent);
    UnreservedNorm(m.extensions, MESSAGE_RESERVED);
    MessageFoldExtensions(m3, extensions);
    assert m3.extensions + extensions == extensions;
    MessageErrorReads(m.error, m3.(extensions := extensions));
  }

  lemma MessageTexts(m: Message, m0: Message, subjects: seq<Node>, bodies: seq<Node>)
    requires m0.subject == m0.body == Localized("", [])
    requires subjects == LangElements("subject", Written(m.subject)) && bodies == LangElements("body", Written(m.body))
    ensures Fold(MessageStep, m0, subjects + bodies)
         == m0.(subject := NormLocalized(m.subject), body := NormLocalized(m.body))
  {
    var none := Localized("", []);
    FoldConcat(MessageStep, m0, subjects, bodies);
    MessageFoldSubjects(m0, Written(m.subject));
    MessageFoldBodies(Fold(MessageStep, m0, subjects), Written(m.body));
    LocalizeAllIs(none, Written(m.subject));
    LocalizeAllIs(none, Written(m.body));
    assert none.all + Written(m.subject) == Written(m.subject) && none.all + Written(m.body) == Written(m.body);
  }

  /** Normalising a message settles at once exactly when both its texts do. */
  lemma NormMessageFixedIff(m: Message)
    ensures NormMessage(NormMessage(m)) == NormMessage(m) <==> Settled(m.subject) && Settled(m.body)
  {
    NormLocalizedFixedIff(m.subject);
    NormLocalizedFixedIff(m.body);
    NormAllIdempotent(m.extensions);
    if m.error.Some? {
      NormErrorIdempotent(m.error.value);
    }
  }

  /** For every message the second trip reaches a fixed point. */
  lemma NormMessageTwice(m: Message)
    ensures NormMessage(NormMessage(NormMessage(m))) == NormMessage(NormMessage(m))
  {
    NormLocalizedTwice(m.subject);
    NormLocalizedTwice(m.body);
    NormMessageFixedIff(NormMessage(m));
  }

  // Presences

  predicate PriorityInRange(p: Presence) {
    p.priority.Some? ==> -128 <= p.priority.value <= 127
  }

  function ShowElements(p: Presence): seq<Node> {
    if p.show == "" then [] else [TextElement("", "show", [], p.show)]
  }

  function PriorityElements(p: Presence): seq<Node> {
    match p.priority
    case Some(v) => [TextElement("", "priority", [], Itoa(v))]
    case None => []
  }

  function PresenceElement(p: Presence): Node {
    Element("", "presence", StanzaAttrs(p.from, p.to, p.id, p.kind, p.lang),
            ShowElements(p) + LangElements("status", Written(p.status)) + PriorityElements(p) + p.extensions
            + ErrorElements(p.error))
  }

  function PresenceStep(p: Presence, c: Node): Presence {
    if c.name.local == "show" then p.(show := TextOf(c.parts))
    else if c.name.local == "status" then p.(status := Localize(p.status, LangOf(c)))
    else if c.name.local == "priority" then
      (match Atoi(T.TrimSpace(TextOf(c.parts)))
       case Ok(v) => p.(priority := Some(v))
       case Err(_) => p)
    else if c.name.local == "error" then p.(error := Some(ParseError(c)))
    else p.(extensions := p.extensions + [c])
  }

  function ParsePresence(n: Node): Presence {
    Fold(PresenceStep,
      Presence(AttrOr(n, "from"), AttrOr(n, "to"), AttrOr(n, "id"), AttrOr(n, "type"), AttrNSOr(n, XML_NS, "lang"),
               "", Localized("", []), None, [], None),
      ChildrenOf(n.parts))
  }

  function NormPresence(p: Presence): Presence {
    p.(status := NormLocalized(p.status), extensions := NormAll(p.extensions), error := NormErrorOption(p.error))
  }

  const PRESENCE_RESERVED := {"show", "status", "priority", "error"}

  lemma {:induction false} PresenceFoldStatuses(p: Presence, vs: seq<LangText>)
    ensures Fold(PresenceStep, p, LangElements("status", vs)) == p.(status := LocalizeAll(p.status, vs))
    decreases |vs|
  {
    if vs != [] {
      var cs := LangElements("status", vs);
      LangElementReads("status", vs[0]);
      assert cs[1..] == LangElements("status", vs[1..]);
      PresenceFoldStatuses(PresenceStep(p, cs[0]), vs[1..]);
    }
  }

  lemma {:induction false} PresenceFoldExtensions(p: Presence, ns: seq<Node>)
    requires Unreserved(ns, PRESENCE_RESERVED)
    ensures Fold(PresenceStep, p, ns) == p.(extensions := p.extensions + ns)
    decreases |ns|
  {
    if ns != [] {
      assert ns[0] in ns;
      PresenceFoldExtensions(PresenceStep(p, ns[0]), ns[1..]);
      assert p.extensions + [ns[0]] + ns[1..] == p.extensions + ns;
    } else {
      assert p.extensions + ns == p.extensions;
    }
  }

  lemma DigitsTrimmed(n: int)
    ensures T.TrimSpace(Itoa(n)) == Itoa(n)
  {
    var s := Itoa(n);
    var digits := Format(if n < 0 then -n else n, 10);
    assert DigitValue(digits[0]) < 10 && DigitValue(digits[|digits| - 1]) < 10;
    assert s[|s| - 1] == digits[|digits| - 1];
    T.TrimSpaceFixes(s);
  }

  lemma ShowReads(p: Presence, acc: Presence)
    requires acc.show == ""
    ensures Fold(PresenceStep, acc, NormAll(ShowElements(p))) == acc.(show := p.show)
  {
    if p.show != "" {
      TextElementReads("", "show", [], p.show);
      var cs := NormAll(ShowElements(p));
      assert cs == [TextElement("", "show", [], p.show)] && cs[1..] == [];
    }
  }

  lemma PriorityReads(p: Presence, acc: Presence)
    requires acc.priority.None?
    ensures Fold(PresenceStep, acc, NormAll(PriorityElements(p))) == acc.(priority := p.priority)
  {
    if p.priority.Some? {
      var text := Itoa(p.priority.value);
      TextElementReads("", "priority", [], text);
      DigitsTrimmed(p.priority.value);
      AtoiItoa(p.priority.value);
      var cs := NormAll(PriorityElements(p));
      assert cs == [TextElement("", "priority", [], text)] && cs[1..] == [];
    }
  }

  lemma PresenceErrorReads(e: Option<StanzaError>, acc: Presence)
    requires acc.error.None?
    ensures Fold(PresenceStep, acc, NormAll(ErrorElements(e))) == acc.(error := NormErrorOption(e))
  {
    if e.Some? {
      ErrorReads(e.value);
      var cs := NormAll(ErrorElements(e));
      assert cs == [Norm(ErrorElement(e.value))] && cs[1..] == [];
    }
  }

  lemma PresenceAttrsRead(p: Presence)
    ensures var n := Norm(PresenceElement(p));
            AttrOr(n, "from") == p.from && AttrOr(n, "to") == p.to && AttrOr(n, "id") == p.id
            && AttrOr(n, "type") == p.kind && AttrNSOr(n, XML_NS, "lang") == p.lang
  {
    StanzaAttrsRead(p.from, p.to, p.id, p.kind, p.lang, Name("", "from"));
    StanzaAttrsRead(p.from, p.to, p.id, p.kind, p.lang, Name("", "to"));
    StanzaAttrsRead(p.from, p.to, p.id, p.kind, p.lang, Name("", "id"));
    StanzaAttrsRead(p.from, p.to, p.id, p.kind, p.lang, Name("", "type"));
    StanzaAttrsRead(p.from, p.to, p.id, p.kind, p.lang, Name(XML_NS, "lang"));
  }

  lemma PresenceSegments(p: Presence, p0: Presence, shows: seq<Node>, statuses: seq<Node>, priorities: seq<Node>,
                         extensions: seq<Node>, errors: seq<Node>)
    requires p0 == Presence(p.from, p.to, p.id, p.kind, p.lang, "", Localized("", []), None, [], None)
    requires shows == NormAll(ShowElements(p)) && statuses == LangElements("status", Written(p.status))
    requires priorities == NormAll(PriorityElements(p)) && errors == NormAll(ErrorElements(p.error))
    requires extensions == NormAll(p.extensions) && Unreserved(p.extensions, PRESENCE_RESERVED)
    ensures Fold(PresenceStep, p0, shows + statuses + priorities + extensions + errors) == NormPresence(p)
  {
    FoldConcat(PresenceStep, p0, shows + statuses + priorities + extensions, errors);
    FoldConcat(PresenceStep, p0, shows + statuses + priorities, extensions);
    FoldConcat(PresenceStep, p0, shows + statuses, priorities);
    FoldConcat(PresenceStep, p0, shows, statuses);
    ShowReads(p, p0);
    var p1 := p0.(show := p.show);
    PresenceFoldStatuses(p1, Written(p.status));
    LocalizeAllIs(p1.status, Written(p.status));
    assert p1.status.all + Written(p.status) == Written(p.status);
    var p2 := p1.(status := NormLocalized(p.status));
    PriorityReads(p, p2);
    var p3 := p2.(priority := p.priority);
    UnreservedNorm(p.extensions, PRESENCE_RESERVED);
    PresenceFoldExtensions(p3, extensions);
    assert p3.extensions + extensions == extensions;
    PresenceErrorReads(p.error, p3.(extensions := extensions));
  }

  /** Printing a presence and parsing the element read back yields its normal form. */
  lemma PresenceReads(p: Presence)
    requires Unreserved(p.extensions, PRESENCE_RESERVED)
    ensures ParsePresence(Norm(PresenceElement(p))) == NormPresence(p)
  {
    var shows, statuses := ShowElements(p), LangElements("status", Written(p.status));
    var priorities, errors := PriorityElements(p), ErrorElements(p.error);
    var children := shows + statuses + priorities + p.extensions + errors;
    ReadChildren("", "presence", StanzaAttrs(p.from, p.to, p.id, p.kind, p.lang), children);
    PresenceAttrsRead(p);
    var p0 := Presence(p.from, p.to, p.id, p.kind, p.lang, "", Localized("", []), None, [], None);
    NormAllConcat(shows + statuses + priorities + p.extensions, errors);
    NormAllConcat(shows + statuses + priorities, p.extensions);
    NormAllConcat(shows + statuses, priorities);
    NormAllConcat(shows, statuses);
    LangElementsNormal("status", Written(p.status));
    PresenceSegments(p, p0, NormAll(shows), statuses, NormAll(priorities), NormAll(p.extensions), NormAll(errors));
  }

  lemma NormPresenceFixedIff(p: Presence)
    ensures NormPresence(NormPresence(p)) == NormPresence(p) <==> Settled(p.status)
  {
    NormLocalizedFixedIff(p.status);
    NormAllIdempotent(p.extensions);
    if p.error.Some? {
      NormErrorIdempotent(p.error.value);
    }
  }

  // IQs

  function IqElement(i: Iq): Node {
    Element("", "iq", StanzaAttrs(i.from, i.to, i.id, i.kind, ""), i.payloads + ErrorElements(i.error))
  }

  function IqStep(i: Iq, c: Node): Iq {
    if c.name.local == "error" then i.(error := Some(ParseError(c))) else i.(payloads := i.payloads + [c])
  }

  function ParseIq(n: Node): Iq {
    Fold(IqStep, Iq(AttrOr(n, "from"), AttrOr(n, "to"), AttrOr(n, "id"), AttrOr(n, "type"), [], None), ChildrenOf(n.parts))
  }

  function NormIq(i: Iq): Iq {
    i.(payloads := NormAll(i.payloads), error := NormErrorOption(i.error))
  }

  lemma {:induction false} IqFoldPayloads(i: Iq, ns: seq<Node>, errors: seq<Node>)
    requires Unreserved(ns, {"error"})
    ensures Fold(IqStep, i, ns + errors) == Fold(IqStep, i.(payloads := i.payloads + ns), errors)
    decreases |ns|
  {
    if ns == [] {
      assert ns + errors == errors && i.payloads + ns == i.payloads;
    } else {
      assert ns[0] in ns && (ns + errors)[1..] == ns[1..] + errors;
      IqFoldPayloads(IqStep(i, ns[0]), ns[1..], errors);
      assert i.payloads + [ns[0]] + ns[1..] == i.payloads + ns;
    }
  }

  /** Printing an IQ and parsing the element read back yields its normal form. */
  lemma IqReads(i: Iq)
    requires Unreserved(i.payloads, {"error"})
    ensures ParseIq(Norm(IqElement(i))) == NormIq(i)
  {
    var errors := ErrorElements(i.error);
    ReadChildren("", "iq", StanzaAttrs(i.from, i.to, i.id, i.kind, ""), i.payloads + errors);
    IqAttrsRead(i);
    NormAllConcat(i.payloads, errors);
    UnreservedNorm(i.payloads, {"error"});
    var i0 := Iq(i.from, i.to, i.id, i.kind, [], None);
    IqFoldPayloads(i0, NormAll(i.payloads), NormAll(errors));
    assert i0.payloads + NormAll(i.payloads) == NormAll(i.payloads);
    IqErrorReads(i.error, i0.(payloads := NormAll(i.payloads)));
  }

  lemma IqErrorReads(e: Option<StanzaError>, acc: Iq)
    requires acc.error.None?
    ensures Fold(IqStep, acc, NormAll(ErrorElements(e))) == acc.(error := NormErrorOption(e))
  {
    if e.Some? {
      ErrorReads(e.value);
      var cs := NormAll(ErrorElements(e));
      assert cs == [Norm(ErrorElement(e.value))] && cs[1..] == [];
    }
  }

  lemma IqAttrsRead(i: Iq)
    ensures var n := Norm(IqElement(i));
            AttrOr(n, "from") == i.from && AttrOr(n, "to") == i.to && AttrOr(n, "id") == i.id && AttrOr(n, "type") == i.kind
  {
    StanzaAttrsRead(i.from, i.to, i.id, i.kind, "", Name("", "from"));
    StanzaAttrsRead(i.from, i.to, i.id, i.kind, "", Name("", "to"));
    StanzaAttrsRead(i.from, i.to, i.id, i.kind, "", Name("", "id"));
    StanzaAttrsRead(i.from, i.to, i.id, i.kind, "", Name("", "type"));
  }

  lemma NormIqIdempotent(i: Iq)
    ensures NormIq(NormIq(i)) == NormIq(i)
  {
    NormAllIdempotent(i.payloads);
    if i.error.Some? {
      NormErrorIdempotent(i.error.value);
    }
  }

  // Any stanza, through the token stream

  function StanzaElement(s: Stanza): Node {
    match s
    case MessageStanza(m) => MessageElement(m)
    case PresenceStanza(p) => PresenceElement(p)
    case IqStanza(i) => IqElement(i)
  }

  function StanzaFromNode(n: Node): Option<Stanza> {
    if n.name.local == "message" then Some(MessageStanza(ParseMessage(n)))
    else if n.name.local == "presence" then Some(PresenceStanza(ParsePresence(n)))
    else if n.name.local == "iq" then Some(IqStanza(ParseIq(n)))
    else None
  }

  function NormStanza(s: Stanza): Stanza {
    match s
    case MessageStanza(m) => MessageStanza(NormMessage(m))
    case PresenceStanza(p) => PresenceStanza(NormPresence(p))
    case IqStanza(i) => IqStanza(NormIq(i))
  }

  /** What the marshallers check before or while they write. */
  predicate Printable(s: Stanza) {
    && Named(StanzaElement(s))
    && (s.PresenceStanza? ==> PriorityInRange(s.presence))
    && (s.IqStanza? ==> s.iq.id != "" && s.iq.kind != "")
  }

  predicate AllNamed(ns: seq<Node>) {
    forall i :: 0 <= i < |ns| ==> Named(ns[i])
  }

  predicate ErrorNamed(e: Option<StanzaError>) {
    e.Some? ==> AllNamed(e.value.application)
  }

  /** What a caller has to see to: named extensions, a small priority, and an IQ's id and type. */
  predicate Marshallable(s: Stanza) {
    match s
    case MessageStanza(m) => AllNamed(m.extensions) && ErrorNamed(m.error)
    case PresenceStanza(p) =>
      AllNamed(p.extensions) && ErrorNamed(p.error) && (p.priority.Some? ==> -128 <= p.priority.value <= 127)
    case IqStanza(i) => i.id != "" && i.kind != "" && AllNamed(i.payloads) && ErrorNamed(i.error)
  }

  lemma AllNamedConcat(a: seq<Node>, b: seq<Node>)
    ensures AllNamed(a + b) <==> AllNamed(a) && AllNamed(b)
  {
    assert forall i :: 0 <= i < |a| ==> a[i] == (a + b)[i];
    assert forall i :: 0 <= i < |b| ==> b[i] == (a + b)[|a| + i];
  }

  lemma ErrorElementNamed(e: Option<StanzaError>)
    ensures AllNamed(ErrorElements(e)) <==> ErrorNamed(e)
  {
    if e.Some? {
      var head := ErrorHead(e.value);
      NamedChildParts(ErrorChildren(e.value));
      AllNamedConcat(head, e.value.application);
      TextElementNamed("", "text", [], e.value.text);
      assert NewTextNode(ERROR_NS, "text", e.value.text).parts == TextElement("", "text", [], e.value.text).parts;
      assert Named(NewNode(ERROR_NS, e.value.condition)) || e.value.condition == "";
      assert Named(NewTextNode(ERROR_NS, "text", e.value.text));
      assert AllNamed(head);
      assert Named(ErrorElement(e.value)) <==> AllNamed(ErrorChildren(e.value));
      assert ErrorElements(e)[0] == ErrorElement(e.value);
    }
  }

  lemma LangElementsNamed(local: string, vs: seq<LangText>)
    requires local != ""
    ensures AllNamed(LangElements(local, vs))
  {
    forall i | 0 <= i < |vs|
      ensures Named(LangElements(local, vs)[i])
    {
      TextElementNamed("", local, Optional(Name(XML_NS, "lang"), vs[i].lang), vs[i].value);
    }
  }

  lemma MessageNamedIff(m: Message)
    ensures Named(MessageElement(m)) <==> AllNamed(m.extensions) && ErrorNamed(m.error)
  {
    var subjects, bodies := LangElements("subject", Written(m.subject)), LangElements("body", Written(m.body));
    var threads := ThreadElements(m);
    LangElementsNamed("subject", Written(m.subject));
    LangElementsNamed("body", Written(m.body));
    TextElementNamed("", "thread", Optional(Name("", "parent"), m.parent), m.thread);
    ErrorElementNamed(m.error);
    AllNamedConcat(subjects, bodies);
    AllNamedConcat(subjects + bodies, threads);
    AllNamedConcat(subjects + bodies + threads, m.extensions);
    AllNamedConcat(subjects + bodies + threads + m.extensions, ErrorElements(m.error));
    NamedChildParts(subjects + bodies + threads + m.extensions + ErrorElements(m.error));
  }

  lemma PresenceNamedIff(p: Presence)
    ensures Named(PresenceElement(p)) <==> AllNamed(p.extensions) && ErrorNamed(p.error)
  {
    var shows, statuses, priorities := ShowElements(p), LangElements("status", Written(p.status)), PriorityElements(p);
    LangElementsNamed("status", Written(p.status));
    TextElementNamed("", "show", [], p.show);
    TextElementNamed("", "priority", [], if p.priority.Some? then Itoa(p.priority.value) else "");
    ErrorElementNamed(p.error);
    AllNamedConcat(shows, statuses);
    AllNamedConcat(shows + statuses, priorities);
    AllNamedConcat(shows + statuses + priorities, p.extensions);
    AllNamedConcat(shows + statuses + priorities + p.extensions, ErrorElements(p.error));
    NamedChildParts(shows + statuses + priorities + p.extensions + ErrorElements(p.error));
  }

  lemma IqNamedIff(i: Iq)
    ensures Named(IqElement(i)) <==> AllNamed(i.payloads) && ErrorNamed(i.error)
  {
    ErrorElementNamed(i.error);
    AllNamedConcat(i.payloads, ErrorElements(i.error));
    NamedChildParts(i.payloads + ErrorElements(i.error));
  }

  /** Exactly the marshallable stanzas are printed; nothing the library adds itself is ever unnamed. */
  lemma PrintableIff(s: Stanza)
    ensures Printable(s) <==> Marshallable(s)
  {
    match s {
      case MessageStanza(m) => MessageNamedIff(m);
      case PresenceStanza(p) => PresenceNamedIff(p);
      case IqStanza(i) => IqNamedIff(i);
    }
  }

  // Which stanzas come back unchanged

  /** The list starts with the main text and has it once; without a main text no entry lacks a language. */
  predicate CanonicalText(l: Localized) {
    if l.main != "" then l.all != [] && l.all[0] == LangText("", l.main) && l.all[0] !in l.all[1..]
    else forall v :: v in l.all ==> v.lang != ""
  }

  lemma {:induction false} FirstPlainNone(vs: seq<LangText>)
    ensures FirstPlain(vs) == "" <==> forall v :: v in vs ==> v.lang != "" || v.value == ""
  {
    if vs != [] {
      FirstPlainNone(vs[1..]);
      assert forall v :: v in vs <==> v == vs[0] || v in vs[1..];
    }
  }

  lemma NormLocalizedIdentityIff(l: Localized)
    ensures NormLocalized(l) == l <==> CanonicalText(l)
  {
    var x := LangText("", l.main);
    WithoutMembers(l.all, x);
    if l.main != "" {
      WrittenLead(l);
      if l.all != [] {
        RewriteFixedIff(l.all, l.main);
      }
    } else {
      var kept := Without(l.all, x);
      FirstPlainNone(kept);
      assert Written(l) == kept && NormLocalized(l) == Localized(FirstPlain(kept), kept);
      if CanonicalText(l) {
        assert x !in l.all;
      }
      if NormLocalized(l) == l {
        assert kept == l.all && x !in l.all;
        assert forall v: LangText :: v.lang == "" && v.value == "" ==> v == x;
      }
    }
  }

  predicate NormalNodes(ns: seq<Node>) {
    forall i :: 0 <= i < |ns| ==> IsNormal(ns[i])
  }

  lemma NormAllIdentityIff(ns: seq<Node>)
    ensures NormAll(ns) == ns <==> NormalNodes(ns)
  {
    forall i | 0 <= i < |ns|
      ensures NormAll(ns)[i] == ns[i] <==> IsNormal(ns[i])
    {
      NormFixed(ns[i]);
    }
  }

  predicate CanonicalError(e: Option<StanzaError>) {
    e.Some? ==> Ordinary(e.value) && NormalNodes(e.value.application)
  }

  lemma NormErrorIdentityIff(e: Option<StanzaError>)
    ensures NormErrorOption(e) == e <==> CanonicalError(e)
  {
    if e.Some? {
      OutsideMembers(NormAll(ErrorChildren(e.value)));
      NormAllIdentityIff(e.value.application);
      if Ordinary(e.value) {
        NormErrorOrdinary(e.value);
      }
    }
  }

  /** What makes a stanza its own normal form, field by field; the fields not named are always kept. */
  predicate Canonical(s: Stanza) {
    match s
    case MessageStanza(m) =>
      && CanonicalText(m.subject) && CanonicalText(m.body) && (m.thread == "" ==> m.parent == "")
      && NormalNodes(m.extensions) && CanonicalError(m.error)
    case PresenceStanza(p) => CanonicalText(p.status) && NormalNodes(p.extensions) && CanonicalError(p.error)
    case IqStanza(i) => NormalNodes(i.payloads) && CanonicalError(i.error)
  }

  /** A stanza comes back unchanged, every field of it, exactly when it is canonical. */
  lemma StanzaSurvivesIff(s: Stanza)
    requires ExtensionsUnreserved(s)
    ensures StanzaFromNode(Norm(StanzaElement(s))) == Some(s) <==> Canonical(s)
  {
    match s {
      case MessageStanza(m) =>
        MessageReads(m);
        NormLocalizedIdentityIff(m.subject);
        NormLocalizedIdentityIff(m.body);
        NormAllIdentityIff(m.extensions);
        NormErrorIdentityIff(m.error);
      case PresenceStanza(p) =>
        PresenceReads(p);
        NormLocalizedIdentityIff(p.status);
        NormAllIdentityIff(p.extensions);
        NormErrorIdentityIff(p.error);
      case IqStanza(i) =>
        IqReads(i);
        NormAllIdentityIff(i.payloads);
        NormErrorIdentityIff(i.error);
    }
  }

  // What others see on the wire

  lemma {:induction false} FirstNamedConcat(a: seq<Node>, b: seq<Node>, local: string)
    ensures FirstNamed(a + b, "", local)
         == if FirstNamed(a, "", local).Some? then FirstNamed(a, "", local) else FirstNamed(b, "", local)
  {
    if a == [] {
      assert a + b == b;
    } else {
      assert (a + b)[1..] == a[1..] + b;
      FirstNamedConcat(a[1..], b, local);
    }
  }

  lemma {:induction false} FirstNamedNone(ns: seq<Node>, local: string)
    requires forall n :: n in ns ==> n.name.local != local
    ensures FirstNamed(ns, "", local) == None
  {
    if ns != [] {
      assert ns[0] in ns && forall n :: n in ns[1..] ==> n in ns;
      FirstNamedNone(ns[1..], local);
    }
  }

  lemma LangElementsFirst(local: string, vs: seq<LangText>, other: string)
    ensures FirstNamed(LangElements(local, vs), "", other)
         == if other == local && vs != [] then Some(LangElement(local, vs[0])) else None
  {
    var ns := LangElements(local, vs);
    if other != local {
      FirstNamedNone(ns, other);
    }
  }

  /** A sent message is a "message" whose first "subject" and "body" hold the main texts and "thread" the thread. */
  lemma MessageOnWire(m: Message)
    requires Unreserved(m.extensions, MESSAGE_RESERVED)
    ensures var n := MessageElement(m);
            && n.name == Name("", "message")
            && (m.subject.main != "" ==> ChildText(n, "", "subject") == m.subject.main)
            && (m.body.main != "" ==> ChildText(n, "", "body") == m.body.main)
            && ChildText(n, "", "thread") == m.thread
            && (ChildOf(n, "", "error").Some? <==> m.error.Some?)
  {
    var subjects, bodies := LangElements("subject", Written(m.subject)), LangElements("body", Written(m.body));
    var threads, errors := ThreadElements(m), ErrorElements(m.error);
    ChildrenOfChildParts(subjects + bodies + threads + m.extensions + errors);
    MessageFirst(m, "subject");
    MessageFirst(m, "body");
    MessageFirst(m, "thread");
    MessageFirst(m, "error");
    TextElementReads("", "thread", Optional(Name("", "parent"), m.parent), m.thread);
    if m.subject.main != "" {
      LangElementReads("subject", Written(m.subject)[0]);
    }
    if m.body.main != "" {
      LangElementReads("body", Written(m.body)[0]);
    }
  }

  /** Each reserved name is found in its own section of a message. */
  lemma MessageFirst(m: Message, local: string)
    requires Unreserved(m.extensions, MESSAGE_RESERVED) && local in MESSAGE_RESERVED
    ensures var subjects, bodies := Written(m.subject), Written(m.body);
            FirstNamed(LangElements("subject", subjects) + LangElements("body", bodies) + ThreadElements(m) + m.extensions
                       + ErrorElements(m.error), "", local)
            == if local == "subject" && subjects != [] then Some(LangElement("subject", subjects[0]))
               else if local == "body" && bodies != [] then Some(LangElement("body", bodies[0]))
               else if local == "thread" && m.thread != "" then Some(ThreadElements(m)[0])
               else if local == "error" && m.error.Some? then Some(ErrorElement(m.error.value))
               else None
  {
    var subjects, bodies := LangElements("subject", Written(m.subject)), LangElements("body", Written(m.body));
    var threads, errors := ThreadElements(m), ErrorElements(m.error);
    FirstNamedConcat(subjects + bodies + threads + m.extensions, errors, local);
    FirstNamedConcat(subjects + bodies + threads, m.extensions, local);
    FirstNamedConcat(subjects + bodies, threads, local);
    FirstNamedConcat(subjects, bodies, local);
    LangElementsFirst("subject", Written(m.subject), local);
    LangElementsFirst("body", Written(m.body), local);
    FirstNamedNone(m.extensions, local);
    assert threads != [] ==> threads[1..] == [];
    assert errors != [] ==> errors[1..] == [];
  }

  /** A presence's priority is the trimmed text of the child, when that is a number. */
  lemma PriorityTaken(p: Presence, c: Node)
    requires c.name.local == "priority"
    ensures var n := Atoi(T.TrimSpace(TextOf(c.parts)));
            PresenceStep(p, c) == if n.Ok? then p.(priority := Some(n.value)) else p
  {
  }

  predicate ExtensionsUnreserved(s: Stanza) {
    match s
    case MessageStanza(m) => Unreserved(m.extensions, MESSAGE_RESERVED)
    case PresenceStanza(p) => Unreserved(p.extensions, PRESENCE_RESERVED)
    case IqStanza(i) => Unreserved(i.payloads, {"error"})
  }

  lemma {:induction false} WithoutSnoc(vs: seq<LangText>, v: LangText, skip: LangText)
    ensures Without(vs + [v], skip) == Without(vs, skip) + (if v == skip then [] else [v])
  {
    if vs == [] {
      assert vs + [v] == [v] && [v][1..] == [];
    } else {
      assert (vs + [v])[1..] == vs[1..] + [v];
      WithoutSnoc(vs[1..], v, skip);
    }
  }

  /** The marshallers' loop over a text in several languages. */
  method WriteTexts(local: string, l: Localized) returns (elements: seq<Node>)
    ensures elements == LangElements(local, Written(l))
  {
    var main := LangText("", l.main);
    var head := if l.main == "" then [] else [main];
    var rest: seq<LangText> := [];
    for i := 0 to |l.all|
      invariant rest == Without(l.all[..i], main)
    {
      WithoutSnoc(l.all[..i], l.all[i], main);
      assert l.all[..i + 1] == l.all[..i] + [l.all[i]];
      if l.all[i] != main {
        rest := rest + [l.all[i]];
      }
    }
    assert l.all[..|l.all|] == l.all;
    elements := LangElements(local, head + rest);
  }

  /** Marshalling fails on exactly the stanzas that are not printable. */
  method MarshalStanza(s: Stanza) returns (r: Option<seq<Token>>)
    ensures r == if Printable(s) then Some(Tokens(StanzaElement(s))) else None
  {
    match s {
      case MessageStanza(m) =>
        var subjects := WriteTexts("subject", m.subject);
        var bodies := WriteTexts("body", m.body);
        r := Marshal(Element("", "message", StanzaAttrs(m.from, m.to, m.id, m.kind, m.lang),
                             subjects + bodies + ThreadElements(m) + m.extensions + ErrorElements(m.error)));
      case PresenceStanza(p) =>
        if p.priority.Some? && (p.priority.value < -128 || p.priority.value > 127) {
          return None;
        }
        var statuses := WriteTexts("status", p.status);
        r := Marshal(Element("", "presence", StanzaAttrs(p.from, p.to, p.id, p.kind, p.lang),
                             ShowElements(p) + statuses + PriorityElements(p) + p.extensions + ErrorElements(p.error)));
      case IqStanza(i) =>
        if i.id == "" || i.kind == "" {
          return None;
        }
        r := Marshal(IqElement(i));
    }
  }

  /** The parser's loops over the children of the root. */
  method ParseStanza(n: Node) returns (r: Option<Stanza>)
    ensures r == StanzaFromNode(n)
  {
    var cs := ChildrenOf(n.parts);
    assert cs[0..] == cs && cs[|cs|..] == [];
    if n.name.local == "message" {
      var m := Message(AttrOr(n, "from"), AttrOr(n, "to"), AttrOr(n, "id"), AttrOr(n, "type"),
                       AttrNSOr(n, XML_NS, "lang"), Localized("", []), Localized("", []), "", "", [], None);
      for k := 0 to |cs|
        invariant Fold(MessageStep, m, cs[k..]) == ParseMessage(n)
      {
        assert cs[k..][0] == cs[k] && cs[k..][1..] == cs[k + 1..];
        m := MessageStep(m, cs[k]);
      }
      return Some(MessageStanza(m));
    } else if n.name.local == "presence" {
      var p := Presence(AttrOr(n, "from"), AttrOr(n, "to"), AttrOr(n, "id"), AttrOr(n, "type"),
                        AttrNSOr(n, XML_NS, "lang"), "", Localized("", []), None, [], None);
      for k := 0 to |cs|
        invariant Fold(PresenceStep, p, cs[k..]) == ParsePresence(n)
      {
        assert cs[k..][0] == cs[k] && cs[k..][1..] == cs[k + 1..];
        p := PresenceStep(p, cs[k]);
      }
      return Some(PresenceStanza(p));
    } else if n.name.local == "iq" {
      var i := Iq(AttrOr(n, "from"), AttrOr(n, "to"), AttrOr(n, "id"), AttrOr(n, "type"), [], None);
      for k := 0 to |cs|
        invariant Fold(IqStep, i, cs[k..]) == ParseIq(n)
      {
        assert cs[k..][0] == cs[k] && cs[k..][1..] == cs[k + 1..];
        i := IqStep(i, cs[k]);
      }
      return Some(IqStanza(i));
    }
    return None;
  }

  /**
   * A marshalled stanza, whatever follows it in the stream, reads back as its normal form and leaves
   * the rest, provided no extension uses a local name the parser reserves.
   */
  lemma StanzaRoundTrip(s: Stanza, rest: seq<Token>) returns (n: Node)
    requires ExtensionsUnreserved(s)
    ensures Read(Tokens(StanzaElement(s)) + rest) == Some((n, rest))
    ensures StanzaFromNode(n) == Some(NormStanza(s))
  {
    n := Norm(StanzaElement(s));
    ReadPrinted(StanzaElement(s), rest);
    match s {
      case MessageStanza(m) => MessageReads(m);
      case PresenceStanza(p) => PresenceReads(p);
      case IqStanza(i) => IqReads(i);
    }
  }
}
