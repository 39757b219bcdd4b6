/** Encrypting a message for many devices, and decrypting it on one of them. */
module OmemoMessages {
  import opened Wrappers
  import opened Numerals
  import opened Encoding
  import opened XmlTree
  import opened Stanzas
  import opened OmemoStore
  import opened OmemoXml
  import opened OmemoManager

  const EME_NS := "urn:xmpp:eme:0"
  const HINTS_NS := "urn:xmpp:hints"
  const SID_NS := "urn:xmpp:sid:0"

  // Extensions

  function Removed(ns: seq<Node>, name: Name): seq<Node> {
    if ns == [] then []
    else (if ns[0].name == name then [] else [ns[0]]) + Removed(ns[1..], name)
  }

  function Find(ns: seq<Node>, name: Name): Option<Node> {
    FirstNamed(ns, name.space, name.local)
  }

  /** Removing an extension removes all of them and hides no other. */
  lemma {:induction false} RemovedFinds(ns: seq<Node>, name: Name, other: Name)
    requires name.space != "" && other.space != ""
    ensures Find(Removed(ns, name), other) == if other == name then None else Find(ns, other)
  {
    if ns != [] {
      RemovedFinds(ns[1..], name, other);
      if ns[0].name != name {
        assert ([ns[0]] + Removed(ns[1..], name))[1..] == Removed(ns[1..], name);
      } else {
        assert [] + Removed(ns[1..], name) == Removed(ns[1..], name);
      }
    }
  }

  lemma {:induction false} FindSnoc(ns: seq<Node>, n: Node, name: Name)
    requires name.space != ""
    ensures Find(ns + [n], name)
         == if Find(ns, name).Some? then Find(ns, name) else if n.name == name then Some(n) else None
  {
    if ns == [] {
      assert ns + [n] == [n] && [n][1..] == [];
    } else {
      assert (ns + [n])[1..] == ns[1..] + [n];
      FindSnoc(ns[1..], n, name);
    }
  }

  lemma {:induction false} FindNormal(ns: seq<Node>, name: Name)
    ensures Find(NormAll(ns), name) == if Find(ns, name).Some? then Some(Norm(Find(ns, name).value)) else None
  {
    if ns != [] {
      FindNormal(ns[1..], name);
      assert NormAll(ns)[1..] == NormAll(ns[1..]);
    }
  }

  lemma {:induction false} RemovedUnreserved(ns: seq<Node>, name: Name, reserved: set<string>)
    requires Unreserved(ns, reserved)
    ensures Unreserved(Removed(ns, name), reserved)
  {
    if ns != [] {
      assert ns[0] in ns;
      assert forall n :: n in ns[1..] ==> n in ns;
      RemovedUnreserved(ns[1..], name, reserved);
    }
  }

  lemma {:induction false} RemovedSnoc(ns: seq<Node>, n: Node, name: Name)
    ensures Removed(ns + [n], name) == Removed(ns, name) + if n.name == name then [] else [n]
  {
    if ns == [] {
      assert ns + [n] == [n] && [n][1..] == [];
    } else {
      assert (ns + [n])[1..] == ns[1..] + [n];
      RemovedSnoc(ns[1..], n, name);
    }
  }

  method RemoveExtension(ns: seq<Node>, name: Name) returns (out: seq<Node>)
    ensures out == Removed(ns, name)
  {
    out := [];
    for i := 0 to |ns|
      invariant out == Removed(ns[..i], name)
    {
      RemovedSnoc(ns[..i], ns[i], name);
      assert ns[..i + 1] == ns[..i] + [ns[i]];
      if ns[i].name != name {
        out := out + [ns[i]];
      }
    }
    assert ns[..|ns|] == ns;
  }

  // The encrypted message

  const ENCRYPTED := Name(OMEMO_NS, "encrypted")
  const ENCRYPTION := Name(EME_NS, "encryption")
  const STORE_HINT := Name(HINTS_NS, "store")
  const ORIGIN_ID := Name(SID_NS, "origin-id")

  const EncryptionInfo := Node(ENCRYPTION, [Attribute("namespace", OMEMO_NS), Attribute("name", "OMEMO")], [])

  function WithHint(ns: seq<Node>): seq<Node> {
    if Find(ns, STORE_HINT).Some? then ns else ns + [Node(STORE_HINT, [], [])]
  }

  function OriginId(ns: seq<Node>): string {
    match Find(ns, ORIGIN_ID)
    case Some(n) => AttrOr(n, "id")
    case None => ""
  }

  /** An origin id is kept unless it is missing or empty. */
  function WithOriginId(ns: seq<Node>, id: string): seq<Node> {
    if OriginId(ns) != "" then ns else Removed(ns, ORIGIN_ID) + [Node(ORIGIN_ID, [Attribute("id", id)], [])]
  }

  function WithEnvelope(ns: seq<Node>, envelope: Node): seq<Node> {
    Removed(Removed(ns, ENCRYPTED) + [envelope], ENCRYPTION) + [EncryptionInfo]
  }

  /** The message as it is sent: the body replaced, and the extensions that go with the envelope set. */
  function Assemble(m: Message, envelope: Node, fallback: string, freshId: string): Message {
    var id := if m.id == "" then freshId else m.id;
    m.(id := id, body := m.body.(main := fallback),
       extensions := WithOriginId(WithHint(WithEnvelope(m.extensions, envelope)), id))
  }

  lemma WithEnvelopeFinds(ns: seq<Node>, envelope: Node, name: Name)
    requires envelope.name == ENCRYPTED && name.space != ""
    ensures Find(WithEnvelope(ns, envelope), name)
         == if name == ENCRYPTED then Some(envelope)
            else if name == ENCRYPTION then Some(EncryptionInfo)
            else Find(ns, name)
  {
    RemovedFinds(ns, ENCRYPTED, name);
    FindSnoc(Removed(ns, ENCRYPTED), envelope, name);
    RemovedFinds(Removed(ns, ENCRYPTED) + [envelope], ENCRYPTION, name);
    FindSnoc(Removed(Removed(ns, ENCRYPTED) + [envelope], ENCRYPTION), EncryptionInfo, name);
  }

  lemma WithHintFinds(ns: seq<Node>, name: Name)
    requires name.space != ""
    ensures Find(WithHint(ns), STORE_HINT).Some?
    ensures name != STORE_HINT ==> Find(WithHint(ns), name) == Find(ns, name)
  {
    FindSnoc(ns, Node(STORE_HINT, [], []), name);
    FindSnoc(ns, Node(STORE_HINT, [], []), STORE_HINT);
  }

  lemma WithOriginIdFinds(ns: seq<Node>, id: string, name: Name)
    requires name.space != ""
    ensures OriginId(WithOriginId(ns, id)) == if OriginId(ns) != "" then OriginId(ns) else id
    ensures name != ORIGIN_ID ==> Find(WithOriginId(ns, id), name) == Find(ns, name)
  {
    var n := Node(ORIGIN_ID, [Attribute("id", id)], []);
    RemovedFinds(ns, ORIGIN_ID, name);
    RemovedFinds(ns, ORIGIN_ID, ORIGIN_ID);
    FindSnoc(Removed(ns, ORIGIN_ID), n, name);
    FindSnoc(Removed(ns, ORIGIN_ID), n, ORIGIN_ID);
  }

  /**
   * What a reader of the sent message finds: the new envelope and no older one, the encryption notice,
   * a storage hint, the sender's origin id or else the stanza id, and every other extension as it was.
   */
  lemma AssembledFinds(m: Message, envelope: Node, fallback: string, freshId: string, other: Name)
    requires envelope.name == ENCRYPTED && other.space != ""
    requires other !in {ENCRYPTED, ENCRYPTION, STORE_HINT, ORIGIN_ID}
    ensures var out := Assemble(m, envelope, fallback, freshId);
            && Find(out.extensions, ENCRYPTED) == Some(envelope)
            && Find(out.extensions, ENCRYPTION) == Some(EncryptionInfo)
            && Find(out.extensions, STORE_HINT).Some?
            && OriginId(out.extensions) == (if OriginId(m.extensions) != "" then OriginId(m.extensions) else out.id)
            && Find(out.extensions, other) == Find(m.extensions, other)
  {
    AssembledFind(m, envelope, fallback, freshId, ENCRYPTED);
    AssembledFind(m, envelope, fallback, freshId, ENCRYPTION);
    AssembledFind(m, envelope, fallback, freshId, STORE_HINT);
    AssembledFind(m, envelope, fallback, freshId, other);
    var e := WithEnvelope(m.extensions, envelope);
    WithEnvelopeFinds(m.extensions, envelope, ORIGIN_ID);
    WithHintFinds(e, ORIGIN_ID);
  }

  lemma AssembledFind(m: Message, envelope: Node, fallback: string, freshId: string, name: Name)
    requires envelope.name == ENCRYPTED && name.space != "" && name != ORIGIN_ID
    ensures var out := Assemble(m, envelope, fallback, freshId).extensions;
            var held := OriginId(WithHint(WithEnvelope(m.extensions, envelope)));
            && OriginId(out) == (if held != "" then held else Assemble(m, envelope, fallback, freshId).id)
            && (name == STORE_HINT ==> Find(out, name).Some?)
            && (name == ENCRYPTED ==> Find(out, name) == Some(envelope))
            && (name == ENCRYPTION ==> Find(out, name) == Some(EncryptionInfo))
            && (name !in {ENCRYPTED, ENCRYPTION, STORE_HINT} ==> Find(out, name) == Find(m.extensions, name))
  {
    var e := WithEnvelope(m.extensions, envelope);
    WithEnvelopeFinds(m.extensions, envelope, name);
    WithHintFinds(e, name);
    WithOriginIdFinds(WithHint(e), if m.id == "" then freshId else m.id, name);
  }

  lemma AssembledUnreserved(m: Message, envelope: Node, fallback: string, freshId: string)
    requires Unreserved(m.extensions, MESSAGE_RESERVED) && envelope.name == ENCRYPTED
    ensures Unreserved(Assemble(m, envelope, fallback, freshId).extensions, MESSAGE_RESERVED)
  {
    var a := Removed(m.extensions, ENCRYPTED) + [envelope];
    RemovedUnreserved(m.extensions, ENCRYPTED, MESSAGE_RESERVED);
    RemovedUnreserved(a, ENCRYPTION, MESSAGE_RESERVED);
    RemovedUnreserved(WithHint(Removed(a, ENCRYPTION) + [EncryptionInfo]), ORIGIN_ID, MESSAGE_RESERVED);
  }

  // Which texts are sent readable

  lemma {:induction false} WithoutMember(all: seq<LangText>, v: LangText, x: LangText)
    ensures x in Without(all, v) <==> x in all && x != v
  {
    if all != [] {
      WithoutMember(all[1..], v, x);
    }
  }

  /**
   * The texts of the sent message. Only the main body is replaced: the subject stays, and so does every
   * entry of the list of bodies that is not a copy of the replacement.
   */
  lemma SentTexts(m: Message, envelope: Node, fallback: string, freshId: string, v: LangText)
    ensures var out := Assemble(m, envelope, fallback, freshId);
            && out.subject == m.subject
            && (v in Written(out.body) <==> if v == LangText("", fallback) then fallback != "" else v in m.body.all)
  {
    WithoutMember(m.body.all, LangText("", fallback), v);
  }

  predicate HasText(vs: seq<LangText>, text: string) {
    exists v :: v in vs && v.value == text
  }

  /**
   * The text that was encrypted is sent readable, too, exactly when the subject, the fallback or
   * another entry of the list of bodies has it.
   */
  lemma BodySentReadableIff(m: Message, envelope: Node, fallback: string, freshId: string)
    ensures var out, text := Assemble(m, envelope, fallback, freshId), m.body.main;
            HasText(Written(out.subject), text) || HasText(Written(out.body), text) <==>
            || HasText(Written(m.subject), text)
            || (fallback != "" && fallback == text)
            || HasText(Without(m.body.all, LangText("", fallback)), text)
  {
    var out := Assemble(m, envelope, fallback, freshId);
    if fallback != "" {
      assert Written(out.body) == [LangText("", fallback)] + Without(m.body.all, LangText("", fallback));
    } else {
      assert Written(out.body) == Without(m.body.all, LangText("", fallback));
    }
  }

  /** So it is for every message that was itself parsed: its main body is also an entry of its list. */
  lemma ReceivedBodySentReadable(n: Node, envelope: Node, fallback: string, freshId: string)
    requires ParseMessage(n).body.main !in {"", fallback}
    ensures var m := ParseMessage(n); LangText("", m.body.main) in Written(Assemble(m, envelope, fallback, freshId).body)
  {
    var m := ParseMessage(n);
    ParsedBodyListed(n);
    SentTexts(m, envelope, fallback, freshId, LangText("", m.body.main));
  }

  predicate MainListed(l: Localized) {
    l.main != "" ==> LangText("", l.main) in l.all
  }

  lemma {:induction false} FoldKeepsListed(m: Message, cs: seq<Node>)
    requires MainListed(m.body)
    ensures MainListed(Fold(MessageStep, m, cs).body)
    decreases |cs|
  {
    if cs != [] {
      FoldKeepsListed(MessageStep(m, cs[0]), cs[1..]);
    }
  }

  lemma ParsedBodyListed(n: Node)
    ensures MainListed(ParseMessage(n).body)
  {
    FoldKeepsListed(
      Message(AttrOr(n, "from"), AttrOr(n, "to"), AttrOr(n, "id"), AttrOr(n, "type"), AttrNSOr(n, XML_NS, "lang"),
              Localized("", []), Localized("", []), "", "", [], None),
      ChildrenOf(n.parts));
  }

  // Encrypting

  datatype Setup = Setup(
    policy: string, ownJid: string, disableOwn: bool, ttl: int, fallback: string, codec: Codec, aead: Aead,
    backend: Backend)

  /** What one call draws: the content key, the initialisation vector and, if needed, a stanza id. */
  datatype Drawn = Drawn(key: Bytes, iv: Bytes, id: string)

  datatype EncryptResult =
    | NoRecipients
    | NoDevices
    | NoTrustedDevices(wrapping: Wrapping)
    | Encrypted(message: Message, wrapping: Wrapping, envelope: Envelope)

  function Addressees(m: Message, recipients: seq<string>): seq<string> {
    if recipients == [] && m.to != "" then [m.to] else recipients
  }

  function OwnJid(s: Setup): Option<string> {
    if s.disableOwn then None else Some(s.ownJid)
  }

  function SealBody(s: Setup, m: Message, drawn: Drawn): Sealed
    requires Ideal(s.aead)
  {
    Seal(s.aead, drawn.key, drawn.iv, s.codec.bytes(m.body.main))
  }

  /** The devices a call addresses, and the store after it has looked them up. */
  function LookedUp(model: Model, s: Setup, net: Network, to: seq<string>): (Model, set<Address>) {
    var (n, answers) := LookUpAll(model, s.ttl, net, Asked(to, OwnJid(s)));
    (n, Targets(to, answers, OwnJid(s), model.own))
  }

  /** What the call may return, given the store it runs against and the devices it addresses. */
  ghost predicate Produces(model: Model, s: Setup, m: Message, recipients: seq<string>, targets: set<Address>, drawn: Drawn,
                           r: EncryptResult)
    requires Ideal(s.aead)
  {
    var sealed := SealBody(s, m, drawn);
    var outcome := a => Outcome(model, s.policy, s.backend, sealed.material, a);
    match r
    case NoRecipients => Addressees(m, recipients) == []
    case NoDevices => Addressees(m, recipients) != [] && targets == {}
    case NoTrustedDevices(w) =>
      Addressees(m, recipients) != [] && targets != {} && Settles(w, targets, outcome) && w.recipients == []
    case Encrypted(out, w, e) =>
      && Addressees(m, recipients) != [] && Settles(w, targets, outcome) && w.recipients != []
      && e == Envelope(model.own, drawn.iv, sealed.payload, w.keys)
      && out == Assemble(m, EnvelopeElement(s.codec, e), s.fallback, drawn.id)
  }

  /** The store after the call: lists as looked up, and the bundles fetched for the targets. */
  ghost predicate Leaves(model: Model, s: Setup, net: Network, to: seq<string>, r: EncryptResult, after: Model) {
    var (n, targets) := LookedUp(model, s, net, to);
    match r
    case NoRecipients => true
    case NoDevices => after == n
    case _ => BundlesAfter(n, s.policy, s.backend, targets, after)
  }

  lemma SettlesSame(w: Wrapping, targets: set<Address>, model: Model, n: Model, s: Setup, material: Bytes)
    requires n == model.(lists := n.lists)
    requires Settles(w, targets, a => Outcome(n, s.policy, s.backend, material, a))
    ensures Settles(w, targets, a => Outcome(model, s.policy, s.backend, material, a))
  {
    forall a
      ensures Outcome(n, s.policy, s.backend, material, a) == Outcome(model, s.policy, s.backend, material, a)
    {
      OutcomeStable(n, model, s.policy, s.backend, material, a);
    }
  }

  method EncryptMessage(store: MemoryStore, s: Setup, m: Message, recipients: seq<string>, net: Network,
                        drawn: Drawn, random: uint32) returns (r: EncryptResult)
    requires store.Valid() && Ideal(s.aead)
    modifies store
    ensures store.Valid()
    ensures old(store.model.own) != 0 || r.NoRecipients? ==> store.model.own == old(store.model.own)
    ensures !r.NoRecipients? ==> store.model.own != 0
    ensures r.NoRecipients? ==> store.model == old(store.model)
    ensures var start, to := old(store.model).(own := store.model.own), Addressees(m, recipients);
            && Produces(start, s, m, recipients, LookedUp(start, s, net, to).1, drawn, r)
            && Leaves(start, s, net, to, r, store.model)
  {
    var to := Addressees(m, recipients);
    if |to| == 0 {
      return NoRecipients;
    }
    var ownId := store.OwnDeviceId(random);
    ghost var start := store.model;
    LookUpAllKeeps(start, s.ttl, net, Asked(to, OwnJid(s)));
    ghost var targets := LookedUp(start, s, net, to).1;
    var table := CollectTargets(store, s.ttl, net, to, OwnJid(s), ownId);
    if table == map[] {
      assert targets == {};
      return NoDevices;
    }
    assert targets != {} by {
      var key :| key in table;
      assert table[key] in targets;
    }
    var sealed := SealBody(s, m, drawn);
    ghost var looked := store.model;
    var w := WrapAll(store, s.policy, s.backend, sealed.material, table, targets);
    SettlesSame(w, targets, start, looked, s, sealed.material);
    if |w.keys| == 0 {
      return NoTrustedDevices(w);
    }
    var e := Envelope(ownId, drawn.iv, sealed.payload, w.keys);
    return Encrypted(Assemble(m, EnvelopeElement(s.codec, e), s.fallback, drawn.id), w, e);
  }

  /** No device that was distrusted or ignored, or may not receive under the policy, is a recipient. */
  lemma OnlyTrustedReceive(model: Model, s: Setup, m: Message, recipients: seq<string>, targets: set<Address>, drawn: Drawn,
                           r: EncryptResult, a: Address)
    requires Ideal(s.aead) && Produces(model, s, m, recipients, targets, drawn, r) && r.Encrypted?
    ensures a in r.wrapping.recipients ==> MayReceive(model, s.policy, a) && TrustOf(model, a) !in {DISTRUSTED, IGNORED}
    ensures forall k :: k in r.envelope.keys ==>
              exists b: Address :: b in r.wrapping.recipients && b.device == k.recipient && MayReceive(model, s.policy, b)
  {
    var w, sealed := r.wrapping, SealBody(s, m, drawn);
    if a in w.recipients {
      var i :| 0 <= i < |w.recipients| && w.recipients[i] == a;
      ReceivesIff(model, s.policy, s.backend, sealed.material, a);
    }
    forall k | k in r.envelope.keys
      ensures exists b: Address :: b in w.recipients && b.device == k.recipient && MayReceive(model, s.policy, b)
    {
      var i :| 0 <= i < |w.keys| && w.keys[i] == k;
      ReceivesIff(model, s.policy, s.backend, sealed.material, w.recipients[i]);
      assert w.recipients[i] in w.recipients;
    }
  }

  /** A target is a recipient exactly when it receives. */
  lemma RecipientIff(model: Model, s: Setup, m: Message, recipients: seq<string>, targets: set<Address>, drawn: Drawn,
                     r: EncryptResult, a: Address)
    requires Ideal(s.aead) && Produces(model, s, m, recipients, targets, drawn, r)
    requires r.NoTrustedDevices? || r.Encrypted?
    ensures a in r.wrapping.recipients
       <==> a in targets && Receives(model, s.policy, s.backend, SealBody(s, m, drawn).material, a)
  {
    var w, material := r.wrapping, SealBody(s, m, drawn).material;
    var skipped := SkippedAddresses(w.skipped);
    ReceivesIff(model, s.policy, s.backend, material, a);
    assert a in w.recipients + skipped <==> a in targets;
    if a in w.recipients {
      var i :| 0 <= i < |w.recipients| && w.recipients[i] == a;
    }
    if a in skipped {
      var i :| 0 <= i < |w.skipped| && w.skipped[i].address == a;
    }
  }

  /** Which result a call has, by its recipients, its targets, and whether any target receives. */
  lemma ResultIff(model: Model, s: Setup, m: Message, recipients: seq<string>, targets: set<Address>, drawn: Drawn,
                  r: EncryptResult)
    requires Ideal(s.aead) && Produces(model, s, m, recipients, targets, drawn, r)
    ensures var some := exists a :: a in targets && Receives(model, s.policy, s.backend, SealBody(s, m, drawn).material, a);
            && (r.NoRecipients? <==> recipients == [] && m.to == "")
            && (r.NoDevices? <==> !r.NoRecipients? && targets == {})
            && (r.NoTrustedDevices? <==> !r.NoRecipients? && targets != {} && !some)
            && (r.Encrypted? <==> !r.NoRecipients? && some)
  {
    var material := SealBody(s, m, drawn).material;
    if r.NoTrustedDevices? || r.Encrypted? {
      forall a
        ensures a in r.wrapping.recipients <==> a in targets && Receives(model, s.policy, s.backend, material, a)
      {
        RecipientIff(model, s, m, recipients, targets, drawn, r, a);
      }
      assert r.wrapping.recipients != [] ==> r.wrapping.recipients[0] in r.wrapping.recipients;
    }
  }

  // Decrypting

  datatype DecryptError =
    | NotEncrypted
    | BadEnvelope(xml: XmlError)
    | NoKeyForDevice
    | NotDecrypted(error: string)
    | NotOpened(cause: OpenError)
    | NoTrust(error: string)

  datatype Decryption = Decryption(
    message: Message, sender: Address, trust: TrustLevel, identity: Option<Bytes>, preKey: bool)

  function EnvelopeOf(c: Codec, m: Message): Result<Envelope, DecryptError> {
    match Find(m.extensions, ENCRYPTED)
    case None => Err(NotEncrypted)
    case Some(n) =>
      match ParseEnvelope(c, n)
      case Err(e) => Err(BadEnvelope(e))
      case Ok(e) => Ok(e)
  }

  function PlainText(s: Setup, e: Envelope, own: DeviceId, sender: Address): Result<(WrappedKey, Bytes), DecryptError> {
    match KeyFor(e.keys, own)
    case None => Err(NoKeyForDevice)
    case Some(k) =>
      match s.backend.decrypt(sender, SessionCiphertext(k.data, k.preKey))
      case Err(x) => Err(NotDecrypted(x))
      case Ok(material) =>
        match Open(s.aead, material, e.iv, e.payload)
        case Err(x) => Err(NotOpened(x))
        case Ok(plain) => Ok((k, plain))
  }

  function IdentityOf(model: Model, a: Address): Option<Bytes> {
    if a in model.bundles then Some(model.bundles[a].identityKey) else None
  }

  ghost function Decrypt(model: Model, s: Setup, m: Message, senderJid: string): Result<Decryption, DecryptError> {
    var e :- EnvelopeOf(s.codec, m);
    var sender := Address(BareOf(senderJid), e.sender);
    var found :- PlainText(s, e, model.own, sender);
    match EffectiveTrust(model, s.policy, sender)
    case Err(x) => Err(NoTrust(x))
    case Ok(trust) =>
      var plain := m.(body := m.body.(main := s.codec.text(found.1)), extensions := Removed(m.extensions, ENCRYPTED));
      Ok(Decryption(plain, sender, trust, IdentityOf(model, sender), found.0.preKey))
  }

  method DecryptFrom(store: MemoryStore, s: Setup, m: Message, senderJid: string, random: uint32)
    returns (r: Result<Decryption, DecryptError>)
    requires store.Valid()
    modifies store
    ensures store.Valid() && store.model == old(store.model).(own := store.model.own)
    ensures old(store.model.own) != 0 || EnvelopeOf(s.codec, m).Err? ==> store.model == old(store.model)
    ensures r == Decrypt(store.model, s, m, senderJid)
  {
    var envelope := EnvelopeOf(s.codec, m);
    if envelope.Err? {
      return Err(envelope.error);
    }
    var e := envelope.value;
    var ownId := store.OwnDeviceId(random);
    var sender := Address(BareOf(senderJid), e.sender);
    var found := PlainText(s, e, ownId, sender);
    if found.Err? {
      return Err(found.error);
    }
    var trust := ComputeTrust(store, s.policy, sender);
    if trust.Err? {
      return Err(NoTrust(trust.error));
    }
    var bundle := store.GetBundle(sender);
    var identity := if bundle.Some? then Some(bundle.value.identityKey) else None;
    var kept := RemoveExtension(m.extensions, ENCRYPTED);
    var plain := m.(body := m.body.(main := s.codec.text(found.value.1)), extensions := kept);
    return Ok(Decryption(plain, sender, trust.value, identity, found.value.0.preKey));
  }

  /** What a successful call says of the message, its sender, and the sender's trust and identity. */
  lemma DecryptionIs(model: Model, s: Setup, m: Message, senderJid: string, d: Decryption)
    requires Decrypt(model, s, m, senderJid) == Ok(d)
    ensures Find(m.extensions, ENCRYPTED).Some?
    ensures var e := ParseEnvelope(s.codec, Find(m.extensions, ENCRYPTED).value);
            && e.Ok? && KeyFor(e.value.keys, model.own).Some?
            && var k := KeyFor(e.value.keys, model.own).value;
            && d.sender == Address(BareOf(senderJid), e.value.sender)
            && Ok(d.trust) == EffectiveTrust(model, s.policy, d.sender)
            && d.identity == (if d.sender in model.bundles then Some(model.bundles[d.sender].identityKey) else None)
            && d.preKey == k.preKey
            && var material := s.backend.decrypt(d.sender, SessionCiphertext(k.data, k.preKey));
            && material.Ok? && Open(s.aead, material.value, e.value.iv, e.value.payload).Ok?
            && d.message.body.main == s.codec.text(Open(s.aead, material.value, e.value.iv, e.value.payload).value)
    ensures d.message == m.(body := m.body.(main := d.message.body.main), extensions := d.message.extensions)
    ensures Find(d.message.extensions, ENCRYPTED) == None
  {
    RemovedFinds(m.extensions, ENCRYPTED, ENCRYPTED);
  }

  /** Each way a call can end, in the order in which the causes are looked at. */
  lemma DecryptionEnds(model: Model, s: Setup, m: Message, senderJid: string, e: Envelope, sender: Address)
    requires EnvelopeOf(s.codec, m) == Ok(e) && sender == Address(BareOf(senderJid), e.sender)
    ensures var r := Decrypt(model, s, m, senderJid);
            && ((forall k :: k in e.keys ==> k.recipient != model.own) <==> r == Err(NoKeyForDevice))
            && forall k, x :: KeyFor(e.keys, model.own) == Some(k)
                              && s.backend.decrypt(sender, SessionCiphertext(k.data, k.preKey)) == Err(x) ==>
                 r == Err(NotDecrypted(x))
    ensures forall k, material ::
              KeyFor(e.keys, model.own) == Some(k)
              && s.backend.decrypt(sender, SessionCiphertext(k.data, k.preKey)) == Ok(material) ==>
                var r, opening := Decrypt(model, s, m, senderJid), Open(s.aead, material, e.iv, e.payload);
                && (opening.Err? ==> r == Err(NotOpened(opening.error)))
                && (opening.Ok? && EffectiveTrust(model, s.policy, sender).Err? ==>
                      r == Err(NoTrust(EffectiveTrust(model, s.policy, sender).error)))
                && (opening.Ok? && EffectiveTrust(model, s.policy, sender).Ok? ==> r.Ok?)
  {
    KeyForNone(e.keys, model.own);
  }

  /** A message without an encrypted element, or with one that is no envelope, is refused. */
  lemma NoEnvelopeRefused(model: Model, s: Setup, m: Message, senderJid: string)
    ensures Find(m.extensions, ENCRYPTED) == None <==> Decrypt(model, s, m, senderJid) == Err(NotEncrypted)
    ensures forall n, x :: Find(m.extensions, ENCRYPTED) == Some(n) && ParseEnvelope(s.codec, n) == Err(x) ==>
              Decrypt(model, s, m, senderJid) == Err(BadEnvelope(x))
  {
  }

  // From the sender's body to the receiver's

  /** The receiver's backend unwraps whatever the sender's wrapped for that device. */
  ghost predicate Undoes(sending: Backend, a: Address, receiving: Backend, sender: Address) {
    forall material: Bytes :: sending.encrypt(a, material).Ok? ==>
      receiving.decrypt(sender, sending.encrypt(a, material).value) == Ok(material)
  }

  /** The recipient at an index finds its own key: no earlier recipient of another JID has its device id. */
  predicate FirstOfItsId(recipients: seq<Address>, i: nat)
    requires i < |recipients|
  {
    forall j :: 0 <= j < i && recipients[j].jid != recipients[i].jid ==> recipients[j].device != recipients[i].device
  }

  /**
   * The key served to the recipient at an index is the one wrapped for the first recipient with its
   * device id, hence its own exactly when no earlier recipient of another JID has that id.
   */
  lemma KeyServed(model: Model, s: Setup, m: Message, recipients: seq<string>, targets: set<Address>, drawn: Drawn,
                  r: EncryptResult, i: nat) returns (k: nat)
    requires Ideal(s.aead) && Produces(model, s, m, recipients, targets, drawn, r) && r.Encrypted?
    requires i < |r.wrapping.recipients|
    ensures k <= i && r.wrapping.recipients[k].device == r.wrapping.recipients[i].device
    ensures KeyFor(r.envelope.keys, r.wrapping.recipients[i].device) == Some(r.wrapping.keys[k])
    ensures s.backend.encrypt(r.wrapping.recipients[k], SealBody(s, m, drawn).material)
         == Ok(SessionCiphertext(r.wrapping.keys[k].data, r.wrapping.keys[k].preKey))
    ensures k == i <==> FirstOfItsId(r.wrapping.recipients, i)
  {
    var w := r.wrapping;
    forall j | 0 <= j < |w.keys|
      ensures w.keys[j].recipient == w.recipients[j].device
    {
      KeyOf(model, s, m, recipients, targets, drawn, r, j);
    }
    k := KeyForFirst(w.keys, w.recipients[i].device, i);
    KeyOf(model, s, m, recipients, targets, drawn, r, k);
    var all := w.recipients + SkippedAddresses(w.skipped);
    assert forall j :: 0 <= j < i ==> all[j] == w.recipients[j] && all[j] != all[i] && all[i] == w.recipients[i];
  }

  lemma KeyOf(model: Model, s: Setup, m: Message, recipients: seq<string>, targets: set<Address>, drawn: Drawn,
              r: EncryptResult, j: nat)
    requires Ideal(s.aead) && Produces(model, s, m, recipients, targets, drawn, r) && r.Encrypted?
    requires j < |r.wrapping.recipients|
    ensures r.wrapping.keys[j].recipient == r.wrapping.recipients[j].device
    ensures s.backend.encrypt(r.wrapping.recipients[j], SealBody(s, m, drawn).material)
         == Ok(SessionCiphertext(r.wrapping.keys[j].data, r.wrapping.keys[j].preKey))
  {
    var w, material := r.wrapping, SealBody(s, m, drawn).material;
    assert Outcome(model, s.policy, s.backend, material, w.recipients[j]) == Ok(w.keys[j]);
  }

  lemma EnvelopeParses(model: Model, s: Setup, m: Message, recipients: seq<string>, targets: set<Address>, drawn: Drawn,
                       r: EncryptResult)
    requires Ideal(s.aead) && Produces(model, s, m, recipients, targets, drawn, r) && r.Encrypted?
    requires Faithful(s.codec) && |drawn.iv| == IV_SIZE && model.own != 0
    requires forall a :: a in r.wrapping.recipients ==> a.device != 0
    ensures ParseEnvelope(s.codec, Norm(EnvelopeElement(s.codec, r.envelope))) == Ok(r.envelope)
  {
    EnvelopeReads(s.codec, r.envelope);
    forall k | k in r.envelope.keys
      ensures k.recipient != 0
    {
      OnlyTrustedReceive(model, s, m, recipients, targets, drawn, r, Address("", 0));
    }
  }

  /** The envelope is found again in the normal form of the message. */
  lemma EnvelopeArrives(model: Model, s: Setup, m: Message, recipients: seq<string>, targets: set<Address>, drawn: Drawn,
                        r: EncryptResult)
    requires Ideal(s.aead) && Produces(model, s, m, recipients, targets, drawn, r) && r.Encrypted?
    requires Faithful(s.codec) && |drawn.iv| == IV_SIZE && model.own != 0
    requires forall a :: a in r.wrapping.recipients ==> a.device != 0
    ensures EnvelopeOf(s.codec, NormMessage(r.message)) == Ok(r.envelope)
  {
    AssembledFind(m, EnvelopeElement(s.codec, r.envelope), s.fallback, drawn.id, ENCRYPTED);
    FindNormal(r.message.extensions, ENCRYPTED);
    EnvelopeParses(model, s, m, recipients, targets, drawn, r);
  }

  /** The receiver opens the body that the sender sealed. */
  lemma BodyOpens(model: Model, s: Setup, m: Message, recipients: seq<string>, targets: set<Address>, drawn: Drawn,
                  r: EncryptResult, i: nat, t: Setup, sender: Address)
    requires Ideal(s.aead) && Produces(model, s, m, recipients, targets, drawn, r) && r.Encrypted?
    requires |drawn.key| == KEY_SIZE && |drawn.iv| == IV_SIZE && t.aead == s.aead
    requires i < |r.wrapping.recipients| && FirstOfItsId(r.wrapping.recipients, i)
    requires Undoes(s.backend, r.wrapping.recipients[i], t.backend, sender)
    ensures PlainText(t, r.envelope, r.wrapping.recipients[i].device, sender)
         == Ok((r.wrapping.keys[i], s.codec.bytes(m.body.main)))
  {
    var k := KeyServed(model, s, m, recipients, targets, drawn, r, i);
    OpenUndoesSeal(s.aead, drawn.key, drawn.iv, s.codec.bytes(m.body.main));
  }

  lemma Decrypts(there: Model, t: Setup, got: Message, senderJid: string, e: Envelope, k: WrappedKey, plain: Bytes)
    requires EnvelopeOf(t.codec, got) == Ok(e)
    requires var sender := Address(BareOf(senderJid), e.sender);
             PlainText(t, e, there.own, sender) == Ok((k, plain)) && EffectiveTrust(there, t.policy, sender).Ok?
    ensures var d := Decrypt(there, t, got, senderJid);
            && d.Ok? && d.value.message.body.main == t.codec.text(plain) && d.value.preKey == k.preKey
            && d.value.sender == Address(BareOf(senderJid), e.sender)
  {
  }

  /** The sent message, through the token stream and the parser. */
  lemma MessageTravels(model: Model, s: Setup, m: Message, recipients: seq<string>, targets: set<Address>, drawn: Drawn,
                       r: EncryptResult, rest: seq<Token>)
    requires Ideal(s.aead) && Produces(model, s, m, recipients, targets, drawn, r) && r.Encrypted?
    requires Unreserved(m.extensions, MESSAGE_RESERVED)
    ensures var element := MessageElement(r.message);
            && Read(Tokens(element) + rest) == Some((Norm(element), rest))
            && ParseMessage(Norm(element)) == NormMessage(r.message)
  {
    ReadPrinted(MessageElement(r.message), rest);
    AssembledUnreserved(m, EnvelopeElement(s.codec, r.envelope), s.fallback, drawn.id);
    MessageReads(r.message);
  }

  /**
   * A message encrypted, printed, sent through the token stream, parsed and decrypted by a listed
   * recipient has the original body again, also when that body is empty and the payload left out.
   */
  lemma EncryptedMessageArrives(
    model: Model, s: Setup, m: Message, recipients: seq<string>, targets: set<Address>, drawn: Drawn, r: EncryptResult,
    i: nat, there: Model, t: Setup, senderJid: string, rest: seq<Token>) returns (n: Node, d: Decryption)
    requires Faithful(s.codec) && Ideal(s.aead) && t.codec == s.codec && t.aead == s.aead
    requires |drawn.key| == KEY_SIZE && |drawn.iv| == IV_SIZE && model.own != 0
    requires Produces(model, s, m, recipients, targets, drawn, r) && r.Encrypted?
    requires Unreserved(m.extensions, MESSAGE_RESERVED)
    requires forall a :: a in r.wrapping.recipients ==> a.device != 0
    requires i < |r.wrapping.recipients| && FirstOfItsId(r.wrapping.recipients, i)
    requires there.own == r.wrapping.recipients[i].device
    requires var sender := Address(BareOf(senderJid), model.own);
             Undoes(s.backend, r.wrapping.recipients[i], t.backend, sender) && EffectiveTrust(there, t.policy, sender).Ok?
    ensures Read(Tokens(MessageElement(r.message)) + rest) == Some((n, rest))
    ensures Decrypt(there, t, ParseMessage(n), senderJid) == Ok(d)
    ensures d.message.body.main == m.body.main
    ensures d.sender == Address(BareOf(senderJid), model.own) && d.preKey == r.wrapping.keys[i].preKey
    ensures Ok(d.trust) == EffectiveTrust(there, t.policy, d.sender)
    ensures d.message == NormMessage(r.message).(body := d.message.body, extensions := d.message.extensions)
    ensures Find(d.message.extensions, ENCRYPTED).None?
  {
    n := Norm(MessageElement(r.message));
    var got := NormMessage(r.message);
    var sender := Address(BareOf(senderJid), model.own);
    MessageTravels(model, s, m, recipients, targets, drawn, r, rest);
    EnvelopeArrives(model, s, m, recipients, targets, drawn, r);
    BodyOpens(model, s, m, recipients, targets, drawn, r, i, t, sender);
    Decrypts(there, t, got, senderJid, r.envelope, r.wrapping.keys[i], s.codec.bytes(m.body.main));
    d := Decrypt(there, t, got, senderJid).value;
    DecryptionIs(there, t, got, senderJid, d);
  }
}
