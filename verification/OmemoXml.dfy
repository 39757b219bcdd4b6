/** The XML forms of device lists, bundles and encrypted envelopes. */
module OmemoXml {
  import opened Wrappers
  import opened Numerals
  import opened Encoding
  import opened XmlTree
  import opened OmemoStore
  import T = Text

  const OMEMO_NS := "eu.siacs.conversations.axolotl"

  datatype WrappedKey = WrappedKey(recipient: DeviceId, preKey: bool, data: Bytes)

  datatype Envelope = Envelope(sender: DeviceId, iv: Bytes, payload: Bytes, keys: seq<WrappedKey>)

  datatype XmlError =
    | WrongElement
    | Missing(local: string)
    | BadDeviceId(text: string)
    | BadNumber(text: string)
    | BadEncoding(local: string)
    | Incomplete

  // Numbers and byte strings

  function Attribute(local: string, value: string): Attr {
    Attr(Name("", local), value)
  }

  function IdAttr(local: string, n: uint32): seq<Attr> {
    [Attribute(local, Format(n, 10))]
  }

  function ParseDeviceId(text: string): Result<DeviceId, XmlError> {
    match ParseUint(T.TrimSpace(text), UINT32_SIZE)
    case Err(_) => Err(BadDeviceId(text))
    case Ok(n) => if n == 0 then Err(BadDeviceId(text)) else Ok(n)
  }

  function ParseNumber(text: string): Result<uint32, XmlError> {
    match ParseUint(text, UINT32_SIZE)
    case Err(_) => Err(BadNumber(text))
    case Ok(n) => Ok(n)
  }

  function ParseBytes(c: Codec, n: Node): Result<Bytes, XmlError> {
    match c.decode(T.TrimSpace(TextOf(n.parts)))
    case None => Err(BadEncoding(n.name.local))
    case Some(b) => Ok(b)
  }

  function BytesElement(c: Codec, local: string, attrs: seq<Attr>, b: Bytes): Node {
    TextElement(OMEMO_NS, local, attrs, c.encode(b))
  }

  lemma DigitTrimmed(s: string)
    requires IsNumeral(s, 10)
    ensures T.TrimSpace(s) == s
  {
    assert DigitValue(s[0]) < 10 && DigitValue(s[|s| - 1]) < 10;
    T.TrimSpaceFixes(s);
  }

  /** A printed device id is read back exactly when it is not zero. */
  lemma DeviceIdReads(id: DeviceId)
    ensures ParseDeviceId(Format(id, 10)) == if id == 0 then Err(BadDeviceId(Format(id, 10))) else Ok(id)
  {
    DigitTrimmed(Format(id, 10));
    ParseUintFormat(id, UINT32_SIZE);
  }

  lemma NumberReads(n: uint32)
    ensures ParseNumber(Format(n, 10)) == Ok(n)
  {
    ParseUintFormat(n, UINT32_SIZE);
  }

  lemma BytesRead(c: Codec, local: string, attrs: seq<Attr>, b: Bytes)
    requires Faithful(c)
    ensures ParseBytes(c, BytesElement(c, local, attrs, b)) == Ok(b)
    ensures Norm(BytesElement(c, local, attrs, b)) == BytesElement(c, local, attrs, b)
  {
    TextElementReads(OMEMO_NS, local, attrs, c.encode(b));
    T.TrimSpaceFixes(c.encode(b));
  }

  // Device lists

  function DeviceElement(id: DeviceId): Node {
    Element(OMEMO_NS, "device", IdAttr("id", id), [])
  }

  function DeviceElements(ids: seq<DeviceId>): seq<Node> {
    seq(|ids|, i requires 0 <= i < |ids| => DeviceElement(ids[i]))
  }

  function DeviceListElement(ids: seq<DeviceId>): Node {
    Element(OMEMO_NS, "list", [], DeviceElements(Unique(ids)))
  }

  /** Parsing stops at the first error. */
  function DeviceStep(acc: Result<seq<DeviceId>, XmlError>, child: Node): Result<seq<DeviceId>, XmlError> {
    if acc.Err? || child.name.local != "device" then acc
    else
      match ParseDeviceId(AttrOr(child, "id"))
      case Ok(id) => Ok(acc.value + [id])
      case Err(e) => Err(e)
  }

  function ParseDeviceList(n: Node): Result<seq<DeviceId>, XmlError> {
    if n.name != Name(OMEMO_NS, "list") then Err(WrongElement)
    else
      match Fold(DeviceStep, Ok([]), ChildrenOf(n.parts))
      case Ok(ids) => Ok(Unique(ids))
      case Err(e) => Err(e)
  }

  lemma DeviceReads(acc: seq<DeviceId>, id: DeviceId)
    requires id != 0
    ensures DeviceStep(Ok(acc), DeviceElement(id)) == Ok(acc + [id])
  {
    DeviceIdReads(id);
    assert AttrOr(DeviceElement(id), "id") == Format(id, 10);
  }

  /** A printed device list parses to its distinct non-zero ids, whatever list was printed. */
  lemma DeviceListReads(ids: seq<DeviceId>)
    ensures ParseDeviceList(Norm(DeviceListElement(ids))) == Ok(Unique(ids))
  {
    var us := Unique(ids);
    var es := DeviceElements(us);
    assert forall e :: e in es ==> Norm(e) == e;
    ElementNormal(OMEMO_NS, "list", [], es);
    ChildrenOfChildParts(es);
    var put := (acc: seq<DeviceId>) => Result<seq<DeviceId>, XmlError>.Ok(acc);
    forall acc: seq<DeviceId>, i | 0 <= i < |es|
      ensures DeviceStep(put(acc), es[i]) == put(acc + [us[i]])
    {
      assert us[i] in us;
      DeviceReads(acc, us[i]);
    }
    FoldCollects(DeviceStep, put, [], es, us);
    assert [] + us == us;
    UniqueFixedIff(us);
  }

  // Bundles

  function PreKeyElement(c: Codec, k: PreKey): Node {
    BytesElement(c, "preKeyPublic", IdAttr("preKeyId", k.id), k.public)
  }

  function PreKeyElements(c: Codec, ks: seq<PreKey>): seq<Node> {
    seq(|ks|, i requires 0 <= i < |ks| => PreKeyElement(c, ks[i]))
  }

  function BundleChildren(c: Codec, b: Bundle): seq<Node> {
    [ BytesElement(c, "signedPreKeyPublic", IdAttr("signedPreKeyId", b.signedPreKeyId), b.signedPreKey),
      BytesElement(c, "signedPreKeySignature", [], b.signature),
      BytesElement(c, "identityKey", [], b.identityKey),
      Element(OMEMO_NS, "prekeys", [], PreKeyElements(c, b.preKeys)) ]
  }

  function BundleElement(c: Codec, b: Bundle): Node {
    Element(OMEMO_NS, "bundle", [], BundleChildren(c, b))
  }

  function PreKeyStep(c: Codec): (Result<seq<PreKey>, XmlError>, Node) -> Result<seq<PreKey>, XmlError> {
    (acc: Result<seq<PreKey>, XmlError>, child: Node) =>
      if acc.Err? || child.name.local != "preKeyPublic" then acc
      else
        match ParseNumber(AttrOr(child, "preKeyId"))
        case Err(e) => Err(e)
        case Ok(id) =>
          match ParseBytes(c, child)
          case Err(e) => Err(e)
          case Ok(public) => Ok(acc.value + [PreKey(id, public)])
  }

  function ParsePreKeys(c: Codec, n: Node): Result<seq<PreKey>, XmlError> {
    match ChildOf(n, OMEMO_NS, "prekeys")
    case None => Ok([])
    case Some(child) => Fold(PreKeyStep(c), Ok([]), ChildrenOf(child.parts))
  }

  function ParseBytesChild(c: Codec, n: Node, local: string): Result<Bytes, XmlError> {
    match ChildOf(n, OMEMO_NS, local)
    case None => Err(Missing(local))
    case Some(child) => ParseBytes(c, child)
  }

  predicate CompleteBundle(b: Bundle) {
    b.identityKey != [] && b.signedPreKey != [] && b.signature != []
  }

  function ParseBundle(c: Codec, n: Node): Result<Bundle, XmlError> {
    if n.name != Name(OMEMO_NS, "bundle") then Err(WrongElement)
    else if ChildOf(n, OMEMO_NS, "signedPreKeyPublic").None? then Err(Missing("signedPreKeyPublic"))
    else
      var id :- ParseNumber(AttrOr(ChildOf(n, OMEMO_NS, "signedPreKeyPublic").value, "signedPreKeyId"));
      var signed :- ParseBytesChild(c, n, "signedPreKeyPublic");
      var signature :- ParseBytesChild(c, n, "signedPreKeySignature");
      var identity :- ParseBytesChild(c, n, "identityKey");
      var preKeys :- ParsePreKeys(c, n);
      var b := Bundle(identity, id, signed, signature, preKeys);
      if CompleteBundle(b) then Ok(b) else Err(Incomplete)
  }

  lemma PreKeyReads(c: Codec, acc: seq<PreKey>, k: PreKey)
    requires Faithful(c)
    ensures PreKeyStep(c)(Ok(acc), PreKeyElement(c, k)) == Ok(acc + [k])
  {
    BytesRead(c, "preKeyPublic", IdAttr("preKeyId", k.id), k.public);
    NumberReads(k.id);
  }

  lemma PreKeysRead(c: Codec, ks: seq<PreKey>)
    requires Faithful(c)
    ensures Fold(PreKeyStep(c), Ok([]), PreKeyElements(c, ks)) == Ok(ks)
  {
    var es := PreKeyElements(c, ks);
    var put := (acc: seq<PreKey>) => Result<seq<PreKey>, XmlError>.Ok(acc);
    forall acc: seq<PreKey>, i | 0 <= i < |es|
      ensures PreKeyStep(c)(put(acc), es[i]) == put(acc + [ks[i]])
    {
      PreKeyReads(c, acc, ks[i]);
    }
    FoldCollects(PreKeyStep(c), put, [], es, ks);
    assert [] + ks == ks;
  }

  lemma BundleChildrenNormal(c: Codec, b: Bundle)
    requires Faithful(c)
    ensures forall n :: n in BundleChildren(c, b) ==> Norm(n) == n
  {
    BytesRead(c, "signedPreKeyPublic", IdAttr("signedPreKeyId", b.signedPreKeyId), b.signedPreKey);
    BytesRead(c, "signedPreKeySignature", [], b.signature);
    BytesRead(c, "identityKey", [], b.identityKey);
    forall n | n in PreKeyElements(c, b.preKeys)
      ensures Norm(n) == n
    {
      var i :| 0 <= i < |b.preKeys| && n == PreKeyElement(c, b.preKeys[i]);
      BytesRead(c, "preKeyPublic", IdAttr("preKeyId", b.preKeys[i].id), b.preKeys[i].public);
    }
    ElementNormal(OMEMO_NS, "prekeys", [], PreKeyElements(c, b.preKeys));
  }

  /** The child with a local name, when the children's names are known to differ. */
  lemma {:induction false} FirstNamedAt(ns: seq<Node>, local: string, i: nat)
    requires i < |ns| && ns[i].name == Name(OMEMO_NS, local)
    requires forall j :: 0 <= j < i ==> ns[j].name.local != local
    ensures FirstNamed(ns, OMEMO_NS, local) == Some(ns[i])
  {
    if i > 0 {
      FirstNamedAt(ns[1..], local, i - 1);
    }
  }

  lemma BundleChildrenFound(c: Codec, b: Bundle)
    ensures var cs := BundleChildren(c, b);
            && FirstNamed(cs, OMEMO_NS, "signedPreKeyPublic") == Some(cs[0])
            && FirstNamed(cs, OMEMO_NS, "signedPreKeySignature") == Some(cs[1])
            && FirstNamed(cs, OMEMO_NS, "identityKey") == Some(cs[2])
            && FirstNamed(cs, OMEMO_NS, "prekeys") == Some(cs[3])
  {
    var cs := BundleChildren(c, b);
    FirstNamedAt(cs, "signedPreKeyPublic", 0);
    FirstNamedAt(cs, "signedPreKeySignature", 1);
    FirstNamedAt(cs, "identityKey", 2);
    FirstNamedAt(cs, "prekeys", 3);
  }

  /** A printed bundle parses back to itself exactly when its three mandatory byte strings are there. */
  lemma BundleReads(c: Codec, b: Bundle)
    requires Faithful(c)
    ensures ParseBundle(c, Norm(BundleElement(c, b))) == if CompleteBundle(b) then Ok(b) else Err(Incomplete)
  {
    var cs, n := BundleChildren(c, b), BundleElement(c, b);
    BundleChildrenNormal(c, b);
    ElementNormal(OMEMO_NS, "bundle", [], cs);
    ChildrenOfChildParts(cs);
    BundleChildrenFound(c, b);
    NumberReads(b.signedPreKeyId);
    BytesRead(c, "signedPreKeyPublic", IdAttr("signedPreKeyId", b.signedPreKeyId), b.signedPreKey);
    BytesRead(c, "signedPreKeySignature", [], b.signature);
    BytesRead(c, "identityKey", [], b.identityKey);
    ChildrenOfChildParts(PreKeyElements(c, b.preKeys));
    PreKeysRead(c, b.preKeys);
  }

  // Envelopes

  function KeyAttrs(k: WrappedKey): seq<Attr> {
    IdAttr("rid", k.recipient) + if k.preKey then [Attribute("prekey", "true")] else []
  }

  function KeyElement(c: Codec, k: WrappedKey): Node {
    BytesElement(c, "key", KeyAttrs(k), k.data)
  }

  function KeyElements(c: Codec, ks: seq<WrappedKey>): seq<Node> {
    seq(|ks|, i requires 0 <= i < |ks| => KeyElement(c, ks[i]))
  }

  function HeaderElement(c: Codec, e: Envelope): Node {
    Element(OMEMO_NS, "header", IdAttr("sid", e.sender), KeyElements(c, e.keys) + [BytesElement(c, "iv", [], e.iv)])
  }

  function PayloadElements(c: Codec, e: Envelope): seq<Node> {
    if e.payload == [] then [] else [BytesElement(c, "payload", [], e.payload)]
  }

  function EnvelopeElement(c: Codec, e: Envelope): Node {
    Element(OMEMO_NS, "encrypted", [], [HeaderElement(c, e)] + PayloadElements(c, e))
  }

  function ParseKey(c: Codec, n: Node): Result<WrappedKey, XmlError> {
    var device :- ParseDeviceId(AttrOr(n, "rid"));
    var data :- ParseBytes(c, n);
    Ok(WrappedKey(device, AttrValue(n, "prekey") in {Some("true"), Some("1")}, data))
  }

  function HeaderStep(c: Codec): (Result<Envelope, XmlError>, Node) -> Result<Envelope, XmlError> {
    (acc: Result<Envelope, XmlError>, child: Node) =>
      if acc.Err? then acc
      else if child.name.local == "key" then
        match ParseKey(c, child)
        case Ok(k) => Ok(acc.value.(keys := acc.value.keys + [k]))
        case Err(e) => Err(e)
      else if child.name.local == "iv" then
        match ParseBytes(c, child)
        case Ok(iv) => Ok(acc.value.(iv := iv))
        case Err(e) => Err(e)
      else acc
  }

  function ParseHeader(c: Codec, n: Node): Result<Envelope, XmlError> {
    var sender :- ParseDeviceId(AttrOr(n, "sid"));
    Fold(HeaderStep(c), Ok(Envelope(sender, [], [], [])), ChildrenOf(n.parts))
  }

  function ParseEnvelope(c: Codec, n: Node): Result<Envelope, XmlError> {
    if n.name != Name(OMEMO_NS, "encrypted") then Err(WrongElement)
    else
      match ChildOf(n, OMEMO_NS, "header")
      case None => Err(Missing("header"))
      case Some(header) =>
        var e :- ParseHeader(c, header);
        var payload :- (match ChildOf(n, OMEMO_NS, "payload")
                        case None => Ok([])
                        case Some(child) => ParseBytes(c, child));
        if e.iv == [] || e.keys == [] then Err(Incomplete) else Ok(e.(payload := payload))
  }

  lemma KeyReads(c: Codec, k: WrappedKey)
    requires Faithful(c)
    ensures ParseKey(c, KeyElement(c, k))
         == if k.recipient == 0 then Err(BadDeviceId(Format(k.recipient, 10))) else Ok(k)
  {
    var n := KeyElement(c, k);
    BytesRead(c, "key", KeyAttrs(k), k.data);
    DeviceIdReads(k.recipient);
    var tail := if k.preKey then [Attribute("prekey", "true")] else [];
    AttrConcat(IdAttr("rid", k.recipient), tail, Name("", "rid"));
    AttrConcat(IdAttr("rid", k.recipient), tail, Name("", "prekey"));
    assert IdAttr("rid", k.recipient)[1..] == [];
    assert AttrOr(n, "rid") == Format(k.recipient, 10);
    assert AttrValue(n, "prekey") == if k.preKey then Some("true") else None;
  }

  predicate Addressed(ks: seq<WrappedKey>) {
    forall k :: k in ks ==> k.recipient != 0
  }

  lemma {:induction false} KeysRead(c: Codec, e: Envelope, ks: seq<WrappedKey>)
    requires Faithful(c)
    ensures Fold(HeaderStep(c), Ok(e), KeyElements(c, ks))
         == if Addressed(ks) then Ok(e.(keys := e.keys + ks)) else Err(BadDeviceId("0"))
    decreases |ks|
  {
    if ks == [] {
      assert e.keys + ks == e.keys;
    } else {
      KeyStepReads(c, e, ks[0]);
      assert KeyElements(c, ks)[1..] == KeyElements(c, ks[1..]);
      if ks[0].recipient == 0 {
        FoldErr(c, BadDeviceId("0"), KeyElements(c, ks[1..]));
        assert ks[0] in ks;
      } else {
        KeysRead(c, e.(keys := e.keys + [ks[0]]), ks[1..]);
        assert e.keys + [ks[0]] + ks[1..] == e.keys + ks;
        assert Addressed(ks) <==> Addressed(ks[1..]);
      }
    }
  }

  lemma KeyStepReads(c: Codec, e: Envelope, k: WrappedKey)
    requires Faithful(c)
    ensures HeaderStep(c)(Ok(e), KeyElement(c, k))
         == if k.recipient == 0 then Err(BadDeviceId("0")) else Ok(e.(keys := e.keys + [k]))
  {
    KeyReads(c, k);
  }

  lemma {:induction false} FoldErr(c: Codec, x: XmlError, ns: seq<Node>)
    ensures Fold(HeaderStep(c), Err(x), ns) == Err(x)
    decreases |ns|
  {
    if ns != [] {
      FoldErr(c, x, ns[1..]);
    }
  }

  lemma HeaderReads(c: Codec, e: Envelope)
    requires Faithful(c)
    ensures Norm(HeaderElement(c, e)) == HeaderElement(c, e)
    ensures ParseHeader(c, HeaderElement(c, e))
         == if e.sender == 0 || !Addressed(e.keys) then Err(BadDeviceId("0")) else Ok(e.(payload := []))
  {
    var ks, iv := KeyElements(c, e.keys), BytesElement(c, "iv", [], e.iv);
    HeaderNormal(c, e);
    ChildrenOfChildParts(ks + [iv]);
    DeviceIdReads(e.sender);
    assert AttrOr(HeaderElement(c, e), "sid") == Format(e.sender, 10);
    var start := Envelope(e.sender, [], [], []);
    FoldConcat(HeaderStep(c), Ok(start), ks, [iv]);
    KeysRead(c, start, e.keys);
    assert [] + e.keys == e.keys;
    if Addressed(e.keys) {
      BytesRead(c, "iv", [], e.iv);
      FoldOne(HeaderStep(c), Ok(start.(keys := e.keys)), iv);
    } else {
      FoldErr(c, BadDeviceId("0"), [iv]);
    }
  }

  lemma HeaderNormal(c: Codec, e: Envelope)
    requires Faithful(c)
    ensures Norm(HeaderElement(c, e)) == HeaderElement(c, e)
  {
    var ks, iv := KeyElements(c, e.keys), BytesElement(c, "iv", [], e.iv);
    BytesRead(c, "iv", [], e.iv);
    forall n | n in ks + [iv]
      ensures Norm(n) == n
    {
      if n != iv {
        var i :| 0 <= i < |ks| && n == ks[i];
        BytesRead(c, "key", KeyAttrs(e.keys[i]), e.keys[i].data);
      }
    }
    ElementNormal(OMEMO_NS, "header", IdAttr("sid", e.sender), ks + [iv]);
  }

  /**
   * A printed envelope, also one whose empty payload was left out, parses back to itself exactly when
   * all its device ids are non-zero and it has an initialisation vector and a key.
   */
  lemma EnvelopeReads(c: Codec, e: Envelope)
    requires Faithful(c)
    ensures ParseEnvelope(c, Norm(EnvelopeElement(c, e)))
         == if e.sender == 0 || !Addressed(e.keys) then Err(BadDeviceId("0"))
            else if e.iv == [] || e.keys == [] then Err(Incomplete)
            else Ok(e)
  {
    EnvelopeNormal(c, e);
    var header, payload := HeaderElement(c, e), PayloadElements(c, e);
    var cs := [header] + payload;
    ChildrenOfChildParts(cs);
    HeaderReads(c, e);
    FirstNamedAt(cs, "header", 0);
    if e.payload == [] {
      assert cs == [header] && cs[1..] == [];
      assert FirstNamed(cs, OMEMO_NS, "payload") == None;
    } else {
      FirstNamedAt(cs, "payload", 1);
      BytesRead(c, "payload", [], e.payload);
    }
  }

  lemma EnvelopeNormal(c: Codec, e: Envelope)
    requires Faithful(c)
    ensures Norm(EnvelopeElement(c, e)) == EnvelopeElement(c, e)
  {
    HeaderNormal(c, e);
    BytesRead(c, "payload", [], e.payload);
    ElementNormal(OMEMO_NS, "encrypted", [], [HeaderElement(c, e)] + PayloadElements(c, e));
  }

  // Whatever a peer sends

  lemma {:induction false} HeaderKeysAddressed(c: Codec, e: Envelope, ns: seq<Node>)
    requires Addressed(e.keys)
    ensures var r := Fold(HeaderStep(c), Ok(e), ns);
            r.Ok? ==> Addressed(r.value.keys) && r.value.sender == e.sender && r.value.payload == e.payload
    decreases |ns|
  {
    if ns != [] {
      var next := HeaderStep(c)(Ok(e), ns[0]);
      if next.Ok? {
        forall k | k in next.value.keys
          ensures k.recipient != 0
        {
          if k !in e.keys {
            assert ParseKey(c, ns[0]) == Ok(k) && ParseDeviceId(AttrOr(ns[0], "rid")) == Ok(k.recipient);
          }
        }
        HeaderKeysAddressed(c, next.value, ns[1..]);
      } else {
        FoldErr(c, next.error, ns[1..]);
      }
    }
  }

  /** Every envelope that is accepted names its sender and is addressed, with a vector and a key. */
  lemma AcceptedEnvelope(c: Codec, n: Node)
    requires ParseEnvelope(c, n).Ok?
    ensures var e := ParseEnvelope(c, n).value;
            e.sender != 0 && Addressed(e.keys) && e.keys != [] && e.iv != []
    ensures n.name == Name("eu.siacs.conversations.axolotl", "encrypted")
  {
    var header := ChildOf(n, OMEMO_NS, "header").value;
    HeaderKeysAddressed(c, Envelope(ParseDeviceId(AttrOr(header, "sid")).value, [], [], []), ChildrenOf(header.parts));
  }

  /** Every bundle that is accepted is complete, and every device list has neither zeros nor repeats. */
  lemma AcceptedLists(c: Codec, n: Node)
    ensures ParseBundle(c, n).Ok? ==> CompleteBundle(ParseBundle(c, n).value)
    ensures ParseDeviceList(n).Ok? ==> NoRepeats(ParseDeviceList(n).value) && 0 !in ParseDeviceList(n).value
  {
  }

  /** A key's flag is on for "true" and for "1"; white space around its numbers and bytes does not matter. */
  lemma KeyTaken(c: Codec, n: Node)
    ensures var id, data := ParseUint(T.TrimSpace(AttrOr(n, "rid")), UINT32_SIZE), c.decode(T.TrimSpace(TextOf(n.parts)));
            && (ParseKey(c, n).Ok? <==> id.Ok? && id.value != 0 && data.Some?)
            && (ParseKey(c, n).Ok? ==>
                  ParseKey(c, n).value == WrappedKey(id.value, AttrValue(n, "prekey") in {Some("1"), Some("true")}, data.value))
  {
  }

  /** What others see of an envelope: its header with the sender, a key element for each key, and the vector. */
  lemma EnvelopeOnWire(c: Codec, e: Envelope, i: nat)
    requires Faithful(c) && i < |e.keys|
    ensures var ns := "eu.siacs.conversations.axolotl";
            var n, header := EnvelopeElement(c, e), HeaderElement(c, e);
            && n.name == Name(ns, "encrypted") && ChildOf(n, ns, "header") == Some(header)
            && AttrOr(header, "sid") == Format(e.sender, 10)
            && |ChildrenOf(header.parts)| == |e.keys| + 1
            && ChildrenOf(header.parts)[i].name == Name(ns, "key")
            && AttrOr(ChildrenOf(header.parts)[i], "rid") == Format(e.keys[i].recipient, 10)
            && TextOf(ChildrenOf(header.parts)[i].parts) == c.encode(e.keys[i].data)
            && ChildrenOf(header.parts)[|e.keys|].name == Name(ns, "iv")
            && TextOf(ChildrenOf(header.parts)[|e.keys|].parts) == c.encode(e.iv)
            && (e.payload != [] ==> ChildText(n, ns, "payload") == c.encode(e.payload))
  {
    var header, payload, k := HeaderElement(c, e), PayloadElements(c, e), e.keys[i];
    var cs := [header] + payload;
    ChildrenOfChildParts(cs);
    ChildrenOfChildParts(KeyElements(c, e.keys) + [BytesElement(c, "iv", [], e.iv)]);
    FirstNamedAt(cs, "header", 0);
    if payload != [] {
      FirstNamedAt(cs, "payload", 1);
      TextElementReads(OMEMO_NS, "payload", [], c.encode(e.payload));
    }
    TextElementReads(OMEMO_NS, "iv", [], c.encode(e.iv));
    TextElementReads(OMEMO_NS, "key", KeyAttrs(k), c.encode(k.data));
    AttrConcat(IdAttr("rid", k.recipient), if k.preKey then [Attribute("prekey", "true")] else [], Name("", "rid"));
  }

  // Finding a device's key

  function KeyFor(ks: seq<WrappedKey>, device: DeviceId): Option<WrappedKey> {
    if ks == [] then None
    else if ks[0].recipient == device then Some(ks[0])
    else KeyFor(ks[1..], device)
  }

  lemma {:induction false} KeyForNone(ks: seq<WrappedKey>, device: DeviceId)
    ensures KeyFor(ks, device) == None <==> forall k :: k in ks ==> k.recipient != device
    ensures KeyFor(ks, device).Some? ==> KeyFor(ks, device).value in ks && KeyFor(ks, device).value.recipient == device
  {
    if ks != [] {
      KeyForNone(ks[1..], device);
      assert forall k :: k in ks <==> k == ks[0] || k in ks[1..];
    }
  }

  /** The key found is the first with the device id. */
  lemma {:induction false} KeyForFirst(ks: seq<WrappedKey>, device: DeviceId, i: nat) returns (k: nat)
    requires i < |ks| && ks[i].recipient == device
    ensures k <= i && ks[k].recipient == device && KeyFor(ks, device) == Some(ks[k])
    ensures forall j :: 0 <= j < k ==> ks[j].recipient != device
  {
    if ks[0].recipient == device {
      k := 0;
    } else {
      k := KeyForFirst(ks[1..], device, i - 1);
      k := k + 1;
      assert forall j :: 0 < j < k ==> ks[j] == ks[1..][j - 1];
    }
  }

  /** Two devices of different JIDs may share an id; the second one is then handed the first one's key. */
  lemma SharedIdTakesFirst(id: DeviceId, a: Bytes, b: Bytes)
    ensures KeyFor([WrappedKey(id, false, a), WrappedKey(id, false, b)], id) == Some(WrappedKey(id, false, a))
  {
  }

  // The loops

  method ParseDeviceListLoop(n: Node) returns (r: Result<seq<DeviceId>, XmlError>)
    ensures r == ParseDeviceList(n)
  {
    if n.name != Name(OMEMO_NS, "list") {
      return Err(WrongElement);
    }
    var ids := FoldLoop(DeviceStep, Ok([]), ChildrenOf(n.parts));
    if ids.Err? {
      return Err(ids.error);
    }
    var out := UniqueDevices(ids.value);
    return Ok(out);
  }

  /** The loop over the header's children: it appends keys and stops at the first error. */
  method ParseHeaderLoop(c: Codec, n: Node) returns (r: Result<Envelope, XmlError>)
    ensures r == ParseHeader(c, n)
  {
    var sender := ParseDeviceId(AttrOr(n, "sid"));
    if sender.Err? {
      return Err(sender.error);
    }
    var e := Envelope(sender.value, [], [], []);
    var cs := ChildrenOf(n.parts);
    assert cs[0..] == cs;
    for i := 0 to |cs|
      invariant Fold(HeaderStep(c), Ok(e), cs[i..]) == ParseHeader(c, n)
    {
      assert cs[i..][0] == cs[i] && cs[i..][1..] == cs[i + 1..];
      if cs[i].name.local == "key" {
        var key := ParseKey(c, cs[i]);
        if key.Err? {
          FoldErr(c, key.error, cs[i + 1..]);
          return Err(key.error);
        }
        e := e.(keys := e.keys + [key.value]);
      } else if cs[i].name.local == "iv" {
        var iv := ParseBytes(c, cs[i]);
        if iv.Err? {
          FoldErr(c, iv.error, cs[i + 1..]);
          return Err(iv.error);
        }
        e := e.(iv := iv.value);
      }
    }
    return Ok(e);
  }

  method FindKey(ks: seq<WrappedKey>, device: DeviceId) returns (r: Option<WrappedKey>)
    ensures r == KeyFor(ks, device)
  {
    assert ks[0..] == ks;
    for i := 0 to |ks|
      invariant KeyFor(ks, device) == KeyFor(ks[i..], device)
    {
      assert ks[i..][0] == ks[i] && ks[i..][1..] == ks[i + 1..];
      if ks[i].recipient == device {
        return Some(ks[i]);
      }
    }
    return None;
  }
}
