/** XEP-0004 data forms: printing to an element, parsing it back, and validating. */
module Forms {
  import opened Wrappers
  import opened Numerals
  import opened XmlTree

  const FORMS_NS := "jabber:x:data"
  const VALIDATION_NS := "http://jabber.org/protocol/xdata-validate"
  const MEDIA_NS := "urn:xmpp:media-element"

  datatype Choice = Choice(caption: string, value: string)

  datatype Uri = Uri(kind: string, value: string)

  datatype Media = Media(height: int64, width: int64, uris: seq<Uri>)

  datatype Validation = Validation(
    datatypeName: string, regex: string, min: string, max: string, technique: string,
    listMin: Option<int64>, listMax: Option<int64>)

  datatype Field = Field(
    name: string, caption: string, desc: string, kind: string, required: bool, values: seq<string>,
    choices: seq<Choice>, validation: Option<Validation>, media: Option<Media>)

  datatype Form = Form(
    kind: string, title: string, instructions: seq<string>, fields: seq<Field>,
    reported: Option<seq<Field>>, items: seq<seq<Field>>)

  // Printing

  function Plain(local: string): Name {
    Name("", local)
  }

  function Texts(local: string, vs: seq<string>): seq<Node> {
    seq(|vs|, i requires 0 <= i < |vs| => TextElement(FORMS_NS, local, [], vs[i]))
  }

  function ChoiceElement(o: Choice): Node {
    Element(FORMS_NS, "option", Optional(Plain("label"), o.caption), [TextElement(FORMS_NS, "value", [], o.value)])
  }

  function ChoiceElements(os: seq<Choice>): seq<Node> {
    seq(|os|, i requires 0 <= i < |os| => ChoiceElement(os[i]))
  }

  function TechniqueElements(v: Validation): seq<Node> {
    if v.technique == "" || v.technique == "basic" then [Element(VALIDATION_NS, "basic", [], [])]
    else if v.technique == "open" then [Element(VALIDATION_NS, "open", [], [])]
    else if v.technique == "range"
    then [Element(VALIDATION_NS, "range", Optional(Plain("min"), v.min) + Optional(Plain("max"), v.max), [])]
    else if v.technique == "regex" then [TextElement(VALIDATION_NS, "regex", [], v.regex)]
    else []
  }

  function IntAttr(local: string, n: Option<int64>): seq<Attr> {
    match n
    case Some(k) => [Attr(Plain(local), Itoa(k))]
    case None => []
  }

  function ListRangeElement(v: Validation): Node {
    Element(VALIDATION_NS, "list-range", IntAttr("min", v.listMin) + IntAttr("max", v.listMax), [])
  }

  function ListRangeElements(v: Validation): seq<Node> {
    if v.listMin.None? && v.listMax.None? then []
    else [ListRangeElement(v)]
  }

  function ValidationElement(v: Validation): Node {
    Element(VALIDATION_NS, "validate", Optional(Plain("datatype"), v.datatypeName),
            TechniqueElements(v) + ListRangeElements(v))
  }

  function SizeAttr(local: string, n: int64): seq<Attr> {
    if n > 0 then [Attr(Plain(local), Itoa(n))] else []
  }

  function UriElement(u: Uri): Node {
    TextElement(MEDIA_NS, "uri", Optional(Plain("type"), u.kind), u.value)
  }

  function UriElements(us: seq<Uri>): seq<Node> {
    seq(|us|, i requires 0 <= i < |us| => UriElement(us[i]))
  }

  function MediaElement(m: Media): Node {
    Element(MEDIA_NS, "media", SizeAttr("height", m.height) + SizeAttr("width", m.width), UriElements(m.uris))
  }

  function FieldAttrs(f: Field): seq<Attr> {
    Optional(Plain("var"), f.name) + Optional(Plain("label"), f.caption) + Optional(Plain("type"), f.kind)
  }

  function Single<T>(present: bool, x: T): seq<T> {
    if present then [x] else []
  }

  function DescElements(f: Field): seq<Node> {
    Single(f.desc != "", TextElement(FORMS_NS, "desc", [], f.desc))
  }

  function RequiredElements(f: Field): seq<Node> {
    Single(f.required, Element(FORMS_NS, "required", [], []))
  }

  function ValidationElements(f: Field): seq<Node> {
    match f.validation
    case Some(v) => [ValidationElement(v)]
    case None => []
  }

  function MediaElements(f: Field): seq<Node> {
    match f.media
    case Some(m) => [MediaElement(m)]
    case None => []
  }

  function FieldElement(f: Field): Node {
    Element(FORMS_NS, "field", FieldAttrs(f),
            DescElements(f) + RequiredElements(f) + Texts("value", f.values) + ChoiceElements(f.choices)
            + ValidationElements(f) + MediaElements(f))
  }

  function FieldElements(fs: seq<Field>): seq<Node> {
    seq(|fs|, i requires 0 <= i < |fs| => FieldElement(fs[i]))
  }

  function ItemElements(items: seq<seq<Field>>): seq<Node> {
    seq(|items|, i requires 0 <= i < |items| => Element(FORMS_NS, "item", [], FieldElements(items[i])))
  }

  function TitleElements(f: Form): seq<Node> {
    Single(f.title != "", TextElement(FORMS_NS, "title", [], f.title))
  }

  function ReportedElements(f: Form): seq<Node> {
    match f.reported
    case Some(fs) => [Element(FORMS_NS, "reported", [], FieldElements(fs))]
    case None => []
  }

  function FormElement(f: Form): Node {
    Element(FORMS_NS, "x", Optional(Plain("type"), f.kind),
            TitleElements(f) + Texts("instructions", f.instructions) + FieldElements(f.fields)
            + ReportedElements(f) + ItemElements(f.items))
  }

  // Parsing

  const NO_VALIDATION := Validation("", "", "", "", "", None, None)

  /** A list bound is replaced only by a number that parses. */
  function IntAttrOr(n: Node, local: string, kept: Option<int64>): Option<int64> {
    match AttrValue(n, local)
    case None => kept
    case Some(text) =>
      match Atoi(text)
      case Ok(k) => Some(k)
      case Err(_) => kept
  }

  function ValidationStep(v: Validation, c: Node): Validation {
    if c.name.local == "basic" then v.(technique := "basic")
    else if c.name.local == "open" then v.(technique := "open")
    else if c.name.local == "range" then v.(technique := "range", min := AttrOr(c, "min"), max := AttrOr(c, "max"))
    else if c.name.local == "regex" then v.(technique := "regex", regex := TextOf(c.parts))
    else if c.name.local == "list-range"
    then v.(listMin := IntAttrOr(c, "min", v.listMin), listMax := IntAttrOr(c, "max", v.listMax))
    else v
  }

  function ParseValidation(n: Node): Validation {
    Fold(ValidationStep, NO_VALIDATION.(datatypeName := AttrOr(n, "datatype")), ChildrenOf(n.parts))
  }

  /** A number out of range is clamped, other text reads as zero: the error is dropped, not the value. */
  function SizeOf(n: Node, local: string): int64 {
    match AttrValue(n, local)
    case None => 0
    case Some(text) =>
      match Atoi(text)
      case Ok(k) => k
      case Err(Range) => if text[..1] == "-" then -0x8000_0000_0000_0000 else 0x7fff_ffff_ffff_ffff
      case Err(Syntax) => 0
  }

  function MediaStep(m: Media, c: Node): Media {
    if c.name.local == "uri" then m.(uris := m.uris + [Uri(AttrOr(c, "type"), TextOf(c.parts))]) else m
  }

  function ParseMedia(n: Node): Media {
    Fold(MediaStep, Media(SizeOf(n, "height"), SizeOf(n, "width"), []), ChildrenOf(n.parts))
  }

  function FieldStep(f: Field, c: Node): Field {
    if c.name.local == "desc" then f.(desc := TextOf(c.parts))
    else if c.name.local == "required" then f.(required := true)
    else if c.name.local == "value" then f.(values := f.values + [TextOf(c.parts)])
    else if c.name.local == "option"
    then f.(choices := f.choices + [Choice(AttrOr(c, "label"), ChildText(c, FORMS_NS, "value"))])
    else if c.name.local == "validate" then f.(validation := Some(ParseValidation(c)))
    else if c.name.local == "media" then f.(media := Some(ParseMedia(c)))
    else f
  }

  function BlankField(name: string, caption: string, kind: string): Field {
    Field(name, caption, "", kind, false, [], [], None, None)
  }

  function ParseField(n: Node): Field {
    Fold(FieldStep, BlankField(AttrOr(n, "var"), AttrOr(n, "label"), AttrOr(n, "type")), ChildrenOf(n.parts))
  }

  function FieldsStep(fs: seq<Field>, c: Node): seq<Field> {
    if c.name.local == "field" then fs + [ParseField(c)] else fs
  }

  function ParseFields(n: Node): seq<Field> {
    Fold(FieldsStep, [], ChildrenOf(n.parts))
  }

  function FormStep(f: Form, c: Node): Form {
    if c.name.local == "title" then f.(title := TextOf(c.parts))
    else if c.name.local == "instructions" then f.(instructions := f.instructions + [TextOf(c.parts)])
    else if c.name.local == "field" then f.(fields := f.fields + [ParseField(c)])
    else if c.name.local == "reported" then f.(reported := Some(ParseFields(c)))
    else if c.name.local == "item" then f.(items := f.items + [ParseFields(c)])
    else f
  }

  function ParseForm(n: Node): Option<Form> {
    if n.name != Name(FORMS_NS, "x") then None
    else Some(Fold(FormStep, Form(AttrOr(n, "type"), "", [], [], None, []), ChildrenOf(n.parts)))
  }

  // Normal form

  predicate KnownTechnique(technique: string) {
    technique in {"basic", "open", "range", "regex"}
  }

  /** The technique defaults to basic, an unknown one is lost, and bounds of other techniques are dropped. */
  function NormValidation(v: Validation): Validation {
    var technique := if v.technique == "" then "basic" else if KnownTechnique(v.technique) then v.technique else "";
    Validation(v.datatypeName, if technique == "regex" then v.regex else "",
               if technique == "range" then v.min else "", if technique == "range" then v.max else "",
               technique, v.listMin, v.listMax)
  }

  /** Sizes that are not positive come back as zero. */
  function NormMedia(m: Media): Media {
    m.(height := if m.height > 0 then m.height else 0, width := if m.width > 0 then m.width else 0)
  }

  function NormField(f: Field): Field {
    f.(validation := match f.validation case Some(v) => Some(NormValidation(v)) case None => None,
       media := match f.media case Some(m) => Some(NormMedia(m)) case None => None)
  }

  function NormFields(fs: seq<Field>): seq<Field> {
    seq(|fs|, i requires 0 <= i < |fs| => NormField(fs[i]))
  }

  function NormItems(items: seq<seq<Field>>): seq<seq<Field>> {
    seq(|items|, i requires 0 <= i < |items| => NormFields(items[i]))
  }

  function NormForm(f: Form): Form {
    f.(fields := NormFields(f.fields), items := NormItems(f.items),
       reported := match f.reported case Some(fs) => Some(NormFields(fs)) case None => None)
  }

  // The printed elements are normal trees, so the token stream carries them unchanged

  predicate AllNormal(ns: seq<Node>) {
    forall n :: n in ns ==> Norm(n) == n
  }

  lemma TextsNormal(local: string, vs: seq<string>)
    ensures AllNormal(Texts(local, vs))
  {
    forall n | n in Texts(local, vs)
      ensures Norm(n) == n
    {
      var i :| 0 <= i < |vs| && n == TextElement(FORMS_NS, local, [], vs[i]);
      TextElementReads(FORMS_NS, local, [], vs[i]);
    }
  }

  lemma ChoiceElementsNormal(os: seq<Choice>)
    ensures AllNormal(ChoiceElements(os))
  {
    forall n | n in ChoiceElements(os)
      ensures Norm(n) == n
    {
      var i :| 0 <= i < |os| && n == ChoiceElement(os[i]);
      TextElementReads(FORMS_NS, "value", [], os[i].value);
      ElementNormal(FORMS_NS, "option", Optional(Plain("label"), os[i].caption),
                    [TextElement(FORMS_NS, "value", [], os[i].value)]);
    }
  }

  lemma ValidationElementNormal(v: Validation)
    ensures Norm(ValidationElement(v)) == ValidationElement(v)
  {
    TextElementReads(VALIDATION_NS, "regex", [], v.regex);
    ElementNormal(VALIDATION_NS, "basic", [], []);
    ElementNormal(VALIDATION_NS, "open", [], []);
    ElementNormal(VALIDATION_NS, "range", Optional(Plain("min"), v.min) + Optional(Plain("max"), v.max), []);
    ElementNormal(VALIDATION_NS, "list-range", IntAttr("min", v.listMin) + IntAttr("max", v.listMax), []);
    ElementNormal(VALIDATION_NS, "validate", Optional(Plain("datatype"), v.datatypeName),
                  TechniqueElements(v) + ListRangeElements(v));
  }

  lemma MediaElementNormal(m: Media)
    ensures Norm(MediaElement(m)) == MediaElement(m)
  {
    forall n | n in UriElements(m.uris)
      ensures Norm(n) == n
    {
      var i :| 0 <= i < |m.uris| && n == UriElement(m.uris[i]);
      TextElementReads(MEDIA_NS, "uri", Optional(Plain("type"), m.uris[i].kind), m.uris[i].value);
    }
    ElementNormal(MEDIA_NS, "media", SizeAttr("height", m.height) + SizeAttr("width", m.width), UriElements(m.uris));
  }

  lemma FieldElementNormal(f: Field)
    ensures Norm(FieldElement(f)) == FieldElement(f)
  {
    TextElementReads(FORMS_NS, "desc", [], f.desc);
    ElementNormal(FORMS_NS, "required", [], []);
    TextsNormal("value", f.values);
    ChoiceElementsNormal(f.choices);
    if f.validation.Some? {
      ValidationElementNormal(f.validation.value);
    }
    if f.media.Some? {
      MediaElementNormal(f.media.value);
    }
    ElementNormal(FORMS_NS, "field", FieldAttrs(f),
                  DescElements(f) + RequiredElements(f) + Texts("value", f.values) + ChoiceElements(f.choices)
                  + ValidationElements(f) + MediaElements(f));
  }

  lemma FieldElementsNormal(fs: seq<Field>)
    ensures AllNormal(FieldElements(fs))
  {
    forall n | n in FieldElements(fs)
      ensures Norm(n) == n
    {
      var i :| 0 <= i < |fs| && n == FieldElement(fs[i]);
      FieldElementNormal(fs[i]);
    }
  }

  lemma GroupNormal(local: string, fs: seq<Field>)
    ensures Norm(Element(FORMS_NS, local, [], FieldElements(fs))) == Element(FORMS_NS, local, [], FieldElements(fs))
  {
    FieldElementsNormal(fs);
    ElementNormal(FORMS_NS, local, [], FieldElements(fs));
  }

  lemma FormElementNormal(f: Form)
    ensures Norm(FormElement(f)) == FormElement(f)
  {
    TextElementReads(FORMS_NS, "title", [], f.title);
    TextsNormal("instructions", f.instructions);
    FieldElementsNormal(f.fields);
    if f.reported.Some? {
      GroupNormal("reported", f.reported.value);
    }
    forall n | n in ItemElements(f.items)
      ensures Norm(n) == n
    {
      var i :| 0 <= i < |f.items| && n == Element(FORMS_NS, "item", [], FieldElements(f.items[i]));
      GroupNormal("item", f.items[i]);
    }
    ElementNormal(FORMS_NS, "x", Optional(Plain("type"), f.kind),
                  TitleElements(f) + Texts("instructions", f.instructions) + FieldElements(f.fields)
                  + ReportedElements(f) + ItemElements(f.items));
  }

  // Parsing undoes printing, up to the normal form

  lemma IntAttrsRead(v: Validation)
    ensures var attrs := IntAttr("min", v.listMin) + IntAttr("max", v.listMax);
            && AttrValueNS(attrs, Plain("min")) == (if v.listMin.Some? then Some(Itoa(v.listMin.value)) else None)
            && AttrValueNS(attrs, Plain("max")) == (if v.listMax.Some? then Some(Itoa(v.listMax.value)) else None)
  {
    var a, b := IntAttr("min", v.listMin), IntAttr("max", v.listMax);
    AttrConcat(a, b, Plain("min"));
    AttrConcat(a, b, Plain("max"));
    assert forall k: string, n: Option<int64> :: n.Some? ==> IntAttr(k, n)[1..] == [];
  }

  lemma BoundsRead(v: Validation)
    ensures IntAttrOr(ListRangeElement(v), "min", None) == v.listMin
    ensures IntAttrOr(ListRangeElement(v), "max", None) == v.listMax
  {
    IntAttrsRead(v);
    if v.listMin.Some? {
      AtoiItoa(v.listMin.value);
    }
    if v.listMax.Some? {
      AtoiItoa(v.listMax.value);
    }
  }

  lemma BoundsStep(v: Validation, acc: Validation, e: Node)
    requires acc.listMin.None? && acc.listMax.None? && e.name.local == "list-range"
    requires IntAttrOr(e, "min", None) == v.listMin && IntAttrOr(e, "max", None) == v.listMax
    ensures ValidationStep(acc, e) == acc.(listMin := v.listMin, listMax := v.listMax)
  {
  }

  lemma ListRangeReads(v: Validation, acc: Validation)
    requires acc.listMin.None? && acc.listMax.None?
    ensures Fold(ValidationStep, acc, ListRangeElements(v)) == acc.(listMin := v.listMin, listMax := v.listMax)
  {
    BoundsRead(v);
    BoundsStep(v, acc, ListRangeElement(v));
    FoldOne(ValidationStep, acc, ListRangeElement(v));
  }

  lemma RangeAttrsRead(v: Validation)
    ensures var n := Element(VALIDATION_NS, "range", Optional(Plain("min"), v.min) + Optional(Plain("max"), v.max), []);
            AttrOr(n, "min") == v.min && AttrOr(n, "max") == v.max
  {
    var a, b := Optional(Plain("min"), v.min), Optional(Plain("max"), v.max);
    AttrConcat(a, b, Plain("min"));
    AttrConcat(a, b, Plain("max"));
    OptionalReads(Plain("min"), v.min, Plain("min"));
    OptionalReads(Plain("min"), v.min, Plain("max"));
    OptionalReads(Plain("max"), v.max, Plain("min"));
    OptionalReads(Plain("max"), v.max, Plain("max"));
  }

  lemma TechniqueReads(v: Validation, acc: Validation)
    requires acc == NO_VALIDATION.(datatypeName := v.datatypeName)
    ensures Fold(ValidationStep, acc, TechniqueElements(v)) == NormValidation(v).(listMin := None, listMax := None)
  {
    if v.technique == "" || KnownTechnique(v.technique) {
      var es := TechniqueElements(v);
      FoldOne(ValidationStep, acc, es[0]);
      assert es == [es[0]];
      RangeAttrsRead(v);
      TextElementReads(VALIDATION_NS, "regex", [], v.regex);
    }
  }

  lemma ValidationReads(v: Validation)
    ensures ParseValidation(ValidationElement(v)) == NormValidation(v)
  {
    var acc := NO_VALIDATION.(datatypeName := v.datatypeName);
    OptionalReads(Plain("datatype"), v.datatypeName, Plain("datatype"));
    ChildrenOfChildParts(TechniqueElements(v) + ListRangeElements(v));
    FoldConcat(ValidationStep, acc, TechniqueElements(v), ListRangeElements(v));
    TechniqueReads(v, acc);
    ListRangeReads(v, NormValidation(v).(listMin := None, listMax := None));
  }

  lemma SizeReads(m: Media)
    ensures SizeOf(MediaElement(m), "height") == NormMedia(m).height
    ensures SizeOf(MediaElement(m), "width") == NormMedia(m).width
  {
    var a, b := SizeAttr("height", m.height), SizeAttr("width", m.width);
    AttrConcat(a, b, Plain("height"));
    AttrConcat(a, b, Plain("width"));
    if m.height > 0 {
      assert a[1..] == [];
      AtoiItoa(m.height);
    }
    if m.width > 0 {
      assert b[1..] == [];
      AtoiItoa(m.width);
    }
  }

  lemma UriReads(m: Media, u: Uri)
    ensures MediaStep(m, UriElement(u)) == m.(uris := m.uris + [u])
  {
    TextElementReads(MEDIA_NS, "uri", Optional(Plain("type"), u.kind), u.value);
    OptionalReads(Plain("type"), u.kind, Plain("type"));
  }

  lemma MediaReads(m: Media)
    ensures ParseMedia(MediaElement(m)) == NormMedia(m)
  {
    SizeReads(m);
    var start := NormMedia(m).(uris := []);
    ChildrenOfChildParts(UriElements(m.uris));
    var put := (c: seq<Uri>) => start.(uris := c);
    var es, ys := UriElements(m.uris), m.uris;
    forall c: seq<Uri>, i | 0 <= i < |es|
      ensures MediaStep(put(c), es[i]) == put(c + [ys[i]])
    {
      UriReads(put(c), ys[i]);
    }
    FoldCollects(MediaStep, put, [], es, ys);
    assert put([]) == start && [] + ys == ys;
  }

  lemma FieldAttrsRead(f: Field)
    ensures var n := FieldElement(f);
            AttrOr(n, "var") == f.name && AttrOr(n, "label") == f.caption && AttrOr(n, "type") == f.kind
  {
    var a, b, c := Optional(Plain("var"), f.name), Optional(Plain("label"), f.caption), Optional(Plain("type"), f.kind);
    forall name
      ensures AttrValueNS(FieldAttrs(f), name)
           == var v := if name == Plain("var") then f.name else if name == Plain("label") then f.caption
                       else if name == Plain("type") then f.kind else "";
              if v == "" then None else Some(v)
    {
      AttrConcat(a + b, c, name);
      AttrConcat(a, b, name);
      OptionalReads(Plain("var"), f.name, name);
      OptionalReads(Plain("label"), f.caption, name);
      OptionalReads(Plain("type"), f.kind, name);
    }
  }

  lemma ValueReads(acc: Field, v: string)
    ensures FieldStep(acc, TextElement(FORMS_NS, "value", [], v)) == acc.(values := acc.values + [v])
  {
    TextElementReads(FORMS_NS, "value", [], v);
  }

  lemma ValuesRead(acc: Field, vs: seq<string>)
    requires acc.values == []
    ensures Fold(FieldStep, acc, Texts("value", vs)) == acc.(values := vs)
  {
    var put := (c: seq<string>) => acc.(values := c);
    var es, ys := Texts("value", vs), vs;
    forall c: seq<string>, i | 0 <= i < |es|
      ensures FieldStep(put(c), es[i]) == put(c + [ys[i]])
    {
      ValueReads(put(c), vs[i]);
    }
    FoldCollects(FieldStep, put, [], es, ys);
    assert put([]) == acc && [] + ys == ys;
  }

  lemma ChoiceReads(acc: Field, o: Choice)
    ensures FieldStep(acc, ChoiceElement(o)) == acc.(choices := acc.choices + [o])
  {
    OptionalReads(Plain("label"), o.caption, Plain("label"));
    TextElementReads(FORMS_NS, "value", [], o.value);
    ChildrenOfChildParts([TextElement(FORMS_NS, "value", [], o.value)]);
  }

  lemma ChoicesRead(acc: Field, os: seq<Choice>)
    requires acc.choices == []
    ensures Fold(FieldStep, acc, ChoiceElements(os)) == acc.(choices := os)
  {
    var put := (c: seq<Choice>) => acc.(choices := c);
    var es, ys := ChoiceElements(os), os;
    forall c: seq<Choice>, i | 0 <= i < |es|
      ensures FieldStep(put(c), es[i]) == put(c + [ys[i]])
    {
      ChoiceReads(put(c), os[i]);
    }
    FoldCollects(FieldStep, put, [], es, ys);
    assert put([]) == acc && [] + ys == ys;
  }

  // The sections of a field that hold at most one child

  lemma DescReads(acc: Field, f: Field)
    requires acc.desc == ""
    ensures Fold(FieldStep, acc, DescElements(f)) == acc.(desc := f.desc)
  {
    FoldOne(FieldStep, acc, TextElement(FORMS_NS, "desc", [], f.desc));
    TextElementReads(FORMS_NS, "desc", [], f.desc);
  }

  lemma RequiredSectionReads(acc: Field, f: Field)
    requires !acc.required
    ensures Fold(FieldStep, acc, RequiredElements(f)) == acc.(required := f.required)
  {
    FoldOne(FieldStep, acc, Element(FORMS_NS, "required", [], []));
  }

  lemma ValidationSectionReads(acc: Field, f: Field)
    requires acc.validation.None?
    ensures Fold(FieldStep, acc, ValidationElements(f)) == acc.(validation := NormField(f).validation)
  {
    if f.validation.Some? {
      FoldOne(FieldStep, acc, ValidationElement(f.validation.value));
      ValidationReads(f.validation.value);
    }
  }

  lemma MediaSectionReads(acc: Field, f: Field)
    requires acc.media.None?
    ensures Fold(FieldStep, acc, MediaElements(f)) == acc.(media := NormField(f).media)
  {
    if f.media.Some? {
      FoldOne(FieldStep, acc, MediaElement(f.media.value));
      MediaReads(f.media.value);
    }
  }

  lemma FieldReads(f: Field)
    ensures ParseField(FieldElement(f)) == NormField(f)
  {
    FieldAttrsRead(f);
    var b, n := BlankField(f.name, f.caption, f.kind), NormField(f);
    var d, r, v, o := DescElements(f), RequiredElements(f), Texts("value", f.values), ChoiceElements(f.choices);
    var w, m := ValidationElements(f), MediaElements(f);
    ChildrenOfChildParts(d + r + v + o + w + m);
    FoldConcat(FieldStep, b, d + r + v + o + w, m);
    FoldConcat(FieldStep, b, d + r + v + o, w);
    FoldConcat(FieldStep, b, d + r + v, o);
    FoldConcat(FieldStep, b, d + r, v);
    FoldConcat(FieldStep, b, d, r);
    var b1 := b.(desc := f.desc);
    var b2 := b1.(required := f.required);
    var b3 := b2.(values := f.values);
    var b4 := b3.(choices := f.choices);
    DescReads(b, f);
    RequiredSectionReads(b1, f);
    ValuesRead(b2, f.values);
    ChoicesRead(b3, f.choices);
    ValidationSectionReads(b4, f);
    MediaSectionReads(b4.(validation := n.validation), f);
  }

  lemma FieldsStepReads(acc: seq<Field>, f: Field)
    ensures FieldsStep(acc, FieldElement(f)) == acc + [NormField(f)]
  {
    FieldReads(f);
  }

  lemma FieldsRead(local: string, fs: seq<Field>)
    ensures ParseFields(Element(FORMS_NS, local, [], FieldElements(fs))) == NormFields(fs)
  {
    var put := (c: seq<Field>) => c;
    var es, ys := FieldElements(fs), NormFields(fs);
    ChildrenOfChildParts(es);
    forall c: seq<Field>, i | 0 <= i < |es|
      ensures FieldsStep(put(c), es[i]) == put(c + [ys[i]])
    {
      FieldsStepReads(c, fs[i]);
    }
    FoldCollects(FieldsStep, put, [], es, ys);
    assert [] + ys == ys;
  }

  lemma InstructionReads(acc: Form, v: string)
    ensures FormStep(acc, TextElement(FORMS_NS, "instructions", [], v)) == acc.(instructions := acc.instructions + [v])
  {
    TextElementReads(FORMS_NS, "instructions", [], v);
  }

  lemma InstructionsRead(acc: Form, vs: seq<string>)
    requires acc.instructions == []
    ensures Fold(FormStep, acc, Texts("instructions", vs)) == acc.(instructions := vs)
  {
    var put := (c: seq<string>) => acc.(instructions := c);
    var es, ys := Texts("instructions", vs), vs;
    forall c: seq<string>, i | 0 <= i < |es|
      ensures FormStep(put(c), es[i]) == put(c + [ys[i]])
    {
      InstructionReads(put(c), vs[i]);
    }
    FoldCollects(FormStep, put, [], es, ys);
    assert put([]) == acc && [] + ys == ys;
  }

  lemma FormFieldReads(acc: Form, f: Field)
    ensures FormStep(acc, FieldElement(f)) == acc.(fields := acc.fields + [NormField(f)])
  {
    FieldReads(f);
  }

  lemma FormFieldsRead(acc: Form, fs: seq<Field>)
    requires acc.fields == []
    ensures Fold(FormStep, acc, FieldElements(fs)) == acc.(fields := NormFields(fs))
  {
    var put := (c: seq<Field>) => acc.(fields := c);
    var es, ys := FieldElements(fs), NormFields(fs);
    forall c: seq<Field>, i | 0 <= i < |es|
      ensures FormStep(put(c), es[i]) == put(c + [ys[i]])
    {
      FormFieldReads(put(c), fs[i]);
    }
    FoldCollects(FormStep, put, [], es, ys);
    assert put([]) == acc && [] + ys == ys;
  }

  lemma ItemReads(acc: Form, fs: seq<Field>)
    ensures FormStep(acc, Element(FORMS_NS, "item", [], FieldElements(fs))) == acc.(items := acc.items + [NormFields(fs)])
  {
    FieldsRead("item", fs);
  }

  lemma ItemsRead(acc: Form, items: seq<seq<Field>>)
    requires acc.items == []
    ensures Fold(FormStep, acc, ItemElements(items)) == acc.(items := NormItems(items))
  {
    var put := (c: seq<seq<Field>>) => acc.(items := c);
    var es, ys := ItemElements(items), NormItems(items);
    forall c: seq<seq<Field>>, i | 0 <= i < |es|
      ensures FormStep(put(c), es[i]) == put(c + [ys[i]])
    {
      ItemReads(put(c), items[i]);
    }
    FoldCollects(FormStep, put, [], es, ys);
    assert put([]) == acc && [] + ys == ys;
  }

  lemma TitleReads(acc: Form, f: Form)
    requires acc.title == ""
    ensures Fold(FormStep, acc, TitleElements(f)) == acc.(title := f.title)
  {
    FoldOne(FormStep, acc, TextElement(FORMS_NS, "title", [], f.title));
    TextElementReads(FORMS_NS, "title", [], f.title);
  }

  lemma ReportedReads(acc: Form, f: Form)
    requires acc.reported.None?
    ensures Fold(FormStep, acc, ReportedElements(f)) == acc.(reported := NormForm(f).reported)
  {
    if f.reported.Some? {
      FoldOne(FormStep, acc, Element(FORMS_NS, "reported", [], FieldElements(f.reported.value)));
      FieldsRead("reported", f.reported.value);
    }
  }

  lemma FormReads(f: Form)
    ensures ParseForm(FormElement(f)) == Some(NormForm(f))
  {
    var n, b := NormForm(f), Form(f.kind, "", [], [], None, []);
    OptionalReads(Plain("type"), f.kind, Plain("type"));
    var t, s, d := TitleElements(f), Texts("instructions", f.instructions), FieldElements(f.fields);
    var r, m := ReportedElements(f), ItemElements(f.items);
    ChildrenOfChildParts(t + s + d + r + m);
    FoldConcat(FormStep, b, t + s + d + r, m);
    FoldConcat(FormStep, b, t + s + d, r);
    FoldConcat(FormStep, b, t + s, d);
    FoldConcat(FormStep, b, t, s);
    var b1 := b.(title := f.title);
    var b2 := b1.(instructions := f.instructions);
    var b3 := b2.(fields := n.fields);
    TitleReads(b, f);
    InstructionsRead(b1, f.instructions);
    FormFieldsRead(b2, f.fields);
    ReportedReads(b3, f);
    ItemsRead(b3.(reported := n.reported), f.items);
  }

  /** A form printed into the token stream, whatever follows it, parses back to its normal form. */
  lemma FormRoundTrip(f: Form, rest: seq<Token>) returns (n: Node)
    ensures Read(Tokens(FormElement(f)) + rest) == Some((n, rest))
    ensures ParseForm(n) == Some(NormForm(f))
  {
    n := FormElement(f);
    ReadPrinted(n, rest);
    FormElementNormal(f);
    FormReads(f);
  }

  // Whatever a peer sends

  /** Every element of the right name is a form; unknown children are passed over. */
  lemma FormAcceptedIff(n: Node)
    ensures ParseForm(n).Some? <==> n.name.space == "jabber:x:data" && n.name.local == "x"
    ensures forall f: Form, c: Node ::
              c.name.local !in {"title", "instructions", "field", "reported", "item"} ==> FormStep(f, c) == f
  {
  }

  /** A size that is no number is zero, and one that does not fit is the nearest that does. */
  lemma SizeTaken(n: Node, local: string, digits: string)
    requires IsNumeral(digits, 10)
    ensures AttrValue(n, local) == None ==> SizeOf(n, local) == 0
    ensures AttrValue(n, local) == Some(digits) ==>
              SizeOf(n, local)
              == if Value(digits, 10) < 0x8000_0000_0000_0000 then Value(digits, 10) else 0x7fff_ffff_ffff_ffff
    ensures AttrValue(n, local) == Some("-" + digits) ==>
              SizeOf(n, local)
              == if Value(digits, 10) <= 0x8000_0000_0000_0000 then -(Value(digits, 10) as int) else -0x8000_0000_0000_0000
    ensures AttrValue(n, local) == Some("") ==> SizeOf(n, local) == 0
  {
    assert ("-" + digits)[1..] == digits && ("-" + digits)[..1] == "-";
    assert DigitValue(digits[0]) < 10;
    assert digits[..1][0] == digits[0];
  }

  /** A list bound that is no number leaves the bound before it. */
  lemma BoundTaken(n: Node, local: string, before: Option<int64>)
    ensures AttrValue(n, local) == None ==> IntAttrOr(n, local, before) == before
    ensures AttrValue(n, local).Some? && Atoi(AttrValue(n, local).value).Err? ==> IntAttrOr(n, local, before) == before
    ensures forall k: int64 :: AttrValue(n, local) == Some(Itoa(k)) ==> IntAttrOr(n, local, before) == Some(k)
  {
    forall k: int64 | AttrValue(n, local) == Some(Itoa(k))
      ensures IntAttrOr(n, local, before) == Some(k)
    {
      AtoiItoa(k);
    }
  }

  // What survives the trip

  predicate CanonicalValidation(v: Validation) {
    && KnownTechnique(v.technique)
    && (v.technique != "regex" ==> v.regex == "")
    && (v.technique != "range" ==> v.min == "" && v.max == "")
  }

  predicate CanonicalField(f: Field) {
    && (f.validation.Some? ==> CanonicalValidation(f.validation.value))
    && (f.media.Some? ==> f.media.value.height >= 0 && f.media.value.width >= 0)
  }

  /** The field's validation technique is one the parser knows, or is left to the default. */
  predicate RecognisedField(f: Field) {
    f.validation.Some? ==> f.validation.value.technique == "" || KnownTechnique(f.validation.value.technique)
  }

  predicate EveryIn(fs: seq<Field>, p: Field -> bool) {
    forall i :: 0 <= i < |fs| ==> p(fs[i])
  }

  predicate EveryField(f: Form, p: Field -> bool) {
    && EveryIn(f.fields, p)
    && (f.reported.Some? ==> EveryIn(f.reported.value, p))
    && forall i :: 0 <= i < |f.items| ==> EveryIn(f.items[i], p)
  }

  lemma NormFieldFixedIff(f: Field)
    ensures NormField(f) == f <==> CanonicalField(f)
    ensures NormField(NormField(f)) == NormField(f) <==> RecognisedField(f)
    ensures RecognisedField(NormField(f))
  {
  }

  lemma NormFieldsFixedIff(fs: seq<Field>)
    ensures NormFields(fs) == fs <==> EveryIn(fs, CanonicalField)
    ensures NormFields(NormFields(fs)) == NormFields(fs) <==> EveryIn(fs, RecognisedField)
    ensures EveryIn(NormFields(fs), RecognisedField)
  {
    forall i | 0 <= i < |fs|
      ensures NormFields(fs)[i] == fs[i] <==> CanonicalField(fs[i])
      ensures NormFields(NormFields(fs))[i] == NormFields(fs)[i] <==> RecognisedField(fs[i])
      ensures RecognisedField(NormFields(fs)[i])
    {
      NormFieldFixedIff(fs[i]);
    }
  }

  lemma NormItemsFixedIff(items: seq<seq<Field>>)
    ensures NormItems(items) == items <==> forall i :: 0 <= i < |items| ==> EveryIn(items[i], CanonicalField)
    ensures NormItems(NormItems(items)) == NormItems(items)
       <==> forall i :: 0 <= i < |items| ==> EveryIn(items[i], RecognisedField)
    ensures forall i :: 0 <= i < |items| ==> EveryIn(NormItems(items)[i], RecognisedField)
  {
    forall i | 0 <= i < |items|
      ensures NormItems(items)[i] == items[i] <==> EveryIn(items[i], CanonicalField)
      ensures NormItems(NormItems(items))[i] == NormItems(items)[i] <==> EveryIn(items[i], RecognisedField)
      ensures EveryIn(NormItems(items)[i], RecognisedField)
    {
      NormFieldsFixedIff(items[i]);
    }
  }

  /** A form comes back unchanged exactly when all its fields are canonical. */
  lemma FormSurvivesIff(f: Form)
    ensures ParseForm(FormElement(f)) == Some(f) <==> EveryField(f, CanonicalField)
  {
    FormReads(f);
    NormFieldsFixedIff(f.fields);
    NormItemsFixedIff(f.items);
    if f.reported.Some? {
      NormFieldsFixedIff(f.reported.value);
    }
  }

  /**
   * A second trip changes nothing exactly when every validation technique is recognised: an unknown
   * one is first lost and then defaults to basic. A third trip never changes anything.
   */
  lemma NormFormFixedIff(f: Form)
    ensures NormForm(NormForm(f)) == NormForm(f) <==> EveryField(f, RecognisedField)
    ensures NormForm(NormForm(NormForm(f))) == NormForm(NormForm(f))
  {
    var n := NormForm(f);
    NormFieldsFixedIff(f.fields);
    NormItemsFixedIff(f.items);
    NormFieldsFixedIff(n.fields);
    NormItemsFixedIff(n.items);
    if f.reported.Some? {
      NormFieldsFixedIff(f.reported.value);
      NormFieldsFixedIff(n.reported.value);
    }
  }

  // Validation

  /** Lower-casing and regular expressions, as the platform provides them. */
  datatype Engine = Engine(lower: string -> string, compiles: string -> bool, matches: (string, string) -> bool)

  datatype Problem =
    | ValueRequired
    | OneValueOnly(kind: string)
    | BadBoolean(value: string)
    | NotAnOption(value: string)
    | TooFew(least: int)
    | TooMany(most: int)
    | BadPattern(pattern: string)
    | NoMatch(value: string)

  const SINGLE_KINDS := {"boolean", "jid-single", "list-single", "text-private", "text-single"}

  function Allowed(f: Field): set<string> {
    set o | o in f.choices :: o.value
  }

  predicate BooleanText(e: Engine, v: string) {
    e.lower(v) in {"1", "0", "true", "false"}
  }

  predicate Restricted(f: Field) {
    && f.kind in {"list-single", "list-multi"}
    && f.choices != []
    && f.validation.Some? && f.validation.value.technique != "open"
  }

  /** What a valid field is, clause by clause. */
  predicate ValidField(e: Engine, f: Field) {
    && (f.required ==> f.values != [])
    && (f.kind in SINGLE_KINDS ==> |f.values| <= 1)
    && (f.kind == "boolean" ==> forall v :: v in f.values ==> BooleanText(e, v))
    && (Restricted(f) ==> forall v :: v in f.values ==> v in Allowed(f))
    && (f.validation.Some? ==>
         var v := f.validation.value;
         && (v.listMin.Some? ==> v.listMin.value <= |f.values|)
         && (v.listMax.Some? ==> |f.values| <= v.listMax.value)
         && (v.technique == "regex" ==>
              e.compiles(v.regex) && forall x :: x in f.values ==> e.matches(v.regex, x)))
  }

  predicate ValidForm(e: Engine, f: Form) {
    forall i :: 0 <= i < |f.fields| ==> ValidField(e, f.fields[i])
  }

  /** The first value the predicate rejects, found by the checking loops. */
  method FirstRejected(vs: seq<string>, ok: string -> bool) returns (r: Option<string>)
    ensures r.None? <==> forall v :: v in vs ==> ok(v)
    ensures r.Some? ==> exists k :: 0 <= k < |vs| && vs[k] == r.value && !ok(vs[k]) && forall j :: 0 <= j < k ==> ok(vs[j])
  {
    for i := 0 to |vs|
      invariant forall j :: 0 <= j < i ==> ok(vs[j])
    {
      if !ok(vs[i]) {
        return Some(vs[i]);
      }
    }
    return None;
  }

  predicate ByPattern(f: Field) {
    f.validation.Some? && f.validation.value.technique == "regex"
  }

  /** A complaint is about the field it was raised for. */
  predicate Justified(e: Engine, f: Field, p: Problem) {
    match p
    case ValueRequired => f.required && f.values == []
    case OneValueOnly(kind) => kind == f.kind && kind in SINGLE_KINDS && |f.values| > 1
    case BadBoolean(v) => f.kind == "boolean" && f.values == [v] && !BooleanText(e, v)
    case NotAnOption(v) => Restricted(f) && v in f.values && v !in Allowed(f)
    case TooFew(n) => f.validation.Some? && f.validation.value.listMin == Some(n) && |f.values| < n
    case TooMany(n) => f.validation.Some? && f.validation.value.listMax == Some(n) && |f.values| > n
    case BadPattern(r) => ByPattern(f) && f.validation.value.regex == r && !e.compiles(r)
    case NoMatch(v) => ByPattern(f) && v in f.values && !e.matches(f.validation.value.regex, v)
  }

  /** A field is invalid exactly when some complaint about it is justified. */
  lemma InvalidIff(e: Engine, f: Field)
    ensures !ValidField(e, f) <==> exists p :: Justified(e, f, p)
  {
    if !ValidField(e, f) {
      var p := ValidOrComplaint(e, f);
    }
  }

  lemma ValidOrComplaint(e: Engine, f: Field) returns (p: Problem)
    requires !ValidField(e, f)
    ensures Justified(e, f, p)
  {
    if f.required && f.values == [] {
      return ValueRequired;
    }
    if f.kind in SINGLE_KINDS && |f.values| > 1 {
      return OneValueOnly(f.kind);
    }
    if f.kind == "boolean" && exists v :: v in f.values && !BooleanText(e, v) {
      var v :| v in f.values && !BooleanText(e, v);
      assert f.values == [v];
      return BadBoolean(v);
    }
    if Restricted(f) && exists v :: v in f.values && v !in Allowed(f) {
      var v :| v in f.values && v !in Allowed(f);
      return NotAnOption(v);
    }
    var v := f.validation.value;
    if v.listMin.Some? && |f.values| < v.listMin.value {
      return TooFew(v.listMin.value);
    }
    if v.listMax.Some? && |f.values| > v.listMax.value {
      return TooMany(v.listMax.value);
    }
    if !e.compiles(v.regex) {
      return BadPattern(v.regex);
    }
    var x :| x in f.values && !e.matches(v.regex, x);
    return NoMatch(x);
  }

  /** Which field types take one value, which texts are booleans, and which values options allow. */
  lemma RulesSpelledOut(e: Engine, f: Field, text: string)
    ensures f.kind in SINGLE_KINDS <==>
              || f.kind == "boolean" || f.kind == "jid-single" || f.kind == "list-single"
              || f.kind == "text-private" || f.kind == "text-single"
    ensures BooleanText(e, text) <==>
              e.lower(text) == "1" || e.lower(text) == "0" || e.lower(text) == "true" || e.lower(text) == "false"
    ensures text in Allowed(f) <==> exists o :: o in f.choices && o.value == text
  {
  }

  /** The field check refuses exactly the invalid fields, and its complaint is justified. */
  method ValidateField(e: Engine, f: Field) returns (r: Option<Problem>)
    ensures r.None? <==> ValidField(e, f)
    ensures r.Some? ==> Justified(e, f, r.value)
  {
    if f.required && |f.values| == 0 {
      return Some(ValueRequired);
    }
    if f.kind in SINGLE_KINDS && |f.values| > 1 {
      return Some(OneValueOnly(f.kind));
    }
    if f.kind == "boolean" && |f.values| == 1 {
      var v := f.values[0];
      if !BooleanText(e, v) {
        assert f.values == [v];
        return Some(BadBoolean(v));
      }
    }
    if Restricted(f) {
      var allowed := Allowed(f);
      var bad := FirstRejected(f.values, v => v in allowed);
      if bad.Some? {
        return Some(NotAnOption(bad.value));
      }
    }
    if f.validation.Some? {
      var v := f.validation.value;
      if v.listMin.Some? && |f.values| < v.listMin.value {
        return Some(TooFew(v.listMin.value));
      }
      if v.listMax.Some? && |f.values| > v.listMax.value {
        return Some(TooMany(v.listMax.value));
      }
      if v.technique == "regex" {
        if !e.compiles(v.regex) {
          return Some(BadPattern(v.regex));
        }
        var bad := FirstRejected(f.values, x => e.matches(v.regex, x));
        if bad.Some? {
          return Some(NoMatch(bad.value));
        }
      }
    }
    return None;
  }

  /** The form check names its first invalid field, and accepts when there is none. */
  method ValidateForm(e: Engine, f: Form) returns (r: Option<(string, Problem)>)
    ensures r.None? <==> ValidForm(e, f)
    ensures r.Some? ==> exists k :: 0 <= k < |f.fields| && f.fields[k].name == r.value.0
                                    && Justified(e, f.fields[k], r.value.1)
                                    && forall j :: 0 <= j < k ==> ValidField(e, f.fields[j])
  {
    for i := 0 to |f.fields|
      invariant forall j :: 0 <= j < i ==> ValidField(e, f.fields[j])
    {
      var problem := ValidateField(e, f.fields[i]);
      if problem.Some? {
        return Some((f.fields[i].name, problem.value));
      }
    }
    return None;
  }

  /** The parsed field is valid exactly when the printed one was, and draws the same complaints. */
  lemma NormFieldValid(e: Engine, f: Field, p: Problem)
    ensures ValidField(e, NormField(f)) == ValidField(e, f)
    ensures Justified(e, NormField(f), p) == Justified(e, f, p)
  {
  }

  /** A form is valid exactly when what a peer parses of it is, for every form. */
  lemma ValidationSurvives(e: Engine, f: Form, rest: seq<Token>) returns (n: Node, parsed: Form)
    ensures Read(Tokens(FormElement(f)) + rest) == Some((n, rest))
    ensures ParseForm(n) == Some(parsed)
    ensures ValidForm(e, parsed) <==> ValidForm(e, f)
  {
    n := FormRoundTrip(f, rest);
    parsed := NormForm(f);
    forall i | 0 <= i < |f.fields|
      ensures ValidField(e, parsed.fields[i]) == ValidField(e, f.fields[i])
    {
      NormFieldValid(e, f.fields[i], ValueRequired);
    }
    if ValidForm(e, parsed) {
      assert forall i :: 0 <= i < |f.fields| ==> ValidField(e, parsed.fields[i]);
    }
  }

  // Setting values

  /** The values of the first field with the name. */
  function ValuesOf(fs: seq<Field>, name: string): Option<seq<string>> {
    if fs == [] then None
    else if fs[0].name == name then Some(fs[0].values)
    else ValuesOf(fs[1..], name)
  }

  function SetIn(fs: seq<Field>, name: string, values: seq<string>): seq<Field> {
    if fs == [] then [BlankField(name, "", "text-single").(values := values)]
    else if fs[0].name == name then [fs[0].(values := values)] + fs[1..]
    else [fs[0]] + SetIn(fs[1..], name, values)
  }

  lemma {:induction false} SetReads(fs: seq<Field>, name: string, values: seq<string>, other: string)
    ensures ValuesOf(SetIn(fs, name, values), other) == if other == name then Some(values) else ValuesOf(fs, other)
  {
    if fs != [] {
      SetReads(fs[1..], name, values, other);
      assert ([fs[0]] + SetIn(fs[1..], name, values))[1..] == SetIn(fs[1..], name, values);
      assert ([fs[0].(values := values)] + fs[1..])[1..] == fs[1..];
    }
  }

  /** Where the change lands: at the first field of that name, or at the end. */
  lemma {:induction false} SetPlace(fs: seq<Field>, name: string, values: seq<string>, i: nat)
    requires i <= |fs| && forall j :: 0 <= j < i ==> fs[j].name != name
    requires i < |fs| ==> fs[i].name == name
    ensures SetIn(fs, name, values)
         == if i < |fs| then fs[i := fs[i].(values := values)]
            else fs + [BlankField(name, "", "text-single").(values := values)]
  {
    if i > 0 {
      SetPlace(fs[1..], name, values, i - 1);
      assert fs == [fs[0]] + fs[1..];
    }
  }

  /** A form as its owner edits it. */
  class FormEditor {
    var fields: seq<Field>

    constructor (fs: seq<Field>)
      ensures fields == fs
    {
      fields := fs;
    }

    method Set(name: string, values: seq<string>)
      modifies this
      ensures fields == SetIn(old(fields), name, values)
    {
      for i := 0 to |fields|
        invariant fields == old(fields) && forall j :: 0 <= j < i ==> fields[j].name != name
      {
        if fields[i].name == name {
          SetPlace(fields, name, values, i);
          fields := fields[i := fields[i].(values := values)];
          return;
        }
      }
      SetPlace(fields, name, values, |fields|);
      fields := fields + [BlankField(name, "", "text-single").(values := values)];
    }
  }

  /** The parser's loops, over the children of each element. */
  method ParseFormNode(n: Node) returns (r: Option<Form>)
    ensures r == ParseForm(n)
  {
    if n.name != Name(FORMS_NS, "x") {
      return None;
    }
    var f := FoldLoop(FormStep, Form(AttrOr(n, "type"), "", [], [], None, []), ChildrenOf(n.parts));
    return Some(f);
  }
}
