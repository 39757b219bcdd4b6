/** XML elements with ordered mixed content, and the token streams they print to and are read from. */
module XmlTree {
  import opened Wrappers

  datatype Name = Name(space: string, local: string)
  datatype Attr = Attr(name: Name, value: string)
  datatype Part = Text(text: string) | Child(node: Node)
  datatype Node = Node(name: Name, attrs: seq<Attr>, parts: seq<Part>)

  /** Misc stands for comments, processing instructions and directives. */
  datatype Token = Start(name: Name, attrs: seq<Attr>) | CharData(text: string) | End(name: Name) | Misc

  // Building

  function NewNode(space: string, local: string): Node {
    Node(Name(space, local), [], [])
  }

  /** Character data appended to a part list: empty text vanishes, adjacent texts merge. */
  function AddTextTo(ps: seq<Part>, value: string): seq<Part> {
    if value == "" then ps
    else if ps != [] && ps[|ps| - 1].Text? then ps[..|ps| - 1] + [Text(ps[|ps| - 1].text + value)]
    else ps + [Text(value)]
  }

  function AddText(n: Node, value: string): Node {
    n.(parts := AddTextTo(n.parts, value))
  }

  function AddChild(n: Node, child: Node): Node {
    n.(parts := n.parts + [Child(child)])
  }

  function NewTextNode(space: string, local: string, value: string): Node {
    AddText(NewNode(space, local), value)
  }

  // Attributes

  function AttrValueNS(attrs: seq<Attr>, name: Name): Option<string> {
    if attrs == [] then None
    else if attrs[0].name == name then Some(attrs[0].value)
    else AttrValueNS(attrs[1..], name)
  }

  function AttrValue(n: Node, local: string): Option<string> {
    AttrValueNS(n.attrs, Name("", local))
  }

  function AttrOr(n: Node, local: string): string {
    match AttrValue(n, local)
    case Some(v) => v
    case None => ""
  }

  function SetAttrIn(attrs: seq<Attr>, name: Name, value: string): seq<Attr> {
    if attrs == [] then [Attr(name, value)]
    else if attrs[0].name == name then [Attr(name, value)] + attrs[1..]
    else [attrs[0]] + SetAttrIn(attrs[1..], name, value)
  }

  function SetAttr(n: Node, local: string, value: string): Node {
    n.(attrs := SetAttrIn(n.attrs, Name("", local), value))
  }

  /** The set attribute reads back; every other attribute reads as before. */
  lemma {:induction false} SetAttrReads(attrs: seq<Attr>, name: Name, value: string, other: Name)
    ensures AttrValueNS(SetAttrIn(attrs, name, value), other)
         == if other == name then Some(value) else AttrValueNS(attrs, other)
  {
    if attrs != [] && attrs[0].name != name {
      SetAttrReads(attrs[1..], name, value, other);
      assert ([attrs[0]] + SetAttrIn(attrs[1..], name, value))[1..] == SetAttrIn(attrs[1..], name, value);
    } else if attrs != [] {
      assert ([Attr(name, value)] + attrs[1..])[1..] == attrs[1..];
    }
  }

  /** Where a set attribute lands: at the first of that name, or at the end. */
  lemma {:induction false} SetAttrPlace(attrs: seq<Attr>, name: Name, value: string, i: nat)
    requires i <= |attrs| && forall j :: 0 <= j < i ==> attrs[j].name != name
    requires i < |attrs| ==> attrs[i].name == name
    ensures SetAttrIn(attrs, name, value)
         == if i < |attrs| then attrs[i := Attr(name, value)] else attrs + [Attr(name, value)]
  {
    if i > 0 {
      SetAttrPlace(attrs[1..], name, value, i - 1);
      assert attrs == [attrs[0]] + attrs[1..];
    }
  }

  /** A node under construction: the builders update it in place. */
  class NodeBuilder {
    const name: Name
    var attrs: seq<Attr>
    var parts: seq<Part>

    function State(): Node
      reads this
    {
      Node(name, attrs, parts)
    }

    constructor (space: string, local: string)
      ensures State() == NewNode(space, local)
    {
      name, attrs, parts := Name(space, local), [], [];
    }

    method SetAttrNS(attr: Name, value: string)
      modifies this`attrs
      ensures State() == old(State()).(attrs := SetAttrIn(old(attrs), attr, value))
    {
      for i := 0 to |attrs|
        invariant attrs == old(attrs) && forall j :: 0 <= j < i ==> attrs[j].name != attr
      {
        if attrs[i].name == attr {
          SetAttrPlace(attrs, attr, value, i);
          attrs := attrs[i := Attr(attr, value)];
          return;
        }
      }
      SetAttrPlace(attrs, attr, value, |attrs|);
      attrs := attrs + [Attr(attr, value)];
    }

    method AppendText(value: string)
      modifies this`parts
      ensures State() == AddText(old(State()), value)
    {
      if value == "" {
        return;
      }
      if |parts| > 0 && parts[|parts| - 1].Text? {
        parts := parts[|parts| - 1 := Text(parts[|parts| - 1].text + value)];
      } else {
        parts := parts + [Text(value)];
      }
    }

    method AppendChild(child: Node)
      modifies this`parts
      ensures State() == AddChild(old(State()), child)
    {
      parts := parts + [Child(child)];
    }
  }

  // Reading the content

  function OwnText(p: Part): string {
    if p.Text? then p.text else ""
  }

  /** Concatenated direct character data. */
  function TextOf(ps: seq<Part>): string {
    if ps == [] then ""
    else OwnText(ps[0]) + TextOf(ps[1..])
  }

  function OwnNode(p: Part): seq<Node> {
    if p.Child? then [p.node] else []
  }

  function ChildrenOf(ps: seq<Part>): seq<Node> {
    if ps == [] then []
    else OwnNode(ps[0]) + ChildrenOf(ps[1..])
  }

  /** The first child with the local name and, unless the space is empty, the namespace. */
  function FirstNamed(ns: seq<Node>, space: string, local: string): Option<Node> {
    if ns == [] then None
    else if ns[0].name.local == local && (space == "" || ns[0].name.space == space) then Some(ns[0])
    else FirstNamed(ns[1..], space, local)
  }

  predicate Goes(n: Node, space: string, local: string) {
    n.name.local == local && (space != "" ==> n.name.space == space)
  }

  /** The first node that goes by the name is found, an empty namespace standing for any. */
  lemma {:induction false} FirstNamedIs(ns: seq<Node>, space: string, local: string) returns (i: nat)
    ensures i <= |ns| && forall j :: 0 <= j < i ==> !Goes(ns[j], space, local)
    ensures i < |ns| ==> Goes(ns[i], space, local)
    ensures FirstNamed(ns, space, local) == if i < |ns| then Some(ns[i]) else None
  {
    if ns == [] || Goes(ns[0], space, local) {
      i := 0;
    } else {
      i := FirstNamedIs(ns[1..], space, local);
      i := i + 1;
      assert forall j :: 0 < j < i ==> ns[j] == ns[1..][j - 1];
    }
  }

  function ChildOf(n: Node, space: string, local: string): Option<Node> {
    FirstNamed(ChildrenOf(n.parts), space, local)
  }

  function ChildText(n: Node, space: string, local: string): string {
    match ChildOf(n, space, local)
    case Some(c) => TextOf(c.parts)
    case None => ""
  }

  // Printing

  /** Every element of the tree has a local name. */
  predicate Named(n: Node) {
    n.name.local != "" && NamedParts(n.parts)
  }

  predicate NamedPart(p: Part) {
    match p
    case Child(c) => Named(c)
    case Text(_) => true
  }

  predicate NamedParts(ps: seq<Part>) {
    ps != [] ==> NamedPart(ps[0]) && NamedParts(ps[1..])
  }

  function Tokens(n: Node): (ts: seq<Token>)
    ensures |ts| >= 2
  {
    [Start(n.name, n.attrs)] + PartsTokens(n.parts) + [End(n.name)]
  }

  function PartTokens(p: Part): seq<Token> {
    match p
    case Child(c) => Tokens(c)
    case Text(t) => if t == "" then [] else [CharData(t)]
  }

  function PartsTokens(ps: seq<Part>): seq<Token> {
    if ps == [] then [] else PartTokens(ps[0]) + PartsTokens(ps[1..])
  }

  lemma {:induction false} PartsTokensSnoc(ps: seq<Part>, p: Part)
    ensures PartsTokens(ps + [p]) == PartsTokens(ps) + PartTokens(p)
  {
    if ps == [] {
      assert [p][1..] == [];
      assert ps + [p] == [p];
    } else {
      assert (ps + [p])[1..] == ps[1..] + [p];
      PartsTokensSnoc(ps[1..], p);
    }
  }

  lemma {:induction false} NamedPartsAt(ps: seq<Part>, i: nat)
    requires i < |ps|
    ensures NamedParts(ps[..i + 1]) == (NamedParts(ps[..i]) && NamedPart(ps[i]))
    decreases |ps|
  {
    if i > 0 {
      NamedPartsAt(ps[1..], i - 1);
      assert ps[..i + 1][1..] == ps[1..][..i];
      assert ps[..i][1..] == ps[1..][..i - 1];
    } else {
      assert ps[..1][1..] == [];
    }
  }

  lemma {:induction false} NamedPartsPrefix(ps: seq<Part>, i: nat)
    requires i <= |ps| && NamedParts(ps)
    ensures NamedParts(ps[..i])
    decreases |ps|
  {
    if i > 0 {
      assert ps[..i][1..] == ps[1..][..i - 1];
      NamedPartsPrefix(ps[1..], i - 1);
    }
  }

  /** Printing succeeds on exactly the trees whose elements all have local names. */
  method Marshal(n: Node) returns (r: Option<seq<Token>>)
    ensures r == if Named(n) then Some(Tokens(n)) else None
    decreases n
  {
    if n.name.local == "" {
      return None;
    }
    var out := [Start(n.name, n.attrs)];
    assert n.parts[..0] == [];
    for i := 0 to |n.parts|
      invariant NamedParts(n.parts[..i])
      invariant out == [Start(n.name, n.attrs)] + PartsTokens(n.parts[..i])
    {
      var part := n.parts[i];
      NamedPartsAt(n.parts, i);
      PartsTokensSnoc(n.parts[..i], part);
      assert n.parts[..i] + [part] == n.parts[..i + 1];
      match part {
        case Child(c) =>
          var inner := Marshal(c);
          if inner.None? {
            if NamedParts(n.parts) {
              NamedPartsPrefix(n.parts, i + 1);
            }
            return None;
          }
          out := out + inner.value;
        case Text(t) =>
          if t != "" {
            out := out + [CharData(t)];
          }
      }
    }
    assert n.parts[..|n.parts|] == n.parts;
    return Some(out + [End(n.name)]);
  }

  // Normal form

  /** Adjacent texts merged, empty texts dropped, in every element of the tree. */
  function Norm(n: Node): Node {
    n.(parts := NormParts(n.parts))
  }

  function NormPart(p: Part): Part {
    match p
    case Child(c) => Child(Norm(c))
    case Text(t) => p
  }

  function NormParts(ps: seq<Part>): seq<Part> {
    if ps == [] then []
    else Cons(NormPart(ps[0]), NormParts(ps[1..]))
  }

  function Cons(p: Part, ps: seq<Part>): seq<Part> {
    if p.Text? && p.text == "" then ps
    else if p.Text? && ps != [] && ps[0].Text? then [Text(p.text + ps[0].text)] + ps[1..]
    else [p] + ps
  }

  function NormAll(ns: seq<Node>): seq<Node> {
    seq(|ns|, i requires 0 <= i < |ns| => Norm(ns[i]))
  }

  /** What normal form means, stated on the tree itself. */
  predicate IsNormal(n: Node) {
    IsNormalParts(n.parts)
  }

  predicate IsNormalPart(p: Part) {
    match p
    case Text(t) => t != ""
    case Child(c) => IsNormal(c)
  }

  predicate IsNormalParts(ps: seq<Part>) {
    ps != [] ==>
      && IsNormalPart(ps[0])
      && (|ps| > 1 ==> ps[0].Child? || ps[1].Child?)
      && IsNormalParts(ps[1..])
  }

  lemma ConsNormal(p: Part, ps: seq<Part>)
    requires IsNormalParts(ps)
    requires p.Child? ==> IsNormalPart(p)
    ensures IsNormalParts(Cons(p, ps))
  {
    if p.Text? && p.text != "" && ps != [] && ps[0].Text? {
      assert ([Text(p.text + ps[0].text)] + ps[1..])[1..] == ps[1..];
    } else {
      assert ([p] + ps)[1..] == ps;
    }
  }

  lemma {:induction false} NormNormal(n: Node)
    ensures IsNormal(Norm(n))
  {
    NormPartsNormal(n.parts);
  }

  lemma {:induction false} NormPartNormal(p: Part)
    ensures p.Child? ==> IsNormalPart(NormPart(p))
  {
    match p
    case Child(c) => NormNormal(c);
    case Text(_) =>
  }

  lemma {:induction false} NormPartsNormal(ps: seq<Part>)
    ensures IsNormalParts(NormParts(ps))
  {
    if ps != [] {
      NormPartsNormal(ps[1..]);
      NormPartNormal(ps[0]);
      ConsNormal(NormPart(ps[0]), NormParts(ps[1..]));
    }
  }

  lemma {:induction false} NormalFixed(n: Node)
    requires IsNormal(n)
    ensures Norm(n) == n
  {
    NormalPartsFixed(n.parts);
  }

  lemma {:induction false} NormalPartFixed(p: Part)
    requires IsNormalPart(p)
    ensures NormPart(p) == p
  {
    match p
    case Child(c) => NormalFixed(c);
    case Text(_) =>
  }

  lemma {:induction false} NormalPartsFixed(ps: seq<Part>)
    requires IsNormalParts(ps)
    ensures NormParts(ps) == ps
  {
    if ps != [] {
      NormalPartsFixed(ps[1..]);
      NormalPartFixed(ps[0]);
      assert ps == [ps[0]] + ps[1..];
    }
  }

  /** A tree is its own normal form exactly when it is normal. */
  lemma NormFixed(n: Node)
    ensures Norm(n) == n <==> IsNormal(n)
  {
    NormNormal(n);
    if IsNormal(n) {
      NormalFixed(n);
    }
  }

  lemma NormIdempotent(n: Node)
    ensures Norm(Norm(n)) == Norm(n)
  {
    NormNormal(n);
    NormFixed(Norm(n));
  }

  /** Normalising keeps the text and normalises each child in place. */
  lemma {:induction false} NormPreserves(ps: seq<Part>)
    ensures TextOf(NormParts(ps)) == TextOf(ps)
    ensures ChildrenOf(NormParts(ps)) == NormAll(ChildrenOf(ps))
  {
    if ps != [] {
      NormPreserves(ps[1..]);
      ConsContent(NormPart(ps[0]), NormParts(ps[1..]));
      NormAllConcat(OwnNode(ps[0]), ChildrenOf(ps[1..]));
      assert NormAll(OwnNode(ps[0])) == OwnNode(NormPart(ps[0]));
    }
  }

  lemma LeadContent(p: Part, ps: seq<Part>)
    ensures TextOf([p] + ps) == OwnText(p) + TextOf(ps)
    ensures ChildrenOf([p] + ps) == OwnNode(p) + ChildrenOf(ps)
  {
    assert ([p] + ps)[1..] == ps;
  }

  lemma ConsContent(p: Part, ps: seq<Part>)
    ensures TextOf(Cons(p, ps)) == OwnText(p) + TextOf(ps)
    ensures ChildrenOf(Cons(p, ps)) == OwnNode(p) + ChildrenOf(ps)
  {
    if p.Text? && p.text == "" {
      assert OwnText(p) + TextOf(ps) == TextOf(ps);
    } else if p.Text? && ps != [] && ps[0].Text? {
      LeadContent(Text(p.text + ps[0].text), ps[1..]);
      assert p.text + ps[0].text + TextOf(ps[1..]) == p.text + TextOf(ps);
    } else {
      LeadContent(p, ps);
    }
  }

  // Reading

  /**
   * The content of the element called name, up to and including its end tag: the parts read so far,
   * extended, and the unread tokens. None is the unexpected end of input. An end tag of another
   * name is skipped, as the reading loop does.
   */
  function ReadParts(name: Name, toks: seq<Token>, acc: seq<Part>): (r: Option<(seq<Part>, seq<Token>)>)
    ensures r.Some? ==> |r.value.1| < |toks|
    decreases |toks|
  {
    if toks == [] then None
    else
      match toks[0]
      case Start(childName, attrs) =>
        (match ReadParts(childName, toks[1..], [])
         case None => None
         case Some((parts, rest)) => ReadParts(name, rest, acc + [Child(Node(childName, attrs, parts))]))
      case CharData(t) => ReadParts(name, toks[1..], AddTextTo(acc, t))
      case End(n) => if n == name then Some((acc, toks[1..])) else ReadParts(name, toks[1..], acc)
      case Misc => ReadParts(name, toks[1..], acc)
  }

  /** The element whose start tag has just been read. */
  function ReadBody(name: Name, attrs: seq<Attr>, toks: seq<Token>): Option<(Node, seq<Token>)> {
    match ReadParts(name, toks, [])
    case None => None
    case Some((parts, rest)) => Some((Node(name, attrs, parts), rest))
  }

  /** The element a token stream opens with. */
  function Read(toks: seq<Token>): Option<(Node, seq<Token>)> {
    if toks == [] || !toks[0].Start? then None else ReadBody(toks[0].name, toks[0].attrs, toks[1..])
  }

  /** The reading loop: it grows the part list of one element and recurses at each start tag. */
  method Unmarshal(name: Name, attrs: seq<Attr>, toks: seq<Token>) returns (r: Option<(Node, seq<Token>)>)
    ensures r == ReadBody(name, attrs, toks)
    ensures r.Some? ==> |r.value.1| < |toks|
    decreases |toks|
  {
    var node := Node(name, attrs, []);
    var left := toks;
    while left != []
      invariant node.name == name && node.attrs == attrs && |left| <= |toks|
      invariant ReadParts(name, toks, []) == ReadParts(name, left, node.parts)
      decreases |left|
    {
      var token := left[0];
      left := left[1..];
      match token {
        case Start(childName, childAttrs) =>
          var child := Unmarshal(childName, childAttrs, left);
          if child.None? {
            return None;
          }
          node := AddChild(node, child.value.0);
          left := child.value.1;
        case CharData(t) =>
          node := AddText(node, t);
        case End(n) =>
          if n == name {
            return Some((node, left));
          }
        case Misc =>
      }
    }
    return None;
  }

  // Reading back what was printed

  /** One part, as the reading loop adds it. */
  function Push(acc: seq<Part>, p: Part): seq<Part> {
    match p
    case Text(t) => AddTextTo(acc, t)
    case Child(_) => acc + [NormPart(p)]
  }

  function PushAll(acc: seq<Part>, ps: seq<Part>): seq<Part>
    decreases ps
  {
    if ps == [] then acc else PushAll(Push(acc, ps[0]), ps[1..])
  }

  lemma {:induction false} ReadPrintedParts(name: Name, ps: seq<Part>, tail: seq<Token>, acc: seq<Part>)
    ensures ReadParts(name, PartsTokens(ps) + tail, acc) == ReadParts(name, tail, PushAll(acc, ps))
    decreases ps
  {
    if ps == [] {
      assert PartsTokens(ps) + tail == tail;
    } else {
      var rest := PartsTokens(ps[1..]) + tail;
      assert PartsTokens(ps) + tail == PartTokens(ps[0]) + rest;
      ReadPrintedPart(name, ps[0], rest, acc);
      ReadPrintedParts(name, ps[1..], tail, Push(acc, ps[0]));
    }
  }

  lemma TokensOpen(n: Node, rest: seq<Token>)
    ensures (Tokens(n) + rest)[0] == Start(n.name, n.attrs)
    ensures (Tokens(n) + rest)[1..] == PartsTokens(n.parts) + ([End(n.name)] + rest)
  {
    var body := PartsTokens(n.parts);
    assert Tokens(n) == [Start(n.name, n.attrs)] + body + [End(n.name)];
    assert Tokens(n) + rest == [Start(n.name, n.attrs)] + (body + ([End(n.name)] + rest));
  }

  lemma {:induction false} ReadPrintedPart(name: Name, p: Part, rest: seq<Token>, acc: seq<Part>)
    ensures ReadParts(name, PartTokens(p) + rest, acc) == ReadParts(name, rest, Push(acc, p))
    decreases p
  {
    var toks := PartTokens(p) + rest;
    match p {
      case Text(t) =>
        if t == "" {
          assert toks == rest;
        } else {
          assert toks[1..] == rest;
        }
      case Child(c) =>
        TokensOpen(c, rest);
        ReadPrintedBody(c, rest);
        assert Norm(c) == Node(c.name, c.attrs, NormParts(c.parts));
    }
  }

  lemma {:induction false} ReadPrintedBody(c: Node, rest: seq<Token>)
    ensures ReadParts(c.name, PartsTokens(c.parts) + ([End(c.name)] + rest), []) == Some((NormParts(c.parts), rest))
    decreases c
  {
    var tail := [End(c.name)] + rest;
    ReadPrintedParts(c.name, c.parts, tail, []);
    assert tail[1..] == rest;
    PushAllNorm([], c.parts);
    assert Append([], NormParts(c.parts)) == NormParts(c.parts);
  }

  /** Two part lists joined, merging a text that ends one with a text that starts the other. */
  function Append(acc: seq<Part>, ps: seq<Part>): seq<Part> {
    if acc != [] && ps != [] && acc[|acc| - 1].Text? && ps[0].Text?
    then acc[..|acc| - 1] + [Text(acc[|acc| - 1].text + ps[0].text)] + ps[1..]
    else acc + ps
  }

  /** Merging from the left, as reading does, agrees with the normal form, which merges from the right. */
  lemma {:induction false} PushAllNorm(acc: seq<Part>, ps: seq<Part>)
    ensures PushAll(acc, ps) == Append(acc, NormParts(ps))
    decreases ps
  {
    if ps == [] {
      assert acc + [] == acc;
    } else {
      PushAllNorm(Push(acc, ps[0]), ps[1..]);
      AppendPush(acc, NormPart(ps[0]), NormParts(ps[1..]));
      assert Push(acc, NormPart(ps[0])) == PushNormal(acc, NormPart(ps[0])) || ps[0].Child?;
      assert Push(acc, ps[0]) == PushNormal(acc, NormPart(ps[0]));
    }
  }

  function PushNormal(acc: seq<Part>, p: Part): seq<Part> {
    if p.Text? then AddTextTo(acc, p.text) else acc + [p]
  }

  lemma AppendPush(acc: seq<Part>, p: Part, ps: seq<Part>)
    ensures Append(PushNormal(acc, p), ps) == Append(acc, Cons(p, ps))
  {
    if p.Child? || (p.text != "" && (acc == [] || acc[|acc| - 1].Child?)) {
      AppendFresh(acc, p, ps);
    } else if p.text != "" {
      AppendMerged(acc, p, ps);
    }
  }

  /** The part pushed does not merge with what is before it. */
  lemma AppendFresh(acc: seq<Part>, p: Part, ps: seq<Part>)
    requires p.Child? || (p.text != "" && (acc == [] || acc[|acc| - 1].Child?))
    ensures Append(PushNormal(acc, p), ps) == Append(acc, Cons(p, ps))
  {
    var pushed, rest := acc + [p], Cons(p, ps);
    assert PushNormal(acc, p) == pushed && pushed[..|acc|] == acc && pushed[|acc|] == p;
    if p.Text? && ps != [] && ps[0].Text? {
      var merged := [Text(p.text + ps[0].text)];
      assert Append(pushed, ps) == acc + merged + ps[1..];
      assert Append(acc, rest) == acc + (merged + ps[1..]);
    } else {
      assert Append(pushed, ps) == acc + [p] + ps;
      assert Append(acc, rest) == acc + ([p] + ps);
    }
  }

  /** The text pushed merges with the text before it. */
  lemma AppendMerged(acc: seq<Part>, p: Part, ps: seq<Part>)
    requires p.Text? && p.text != "" && acc != [] && acc[|acc| - 1].Text?
    ensures Append(PushNormal(acc, p), ps) == Append(acc, Cons(p, ps))
  {
    var last := |acc| - 1;
    var front, x, rest := acc[..last], acc[last].text, Cons(p, ps);
    var pushed := PushNormal(acc, p);
    assert pushed == front + [Text(x + p.text)] && pushed[..last] == front;
    if ps != [] && ps[0].Text? {
      assert (x + p.text) + ps[0].text == x + (p.text + ps[0].text);
      assert rest[0] == Text(p.text + ps[0].text) && rest[1..] == ps[1..];
    } else {
      assert rest[0] == p && rest[1..] == ps;
    }
  }

  /**
   * Reading the tokens of a tree, followed by anything, consumes exactly that tree and yields its
   * normal form.
   */
  lemma ReadPrinted(n: Node, rest: seq<Token>)
    ensures Read(Tokens(n) + rest) == Some((Norm(n), rest))
  {
    var toks := Tokens(n) + rest;
    TokensOpen(n, rest);
    ReadPrintedBody(n, rest);
  }

  // Reading in general

  /** What follows a complete element does not matter to reading it. */
  lemma {:induction false} ReadPartsExtends(name: Name, toks: seq<Token>, acc: seq<Part>, more: seq<Token>)
    requires ReadParts(name, toks, acc).Some?
    ensures var r := ReadParts(name, toks, acc).value; ReadParts(name, toks + more, acc) == Some((r.0, r.1 + more))
    decreases |toks|
  {
    assert (toks + more)[1..] == toks[1..] + more;
    match toks[0] {
      case Start(childName, attrs) =>
        ReadPartsExtends(childName, toks[1..], [], more);
        var (parts, rest) := ReadParts(childName, toks[1..], []).value;
        ReadPartsExtends(name, rest, acc + [Child(Node(childName, attrs, parts))], more);
      case CharData(t) => ReadPartsExtends(name, toks[1..], AddTextTo(acc, t), more);
      case End(n) =>
        if n != name {
          ReadPartsExtends(name, toks[1..], acc, more);
        }
      case Misc => ReadPartsExtends(name, toks[1..], acc, more);
    }
  }

  /** A stream that ends before the element does is refused: no proper prefix of a printed tree reads. */
  lemma TruncatedRefused(n: Node, prefix: seq<Token>)
    requires prefix < Tokens(n)
    ensures Read(prefix) == None
  {
    var whole, more := Tokens(n), Tokens(n)[|prefix|..];
    assert prefix + more == whole && whole + [] == whole;
    assert prefix != [] ==> whole[1..] == prefix[1..] + more && whole[0] == prefix[0];
    ReadPrinted(n, []);
    if prefix != [] && prefix[0].Start? && ReadParts(prefix[0].name, prefix[1..], []).Some? {
      ReadPartsExtends(prefix[0].name, prefix[1..], [], more);
    }
  }

  /** The tokens without comments, processing instructions and directives. */
  function WithoutMisc(toks: seq<Token>): seq<Token> {
    if toks == [] then []
    else if toks[0].Misc? then WithoutMisc(toks[1..])
    else [toks[0]] + WithoutMisc(toks[1..])
  }

  lemma WithoutMiscCons(t: Token, toks: seq<Token>)
    requires !t.Misc?
    ensures ([t] + WithoutMisc(toks))[0] == t && ([t] + WithoutMisc(toks))[1..] == WithoutMisc(toks)
  {
  }

  /** Comments, processing instructions and directives do not matter to what is read, wherever they stand. */
  lemma {:induction false} MiscIgnored(name: Name, toks: seq<Token>, acc: seq<Part>)
    ensures var r := ReadParts(name, toks, acc);
            ReadParts(name, WithoutMisc(toks), acc) == if r.Some? then Some((r.value.0, WithoutMisc(r.value.1))) else None
    decreases |toks|
  {
    if toks != [] {
      if !toks[0].Misc? {
        WithoutMiscCons(toks[0], toks[1..]);
      }
      match toks[0] {
        case Start(childName, attrs) =>
          MiscIgnored(childName, toks[1..], []);
          var child := ReadParts(childName, toks[1..], []);
          if child.Some? {
            MiscIgnored(name, child.value.1, acc + [Child(Node(childName, attrs, child.value.0))]);
          }
        case CharData(t) => MiscIgnored(name, toks[1..], AddTextTo(acc, t));
        case End(n) =>
          if n != name {
            MiscIgnored(name, toks[1..], acc);
          }
        case Misc => MiscIgnored(name, toks[1..], acc);
      }
    }
  }

  // Elements put together from optional attributes, children and text

  function Optional(name: Name, value: string): seq<Attr> {
    if value == "" then [] else [Attr(name, value)]
  }

  function ChildParts(ns: seq<Node>): seq<Part> {
    seq(|ns|, i requires 0 <= i < |ns| => Child(ns[i]))
  }

  function Element(space: string, local: string, attrs: seq<Attr>, children: seq<Node>): Node {
    Node(Name(space, local), attrs, ChildParts(children))
  }

  function TextElement(space: string, local: string, attrs: seq<Attr>, value: string): Node {
    Node(Name(space, local), attrs, AddTextTo([], value))
  }

  lemma {:induction false} AttrConcat(a: seq<Attr>, b: seq<Attr>, name: Name)
    ensures AttrValueNS(a + b, name) == if AttrValueNS(a, name).Some? then AttrValueNS(a, name) else AttrValueNS(b, name)
  {
    if a == [] {
      assert a + b == b;
    } else {
      assert (a + b)[1..] == a[1..] + b;
      AttrConcat(a[1..], b, name);
    }
  }

  lemma OptionalReads(name: Name, value: string, other: Name)
    ensures AttrValueNS(Optional(name, value), other) == if other == name && value != "" then Some(value) else None
  {
    if value != "" {
      assert Optional(name, value)[1..] == [];
    }
  }

  lemma {:induction false} ChildrenOfChildParts(ns: seq<Node>)
    ensures ChildrenOf(ChildParts(ns)) == ns
  {
    if ns != [] {
      assert ChildParts(ns)[1..] == ChildParts(ns[1..]);
      ChildrenOfChildParts(ns[1..]);
    }
  }

  /** The children seen after a trip through the token stream. */
  lemma ReadChildren(space: string, local: string, attrs: seq<Attr>, children: seq<Node>)
    ensures ChildrenOf(Norm(Element(space, local, attrs, children)).parts) == NormAll(children)
  {
    NormPreserves(ChildParts(children));
    ChildrenOfChildParts(children);
  }

  lemma {:induction false} ChildPartsNormal(ns: seq<Node>)
    requires forall n :: n in ns ==> Norm(n) == n
    ensures NormParts(ChildParts(ns)) == ChildParts(ns)
  {
    if ns != [] {
      assert ChildParts(ns)[1..] == ChildParts(ns[1..]);
      ChildPartsNormal(ns[1..]);
      assert NormPart(Child(ns[0])) == Child(ns[0]) by {
        assert ns[0] in ns;
      }
      assert ChildParts(ns) == [Child(ns[0])] + ChildParts(ns[1..]);
    }
  }

  /** An element of normal children is normal. */
  lemma ElementNormal(space: string, local: string, attrs: seq<Attr>, children: seq<Node>)
    requires forall n :: n in children ==> Norm(n) == n
    ensures Norm(Element(space, local, attrs, children)) == Element(space, local, attrs, children)
  {
    ChildPartsNormal(children);
  }

  /** Which put-together elements print. */
  lemma {:induction false} NamedChildParts(ns: seq<Node>)
    ensures NamedParts(ChildParts(ns)) <==> forall i :: 0 <= i < |ns| ==> Named(ns[i])
  {
    if ns != [] {
      assert ChildParts(ns)[1..] == ChildParts(ns[1..]);
      NamedChildParts(ns[1..]);
      assert forall i :: 0 < i < |ns| ==> ns[i] == ns[1..][i - 1];
      assert forall i :: 0 <= i < |ns[1..]| ==> ns[1..][i] == ns[i + 1];
    }
  }

  lemma TextElementNamed(space: string, local: string, attrs: seq<Attr>, value: string)
    ensures Named(TextElement(space, local, attrs, value)) <==> local != ""
  {
    var ps := TextElement(space, local, attrs, value).parts;
    assert ps == if value == "" then [] else [Text(value)];
    assert ps != [] ==> ps[1..] == [];
    assert NamedParts([]) && NamedParts(ps);
  }

  lemma TextElementReads(space: string, local: string, attrs: seq<Attr>, value: string)
    ensures Norm(TextElement(space, local, attrs, value)) == TextElement(space, local, attrs, value)
    ensures TextOf(TextElement(space, local, attrs, value).parts) == value
  {
    var ps := AddTextTo([], value);
    if value != "" {
      assert ps == [Text(value)] && ps[1..] == [];
      assert NormParts(ps) == Cons(Text(value), []);
    }
  }

  lemma NormAllConcat(a: seq<Node>, b: seq<Node>)
    ensures NormAll(a + b) == NormAll(a) + NormAll(b)
  {
  }

  lemma NormAllFixed(ns: seq<Node>)
    requires forall n :: n in ns ==> Norm(n) == n
    ensures NormAll(ns) == ns
  {
    assert forall i :: 0 <= i < |ns| ==> ns[i] in ns;
  }

  lemma NormAllIdempotent(ns: seq<Node>)
    ensures NormAll(NormAll(ns)) == NormAll(ns)
  {
    forall i | 0 <= i < |ns|
      ensures Norm(Norm(ns[i])) == Norm(ns[i])
    {
      NormIdempotent(ns[i]);
    }
  }

  // Parsers run through the children of an element, updating a record

  function Fold<A, B>(step: (A, B) -> A, acc: A, xs: seq<B>): A
    decreases |xs|
  {
    if xs == [] then acc else Fold(step, step(acc, xs[0]), xs[1..])
  }

  lemma {:induction false} FoldConcat<A, B>(step: (A, B) -> A, acc: A, a: seq<B>, b: seq<B>)
    ensures Fold(step, acc, a + b) == Fold(step, Fold(step, acc, a), b)
    decreases |a|
  {
    if a == [] {
      assert a + b == b;
    } else {
      assert (a + b)[1..] == a[1..] + b;
      FoldConcat(step, step(acc, a[0]), a[1..], b);
    }
  }

  lemma FoldOne<A, B>(step: (A, B) -> A, acc: A, x: B)
    ensures Fold(step, acc, [x]) == step(acc, x)
  {
    assert [x][1..] == [];
  }

  /** A fold that adds one result for each element to a list the accumulator holds. */
  lemma {:induction false} FoldCollects<A, B, C>(step: (A, B) -> A, put: seq<C> -> A, from: seq<C>,
                                                 xs: seq<B>, ys: seq<C>)
    requires |ys| == |xs|
    requires forall c: seq<C>, i :: 0 <= i < |xs| ==> step(put(c), xs[i]) == put(c + [ys[i]])
    ensures Fold(step, put(from), xs) == put(from + ys)
    decreases |xs|
  {
    if xs != [] {
      FoldCollects(step, put, from + [ys[0]], xs[1..], ys[1..]);
      assert from + [ys[0]] + ys[1..] == from + ys;
    } else {
      assert from + ys == from;
    }
  }

  /** The parsers' loop. */
  method FoldLoop<A, B>(step: (A, B) -> A, start: A, xs: seq<B>) returns (acc: A)
    ensures acc == Fold(step, start, xs)
  {
    acc := start;
    assert xs[0..] == xs && xs[|xs|..] == [];
    for k := 0 to |xs|
      invariant Fold(step, acc, xs[k..]) == Fold(step, start, xs)
    {
      assert xs[k..][0] == xs[k] && xs[k..][1..] == xs[k + 1..];
      acc := step(acc, xs[k]);
    }
  }
}
