/**
 * SCRAM authentication: PBKDF2 and the client's side of the exchange. HMAC, the hash, base64 and the
 * conversion between text and bytes are parameters.
 */
module Scram {
  import opened Wrappers
  import opened Numerals
  import opened Text
  import opened Octets
  import opened Encoding

  /** A hash family: its output length, keyed and unkeyed. */
  datatype Hash = Hash(size: nat, hmac: (Bytes, Bytes) -> Bytes, digest: Bytes -> Bytes)

  /** Every output has the hash's length. */
  ghost predicate Sized(h: Hash) {
    && h.size > 0
    && (forall k: Bytes, m: Bytes :: |h.hmac(k, m)| == h.size)
    && (forall m: Bytes :: |h.digest(m)| == h.size)
  }

  // XOR

  function Xor(a: Bytes, b: Bytes): (r: Bytes)
    requires |a| <= |b|
    ensures |r| == |a|
  {
    seq(|a|, i requires 0 <= i < |a| => a[i] ^ b[i])
  }

  lemma XorUndoes(a: Bytes, b: Bytes)
    requires |a| == |b|
    ensures Xor(Xor(a, b), b) == a
  {
    forall i | 0 <= i < |a|
      ensures Xor(Xor(a, b), b)[i] == a[i]
    {
      assert (a[i] ^ b[i]) ^ b[i] == a[i];
    }
  }

  /** xorBytes: a fresh slice of the first operand's length. */
  method XorBytes(a: Bytes, b: Bytes) returns (r: Bytes)
    requires |a| <= |b|
    ensures r == Xor(a, b)
  {
    var out := new bv8[|a|];
    for i := 0 to |a|
      invariant forall k :: 0 <= k < i ==> out[k] == a[k] ^ b[k]
    {
      out[i] := a[i] ^ b[i];
    }
    r := out[..];
  }

  // PBKDF2

  /** The four bytes of n, most significant first, n taken modulo 2^32. */
  function BigEndian(n: nat): Bytes {
    [(n / 0x100_0000 % 0x100) as bv8, (n / 0x1_0000 % 0x100) as bv8, (n / 0x100 % 0x100) as bv8, (n % 0x100) as bv8]
  }

  /** The j-th member of the chain U_1, U_2, ... of section 5.2 of RFC 8018, for block i. */
  function Chain(h: Hash, password: Bytes, salt: Bytes, i: nat, j: nat): Bytes
    requires j >= 1
  {
    if j == 1 then h.hmac(password, salt + BigEndian(i)) else h.hmac(password, Chain(h, password, salt, i, j - 1))
  }

  /** U_1 xor ... xor U_c. */
  function Block(h: Hash, password: Bytes, salt: Bytes, i: nat, c: nat): (t: Bytes)
    requires Sized(h) && c >= 1
    ensures |t| == h.size
  {
    if c == 1 then Chain(h, password, salt, i, 1)
    else Xor(Block(h, password, salt, i, c - 1), Chain(h, password, salt, i, c))
  }

  /** T_1 || ... || T_n. */
  function Blocks(h: Hash, password: Bytes, salt: Bytes, c: nat, n: nat): (r: Bytes)
    requires Sized(h) && c >= 1
    ensures |r| == n * h.size
  {
    if n == 0 then [] else Blocks(h, password, salt, c, n - 1) + Block(h, password, salt, n, c)
  }

  /** How many blocks cover the key: ceil(length / size). */
  function BlockCount(length: nat, size: nat): nat
    requires size > 0
  {
    (length + size - 1) / size
  }

  lemma BlocksCover(length: nat, size: nat)
    requires size > 0
    ensures length <= BlockCount(length, size) * size < length + size
  {
    var n := length + size - 1;
    assert n == size * (n / size) + n % size;
  }

  /** The derived key of section 5.2 of RFC 8018. */
  function Pbkdf2(h: Hash, password: Bytes, salt: Bytes, c: nat, length: nat): (key: Bytes)
    requires Sized(h) && c >= 1
    ensures |key| == length
  {
    BlocksCover(length, h.size);
    Blocks(h, password, salt, c, BlockCount(length, h.size))[..length]
  }

  /**
   * The loop nest, with the XOR done in place. An iteration count below one is treated as one, and
   * the block index is cut to 32 bits.
   */
  method DeriveKey(h: Hash, password: Bytes, salt: Bytes, iterations: int, keyLength: nat) returns (key: Bytes)
    requires Sized(h)
    ensures key == Pbkdf2(h, password, salt, if iterations < 1 then 1 else iterations, keyLength)
  {
    ghost var c := if iterations < 1 then 1 else iterations;
    var blocks := (keyLength + h.size - 1) / h.size;
    var result: Bytes := [];
    for block := 1 to blocks + 1
      invariant result == Blocks(h, password, salt, c, block - 1)
    {
      var t := DeriveBlock(h, password, salt, block, iterations);
      result := result + t[..];
    }
    BlocksCover(keyLength, h.size);
    key := result[..keyLength];
  }

  /** The middle loop: the chain of one block, XORed up. */
  method DeriveBlock(h: Hash, password: Bytes, salt: Bytes, block: nat, iterations: int) returns (t: array<bv8>)
    requires Sized(h)
    ensures t[..] == Block(h, password, salt, block, if iterations < 1 then 1 else iterations)
  {
    ghost var c := if iterations < 1 then 1 else iterations;
    var u := h.hmac(password, salt + BigEndian(block));
    t := new bv8[|u|](i requires 0 <= i < |u| => u[i]);
    assert t[..] == u;
    var iteration := 1;
    while iteration < iterations
      invariant 1 <= iteration <= c
      invariant t.Length == h.size && u == Chain(h, password, salt, block, iteration)
      invariant t[..] == Block(h, password, salt, block, iteration)
    {
      u := h.hmac(password, u);
      XorInPlace(t, u);
      iteration := iteration + 1;
    }
  }

  /** The innermost loop. */
  method XorInPlace(t: array<bv8>, u: Bytes)
    requires t.Length == |u|
    modifies t
    ensures t[..] == Xor(old(t[..]), u)
  {
    ghost var was := t[..];
    for i := 0 to t.Length
      invariant forall k :: 0 <= k < i ==> t[k] == was[k] ^ u[k]
      invariant forall k :: i <= k < t.Length ==> t[k] == was[k]
    {
      t[i] := t[i] ^ u[i];
    }
  }

  /** The value four bytes denote, most significant first. */
  function FromBigEndian(b: Bytes): nat
    requires |b| == 4
  {
    b[0] as nat * 0x100_0000 + b[1] as nat * 0x1_0000 + b[2] as nat * 0x100 + b[3] as nat
  }

  /** The block index is encoded faithfully below 2^32, and modulo 2^32 beyond. */
  lemma BigEndianDenotes(n: nat)
    ensures FromBigEndian(BigEndian(n)) == n % UINT32_SIZE
  {
    ByteDenotes(n / 0x100_0000 % 0x100);
    ByteDenotes(n / 0x1_0000 % 0x100);
    ByteDenotes(n / 0x100 % 0x100);
    ByteDenotes(n % 0x100);
    FourDigits(n);
  }

  lemma FourDigits(n: nat)
    ensures (n / 0x100_0000 % 0x100) * 0x100_0000 + (n / 0x1_0000 % 0x100) * 0x1_0000 + (n / 0x100 % 0x100) * 0x100
            + n % 0x100 == n % 0x1_0000_0000
  {
    var a, b, c, q := n / 0x100, n / 0x1_0000, n / 0x100_0000, n / 0x1_0000_0000;
    assert b == a / 0x100;
    assert c == b / 0x100;
    assert q == c / 0x100;
    assert a % 0x100 == a - b * 0x100 && b % 0x100 == b - c * 0x100 && c % 0x100 == c - q * 0x100;
  }

  /** Two keys of different lengths from the same inputs agree on the shorter one. */
  lemma {:induction false} BlocksPrefix(h: Hash, password: Bytes, salt: Bytes, c: nat, m: nat, n: nat)
    requires Sized(h) && c >= 1 && m <= n
    ensures Blocks(h, password, salt, c, m) <= Blocks(h, password, salt, c, n)
    decreases n - m
  {
    if m < n {
      BlocksPrefix(h, password, salt, c, m, n - 1);
    }
  }

  // Attributes

  /** One comma-separated part: a key character, an equals sign and a non-empty value. */
  predicate WellFormedPart(part: string) {
    |part| >= 3 && part[1] == '='
  }

  datatype AttrError = Malformed | DuplicateKey(key: char)

  function PartsToAttrs(parts: seq<string>, attrs: map<char, string>): Result<map<char, string>, AttrError> {
    if parts == [] then Ok(attrs)
    else if !WellFormedPart(parts[0]) then Err(Malformed)
    else if parts[0][0] in attrs then Err(DuplicateKey(parts[0][0]))
    else PartsToAttrs(parts[1..], attrs[parts[0][0] := parts[0][2..]])
  }

  function ParseAttributes(message: string): Result<map<char, string>, AttrError> {
    PartsToAttrs(Split(message, ','), map[])
  }

  method ParseAttributesLoop(message: string) returns (r: Result<map<char, string>, AttrError>)
    ensures r == ParseAttributes(message)
  {
    var parts := Split(message, ',');
    var attrs: map<char, string> := map[];
    assert parts[0..] == parts;
    for i := 0 to |parts|
      invariant ParseAttributes(message) == PartsToAttrs(parts[i..], attrs)
    {
      assert parts[i..][0] == parts[i] && parts[i..][1..] == parts[i + 1..];
      if |parts[i]| < 3 || parts[i][1] != '=' {
        return Err(Malformed);
      }
      var key := parts[i][0];
      if key in attrs {
        return Err(DuplicateKey(key));
      }
      attrs := attrs[key := parts[i][2..]];
    }
    assert parts[|parts|..] == [];
    return Ok(attrs);
  }

  datatype Attribute = Attribute(key: char, value: string)

  function PartOf(a: Attribute): string {
    [a.key, '='] + a.value
  }

  function PartsOf(attrs: seq<Attribute>): seq<string> {
    seq(|attrs|, i requires 0 <= i < |attrs| => PartOf(attrs[i]))
  }

  /** A value that survives: present, and free of the separator. */
  predicate Plain(value: string) {
    value != "" && ',' !in value
  }

  predicate PlainAttributes(attrs: seq<Attribute>) {
    && (forall i :: 0 <= i < |attrs| ==> Plain(attrs[i].value) && attrs[i].key != ',')
    && (forall i, j :: 0 <= i < j < |attrs| ==> attrs[i].key != attrs[j].key)
  }

  function ToMap(attrs: seq<Attribute>): map<char, string> {
    if attrs == [] then map[] else ToMap(attrs[..|attrs| - 1])[attrs[|attrs| - 1].key := attrs[|attrs| - 1].value]
  }

  lemma {:induction false} ToMapKeys(attrs: seq<Attribute>, c: char)
    ensures c in ToMap(attrs) <==> exists i :: 0 <= i < |attrs| && attrs[i].key == c
  {
    if attrs != [] {
      var front := attrs[..|attrs| - 1];
      ToMapKeys(front, c);
      if c in ToMap(attrs) && c != attrs[|attrs| - 1].key {
        var i :| 0 <= i < |front| && front[i].key == c;
        assert attrs[i].key == c;
      }
      forall i | 0 <= i < |attrs| && attrs[i].key == c
        ensures c in ToMap(attrs)
      {
        assert i < |front| ==> front[i].key == c;
      }
    }
  }

  lemma {:induction false} PartsToAttrsFrom(attrs: seq<Attribute>, n: nat)
    requires PlainAttributes(attrs) && n <= |attrs|
    ensures PartsToAttrs(PartsOf(attrs)[n..], ToMap(attrs[..n])) == Ok(ToMap(attrs))
    decreases |attrs| - n
  {
    var parts := PartsOf(attrs);
    if n == |attrs| {
      assert parts[n..] == [] && attrs[..n] == attrs;
    } else {
      assert parts[n..][0] == PartOf(attrs[n]) && parts[n..][1..] == parts[n + 1..];
      ToMapKeys(attrs[..n], attrs[n].key);
      assert attrs[..n + 1][..n] == attrs[..n];
      assert PartOf(attrs[n])[2..] == attrs[n].value;
      PartsToAttrsFrom(attrs, n + 1);
    }
  }

  /** Splitting a message yields exactly the attributes it was joined from. */
  lemma ParseJoined(attrs: seq<Attribute>)
    requires attrs != [] && PlainAttributes(attrs)
    ensures ParseAttributes(Join(PartsOf(attrs), ',')) == Ok(ToMap(attrs))
  {
    var parts := PartsOf(attrs);
    forall i | 0 <= i < |parts|
      ensures ',' !in parts[i]
    {
      assert parts[i] == PartOf(attrs[i]);
    }
    SplitJoin(parts, ',');
    PartsToAttrsFrom(attrs, 0);
    assert attrs[..0] == [] && parts[0..] == parts;
  }

  function KeyOf(part: string): char {
    if part == "" then ',' else part[0]
  }

  /** The keys of the parts differ from each other and from those taken. */
  predicate FreshKeys(parts: seq<string>, taken: set<char>) {
    && (forall i :: 0 <= i < |parts| ==> KeyOf(parts[i]) !in taken)
    && (forall i, j :: 0 <= i < j < |parts| ==> KeyOf(parts[i]) != KeyOf(parts[j]))
  }

  lemma {:induction false} PartsReadIff(parts: seq<string>, attrs: map<char, string>)
    ensures var r := PartsToAttrs(parts, attrs);
            && (r.Ok? <==> (forall i :: 0 <= i < |parts| ==> WellFormedPart(parts[i])) && FreshKeys(parts, attrs.Keys))
            && (r.Ok? ==>
                  && (forall i :: 0 <= i < |parts| ==> WellFormedPart(parts[i])
                                                       && KeyOf(parts[i]) in r.value
                                                       && r.value[KeyOf(parts[i])] == parts[i][2..])
                  && (forall k :: k in attrs ==> k in r.value && r.value[k] == attrs[k]))
    decreases |parts|
  {
    if parts != [] && WellFormedPart(parts[0]) && parts[0][0] !in attrs {
      var more, rest := attrs[parts[0][0] := parts[0][2..]], parts[1..];
      PartsReadIff(rest, more);
      assert forall i :: 0 < i < |parts| ==> parts[i] == rest[i - 1];
      assert forall i :: 0 <= i < |rest| ==> rest[i] == parts[i + 1];
    }
  }

  /**
   * A message is read exactly when each of its comma-separated parts is a key, an equals sign and a
   * value, and no key comes twice; each value is then found under its key.
   */
  lemma AttributesReadIff(message: string)
    ensures var parts, r := Split(message, ','), ParseAttributes(message);
            && (r.Ok? <==> (forall i :: 0 <= i < |parts| ==> WellFormedPart(parts[i])) && FreshKeys(parts, {}))
            && (r.Ok? ==> forall i :: 0 <= i < |parts| ==>
                  WellFormedPart(parts[i]) && KeyOf(parts[i]) in r.value && r.value[KeyOf(parts[i])] == parts[i][2..])
  {
    PartsReadIff(Split(message, ','), map[]);
  }

  // User names

  /** The replacer: "=" becomes "=3D" and "," becomes "=2C". */
  function EscapeName(s: string): string {
    if s == "" then ""
    else (if s[0] == '=' then "=3D" else if s[0] == ',' then "=2C" else [s[0]]) + EscapeName(s[1..])
  }

  /** The server's reading of a saslname, section 5.1 of RFC 5802; None for a stray "=". */
  function UnescapeName(s: string): Option<string> {
    if s == "" then Some("")
    else if s[0] != '=' then
      (match UnescapeName(s[1..])
       case Some(rest) => Some([s[0]] + rest)
       case None => None)
    else if |s| >= 3 && (s[1..3] == "3D" || s[1..3] == "2C") then
      (match UnescapeName(s[3..])
       case Some(rest) => Some((if s[1..3] == "3D" then "=" else ",") + rest)
       case None => None)
    else None
  }

  /** Escaping is invertible and leaves no comma. */
  lemma {:induction false} EscapeInvertible(s: string)
    ensures UnescapeName(EscapeName(s)) == Some(s)
    ensures ',' !in EscapeName(s)
    ensures s != "" ==> EscapeName(s) != ""
  {
    if s != "" {
      EscapeInvertible(s[1..]);
      var rest := EscapeName(s[1..]);
      var e := EscapeName(s);
      assert s == [s[0]] + s[1..];
      if s[0] == '=' {
        assert e == "=3D" + rest;
        assert e[1..3] == "3D" && e[3..] == rest;
      } else if s[0] == ',' {
        assert e == "=2C" + rest;
        assert e[1..3] == "2C" && e[3..] == rest;
      } else {
        assert e == [s[0]] + rest;
        assert e[1..] == rest;
      }
    }
  }

  // The exchange

  /** What a password and a challenge determine. */
  datatype Keys = Keys(client: Bytes, stored: Bytes, server: Bytes)

  function DeriveKeys(h: Hash, c: Codec, password: string, salt: Bytes, iterations: nat): (keys: Keys)
    requires Sized(h) && iterations >= 1
    ensures |keys.client| == |keys.stored| == h.size && keys.stored == h.digest(keys.client)
  {
    var salted := Pbkdf2(h, c.bytes(password), salt, iterations, h.size);
    var client := h.hmac(salted, c.bytes("Client Key"));
    Keys(client, h.digest(client), h.hmac(salted, c.bytes("Server Key")))
  }

  /** The client after its second message: what it sent and what it expects to see signed. */
  datatype ClientState = ClientState(final: string, expected: Bytes)

  datatype AuthError = BadAttributes | BadNonce | BadSalt | BadIterations | ServerError | BadEncoding | BadSignature

  const MAX_ITERATIONS: nat := 10_000_000

  function ClientFirstBare(user: string, nonce: string): string {
    "n=" + EscapeName(user) + ",r=" + nonce
  }

  /** The client's first message. */
  function ClientFirst(user: string, nonce: string): string {
    "n,," + ClientFirstBare(user, nonce)
  }

  function AttrOf(attrs: map<char, string>, key: char): string {
    if key in attrs then attrs[key] else ""
  }

  function AuthMessage(firstBare: string, serverFirst: string, nonce: string): string {
    firstBare + "," + serverFirst + ",c=biws,r=" + nonce
  }

  datatype Challenge = Challenge(nonce: string, salt: Bytes, iterations: nat)

  /** The client's reading of the server's first message. */
  function ReadChallenge(c: Codec, nonce: string, serverFirst: string): (r: Result<Challenge, AuthError>)
    ensures r.Ok? ==> 1 <= r.value.iterations <= MAX_ITERATIONS
  {
    match ParseAttributes(serverFirst)
    case Err(_) => Err(BadAttributes)
    case Ok(attrs) =>
      var serverNonce := AttrOf(attrs, 'r');
      if !(nonce <= serverNonce) || serverNonce == nonce then Err(BadNonce)
      else
        match c.decode(AttrOf(attrs, 's'))
        case None => Err(BadSalt)
        case Some(salt) =>
          match Atoi(AttrOf(attrs, 'i'))
          case Err(_) => Err(BadIterations)
          case Ok(iterations) =>
            if iterations < 1 || iterations > MAX_ITERATIONS then Err(BadIterations)
            else Ok(Challenge(serverNonce, salt, iterations))
  }

  /**
   * Whatever text a server sends, it is accepted as a challenge exactly when its attributes can be read,
   * its nonce properly extends the client's, its salt decodes, and its count is between one and ten
   * million; these are then what the client goes by.
   */
  lemma ReadChallengeIff(c: Codec, nonce: string, text: string, ch: Challenge)
    ensures ReadChallenge(c, nonce, text) == Ok(ch) <==>
            && ParseAttributes(text).Ok?
            && var attrs := ParseAttributes(text).value;
            && nonce < ch.nonce && ch.nonce == AttrOf(attrs, 'r')
            && c.decode(AttrOf(attrs, 's')) == Some(ch.salt)
            && 1 <= ch.iterations <= 10_000_000 && Atoi(AttrOf(attrs, 'i')) == Ok(ch.iterations)
  {
  }

  /** The client's answer to the server's first message. */
  function ClientFinal(h: Hash, c: Codec, user: string, password: string, nonce: string, serverFirst: string)
    : Result<ClientState, AuthError>
    requires Sized(h)
  {
    match ReadChallenge(c, nonce, serverFirst)
    case Err(e) => Err(e)
    case Ok(challenge) =>
      var keys := DeriveKeys(h, c, password, challenge.salt, challenge.iterations);
      var message := c.bytes(AuthMessage(ClientFirstBare(user, nonce), serverFirst, challenge.nonce));
      Ok(Prove(h, c, keys, message, challenge.nonce))
  }

  /** The proof over the whole exchange, and the signature expected in return. */
  function Prove(h: Hash, c: Codec, keys: Keys, message: Bytes, serverNonce: string): ClientState
    requires Sized(h) && |keys.client| == h.size
  {
    var proof := Xor(keys.client, h.hmac(keys.stored, message));
    ClientState("c=biws,r=" + serverNonce + ",p=" + c.encode(proof), h.hmac(keys.server, message))
  }

  /** The client's judgement of the text that came with success; blank text ends without a signature. */
  function ClientVerify(c: Codec, expected: Bytes, success: string): Result<(), AuthError> {
    if TrimSpace(success) == "" then Ok(())
    else
      match c.decode(TrimSpace(success))
      case None => Err(BadEncoding)
      case Some(decoded) =>
        match ParseAttributes(c.text(decoded))
        case Err(_) => Err(BadAttributes)
        case Ok(attrs) =>
          if AttrOf(attrs, 'e') != "" then Err(ServerError)
          else if c.decode(AttrOf(attrs, 'v')) == Some(expected) then Ok(())
          else Err(BadSignature)
  }

  /** The challenge a server puts together. */
  function ServerFirst(c: Codec, clientNonce: string, serverNonce: string, salt: Bytes, iterations: nat): string {
    "r=" + clientNonce + serverNonce + ",s=" + c.encode(salt) + ",i=" + Itoa(iterations)
  }

  lemma Join2(a: string, b: string)
    ensures Join([a, b], ',') == a + "," + b
  {
    assert [a, b][1..] == [b];
  }

  lemma Join3(a: string, b: string, d: string)
    ensures Join([a, b, d], ',') == a + "," + b + "," + d
  {
    assert [a, b, d][1..] == [b, d];
    Join2(b, d);
  }

  lemma Parse1(k: char, v: string)
    requires PlainAttributes([Attribute(k, v)])
    ensures ParseAttributes([k, '='] + v) == Ok(map[k := v])
  {
    var attrs := [Attribute(k, v)];
    assert PartsOf(attrs) == [[k, '='] + v];
    ParseJoined(attrs);
    assert attrs[..0] == [];
    assert ToMap(attrs) == map[k := v];
  }

  lemma Parse2(k: char, v: string, l: char, w: string)
    requires PlainAttributes([Attribute(k, v), Attribute(l, w)])
    ensures ParseAttributes([k, '='] + v + "," + ([l, '='] + w)) == Ok(map[k := v, l := w])
  {
    var attrs := [Attribute(k, v), Attribute(l, w)];
    assert PartsOf(attrs) == [[k, '='] + v, [l, '='] + w];
    ParseJoined(attrs);
    Join2([k, '='] + v, [l, '='] + w);
    assert attrs[..1] == [Attribute(k, v)] && attrs[..1][..0] == [];
    assert ToMap(attrs[..1]) == map[k := v];
  }

  lemma Parse3(k: char, v: string, l: char, w: string, m: char, x: string)
    requires PlainAttributes([Attribute(k, v), Attribute(l, w), Attribute(m, x)])
    ensures ParseAttributes([k, '='] + v + "," + ([l, '='] + w) + "," + ([m, '='] + x)) == Ok(map[k := v, l := w, m := x])
  {
    var attrs := [Attribute(k, v), Attribute(l, w), Attribute(m, x)];
    assert PartsOf(attrs) == [[k, '='] + v, [l, '='] + w, [m, '='] + x];
    ParseJoined(attrs);
    Join3([k, '='] + v, [l, '='] + w, [m, '='] + x);
    assert attrs[..2] == [Attribute(k, v), Attribute(l, w)];
    assert attrs[..2][..1] == [Attribute(k, v)] && attrs[..2][..1][..0] == [];
    assert ToMap(attrs[..2][..1]) == map[k := v];
    assert ToMap(attrs[..2]) == map[k := v, l := w];
  }

  lemma DigitsPlain(n: nat)
    ensures Plain(Itoa(n))
  {
    var s := Format(n, 10);
    assert forall i :: 0 <= i < |s| ==> DigitValue(s[i]) < 10;
    assert DigitValue(',') == 36;
  }

  lemma ServerFirstParts(c: Codec, clientNonce: string, serverNonce: string, salt: Bytes, iterations: nat)
    requires Faithful(c) && ',' !in clientNonce && ',' !in serverNonce
    ensures Split(ServerFirst(c, clientNonce, serverNonce, salt, iterations), ',')
         == ["r=" + (clientNonce + serverNonce), "s=" + c.encode(salt), "i=" + Itoa(iterations)]
  {
    DigitsPlain(iterations);
    var parts := ["r=" + (clientNonce + serverNonce), "s=" + c.encode(salt), "i=" + Itoa(iterations)];
    Join3(parts[0], parts[1], parts[2]);
    assert "r=" + (clientNonce + serverNonce) == "r=" + clientNonce + serverNonce;
    assert ServerFirst(c, clientNonce, serverNonce, salt, iterations) == Join(parts, ',');
    SplitJoin(parts, ',');
  }

  lemma ServerFirstParses(c: Codec, clientNonce: string, serverNonce: string, salt: Bytes, iterations: nat)
    requires Faithful(c) && Plain(clientNonce) && ',' !in serverNonce
    ensures var r := ParseAttributes(ServerFirst(c, clientNonce, serverNonce, salt, iterations));
            r == if salt == [] then Err(Malformed)
                 else Ok(map['r' := clientNonce + serverNonce, 's' := c.encode(salt), 'i' := Itoa(iterations)])
  {
    var nonce, e, i := clientNonce + serverNonce, c.encode(salt), Itoa(iterations);
    DigitsPlain(iterations);
    if salt == [] {
      ServerFirstParts(c, clientNonce, serverNonce, salt, iterations);
      var parts := ["r=" + nonce, "s=" + e, "i=" + i];
      assert "s=" + e == "s=" && parts[1..][0] == "s=";
      assert PartsToAttrs(parts[1..], map['r' := nonce]) == Err(Malformed);
      assert parts[0][2..] == nonce;
    } else {
      Parse3('r', nonce, 's', e, 'i', i);
      assert ServerFirst(c, clientNonce, serverNonce, salt, iterations)
          == ['r', '='] + nonce + "," + (['s', '='] + e) + "," + (['i', '='] + i);
    }
  }

  /** How the client reads any challenge a server can put together. */
  lemma ChallengeReads(c: Codec, clientNonce: string, serverNonce: string, salt: Bytes, iterations: nat)
    requires Faithful(c) && Plain(clientNonce) && ',' !in serverNonce
    ensures ReadChallenge(c, clientNonce, ServerFirst(c, clientNonce, serverNonce, salt, iterations))
         == if salt == [] then Err(BadAttributes)
            else if serverNonce == "" then Err(BadNonce)
            else if 1 <= iterations <= MAX_ITERATIONS then Ok(Challenge(clientNonce + serverNonce, salt, iterations))
            else Err(BadIterations)
  {
    ServerFirstParses(c, clientNonce, serverNonce, salt, iterations);
    AtoiItoa(iterations);
    assert serverNonce != "" ==> |clientNonce + serverNonce| > |clientNonce|;
    assert serverNonce == "" ==> clientNonce + serverNonce == clientNonce;
  }

  /**
   * The client answers a challenge if and only if the server extended its nonce, sent a salt, and
   * asked for one to ten million iterations.
   */
  lemma ChallengeAcceptedIff(h: Hash, c: Codec, user: string, password: string, clientNonce: string,
                             serverNonce: string, salt: Bytes, iterations: nat)
    requires Sized(h) && Faithful(c) && Plain(clientNonce) && ',' !in serverNonce
    ensures ClientFinal(h, c, user, password, clientNonce, ServerFirst(c, clientNonce, serverNonce, salt, iterations)).Ok?
            <==> serverNonce != "" && salt != [] && 1 <= iterations <= MAX_ITERATIONS
  {
    ChallengeReads(c, clientNonce, serverNonce, salt, iterations);
  }

  /** What the client sends and expects once it accepts the challenge. */
  lemma ClientFinalValue(h: Hash, c: Codec, user: string, password: string, clientNonce: string, serverNonce: string,
                         salt: Bytes, iterations: nat)
    requires Sized(h) && Faithful(c) && Plain(clientNonce) && Plain(serverNonce)
    requires salt != [] && 1 <= iterations <= MAX_ITERATIONS
    ensures var first := ServerFirst(c, clientNonce, serverNonce, salt, iterations);
            var keys := DeriveKeys(h, c, password, salt, iterations);
            var nonce := clientNonce + serverNonce;
            var message := c.bytes(AuthMessage(ClientFirstBare(user, clientNonce), first, nonce));
            ClientFinal(h, c, user, password, clientNonce, first) == Ok(Prove(h, c, keys, message, nonce))
  {
    ChallengeReads(c, clientNonce, serverNonce, salt, iterations);
  }

  /** The signature that the text sent with success carries, unless it cannot be read or is an error. */
  function SignatureIn(c: Codec, success: string): Option<Bytes> {
    match c.decode(TrimSpace(success))
    case None => None
    case Some(decoded) =>
      match ParseAttributes(c.text(decoded))
      case Err(_) => None
      case Ok(attrs) => if AttrOf(attrs, 'e') != "" then None else c.decode(AttrOf(attrs, 'v'))
  }

  /**
   * Whatever text comes with success, it is accepted if and only if it is blank or carries the expected
   * signature.
   */
  lemma SuccessAcceptedIff(c: Codec, expected: Bytes, success: string)
    ensures ClientVerify(c, expected, success).Ok?
       <==> TrimSpace(success) == "" || SignatureIn(c, success) == Some(expected)
  {
  }

  /** The client accepts a signature if and only if it is the one it expects. */
  lemma SignatureAcceptedIff(c: Codec, expected: Bytes, signature: Bytes)
    requires Faithful(c) && signature != []
    ensures ClientVerify(c, expected, c.encode(c.bytes("v=" + c.encode(signature)))).Ok? <==> signature == expected
  {
    var text := "v=" + c.encode(signature);
    TrimSpaceFixes(c.encode(c.bytes(text)));
    Parse1('v', c.encode(signature));
    assert text == ['v', '='] + c.encode(signature);
    assert c.decode(c.encode(signature)) == Some(signature);
  }

  /** An error the server reports is refused even when the expected signature comes with it. */
  lemma ReportedErrorRefused(c: Codec, expected: Bytes, reason: string)
    requires Faithful(c) && Plain(reason) && expected != []
    ensures ClientVerify(c, expected, c.encode(c.bytes("e=" + reason + ",v=" + c.encode(expected)))) == Err(ServerError)
  {
    var text := "e=" + reason + ",v=" + c.encode(expected);
    TrimSpaceFixes(c.encode(c.bytes(text)));
    Parse2('e', reason, 'v', c.encode(expected));
    assert text == ['e', '='] + reason + "," + (['v', '='] + c.encode(expected));
  }

  lemma ClientFinalParses(c: Codec, nonce: string, proof: Bytes)
    requires Faithful(c) && Plain(nonce) && proof != []
    ensures ParseAttributes("c=biws,r=" + nonce + ",p=" + c.encode(proof))
         == Ok(map['c' := "biws", 'r' := nonce, 'p' := c.encode(proof)])
  {
    Parse3('c', "biws", 'r', nonce, 'p', c.encode(proof));
    assert "c=biws,r=" + nonce + ",p=" + c.encode(proof)
        == ['c', '='] + "biws" + "," + (['r', '='] + nonce) + "," + (['p', '='] + c.encode(proof));
  }
}
