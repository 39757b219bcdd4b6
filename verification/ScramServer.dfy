/**
 * The other side of the exchange: a server as sections 3 and 5 of RFC 5802 describe it, which knows the
 * stored and the server key of an account but neither the password nor the client key.
 */
module ScramServer {
  import opened Wrappers
  import opened Numerals
  import opened Text
  import opened Encoding
  import opened Scram

  datatype Account = Account(stored: Bytes, server: Bytes)

  /** What is kept of a password when the account is set up. */
  function Enrol(h: Hash, c: Codec, password: string, salt: Bytes, iterations: nat): (a: Account)
    requires Sized(h) && iterations >= 1
    ensures |a.stored| == |a.server| == h.size
  {
    var salted := Pbkdf2(h, c.bytes(password), salt, iterations, h.size);
    Account(h.digest(h.hmac(salted, c.bytes("Client Key"))), h.hmac(salted, c.bytes("Server Key")))
  }

  /** The user name and the nonce in a client's first message; None for a name that is no saslname. */
  function ReadFirst(clientFirst: string): Option<(string, string)> {
    if |clientFirst| < 3 || clientFirst[..3] != "n,," then None
    else
      match ParseAttributes(clientFirst[3..])
      case Err(_) => None
      case Ok(attrs) =>
        match UnescapeName(AttrOf(attrs, 'n'))
        case None => None
        case Some(user) => Some((user, AttrOf(attrs, 'r')))
  }

  /** A client's last message without the proof that ends it. */
  function WithoutProof(clientFinal: string): string {
    match LastIndexOf(clientFinal, ',')
    case None => clientFinal
    case Some(at) => clientFinal[..at]
  }

  /** What both sides sign: the messages so far, as they were received. */
  function Signed(clientFirst: string, serverFirst: string, clientFinal: string): string
    requires |clientFirst| >= 3
  {
    clientFirst[3..] + "," + serverFirst + "," + WithoutProof(clientFinal)
  }

  /** The server recovers the client key from the proof and accepts if its hash is the stored key. */
  predicate Proves(h: Hash, a: Account, message: Bytes, proof: Bytes)
    requires Sized(h) && |a.stored| == h.size
  {
    |proof| == h.size && h.digest(Xor(proof, h.hmac(a.stored, message))) == a.stored
  }

  /** The server's answer to the client's last message: its own signature over the same messages. */
  function Accept(h: Hash, c: Codec, a: Account, clientFirst: string, serverFirst: string, nonce: string,
                  clientFinal: string): Option<string>
    requires Sized(h) && |a.stored| == h.size && |clientFirst| >= 3
  {
    match ParseAttributes(clientFinal)
    case Err(_) => None
    case Ok(attrs) =>
      if AttrOf(attrs, 'c') != "biws" || AttrOf(attrs, 'r') != nonce then None
      else
        match c.decode(AttrOf(attrs, 'p'))
        case None => None
        case Some(proof) =>
          var message := c.bytes(Signed(clientFirst, serverFirst, clientFinal));
          if Proves(h, a, message, proof) then Some(c.encode(c.bytes("v=" + c.encode(h.hmac(a.server, message)))))
          else None
  }

  lemma UserReceived(user: string, nonce: string)
    requires user != "" && Plain(nonce)
    ensures ReadFirst(ClientFirst(user, nonce)) == Some((user, nonce))
  {
    EscapeInvertible(user);
    Parse2('n', EscapeName(user), 'r', nonce);
    var bare := ClientFirstBare(user, nonce);
    assert bare == ['n', '='] + EscapeName(user) + "," + (['r', '='] + nonce);
    assert ("n,," + bare)[..3] == "n,," && ("n,," + bare)[3..] == bare;
  }

  /** What the client signs is what the server does. */
  lemma SameSigned(c: Codec, user: string, nonce: string, first: string, full: string, proof: Bytes)
    requires Faithful(c)
    ensures Signed(ClientFirst(user, nonce), first, "c=biws,r=" + full + ",p=" + c.encode(proof))
         == AuthMessage(ClientFirstBare(user, nonce), first, full)
  {
    var head, tail := "c=biws,r=" + full, "p=" + c.encode(proof);
    var final := "c=biws,r=" + full + ",p=" + c.encode(proof);
    assert final == head + [','] + tail;
    LastIndexOfConcat(head, ',', tail);
    assert final[..|head|] == head;
    assert ClientFirst(user, nonce)[3..] == ClientFirstBare(user, nonce);
    var bare := ClientFirstBare(user, nonce);
    assert bare + "," + first + "," + head == bare + "," + first + ",c=biws,r=" + full;
  }

  /** The client's proof convinces a server that knows only the stored key. */
  lemma ProofAccepted(h: Hash, keys: Keys, a: Account, message: Bytes)
    requires Sized(h) && |keys.client| == |keys.stored| == h.size && keys.stored == h.digest(keys.client) == a.stored
    ensures Proves(h, a, message, Xor(keys.client, h.hmac(keys.stored, message)))
  {
    XorUndoes(keys.client, h.hmac(keys.stored, message));
  }

  /** The server answers the client's last message with the signature the client expects. */
  lemma ServerConvinced(h: Hash, c: Codec, keys: Keys, user: string, nonce: string, first: string, full: string)
    requires Sized(h) && Faithful(c) && Plain(full)
    requires |keys.client| == |keys.stored| == h.size && keys.stored == h.digest(keys.client)
    ensures var state := Prove(h, c, keys, c.bytes(AuthMessage(ClientFirstBare(user, nonce), first, full)), full);
            Accept(h, c, Account(keys.stored, keys.server), ClientFirst(user, nonce), first, full, state.final)
            == Some(c.encode(c.bytes("v=" + c.encode(state.expected))))
  {
    var message := c.bytes(AuthMessage(ClientFirstBare(user, nonce), first, full));
    var proof := Xor(keys.client, h.hmac(keys.stored, message));
    SameSigned(c, user, nonce, first, full, proof);
    ClientFinalParses(c, full, proof);
    ProofAccepted(h, keys, Account(keys.stored, keys.server), message);
    assert c.decode(c.encode(proof)) == Some(proof);
  }

  lemma BothConvinced(h: Hash, c: Codec, keys: Keys, user: string, nonce: string, first: string, full: string)
    requires Sized(h) && Faithful(c) && Plain(full)
    requires |keys.client| == |keys.stored| == h.size && keys.stored == h.digest(keys.client)
    ensures var state := Prove(h, c, keys, c.bytes(AuthMessage(ClientFirstBare(user, nonce), first, full)), full);
            var a := Account(keys.stored, keys.server);
            var verdict := Accept(h, c, a, ClientFirst(user, nonce), first, full, state.final);
            verdict.Some? && ClientVerify(c, state.expected, verdict.value) == Ok(())
  {
    ServerConvinced(h, c, keys, user, nonce, first, full);
    var signature := h.hmac(keys.server, c.bytes(AuthMessage(ClientFirstBare(user, nonce), first, full)));
    SignatureAcceptedIff(c, signature, signature);
  }

  /** The client's keys are those the account was set up with. */
  lemma SameKeys(h: Hash, c: Codec, password: string, salt: Bytes, iterations: nat)
    requires Sized(h) && iterations >= 1
    ensures var keys := DeriveKeys(h, c, password, salt, iterations);
            Enrol(h, c, password, salt, iterations) == Account(keys.stored, keys.server)
  {
  }

  /**
   * The whole exchange. For every user, password, salt, iteration count and nonces, a server with the
   * account set up for the same password accepts the proof, and answers with a signature that the
   * client accepts. It learns the user from the first message, where the grammar of RFC 5802 has no
   * empty names.
   */
  lemma ExchangeSucceeds(h: Hash, c: Codec, user: string, password: string, clientNonce: string, serverNonce: string,
                         salt: Bytes, iterations: nat)
    requires Sized(h) && Faithful(c) && Plain(clientNonce) && Plain(serverNonce)
    requires salt != [] && 1 <= iterations <= MAX_ITERATIONS
    ensures var account := Enrol(h, c, password, salt, iterations);
            var hello, first := ClientFirst(user, clientNonce), ServerFirst(c, clientNonce, serverNonce, salt, iterations);
            var answer := ClientFinal(h, c, user, password, clientNonce, first);
            && (user != "" ==> ReadFirst(hello) == Some((user, clientNonce)))
            && answer.Ok?
            && var verdict := Accept(h, c, account, hello, first, clientNonce + serverNonce, answer.value.final);
            verdict.Some? && ClientVerify(c, answer.value.expected, verdict.value) == Ok(())
  {
    var first := ServerFirst(c, clientNonce, serverNonce, salt, iterations);
    var keys, full := DeriveKeys(h, c, password, salt, iterations), clientNonce + serverNonce;
    if user != "" {
      UserReceived(user, clientNonce);
    }
    SameKeys(h, c, password, salt, iterations);
    ClientFinalValue(h, c, user, password, clientNonce, serverNonce, salt, iterations);
    BothConvinced(h, c, keys, user, clientNonce, first, full);
  }
}
