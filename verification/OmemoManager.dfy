/** Whom a message is encrypted for: target devices, trust, sessions and wrapped keys. */
module OmemoManager {
  import opened Wrappers
  import opened Encoding
  import opened OmemoStore
  import opened OmemoXml
  import T = Text

  const KEY_SIZE := 16
  const TAG_SIZE := 16
  const IV_SIZE := 12

  // The cipher, and the split of its output into payload and key material

  /** AES-GCM as its callers see it: opening with the right key and vector undoes sealing. */
  datatype Aead = Aead(seal: (Bytes, Bytes, Bytes) -> Bytes, open: (Bytes, Bytes, Bytes) -> Option<Bytes>)

  ghost predicate Ideal(c: Aead) {
    forall key: Bytes, iv: Bytes, plain: Bytes ::
      |c.seal(key, iv, plain)| == |plain| + TAG_SIZE && c.open(key, iv, c.seal(key, iv, plain)) == Some(plain)
  }

  datatype Sealed = Sealed(material: Bytes, payload: Bytes)

  datatype OpenError = ShortMaterial | WrongTagLength | WrongVectorLength | NotAuthentic

  /** The payload is the ciphertext; the tag travels with the key, under each device's session. */
  function Seal(c: Aead, key: Bytes, iv: Bytes, plain: Bytes): Sealed
    requires |c.seal(key, iv, plain)| >= TAG_SIZE
  {
    var sealed := c.seal(key, iv, plain);
    var split := |sealed| - TAG_SIZE;
    Sealed(key + sealed[split..], sealed[..split])
  }

  /** WrongVectorLength stands for the panic of the platform's cipher. */
  function Open(c: Aead, material: Bytes, iv: Bytes, payload: Bytes): Result<Bytes, OpenError> {
    if |material| < KEY_SIZE then Err(ShortMaterial)
    else if |material| - KEY_SIZE != TAG_SIZE then Err(WrongTagLength)
    else if |iv| != IV_SIZE then Err(WrongVectorLength)
    else
      match c.open(material[..KEY_SIZE], iv, payload + material[KEY_SIZE..])
      case Some(plain) => Ok(plain)
      case None => Err(NotAuthentic)
  }

  lemma OpenUndoesSeal(c: Aead, key: Bytes, iv: Bytes, plain: Bytes)
    requires Ideal(c) && |key| == KEY_SIZE && |iv| == IV_SIZE
    ensures var s := Seal(c, key, iv, plain);
            Open(c, s.material, iv, s.payload) == Ok(plain) && (s.payload == [] <==> plain == [])
  {
    var sealed := c.seal(key, iv, plain);
    var split := |sealed| - TAG_SIZE;
    assert (key + sealed[split..])[..KEY_SIZE] == key;
    assert (key + sealed[split..])[KEY_SIZE..] == sealed[split..];
    assert sealed[..split] + sealed[split..] == sealed;
  }

  /** What opens: key material of a key and a tag, a vector of its length, and an authentic payload. */
  lemma OpenIff(c: Aead, key: Bytes, tag: Bytes, iv: Bytes, payload: Bytes)
    requires |key| == 16
    ensures var r := Open(c, key + tag, iv, payload);
            && (forall plain: Bytes :: r == Ok(plain) <==>
                  |tag| == 16 && |iv| == 12 && c.open(key, iv, payload + tag) == Some(plain))
            && (|tag| == 16 && |iv| == 12 && c.open(key, iv, payload + tag) == None ==> r == Err(NotAuthentic))
            && (|tag| != 16 ==> r == Err(WrongTagLength))
            && (|tag| == 16 && |iv| != 12 ==> r == Err(WrongVectorLength))
    ensures forall short: Bytes :: |short| < 16 ==> Open(c, short, iv, payload) == Err(ShortMaterial)
  {
    assert (key + tag)[..16] == key && (key + tag)[16..] == tag;
  }

  // The session backend

  datatype SessionCiphertext = SessionCiphertext(data: Bytes, preKey: bool)

  /**
   * The backend's and the network's answers during one call. Every address is asked at most once, so
   * a function from addresses to answers also describes a backend that changes state as it goes.
   */
  datatype Backend = Backend(
    hasSession: Address -> Result<bool, string>,
    fetch: Address -> Result<Bundle, string>,
    build: (Address, Bundle) -> Option<string>,
    encrypt: (Address, Bytes) -> Result<SessionCiphertext, string>,
    decrypt: (Address, SessionCiphertext) -> Result<Bytes, string>)

  /** The error that keeps a session from being there, if any. */
  function SessionError(m: Model, b: Backend, a: Address): Option<string> {
    match b.hasSession(a)
    case Err(e) => Some(e)
    case Ok(true) => None
    case Ok(false) =>
      if a in m.bundles then b.build(a, m.bundles[a])
      else
        match b.fetch(a)
        case Err(e) => Some(e)
        case Ok(bundle) => b.build(a, bundle)
  }

  /** A session is ready if there is one, or if one can be built on a bundle that is stored or fetched. */
  lemma SessionReadyIff(m: Model, b: Backend, a: Address)
    ensures SessionError(m, b, a) == None <==>
            || b.hasSession(a) == Ok(true)
            || (b.hasSession(a) == Ok(false) && a in m.bundles && b.build(a, m.bundles[a]) == None)
            || (b.hasSession(a) == Ok(false) && a !in m.bundles && b.fetch(a).Ok? && b.build(a, b.fetch(a).value) == None)
  {
  }

  /** A bundle is fetched when there is no session yet and none is stored. */
  predicate Fetches(m: Model, b: Backend, a: Address) {
    b.hasSession(a) == Ok(false) && a !in m.bundles && b.fetch(a).Ok?
  }

  function AfterSession(m: Model, b: Backend, a: Address): Model {
    if Fetches(m, b, a) then m.(bundles := m.bundles[a := b.fetch(a).value]) else m
  }

  method EnsureSession(store: MemoryStore, b: Backend, a: Address) returns (error: Option<string>)
    requires store.Valid()
    modifies store
    ensures store.Valid() && store.model == AfterSession(old(store.model), b, a)
    ensures error == SessionError(old(store.model), b, a)
  {
    var has := b.hasSession(a);
    if has.Err? {
      return Some(has.error);
    }
    if has.value {
      return None;
    }
    var bundle := store.GetBundle(a);
    if bundle.None? {
      var fetched := b.fetch(a);
      if fetched.Err? {
        return Some(fetched.error);
      }
      store.PutBundle(a, fetched.value);
      bundle := Some(fetched.value);
    }
    return b.build(a, bundle.value);
  }

  // Which devices are addressed

  function BareOf(jid: string): string {
    jid[..T.IndexOf(jid, '/')]
  }

  /** A resource is cut off at the first slash, whatever it holds, and a bare JID is left alone. */
  lemma BareOfIs(bare: string, resource: string)
    requires '/' !in bare
    ensures BareOf(bare) == bare && BareOf(bare + "/" + resource) == bare
  {
    T.IndexOfConcat(bare, '/', resource);
    assert bare + ['/'] + resource == bare + "/" + resource;
  }

  /**
   * The clock and the network at the n-th device-list lookup of a call; None is a request that fails or
   * a list that does not parse.
   */
  datatype Network = Network(now: nat -> int, fetch: (nat, string) -> Option<seq<DeviceId>>)

  /** An answered or failed lookup. */
  type Answer = Option<seq<DeviceId>>

  /** The n-th lookup: a stored list that is young enough, or else a fetched one, which is stored. */
  function LookUp(m: Model, ttl: int, net: Network, n: nat, jid: string): (Model, Answer) {
    if jid in m.lists && net.now(n) - m.lists[jid].fetchedAt <= ttl then (m, Some(m.lists[jid].devices))
    else
      match net.fetch(n, jid)
      case None => (m, None)
      case Some(ids) => (m.(lists := m.lists[jid := DeviceList(jid, Unique(ids), net.now(n))]), Some(ids))
  }

  /** A stored list answers while it is no older than its time to live, and then nothing is stored. */
  lemma StoredListAnswers(m: Model, ttl: int, net: Network, n: nat, jid: string)
    requires jid in m.lists && net.now(n) <= m.lists[jid].fetchedAt + ttl
    ensures LookUp(m, ttl, net, n, jid) == (m, Some(m.lists[jid].devices))
  {
  }

  /**
   * Otherwise the network is asked. Its answer is stored without zeros and repeats, and answers until it
   * is too old; when it fails, nothing changes.
   */
  lemma FetchedListAnswers(m: Model, ttl: int, net: Network, n: nat, later: nat, jid: string)
    requires jid in m.lists ==> net.now(n) > m.lists[jid].fetchedAt + ttl
    ensures var (after, answer) := LookUp(m, ttl, net, n, jid);
            && answer == net.fetch(n, jid)
            && (answer.None? ==> after == m)
            && (answer.Some? && net.now(later) <= net.now(n) + ttl ==>
                  LookUp(after, ttl, net, later, jid) == (after, Some(Unique(answer.value))))
            && forall other :: other != jid ==>
                 (other in after.lists <==> other in m.lists)
                 && (other in m.lists ==> after.lists[other] == m.lists[other])
  {
  }

  function LookUpAll(m: Model, ttl: int, net: Network, jids: seq<string>): (r: (Model, seq<Answer>))
    ensures |r.1| == |jids|
  {
    if jids == [] then (m, [])
    else
      var n := |jids| - 1;
      var (before, answers) := LookUpAll(m, ttl, net, jids[..n]);
      var (after, answer) := LookUp(before, ttl, net, n, jids[n]);
      (after, answers + [answer])
  }

  lemma LookUpNext(m: Model, ttl: int, net: Network, jids: seq<string>, jid: string)
    ensures var (before, answers) := LookUpAll(m, ttl, net, jids);
            var (after, answer) := LookUp(before, ttl, net, |jids|, jid);
            LookUpAll(m, ttl, net, jids + [jid]) == (after, answers + [answer])
  {
    assert (jids + [jid])[..|jids|] == jids;
  }

  /** Lookups change the stored lists and nothing else, and no list without a zero gains one. */
  lemma {:induction false} LookUpAllKeeps(m: Model, ttl: int, net: Network, jids: seq<string>)
    ensures var (n, answers) := LookUpAll(m, ttl, net, jids);
            && n == m.(lists := n.lists)
            && (NoZeros(m) && FetchesNoZeros(net) ==>
                  NoZeros(n) && forall i :: 0 <= i < |answers| && answers[i].Some? ==> 0 !in answers[i].value)
  {
    if jids != [] {
      LookUpAllKeeps(m, ttl, net, jids[..|jids| - 1]);
    }
  }

  /** As every list is that was stored through the store. */
  predicate NoZeros(m: Model) {
    forall jid :: jid in m.lists ==> 0 !in m.lists[jid].devices
  }

  /** As every list is that was parsed. */
  ghost predicate FetchesNoZeros(net: Network) {
    forall n: nat, jid: string :: net.fetch(n, jid).Some? ==> 0 !in net.fetch(n, jid).value
  }

  method GetDevices(store: MemoryStore, ttl: int, net: Network, n: nat, jid: string) returns (answer: Answer)
    requires store.Valid()
    modifies store
    ensures store.Valid() && (store.model, answer) == LookUp(old(store.model), ttl, net, n, jid)
  {
    var cached := store.GetDeviceList(jid);
    if cached.Some? && net.now(n) - cached.value.fetchedAt <= ttl {
      return Some(cached.value.devices);
    }
    answer := net.fetch(n, jid);
    if answer.Some? {
      store.PutDeviceList(DeviceList(jid, answer.value, net.now(n)), net.now(n));
    }
  }

  function Devices(jid: string, answer: Answer, skip: Option<DeviceId>): set<Address> {
    if answer.None? then {} else set id | id in answer.value && skip != Some(id) :: Address(jid, id)
  }

  /** The devices of the first n JIDs, passing over the failed lookups. */
  function DevicesOf(jids: seq<string>, answers: seq<Answer>, n: nat): set<Address>
    requires n <= |jids| && n <= |answers|
  {
    if n == 0 then {} else DevicesOf(jids, answers, n - 1) + Devices(jids[n - 1], answers[n - 1], None)
  }

  /** The bare JIDs that are looked up: each recipient's and, unless that is turned off, the sender's own. */
  function Asked(recipients: seq<string>, ownJid: Option<string>): seq<string> {
    seq(|recipients|, i requires 0 <= i < |recipients| => BareOf(recipients[i]))
    + if ownJid.Some? then [ownJid.value] else []
  }

  /** The recipients' devices and the sender's own other devices. */
  function Targets(recipients: seq<string>, answers: seq<Answer>, ownJid: Option<string>, ownId: DeviceId): set<Address>
    requires |answers| == |Asked(recipients, ownJid)|
  {
    DevicesOf(Asked(recipients, ownJid), answers, |recipients|)
    + if ownJid.Some? then Devices(ownJid.value, answers[|recipients|], Some(ownId)) else {}
  }

  lemma {:induction false} DevicesOfMembers(jids: seq<string>, answers: seq<Answer>, n: nat, a: Address)
    requires n <= |jids| && n <= |answers|
    ensures a in DevicesOf(jids, answers, n)
       <==> exists i :: 0 <= i < n && jids[i] == a.jid && answers[i].Some? && a.device in answers[i].value
  {
    if n > 0 {
      DevicesOfMembers(jids, answers, n - 1, a);
    }
  }

  lemma {:induction false} DevicesOfPrefix(jids: seq<string>, answers: seq<Answer>, more: seq<string>,
                                           last: seq<Answer>, n: nat)
    requires n <= |jids| && n <= |answers|
    ensures DevicesOf(jids + more, answers + last, n) == DevicesOf(jids, answers, n)
  {
    if n > 0 {
      DevicesOfPrefix(jids, answers, more, last, n - 1);
    }
  }

  /** A device is targeted if and only if a recipient's list has it, or the own list has it as another device. */
  lemma TargetsMembers(recipients: seq<string>, answers: seq<Answer>, ownJid: Option<string>, ownId: DeviceId, a: Address)
    requires |answers| == |Asked(recipients, ownJid)|
    ensures a in Targets(recipients, answers, ownJid, ownId) <==>
            || (exists i :: 0 <= i < |recipients| && BareOf(recipients[i]) == a.jid
                            && answers[i].Some? && a.device in answers[i].value)
            || (ownJid == Some(a.jid) && a.device != ownId
                && answers[|recipients|].Some? && a.device in answers[|recipients|].value)
  {
    DevicesOfMembers(Asked(recipients, ownJid), answers, |recipients|, a);
  }

  /** The targets of a call have non-zero device ids when no list that was stored or fetched has a zero. */
  lemma TargetsNonZero(m: Model, ttl: int, net: Network, recipients: seq<string>, ownJid: Option<string>, a: Address)
    requires NoZeros(m) && FetchesNoZeros(net)
    requires a in Targets(recipients, LookUpAll(m, ttl, net, Asked(recipients, ownJid)).1, ownJid, m.own)
    ensures a.device != 0
  {
    LookUpAllKeeps(m, ttl, net, Asked(recipients, ownJid));
    TargetsMembers(recipients, LookUpAll(m, ttl, net, Asked(recipients, ownJid)).1, ownJid, m.own, a);
  }

  /** The target table, keyed by printed addresses. */
  ghost predicate Tabulates(table: map<string, Address>, targets: set<Address>) {
    && (forall a :: a in targets ==> Show(a) in table)
    && (forall key :: key in table ==> table[key] in targets && Show(table[key]) == key)
  }

  lemma TabulatesPut(table: map<string, Address>, targets: set<Address>, a: Address)
    requires Tabulates(table, targets)
    ensures Tabulates(table[Show(a) := a], targets + {a})
  {
    var t := table[Show(a) := a];
    forall key | key in t
      ensures t[key] in targets + {a} && Show(t[key]) == key
    {
    }
  }

  lemma DevicesSnoc(jid: string, ids: seq<DeviceId>, id: DeviceId, skip: Option<DeviceId>)
    ensures Devices(jid, Some(ids + [id]), skip)
         == Devices(jid, Some(ids), skip) + if skip == Some(id) then {} else {Address(jid, id)}
  {
  }

  method AddDevices(table: map<string, Address>, jid: string, answer: Option<seq<DeviceId>>, skip: Option<DeviceId>,
                    ghost targets: set<Address>) returns (t: map<string, Address>)
    requires Tabulates(table, targets)
    ensures Tabulates(t, targets + Devices(jid, answer, skip))
  {
    t := table;
    assert targets + {} == targets;
    if answer.None? {
      return;
    }
    var ids := answer.value;
    for i := 0 to |ids|
      invariant Tabulates(t, targets + Devices(jid, Some(ids[..i]), skip))
    {
      ghost var before := targets + Devices(jid, Some(ids[..i]), skip);
      DevicesSnoc(jid, ids[..i], ids[i], skip);
      assert ids[..i + 1] == ids[..i] + [ids[i]];
      if skip != Some(ids[i]) {
        var a := Address(jid, ids[i]);
        TabulatesPut(t, before, a);
        t := t[Show(a) := a];
        assert before + {a} == targets + Devices(jid, Some(ids[..i + 1]), skip);
      }
    }
    assert ids[..|ids|] == ids;
  }

  /** The table after the JIDs so far have been looked up. */
  ghost predicate Collected(m: Model, ttl: int, net: Network, jids: seq<string>, now: Model, answers: seq<Answer>,
                            t: map<string, Address>) {
    && LookUpAll(m, ttl, net, jids) == (now, answers)
    && Tabulates(t, DevicesOf(jids, answers, |jids|))
  }

  lemma CollectedNext(m: Model, ttl: int, net: Network, jids: seq<string>, now: Model, answers: seq<Answer>, jid: string,
                      u: map<string, Address>)
    requires LookUpAll(m, ttl, net, jids) == (now, answers)
    requires var answer := LookUp(now, ttl, net, |jids|, jid).1;
             Tabulates(u, DevicesOf(jids, answers, |jids|) + Devices(jid, answer, None))
    ensures var (after, answer) := LookUp(now, ttl, net, |jids|, jid);
            Collected(m, ttl, net, jids + [jid], after, answers + [answer], u)
  {
    LookUpNext(m, ttl, net, jids, jid);
    DevicesOfPrefix(jids, answers, [jid], [LookUp(now, ttl, net, |jids|, jid).1], |jids|);
  }

  /** The loop over the recipients. */
  method CollectRecipients(store: MemoryStore, ttl: int, net: Network, recipients: seq<string>)
    returns (t: map<string, Address>)
    requires store.Valid()
    modifies store
    ensures store.Valid()
    ensures var jids := Asked(recipients, None);
            var (n, answers) := LookUpAll(old(store.model), ttl, net, jids);
            Collected(old(store.model), ttl, net, jids, store.model, answers, t)
  {
    ghost var m, jids := store.model, Asked(recipients, None);
    ghost var answers: seq<Answer> := [];
    assert jids[..0] == [];
    t := map[];
    for i := 0 to |recipients|
      invariant store.Valid() && |answers| == i && Collected(m, ttl, net, jids[..i], store.model, answers, t)
    {
      ghost var before, held := store.model, DevicesOf(jids[..i], answers, i);
      var jid := BareOf(recipients[i]);
      var answer := GetDevices(store, ttl, net, i, jid);
      t := AddDevices(t, jid, answer, None, held);
      CollectedNext(m, ttl, net, jids[..i], before, answers, jid, t);
      assert jids[..i + 1] == jids[..i] + [jid];
      answers := answers + [answer];
    }
    assert jids[..|recipients|] == jids;
  }

  /** The recipients' devices, and then the sender's own others. */
  method CollectTargets(store: MemoryStore, ttl: int, net: Network, recipients: seq<string>, ownJid: Option<string>,
                        ownId: DeviceId) returns (t: map<string, Address>)
    requires store.Valid()
    modifies store
    ensures var (n, answers) := LookUpAll(old(store.model), ttl, net, Asked(recipients, ownJid));
            store.Valid() && store.model == n && Tabulates(t, Targets(recipients, answers, ownJid, ownId))
  {
    ghost var m, jids := store.model, Asked(recipients, None);
    ghost var answers := LookUpAll(m, ttl, net, jids).1;
    t := CollectRecipients(store, ttl, net, recipients);
    if ownJid.None? {
      assert DevicesOf(jids, answers, |recipients|) + {} == DevicesOf(jids, answers, |recipients|);
      return;
    }
    var own := ownJid.value;
    LookUpNext(m, ttl, net, jids, own);
    DevicesOfPrefix(jids, answers, [own], [LookUp(store.model, ttl, net, |recipients|, own).1], |recipients|);
    assert Asked(recipients, ownJid) == jids + [own];
    var answer := GetDevices(store, ttl, net, |recipients|, own);
    t := AddDevices(t, own, answer, Some(ownId), DevicesOf(jids, answers, |recipients|));
  }

  // What becomes of each device

  datatype SkipReason = TrustError(error: string) | NotTrusted | BackendError(error: string)

  datatype Skipped = Skipped(address: Address, reason: SkipReason)

  /** The key wrapped for a device, or why it gets none. */
  ghost function Outcome(m: Model, policy: string, b: Backend, material: Bytes, a: Address)
    : Result<WrappedKey, SkipReason>
  {
    match EffectiveTrust(m, policy, a)
    case Err(e) => Err(TrustError(e))
    case Ok(level) =>
      if level != TRUSTED && level != VERIFIED then Err(NotTrusted)
      else if SessionError(m, b, a).Some? then Err(BackendError(SessionError(m, b, a).value))
      else
        match b.encrypt(a, material)
        case Err(e) => Err(BackendError(e))
        case Ok(cipher) => Ok(WrappedKey(a.device, cipher.preKey, cipher.data))
  }

  /** A device gets a key exactly when it may receive one, its session is ready, and the backend encrypts. */
  ghost predicate Receives(m: Model, policy: string, b: Backend, material: Bytes, a: Address) {
    MayReceive(m, policy, a) && SessionError(m, b, a) == None && b.encrypt(a, material).Ok?
  }

  lemma ReceivesIff(m: Model, policy: string, b: Backend, material: Bytes, a: Address)
    ensures var outcome := Outcome(m, policy, b, material, a);
            && (outcome.Ok? <==> Receives(m, policy, b, material, a))
            && (outcome.Ok? ==>
                  && outcome.value.recipient == a.device
                  && b.encrypt(a, material) == Ok(SessionCiphertext(outcome.value.data, outcome.value.preKey)))
            && (outcome == Err(NotTrusted) <==> EffectiveTrust(m, policy, a).Ok? && !MayReceive(m, policy, a))
    ensures TrustOf(m, a) in {TRUSTED, VERIFIED} ==> MayReceive(m, policy, a)
    ensures TrustOf(m, a) in {DISTRUSTED, IGNORED} ==> Outcome(m, policy, b, material, a) == Err(NotTrusted)
  {
    MayReceiveIff(m, policy, a);
  }

  /** Storing bundles of other addresses does not change what becomes of a device. */
  lemma OutcomeStable(m: Model, n: Model, policy: string, b: Backend, material: Bytes, a: Address)
    requires m.trust == n.trust
    requires a in m.bundles <==> a in n.bundles
    requires a in m.bundles ==> m.bundles[a] == n.bundles[a]
    ensures Outcome(m, policy, b, material, a) == Outcome(n, policy, b, material, a)
  {
    TrustIgnoresBundles(m, n, policy, a);
  }

  datatype Wrapping = Wrapping(recipients: seq<Address>, keys: seq<WrappedKey>, skipped: seq<Skipped>)

  function SkippedAddresses(skipped: seq<Skipped>): seq<Address> {
    seq(|skipped|, i requires 0 <= i < |skipped| => skipped[i].address)
  }

  /**
   * The recipients and the skipped devices are the targets, each once; every recipient has the key
   * wrapped for it at its own index, and every skipped device the reason that kept it out.
   */
  ghost predicate Settles(w: Wrapping, targets: set<Address>, outcome: Address -> Result<WrappedKey, SkipReason>) {
    && NoRepeats(w.recipients + SkippedAddresses(w.skipped))
    && (forall a :: a in w.recipients + SkippedAddresses(w.skipped) <==> a in targets)
    && |w.keys| == |w.recipients|
    && (forall i :: 0 <= i < |w.recipients| ==> outcome(w.recipients[i]) == Ok(w.keys[i]))
    && (forall i :: 0 <= i < |w.skipped| ==> outcome(w.skipped[i].address) == Err(w.skipped[i].reason))
  }

  lemma SettlesReceive(w: Wrapping, done: set<Address>, outcome: Address -> Result<WrappedKey, SkipReason>, a: Address)
    requires Settles(w, done, outcome) && a !in done && outcome(a).Ok?
    ensures Settles(w.(recipients := w.recipients + [a], keys := w.keys + [outcome(a).value]), done + {a}, outcome)
  {
    var skipped := SkippedAddresses(w.skipped);
    Inserted(w.recipients, a, skipped);
  }

  lemma SettlesSkip(w: Wrapping, done: set<Address>, outcome: Address -> Result<WrappedKey, SkipReason>, a: Address)
    requires Settles(w, done, outcome) && a !in done && outcome(a).Err?
    ensures Settles(w.(skipped := w.skipped + [Skipped(a, outcome(a).error)]), done + {a}, outcome)
  {
    var all := w.recipients + SkippedAddresses(w.skipped);
    Inserted(all, a, []);
    assert w.recipients + SkippedAddresses(w.skipped + [Skipped(a, outcome(a).error)]) == all + [a] + [];
    assert all + [] == all;
  }

  lemma Inserted<T>(xs: seq<T>, x: T, ys: seq<T>)
    requires NoRepeats(xs + ys) && x !in xs + ys
    ensures NoRepeats(xs + [x] + ys)
    ensures forall z :: z in xs + [x] + ys <==> z in xs + ys || z == x
  {
    var before, after := xs + ys, xs + [x] + ys;
    forall i, j | 0 <= i < j < |after|
      ensures after[i] != after[j]
    {
      var oi, oj := if i > |xs| then i - 1 else i, if j > |xs| then j - 1 else j;
      assert i != |xs| ==> after[i] == before[oi];
      assert j != |xs| ==> after[j] == before[oj];
    }
  }

  /** Only a device that may receive a key has its bundle fetched. */
  ghost function AfterWrap(m: Model, policy: string, b: Backend, a: Address): Model {
    if MayReceive(m, policy, a) then AfterSession(m, b, a) else m
  }

  /** The bundle stored for an address after the targets have been wrapped for: fetched, or as before. */
  ghost function BundleAfter(m: Model, policy: string, b: Backend, targets: set<Address>, a: Address): Option<Bundle> {
    if a in targets && MayReceive(m, policy, a) && Fetches(m, b, a) then Some(b.fetch(a).value)
    else if a in m.bundles then Some(m.bundles[a])
    else None
  }

  ghost predicate BundlesAfter(m: Model, policy: string, b: Backend, targets: set<Address>, n: Model) {
    && n == m.(bundles := n.bundles)
    && forall a: Address ::
         BundleAfter(m, policy, b, targets, a) == if a in n.bundles then Some(n.bundles[a]) else None
  }

  /** One more target's bundle, from a state in which the bundles of the earlier ones are settled. */
  lemma BundlesNext(m: Model, policy: string, b: Backend, done: set<Address>, n: Model, a: Address)
    requires BundlesAfter(m, policy, b, done, n) && a !in done
    ensures BundlesAfter(m, policy, b, done + {a}, AfterWrap(n, policy, b, a))
  {
    TrustIgnoresBundles(m, n, policy, a);
    assert BundleAfter(m, policy, b, done, a) == if a in m.bundles then Some(m.bundles[a]) else None;
    var t := AfterWrap(n, policy, b, a);
    forall x: Address
      ensures BundleAfter(m, policy, b, done + {a}, x) == if x in t.bundles then Some(t.bundles[x]) else None
    {
      assert BundleAfter(m, policy, b, done, x) == if x in n.bundles then Some(n.bundles[x]) else None;
    }
  }

  /** One device: its trust, its session, its key. */
  method WrapOne(store: MemoryStore, policy: string, b: Backend, material: Bytes, a: Address)
    returns (r: Result<WrappedKey, SkipReason>)
    requires store.Valid()
    modifies store
    ensures store.Valid() && store.model == AfterWrap(old(store.model), policy, b, a)
    ensures r == Outcome(old(store.model), policy, b, material, a)
  {
    var trust := ComputeTrust(store, policy, a);
    if trust.Err? {
      return Err(TrustError(trust.error));
    }
    if trust.value != TRUSTED && trust.value != VERIFIED {
      return Err(NotTrusted);
    }
    var error := EnsureSession(store, b, a);
    if error.Some? {
      return Err(BackendError(error.value));
    }
    var cipher := b.encrypt(a, material);
    if cipher.Err? {
      return Err(BackendError(cipher.error));
    }
    return Ok(WrappedKey(a.device, cipher.value.preKey, cipher.value.data));
  }

  /** The targets whose keys are no longer left. */
  ghost predicate Done(targets: set<Address>, left: set<string>, done: set<Address>) {
    forall a :: a in done <==> a in targets && Show(a) !in left
  }

  lemma DoneNext(table: map<string, Address>, targets: set<Address>, left: set<string>, done: set<Address>, key: string)
    requires Tabulates(table, targets) && left <= table.Keys && key in left && Done(targets, left, done)
    ensures table[key] !in done && Done(targets, left - {key}, done + {table[key]})
    ensures forall other :: other in left - {key} ==> table[other] != table[key]
  {
    OnlyAddress(table[key]);
  }

  /** The loop over the targets, in whatever order the table gives them up. */
  method WrapAll(store: MemoryStore, policy: string, b: Backend, material: Bytes, table: map<string, Address>,
                 ghost targets: set<Address>) returns (w: Wrapping)
    requires store.Valid() && Tabulates(table, targets)
    modifies store
    ensures store.Valid() && BundlesAfter(old(store.model), policy, b, targets, store.model)
    ensures var m := old(store.model); Settles(w, targets, a => Outcome(m, policy, b, material, a))
  {
    ghost var m := store.model;
    ghost var outcome := a => Outcome(m, policy, b, material, a);
    var left := table.Keys;
    ghost var done: set<Address> := {};
    w := Wrapping([], [], []);
    while left != {}
      invariant left <= table.Keys && store.Valid()
      invariant BundlesAfter(m, policy, b, done, store.model)
      invariant Done(targets, left, done)
      invariant Settles(w, done, outcome)
      decreases left
    {
      var key :| key in left;
      var a := table[key];
      DoneNext(table, targets, left, done, key);
      assert BundleAfter(m, policy, b, done, a) == if a in m.bundles then Some(m.bundles[a]) else None;
      OutcomeStable(m, store.model, policy, b, material, a);
      BundlesNext(m, policy, b, done, store.model, a);
      var r := WrapOne(store, policy, b, material, a);
      match r {
        case Ok(wrapped) =>
          SettlesReceive(w, done, outcome, a);
          w := w.(recipients := w.recipients + [a], keys := w.keys + [wrapped]);
        case Err(reason) =>
          SettlesSkip(w, done, outcome, a);
          w := w.(skipped := w.skipped + [Skipped(a, reason)]);
      }
      left, done := left - {key}, done + {a};
    }
    assert done == targets;
  }
}
