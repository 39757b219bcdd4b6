/** The OMEMO metadata store: maps keyed by printed addresses, standing for maps keyed by addresses. */
module OmemoStore {
  import opened Wrappers
  import opened Numerals
  import opened Encoding
  import T = Text

  type DeviceId = uint32

  datatype Address = Address(jid: string, device: DeviceId)

  datatype PreKey = PreKey(id: uint32, public: Bytes)

  datatype Bundle = Bundle(
    identityKey: Bytes, signedPreKeyId: uint32, signedPreKey: Bytes, signature: Bytes, preKeys: seq<PreKey>)

  /** When the list was fetched; zero stands for the zero time. */
  datatype DeviceList = DeviceList(jid: string, devices: seq<DeviceId>, fetchedAt: int)

  /** A trust level is text, because a loaded store may hold any. */
  type TrustLevel = string

  const UNDECIDED: TrustLevel := "undecided"
  const TRUSTED: TrustLevel := "trusted"
  const VERIFIED: TrustLevel := "verified"
  const DISTRUSTED: TrustLevel := "distrusted"
  const IGNORED: TrustLevel := "ignored"

  const TRUST_LEVELS: set<TrustLevel> := {UNDECIDED, TRUSTED, VERIFIED, DISTRUSTED, IGNORED}

  // Addresses as keys

  function Show(a: Address): string {
    a.jid + ":" + Format(a.device, 10)
  }

  /** The address a key is listed under; keys that do not parse are passed over. */
  function ReadKey(key: string): Option<Address> {
    match T.LastIndexOf(key, ':')
    case None => None
    case Some(at) =>
      if at == 0 || at == |key| - 1 then None
      else
        match ParseUint(key[at + 1..], UINT32_SIZE)
        case Err(_) => None
        case Ok(n) => if n == 0 then None else Some(Address(key[..at], n))
  }

  predicate WellFormed(a: Address) {
    a.jid != "" && a.device != 0
  }

  lemma DigitsOnly(s: string)
    requires IsNumeral(s, 10)
    ensures ':' !in s
  {
    assert DigitValue(':') >= 10;
  }

  lemma ShowSplits(a: Address)
    ensures T.LastIndexOf(Show(a), ':') == Some(|a.jid|)
    ensures Show(a)[..|a.jid|] == a.jid && Show(a)[|a.jid| + 1..] == Format(a.device, 10)
  {
    var digits := Format(a.device, 10);
    DigitsOnly(digits);
    T.LastIndexOfConcat(a.jid, ':', digits);
    assert a.jid + [':'] + digits == Show(a);
  }

  /** Different addresses print differently, whatever colons their JIDs hold. */
  lemma ShowInjective(a: Address, b: Address)
    requires Show(a) == Show(b)
    ensures a == b
  {
    ShowSplits(a);
    ShowSplits(b);
    FormatInjective(a.device, b.device, 10);
  }

  /** A printed address is listed exactly when it is well formed, and then as itself. */
  lemma ReadKeyShow(a: Address)
    ensures ReadKey(Show(a)) == if WellFormed(a) then Some(a) else None
  {
    ShowSplits(a);
    ParseUintFormat(a.device, UINT32_SIZE);
    assert Show(a)[|a.jid|] == ':';
  }

  // The maps the string-keyed ones stand for

  ghost predicate Shown(key: string) {
    exists a: Address :: Show(a) == key
  }

  /** The entries of a string-keyed map are those of the address-keyed one. */
  ghost predicate Stands<V>(concrete: map<string, V>, entries: map<Address, V>) {
    && (forall a: Address :: Show(a) in concrete <==> a in entries)
    && (forall a :: a in entries ==> concrete[Show(a)] == entries[a])
    && (forall key :: key in concrete ==> Shown(key))
  }

  lemma StandsPut<V>(concrete: map<string, V>, entries: map<Address, V>, a: Address, v: V)
    requires Stands(concrete, entries)
    ensures Stands(concrete[Show(a) := v], entries[a := v])
  {
    forall b: Address
      ensures Show(b) in concrete[Show(a) := v] <==> b in entries[a := v]
      ensures b in entries[a := v] ==> concrete[Show(a) := v][Show(b)] == entries[a := v][b]
    {
      if Show(b) == Show(a) {
        ShowInjective(a, b);
      }
    }
  }

  datatype Model = Model(
    own: DeviceId, lists: map<string, DeviceList>, bundles: map<Address, Bundle>, trust: map<Address, TrustLevel>)

  const EMPTY := Model(0, map[], map[], map[])

  function TrustOf(m: Model, a: Address): TrustLevel {
    if a in m.trust then m.trust[a] else UNDECIDED
  }

  /** The well-formed addresses with a bundle or a trust entry. */
  ghost predicate Known(m: Model, a: Address) {
    WellFormed(a) && (a in m.bundles || a in m.trust)
  }

  predicate NoRepeats<T(==)>(xs: seq<T>) {
    forall i, j :: 0 <= i < j < |xs| ==> xs[i] != xs[j]
  }

  // Device lists without repeats

  /** The non-zero ids, each at its first place. */
  function Unique(ids: seq<DeviceId>): (out: seq<DeviceId>)
    ensures NoRepeats(out)
    ensures forall id :: id in out <==> id in ids && id != 0
  {
    if ids == [] then []
    else
      var front, last := Unique(ids[..|ids| - 1]), ids[|ids| - 1];
      assert forall id :: id in ids <==> id in ids[..|ids| - 1] || id == last by {
        assert ids == ids[..|ids| - 1] + [last];
      }
      if last == 0 || last in front then front else front + [last]
  }

  lemma UniqueSnoc(ids: seq<DeviceId>, last: DeviceId)
    ensures Unique(ids + [last]) == if last == 0 || last in Unique(ids) then Unique(ids) else Unique(ids) + [last]
  {
    assert (ids + [last])[..|ids|] == ids;
  }

  /** Later ids never move or remove earlier ones, so each stays at its first place. */
  lemma {:induction false} UniquePrefix(ids: seq<DeviceId>, more: seq<DeviceId>)
    ensures Unique(ids) <= Unique(ids + more)
    decreases |more|
  {
    if more == [] {
      assert ids + more == ids;
    } else {
      var front, last := more[..|more| - 1], more[|more| - 1];
      UniquePrefix(ids, front);
      UniqueSnoc(ids + front, last);
      assert ids + more == ids + front + [last];
    }
  }

  /** A list is kept as it is exactly when it has no zero and no repeat. */
  lemma {:induction false} UniqueFixedIff(ids: seq<DeviceId>)
    ensures Unique(ids) == ids <==> NoRepeats(ids) && 0 !in ids
  {
    if ids != [] && NoRepeats(ids) && 0 !in ids {
      var front, last := ids[..|ids| - 1], ids[|ids| - 1];
      UniqueFixedIff(front);
      assert ids == front + [last];
      UniqueSnoc(front, last);
    }
  }

  method UniqueDevices(ids: seq<DeviceId>) returns (out: seq<DeviceId>)
    ensures out == Unique(ids)
  {
    var seen: set<DeviceId> := {};
    out := [];
    for i := 0 to |ids|
      invariant out == Unique(ids[..i]) && seen == set id | id in out
    {
      UniqueSnoc(ids[..i], ids[i]);
      assert ids[..i + 1] == ids[..i] + [ids[i]];
      if ids[i] != 0 && ids[i] !in seen {
        seen := seen + {ids[i]};
        out := out + [ids[i]];
      }
    }
    assert ids[..|ids|] == ids;
  }

  // The store

  class MemoryStore {
    var own: DeviceId
    var lists: map<string, DeviceList>
    var bundles: map<string, Bundle>
    var trust: map<string, TrustLevel>
    ghost var model: Model

    ghost predicate Valid()
      reads this
    {
      && own == model.own && lists == model.lists
      && Stands(bundles, model.bundles) && Stands(trust, model.trust)
    }

    constructor ()
      ensures Valid() && model == EMPTY
    {
      own, lists, bundles, trust, model := 0, map[], map[], map[], EMPTY;
    }

    /** A fresh id is drawn only for a store without one; its top bit is clear and it is never zero. */
    method OwnDeviceId(random: uint32) returns (id: DeviceId)
      requires Valid()
      modifies this
      ensures Valid() && model == old(model).(own := id)
      ensures id != 0
      ensures id == if old(model.own) != 0 then old(model.own)
                    else if random % 0x8000_0000 == 0 then 1 else random % 0x8000_0000
    {
      if own == 0 {
        var drawn := random % 0x8000_0000;
        own := if drawn == 0 then 1 else drawn;
        model := model.(own := own);
      }
      return own;
    }

    method SetOwnDeviceId(id: DeviceId) returns (ok: bool)
      requires Valid()
      modifies this
      ensures Valid() && ok == (id != 0) && model == if ok then old(model).(own := id) else old(model)
    {
      if id == 0 {
        return false;
      }
      own := id;
      model := model.(own := id);
      return true;
    }

    method GetDeviceList(jid: string) returns (r: Option<DeviceList>)
      requires Valid()
      ensures r == if jid in model.lists then Some(model.lists[jid]) else None
    {
      return if jid in lists then Some(lists[jid]) else None;
    }

    method PutDeviceList(list: DeviceList, now: int)
      requires Valid()
      modifies this
      ensures Valid()
      ensures var kept := DeviceList(list.jid, Unique(list.devices), if list.fetchedAt == 0 then now else list.fetchedAt);
              model == old(model).(lists := old(model.lists)[list.jid := kept])
    {
      var devices := UniqueDevices(list.devices);
      var kept := DeviceList(list.jid, devices, if list.fetchedAt == 0 then now else list.fetchedAt);
      lists := lists[list.jid := kept];
      model := model.(lists := lists);
    }

    method GetBundle(a: Address) returns (r: Option<Bundle>)
      requires Valid()
      ensures r == if a in model.bundles then Some(model.bundles[a]) else None
    {
      return if Show(a) in bundles then Some(bundles[Show(a)]) else None;
    }

    method PutBundle(a: Address, bundle: Bundle)
      requires Valid()
      modifies this
      ensures Valid() && model == old(model).(bundles := old(model.bundles)[a := bundle])
    {
      StandsPut(bundles, model.bundles, a, bundle);
      bundles := bundles[Show(a) := bundle];
      model := model.(bundles := model.bundles[a := bundle]);
    }

    method Trust(a: Address) returns (level: TrustLevel)
      requires Valid()
      ensures level == TrustOf(model, a)
    {
      return if Show(a) in trust then trust[Show(a)] else UNDECIDED;
    }

    method SetTrust(a: Address, level: TrustLevel) returns (ok: bool)
      requires Valid()
      modifies this
      ensures Valid() && ok == (level in TRUST_LEVELS)
      ensures model == if ok then old(model).(trust := old(model.trust)[a := level]) else old(model)
    {
      if level !in TRUST_LEVELS {
        return false;
      }
      StandsPut(trust, model.trust, a, level);
      trust := trust[Show(a) := level];
      model := model.(trust := model.trust[a := level]);
      return true;
    }

    /** Exactly the known addresses, each once, in some order. */
    method KnownAddresses() returns (out: seq<Address>)
      requires Valid()
      ensures NoRepeats(out)
      ensures forall a :: a in out <==> Known(model, a)
    {
      var left := bundles.Keys + trust.Keys;
      ghost var keys, done := left, {};
      assert forall key :: key in keys ==> Shown(key);
      out := [];
      while left != {}
        invariant done + left == keys && done !! left
        invariant NoRepeats(out) && Lists(out, done)
        decreases left
      {
        var key :| key in left;
        ListsNext(out, done, key);
        left, done := left - {key}, done + {key};
        match ReadKey(key) {
          case Some(a) => out := out + [a];
          case None =>
        }
      }
    }
  }

  /** The list holds the well-formed addresses that print to one of the keys. */
  ghost predicate Lists(out: seq<Address>, keys: set<string>) {
    forall a :: a in out <==> WellFormed(a) && Show(a) in keys
  }

  lemma ListsNext(out: seq<Address>, done: set<string>, key: string)
    requires NoRepeats(out) && Lists(out, done) && key !in done && Shown(key)
    ensures ReadKey(key).None? ==> Lists(out, done + {key})
    ensures ReadKey(key).Some? ==> NoRepeats(out + [ReadKey(key).value]) && Lists(out + [ReadKey(key).value], done + {key})
  {
    var shown: Address :| Show(shown) == key;
    ReadKeyShow(shown);
    OnlyAddress(shown);
  }

  lemma OnlyAddress(a: Address)
    ensures forall b: Address :: Show(b) == Show(a) ==> b == a
  {
    forall b: Address | Show(b) == Show(a)
      ensures b == a
    {
      ShowInjective(b, a);
    }
  }

  // Effective trust

  const MANUAL := "manual"
  const BLIND := "blind-before-verification"
  const TRUST_ALL := "trust-all"

  /** Some well-formed address of the JID has been verified. */
  ghost predicate SomeVerified(m: Model, jid: string) {
    exists a: Address :: a.jid == jid && WellFormed(a) && TrustOf(m, a) == VERIFIED
  }

  /** The trust a device is given under the policy; an invalid policy fails, but only where it is needed. */
  ghost function EffectiveTrust(m: Model, policy: string, a: Address): Result<TrustLevel, string> {
    if TrustOf(m, a) != UNDECIDED then Ok(TrustOf(m, a))
    else if policy == TRUST_ALL then Ok(TRUSTED)
    else if policy == MANUAL then Ok(UNDECIDED)
    else if policy == BLIND then Ok(if SomeVerified(m, a.jid) then UNDECIDED else TRUSTED)
    else Err(policy)
  }

  /** The policy's walk over the known addresses. */
  method ComputeTrust(store: MemoryStore, policy: string, a: Address) returns (r: Result<TrustLevel, string>)
    requires store.Valid()
    ensures r == EffectiveTrust(store.model, policy, a)
  {
    var level := store.Trust(a);
    if level != UNDECIDED {
      return Ok(level);
    }
    if policy == TRUST_ALL {
      return Ok(TRUSTED);
    }
    if policy == MANUAL {
      return Ok(UNDECIDED);
    }
    if policy != BLIND {
      return Err(policy);
    }
    var others := store.KnownAddresses();
    for i := 0 to |others|
      invariant forall j :: 0 <= j < i ==> others[j].jid == a.jid ==> TrustOf(store.model, others[j]) != VERIFIED
    {
      if others[i].jid == a.jid {
        var trust := store.Trust(others[i]);
        if trust == VERIFIED {
          assert others[i] in others;
          return Ok(UNDECIDED);
        }
      }
    }
    forall b: Address | b.jid == a.jid && WellFormed(b)
      ensures TrustOf(store.model, b) != VERIFIED
    {
      assert b in store.model.trust ==> b in others;
    }
    return Ok(TRUSTED);
  }

  /** A device that may be given a key. */
  ghost predicate MayReceive(m: Model, policy: string, a: Address) {
    EffectiveTrust(m, policy, a) in {Ok(TRUSTED), Ok(VERIFIED)}
  }

  /** Who may receive keys, policy by policy. */
  lemma MayReceiveIff(m: Model, policy: string, a: Address)
    ensures MayReceive(m, policy, a)
       <==> || TrustOf(m, a) == TRUSTED
            || TrustOf(m, a) == VERIFIED
            || (TrustOf(m, a) == UNDECIDED && (policy == TRUST_ALL || (policy == BLIND && !SomeVerified(m, a.jid))))
  {
  }

  /** Verifying any well-formed device ends the blind trust of the undecided devices of its JID, and of no other. */
  lemma VerifyingEndsBlindTrust(m: Model, verified: Address, other: Address)
    requires WellFormed(verified) && other != verified && TrustOf(m, other) == UNDECIDED
    ensures var n := m.(trust := m.trust[verified := VERIFIED]);
            MayReceive(n, BLIND, other) <==> MayReceive(m, BLIND, other) && other.jid != verified.jid
  {
    var n := m.(trust := m.trust[verified := VERIFIED]);
    assert TrustOf(n, other) == UNDECIDED && TrustOf(n, verified) == VERIFIED;
    assert forall b :: b != verified ==> TrustOf(n, b) == TrustOf(m, b);
    if SomeVerified(m, other.jid) {
      var b: Address :| b.jid == other.jid && WellFormed(b) && TrustOf(m, b) == VERIFIED;
      assert TrustOf(n, b) == VERIFIED;
    }
  }

  /** Effective trust depends on the trust entries alone: storing bundles never changes it. */
  lemma TrustIgnoresBundles(m: Model, n: Model, policy: string, a: Address)
    requires m.trust == n.trust
    ensures EffectiveTrust(m, policy, a) == EffectiveTrust(n, policy, a)
  {
    assert forall b :: TrustOf(m, b) == TrustOf(n, b);
  }
}
