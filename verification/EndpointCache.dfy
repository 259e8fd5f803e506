/** The opened device's interface, alternate-setting and endpoint caches against the device itself. */
module EndpointCache {
  import opened Bytes
  import opened Urb

  // ----- descriptors -----

  datatype TransferType = ControlType | Isochronous | Bulk | Interrupt

  datatype Endpoint = Endpoint(address: byte, kind: TransferType)

  datatype AltSetting = AltSetting(iface: byte, alt: byte, endpoints: seq<Endpoint>)

  /** All alternate settings of all interfaces, in descriptor order. */
  type Config = seq<AltSetting>

  type Alts = map<byte, byte>

  /** Interfaces never changed are at alternate setting 0. */
  function AltOf(alts: Alts, iface: byte): byte {
    if iface in alts then alts[iface] else 0
  }

  /** The alternate settings of one interface, in order. */
  function AltsOf(cfg: Config, iface: byte): (r: seq<AltSetting>) {
    if cfg == [] then []
    else
      var init := AltsOf(cfg[..|cfg| - 1], iface);
      if cfg[|cfg| - 1].iface == iface then init + [cfg[|cfg| - 1]] else init
  }

  function FindAlt(alts: seq<AltSetting>, alt: byte): Option<AltSetting> {
    if alts == [] then None
    else if alts[0].alt == alt then Some(alts[0])
    else FindAlt(alts[1..], alt)
  }

  /** The selected alternate setting, or the interface's first if there is no such one. */
  function Selected(alts: seq<AltSetting>, alt: byte): Option<AltSetting> {
    match FindAlt(alts, alt)
    case Some(a) => Some(a)
    case None => if alts == [] then None else Some(alts[0])
  }

  function KindAt(eps: seq<Endpoint>, address: byte): Option<TransferType> {
    if eps == [] then None
    else if eps[0].address == address then Some(eps[0].kind)
    else KindAt(eps[1..], address)
  }

  /** The kind of endpoint `address` on `iface` under `alts`, if it is there. */
  function KindOn(cfg: Config, alts: Alts, iface: byte, address: byte): Option<TransferType> {
    match Selected(AltsOf(cfg, iface), AltOf(alts, iface))
    case Some(a) => KindAt(a.endpoints, address)
    case None => None
  }

  datatype Lookup = Found(iface: byte, kind: TransferType) | NotFound | Unsupported

  /** `r` is what looking `address` up under `alts` may give; the walk over interfaces has no fixed order. */
  ghost predicate IsLookup(cfg: Config, alts: Alts, address: byte, r: Lookup) {
    match r
    case Found(i, k) => KindOn(cfg, alts, i, address) == Some(k) && (k.Bulk? || k.Interrupt?)
    case NotFound => forall i: byte :: KindOn(cfg, alts, i, address).None?
    case Unsupported =>
      exists i: byte ::
        KindOn(cfg, alts, i, address) == Some(ControlType) || KindOn(cfg, alts, i, address) == Some(Isochronous)
  }

  ghost predicate SameAlts(alts: Alts, alts': Alts) {
    forall i: byte :: AltOf(alts, i) == AltOf(alts', i)
  }

  lemma SameAltsAt(alts: Alts, alts': Alts, i: byte)
    ensures SameAlts(alts, alts') ==> AltOf(alts, i) == AltOf(alts', i)
  {
  }

  lemma SameAltSameKind(cfg: Config, alts: Alts, alts': Alts, iface: byte, address: byte)
    requires AltOf(alts, iface) == AltOf(alts', iface)
    ensures KindOn(cfg, alts, iface, address) == KindOn(cfg, alts', iface, address)
  {
  }

  lemma SameAltsSameLookup(cfg: Config, alts: Alts, alts': Alts, address: byte, r: Lookup)
    requires SameAlts(alts, alts')
    ensures IsLookup(cfg, alts, address, r) <==> IsLookup(cfg, alts', address, r)
  {
    hide KindOn;
    forall i: byte ensures KindOn(cfg, alts, i, address) == KindOn(cfg, alts', i, address) {
      SameAltSameKind(cfg, alts, alts', i, address);
    }
  }

  lemma SameAltsUpdated(alts: Alts, alts': Alts, iface: byte, alt: byte)
    requires SameAlts(alts, alts')
    ensures SameAlts(alts[iface := alt], alts'[iface := alt])
  {
    var next, next' := alts[iface := alt], alts'[iface := alt];
    forall i: byte ensures AltOf(next, i) == AltOf(next', i) {
      assert AltOf(alts, i) == AltOf(alts', i);
    }
  }

  // ----- the lookup, by positions in the descriptors -----

  /** The first endpoint at that address. */
  predicate IsFirstAt(eps: seq<Endpoint>, address: byte, j: nat) {
    j < |eps| && eps[j].address == address && forall i | 0 <= i < j :: eps[i].address != address
  }

  lemma {:induction false} KindAtFirst(eps: seq<Endpoint>, address: byte)
    ensures forall j: nat | IsFirstAt(eps, address, j) :: KindAt(eps, address) == Some(eps[j].kind)
    ensures KindAt(eps, address).None? <==> forall j | 0 <= j < |eps| :: eps[j].address != address
    ensures KindAt(eps, address).Some? ==> exists j: nat :: IsFirstAt(eps, address, j)
  {
    if eps != [] {
      var rest := eps[1..];
      KindAtFirst(rest, address);
      assert forall j | 1 <= j < |eps| :: eps[j] == rest[j - 1];
      if eps[0].address == address {
        assert IsFirstAt(eps, address, 0);
      } else {
        forall j: nat | IsFirstAt(eps, address, j) ensures KindAt(eps, address) == Some(eps[j].kind) {
          assert forall i | 0 <= i < j - 1 :: rest[i] == eps[i + 1];
          assert IsFirstAt(rest, address, j - 1);
        }
        if KindAt(rest, address).Some? {
          var j: nat :| IsFirstAt(rest, address, j);
          assert IsFirstAt(eps, address, j + 1);
        }
      }
    }
  }

  /** The interface's first setting with that number, or its first setting if none has it. */
  predicate IsSetting(cfg: Config, iface: byte, alt: byte, n: nat) {
    && n < |cfg| && cfg[n].iface == iface
    && if cfg[n].alt == alt then forall i | 0 <= i < n && cfg[i].iface == iface :: cfg[i].alt != alt
       else
         && (forall i | 0 <= i < n :: cfg[i].iface != iface)
         && (forall i | 0 <= i < |cfg| && cfg[i].iface == iface :: cfg[i].alt != alt)
  }

  lemma {:induction false} FindAltSnoc(alts: seq<AltSetting>, a: AltSetting, alt: byte)
    ensures FindAlt(alts + [a], alt) ==
            if FindAlt(alts, alt).Some? then FindAlt(alts, alt) else if a.alt == alt then Some(a) else None
  {
    var all := alts + [a];
    if alts != [] {
      assert all[0] == alts[0] && all[1..] == alts[1..] + [a];
      FindAltSnoc(alts[1..], a, alt);
    } else {
      assert all[1..] == [];
    }
  }

  lemma {:induction false} NoAltFound(cfg: Config, iface: byte, alt: byte)
    requires forall i | 0 <= i < |cfg| && cfg[i].iface == iface :: cfg[i].alt != alt
    ensures FindAlt(AltsOf(cfg, iface), alt) == None
  {
    if cfg != [] {
      var n := |cfg| - 1;
      NoAltFound(cfg[..n], iface, alt);
      FindAltSnoc(AltsOf(cfg[..n], iface), cfg[n], alt);
    }
  }

  lemma {:induction false} AltFound(cfg: Config, iface: byte, alt: byte, n: nat)
    requires n < |cfg| && cfg[n].iface == iface && cfg[n].alt == alt
    requires forall i | 0 <= i < n && cfg[i].iface == iface :: cfg[i].alt != alt
    ensures FindAlt(AltsOf(cfg, iface), alt) == Some(cfg[n])
  {
    var last := |cfg| - 1;
    FindAltSnoc(AltsOf(cfg[..last], iface), cfg[last], alt);
    if n < last {
      AltFound(cfg[..last], iface, alt, n);
    } else {
      NoAltFound(cfg[..last], iface, alt);
    }
  }

  lemma {:induction false} FirstAltOf(cfg: Config, iface: byte, n: nat)
    requires n < |cfg| && cfg[n].iface == iface && forall i | 0 <= i < n :: cfg[i].iface != iface
    ensures AltsOf(cfg, iface) != [] && AltsOf(cfg, iface)[0] == cfg[n]
  {
    var last := |cfg| - 1;
    if n < last {
      FirstAltOf(cfg[..last], iface, n);
    } else {
      NoAltsOf(cfg[..last], iface);
    }
  }

  lemma {:induction false} NoAltsOf(cfg: Config, iface: byte)
    ensures AltsOf(cfg, iface) == [] <==> forall i | 0 <= i < |cfg| :: cfg[i].iface != iface
  {
    if cfg != [] {
      NoAltsOf(cfg[..|cfg| - 1], iface);
    }
  }

  lemma SettingSelected(cfg: Config, iface: byte, alt: byte, n: nat)
    requires IsSetting(cfg, iface, alt, n)
    ensures Selected(AltsOf(cfg, iface), alt) == Some(cfg[n])
  {
    hide AltsOf, FindAlt;
    if cfg[n].alt == alt {
      AltFound(cfg, iface, alt, n);
    } else {
      NoAltFound(cfg, iface, alt);
      FirstAltOf(cfg, iface, n);
    }
  }

  /** The least index with some property, if there is any. */
  lemma {:induction false} FirstSetting(cfg: Config, iface: byte, alt: Option<byte>, n: nat) returns (m: nat)
    requires n < |cfg| && cfg[n].iface == iface && (alt.Some? ==> cfg[n].alt == alt.value)
    ensures m < |cfg| && cfg[m].iface == iface && (alt.Some? ==> cfg[m].alt == alt.value)
    ensures forall i | 0 <= i < m && cfg[i].iface == iface :: alt.Some? && cfg[i].alt != alt.value
  {
    if i :| 0 <= i < n && cfg[i].iface == iface && (alt.Some? ==> cfg[i].alt == alt.value) {
      m := FirstSetting(cfg, iface, alt, i);
    } else {
      m := n;
    }
  }

  lemma SomeSetting(cfg: Config, iface: byte, alt: byte)
    requires AltsOf(cfg, iface) != []
    ensures exists n: nat :: IsSetting(cfg, iface, alt, n)
  {
    NoAltsOf(cfg, iface);
    var any :| 0 <= any < |cfg| && cfg[any].iface == iface;
    var n;
    if i :| 0 <= i < |cfg| && cfg[i].iface == iface && cfg[i].alt == alt {
      n := FirstSetting(cfg, iface, Some(alt), i);
    } else {
      n := FirstSetting(cfg, iface, None, any);
    }
    assert IsSetting(cfg, iface, alt, n);
  }

  /** The endpoint is position `j` of setting `n`, the one its interface has. */
  predicate IsEndpointOn(cfg: Config, alts: Alts, iface: byte, address: byte, n: nat, j: nat) {
    && IsSetting(cfg, iface, if iface in alts then alts[iface] else 0, n)
    && IsFirstAt(cfg[n].endpoints, address, j)
  }

  /** So the lookup finds an endpoint exactly if there is one in the interface's setting, with its own kind. */
  lemma KindOnIs(cfg: Config, alts: Alts, iface: byte, address: byte)
    ensures forall n: nat, j: nat | IsEndpointOn(cfg, alts, iface, address, n, j) ::
              KindOn(cfg, alts, iface, address) == Some(cfg[n].endpoints[j].kind)
    ensures KindOn(cfg, alts, iface, address).Some? ==>
              exists n: nat, j: nat :: IsEndpointOn(cfg, alts, iface, address, n, j)
  {
    hide AltsOf, KindAt;
    var alt := AltOf(alts, iface);
    forall n: nat, j: nat | IsEndpointOn(cfg, alts, iface, address, n, j)
      ensures KindOn(cfg, alts, iface, address) == Some(cfg[n].endpoints[j].kind)
    {
      SettingSelected(cfg, iface, alt, n);
      KindAtFirst(cfg[n].endpoints, address);
    }
    if KindOn(cfg, alts, iface, address).Some? {
      SomeSetting(cfg, iface, alt);
      var n: nat :| IsSetting(cfg, iface, alt, n);
      SettingSelected(cfg, iface, alt, n);
      KindAtFirst(cfg[n].endpoints, address);
      var j: nat :| IsFirstAt(cfg[n].endpoints, address, j);
      assert IsEndpointOn(cfg, alts, iface, address, n, j);
    }
  }

  /** With no configuration selected there is nothing to find. */
  ghost predicate Looks(cfg: Option<Config>, alts: Alts, address: byte, r: Lookup) {
    if cfg.None? then r == NotFound else IsLookup(cfg.value, alts, address, r)
  }

  /** No endpoint address is active on two interfaces, as section 9.6.6 of USB 2.0 has it. */
  ghost predicate AddressesUnique(cfg: Config, alts: Alts) {
    forall i: byte, j: byte, a: byte | KindOn(cfg, alts, i, a).Some? && KindOn(cfg, alts, j, a).Some? :: i == j
  }

  /** Then the lookup has one outcome, whatever the order of the walk. */
  lemma LookupDetermined(cfg: Config, alts: Alts, address: byte, r: Lookup, r': Lookup)
    requires AddressesUnique(cfg, alts) && IsLookup(cfg, alts, address, r) && IsLookup(cfg, alts, address, r')
    ensures r == r'
  {
  }

  // ----- the device and the caches -----

  /** Outcomes of the backend calls one operation may make. */
  datatype Outcomes = Outcomes(claim: bool, selectZero: bool, call: bool)

  datatype CachedEndpoint = CachedEndpoint(iface: byte, kind: TransferType)

  type Endpoints = map<byte, CachedEndpoint>

  type Configs = map<byte, Config>

  datatype Transferred = Used(ep: CachedEndpoint) | EndpointNotFound | UnsupportedTransfer | BackendFailed

  /** The three caches, and the configuration and alternate settings the device really has. */
  datatype Moment = Moment(
    interfaces: set<byte>, altSettings: Alts, endpoints: Endpoints, active: Option<byte>, alts: Alts)

  function ConfigOf(configs: Configs, active: Option<byte>): Option<Config> {
    if active.Some? && active.value in configs then Some(configs[active.value]) else None
  }

  /** Only claimed interfaces have a cached alternate setting, and the device has them so. */
  ghost predicate ClaimsAgree(interfaces: set<byte>, cached: Alts, alts: Alts) {
    cached.Keys <= interfaces && forall i | i in interfaces :: AltOf(alts, i) == AltOf(cached, i)
  }

  /** Every cached endpoint is on a claimed interface that has it under the device's settings. */
  ghost predicate EndpointsExist(endpoints: Endpoints, interfaces: set<byte>, cfg: Option<Config>, alts: Alts) {
    forall a | a in endpoints ::
      && endpoints[a].iface in interfaces
      && (endpoints[a].kind.Bulk? || endpoints[a].kind.Interrupt?)
      && cfg.Some?
      && KindOn(cfg.value, alts, endpoints[a].iface, a) == Some(endpoints[a].kind)
  }

  /** What every operation keeps: claimed interfaces and cached endpoints are as the device has them. */
  ghost predicate Coherent(configs: Configs, m: Moment) {
    && ClaimsAgree(m.interfaces, m.altSettings, m.alts)
    && EndpointsExist(m.endpoints, m.interfaces, ConfigOf(configs, m.active), m.alts)
  }

  /** Beyond that: no unclaimed interface was left in another alternate setting. */
  ghost predicate Aligned(m: Moment) {
    SameAlts(m.alts, m.altSettings)
  }

  // ----- opening -----

  /** Claims an interface on first use and selects alternate setting 0; a failing selection is ignored. */
  function AfterClaim(m: Moment, num: byte, out: Outcomes): (bool, Moment) {
    if num in m.interfaces then (true, m)
    else if !out.claim then (false, m)
    else
      (true, m.(interfaces := m.interfaces + {num}, alts := if out.selectZero then m.alts[num := 0] else m.alts))
  }

  /** The selection matters exactly if the device was left at another setting. */
  lemma ClaimCoherentIff(configs: Configs, m: Moment, num: byte, out: Outcomes)
    requires Coherent(configs, m)
    ensures Coherent(configs, AfterClaim(m, num, out).1) <==>
            num in m.interfaces || !out.claim || out.selectZero || AltOf(m.alts, num) == 0
    ensures Aligned(m) ==> Aligned(AfterClaim(m, num, out).1)
  {
    hide EndpointsExist;
    var m' := AfterClaim(m, num, out).1;
    if num !in m.interfaces && out.claim {
      EndpointsSurvive(m.endpoints, m.interfaces, ConfigOf(configs, m.active), m.alts, num, m'.alts);
    }
  }

  /** Endpoints survive a claim or a change of setting on any interface but their own. */
  lemma EndpointsSurvive(
    endpoints: Endpoints, interfaces: set<byte>, cfg: Option<Config>, alts: Alts, iface: byte, alts': Alts)
    requires EndpointsExist(endpoints, interfaces, cfg, alts)
    requires forall i: byte | i != iface :: AltOf(alts', i) == AltOf(alts, i)
    requires iface !in interfaces || forall a | a in endpoints :: endpoints[a].iface != iface
    ensures EndpointsExist(endpoints, interfaces + {iface}, cfg, alts')
  {
    hide KindOn;
    forall a | a in endpoints ensures KindOn(cfg.value, alts', endpoints[a].iface, a) == Some(endpoints[a].kind) {
      SameAltSameKind(cfg.value, alts, alts', endpoints[a].iface, a);
    }
  }

  /** A cached endpoint is used as it is; otherwise the looked-up one is opened on its interface and cached. */
  function AfterOpen(m: Moment, address: byte, ep: CachedEndpoint, out: Outcomes): (Transferred, Moment) {
    if address in m.endpoints then (Used(m.endpoints[address]), m)
    else
      var (ok, m1) := AfterClaim(m, ep.iface, out);
      if !ok || !out.call then (BackendFailed, m1)
      else (Used(ep), m1.(endpoints := m1.endpoints[address := ep]))
  }

  lemma OpenCoherent(configs: Configs, m: Moment, address: byte, ep: CachedEndpoint, out: Outcomes)
    requires Coherent(configs, m) && (out.selectZero || Aligned(m))
    requires Looks(ConfigOf(configs, m.active), m.altSettings, address, Found(ep.iface, ep.kind))
    ensures Coherent(configs, AfterOpen(m, address, ep, out).1)
    ensures Aligned(m) ==> Aligned(AfterOpen(m, address, ep, out).1)
  {
    ClaimCoherentIff(configs, m, ep.iface, out);
    hide KindOn;
    var (ok, m1) := AfterClaim(m, ep.iface, out);
    if address !in m.endpoints && ok && out.call {
      SameAltSameKind(ConfigOf(configs, m.active).value, m.altSettings, m1.alts, ep.iface, address);
    }
  }

  /** One data transfer: `r` and `m'` are a possible answer and what it leaves behind. */
  ghost predicate AfterData(configs: Configs, m: Moment, address: byte, out: Outcomes, r: Transferred, m': Moment) {
    exists l: Lookup ::
      Looks(ConfigOf(configs, m.active), m.altSettings, address, l) && AfterLookup(m, address, l, out, r, m')
  }

  ghost predicate AfterLookup(m: Moment, address: byte, l: Lookup, out: Outcomes, r: Transferred, m': Moment) {
    match l
    case NotFound => r == EndpointNotFound && m' == m
    case Unsupported => r == UnsupportedTransfer && m' == m
    case Found(i, k) => (r, m') == AfterOpen(m, address, CachedEndpoint(i, k), out)
  }

  /** The endpoint is one an uncached lookup finds, and the only one it can find if addresses are unique. */
  ghost predicate Right(cfg: Option<Config>, alts: Alts, address: byte, ep: CachedEndpoint) {
    && Looks(cfg, alts, address, Found(ep.iface, ep.kind))
    && (cfg.Some? && AddressesUnique(cfg.value, alts) ==>
          forall l | Looks(cfg, alts, address, l) :: l == Found(ep.iface, ep.kind))
  }

  lemma FoundIsRight(cfg: Option<Config>, alts: Alts, address: byte, ep: CachedEndpoint)
    requires Looks(cfg, alts, address, Found(ep.iface, ep.kind))
    ensures Right(cfg, alts, address, ep)
  {
    if AddressesUnique(cfg.value, alts) {
      forall l | Looks(cfg, alts, address, l) ensures l == Found(ep.iface, ep.kind) {
        LookupDetermined(cfg.value, alts, address, l, Found(ep.iface, ep.kind));
      }
    }
  }

  /** What an answer to a data transfer tells about the device itself, as it stands after the transfer. */
  ghost predicate DataRight(configs: Configs, m: Moment, address: byte, out: Outcomes, r: Transferred, m': Moment) {
    var cfg := ConfigOf(configs, m'.active);
    match r
    case Used(ep) => Right(cfg, m'.alts, address, ep) && address in m'.endpoints && m'.endpoints[address] == ep
    case EndpointNotFound => m' == m && (Aligned(m) ==> Looks(cfg, m.alts, address, NotFound))
    case UnsupportedTransfer => m' == m && (Aligned(m) ==> Looks(cfg, m.alts, address, Unsupported))
    case BackendFailed => (!out.claim || !out.call) && m'.endpoints == m.endpoints
  }

  /** A transfer keeps the caches coherent and goes to the endpoint that the device has under that address. */
  lemma DataTransferRight(configs: Configs, m: Moment, address: byte, out: Outcomes, r: Transferred, m': Moment)
    requires Coherent(configs, m) && (out.selectZero || Aligned(m)) && AfterData(configs, m, address, out, r, m')
    ensures Coherent(configs, m') && (Aligned(m) ==> Aligned(m'))
    ensures DataRight(configs, m, address, out, r, m')
  {
    hide KindOn, Coherent;
    var cfg := ConfigOf(configs, m.active);
    var l: Lookup :| Looks(cfg, m.altSettings, address, l) && AfterLookup(m, address, l, out, r, m');
    match l
    case NotFound => ErrorRight(cfg, m, address, l);
    case Unsupported => ErrorRight(cfg, m, address, l);
    case Found(i, k) =>
      OpenCoherent(configs, m, address, CachedEndpoint(i, k), out);
      if r.Used? {
        CachedIsFound(configs, m', address);
        FoundIsRight(cfg, m'.alts, address, r.ep);
      }
  }

  lemma ErrorRight(cfg: Option<Config>, m: Moment, address: byte, l: Lookup)
    requires Looks(cfg, m.altSettings, address, l)
    ensures Aligned(m) ==> Looks(cfg, m.alts, address, l)
  {
    hide IsLookup;
    if Aligned(m) && cfg.Some? {
      SameAltsSameLookup(cfg.value, m.alts, m.altSettings, address, l);
    }
  }

  lemma CachedIsFound(configs: Configs, m: Moment, address: byte)
    requires Coherent(configs, m) && address in m.endpoints
    ensures var ep := m.endpoints[address];
            Looks(ConfigOf(configs, m.active), m.alts, address, Found(ep.iface, ep.kind))
  {
    hide KindOn;
  }

  /** The answer of the uncached lookup. */
  function Uncached(l: Lookup): Transferred {
    match l
    case NotFound => EndpointNotFound
    case Unsupported => UnsupportedTransfer
    case Found(i, k) => Used(CachedEndpoint(i, k))
  }

  /** With every interface aligned, unique addresses and a willing backend, caching cannot be observed. */
  lemma CacheUnobservable(
    configs: Configs, m: Moment, address: byte, out: Outcomes, r: Transferred, m': Moment, l: Lookup)
    requires Coherent(configs, m) && Aligned(m) && AfterData(configs, m, address, out, r, m') && out.claim && out.call
    requires var cfg := ConfigOf(configs, m.active);
             Looks(cfg, m.alts, address, l) && (cfg.Some? ==> AddressesUnique(cfg.value, m.alts))
    ensures r == Uncached(l)
  {
    hide KindOn, Coherent, AddressesUnique;
    var cfg := ConfigOf(configs, m.active);
    var c: Lookup :| Looks(cfg, m.altSettings, address, c) && AfterLookup(m, address, c, out, r, m');
    ErrorRight(cfg, m, address, c);
    if cfg.Some? {
      LookupDetermined(cfg.value, m.alts, address, c, l);
    }
    if address in m.endpoints {
      CachedIsFound(configs, m, address);
      if cfg.Some? {
        LookupDetermined(cfg.value, m.alts, address, Found(m.endpoints[address].iface, m.endpoints[address].kind), l);
      }
    }
  }

  // ----- the intercepted requests -----

  datatype SetupPacket = SetupPacket(requestType: byte, request: byte, value: u16, index: u16, length: u16)

  function FromBytes(b: SetupBytes): SetupPacket {
    SetupPacket(b[0], b[1], (b[3] as int) * 0x100 + b[2], (b[5] as int) * 0x100 + b[4], (b[7] as int) * 0x100 + b[6])
  }

  predicate IsSetConfiguration(s: SetupPacket) {
    s.requestType < 0x80 && s.requestType == 0x00 && s.request == 0x09
  }

  predicate IsSetInterface(s: SetupPacket) {
    s.requestType < 0x80 && s.requestType == 0x01 && s.request == 0x0B
  }

  /** The two intercepted requests are the standard ones of USB 2.0, read off the raw bytes. */
  lemma InterceptsStandardRequests(b: SetupBytes)
    ensures IsSetConfiguration(FromBytes(b)) <==> b[..2] == [0x00, 0x09]
    ensures IsSetInterface(FromBytes(b)) <==> b[..2] == [0x01, 0x0B]
    ensures FromBytes(b).value % 0x100 == b[2] && FromBytes(b).index % 0x100 == b[4]
  {
    assert b[..2] == [b[0], b[1]];
  }

  /** Where the device is when a SET_CONFIGURATION has failed: anywhere. */
  datatype Wreck = Wreck(active: Option<byte>, alts: Alts)

  /** Everything cached belongs to the previous configuration and goes, also when the request then fails. */
  function AfterSetConfiguration(cfg: byte, ok: bool, wreck: Wreck): Moment {
    Moment({}, map[], map[], if ok then Some(cfg) else wreck.active, if ok then map[] else wreck.alts)
  }

  function Without(endpoints: Endpoints, iface: byte): Endpoints {
    map a | a in endpoints && endpoints[a].iface != iface :: endpoints[a]
  }

  /** The interface's endpoints go first; its setting changes on device and in cache if every call succeeds. */
  function AfterSetInterface(m: Moment, num: byte, alt: byte, out: Outcomes): (bool, Moment) {
    var (ok, m1) := AfterClaim(m.(endpoints := Without(m.endpoints, num)), num, out);
    if !ok || !out.call then (false, m1)
    else (true, m1.(alts := m1.alts[num := alt], altSettings := m1.altSettings[num := alt]))
  }

  /**
   * SET_INTERFACE gives the interface the new setting, on the device and in the cache, or fails and
   * leaves the old one, unless a first claim selected 0; no other interface is touched.
   */
  lemma SetInterfaceMoves(m: Moment, num: byte, alt: byte, out: Outcomes)
    ensures var (ok, m') := AfterSetInterface(m, num, alt, out);
            && (ok <==> (num in m.interfaces || out.claim) && out.call)
            && (ok ==> num in m'.interfaces && AltOf(m'.alts, num) == AltOf(m'.altSettings, num) == alt)
            && (!ok ==> m'.altSettings == m.altSettings && AltOf(m'.alts, num) ==
                          if num in m.interfaces || !out.claim || !out.selectZero then AltOf(m.alts, num) else 0)
            && (forall i: byte | i != num ::
                  AltOf(m'.alts, i) == AltOf(m.alts, i) && AltOf(m'.altSettings, i) == AltOf(m.altSettings, i))
            && m'.endpoints == Without(m.endpoints, num) && m'.active == m.active
  {
  }

  lemma SetInterfaceCoherent(configs: Configs, m: Moment, num: byte, alt: byte, out: Outcomes)
    requires Coherent(configs, m)
    ensures var (ok, m') := AfterSetInterface(m, num, alt, out);
            (ok || out.selectZero || Aligned(m) ==> Coherent(configs, m')) && (Aligned(m) ==> Aligned(m'))
  {
    hide EndpointsExist, SameAlts;
    var cfg, m0 := ConfigOf(configs, m.active), m.(endpoints := Without(m.endpoints, num));
    EndpointsDropped(m.endpoints, m.interfaces, cfg, m.alts, num);
    ClaimCoherentIff(configs, m0, num, out);
    SameAltsAt(m.alts, m.altSettings, num);
    var (ok, m1) := AfterClaim(m0, num, out);
    if ok && out.call {
      if Aligned(m1) {
        SameAltsUpdated(m1.alts, m1.altSettings, num, alt);
      }
      EndpointsSurvive(m0.endpoints, m.interfaces, cfg, m.alts, num, m1.alts[num := alt]);
      assert m1.interfaces == m.interfaces + {num};
    }
  }

  lemma EndpointsDropped(endpoints: Endpoints, interfaces: set<byte>, cfg: Option<Config>, alts: Alts, iface: byte)
    requires EndpointsExist(endpoints, interfaces, cfg, alts)
    ensures EndpointsExist(Without(endpoints, iface), interfaces, cfg, alts)
  {
  }

  /** Requests other than the two intercepted ones go straight to the device and touch nothing here. */
  function AfterControl(m: Moment, setup: SetupPacket, out: Outcomes, wreck: Wreck): (bool, Moment) {
    if IsSetConfiguration(setup) then (out.call, AfterSetConfiguration(setup.value % 0x100, out.call, wreck))
    else if IsSetInterface(setup) then AfterSetInterface(m, setup.index % 0x100, setup.value % 0x100, out)
    else (out.call, m)
  }

  /** By the bytes of the request: which configuration, which setting of which interface, and else nothing. */
  lemma ControlMeans(m: Moment, b: SetupBytes, out: Outcomes, wreck: Wreck)
    ensures var (ok, m') := AfterControl(m, FromBytes(b), out, wreck);
            && (b[..2] == [0x00, 0x09] ==>
                  && ok == out.call && m'.interfaces == {} && m'.altSettings == map[] && m'.endpoints == map[]
                  && (ok ==> m'.active == Some(b[2]) && m'.alts == map[])
                  && (!ok ==> m'.active == wreck.active && m'.alts == wreck.alts))
            && (b[..2] == [0x01, 0x0B] && ok ==> AltOf(m'.alts, b[4]) == AltOf(m'.altSettings, b[4]) == b[2])
            && (b[..2] != [0x00, 0x09] && b[..2] != [0x01, 0x0B] ==> m' == m && ok == out.call)
  {
    InterceptsStandardRequests(b);
    SetInterfaceMoves(m, b[4], b[2], out);
  }

  lemma ControlKeeps(configs: Configs, m: Moment, setup: SetupPacket, out: Outcomes, wreck: Wreck)
    requires Coherent(configs, m) && (out.selectZero || Aligned(m))
    ensures Coherent(configs, AfterControl(m, setup, out, wreck).1)
    ensures Aligned(m) && (out.call || !IsSetConfiguration(setup)) ==> Aligned(AfterControl(m, setup, out, wreck).1)
  {
    if IsSetInterface(setup) {
      SetInterfaceCoherent(configs, m, setup.index % 0x100, setup.value % 0x100, out);
    }
  }

  // ----- serial runs -----

  datatype Request = ControlRequest(setup: SetupBytes, wreck: Wreck) | DataRequest(address: byte)

  datatype Answer = ControlAnswer(ok: bool) | DataAnswer(r: Transferred)

  ghost predicate ServeStep(configs: Configs, m: Moment, q: Request, out: Outcomes, a: Answer, m': Moment) {
    match q
    case ControlRequest(setup, wreck) => a.ControlAnswer? && (a.ok, m') == AfterControl(m, FromBytes(setup), out, wreck)
    case DataRequest(address) => a.DataAnswer? && AfterData(configs, m, address, out, a.r, m')
  }

  /** One answer per request, and the moments before, between and after them. */
  ghost predicate IsRun(
    configs: Configs, qs: seq<Request>, outs: seq<Outcomes>, answers: seq<Answer>, ms: seq<Moment>)
  {
    && |outs| == |answers| == |qs| && |ms| == |qs| + 1
    && forall n | 0 <= n < |qs| :: ServeStep(configs, ms[n], qs[n], outs[n], answers[n], ms[n + 1])
  }

  predicate FailsToConfigure(q: Request, out: Outcomes) {
    q.ControlRequest? && IsSetConfiguration(FromBytes(q.setup)) && !out.call
  }

  /** Setting 0 can always be selected, or all starts aligned and no SET_CONFIGURATION fails. */
  ghost predicate Benign(qs: seq<Request>, outs: seq<Outcomes>, m: Moment)
    requires |outs| == |qs|
  {
    || (forall n | 0 <= n < |outs| :: outs[n].selectZero)
    || (Aligned(m) && forall n | 0 <= n < |qs| :: !FailsToConfigure(qs[n], outs[n]))
  }

  lemma StepKeeps(configs: Configs, m: Moment, q: Request, out: Outcomes, a: Answer, m': Moment)
    requires ServeStep(configs, m, q, out, a, m') && Coherent(configs, m) && (out.selectZero || Aligned(m))
    ensures Coherent(configs, m') && (Aligned(m) && !FailsToConfigure(q, out) ==> Aligned(m'))
    ensures q.DataRequest? ==> a.DataAnswer? && DataRight(configs, m, q.address, out, a.r, m')
  {
    hide Coherent, Aligned, AfterControl, AfterData, DataRight;
    match q
    case ControlRequest(setup, wreck) => ControlKeeps(configs, m, FromBytes(setup), out, wreck);
    case DataRequest(address) => DataTransferRight(configs, m, address, out, a.r, m');
  }

  lemma {:induction false} RunKeeps(
    configs: Configs, qs: seq<Request>, outs: seq<Outcomes>, answers: seq<Answer>, ms: seq<Moment>, n: nat)
    requires IsRun(configs, qs, outs, answers, ms) && n <= |qs|
    requires Coherent(configs, ms[0]) && Benign(qs, outs, ms[0])
    ensures Coherent(configs, ms[n])
    ensures (forall k | 0 <= k < |outs| :: outs[k].selectZero) || Aligned(ms[n])
  {
    hide Coherent, Aligned, ServeStep, FailsToConfigure;
    if n > 0 {
      RunKeeps(configs, qs, outs, answers, ms, n - 1);
      assert ServeStep(configs, ms[n - 1], qs[n - 1], outs[n - 1], answers[n - 1], ms[n - 1 + 1]);
      StepKeeps(configs, ms[n - 1], qs[n - 1], outs[n - 1], answers[n - 1], ms[n]);
    }
  }

  /**
   * Over every serial run, with failures anywhere but in the selection of setting 0, or there too as
   * long as no SET_CONFIGURATION fails: the caches are coherent at every moment, and every answer to a
   * data transfer is right about the device as it stands at that moment.
   */
  lemma RunRight(
    configs: Configs, qs: seq<Request>, outs: seq<Outcomes>, answers: seq<Answer>, ms: seq<Moment>, n: nat)
    requires IsRun(configs, qs, outs, answers, ms) && n < |qs|
    requires Coherent(configs, ms[0]) && Benign(qs, outs, ms[0])
    ensures Coherent(configs, ms[n]) && Coherent(configs, ms[n + 1])
    ensures qs[n].DataRequest? ==>
              answers[n].DataAnswer? && DataRight(configs, ms[n], qs[n].address, outs[n], answers[n].r, ms[n + 1])
  {
    hide Coherent, Aligned, ServeStep, DataRight, FailsToConfigure;
    RunKeeps(configs, qs, outs, answers, ms, n);
    StepKeeps(configs, ms[n], qs[n], outs[n], answers[n], ms[n + 1]);
  }

  // ----- the opened device -----

  class UsbDevice {
    const configs: Configs
    var active: Option<byte>
    var alts: Alts

    constructor (configs: Configs, active: Option<byte>, alts: Alts)
      ensures this.configs == configs && this.active == active && this.alts == alts
    {
      this.configs, this.active, this.alts := configs, active, alts;
    }

    function ActiveConfig(): Option<Config>
      reads this
    {
      ConfigOf(configs, active)
    }
  }

  class OpenedDevice {
    const dev: UsbDevice
    var interfaces: set<byte>                   // claimed
    var altSettings: Alts
    var endpoints: Endpoints

    function Now(): Moment
      reads this, dev
    {
      Moment(interfaces, altSettings, endpoints, dev.active, dev.alts)
    }

    constructor (dev: UsbDevice)
      ensures this.dev == dev && Now() == Moment({}, map[], map[], dev.active, dev.alts)
      ensures Coherent(dev.configs, Now())
    {
      this.dev := dev;
      interfaces, altSettings, endpoints := {}, map[], map[];
    }

    // ----- looking an endpoint up -----

    /** Groups the alternate settings by interface number. */
    static method ByInterface(cfg: Config) returns (groups: map<byte, seq<AltSetting>>)
      ensures forall i: byte :: AltsOf(cfg, i) == if i in groups then groups[i] else []
    {
      groups := map[];
      var n := 0;
      while n < |cfg|
        invariant n <= |cfg|
        invariant forall i: byte :: AltsOf(cfg[..n], i) == if i in groups then groups[i] else []
      {
        assert cfg[..n + 1][..n] == cfg[..n];
        var i := cfg[n].iface;
        groups := groups[i := (if i in groups then groups[i] else []) + [cfg[n]]];
        n := n + 1;
      }
      assert cfg[..n] == cfg;
    }

    static method FindSelected(alts: seq<AltSetting>, alt: byte) returns (r: Option<AltSetting>)
      ensures r == Selected(alts, alt)
    {
      var n := 0;
      assert alts[0..] == alts;
      while n < |alts|
        invariant n <= |alts| && FindAlt(alts, alt) == FindAlt(alts[n..], alt)
      {
        assert alts[n..][1..] == alts[n + 1..];
        if alts[n].alt == alt {
          return Some(alts[n]);
        }
        n := n + 1;
      }
      return if alts == [] then None else Some(alts[0]);
    }

    static method FindKind(eps: seq<Endpoint>, address: byte) returns (kind: Option<TransferType>)
      ensures kind == KindAt(eps, address)
    {
      var n := 0;
      assert eps[0..] == eps;
      while n < |eps|
        invariant n <= |eps| && KindAt(eps, address) == KindAt(eps[n..], address)
      {
        assert eps[n..][1..] == eps[n + 1..];
        if eps[n].address == address {
          return Some(eps[n].kind);
        }
        n := n + 1;
      }
      return None;
    }

    /** Which interface owns the endpoint, by the cached alternate settings. */
    method EndpointKind(address: byte) returns (r: Lookup)
      ensures Looks(dev.ActiveConfig(), altSettings, address, r)
    {
      var active := dev.ActiveConfig();
      if active.None? {
        return NotFound;
      }
      var cfg := active.value;
      var groups := ByInterface(cfg);
      var left := groups.Keys;
      while left != {}
        invariant left <= groups.Keys
        invariant forall i: byte | i !in left :: KindOn(cfg, altSettings, i, address).None?
        decreases left
      {
        var i :| i in left;
        var alt := FindSelected(groups[i], AltOf(altSettings, i));
        if alt.Some? {
          var kind := FindKind(alt.value.endpoints, address);
          if kind.Some? {
            assert KindOn(cfg, altSettings, i, address) == kind;
            return if kind.value.Bulk? || kind.value.Interrupt? then Found(i, kind.value) else Unsupported;
          }
        }
        left := left - {i};
      }
      return NotFound;
    }

    // ----- operations -----

    method EnsureInterface(num: byte, out: Outcomes) returns (ok: bool)
      modifies this`interfaces, dev`alts
      ensures (ok, Now()) == AfterClaim(old(Now()), num, out)
    {
      if num in interfaces {
        return true;
      }
      if !out.claim {
        return false;
      }
      if out.selectZero {
        dev.alts := dev.alts[num := 0];
      }
      interfaces := interfaces + {num};
      return true;
    }

    method EnsureEndpoint(address: byte, iface: byte, kind: TransferType, out: Outcomes) returns (r: Transferred)
      modifies this`interfaces, this`endpoints, dev`alts
      ensures (r, Now()) == AfterOpen(old(Now()), address, CachedEndpoint(iface, kind), out)
    {
      if address in endpoints {
        return Used(endpoints[address]);
      }
      var ok := EnsureInterface(iface, out);
      if !ok || !out.call {
        return BackendFailed;
      }
      endpoints := endpoints[address := CachedEndpoint(iface, kind)];
      return Used(endpoints[address]);
    }

    method DataTransfer(address: byte, out: Outcomes) returns (r: Transferred)
      modifies this`interfaces, this`endpoints, dev`alts
      ensures AfterData(dev.configs, old(Now()), address, out, r, Now())
    {
      hide IsLookup;
      var kind := EndpointKind(address);
      match kind {
        case NotFound => r := EndpointNotFound;
        case Unsupported => r := UnsupportedTransfer;
        case Found(i, k) => r := EnsureEndpoint(address, i, k, out);
      }
      assert AfterLookup(old(Now()), address, kind, out, r, Now());
    }

    method SetConfiguration(cfg: byte, ok: bool, wreck: Wreck)
      modifies this, dev
      ensures Now() == AfterSetConfiguration(cfg, ok, wreck)
    {
      endpoints := map[];
      interfaces := {};
      altSettings := map[];
      dev.active, dev.alts := if ok then Some(cfg) else wreck.active, if ok then map[] else wreck.alts;
    }

    method InvalidateInterfaceEndpoints(num: byte)
      modifies this`endpoints
      ensures endpoints == Without(old(endpoints), num)
    {
      endpoints := map a | a in endpoints && endpoints[a].iface != num :: endpoints[a];
    }

    method SetInterface(num: byte, alt: byte, out: Outcomes) returns (ok: bool)
      modifies this, dev`alts
      ensures (ok, Now()) == AfterSetInterface(old(Now()), num, alt, out)
    {
      InvalidateInterfaceEndpoints(num);
      ok := EnsureInterface(num, out);
      if !ok || !out.call {
        return false;
      }
      dev.alts := dev.alts[num := alt];
      altSettings := altSettings[num := alt];
      return true;
    }

    method ControlTransfer(setup: SetupPacket, out: Outcomes, wreck: Wreck) returns (ok: bool)
      modifies this, dev
      ensures (ok, Now()) == AfterControl(old(Now()), setup, out, wreck)
    {
      if IsSetConfiguration(setup) {
        SetConfiguration(setup.value % 0x100, out.call, wreck);
        return out.call;
      }
      if IsSetInterface(setup) {
        ok := SetInterface(setup.index % 0x100, setup.value % 0x100, out);
        return;
      }
      return out.call;
    }

    /** Any serial run of requests is a run in the sense above, from the device as it was to the device as it is. */
    method Serve(requests: seq<Request>, outs: seq<Outcomes>) returns (answers: seq<Answer>, moments: seq<Moment>)
      requires |outs| == |requests|
      modifies this, dev
      ensures IsRun(dev.configs, requests, outs, answers, moments)
      ensures moments[0] == old(Now()) && moments[|requests|] == Now()
    {
      hide ServeStep;
      answers, moments := [], [Now()];
      var n := 0;
      while n < |requests|
        invariant n <= |requests| && |answers| == n && |moments| == n + 1
        invariant moments[0] == old(Now()) && moments[n] == Now()
        invariant forall k | 0 <= k < n ::
                    ServeStep(dev.configs, moments[k], requests[k], outs[k], answers[k], moments[k + 1])
      {
        var a := Answer(requests[n], outs[n]);
        answers, moments := answers + [a], moments + [Now()];
        n := n + 1;
      }
    }

    method Answer(q: Request, out: Outcomes) returns (a: Answer)
      modifies this, dev
      ensures ServeStep(dev.configs, old(Now()), q, out, a, Now())
    {
      match q
      case ControlRequest(setup, wreck) =>
        var ok := ControlTransfer(FromBytes(setup), out, wreck);
        a := ControlAnswer(ok);
      case DataRequest(address) =>
        var r := DataTransfer(address, out);
        a := DataAnswer(r);
    }
  }

  // ----- where the hypothesis on setting 0 is needed -----

  const TWO_SETTINGS: Config := [AltSetting(0, 0, [Endpoint(0x81, Bulk)]), AltSetting(0, 1, [])]

  lemma TwoSettings(i: byte)
    ensures KindOn(TWO_SETTINGS, map[], i, 0x81) == if i == 0 then Some(Bulk) else None
    ensures KindOn(TWO_SETTINGS, map[0 := 1], i, 0x81) == None
  {
    var first := TWO_SETTINGS[..1];
    assert AltsOf(first, i) == if i == 0 then first else [];
    assert AltsOf(TWO_SETTINGS, i) == if i == 0 then TWO_SETTINGS else [];
    assert FindAlt(TWO_SETTINGS, 1) == FindAlt(TWO_SETTINGS[1..], 1) == Some(TWO_SETTINGS[1]);
  }

  /**
   * After SET_INTERFACE a failed SET_CONFIGURATION leaves the device at alternate setting 1 and selecting
   * 0 fails, so the transfer goes to an endpoint that the device's current setting lacks.
   */
  method StaleSelection() returns (d: OpenedDevice, r: Transferred)
    ensures r == Used(CachedEndpoint(0, Bulk)) && !Coherent(d.dev.configs, d.Now())
    ensures d.dev.ActiveConfig().Some? && Looks(d.dev.ActiveConfig(), d.dev.alts, 0x81, NotFound)
  {
    hide KindOn;
    var dev := new UsbDevice(map[1 := TWO_SETTINGS], Some(1), map[]);
    d := new OpenedDevice(dev);
    var _ := d.SetInterface(0, 1, Outcomes(true, true, true));
    d.SetConfiguration(1, false, Wreck(dev.active, map[0 := 1]));
    forall i: byte {
      TwoSettings(i);
    }
    r := d.DataTransfer(0x81, Outcomes(true, false, true));
    assert KindOn(TWO_SETTINGS, map[], 0, 0x81) == Some(Bulk);
    assert KindOn(TWO_SETTINGS, map[0 := 1], 0, 0x81) == None;
  }
}
