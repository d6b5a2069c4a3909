// What an installation is configured with - cores, proxies and the profiles that name
// them - and the services every change to it goes through.
module Configuration {
  import opened Values
  import opened Wrappers
  import opened Lists

  type Directory = string

  datatype Core = Core(id: CoreId, name: string, executable: string, version: string, major: nat)

  datatype Proxy = Proxy(id: ProxyId, name: string, outbound: Outbound)

  // The parts of a profile a form checks, and nothing that names a record or a place.
  datatype Appearance = Appearance(name: string, seed: nat, fingerprint: string, window: (nat, nat),
                                   startTarget: string)

  datatype Profile = Profile(id: ProfileId, core: CoreId, proxy: Option<ProxyId>, dir: Directory, shown: Appearance)

  // ---- Outbounds: what is a credential and what is not ----

  datatype Reality = Reality(serverName: Option<string>, publicKey: string, shortId: Option<string>,
                             fingerprint: Option<string>, spiderX: Option<string>)

  datatype Network = Tcp | Ws | Grpc
  datatype Security = Plain | Tls | RealityOver

  // The blocks no credential is in are kept whole: `tls` and `ws` as text, `grpc` as the
  // service name it must have.
  datatype Stream = Stream(network: Network, security: Security, tls: Option<string>, reality: Option<Reality>,
                           ws: Option<string>, grpc: Option<string>)

  datatype Outbound =
    | Socks5(host: string, port: nat, username: Option<string>, password: Option<string>)
    | Http(host: string, port: nat, username: Option<string>, password: Option<string>)
    | Shadowsocks(host: string, port: nat, secret: string, method_: string, stream: Stream)
    | Vmess(host: string, port: nat, uuid: string, vmessSecurity: string, alterId: nat, stream: Stream)
    | Vless(host: string, port: nat, uuid: string, flow: Option<string>, encryption: string, stream: Stream)
    | Trojan(host: string, port: nat, secret: string, stream: Stream)

  function StrippedStream(s: Stream): Stream {
    s.(reality := if s.reality.Some? then Some(s.reality.value.(publicKey := "", shortId := None)) else None)
  }

  // `without_credentials`
  function Stripped(o: Outbound): Outbound {
    match o
    case Socks5(host, port, _, _) => Socks5(host, port, None, None)
    case Http(host, port, _, _) => Http(host, port, None, None)
    case Shadowsocks(host, port, _, m, stream) => Shadowsocks(host, port, "", m, StrippedStream(stream))
    case Vmess(host, port, _, security, alterId, stream) =>
      Vmess(host, port, "", security, alterId, StrippedStream(stream))
    case Vless(host, port, _, flow, encryption, stream) =>
      Vless(host, port, "", flow, encryption, StrippedStream(stream))
    case Trojan(host, port, _, stream) => Trojan(host, port, "", StrippedStream(stream))
  }

  predicate StreamCarries(s: Stream) {
    s.reality.Some? && (s.reality.value.publicKey != "" || s.reality.value.shortId.Some?)
  }

  // `carries_credentials`
  predicate Carries(o: Outbound) {
    match o
    case Socks5(_, _, username, password) => username.Some? || password.Some?
    case Http(_, _, username, password) => username.Some? || password.Some?
    case Shadowsocks(_, _, secret, _, stream) => secret != "" || StreamCarries(stream)
    case Vmess(_, _, uuid, _, _, stream) => uuid != "" || StreamCarries(stream)
    case Vless(_, _, uuid, _, _, stream) => uuid != "" || StreamCarries(stream)
    case Trojan(_, _, secret, stream) => secret != "" || StreamCarries(stream)
  }

  // The two agree: there is something to report exactly when stripping changes something.
  lemma StrippingAndCarryingAgree(o: Outbound)
    ensures Stripped(o) == o <==> !Carries(o)
    ensures !Carries(Stripped(o)) && Stripped(Stripped(o)) == Stripped(o)
  {
  }

  // What authorises a client, wherever an outbound keeps it.
  datatype Secrets = Secrets(username: Option<string>, password: Option<string>, secret: string, publicKey: string,
                             shortId: Option<string>)

  const NO_SECRETS := Secrets(None, None, "", "", None)

  predicate HasStream(o: Outbound) { !o.Socks5? && !o.Http? }

  function SecretsOf(o: Outbound): Secrets {
    var reality := if HasStream(o) then o.stream.reality else None;
    Secrets(if HasStream(o) then None else o.username, if HasStream(o) then None else o.password,
            if o.Vmess? || o.Vless? then o.uuid else if o.Shadowsocks? || o.Trojan? then o.secret else "",
            if reality.Some? then reality.value.publicKey else "",
            if reality.Some? then reality.value.shortId else None)
  }

  predicate SameStreamBut(a: Stream, b: Stream) {
    && a.network == b.network && a.security == b.security && a.tls == b.tls && a.ws == b.ws && a.grpc == b.grpc
    && (a.reality.Some? <==> b.reality.Some?)
    && (a.reality.Some? ==>
          && a.reality.value.serverName == b.reality.value.serverName
          && a.reality.value.fingerprint == b.reality.value.fingerprint
          && a.reality.value.spiderX == b.reality.value.spiderX)
  }

  // The same protocol to the same place with the same settings, secrets aside.
  predicate SameButSecrets(a: Outbound, b: Outbound) {
    && a.host == b.host && a.port == b.port
    && (a.Socks5? <==> b.Socks5?) && (a.Http? <==> b.Http?)
    && (a.Shadowsocks? <==> b.Shadowsocks?) && (a.Shadowsocks? ==> a.method_ == b.method_)
    && (a.Vmess? <==> b.Vmess?) && (a.Vmess? ==> a.vmessSecurity == b.vmessSecurity && a.alterId == b.alterId)
    && (a.Vless? <==> b.Vless?) && (a.Vless? ==> a.flow == b.flow && a.encryption == b.encryption)
    && (a.Trojan? <==> b.Trojan?)
    && (HasStream(a) ==> SameStreamBut(a.stream, b.stream))
  }

  function StreamWith(s: Stream, secrets: Secrets): Stream {
    if s.reality.None? then s
    else s.(reality := Some(s.reality.value.(publicKey := secrets.publicKey, shortId := secrets.shortId)))
  }

  // The outbound with these secrets put in.
  function WithSecrets(o: Outbound, secrets: Secrets): Outbound {
    match o
    case Socks5(_, _, _, _) => o.(username := secrets.username, password := secrets.password)
    case Http(_, _, _, _) => o.(username := secrets.username, password := secrets.password)
    case Shadowsocks(_, _, _, _, stream) => o.(secret := secrets.secret, stream := StreamWith(stream, secrets))
    case Vmess(host, port, _, security, alterId, stream) =>
      Vmess(host, port, secrets.secret, security, alterId, StreamWith(stream, secrets))
    case Vless(host, port, _, flow, encryption, stream) =>
      Vless(host, port, secrets.secret, flow, encryption, StreamWith(stream, secrets))
    case Trojan(_, _, _, stream) => o.(secret := secrets.secret, stream := StreamWith(stream, secrets))
  }

  // Stripping takes the secrets and nothing else: putting them back gives the outbound.
  lemma StrippingTakesTheSecretsOnly(o: Outbound)
    ensures SameButSecrets(o, Stripped(o)) && SecretsOf(Stripped(o)) == NO_SECRETS
    ensures WithSecrets(Stripped(o), SecretsOf(o)) == o
    ensures Carries(o) <==> SecretsOf(o) != NO_SECRETS
  {
  }

  // Nothing else would do: there is one outbound with the settings and without the secrets.
  lemma StrippedIsTheOnlyOne(o: Outbound, other: Outbound)
    ensures other == Stripped(o) <==> SameButSecrets(o, other) && SecretsOf(other) == NO_SECRETS
  {
  }

  // ---- The rules a record is held to ----

  // `blank` is "nothing left after trimming"; the host rule and what a form makes of a
  // profile's appearance are left as arbitrary predicates.
  datatype Rules = Rules(blank: string -> bool, hostOk: string -> bool, appearanceOk: Appearance -> bool)
  {
    ghost predicate Sane() { blank("") }
  }

  predicate ValidCore(rules: Rules, c: Core) {
    !rules.blank(c.name)
  }

  predicate ValidStream(rules: Rules, s: Stream) {
    && (match s.security
        case Plain => s.tls.None? && s.reality.None?
        case Tls => s.reality.None?
        case RealityOver =>
          s.tls.None? && s.reality.Some? && !rules.blank(s.reality.value.publicKey) && s.network == Tcp)
    && (match s.network
        case Tcp => s.ws.None? && s.grpc.None?
        case Ws => s.grpc.None?
        case Grpc => s.ws.None? && s.grpc.Some? && !rules.blank(s.grpc.value))
  }

  predicate ValidProxy(rules: Rules, p: Proxy) {
    && !rules.blank(p.name)
    && rules.hostOk(p.outbound.host)
    && p.outbound.port != 0
    && (match p.outbound
        case Socks5(_, _, username, password) => username.Some? == password.Some?
        case Http(_, _, username, password) => username.Some? == password.Some?
        case Shadowsocks(_, _, secret, m, stream) =>
          !rules.blank(secret) && !rules.blank(m) && ValidStream(rules, stream)
        case Vmess(_, _, uuid, security, _, stream) =>
          !rules.blank(uuid) && !rules.blank(security) && ValidStream(rules, stream)
        case Vless(_, _, uuid, _, encryption, stream) =>
          !rules.blank(uuid) && !rules.blank(encryption) && ValidStream(rules, stream)
        case Trojan(_, _, secret, stream) => !rules.blank(secret) && ValidStream(rules, stream))
  }

  // The blocks a stream may have are those its network and its security read, and REALITY
  // runs over tcp alone: of the nine combinations, these seven, each with no other block.
  lemma StreamsThatPass(rules: Rules, s: Stream)
    ensures ValidStream(rules, s) <==>
              || s == Stream(Tcp, Plain, None, None, None, None)
              || s == Stream(Tcp, Tls, s.tls, None, None, None)
              || (s == Stream(Tcp, RealityOver, None, s.reality, None, None)
                  && s.reality.Some? && !rules.blank(s.reality.value.publicKey))
              || s == Stream(Ws, Plain, None, None, s.ws, None)
              || s == Stream(Ws, Tls, s.tls, None, s.ws, None)
              || ((s == Stream(Grpc, Plain, None, None, None, s.grpc)
                   || s == Stream(Grpc, Tls, s.tls, None, None, s.grpc))
                  && s.grpc.Some? && !rules.blank(s.grpc.value))
  {
  }

  // What each protocol cannot do without.
  function Required(o: Outbound): seq<string> {
    match o
    case Socks5(_, _, _, _) => []
    case Http(_, _, _, _) => []
    case Shadowsocks(_, _, secret, m, _) => [secret, m]
    case Vmess(_, _, uuid, security, _, _) => [uuid, security]
    case Vless(_, _, uuid, _, encryption, _) => [uuid, encryption]
    case Trojan(_, _, secret, _) => [secret]
  }

  lemma ProxiesThatPass(rules: Rules, p: Proxy)
    ensures ValidProxy(rules, p) <==>
              && !rules.blank(p.name) && rules.hostOk(p.outbound.host) && p.outbound.port != 0
              && (SecretsOf(p.outbound).username.Some? <==> SecretsOf(p.outbound).password.Some?)
              && (forall field | field in Required(p.outbound) :: !rules.blank(field))
              && (HasStream(p.outbound) ==> ValidStream(rules, p.outbound.stream))
  {
    var o := p.outbound;
    assert forall i | 0 <= i < |Required(o)| :: Required(o)[i] in Required(o);
  }

  predicate ValidProfile(rules: Rules, p: Profile) {
    rules.appearanceOk(p.shown)
  }

  function StrippedProxy(p: Proxy): Proxy {
    p.(outbound := Stripped(p.outbound))
  }

  // Leaving the credentials out leaves a proxy usable exactly when its protocol can do
  // without them.
  lemma StrippedIsUsable(rules: Rules, p: Proxy)
    requires rules.Sane() && ValidProxy(rules, p)
    ensures ValidProxy(rules, StrippedProxy(p)) <==> p.outbound.Socks5? || p.outbound.Http?
  {
  }

  // ---- The store ----

  datatype Store = Store(cores: map<CoreId, Core>, proxies: map<ProxyId, Proxy>, profiles: map<ProfileId, Profile>)

  const EMPTY := Store(map[], map[], map[])

  predicate Resolves(s: Store, p: Profile) {
    p.core in s.cores && (p.proxy.Some? ==> p.proxy.value in s.proxies)
  }

  // Every reference leads to a record, and every record is under its own identifier.
  predicate Sound(s: Store) {
    && (forall k | k in s.profiles :: Resolves(s, s.profiles[k]))
    && (forall k | k in s.cores :: s.cores[k].id == k)
    && (forall k | k in s.proxies :: s.proxies[k].id == k)
    && (forall k | k in s.profiles :: s.profiles[k].id == k)
  }

  datatype Refusal = Invalid | Taken | Dangling | NotFound | InUse

  predicate CoreInUse(s: Store, id: CoreId) {
    exists k | k in s.profiles :: s.profiles[k].core == id
  }

  predicate ProxyInUse(s: Store, id: ProxyId) {
    exists k | k in s.profiles :: s.profiles[k].proxy == Some(id)
  }

  // What the database says to one profile row; the keys are enforced on every statement.
  function RowRefused(s: Store, p: Profile): Option<Refusal> {
    if p.id in s.profiles then Some(Taken)
    else if !Resolves(s, p) then Some(Dangling)
    else None
  }

  // ---- Replacing everything ----

  function CoreKey(c: Core): CoreId { c.id }
  function ProxyKey(p: Proxy): ProxyId { p.id }
  function ProfileKey(p: Profile): ProfileId { p.id }
  predicate Any<T>(t: T) { true }

  function Rebuilt(cores: seq<Core>, proxies: seq<Proxy>, profiles: seq<Profile>): Store {
    Store(Upserted(map[], cores, CoreKey, Any), Upserted(map[], proxies, ProxyKey, Any),
          Upserted(map[], profiles, ProfileKey, Any))
  }

  // The lists hold everything the profiles name, and no profile twice.
  predicate Replaceable(cores: seq<Core>, proxies: seq<Proxy>, profiles: seq<Profile>) {
    && DistinctBy(profiles, ProfileKey)
    && (forall p | p in profiles :: Resolves(Rebuilt(cores, proxies, []), p))
  }

  lemma NothingIsReplaceable(cores: seq<Core>, proxies: seq<Proxy>)
    ensures Replaceable(cores, proxies, [])
  {
  }

  lemma OneRowMore(cores: seq<Core>, proxies: seq<Proxy>, profiles: seq<Profile>, i: nat)
    requires i < |profiles| && Replaceable(cores, proxies, profiles[..i])
    ensures RowRefused(Rebuilt(cores, proxies, profiles[..i]), profiles[i]).None?
         <==> Replaceable(cores, proxies, profiles[..i + 1])
    ensures RowRefused(Rebuilt(cores, proxies, profiles[..i]), profiles[i]).Some? ==>
              !Replaceable(cores, proxies, profiles)
  {
    UpsertedKeys(map[], profiles[..i], ProfileKey, Any);
    assert profiles[..i + 1] == profiles[..i] + [profiles[i]];
    assert profiles[i] in profiles && profiles[i] in profiles[..i + 1];
    assert Resolves(Rebuilt(cores, proxies, profiles[..i]), profiles[i])
        == Resolves(Rebuilt(cores, proxies, []), profiles[i]);
    if profiles[i].id in Rebuilt(cores, proxies, profiles[..i]).profiles {
      var q :| q in profiles[..i] && ProfileKey(q) == profiles[i].id;
      var j :| 0 <= j < i && profiles[..i][j] == q;
      assert ProfileKey(profiles[j]) == ProfileKey(profiles[i]);
      assert ProfileKey(profiles[..i + 1][j]) == ProfileKey(profiles[..i + 1][i]);
    }
    forall j | 0 <= j < i && ProfileKey(profiles[j]) == ProfileKey(profiles[i])
      ensures profiles[i].id in Rebuilt(cores, proxies, profiles[..i]).profiles
    {
      assert profiles[..i][j] in profiles[..i];
    }
  }

  // ---- The services ----

  // Everything the services are asked to do. `RewriteCore` is what `redetect` and a core's
  // form come to: other text under an identifier that is already there.
  datatype Change =
    | InsertCore(core: Core) | RewriteCore(core: Core) | DeleteCore(coreId: CoreId)
    | InsertProxy(proxy: Proxy) | UpdateProxy(proxy: Proxy) | DeleteProxy(proxyId: ProxyId)
    | InsertProfile(profile: Profile) | UpdateProfile(profile: Profile) | DeleteProfile(profileId: ProfileId)

  // Why a change is refused, if it is.
  function Answer(rules: Rules, s: Store, change: Change): Option<Refusal> {
    match change
    case InsertCore(core) => if ValidCore(rules, core) then None else Some(Invalid)
    case RewriteCore(core) => if core.id in s.cores then None else Some(NotFound)
    case DeleteCore(id) => if id !in s.cores then Some(NotFound) else if CoreInUse(s, id) then Some(InUse) else None
    case InsertProxy(proxy) => if ValidProxy(rules, proxy) then None else Some(Invalid)
    case UpdateProxy(proxy) =>
      if proxy.id !in s.proxies then Some(NotFound) else if ValidProxy(rules, proxy) then None else Some(Invalid)
    case DeleteProxy(id) => if id !in s.proxies then Some(NotFound) else if ProxyInUse(s, id) then Some(InUse) else None
    case InsertProfile(profile) => if ValidProfile(rules, profile) then RowRefused(s, profile) else Some(Invalid)
    case UpdateProfile(profile) =>
      if !ValidProfile(rules, profile) then Some(Invalid)
      else if profile.id !in s.profiles then Some(NotFound)
      else if !Resolves(s, profile) then Some(Dangling)
      else None
    case DeleteProfile(_) => None
  }

  // The change with nothing in its way.
  function Written(s: Store, change: Change): Store {
    match change
    case InsertCore(core) => s.(cores := s.cores[core.id := core])
    case RewriteCore(core) => s.(cores := s.cores[core.id := core])
    case DeleteCore(id) => s.(cores := s.cores - {id})
    case InsertProxy(proxy) => s.(proxies := s.proxies[proxy.id := proxy])
    case UpdateProxy(proxy) => s.(proxies := s.proxies[proxy.id := proxy])
    case DeleteProxy(id) => s.(proxies := s.proxies - {id})
    case InsertProfile(profile) => s.(profiles := s.profiles[profile.id := profile])
    case UpdateProfile(profile) => s.(profiles := s.profiles[profile.id := profile])
    case DeleteProfile(id) => s.(profiles := s.profiles - {id})
  }

  function After(rules: Rules, s: Store, change: Change): Store {
    if Answer(rules, s, change).None? then Written(s, change) else s
  }

  // No change leaves a reference leading nowhere.
  lemma ChangesKeepReferences(rules: Rules, s: Store, change: Change)
    requires Sound(s)
    ensures Sound(After(rules, s, change))
  {
    hide ValidCore, ValidProxy, ValidProfile;
    if Answer(rules, s, change).None? {
      match change
      case DeleteCore(id) => CoreGone(s, id);
      case DeleteProxy(id) => ProxyGone(s, id);
      case InsertProfile(profile) => RowWritten(s, profile);
      case UpdateProfile(profile) => RowWritten(s, profile);
      case DeleteProfile(_) =>
      case _ => MoreToName(s, Written(s, change));
    }
  }

  lemma CoreGone(s: Store, id: CoreId)
    requires Sound(s) && !CoreInUse(s, id)
    ensures Sound(s.(cores := s.cores - {id}))
  {
    forall k | k in s.profiles ensures Resolves(s.(cores := s.cores - {id}), s.profiles[k]) {
      assert Resolves(s, s.profiles[k]);
    }
  }

  lemma ProxyGone(s: Store, id: ProxyId)
    requires Sound(s) && !ProxyInUse(s, id)
    ensures Sound(s.(proxies := s.proxies - {id}))
  {
    forall k | k in s.profiles ensures Resolves(s.(proxies := s.proxies - {id}), s.profiles[k]) {
      assert Resolves(s, s.profiles[k]);
    }
  }

  lemma RowWritten(s: Store, profile: Profile)
    requires Sound(s) && Resolves(s, profile)
    ensures Sound(s.(profiles := s.profiles[profile.id := profile]))
  {
    var t := s.(profiles := s.profiles[profile.id := profile]);
    forall k | k in t.profiles ensures Resolves(t, t.profiles[k]) {
      assert Resolves(s, t.profiles[k]);
    }
  }

  // Where nothing that can be named goes away, nothing that is named does.
  lemma MoreToName(s: Store, t: Store)
    requires Sound(s) && t.profiles == s.profiles
    requires s.cores.Keys <= t.cores.Keys && s.proxies.Keys <= t.proxies.Keys
    requires (forall k | k in t.cores :: t.cores[k].id == k) && (forall k | k in t.proxies :: t.proxies[k].id == k)
    ensures Sound(t)
  {
    forall k | k in t.profiles ensures Resolves(t, t.profiles[k]) {
      assert Resolves(s, s.profiles[k]);
    }
  }

  // The guards are exact: of a record that is there, deletion is refused precisely when
  // the references would not survive it.
  lemma GuardsAreExact(rules: Rules, s: Store, id: Id)
    requires Sound(s)
    ensures id in s.cores ==> (Answer(rules, s, DeleteCore(id)) == Some(InUse) <==> !Sound(Written(s, DeleteCore(id))))
    ensures id in s.proxies ==>
              (Answer(rules, s, DeleteProxy(id)) == Some(InUse) <==> !Sound(Written(s, DeleteProxy(id))))
  {
  }

  // ---- What the services come to, record by record ----

  datatype Place = CoreAt(id: CoreId) | ProxyAt(id: ProxyId) | ProfileAt(id: ProfileId)

  datatype Record = CoreRecord(core: Core) | ProxyRecord(proxy: Proxy) | ProfileRecord(profile: Profile)

  function Find(s: Store, at: Place): Option<Record> {
    match at
    case CoreAt(id) => if id in s.cores then Some(CoreRecord(s.cores[id])) else None
    case ProxyAt(id) => if id in s.proxies then Some(ProxyRecord(s.proxies[id])) else None
    case ProfileAt(id) => if id in s.profiles then Some(ProfileRecord(s.profiles[id])) else None
  }

  function PlaceOf(change: Change): Place {
    match change
    case InsertCore(core) => CoreAt(core.id)
    case RewriteCore(core) => CoreAt(core.id)
    case DeleteCore(id) => CoreAt(id)
    case InsertProxy(proxy) => ProxyAt(proxy.id)
    case UpdateProxy(proxy) => ProxyAt(proxy.id)
    case DeleteProxy(id) => ProxyAt(id)
    case InsertProfile(profile) => ProfileAt(profile.id)
    case UpdateProfile(profile) => ProfileAt(profile.id)
    case DeleteProfile(id) => ProfileAt(id)
  }

  // What is asked to be there, or nothing of a deletion.
  function AskedFor(change: Change): Option<Record> {
    if change.InsertCore? || change.RewriteCore? then Some(CoreRecord(change.core))
    else if change.InsertProxy? || change.UpdateProxy? then Some(ProxyRecord(change.proxy))
    else if change.InsertProfile? || change.UpdateProfile? then Some(ProfileRecord(change.profile))
    else None
  }

  // A change that is not refused does what was asked, in its place and in no other; one
  // that is refused does nothing.
  lemma EachChangeIsOneRecord(rules: Rules, s: Store, change: Change, at: Place)
    ensures Find(After(rules, s, change), at)
         == if Answer(rules, s, change).None? && at == PlaceOf(change) then AskedFor(change) else Find(s, at)
  {
    hide Answer;
  }

  predicate Proper(rules: Rules, change: Change) {
    match change
    case InsertCore(core) => ValidCore(rules, core)
    case InsertProxy(proxy) => ValidProxy(rules, proxy)
    case UpdateProxy(proxy) => ValidProxy(rules, proxy)
    case InsertProfile(profile) => ValidProfile(rules, profile)
    case UpdateProfile(profile) => ValidProfile(rules, profile)
    case _ => true
  }

  // What is changed or deleted has to be there, but for a profile's deletion; a new profile
  // must not be; new cores and proxies go in over what is there.
  predicate Placed(s: Store, change: Change) {
    var there := Find(s, PlaceOf(change)).Some?;
    if change.InsertProfile? then !there
    else there || change.InsertCore? || change.InsertProxy? || change.DeleteProfile?
  }

  // A change is refused exactly when its record breaks a rule, is not where it has to be, or
  // would leave a reference leading nowhere - and is told which.
  lemma RefusalsAreExact(rules: Rules, s: Store, change: Change)
    requires Sound(s)
    ensures Answer(rules, s, change).None? <==>
              Proper(rules, change) && Placed(s, change) && Sound(Written(s, change))
    ensures match Answer(rules, s, change)
            case None => true
            case Some(Invalid) => !Proper(rules, change)
            case Some(Taken) => change.InsertProfile? && !Placed(s, change)
            case Some(NotFound) => !change.InsertProfile? && !Placed(s, change)
            case Some(Dangling) => AskedFor(change).Some? && Placed(s, change) && !Sound(Written(s, change))
            case Some(InUse) => AskedFor(change).None? && Placed(s, change) && !Sound(Written(s, change))
  {
    hide ValidCore, ValidProxy, ValidProfile, Sound;
    ChangesKeepReferences(rules, s, change);
    if change.DeleteCore? || change.DeleteProxy? {
      GuardsAreExact(rules, s, PlaceOf(change).id);
    }
    if (change.InsertProfile? || change.UpdateProfile?) && !Resolves(s, change.profile) {
      DanglingIsUnsound(s, change.profile);
    }
  }

  lemma DanglingIsUnsound(s: Store, profile: Profile)
    requires !Resolves(s, profile)
    ensures !Sound(s.(profiles := s.profiles[profile.id := profile]))
  {
    var t := s.(profiles := s.profiles[profile.id := profile]);
    assert !Resolves(t, t.profiles[profile.id]);
  }

  // The three services over one database.
  class Services {
    const rules: Rules
    var cores: map<CoreId, Core>
    var proxies: map<ProxyId, Proxy>
    var profiles: map<ProfileId, Profile>

    constructor (rules: Rules, start: Store)
      ensures State() == start && this.rules == rules
    {
      this.rules := rules;
      cores, proxies, profiles := start.cores, start.proxies, start.profiles;
    }

    function State(): Store
      reads this
    {
      Store(cores, proxies, profiles)
    }

    method InsertCore(core: Core) returns (refusal: Option<Refusal>)
      modifies this`cores
      ensures refusal == Answer(rules, old(State()), Change.InsertCore(core))
      ensures State() == After(rules, old(State()), Change.InsertCore(core))
    {
      if !ValidCore(rules, core) {
        return Some(Invalid);
      }
      cores := cores[core.id := core];
      return None;
    }

    // The row goes only while nothing refers to it: the key is a restricting one.
    method RemoveCoreRow(id: CoreId) returns (refusal: Option<Refusal>)
      modifies this`cores
      ensures refusal == if CoreInUse(old(State()), id) then Some(Dangling) else None
      ensures cores == if refusal.None? then old(cores) - {id} else old(cores)
    {
      if CoreInUse(State(), id) {
        return Some(Dangling);
      }
      cores := cores - {id};
      return None;
    }

    // Whatever the database answers is passed on; that it is never `Dangling` is the guard's doing.
    method DeleteCore(id: CoreId) returns (refusal: Option<Refusal>)
      modifies this`cores
      ensures refusal == Answer(rules, old(State()), Change.DeleteCore(id))
      ensures State() == After(rules, old(State()), Change.DeleteCore(id))
    {
      if id !in cores {
        return Some(NotFound);
      }
      if CoreInUse(State(), id) {
        return Some(InUse);
      }
      refusal := RemoveCoreRow(id);
    }

    method InsertProxy(proxy: Proxy) returns (refusal: Option<Refusal>)
      modifies this`proxies
      ensures refusal == Answer(rules, old(State()), Change.InsertProxy(proxy))
      ensures State() == After(rules, old(State()), Change.InsertProxy(proxy))
    {
      if !ValidProxy(rules, proxy) {
        return Some(Invalid);
      }
      proxies := proxies[proxy.id := proxy];
      return None;
    }

    method UpdateProxy(proxy: Proxy) returns (refusal: Option<Refusal>)
      modifies this`proxies
      ensures refusal == Answer(rules, old(State()), Change.UpdateProxy(proxy))
      ensures State() == After(rules, old(State()), Change.UpdateProxy(proxy))
    {
      if proxy.id !in proxies {
        return Some(NotFound);
      }
      refusal := InsertProxy(proxy);
    }

    method RemoveProxyRow(id: ProxyId) returns (refusal: Option<Refusal>)
      modifies this`proxies
      ensures refusal == if ProxyInUse(old(State()), id) then Some(Dangling) else None
      ensures proxies == if refusal.None? then old(proxies) - {id} else old(proxies)
    {
      if ProxyInUse(State(), id) {
        return Some(Dangling);
      }
      proxies := proxies - {id};
      return None;
    }

    method DeleteProxy(id: ProxyId) returns (refusal: Option<Refusal>)
      modifies this`proxies
      ensures refusal == Answer(rules, old(State()), Change.DeleteProxy(id))
      ensures State() == After(rules, old(State()), Change.DeleteProxy(id))
    {
      if id !in proxies {
        return Some(NotFound);
      }
      if ProxyInUse(State(), id) {
        return Some(InUse);
      }
      refusal := RemoveProxyRow(id);
    }

    // `create` and `duplicate` are this under a new identifier.
    method InsertProfile(profile: Profile) returns (refusal: Option<Refusal>)
      modifies this`profiles
      ensures refusal == Answer(rules, old(State()), Change.InsertProfile(profile))
      ensures State() == After(rules, old(State()), Change.InsertProfile(profile))
    {
      if !ValidProfile(rules, profile) {
        return Some(Invalid);
      }
      refusal := RowRefused(State(), profile);
      if refusal.None? {
        profiles := profiles[profile.id := profile];
      }
    }

    method UpdateProfile(profile: Profile) returns (refusal: Option<Refusal>)
      modifies this`profiles
      ensures refusal == Answer(rules, old(State()), Change.UpdateProfile(profile))
      ensures State() == After(rules, old(State()), Change.UpdateProfile(profile))
    {
      if !ValidProfile(rules, profile) {
        return Some(Invalid);
      }
      if profile.id !in profiles {
        return Some(NotFound);
      }
      if !Resolves(State(), profile) {
        return Some(Dangling);
      }
      profiles := profiles[profile.id := profile];
      return None;
    }

    method DeleteProfile(id: ProfileId)
      modifies this`profiles
      ensures State() == After(rules, old(State()), Change.DeleteProfile(id))
    {
      if id in profiles {
        profiles := profiles - {id};
      }
    }

    // The whole configuration at once, in one transaction: the first refused row takes
    // everything back.
    method Replace(newCores: seq<Core>, newProxies: seq<Proxy>, newProfiles: seq<Profile>)
      returns (refusal: Option<Refusal>)
      modifies this
      ensures refusal.None? <==> Replaceable(newCores, newProxies, newProfiles)
      ensures State() == if refusal.None? then Rebuilt(newCores, newProxies, newProfiles) else old(State())
    {
      var rewritten := RecordsSaved(newCores, newProxies);
      var tx;
      tx, refusal := RowsInserted(newCores, newProxies, newProfiles, rewritten);
      if refusal.None? {
        cores, proxies, profiles := tx.cores, tx.proxies, tx.profiles;
      }
    }
  }

  // The transaction up to its profiles: everything deleted, cores and proxies upserted.
  method RecordsSaved(newCores: seq<Core>, newProxies: seq<Proxy>) returns (tx: Store)
    ensures tx == Rebuilt(newCores, newProxies, [])
  {
    tx := EMPTY;
    for i := 0 to |newCores|
      invariant tx == Store(Upserted(map[], newCores[..i], CoreKey, Any), map[], map[])
    {
      UpsertedNext(map[], newCores, i, CoreKey, Any);
      tx := tx.(cores := tx.cores[newCores[i].id := newCores[i]]);
    }
    assert newCores[..|newCores|] == newCores;
    for i := 0 to |newProxies|
      invariant tx == Store(Upserted(map[], newCores, CoreKey, Any),
                            Upserted(map[], newProxies[..i], ProxyKey, Any), map[])
    {
      UpsertedNext(map[], newProxies, i, ProxyKey, Any);
      tx := tx.(proxies := tx.proxies[newProxies[i].id := newProxies[i]]);
    }
    assert newProxies[..|newProxies|] == newProxies;
  }

  method RowsInserted(newCores: seq<Core>, newProxies: seq<Proxy>, newProfiles: seq<Profile>, start: Store)
    returns (tx: Store, refusal: Option<Refusal>)
    requires start == Rebuilt(newCores, newProxies, [])
    ensures refusal.None? <==> Replaceable(newCores, newProxies, newProfiles)
    ensures refusal.None? ==> tx == Rebuilt(newCores, newProxies, newProfiles)
  {
    hide Replaceable;
    tx := start;
    assert newProfiles[..0] == [];
    NothingIsReplaceable(newCores, newProxies);
    for i := 0 to |newProfiles|
      invariant tx == Rebuilt(newCores, newProxies, newProfiles[..i])
      invariant Replaceable(newCores, newProxies, newProfiles[..i])
    {
      refusal := RowRefused(tx, newProfiles[i]);
      OneRowMore(newCores, newProxies, newProfiles, i);
      if refusal.Some? {
        return;
      }
      UpsertedNext(map[], newProfiles, i, ProfileKey, Any);
      tx := tx.(profiles := tx.profiles[newProfiles[i].id := newProfiles[i]]);
    }
    assert newProfiles[..|newProfiles|] == newProfiles;
    refusal := None;
  }
}
