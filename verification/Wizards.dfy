/** The set-up wizards: validation, the configurations they generate, and instance labels. */
module Wizards {
  import opened Util
  import opened Text

  /** `f` is the first position holding `x`. */
  ghost predicate FirstAt(s: seq<string>, x: string, f: nat) {
    f < |s| && s[f] == x && forall k :: 0 <= k < f ==> s[k] != x
  }

  /** Texts that are not blank are pairwise distinct; blank ones do not count. */
  ghost predicate DistinctTexts(s: seq<string>) {
    forall i, j :: 0 <= i < j < |s| && s[i] != "" ==> s[i] != s[j]
  }

  // ---- CoolMaster ----

  datatype CoolEntry = CoolEntry(autoDiscover: bool, host: string, serial: string)
  datatype CoolConfig = CoolConfig(autoDiscover: bool, host: Option<string>, serial: Option<string>)
  datatype CoolError = HostRequired(at: nat) | SameSerial(at: nat, firstAt: nat) | SameHost(at: nat, firstAt: nat)

  function Hosts(es: seq<CoolEntry>): seq<string> {
    seq(|es|, i requires 0 <= i < |es| => Trim(es[i].host))
  }

  function Serials(es: seq<CoolEntry>): seq<string> {
    seq(|es|, i requires 0 <= i < |es| => Trim(es[i].serial))
  }

  /** Repeats an earlier text, and which is the first it repeats. */
  ghost predicate Repeats(s: seq<string>, i: nat, firstAt: nat) {
    firstAt < i < |s| && s[i] != "" && FirstAt(s, s[i], firstAt)
  }

  ghost predicate Complaint(es: seq<CoolEntry>, e: CoolError) {
    match e
    case HostRequired(i) => i < |es| && !es[i].autoDiscover && Hosts(es)[i] == ""
    case SameSerial(i, f) => Repeats(Serials(es), i, f)
    case SameHost(i, f) => Repeats(Hosts(es), i, f)
  }

  /** Where each text was first seen among the first `n`. */
  ghost predicate SeenUpTo(s: seq<string>, n: nat, seen: map<string, nat>)
    requires n <= |s|
  {
    forall x :: if x in seen then x != "" && seen[x] < n && FirstAt(s, x, seen[x])
                else x == "" || x !in s[..n]
  }

  /** Records the text at `n`, or finds where it was first seen. */
  method Note(s: seq<string>, n: nat, seen: map<string, nat>) returns (first: Option<nat>, now: map<string, nat>)
    requires n < |s| && SeenUpTo(s, n, seen)
    ensures SeenUpTo(s, n + 1, now)
    ensures forall f: nat :: Repeats(s, n, f) <==> first == Some(f)
  {
    now := seen;
    first := None;
    assert s[..n + 1] == s[..n] + [s[n]];
    assert forall k :: 0 <= k < n ==> s[..n][k] == s[k] && s[k] in s[..n];
    if s[n] != "" {
      if s[n] in seen { first := Some(seen[s[n]]); } else { now := seen[s[n] := n]; }
    }
  }

  /** The complaints the second loop has come to after `n` entries. */
  ghost predicate FoundUpTo(es: seq<CoolEntry>, n: nat, e: CoolError) {
    match e
    case HostRequired(_) => Complaint(es, e)
    case SameSerial(i, _) => i < n && Complaint(es, e)
    case SameHost(i, _) => i < n && Complaint(es, e)
  }

  lemma FoundNext(es: seq<CoolEntry>, n: nat, serial: Option<nat>, host: Option<nat>, e: CoolError)
    requires n < |es|
    requires forall f: nat :: Repeats(Serials(es), n, f) <==> serial == Some(f)
    requires forall f: nat :: Repeats(Hosts(es), n, f) <==> host == Some(f)
    ensures FoundUpTo(es, n + 1, e) <==>
            || FoundUpTo(es, n, e)
            || (serial.Some? && e == SameSerial(n, serial.value)) || (host.Some? && e == SameHost(n, host.value))
  {
  }

  method MissingHosts(es: seq<CoolEntry>) returns (errors: seq<CoolError>)
    ensures forall e :: e in errors <==> FoundUpTo(es, 0, e)
  {
    errors := [];
    for i := 0 to |es|
      invariant forall e :: e in errors <==> Complaint(es, e) && e.HostRequired? && e.at < i
    {
      if !es[i].autoDiscover && Trim(es[i].host) == "" { errors := errors + [HostRequired(i)]; }
    }
  }

  /** The errors raised are exactly the complaints there are. */
  method ValidateCoolMaster(es: seq<CoolEntry>) returns (errors: seq<CoolError>)
    ensures forall e :: e in errors <==> Complaint(es, e)
  {
    errors := MissingHosts(es);
    var serials: map<string, nat> := map[];
    var hosts: map<string, nat> := map[];
    for i := 0 to |es|
      invariant SeenUpTo(Serials(es), i, serials) && SeenUpTo(Hosts(es), i, hosts)
      invariant forall e :: e in errors <==> FoundUpTo(es, i, e)
    {
      var firstSerial, firstHost;
      firstSerial, serials := Note(Serials(es), i, serials);
      firstHost, hosts := Note(Hosts(es), i, hosts);
      forall e { FoundNext(es, i, firstSerial, firstHost, e); }
      if firstSerial.Some? { errors := errors + [SameSerial(i, firstSerial.value)]; }
      if firstHost.Some? { errors := errors + [SameHost(i, firstHost.value)]; }
    }
  }

  lemma {:induction false} FirstExists(s: seq<string>, x: string, k: nat) returns (f: nat)
    requires k < |s| && s[k] == x
    ensures FirstAt(s, x, f) && f <= k
  {
    f := k;
    if j :| 0 <= j < k && s[j] == x { f := FirstExists(s, x, j); }
  }

  lemma NoRepeatsIff(s: seq<string>)
    ensures (forall i, f :: !Repeats(s, i, f)) <==> DistinctTexts(s)
  {
    if !DistinctTexts(s) {
      var i, j :| 0 <= i < j < |s| && s[i] != "" && s[i] == s[j];
      var f := FirstExists(s, s[j], i);
      assert Repeats(s, j, f);
    }
  }

  ghost predicate CoolValid(es: seq<CoolEntry>) {
    forall e :: !Complaint(es, e)
  }

  lemma CoolValidIff(es: seq<CoolEntry>)
    ensures CoolValid(es) <==>
            && (forall i :: 0 <= i < |es| && !es[i].autoDiscover ==> Hosts(es)[i] != "")
            && DistinctTexts(Serials(es)) && DistinctTexts(Hosts(es))
  {
    NoRepeatsIff(Serials(es));
    NoRepeatsIff(Hosts(es));
    if CoolValid(es) {
      forall i | 0 <= i < |es| && !es[i].autoDiscover ensures Hosts(es)[i] != "" { assert !Complaint(es, HostRequired(i)); }
      forall i, f ensures !Repeats(Serials(es), i, f) { assert !Complaint(es, SameSerial(i, f)); }
      forall i, f ensures !Repeats(Hosts(es), i, f) { assert !Complaint(es, SameHost(i, f)); }
    }
  }

  function Filled(s: string): Option<string> { if s == "" then None else Some(s) }

  function CoolConfigs(es: seq<CoolEntry>): seq<CoolConfig> {
    seq(|es|, i requires 0 <= i < |es| =>
      if es[i].autoDiscover then CoolConfig(true, Filled(Trim(es[i].host)), Filled(Trim(es[i].serial)))
      else CoolConfig(false, Some(Trim(es[i].host)), None))
  }

  /** No two gateways are the same one, and each can be found. */
  ghost predicate CoolGood(cs: seq<CoolConfig>) {
    && (forall i :: 0 <= i < |cs| && !cs[i].autoDiscover ==> cs[i].host.GetOr("") != "")
    && (forall i, j :: 0 <= i < j < |cs| && cs[i].host.Some? ==> cs[i].host != cs[j].host)
    && (forall i, j :: 0 <= i < j < |cs| && cs[i].serial.Some? ==> cs[i].serial != cs[j].serial)
  }

  /** A serial left over in a manual entry, which its configuration does not carry. */
  ghost predicate StaleClash(es: seq<CoolEntry>) {
    exists i, j :: 0 <= i < j < |es| && Serials(es)[i] != "" && Serials(es)[i] == Serials(es)[j] &&
                   !(es[i].autoDiscover && es[j].autoDiscover)
  }

  /** The validator lets through exactly the good configurations, but for left-over serials it takes amiss. */
  lemma CoolValidIffConfigsGood(es: seq<CoolEntry>)
    ensures CoolValid(es) <==> CoolGood(CoolConfigs(es)) && !StaleClash(es)
  {
    CoolValidIff(es);
    var cs, hosts, serials := CoolConfigs(es), Hosts(es), Serials(es);
    forall i | 0 <= i < |es|
      ensures cs[i].host == if es[i].autoDiscover then Filled(hosts[i]) else Some(hosts[i])
      ensures cs[i].serial == if es[i].autoDiscover then Filled(serials[i]) else None
    {
    }
    if CoolGood(cs) && !StaleClash(es) {
      forall i, j | 0 <= i < j < |es| && hosts[i] != "" ensures hosts[i] != hosts[j] {
        assert cs[i].host == Some(hosts[i]) && cs[i].host != cs[j].host;
      }
      forall i, j | 0 <= i < j < |es| && serials[i] != "" ensures serials[i] != serials[j] {
        assert cs[i].serial.Some? ==> cs[i].serial != cs[j].serial;
      }
    }
  }

  /** What each gateway is installed with: what was typed, trimmed; a manual one without any serial. */
  lemma CoolConfigsAre(es: seq<CoolEntry>, i: nat)
    requires i < |es|
    ensures |CoolConfigs(es)| == |es|
    ensures var c := CoolConfigs(es)[i];
            && c.autoDiscover == es[i].autoDiscover
            && (c.host.Some? ==> c.host.value == Trim(es[i].host))
            && (c.host.None? <==> es[i].autoDiscover && Trim(es[i].host) == "")
            && (c.serial.Some? ==> c.serial.value == Trim(es[i].serial))
            && (c.serial.Some? <==> es[i].autoDiscover && Trim(es[i].serial) != "")
  {
  }

  // ---- Casambi, cloud ----

  datatype CloudEntry = CloudEntry(networkId: string, email: string, password: string)
  datatype Shared = Shared(enabled: bool, email: string, password: string)
  datatype CloudConfig = CloudConfig(email: string, password: string, networkId: Option<string>)

  datatype CloudError =
    | NoNetwork | SharedEmail | SharedPassword
    | EmailMissing(at: nat) | PasswordMissing(at: nat) | IdMissing(at: nat) | DuplicateIds

  function Ids(es: seq<CloudEntry>): seq<string> {
    seq(|es|, i requires 0 <= i < |es| => Trim(es[i].networkId))
  }

  ghost predicate CloudComplaint(es: seq<CloudEntry>, shared: Shared, e: CloudError) {
    match e
    case NoNetwork => es == []
    case SharedEmail => shared.enabled && Trim(shared.email) == ""
    case SharedPassword => shared.enabled && Trim(shared.password) == ""
    case EmailMissing(i) => i < |es| && !shared.enabled && Trim(es[i].email) == ""
    case PasswordMissing(i) => i < |es| && !shared.enabled && Trim(es[i].password) == ""
    case IdMissing(i) => i < |es| && shared.enabled && |es| > 1 && Trim(es[i].networkId) == ""
    case DuplicateIds => shared.enabled && !DistinctTexts(Ids(es))
  }

  /** The first position holding `x`. */
  function IndexOf(s: seq<string>, x: string): (r: Option<nat>)
    ensures r.Some? ==> r.value < |s| && s[r.value] == x && forall i :: 0 <= i < r.value ==> s[i] != x
    ensures r.None? <==> x !in s
  {
    if s == [] then None
    else if s[0] == x then Some(0)
    else
      var rest := IndexOf(s[1..], x);
      if rest.Some? then Some(rest.value + 1) else None
  }

  /** `ids.filter((id, i) => ids.indexOf(id) !== i)` is not empty. */
  predicate HasRepeat(s: seq<string>) {
    exists i :: 0 <= i < |s| && s[i] != "" && IndexOf(s, s[i]) != Some(i)
  }

  lemma HasRepeatIff(s: seq<string>)
    ensures HasRepeat(s) <==> !DistinctTexts(s)
  {
    if !DistinctTexts(s) {
      var i, j :| 0 <= i < j < |s| && s[i] != "" && s[i] == s[j];
      assert IndexOf(s, s[j]) != Some(j);
    }
    if HasRepeat(s) {
      var i :| 0 <= i < |s| && s[i] != "" && IndexOf(s, s[i]) != Some(i);
      assert s[IndexOf(s, s[i]).value] == s[i];
    }
  }

  method ValidateCloud(es: seq<CloudEntry>, shared: Shared) returns (errors: seq<CloudError>)
    ensures forall e :: e in errors <==> CloudComplaint(es, shared, e)
  {
    errors := [];
    if |es| < 1 { errors := errors + [NoNetwork]; }
    if shared.enabled {
      if Trim(shared.email) == "" { errors := errors + [SharedEmail]; }
      if Trim(shared.password) == "" { errors := errors + [SharedPassword]; }
    }
    for i := 0 to |es|
      invariant forall e :: e in errors <==>
        && CloudComplaint(es, shared, e) && !e.DuplicateIds?
        && (e.EmailMissing? || e.PasswordMissing? || e.IdMissing? ==> e.at < i)
    {
      if !shared.enabled {
        if Trim(es[i].email) == "" { errors := errors + [EmailMissing(i)]; }
        if Trim(es[i].password) == "" { errors := errors + [PasswordMissing(i)]; }
      }
      if |es| > 1 && shared.enabled && Trim(es[i].networkId) == "" { errors := errors + [IdMissing(i)]; }
    }
    HasRepeatIff(Ids(es));
    if shared.enabled && HasRepeat(Ids(es)) { errors := errors + [DuplicateIds]; }
  }

  ghost predicate CloudValid(es: seq<CloudEntry>, shared: Shared) {
    forall e :: !CloudComplaint(es, shared, e)
  }

  function CloudConfigs(es: seq<CloudEntry>, shared: Shared): seq<CloudConfig> {
    seq(|es|, i requires 0 <= i < |es| =>
      CloudConfig(Trim(if shared.enabled then shared.email else es[i].email),
                  if shared.enabled then shared.password else es[i].password,
                  Filled(Trim(es[i].networkId))))
  }

  /** Every network has credentials; networks sharing an account are told apart by their ids. */
  ghost predicate CloudGood(cs: seq<CloudConfig>, oneAccount: bool) {
    && cs != []
    && (forall i :: 0 <= i < |cs| ==> cs[i].email != "" && Trim(cs[i].password) != "")
    && (oneAccount && |cs| > 1 ==>
          && (forall i :: 0 <= i < |cs| ==> cs[i].networkId.Some?)
          && (forall i, j :: 0 <= i < j < |cs| ==> cs[i].networkId != cs[j].networkId))
  }

  /** Shared credentials reach every network, and otherwise each has its own; an id is sent if there is one. */
  lemma CloudConfigsAre(es: seq<CloudEntry>, shared: Shared)
    ensures |CloudConfigs(es, shared)| == |es|
    ensures forall i :: 0 <= i < |es| ==>
              var c := CloudConfigs(es, shared)[i];
              && c.networkId == Filled(Ids(es)[i])
              && (c.networkId.Some? <==> Trim(es[i].networkId) != "")
              && (c.networkId.Some? ==> c.networkId.value == Trim(es[i].networkId))
              && (if shared.enabled then c.email == Trim(shared.email) && c.password == shared.password
                  else c.email == Trim(es[i].email) && c.password == es[i].password)
  {
  }

  lemma DistinctIds(cs: seq<CloudConfig>, ids: seq<string>)
    requires |cs| == |ids| && DistinctTexts(ids)
    requires forall i :: 0 <= i < |ids| ==> cs[i].networkId == Filled(ids[i]) && cs[i].networkId.Some?
    ensures forall i, j :: 0 <= i < j < |cs| ==> cs[i].networkId != cs[j].networkId
  {
    forall i, j | 0 <= i < j < |cs| ensures cs[i].networkId != cs[j].networkId {
      assert ids[i] != "" && ids[i] != ids[j];
    }
  }

  lemma CloudSound(es: seq<CloudEntry>, shared: Shared)
    requires CloudValid(es, shared)
    ensures CloudGood(CloudConfigs(es, shared), shared.enabled)
  {
    var cs, ids := CloudConfigs(es, shared), Ids(es);
    CloudConfigsAre(es, shared);
    assert !CloudComplaint(es, shared, NoNetwork) && !CloudComplaint(es, shared, DuplicateIds);
    assert !CloudComplaint(es, shared, SharedEmail) && !CloudComplaint(es, shared, SharedPassword);
    forall i | 0 <= i < |cs|
      ensures cs[i].email != "" && Trim(cs[i].password) != ""
      ensures shared.enabled && |cs| > 1 ==> cs[i].networkId.Some?
    {
      assert !CloudComplaint(es, shared, EmailMissing(i)) && !CloudComplaint(es, shared, PasswordMissing(i));
      assert !CloudComplaint(es, shared, IdMissing(i));
    }
    if shared.enabled && |cs| > 1 { DistinctIds(cs, ids); }
  }

  lemma CloudComplete(es: seq<CloudEntry>, shared: Shared, e: CloudError)
    requires CloudGood(CloudConfigs(es, shared), shared.enabled)
    ensures !CloudComplaint(es, shared, e)
  {
    var cs, ids := CloudConfigs(es, shared), Ids(es);
    CloudConfigsAre(es, shared);
    match e
    case NoNetwork =>
    case SharedEmail => assert cs[0].email != "";
    case SharedPassword => assert Trim(cs[0].password) != "";
    case EmailMissing(i) => if i < |es| { assert cs[i].email != ""; }
    case PasswordMissing(i) => if i < |es| { assert Trim(cs[i].password) != ""; }
    case IdMissing(i) => if i < |es| && |es| > 1 && shared.enabled { assert cs[i].networkId.Some?; }
    case DuplicateIds =>
      if shared.enabled {
        forall i, j | 0 <= i < j < |ids| && ids[i] != "" ensures ids[i] != ids[j] {
          assert cs[i].networkId != cs[j].networkId;
        }
      }
  }

  /** The validator is sound and complete for the configurations it guards. */
  lemma CloudValidIffConfigsGood(es: seq<CloudEntry>, shared: Shared)
    ensures CloudValid(es, shared) <==> CloudGood(CloudConfigs(es, shared), shared.enabled)
  {
    if CloudValid(es, shared) { CloudSound(es, shared); }
    if CloudGood(CloudConfigs(es, shared), shared.enabled) {
      forall e ensures !CloudComplaint(es, shared, e) { CloudComplete(es, shared, e); }
    }
  }

  // ---- Casambi, local gateways ----

  /** Every text as typed. */
  datatype Gateway = Gateway(ip: string, restPort: string, user: string, password: string, udpPort: string)
  datatype LocalConfig = LocalConfig(ip: string, restPort: int, user: string, password: string, udpPort: int)

  datatype Field = Ip | RestPort | User | Password | UdpPort
  datatype LocalError = NoGateway | Missing(at: nat, field: Field) | SameAddress

  /** Reads a trimmed text as a port number; no number is written with a colon. */
  ghost predicate ReadsNumbers(parse: string -> Option<int>) {
    forall s :: parse(s).Some? ==> s != "" && ':' !in s
  }

  predicate Lacks(g: Gateway, f: Field, parse: string -> Option<int>) {
    match f
    case Ip => Trim(g.ip) == ""
    case RestPort => parse(Trim(g.restPort)).None?
    case User => Trim(g.user) == ""
    case Password => Trim(g.password) == ""
    case UdpPort => parse(Trim(g.udpPort)).None?
  }

  /** The address gateways are compared by; one with neither part does not count. */
  function Address(g: Gateway): string {
    if Trim(g.ip) == "" && Trim(g.udpPort) == "" then "" else Trim(g.ip) + ":" + Trim(g.udpPort)
  }

  function Addresses(gs: seq<Gateway>): seq<string> {
    seq(|gs|, i requires 0 <= i < |gs| => Address(gs[i]))
  }

  ghost predicate LocalComplaint(gs: seq<Gateway>, parse: string -> Option<int>, e: LocalError) {
    match e
    case NoGateway => gs == []
    case Missing(i, f) => i < |gs| && Lacks(gs[i], f, parse)
    case SameAddress => !DistinctTexts(Addresses(gs))
  }

  method FieldErrors(g: Gateway, i: nat, parse: string -> Option<int>) returns (errors: seq<LocalError>)
    ensures forall e :: e in errors <==> e.Missing? && e.at == i && Lacks(g, e.field, parse)
  {
    errors := [];
    if Lacks(g, Ip, parse) { errors := errors + [Missing(i, Ip)]; }
    if Lacks(g, RestPort, parse) { errors := errors + [Missing(i, RestPort)]; }
    if Lacks(g, User, parse) { errors := errors + [Missing(i, User)]; }
    if Lacks(g, Password, parse) { errors := errors + [Missing(i, Password)]; }
    if Lacks(g, UdpPort, parse) { errors := errors + [Missing(i, UdpPort)]; }
    forall e ensures e in errors <==> e.Missing? && e.at == i && Lacks(g, e.field, parse) {
      if e.Missing? && e.at == i {
        assert e == Missing(i, e.field);
        match e.field
        case Ip =>
        case RestPort =>
        case User =>
        case Password =>
        case UdpPort =>
      }
    }
  }

  method ValidateLocal(gs: seq<Gateway>, parse: string -> Option<int>) returns (errors: seq<LocalError>)
    ensures forall e :: e in errors <==> LocalComplaint(gs, parse, e)
  {
    errors := if |gs| < 1 then [NoGateway] else [];
    for i := 0 to |gs|
      invariant forall e :: e in errors <==>
        LocalComplaint(gs, parse, e) && !e.SameAddress? && (e.Missing? ==> e.at < i)
    {
      var more := FieldErrors(gs[i], i, parse);
      errors := errors + more;
    }
    HasRepeatIff(Addresses(gs));
    if HasRepeat(Addresses(gs)) { errors := errors + [SameAddress]; }
  }

  ghost predicate LocalValid(gs: seq<Gateway>, parse: string -> Option<int>) {
    forall e :: !LocalComplaint(gs, parse, e)
  }

  ghost predicate AllFilled(gs: seq<Gateway>, parse: string -> Option<int>) {
    forall i, f :: 0 <= i < |gs| ==> !Lacks(gs[i], f, parse)
  }

  /** A gateway is filled in when it has an address, a user, a password and two ports that read as numbers. */
  lemma FilledMeans(g: Gateway, parse: string -> Option<int>)
    ensures (forall f :: !Lacks(g, f, parse)) <==>
            && Trim(g.ip) != "" && Trim(g.user) != "" && Trim(g.password) != ""
            && parse(Trim(g.restPort)).Some? && parse(Trim(g.udpPort)).Some?
  {
    if forall f :: !Lacks(g, f, parse) {
      assert !Lacks(g, Ip, parse) && !Lacks(g, RestPort, parse) && !Lacks(g, User, parse);
      assert !Lacks(g, Password, parse) && !Lacks(g, UdpPort, parse);
    }
  }

  lemma AddressInjective(a: string, p: string, b: string, q: string)
    requires ':' !in p && ':' !in q && a + ":" + p == b + ":" + q
    ensures a == b && p == q
  {
    var s := a + ":" + p;
    assert forall k :: |a| < k < |s| ==> s[k] == p[k - |a| - 1] && s[k] != ':';
    assert forall k :: |b| < k < |s| ==> s[k] == q[k - |b| - 1] && s[k] != ':';
    assert s[|a|] == ':' && s[|b|] == ':';
    assert |a| == |b|;
    assert s[..|a|] == a && s[|a| + 1..] == p;
  }

  /** Valid means: something is set up, everything is filled in, and no two gateways agree in both texts. */
  lemma LocalValidIff(gs: seq<Gateway>, parse: string -> Option<int>)
    requires ReadsNumbers(parse)
    ensures LocalValid(gs, parse) <==>
            gs != [] && AllFilled(gs, parse) &&
            forall i, j :: 0 <= i < j < |gs| ==> Trim(gs[i].ip) != Trim(gs[j].ip) || Trim(gs[i].udpPort) != Trim(gs[j].udpPort)
  {
    if LocalValid(gs, parse) {
      assert !LocalComplaint(gs, parse, NoGateway) && !LocalComplaint(gs, parse, SameAddress);
      forall i, f | 0 <= i < |gs| ensures !Lacks(gs[i], f, parse) { assert !LocalComplaint(gs, parse, Missing(i, f)); }
    }
    if AllFilled(gs, parse) {
      forall i, j | 0 <= i < j < |gs|
        ensures Addresses(gs)[i] != "" && (Addresses(gs)[i] == Addresses(gs)[j] <==>
                Trim(gs[i].ip) == Trim(gs[j].ip) && Trim(gs[i].udpPort) == Trim(gs[j].udpPort))
      {
        assert !Lacks(gs[i], Ip, parse) && !Lacks(gs[i], UdpPort, parse);
        assert !Lacks(gs[j], Ip, parse) && !Lacks(gs[j], UdpPort, parse);
        if Addresses(gs)[i] == Addresses(gs)[j] {
          AddressInjective(Trim(gs[i].ip), Trim(gs[i].udpPort), Trim(gs[j].ip), Trim(gs[j].udpPort));
        }
      }
    }
  }

  function LocalConfigs(gs: seq<Gateway>, parse: string -> Option<int>): seq<LocalConfig> {
    seq(|gs|, i requires 0 <= i < |gs| =>
      LocalConfig(Trim(gs[i].ip), parse(Trim(gs[i].restPort)).GetOr(0), Trim(gs[i].user), gs[i].password,
                  parse(Trim(gs[i].udpPort)).GetOr(0)))
  }

  /** What each gateway is installed with, once all its fields are filled. */
  lemma LocalConfigsAre(gs: seq<Gateway>, parse: string -> Option<int>, i: nat)
    requires i < |gs| && AllFilled(gs, parse)
    ensures |LocalConfigs(gs, parse)| == |gs|
    ensures var c, g := LocalConfigs(gs, parse)[i], gs[i];
            && c.ip == Trim(g.ip) && c.user == Trim(g.user) && c.password == g.password
            && Some(c.restPort) == parse(Trim(g.restPort)) && Some(c.udpPort) == parse(Trim(g.udpPort))
  {
    assert !Lacks(gs[i], RestPort, parse) && !Lacks(gs[i], UdpPort, parse);
  }

  /** The same port of one gateway, written in two ways. */
  ghost predicate Aliases(g: Gateway, h: Gateway, parse: string -> Option<int>) {
    && Trim(g.ip) == Trim(h.ip) && Trim(g.udpPort) != Trim(h.udpPort)
    && parse(Trim(g.udpPort)) == parse(Trim(h.udpPort))
  }

  /** Sockets of a valid wizard collide exactly when a port is written in two ways, as 80 and 080. */
  lemma LocalSocketsDistinctIff(gs: seq<Gateway>, parse: string -> Option<int>)
    requires ReadsNumbers(parse) && LocalValid(gs, parse)
    ensures var cs := LocalConfigs(gs, parse);
            (forall i, j :: 0 <= i < j < |cs| ==> cs[i].ip != cs[j].ip || cs[i].udpPort != cs[j].udpPort) <==>
            (forall i, j :: 0 <= i < j < |gs| ==> !Aliases(gs[i], gs[j], parse))
  {
    var cs := LocalConfigs(gs, parse);
    LocalValidIff(gs, parse);
    forall i, j | 0 <= i < j < |gs|
      ensures cs[i].ip == cs[j].ip && cs[i].udpPort == cs[j].udpPort <==> Aliases(gs[i], gs[j], parse)
    {
      assert !Lacks(gs[i], UdpPort, parse) && !Lacks(gs[j], UdpPort, parse);
    }
  }

  /** Digits read as a number, anything else as none. */
  function ReadDigits(s: string): Option<int> {
    if s != "" && (forall i :: 0 <= i < |s| ==> IsDigit(s[i])) then Some(Number(s)) else None
  }

  lemma DigitsReadNumbers()
    ensures ReadsNumbers(ReadDigits)
  {
    forall s | ReadDigits(s).Some? ensures s != "" && ':' !in s {
    }
  }

  lemma {:induction false} LeadingZero(s: string)
    requires forall i :: 0 <= i < |s| ==> IsDigit(s[i])
    ensures Number("0" + s) == Number(s)
  {
    if s == "" {
      assert "0"[..0] == "";
    } else {
      var n := |s| - 1;
      LeadingZero(s[..n]);
      assert ("0" + s)[..n + 1] == "0" + s[..n] && ("0" + s)[n + 1] == s[n];
    }
  }

  /** Any gateway that is valid alone has such an alias: itself again, with a nought before the port. */
  lemma PaddedPortCollides(g: Gateway)
    requires LocalValid([g], ReadDigits)
    ensures var h := g.(udpPort := "0" + Trim(g.udpPort));
            var cs := LocalConfigs([g, h], ReadDigits);
            && LocalValid([g, h], ReadDigits) && Aliases(g, h, ReadDigits)
            && cs[0].ip == cs[1].ip && cs[0].udpPort == cs[1].udpPort
  {
    var port := Trim(g.udpPort);
    var h := g.(udpPort := "0" + port);
    DigitsReadNumbers();
    LocalValidIff([g], ReadDigits);
    forall f ensures !Lacks(g, f, ReadDigits) { assert [g][0] == g && !Lacks([g][0], f, ReadDigits); }
    assert !Lacks(g, UdpPort, ReadDigits);
    assert IsTrimmed("0" + port);
    assert Trim(h.udpPort) == "0" + port;
    LeadingZero(port);
    forall i, f | 0 <= i < 2 ensures !Lacks([g, h][i], f, ReadDigits) {
      assert !Lacks(g, f, ReadDigits);
    }
    assert |"0" + port| != |port|;
    LocalValidIff([g, h], ReadDigits);
  }

  /** As 80 and 080. */
  lemma EightyCollides()
    ensures exists gs: seq<Gateway> ::
      && |gs| == 2 && gs[0].udpPort == "80" && gs[1].udpPort == "080" && LocalValid(gs, ReadDigits)
      && LocalConfigs(gs, ReadDigits)[0].udpPort == LocalConfigs(gs, ReadDigits)[1].udpPort
      && LocalConfigs(gs, ReadDigits)[0].ip == LocalConfigs(gs, ReadDigits)[1].ip
  {
    var g := Gateway("10.0.0.2", "80", "admin", "secret", "80");
    assert IsTrimmed(g.ip) && IsTrimmed("80") && IsTrimmed("admin") && IsTrimmed("secret");
    DigitsReadNumbers();
    forall i, f | 0 <= i < 1 ensures !Lacks([g][i], f, ReadDigits) {
      match f
      case Ip => assert Trim(g.ip) == g.ip;
      case RestPort => assert Trim("80") == "80";
      case User => assert Trim("admin") == "admin";
      case Password => assert Trim("secret") == "secret";
      case UdpPort => assert Trim("80") == "80";
    }
    LocalValidIff([g], ReadDigits);
    PaddedPortCollides(g);
    var gs := [g, g.(udpPort := "0" + Trim(g.udpPort))];
    assert "0" + "80" == "080";
    assert gs[1].udpPort == "080";
  }

  // ---- Casambi, labels ----

  datatype Mode = Cloud | Local

  function Noun(m: Mode): (s: string)
    ensures |s| == 8
  {
    if m == Cloud then "Network " else "Gateway "
  }

  function Labels(m: Mode, count: nat, existing: nat): seq<Option<string>> {
    if existing == 0 && count == 1 then [None]
    else seq(count, i requires 0 <= i < count => Some(Noun(m) + Decimal(existing + i + 1)))
  }

  lemma LabelInjective(m: Mode, n: Mode, a: nat, b: nat)
    ensures Noun(m) + Decimal(a) == Noun(n) + Decimal(b) <==> m == n && a == b
  {
    if Noun(m) + Decimal(a) == Noun(n) + Decimal(b) {
      assert (Noun(m) + Decimal(a))[8..] == Decimal(a) && (Noun(n) + Decimal(b))[8..] == Decimal(b);
      DecimalInjective(a, b);
      assert (Noun(m) + Decimal(a))[0] == Noun(m)[0] && (Noun(n) + Decimal(b))[0] == Noun(n)[0];
    }
  }

  predicate Lone(count: nat, existing: nat) { existing == 0 && count == 1 }

  /** Two submissions share a label exactly when they number overlapping instances of the same mode. */
  lemma LabelsClashIff(m: Mode, c: nat, e: nat, n: Mode, d: nat, f: nat)
    ensures (exists i, j :: 0 <= i < c && 0 <= j < d && Labels(m, c, e)[i].Some? && Labels(m, c, e)[i] == Labels(n, d, f)[j]) <==>
            m == n && c > 0 && d > 0 && e < f + d && f < e + c && !Lone(c, e) && !Lone(d, f)
  {
    forall i, j | 0 <= i < c && 0 <= j < d && !Lone(c, e) && !Lone(d, f)
      ensures Labels(m, c, e)[i] == Labels(n, d, f)[j] <==> m == n && e + i == f + j
    {
      LabelInjective(m, n, e + i + 1, f + j + 1);
    }
    if m == n && c > 0 && d > 0 && e < f + d && f < e + c && !Lone(c, e) && !Lone(d, f) {
      var i, j := if e < f then f - e else 0, if f < e then e - f else 0;
      assert Labels(m, c, e)[i].Some? && Labels(m, c, e)[i] == Labels(n, d, f)[j];
    }
  }

  /** A lone first instance has no label; any other is called by its mode and by its number among all there are. */
  lemma LabelsAre(m: Mode, count: nat, existing: nat, i: nat)
    requires i < count
    ensures |Labels(m, count, existing)| == count
    ensures Labels(m, count, existing)[i] ==
              if existing == 0 && count == 1 then None
              else if m == Cloud then Some("Network " + Decimal(existing + i + 1))
              else Some("Gateway " + Decimal(existing + i + 1))
  {
    if !Lone(count, existing) {
      assert Labels(m, count, existing)[i] == Some(Noun(m) + Decimal(existing + i + 1));
    }
  }

  datatype Submission = Submission(mode: Mode, count: nat)

  /** All labels handed out by successive submissions, nothing being removed in between. */
  function AllLabels(runs: seq<Submission>, existing: nat): seq<Option<string>> {
    if runs == [] then []
    else Labels(runs[0].mode, runs[0].count, existing) + AllLabels(runs[1..], existing + runs[0].count)
  }

  /** The label of the instance that became number `k`. */
  ghost predicate Numbered(tag: Option<string>, k: nat) {
    tag.Some? ==> exists m: Mode :: tag.value == Noun(m) + Decimal(k)
  }

  lemma {:induction false} LabelsNumbered(runs: seq<Submission>, existing: nat)
    ensures forall p :: 0 <= p < |AllLabels(runs, existing)| ==>
              Numbered(AllLabels(runs, existing)[p], existing + p + 1) &&
              (AllLabels(runs, existing)[p].None? ==> existing + p == 0)
    decreases |runs|
  {
    if runs != [] {
      var here, there := Labels(runs[0].mode, runs[0].count, existing), AllLabels(runs[1..], existing + runs[0].count);
      LabelsNumbered(runs[1..], existing + runs[0].count);
      assert |here| == runs[0].count;
      forall p | 0 <= p < |here| + |there|
        ensures Numbered((here + there)[p], existing + p + 1) && ((here + there)[p].None? ==> existing + p == 0)
      {
        if p >= |here| { assert (here + there)[p] == there[p - |here|]; }
      }
    }
  }

  /** While nothing is removed no two instances ever carry the same label, and at most one carries none. */
  lemma LabelsNeverRepeat(runs: seq<Submission>, existing: nat)
    ensures Distinct(AllLabels(runs, existing))
  {
    LabelsNumbered(runs, existing);
    var all := AllLabels(runs, existing);
    forall i, j | 0 <= i < j < |all| ensures all[i] != all[j] {
      if all[i].Some? && all[j].Some? {
        var m: Mode :| all[i].value == Noun(m) + Decimal(existing + i + 1);
        var n: Mode :| all[j].value == Noun(n) + Decimal(existing + j + 1);
        LabelInjective(m, n, existing + i + 1, existing + j + 1);
      }
    }
  }

  /** Removing an instance frees its number but not the last one: after two, minus one, the next is again number two. */
  lemma RemovalRepeatsALabel(m: Mode)
    ensures Labels(m, 2, 0)[1] == Labels(m, 1, 1)[0] && Labels(m, 1, 1)[0].Some?
  {
  }

  // ---- how many ----

  /** `None` is what is typed when it is not a number. */
  function ClampCount(n: Option<real>): (r: nat)
    ensures 1 <= r <= 100
    ensures n.Some? && 1.0 <= n.value < 101.0 ==> r == n.value.Floor
    ensures n.None? || n.value < 1.0 ==> r == 1
    ensures n.Some? && n.value >= 101.0 ==> r == 100
  {
    var whole := if n.None? || n.value.Floor == 0 then 1 else n.value.Floor;
    var capped := if whole > 100 then 100 else whole;
    if capped < 1 then 1 else capped
  }

  /** Entries that stay keep what was typed; new ones are blank and discover their gateway. */
  function Resize(cur: seq<CoolEntry>, n: Option<real>): (r: seq<CoolEntry>)
    ensures |r| == ClampCount(n)
    ensures if |r| <= |cur| then r <= cur else cur <= r && forall i :: |cur| <= i < |r| ==> r[i] == CoolEntry(true, "", "")
  {
    seq(ClampCount(n), i requires 0 <= i < ClampCount(n) => if i < |cur| then cur[i] else CoolEntry(true, "", ""))
  }

  /** So changing the count never makes a valid wizard invalid. */
  lemma ResizeKeepsValid(cur: seq<CoolEntry>, n: Option<real>)
    requires CoolValid(cur)
    ensures CoolValid(Resize(cur, n))
  {
    var r := Resize(cur, n);
    CoolValidIff(cur);
    CoolValidIff(r);
    forall i | 0 <= i < |r|
      ensures Hosts(r)[i] == if i < |cur| then Hosts(cur)[i] else ""
      ensures Serials(r)[i] == if i < |cur| then Serials(cur)[i] else ""
    {
    }
  }
}
