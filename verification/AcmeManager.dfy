/** The certificate map of the ACME manager: how certificates are loaded, obtained, renewed and announced. */
module AcmeManager {
  import opened Wrappers
  import CertificateNames

  datatype CertificateInfo = CertificateInfo(
    domains: seq<string>, certPath: string, keyPath: string, expiresAt: int, isValid: bool)

  datatype CertEvent =
    | Installed(domain: string, certPath: string, keyPath: string)
    | Renewed(domain: string, certPath: string, keyPath: string)

  /** One insertion into the map, and the event that announces it. */
  datatype Change = Change(domain: string, info: CertificateInfo, renewed: bool)

  datatype GetResult = Ok(info: CertificateInfo) | NotEnabled | NoDomain | AcmeFailed

  type Certificates = map<string, CertificateInfo>

  function EventOf(change: Change): CertEvent {
    if change.renewed then Renewed(change.domain, change.info.certPath, change.info.keyPath)
    else Installed(change.domain, change.info.certPath, change.info.keyPath)
  }

  function Events(changes: seq<Change>): seq<CertEvent> {
    seq(|changes|, k requires 0 <= k < |changes| => EventOf(changes[k]))
  }

  function Applied(certificates: Certificates, changes: seq<Change>): Certificates {
    if changes == [] then certificates
    else
      var last := changes[|changes| - 1];
      Applied(certificates, changes[..|changes| - 1])[last.domain := last.info]
  }

  lemma AppliedAppend(certificates: Certificates, changes: seq<Change>, change: Change)
    ensures Applied(certificates, changes + [change]) == Applied(certificates, changes)[change.domain := change.info]
    ensures Events(changes + [change]) == Events(changes) + [EventOf(change)]
  {
  }

  lemma {:induction false} AppliedConcat(certificates: Certificates, first: seq<Change>, second: seq<Change>)
    ensures Applied(certificates, first + second) == Applied(Applied(certificates, first), second)
    ensures Events(first + second) == Events(first) + Events(second)
    decreases |second|
  {
    if second == [] {
      assert first + second == first;
    } else {
      var n := |second| - 1;
      AppliedConcat(certificates, first, second[..n]);
      assert (first + second)[..|first| + n] == first + second[..n];
    }
  }

  predicate Changes(changes: seq<Change>, domain: string) {
    exists k :: 0 <= k < |changes| && changes[k].domain == domain
  }

  lemma {:induction false} AppliedElsewhere(certificates: Certificates, changes: seq<Change>, domain: string)
    requires !Changes(changes, domain)
    ensures domain in Applied(certificates, changes) <==> domain in certificates
    ensures domain in certificates ==> Applied(certificates, changes)[domain] == certificates[domain]
    decreases |changes|
  {
    if changes != [] {
      var n := |changes| - 1;
      assert changes[n].domain != domain;
      forall k | 0 <= k < n ensures changes[..n][k].domain != domain {
        assert changes[k].domain != domain;
      }
      AppliedElsewhere(certificates, changes[..n], domain);
    }
  }

  predicate Due(info: CertificateInfo, now: int, renewalDays: nat) {
    CertificateNames.NeedsRenewal(info.expiresAt, info.isValid, now, renewalDays)
  }

  /** In dates: a certificate is due from `renewalDays` times 24 hours before its end on, and at any time if it is not
      valid. */
  lemma DueByDate(certificates: Certificates, now: int, renewalDays: nat)
    ensures forall k :: k in certificates ==> var info := certificates[k];
      Due(info, now, renewalDays) <==> info.expiresAt - now <= 86_400_000_000_000 * renewalDays || !info.isValid
  {
  }

  predicate Covers(info: CertificateInfo, domain: string) {
    CertificateNames.CoversDomain(info.domains, domain)
  }

  /** The keys whose certificates cover the domain. */
  function Covering(certificates: Certificates, domain: string): set<string> {
    set k | k in certificates && Covers(certificates[k], domain)
  }

  /** `get_certificate`: a covering certificate that is not due is handed out and nothing changes; otherwise one
      is obtained, inserted and announced. Which of several covering certificates is looked at is open. */
  ghost predicate GetPass(
    certificates: Certificates, domain: string, now: int, renewalDays: nat, obtained: Option<CertificateInfo>,
    result: GetResult, changes: seq<Change>)
  {
    var covering := Covering(certificates, domain);
    if covering == {} then Obtains(domain, false, obtained, result, changes)
    else exists k :: k in covering && GetWith(certificates[k], domain, now, renewalDays, obtained, result, changes)
  }

  predicate GetWith(
    covering: CertificateInfo, domain: string, now: int, renewalDays: nat, obtained: Option<CertificateInfo>,
    result: GetResult, changes: seq<Change>)
  {
    if Due(covering, now, renewalDays) then Obtains(domain, true, obtained, result, changes)
    else result == Ok(covering) && changes == []
  }

  /** No certificate covers the domain but such as are not valid or near their end. */
  ghost predicate AllLate(certificates: Certificates, domain: string, now: int, renewalDays: nat) {
    forall k :: k in certificates && CertificateNames.CoversDomain(certificates[k].domains, domain) ==>
      certificates[k].expiresAt - now <= 86_400_000_000_000 * renewalDays || !certificates[k].isValid
  }

  lemma GetByDate(
    certificates: Certificates, domain: string, now: int, renewalDays: nat, obtained: Option<CertificateInfo>,
    result: GetResult, changes: seq<Change>)
    requires GetPass(certificates, domain, now, renewalDays, obtained, result, changes)
    ensures result.Ok? && changes == [] ==>
      exists k :: k in certificates && result.info == certificates[k]
        && CertificateNames.CoversDomain(result.info.domains, domain)
        && result.info.expiresAt - now > 86_400_000_000_000 * renewalDays && result.info.isValid
    ensures AllLate(certificates, domain, now, renewalDays) ==>
      Obtains(domain, exists k :: k in certificates && CertificateNames.CoversDomain(certificates[k].domains, domain),
        obtained, result, changes)
    ensures changes != [] ==> |changes| == 1 && changes[0].domain == domain && result == Ok(changes[0].info)
    ensures |changes| == 1 ==> Applied(certificates, changes) == certificates[domain := changes[0].info]
    ensures |changes| == 1 ==> Events(changes) == [EventOf(changes[0])]
    ensures changes == [] ==> Applied(certificates, changes) == certificates && Events(changes) == []
  {
    hide CertificateNames.CoversDomain;
    DueByDate(certificates, now, renewalDays);
    var covering := Covering(certificates, domain);
    if k :| k in certificates && CertificateNames.CoversDomain(certificates[k].domains, domain) {
      assert k in covering;
    }
    if |changes| == 1 {
      assert changes[..0] == [];
    }
  }

  lemma CoveredPass(
    certificates: Certificates, domain: string, now: int, renewalDays: nat, obtained: Option<CertificateInfo>,
    result: GetResult, changes: seq<Change>, k: string)
    requires k in Covering(certificates, domain)
    requires GetWith(certificates[k], domain, now, renewalDays, obtained, result, changes)
    ensures GetPass(certificates, domain, now, renewalDays, obtained, result, changes)
  {
  }

  lemma UncoveredPass(
    certificates: Certificates, domain: string, now: int, renewalDays: nat, obtained: Option<CertificateInfo>)
    requires Covering(certificates, domain) == {}
    ensures match obtained
      case None => GetPass(certificates, domain, now, renewalDays, obtained, AcmeFailed, [])
      case Some(info) =>
        GetPass(certificates, domain, now, renewalDays, obtained, Ok(info), [Change(domain, info, false)])
  {
  }

  lemma NoChange(certificates: Certificates)
    ensures Applied(certificates, []) == certificates && Events([]) == []
  {
  }

  predicate Obtains(
    domain: string, renewal: bool, obtained: Option<CertificateInfo>, result: GetResult, changes: seq<Change>)
  {
    match obtained
    case None => result == AcmeFailed && changes == []
    case Some(info) => result == Ok(info) && changes == [Change(domain, info, renewal)]
  }

  /** Everything in the map stands under the first name of its certificate. */
  predicate KeyedByPrimary(certificates: Certificates) {
    forall k :: k in certificates ==> certificates[k].domains != [] && certificates[k].domains[0] == k
  }

  /** A certificate file and its key file in the certificate directory; `parsed` is `None` if they cannot be read. */
  datatype FilePair = FilePair(certPath: string, keyPath: string, parsed: Option<CertificateInfo>)

  function Unreadable(found: seq<FilePair>): seq<FilePair> {
    if found == [] then []
    else
      var init, last := Unreadable(found[..|found| - 1]), found[|found| - 1];
      if last.parsed.None? then init + [last] else init
  }

  lemma {:induction false} UnreadableIff(found: seq<FilePair>)
    ensures forall pair :: pair in Unreadable(found) <==> pair in found && pair.parsed.None?
    decreases |found|
  {
    if found != [] {
      var n := |found| - 1;
      UnreadableIff(found[..n]);
      assert forall pair :: pair in found <==> pair in found[..n] || pair == found[n];
    }
  }

  predicate FoundIn(found: seq<FilePair>, info: CertificateInfo) {
    exists i :: 0 <= i < |found| && found[i].parsed == Some(info)
  }

  predicate Kept(before: Certificates, domain: string, after: Certificates) {
    domain in before && domain in after && after[domain] == before[domain]
  }

  /** What the outside world answers during one pass, by the number of the attempt. */
  datatype World = World(
    now: int,
    directoriesOk: nat -> bool,
    certificatesOnDisk: nat -> seq<FilePair>,
    obtained: nat -> Option<CertificateInfo>)
  {
    predicate Succeeds(attempt: nat) {
      directoriesOk(attempt) && obtained(attempt).Some?
    }
  }

  /** A pass replaces no certificate that is not due. */
  predicate SparesValid(certificates: Certificates, changes: seq<Change>, now: int, renewalDays: nat) {
    forall d :: d in certificates && !Due(certificates[d], now, renewalDays) ==> !Changes(changes, d)
  }

  predicate MayReplace(certificates: Certificates, domain: string, now: int, renewalDays: nat) {
    domain in certificates ==> Due(certificates[domain], now, renewalDays)
  }

  lemma ChangesAppend(changes: seq<Change>, change: Change, domain: string)
    ensures Changes(changes + [change], domain) <==> Changes(changes, domain) || change.domain == domain
  {
    var more := changes + [change];
    assert more[|changes|] == change;
    if Changes(changes, domain) {
      var k :| 0 <= k < |changes| && changes[k].domain == domain;
      assert more[k].domain == domain;
    }
  }

  /** One more change, of a domain that has no certificate or one that is due, at first or by now. */
  lemma SparesValidStill(
    certificates: Certificates, changes: seq<Change>, change: Change, now: int, renewalDays: nat)
    requires SparesValid(certificates, changes, now, renewalDays)
    requires MayReplace(certificates, change.domain, now, renewalDays)
      || MayReplace(Applied(certificates, changes), change.domain, now, renewalDays)
    ensures SparesValid(certificates, changes + [change], now, renewalDays)
  {
    forall d | d in certificates && !Due(certificates[d], now, renewalDays) ensures !Changes(changes + [change], d) {
      assert !Changes(changes, d);
      AppliedElsewhere(certificates, changes, d);
      ChangesAppend(changes, change, d);
    }
  }

  /** Every domain whose attempt went well has a certificate. */
  predicate Acquired(domains: seq<string>, world: World, certificates: Certificates) {
    forall i :: 0 <= i < |domains| ==>
      domains[i] != "default" && world.Succeeds(i) ==> domains[i] in certificates
  }

  class AcmeManager {
    const enabled: bool
    const renewalDays: nat
    var certificates: Certificates
    var pendingDomains: seq<string>
    /** What the channel has taken since the subscription. */
    var events: seq<CertEvent>

    constructor (enabled: bool, renewalDays: nat)
      ensures this.enabled == enabled && this.renewalDays == renewalDays
      ensures certificates == map[] && pendingDomains == [] && events == []
    {
      this.enabled, this.renewalDays := enabled, renewalDays;
      certificates, pendingDomains, events := map[], [], [];
    }

    method AddPendingDomains(domains: seq<string>)
      modifies this`pendingDomains
      ensures pendingDomains == old(pendingDomains) + domains
    {
      pendingDomains := pendingDomains + domains;
    }

    /** `load_existing_certificates`; `removed` are the file pairs that it deletes. */
    method LoadExistingCertificates(found: seq<FilePair>) returns (removed: seq<FilePair>)
      modifies this`certificates
      ensures KeyedByPrimary(old(certificates)) ==> KeyedByPrimary(certificates)
      ensures forall k :: k in certificates ==>
        FoundIn(found, certificates[k]) || Kept(old(certificates), k, certificates)
      ensures forall i :: 0 <= i < |found| && found[i].parsed.Some? && found[i].parsed.value.domains != [] ==>
        found[i].parsed.value.domains[0] in certificates
      ensures removed == Unreadable(found)
      ensures forall pair :: pair in removed <==> pair in found && pair.parsed.None?
    {
      UnreadableIff(found);
      removed := [];
      for i := 0 to |found|
        invariant KeyedByPrimary(old(certificates)) ==> KeyedByPrimary(certificates)
        invariant forall k :: k in certificates ==>
          FoundIn(found, certificates[k]) || Kept(old(certificates), k, certificates)
        invariant forall j :: 0 <= j < i && found[j].parsed.Some? && found[j].parsed.value.domains != [] ==>
          found[j].parsed.value.domains[0] in certificates
        invariant removed == Unreadable(found[..i])
      {
        assert found[..i + 1][..i] == found[..i];
        match found[i].parsed {
          case Some(info) =>
            if info.domains != [] {
              certificates := certificates[info.domains[0] := info];
            }
          case None =>
            removed := removed + [found[i]];
        }
      }
      assert found[..|found|] == found;
    }

    /** An insertion into the map and its event; `before` are the earlier changes of the same pass. */
    method Announce(change: Change, before: seq<Change>, ghost initial: Certificates, ghost sent: seq<CertEvent>)
      returns (changes: seq<Change>)
      requires certificates == Applied(initial, before) && events == sent + Events(before)
      modifies this`certificates, this`events
      ensures changes == before + [change]
      ensures certificates == Applied(initial, changes) && events == sent + Events(changes)
      ensures certificates == old(certificates)[change.domain := change.info]
      ensures events == old(events) + [
        if change.renewed then Renewed(change.domain, change.info.certPath, change.info.keyPath)
        else Installed(change.domain, change.info.certPath, change.info.keyPath)]
    {
      AppliedAppend(initial, before, change);
      certificates := certificates[change.domain := change.info];
      events := events + [EventOf(change)];
      changes := before + [change];
    }

    /** `get_certificate` */
    method GetCertificate(domains: seq<string>, now: int, obtained: Option<CertificateInfo>)
      returns (result: GetResult, changes: seq<Change>)
      modifies this`certificates, this`events
      ensures certificates == Applied(old(certificates), changes) && events == old(events) + Events(changes)
      ensures if !enabled then result == NotEnabled && changes == []
              else if domains == [] then result == NoDomain && changes == []
              else GetPass(old(certificates), domains[0], now, renewalDays, obtained, result, changes)
      ensures enabled && domains != [] && result.Ok? && certificates == old(certificates) && events == old(events) ==>
        exists k :: k in certificates && result.info == certificates[k]
          && CertificateNames.CoversDomain(result.info.domains, domains[0])
          && result.info.expiresAt - now > 86_400_000_000_000 * renewalDays && result.info.isValid
      ensures enabled && domains != [] && obtained.Some? && AllLate(old(certificates), domains[0], now, renewalDays) ==>
        && result == Ok(obtained.value) && certificates == old(certificates)[domains[0] := obtained.value]
        && events == old(events) + [
             if exists k :: k in old(certificates)
                 && CertificateNames.CoversDomain(old(certificates)[k].domains, domains[0])
             then Renewed(domains[0], obtained.value.certPath, obtained.value.keyPath)
             else Installed(domains[0], obtained.value.certPath, obtained.value.keyPath)]
      ensures enabled && domains != [] && obtained.None? && AllLate(old(certificates), domains[0], now, renewalDays) ==>
        result == AcmeFailed && certificates == old(certificates) && events == old(events)
    {
      result, changes := GetOrObtain(domains, now, obtained);
      DueByDate(old(certificates), now, renewalDays);
      if enabled && domains != [] {
        GetByDate(old(certificates), domains[0], now, renewalDays, obtained, result, changes);
      }
    }

    method GetOrObtain(domains: seq<string>, now: int, obtained: Option<CertificateInfo>)
      returns (result: GetResult, changes: seq<Change>)
      modifies this`certificates, this`events
      ensures certificates == Applied(old(certificates), changes) && events == old(events) + Events(changes)
      ensures if !enabled then result == NotEnabled && changes == []
              else if domains == [] then result == NoDomain && changes == []
              else GetPass(old(certificates), domains[0], now, renewalDays, obtained, result, changes)
    {
      hide Covers, Due, GetPass, Applied, Events;
      changes := [];
      NoChange(certificates);
      if !enabled {
        return NotEnabled, changes;
      }
      if domains == [] {
        return NoDomain, changes;
      }
      var domain := domains[0];
      var isRenewal := false;
      var covering := Covering(certificates, domain);
      if covering != {} {
        var k :| k in covering;
        if !Due(certificates[k], now, renewalDays) {
          result := Ok(certificates[k]);
          CoveredPass(certificates, domain, now, renewalDays, obtained, result, changes, k);
          return result, changes;
        }
        isRenewal := true;
        CoveredPass(certificates, domain, now, renewalDays, None, AcmeFailed, changes, k);
        if obtained.Some? {
          CoveredPass(certificates, domain, now, renewalDays, obtained, Ok(obtained.value),
            [Change(domain, obtained.value, true)], k);
        }
      } else {
        UncoveredPass(certificates, domain, now, renewalDays, obtained);
      }
      if obtained.None? {
        return AcmeFailed, changes;
      }
      changes := Announce(Change(domain, obtained.value, isRenewal), [], certificates, events);
      assert changes == [Change(domain, obtained.value, isRenewal)];
      return Ok(obtained.value), changes;
    }

    /** An acquisition by a manager of its own, which reads the disk first and whose events nobody hears. */
    method AcquireApart(
      domain: string, found: seq<FilePair>, now: int, obtained: Option<CertificateInfo>)
      returns (result: GetResult)
      ensures enabled && obtained.Some? ==> result.Ok?
      ensures !enabled ==> result == NotEnabled
      ensures result.Ok? ==>
        || Some(result.info) == obtained
        || (FoundIn(found, result.info) && Covers(result.info, domain) && !Due(result.info, now, renewalDays))
    {
      var manager := new AcmeManager(enabled, renewalDays);
      var removed := manager.LoadExistingCertificates(found);
      var announced;
      result, announced := manager.GetCertificate([domain], now, obtained);
    }

    /** The first half of a daily pass: every pending domain is taken off the list, and one that has no
        certificate, or one that is due, gets one. */
    method AcquirePending(world: World) returns (changes: seq<Change>)
      modifies this
      ensures pendingDomains == []
      ensures certificates == Applied(old(certificates), changes) && events == old(events) + Events(changes)
      ensures SparesValid(old(certificates), changes, world.now, renewalDays)
      ensures forall k :: 0 <= k < |changes| ==>
        changes[k].domain in old(pendingDomains) && changes[k].domain != "default" && !changes[k].renewed
      ensures enabled ==> Acquired(old(pendingDomains), world, certificates)
      ensures forall d :: d in old(certificates) ==> var info := old(certificates)[d];
        info.isValid && info.expiresAt - world.now > 86_400_000_000_000 * renewalDays ==> !Changes(changes, d)
    {
      DueByDate(old(certificates), world.now, renewalDays);
      var domains := pendingDomains;
      pendingDomains := [];
      changes := [];
      for i := 0 to |domains|
        invariant pendingDomains == []
        invariant certificates == Applied(old(certificates), changes) && events == old(events) + Events(changes)
        invariant SparesValid(old(certificates), changes, world.now, renewalDays)
        invariant forall k :: 0 <= k < |changes| ==>
          changes[k].domain in domains && changes[k].domain != "default" && !changes[k].renewed
        invariant enabled ==> Acquired(domains[..i], world, certificates)
      {
        var domain := domains[i];
        if domain == "default" {
          continue;
        }
        if domain in certificates && !Due(certificates[domain], world.now, renewalDays) {
          continue;
        }
        if !world.directoriesOk(i) {
          continue;
        }
        var result := AcquireApart(domain, world.certificatesOnDisk(i), world.now, world.obtained(i));
        if result.Ok? {
          var change := Change(domain, result.info, false);
          SparesValidStill(old(certificates), changes, change, world.now, renewalDays);
          changes := Announce(change, changes, old(certificates), old(events));
        }
      }
    }

    /** The second half of a daily pass: every certificate that is due by now is tried once, in any order; those
        whose attempt goes well are renewed. */
    method RenewDue(world: World, firstAttempt: nat) returns (changes: seq<Change>, tried: seq<string>)
      modifies this`certificates, this`events
      ensures certificates == Applied(old(certificates), changes) && events == old(events) + Events(changes)
      ensures TriesDue(old(certificates), tried, world.now, renewalDays)
      ensures changes == Renewals(tried, world, firstAttempt)
      ensures SparesValid(old(certificates), changes, world.now, renewalDays)
      ensures certificates.Keys == old(certificates).Keys
      ensures forall d :: d in tried ==> d in old(certificates)
      ensures forall d :: d in old(certificates) ==> var info := old(certificates)[d];
        d in tried <==> info.expiresAt - world.now <= 86_400_000_000_000 * renewalDays || !info.isValid
      ensures forall k :: 0 <= k < |changes| ==> changes[k].renewed && changes[k].domain in tried
    {
      changes, tried := RenewEach(world, firstAttempt);
      DueByDate(old(certificates), world.now, renewalDays);
      RenewalsAreRenewed(tried, world, firstAttempt);
    }

    method RenewEach(world: World, firstAttempt: nat) returns (changes: seq<Change>, tried: seq<string>)
      modifies this`certificates, this`events
      ensures certificates == Applied(old(certificates), changes) && events == old(events) + Events(changes)
      ensures TriesDue(old(certificates), tried, world.now, renewalDays)
      ensures changes == Renewals(tried, world, firstAttempt)
      ensures SparesValid(old(certificates), changes, world.now, renewalDays)
      ensures certificates.Keys == old(certificates).Keys
    {
      hide Due, Applied, Events, SparesValid, TriesDue;
      NothingTried(certificates, world.now, renewalDays);
      var due := set d | d in certificates && Due(certificates[d], world.now, renewalDays);
      changes, tried := [], [];
      while due != {}
        invariant due <= old(certificates).Keys && certificates.Keys == old(certificates).Keys
        invariant TriesDue(old(certificates) - due, tried, world.now, renewalDays)
        invariant forall d :: d in due ==> Due(old(certificates)[d], world.now, renewalDays)
        invariant certificates == Applied(old(certificates), changes) && events == old(events) + Events(changes)
        invariant changes == Renewals(tried, world, firstAttempt)
        invariant SparesValid(old(certificates), changes, world.now, renewalDays)
        decreases due
      {
        var domain :| domain in due;
        ghost var before, left := tried, due;
        var attempt := firstAttempt + |tried|;
        due := due - {domain};
        tried := tried + [domain];
        assert tried[..|before|] == before;
        if world.directoriesOk(attempt) && world.obtained(attempt).Some? {
          var change := Change(domain, world.obtained(attempt).value, true);
          SparesValidStill(old(certificates), changes, change, world.now, renewalDays);
          changes := Announce(change, changes, old(certificates), old(events));
        }
        assert due + {domain} == left;
        OneMoreTried(old(certificates), before, domain, due, world.now, renewalDays);
      }
      assert old(certificates) - {} == old(certificates);
    }

    /** One round of the renewal task: no certificate that was not due is touched, everything that changes is
        announced in order, and each attempt that goes well takes effect. */
    method DailyPass(world: World) returns (changes: seq<Change>, tried: seq<string>)
      modifies this
      ensures pendingDomains == []
      ensures certificates == Applied(old(certificates), changes) && events == old(events) + Events(changes)
      ensures SparesValid(old(certificates), changes, world.now, renewalDays)
      ensures forall d :: d in certificates ==> d in old(certificates) || d in old(pendingDomains)
      ensures enabled ==> Acquired(old(pendingDomains), world, certificates)
      ensures forall j :: 0 <= j < |tried| && world.Succeeds(|old(pendingDomains)| + j) ==>
        Change(tried[j], world.obtained(|old(pendingDomains)| + j).value, true) in changes
      ensures forall d :: d in old(certificates) ==> var info := old(certificates)[d];
        if info.expiresAt - world.now <= 86_400_000_000_000 * renewalDays || !info.isValid then
          d in tried || d in old(pendingDomains)
        else d in certificates && certificates[d] == info
    {
      hide Due, Applied, Events, SparesValid;
      var attempts := |pendingDomains|;
      var acquired := AcquirePending(world);
      ghost var mid := certificates;
      var renewed;
      renewed, tried := RenewDue(world, attempts);
      changes := acquired + renewed;
      AppliedConcat(old(certificates), acquired, renewed);
      DailyPassSparesValid(old(certificates), acquired, renewed, world.now, renewalDays);
      forall d | d in mid && d !in old(pendingDomains)
        ensures d in old(certificates) && mid[d] == old(certificates)[d]
      {
        AcquiredElsewhere(old(certificates), acquired, old(pendingDomains), d);
      }
      forall d | d in old(certificates) && d !in old(pendingDomains) ensures d in mid {
        AcquiredElsewhere(old(certificates), acquired, old(pendingDomains), d);
      }
      SparedStays(old(certificates), changes, world.now, renewalDays);
      forall j | 0 <= j < |tried| && world.Succeeds(attempts + j)
        ensures Change(tried[j], world.obtained(attempts + j).value, true) in changes
      {
        RenewalTakesEffect(tried, world, attempts, j);
      }
    }

    /** `run_startup_acquisition_after`: only domains without a certificate of their own are acquired; each of them
        whose attempt goes well has one afterwards, or was covered by one that is not due. */
    method RunStartupAcquisition(world: World) returns (changes: seq<Change>)
      modifies this
      ensures pendingDomains == []
      ensures certificates == Applied(old(certificates), changes) && events == old(events) + Events(changes)
      ensures forall k :: 0 <= k < |changes| ==>
        && changes[k].domain in old(pendingDomains) && changes[k].domain != "default"
        && changes[k].domain !in old(certificates)
      ensures enabled ==> forall i :: 0 <= i < |old(pendingDomains)| && world.obtained(i).Some? ==>
        Served(certificates, old(pendingDomains)[i], world.now, renewalDays)
    {
      hide GetPass, Served, Applied, Events;
      NoChange(certificates);
      var domains := pendingDomains;
      pendingDomains := [];
      changes := [];
      for i := 0 to |domains|
        invariant pendingDomains == []
        invariant old(certificates).Keys <= certificates.Keys
        invariant certificates == Applied(old(certificates), changes) && events == old(events) + Events(changes)
        invariant forall k :: 0 <= k < |changes| ==>
          && changes[k].domain in domains && changes[k].domain != "default" && changes[k].domain !in old(certificates)
        invariant enabled ==> forall j :: 0 <= j < i && world.obtained(j).Some? ==>
          Served(certificates, domains[j], world.now, renewalDays)
      {
        var domain := domains[i];
        if domain != "default" && domain !in certificates {
          ghost var before := certificates;
          var result, more := GetCertificate([domain], world.now, world.obtained(i));
          AppliedConcat(old(certificates), changes, more);
          changes := changes + more;
          AcquisitionServes(before, domain, world.now, renewalDays, world.obtained(i), enabled, result, more);
        } else {
          ServedAlready(certificates, domain, world.now, renewalDays);
        }
      }
    }
  }

  /** The domain has a certificate, or one that is not due covers it; the pseudo-domain "default" needs none. */
  predicate Served(certificates: Certificates, domain: string, now: int, renewalDays: nat) {
    || domain == "default" || domain in certificates
    || exists k :: k in certificates && Covers(certificates[k], domain) && !Due(certificates[k], now, renewalDays)
  }

  lemma ServedAlready(certificates: Certificates, domain: string, now: int, renewalDays: nat)
    requires domain == "default" || domain in certificates
    ensures Served(certificates, domain, now, renewalDays)
  {
  }

  lemma AcquisitionServes(
    certificates: Certificates, domain: string, now: int, renewalDays: nat, obtained: Option<CertificateInfo>,
    enabled: bool, result: GetResult, changes: seq<Change>)
    requires domain !in certificates
    requires enabled ==> GetPass(certificates, domain, now, renewalDays, obtained, result, changes)
    requires !enabled ==> changes == []
    ensures var after := Applied(certificates, changes);
      && (forall d :: d in certificates ==> d in after && after[d] == certificates[d])
      && (forall d :: Served(certificates, d, now, renewalDays) ==> Served(after, d, now, renewalDays))
      && (enabled && obtained.Some? ==> Served(after, domain, now, renewalDays))
      && (forall k :: 0 <= k < |changes| ==> changes[k].domain == domain)
  {
    hide Served, Applied;
    if changes != [] {
      assert changes == [] + [changes[0]];
      AppliedAppend(certificates, [], changes[0]);
    }
    NoChange(certificates);
    var after := Applied(certificates, changes);
    forall d | Served(certificates, d, now, renewalDays) ensures Served(after, d, now, renewalDays) {
      ServedStill(certificates, after, d, now, renewalDays);
    }
    if enabled && obtained.Some? {
      if changes == [] {
        CoveredIsServed(certificates, domain, now, renewalDays, obtained, result);
      } else {
        ServedAlready(after, domain, now, renewalDays);
      }
    }
  }

  lemma ServedStill(certificates: Certificates, after: Certificates, domain: string, now: int, renewalDays: nat)
    requires forall d :: d in certificates ==> d in after && after[d] == certificates[d]
    requires Served(certificates, domain, now, renewalDays)
    ensures Served(after, domain, now, renewalDays)
  {
    hide Covers, Due;
    if domain != "default" && domain !in certificates {
      var k :| k in certificates && Covers(certificates[k], domain) && !Due(certificates[k], now, renewalDays);
      assert after[k] == certificates[k];
    }
  }

  lemma CoveredIsServed(
    certificates: Certificates, domain: string, now: int, renewalDays: nat, obtained: Option<CertificateInfo>,
    result: GetResult)
    requires obtained.Some? && GetPass(certificates, domain, now, renewalDays, obtained, result, [])
    ensures Served(certificates, domain, now, renewalDays)
  {
    hide Covers, Due;
  }

  /** `tried` holds each certificate that is due, once. */
  ghost predicate TriesDue(certificates: Certificates, tried: seq<string>, now: int, renewalDays: nat) {
    && (forall d :: d in tried <==> d in certificates && Due(certificates[d], now, renewalDays))
    && (forall i, j :: 0 <= i < j < |tried| ==> tried[i] != tried[j])
  }

  lemma NothingTried(certificates: Certificates, now: int, renewalDays: nat)
    ensures var due := set d | d in certificates && Due(certificates[d], now, renewalDays);
      TriesDue(certificates - due, [], now, renewalDays)
    ensures SparesValid(certificates, [], now, renewalDays)
    ensures Applied(certificates, []) == certificates && Events([]) == []
  {
  }

  lemma OneMoreTried(
    certificates: Certificates, tried: seq<string>, domain: string, due: set<string>, now: int, renewalDays: nat)
    requires domain in certificates && Due(certificates[domain], now, renewalDays) && domain !in due
    requires TriesDue(certificates - (due + {domain}), tried, now, renewalDays)
    ensures TriesDue(certificates - due, tried + [domain], now, renewalDays)
  {
    forall d ensures d in tried + [domain] <==> d in certificates - due && Due(certificates[d], now, renewalDays) {
      assert d in tried + [domain] <==> d in tried || d == domain;
    }
    assert domain !in tried;
  }

  /** The changes that the attempts for `tried` bring, in order. */
  function Renewals(tried: seq<string>, world: World, firstAttempt: nat): seq<Change> {
    if tried == [] then []
    else
      var n := |tried| - 1;
      var init := Renewals(tried[..n], world, firstAttempt);
      if world.Succeeds(firstAttempt + n) then
        init + [Change(tried[n], world.obtained(firstAttempt + n).value, true)]
      else init
  }

  lemma {:induction false} RenewalsAreRenewed(tried: seq<string>, world: World, firstAttempt: nat)
    ensures forall k :: 0 <= k < |Renewals(tried, world, firstAttempt)| ==>
      var change := Renewals(tried, world, firstAttempt)[k]; change.renewed && change.domain in tried
    decreases |tried|
  {
    if tried != [] {
      RenewalsAreRenewed(tried[..|tried| - 1], world, firstAttempt);
    }
  }

  lemma {:induction false} RenewalTakesEffect(tried: seq<string>, world: World, firstAttempt: nat, j: nat)
    requires j < |tried| && world.Succeeds(firstAttempt + j)
    ensures Change(tried[j], world.obtained(firstAttempt + j).value, true) in Renewals(tried, world, firstAttempt)
    decreases |tried|
  {
    if j < |tried| - 1 {
      RenewalTakesEffect(tried[..|tried| - 1], world, firstAttempt, j);
    }
  }

  lemma AcquiredElsewhere(certificates: Certificates, acquired: seq<Change>, pending: seq<string>, domain: string)
    requires forall k :: 0 <= k < |acquired| ==> acquired[k].domain in pending
    requires domain !in pending
    ensures domain in Applied(certificates, acquired) <==> domain in certificates
    ensures domain in certificates ==> Applied(certificates, acquired)[domain] == certificates[domain]
  {
    AppliedElsewhere(certificates, acquired, domain);
  }

  lemma SparedStays(certificates: Certificates, changes: seq<Change>, now: int, renewalDays: nat)
    requires SparesValid(certificates, changes, now, renewalDays)
    ensures forall d :: d in certificates ==> var info := certificates[d];
      info.expiresAt - now <= 86_400_000_000_000 * renewalDays || !info.isValid
      || (d in Applied(certificates, changes) && Applied(certificates, changes)[d] == info)
  {
    hide Applied;
    forall d | d in certificates && !Due(certificates[d], now, renewalDays)
      ensures d in Applied(certificates, changes) && Applied(certificates, changes)[d] == certificates[d]
    {
      AppliedElsewhere(certificates, changes, d);
    }
  }

  lemma DailyPassSparesValid(
    certificates: Certificates, acquired: seq<Change>, renewed: seq<Change>, now: int, renewalDays: nat)
    requires SparesValid(certificates, acquired, now, renewalDays)
    requires SparesValid(Applied(certificates, acquired), renewed, now, renewalDays)
    ensures SparesValid(certificates, acquired + renewed, now, renewalDays)
  {
    forall d | d in certificates && !Due(certificates[d], now, renewalDays) ensures !Changes(acquired + renewed, d) {
      AppliedElsewhere(certificates, acquired, d);
      assert !Changes(acquired, d) && !Changes(renewed, d);
      forall k | 0 <= k < |acquired + renewed| ensures (acquired + renewed)[k].domain != d {
        if k >= |acquired| {
          assert renewed[k - |acquired|].domain != d;
        }
      }
    }
  }
}
