/** The TLS side: the per-domain acceptors and their configurations, and the listener that keeps them up to date
    with the ACME manager's events. */
module CertificateManager {
  import opened Wrappers
  import opened AcmeManager

  datatype TlsConfig = TlsConfig(certPath: string, keyPath: string, autoSsl: bool)

  /** An acceptor: the configuration it was built from, and which generation of those files was loaded. */
  datatype Acceptor = Acceptor(config: TlsConfig, generation: nat)

  /** The files at one moment: the configurations that load, with the generation of their files, and the
      certificates in a chain file. */
  datatype Disk = Disk(generations: map<TlsConfig, nat>, chain: string -> Option<seq<string>>)

  type TlsConfigs = map<string, TlsConfig>
  type Acceptors = map<string, Acceptor>

  /** All but the leaf, if there is more. */
  function Intermediates(disk: Disk, certPath: string): (chain: Option<seq<string>>)
    ensures chain.Some? <==> disk.chain(certPath).Some? && |disk.chain(certPath).value| >= 2
    ensures chain.Some? ==>
      && |chain.value| == |disk.chain(certPath).value| - 1
      && forall i :: 0 <= i < |chain.value| ==> chain.value[i] == disk.chain(certPath).value[i + 1]
  {
    match disk.chain(certPath)
    case Some(chain) => if |chain| > 1 then Some(chain[1..]) else None
    case None => None
  }

  function PathsOf(info: CertificateInfo): TlsConfig {
    TlsConfig(info.certPath, info.keyPath, false)
  }

  function PathsIn(event: CertEvent): TlsConfig {
    TlsConfig(event.certPath, event.keyPath, false)
  }

  /** What became of an event of the channel: the generation that was loaded, a failed reload, an event for a domain
      that is not configured, or one that the channel dropped. */
  datatype Fate = Reloaded(generation: nat) | ReloadFailed | Ignored | Lost

  /** The acceptors after one event of a known fate. */
  function Delivered(tls: Acceptors, event: CertEvent, fate: Fate): Acceptors {
    if fate.Reloaded? then tls[event.domain := Acceptor(PathsIn(event), fate.generation)] else tls
  }

  function DeliveredAll(tls: Acceptors, events: seq<CertEvent>, fates: seq<Fate>): Acceptors
    requires |fates| == |events|
  {
    if events == [] then tls
    else
      var n := |events| - 1;
      Delivered(DeliveredAll(tls, events[..n], fates[..n]), events[n], fates[n])
  }

  /** What the listener makes of an event that it gets. */
  function FateOf(event: CertEvent, configured: set<string>, generations: map<TlsConfig, nat>): Fate {
    if event.domain !in configured then Ignored
    else if PathsIn(event) in generations then Reloaded(generations[PathsIn(event)])
    else ReloadFailed
  }

  class CertificateManager {
    var certificates: Acceptors
    var tlsConfigs: TlsConfigs
    var domainIntermediates: map<string, seq<string>>

    /** The three maps agree: each domain's acceptor was built from its configuration, and intermediates are kept
        only for such domains. */
    predicate Valid()
      reads this
    {
      && certificates.Keys == tlsConfigs.Keys
      && (forall d :: d in tlsConfigs ==> certificates[d].config == tlsConfigs[d])
      && domainIntermediates.Keys <= tlsConfigs.Keys
      && (forall d :: d in domainIntermediates ==> domainIntermediates[d] != [])
    }

    /** `CertificateManager::new`, after the default certificate: what loads is installed, with its intermediates
        unless it is a bootstrap certificate. */
    constructor (sslConfigs: map<string, Option<TlsConfig>>, disk: Disk)
      ensures Valid()
      ensures forall d :: d in certificates <==>
        d in sslConfigs && sslConfigs[d].Some? && sslConfigs[d].value in disk.generations
      ensures forall d :: d in certificates ==>
        InstalledFrom(sslConfigs[d].value, disk, certificates[d], IntermediatesAt(domainIntermediates, d))
    {
      certificates, tlsConfigs, domainIntermediates := map[], map[], map[];
      new;
      hide Intermediates;
      var left := sslConfigs.Keys;
      while left != {}
        invariant Valid() && left <= sslConfigs.Keys
        invariant forall d :: d in certificates <==>
          d in sslConfigs && d !in left && sslConfigs[d].Some? && sslConfigs[d].value in disk.generations
        invariant forall d :: d in certificates ==>
          InstalledFrom(sslConfigs[d].value, disk, certificates[d], IntermediatesAt(domainIntermediates, d))
        decreases left
      {
        var domain :| domain in left;
        left := left - {domain};
        if sslConfigs[domain].Some? && sslConfigs[domain].value in disk.generations {
          InstallFirst(domain, sslConfigs[domain].value, disk);
        }
      }
    }

    /** What `new` does for a configuration that loads. */
    method InstallFirst(domain: string, config: TlsConfig, disk: Disk)
      requires Valid() && domain !in certificates && config in disk.generations
      modifies this
      ensures Valid() && certificates == old(certificates)[domain := Acceptor(config, disk.generations[config])]
      ensures forall d :: d != domain ==>
        IntermediatesAt(domainIntermediates, d) == IntermediatesAt(old(domainIntermediates), d)
      ensures IntermediatesAt(domainIntermediates, domain) ==
        if config.autoSsl then None else Intermediates(disk, config.certPath)
    {
      certificates := certificates[domain := Acceptor(config, disk.generations[config])];
      tlsConfigs := tlsConfigs[domain := config];
      var intermediates := Intermediates(disk, config.certPath);
      if !config.autoSsl && intermediates.Some? {
        domainIntermediates := domainIntermediates[domain := intermediates.value];
      }
    }

    /** `reload_domain_certificate_with_paths`: a configuration that does not load changes nothing. */
    method ReloadDomainCertificateWithPaths(domain: string, certPath: string, keyPath: string, disk: Disk)
      returns (ok: bool)
      requires Valid()
      modifies this
      ensures Valid() && ok == (TlsConfig(certPath, keyPath, false) in disk.generations)
      ensures var config := TlsConfig(certPath, keyPath, false);
        certificates ==
          if ok then old(certificates)[domain := Acceptor(config, disk.generations[config])] else old(certificates)
      ensures domainIntermediates ==
        if !ok then old(domainIntermediates)
        else match Intermediates(disk, certPath)
          case Some(chain) => old(domainIntermediates)[domain := chain]
          case None => old(domainIntermediates) - {domain}
    {
      var config := TlsConfig(certPath, keyPath, false);
      if config !in disk.generations {
        return false;
      }
      certificates := certificates[domain := Acceptor(config, disk.generations[config])];
      tlsConfigs := tlsConfigs[domain := config];
      var intermediates := Intermediates(disk, tlsConfigs[domain].certPath);
      if intermediates.Some? {
        domainIntermediates := domainIntermediates[domain := intermediates.value];
      } else {
        domainIntermediates := domainIntermediates - {domain};
      }
      return true;
    }

    /** One round of the listener. */
    method HandleEvent(event: CertEvent, configured: set<string>, disk: Disk) returns (fate: Fate)
      requires Valid()
      modifies this
      ensures Valid() && certificates == Delivered(old(certificates), event, fate)
      ensures fate == FateOf(event, configured, disk.generations)
      ensures var files := TlsConfig(event.certPath, event.keyPath, false);
        certificates == if event.domain in configured && files in disk.generations
                        then old(certificates)[event.domain := Acceptor(files, disk.generations[files])]
                        else old(certificates)
    {
      if event.domain !in configured {
        return Ignored;
      }
      var ok := ReloadDomainCertificateWithPaths(event.domain, event.certPath, event.keyPath, disk);
      if ok {
        return Reloaded(disk.generations[PathsIn(event)]);
      }
      return ReloadFailed;
    }

    method TakeEvent(event: CertEvent, lagged: bool, configured: set<string>, disk: Disk) returns (fate: Fate)
      requires Valid()
      modifies this
      ensures Valid() && certificates == Delivered(old(certificates), event, fate)
      ensures fate == if lagged then Lost else FateOf(event, configured, disk.generations)
    {
      if lagged {
        return Lost;
      }
      fate := HandleEvent(event, configured, disk);
    }

    /** The listener over the events of the channel; `lagged` tells which ones the channel drops. */
    method Listen(events: seq<CertEvent>, lagged: nat -> bool, configured: set<string>, disks: nat -> Disk)
      returns (fates: seq<Fate>)
      requires Valid()
      modifies this
      ensures Valid() && |fates| == |events|
      ensures certificates == DeliveredAll(old(certificates), events, fates)
      ensures forall k :: 0 <= k < |events| ==>
        fates[k] == if lagged(k) then Lost else FateOf(events[k], configured, disks(k).generations)
    {
      hide Valid, Delivered, FateOf;
      fates := [];
      for k := 0 to |events|
        invariant Valid() && |fates| == k
        invariant certificates == DeliveredAll(old(certificates), events[..k], fates)
        invariant forall j :: 0 <= j < k ==>
          fates[j] == if lagged(j) then Lost else FateOf(events[j], configured, disks(j).generations)
      {
        ghost var before := fates;
        var fate := TakeEvent(events[k], lagged(k), configured, disks(k));
        fates := fates + [fate];
        assert events[..k + 1][..k] == events[..k] && fates[..k] == before;
      }
      assert events[..|events|] == events;
    }

    /** The installation of the certificates that the ACME manager has loaded, in any order. */
    method InstallExisting(existing: Certificates, configured: set<string>, disk: Disk)
      requires Valid() && KeyedByPrimary(existing)
      modifies this
      ensures Valid()
      ensures forall d :: d in existing && d in configured && PathsOf(existing[d]) in disk.generations ==>
        d in certificates && certificates[d] == Acceptor(PathsOf(existing[d]), disk.generations[PathsOf(existing[d])])
      ensures forall d :: !(d in existing && d in configured && PathsOf(existing[d]) in disk.generations) ==>
        SameEntry(old(certificates), certificates, d)
    {
      hide Intermediates;
      var left := existing.Keys;
      while left != {}
        invariant Valid() && left <= existing.Keys
        invariant forall d ::
          d in existing && d !in left && d in configured && PathsOf(existing[d]) in disk.generations ==>
            d in certificates
            && certificates[d] == Acceptor(PathsOf(existing[d]), disk.generations[PathsOf(existing[d])])
        invariant forall d ::
          d in left || !(d in existing && d in configured && PathsOf(existing[d]) in disk.generations) ==>
            SameEntry(old(certificates), certificates, d)
        decreases left
      {
        var k :| k in left;
        left := left - {k};
        var cert := existing[k];
        if cert.domains != [] && cert.domains[0] in configured {
          var _ := ReloadDomainCertificateWithPaths(cert.domains[0], cert.certPath, cert.keyPath, disk);
        }
      }
    }
  }

  /** The acceptor of a configuration that loads, and the intermediates that are kept for it at the start. */
  predicate InstalledFrom(config: TlsConfig, disk: Disk, acceptor: Acceptor, intermediates: Option<seq<string>>) {
    && config in disk.generations && acceptor == Acceptor(config, disk.generations[config])
    && intermediates == if config.autoSsl then None else Intermediates(disk, config.certPath)
  }

  function IntermediatesAt(kept: map<string, seq<string>>, domain: string): Option<seq<string>> {
    if domain in kept then Some(kept[domain]) else None
  }

  predicate SameEntry(before: Acceptors, after: Acceptors, domain: string) {
    (domain in before <==> domain in after) && (domain in before ==> after[domain] == before[domain])
  }
}
