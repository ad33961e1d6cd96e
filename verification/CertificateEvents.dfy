/** The two maps in step: what the ACME manager holds, the channel carries and the TLS side has installed, over
    every run of changes and deliveries. */
module CertificateEvents {
  import opened AcmeManager
  import opened CertificateManager

  /** `disk` is the generation of the files that each configuration names. */
  datatype System = System(certificates: Certificates, disk: map<TlsConfig, nat>, queue: seq<CertEvent>, tls: Acceptors)

  /** The manager has files in a generation, puts the certificate in its map and announces it; or the oldest event of
      the channel is dealt with. */
  datatype Step = Changed(change: Change, generation: nat) | Taken(delivery: Delivery)

  datatype Delivery = Deliver | Fail | Drop

  function FateIn(configured: set<string>, s: System, delivery: Delivery): Fate
    requires s.queue != []
  {
    match delivery
    case Deliver => FateOf(s.queue[0], configured, s.disk)
    case Fail => ReloadFailed
    case Drop => Lost
  }

  function Next(configured: set<string>, s: System, step: Step): System {
    match step
    case Changed(change, generation) =>
      s.(certificates := s.certificates[change.domain := change.info],
         disk := s.disk[PathsOf(change.info) := generation],
         queue := s.queue + [EventOf(change)])
    case Taken(delivery) =>
      if s.queue == [] then s
      else s.(queue := s.queue[1..], tls := Delivered(s.tls, s.queue[0], FateIn(configured, s, delivery)))
  }

  function Run(configured: set<string>, s: System, steps: seq<Step>): System {
    if steps == [] then s
    else Next(configured, Run(configured, s, steps[..|steps| - 1]), steps[|steps| - 1])
  }

  /** The domains whose last event so far was lost or could not be reloaded. */
  function Missed(configured: set<string>, s: System, steps: seq<Step>): set<string> {
    if steps == [] then {}
    else
      var init, last := steps[..|steps| - 1], steps[|steps| - 1];
      MissedAfter(configured, Run(configured, s, init), Missed(configured, s, init), last)
  }

  function MissedAfter(configured: set<string>, s: System, missed: set<string>, step: Step): set<string> {
    if step.Changed? || s.queue == [] then missed
    else if FateIn(configured, s, step.delivery).Reloaded? then missed - {s.queue[0].domain}
    else missed + {s.queue[0].domain}
  }

  /** Every event of the queue delivered, in order, with the files as they are. */
  function Replay(configured: set<string>, disk: map<TlsConfig, nat>, tls: Acceptors, queue: seq<CertEvent>): Acceptors
    decreases |queue|
  {
    if queue == [] then tls
    else Replay(configured, disk, Delivered(tls, queue[0], FateOf(queue[0], configured, disk)), queue[1..])
  }

  predicate Announced(queue: seq<CertEvent>, domain: string) {
    exists k :: 0 <= k < |queue| && queue[k].domain == domain
  }

  function LastEvent(queue: seq<CertEvent>, domain: string): (e: CertEvent)
    requires Announced(queue, domain)
    ensures e in queue && e.domain == domain
    decreases |queue|
  {
    AnnouncedFirst(queue, domain);
    if Announced(queue[1..], domain) then LastEvent(queue[1..], domain) else queue[0]
  }

  /** The acceptor of the domain was built from the files that its certificate names. */
  predicate PathsAgree(certificates: Certificates, tls: Acceptors, domain: string) {
    domain in certificates ==> domain in tls && tls[domain].config == PathsOf(certificates[domain])
  }

  /** Moreover it was built from their present generation. */
  predicate Agrees(certificates: Certificates, disk: map<TlsConfig, nat>, tls: Acceptors, domain: string) {
    domain in certificates ==>
      var paths := PathsOf(certificates[domain]);
      paths in disk && domain in tls && tls[domain] == Acceptor(paths, disk[paths])
  }

  // ---------- Replaying ----------

  /** The domain's events in the queue name files that are there. */
  predicate Loadable(disk: map<TlsConfig, nat>, queue: seq<CertEvent>, domain: string) {
    forall e :: e in queue && e.domain == domain ==> PathsIn(e) in disk
  }

  /** What replaying makes of a domain depends on nothing but the domain's last event, and if there is none, the
      domain's acceptor stays as it is. */
  lemma {:induction false} ReplayOfOneDomain(
    configured: set<string>, disk: map<TlsConfig, nat>, tls: Acceptors, queue: seq<CertEvent>, domain: string)
    requires domain in configured && Loadable(disk, queue, domain)
    ensures var replayed := Replay(configured, disk, tls, queue);
      if Announced(queue, domain) then
        var paths := PathsIn(LastEvent(queue, domain));
        domain in replayed && replayed[domain] == Acceptor(paths, disk[paths])
      else SameEntry(tls, replayed, domain)
    decreases |queue|
  {
    if queue != [] {
      var e, rest := queue[0], queue[1..];
      AnnouncedFirst(queue, domain);
      ReplayOfOneDomain(configured, disk, Delivered(tls, e, FateOf(e, configured, disk)), rest, domain);
    }
  }

  lemma AnnouncedFirst(queue: seq<CertEvent>, domain: string)
    requires queue != []
    ensures Announced(queue, domain) <==> queue[0].domain == domain || Announced(queue[1..], domain)
  {
    if k :| 0 <= k < |queue| && queue[k].domain == domain {
      assert k == 0 || queue[1..][k - 1].domain == domain;
    }
    if k :| 0 <= k < |queue[1..]| && queue[1..][k].domain == domain {
      assert queue[k + 1].domain == domain;
    }
  }

  lemma {:induction false} AnnouncedLast(queue: seq<CertEvent>, e: CertEvent, domain: string)
    ensures Announced(queue + [e], domain) <==> e.domain == domain || Announced(queue, domain)
    ensures Announced(queue + [e], domain) ==>
      LastEvent(queue + [e], domain) == if e.domain == domain then e else LastEvent(queue, domain)
    decreases |queue|
  {
    var more := queue + [e];
    AnnouncedFirst(more, domain);
    if queue == [] {
      assert more[1..] == [];
    } else {
      AnnouncedFirst(queue, domain);
      assert more[1..] == queue[1..] + [e];
      AnnouncedLast(queue[1..], e, domain);
    }
  }

  // ---------- The paths, in every run ----------

  /** The invariant for one domain: its last event on the way is about the certificate in the manager's map; and if
      none is on the way, the acceptor is built from that certificate's files, unless the last event was missed. */
  predicate InStep(s: System, missed: set<string>, domain: string) {
    && Loadable(s.disk, s.queue, domain)
    && (Announced(s.queue, domain) ==>
          domain in s.certificates && PathsIn(LastEvent(s.queue, domain)) == PathsOf(s.certificates[domain]))
    && (!Announced(s.queue, domain) && domain !in missed ==> PathsAgree(s.certificates, s.tls, domain))
  }

  lemma StepKeepsInStep(configured: set<string>, s: System, missed: set<string>, step: Step, domain: string)
    requires domain in configured && InStep(s, missed, domain)
    ensures InStep(Next(configured, s, step), MissedAfter(configured, s, missed, step), domain)
  {
    if step.Changed? {
      AnnouncedLast(s.queue, EventOf(step.change), domain);
    } else if s.queue != [] {
      AnnouncedFirst(s.queue, domain);
    }
  }

  lemma {:induction false} RunKeepsInStep(configured: set<string>, s: System, steps: seq<Step>, domain: string)
    requires domain in configured && s.queue == [] && PathsAgree(s.certificates, s.tls, domain)
    ensures InStep(Run(configured, s, steps), Missed(configured, s, steps), domain)
    decreases |steps|
  {
    if steps != [] {
      var init := steps[..|steps| - 1];
      RunKeepsInStep(configured, s, init, domain);
      StepKeepsInStep(
        configured, Run(configured, s, init), Missed(configured, s, init), steps[|steps| - 1], domain);
    }
  }

  /** Replaying what the channel still holds onto the TLS side gives every configured domain an acceptor of the files
      that the manager's map has for it, unless the domain's last event was missed and no later one is on its way. */
  lemma EveryRunStaysInStep(configured: set<string>, s: System, steps: seq<Step>, domain: string)
    requires domain in configured && s.queue == [] && PathsAgree(s.certificates, s.tls, domain)
    ensures var s' := Run(configured, s, steps);
      || (domain in Missed(configured, s, steps) && !Announced(s'.queue, domain))
      || PathsAgree(s'.certificates, Replay(configured, s'.disk, s'.tls, s'.queue), domain)
  {
    var s' := Run(configured, s, steps);
    RunKeepsInStep(configured, s, steps, domain);
    ReplayOfOneDomain(configured, s'.disk, s'.tls, s'.queue, domain);
  }

  // ---------- The generations, in every run ----------

  /** A change never puts files in an earlier generation; one that finds its certificate on disk leaves them in the
      generation in which they are. */
  predicate GenerationsGrow(configured: set<string>, s: System, steps: seq<Step>) {
    steps == [] ||
      var init, last := steps[..|steps| - 1], steps[|steps| - 1];
      GenerationsGrow(configured, s, init) && Grows(Run(configured, s, init).disk, last)
  }

  predicate Grows(disk: map<TlsConfig, nat>, step: Step) {
    step.Changed? && PathsOf(step.change.info) in disk ==> disk[PathsOf(step.change.info)] <= step.generation
  }

  predicate Rewrites(disk: map<TlsConfig, nat>, step: Step, paths: TlsConfig) {
    step.Changed? && PathsOf(step.change.info) == paths && (paths in disk ==> disk[paths] != step.generation)
  }

  predicate Takes(s: System, step: Step, domain: string) {
    step.Taken? && s.queue != [] && s.queue[0].domain == domain
  }

  /** The files have been rewritten, by whatever domain, since the domain's acceptor was last made. */
  predicate Rewritten(configured: set<string>, s: System, steps: seq<Step>, domain: string, paths: TlsConfig) {
    steps != [] &&
      var init, last := steps[..|steps| - 1], steps[|steps| - 1];
      RewrittenAfter(configured, Run(configured, s, init), Rewritten(configured, s, init, domain, paths), last, domain,
        paths)
  }

  predicate RewrittenAfter(
    configured: set<string>, s: System, rewritten: bool, step: Step, domain: string, paths: TlsConfig)
  {
    || Rewrites(s.disk, step, paths)
    || (rewritten && !(Takes(s, step, domain) && FateIn(configured, s, step.delivery).Reloaded?))
  }

  /** The acceptor is no newer than its files, and as new as they are if they have not been rewritten since. */
  predicate Dated(s: System, rewritten: bool, domain: string, paths: TlsConfig) {
    domain in s.tls ==>
      var acceptor := s.tls[domain];
      && acceptor.config in s.disk && acceptor.generation <= s.disk[acceptor.config]
      && (acceptor.config == paths ==> (acceptor.generation == s.disk[paths] <==> !rewritten))
  }

  /** The acceptor was made from the files as they are. */
  predicate MadeFromPresent(disk: map<TlsConfig, nat>, tls: Acceptors, domain: string) {
    domain in tls ==> tls[domain].config in disk && tls[domain].generation == disk[tls[domain].config]
  }

  lemma {:induction false} RunKeepsDated(
    configured: set<string>, s: System, steps: seq<Step>, domain: string, paths: TlsConfig)
    requires MadeFromPresent(s.disk, s.tls, domain) && GenerationsGrow(configured, s, steps)
    ensures Dated(Run(configured, s, steps), Rewritten(configured, s, steps, domain, paths), domain, paths)
    decreases |steps|
  {
    if steps != [] {
      RunKeepsDated(configured, s, steps[..|steps| - 1], domain, paths);
    }
  }

  /** In every run, with any losses and failures and any sharing of files, the two sides agree on a domain, up to the
      events on their way, if and only if one of these is the domain's, or its acceptor is of the right files and
      these have not been rewritten since it was made. */
  lemma AgreesIff(configured: set<string>, s: System, steps: seq<Step>, domain: string)
    requires domain in configured && s.queue == [] && PathsAgree(s.certificates, s.tls, domain)
    requires MadeFromPresent(s.disk, s.tls, domain) && GenerationsGrow(configured, s, steps)
    ensures var s' := Run(configured, s, steps);
      Agrees(s'.certificates, s'.disk, Replay(configured, s'.disk, s'.tls, s'.queue), domain) <==>
        || domain !in s'.certificates || Announced(s'.queue, domain)
        || (PathsAgree(s'.certificates, s'.tls, domain)
            && !Rewritten(configured, s, steps, domain, PathsOf(s'.certificates[domain])))
  {
    var s' := Run(configured, s, steps);
    RunKeepsInStep(configured, s, steps, domain);
    ReplayOfOneDomain(configured, s'.disk, s'.tls, s'.queue, domain);
    if domain in s'.certificates {
      RunKeepsDated(configured, s, steps, domain, PathsOf(s'.certificates[domain]));
    }
  }

  // ---------- Runs in which every event is delivered ----------

  predicate EverythingDelivered(steps: seq<Step>) {
    forall k :: 0 <= k < |steps| ==> steps[k].Taken? ==> steps[k].delivery == Deliver
  }

  /** Another domain has rewritten the files since the domain's last event was taken. */
  predicate Overwritten(configured: set<string>, s: System, steps: seq<Step>, domain: string, paths: TlsConfig) {
    steps != [] &&
      var init, last := steps[..|steps| - 1], steps[|steps| - 1];
      var before := Run(configured, s, init);
      || (Rewrites(before.disk, last, paths) && last.change.domain != domain)
      || (Overwritten(configured, s, init, domain, paths) && !Takes(before, last, domain))
  }

  /** Nothing is missed, and what the domain itself has rewritten since is still on its way. */
  lemma {:induction false} DeliveredIsNotMissed(
    configured: set<string>, s: System, steps: seq<Step>, domain: string, paths: TlsConfig)
    requires domain in configured && s.queue == [] && PathsAgree(s.certificates, s.tls, domain)
    requires EverythingDelivered(steps)
    ensures domain !in Missed(configured, s, steps)
    ensures Overwritten(configured, s, steps, domain, paths) ==> Rewritten(configured, s, steps, domain, paths)
    ensures Rewritten(configured, s, steps, domain, paths) ==>
      Overwritten(configured, s, steps, domain, paths) || Announced(Run(configured, s, steps).queue, domain)
    decreases |steps|
  {
    if steps != [] {
      var init, last := steps[..|steps| - 1], steps[|steps| - 1];
      var before := Run(configured, s, init);
      DeliveredIsNotMissed(configured, s, init, domain, paths);
      RunKeepsInStep(configured, s, init, domain);
      if last.Changed? {
        AnnouncedLast(before.queue, EventOf(last.change), domain);
      } else if before.queue != [] {
        AnnouncedFirst(before.queue, domain);
      }
    }
  }

  /** With every event delivered, the acceptors are of the right files up to the events on their way, at every moment.
      They are of the right generation, too, exactly as long as no other domain rewrites the domain's files after
      its last event was taken; once it is announced again they agree again. */
  lemma ManagersAgree(configured: set<string>, s: System, steps: seq<Step>, domain: string)
    requires domain in configured && s.queue == [] && EverythingDelivered(steps)
    requires PathsAgree(s.certificates, s.tls, domain)
    ensures var s' := Run(configured, s, steps);
      PathsAgree(s'.certificates, Replay(configured, s'.disk, s'.tls, s'.queue), domain)
    ensures var s' := Run(configured, s, steps);
      MadeFromPresent(s.disk, s.tls, domain) && GenerationsGrow(configured, s, steps) ==>
        (Agrees(s'.certificates, s'.disk, Replay(configured, s'.disk, s'.tls, s'.queue), domain) <==>
          || domain !in s'.certificates || Announced(s'.queue, domain)
          || !Overwritten(configured, s, steps, domain, PathsOf(s'.certificates[domain])))
  {
    var s' := Run(configured, s, steps);
    EveryRunStaysInStep(configured, s, steps, domain);
    RunKeepsInStep(configured, s, steps, domain);
    if domain in s'.certificates {
      DeliveredIsNotMissed(configured, s, steps, domain, PathsOf(s'.certificates[domain]));
      if MadeFromPresent(s.disk, s.tls, domain) && GenerationsGrow(configured, s, steps) {
        AgreesIff(configured, s, steps, domain);
      }
    }
  }

  /** The failing case: two domains share their files, both acceptors are made from them, and one domain is renewed.
      Its own acceptor is made anew, and the other's is stale. */
  lemma SharedFilesGoStale(configured: set<string>, s: System, domain: string, change: Change, generation: nat)
    requires s.queue == [] && domain in configured && change.domain in configured && change.domain != domain
    requires domain in s.certificates && Agrees(s.certificates, s.disk, s.tls, domain)
    requires PathsOf(change.info) == PathsOf(s.certificates[domain]) && generation > s.disk[PathsOf(change.info)]
    ensures var s' := Run(configured, s, [Changed(change, generation), Taken(Deliver)]);
      && s'.queue == [] && Agrees(s'.certificates, s'.disk, s'.tls, change.domain)
      && PathsAgree(s'.certificates, s'.tls, domain) && !Agrees(s'.certificates, s'.disk, s'.tls, domain)
  {
    var steps := [Changed(change, generation), Taken(Deliver)];
    assert steps[..1][..0] == [] && steps[..1] == [Changed(change, generation)];
    assert Run(configured, s, steps[..0]) == s;
    assert Run(configured, s, steps[..1]) == Next(configured, s, Changed(change, generation));
  }

  /** A missed event is made good by the next one that arrives, and only then: until the domain is announced again,
      its acceptor stays as it was, whatever the other domains do. So it agrees exactly if it was already made from
      the generation in which the files now are. */
  lemma {:induction false} MissedEventStays(
    configured: set<string>, s: System, change: Change, generation: nat, delivery: Delivery, later: seq<Step>)
    requires s.queue == [] && !delivery.Deliver?
    requires forall k :: 0 <= k < |later| ==> later[k].Changed? ==> later[k].change.domain != change.domain
    ensures var s' := Run(configured, s, [Changed(change, generation), Taken(delivery)] + later);
      var paths := PathsOf(change.info);
      && SameEntry(s.tls, s'.tls, change.domain) && !Announced(s'.queue, change.domain)
      && change.domain in s'.certificates && s'.certificates[change.domain] == change.info && paths in s'.disk
      && (Agrees(s'.certificates, s'.disk, s'.tls, change.domain) <==>
            change.domain in s.tls && s.tls[change.domain] == Acceptor(paths, s'.disk[paths]))
    decreases |later|
  {
    var steps := [Changed(change, generation), Taken(delivery)] + later;
    if later == [] {
      assert steps[..1][..0] == [] && steps[..1] == [Changed(change, generation)];
      assert Run(configured, s, steps[..0]) == s;
      assert Run(configured, s, steps[..1]) == Next(configured, s, Changed(change, generation));
    } else {
      var n := |later| - 1;
      assert steps[..|steps| - 1] == [Changed(change, generation), Taken(delivery)] + later[..n];
      MissedEventStays(configured, s, change, generation, delivery, later[..n]);
    }
  }

  // ---------- The methods take these steps ----------

  /** The start of a service: what the manager has loaded is installed, then the channel is subscribed to. From
      here the theorems above apply. */
  method InstallAndSubscribe(acme: AcmeManager, tls: CertificateManager, configured: set<string>, disk: Disk)
    requires tls.Valid() && KeyedByPrimary(acme.certificates)
    requires forall d :: MadeFromPresent(disk.generations, tls.certificates, d)
    modifies tls, acme`events
    ensures tls.Valid() && acme.events == []
    ensures forall d :: MadeFromPresent(disk.generations, tls.certificates, d)
    ensures forall d ::
      d in configured && (d in acme.certificates ==> PathsOf(acme.certificates[d]) in disk.generations) ==>
        Agrees(acme.certificates, disk.generations, tls.certificates, d)
  {
    tls.InstallExisting(acme.certificates, configured, disk);
    acme.events := [];
    forall d ensures MadeFromPresent(disk.generations, tls.certificates, d) {
      assert MadeFromPresent(disk.generations, old(tls.certificates), d);
    }
  }

  function AsSteps(changes: seq<Change>, generations: seq<nat>): seq<Step>
    requires |generations| == |changes|
  {
    seq(|changes|, k requires 0 <= k < |changes| => Changed(changes[k], generations[k]))
  }

  /** A pass of the manager, as its methods describe it, is its changes as steps. */
  lemma {:induction false} PassIsSteps(
    configured: set<string>, s: System, changes: seq<Change>, generations: seq<nat>)
    requires |generations| == |changes|
    ensures var s' := Run(configured, s, AsSteps(changes, generations));
      && s'.certificates == Applied(s.certificates, changes) && s'.queue == s.queue + Events(changes)
      && s'.tls == s.tls
    decreases |changes|
  {
    if changes != [] {
      var n := |changes| - 1;
      PassIsSteps(configured, s, changes[..n], generations[..n]);
      assert AsSteps(changes, generations)[..n] == AsSteps(changes[..n], generations[..n]);
      assert Events(changes) == Events(changes[..n]) + [EventOf(changes[n])];
    }
  }

  /** What the channel and the files make of an event, in terms of the listener's fates. */
  function DeliveryOf(fate: Fate): Delivery {
    match fate
    case Lost => Drop
    case ReloadFailed => Fail
    case _ => Deliver
  }

  function AsTaken(fates: seq<Fate>): seq<Step> {
    seq(|fates|, k requires 0 <= k < |fates| => Taken(DeliveryOf(fates[k])))
  }

  /** So is a stretch of the listener, while the files stay as they are. */
  lemma {:induction false} ListeningIsSteps(
    configured: set<string>, s: System, lagged: nat -> bool, fates: seq<Fate>)
    requires |fates| <= |s.queue|
    requires forall k :: 0 <= k < |fates| ==>
      fates[k] == if lagged(k) then Lost else FateOf(s.queue[k], configured, s.disk)
    ensures Run(configured, s, AsTaken(fates)) ==
            s.(queue := s.queue[|fates|..], tls := DeliveredAll(s.tls, s.queue[..|fates|], fates))
    decreases |fates|
  {
    if fates != [] {
      var n := |fates| - 1;
      ListeningIsSteps(configured, s, lagged, fates[..n]);
      assert AsTaken(fates)[..n] == AsTaken(fates[..n]);
      assert s.queue[n..][0] == s.queue[n] && s.queue[n..][1..] == s.queue[n + 1..];
      assert s.queue[..n + 1][..n] == s.queue[..n];
    }
  }
}
