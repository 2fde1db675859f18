/** `main()`: the gate, the GUID and version steps, the endpoint fetch, the
    classification, and one reconciling pass per enabled target, run
    against a `BigIp`. Web-service answers and the failover status are
    inputs; `uuid4()` is the caller-supplied `generated`. */
module Orchestrator {
  import opened Wrappers
  import opened Text
  import opened Records
  import opened VersionCheck
  import opened Classifier
  import opened Artifacts
  import opened Reconciler
  import opened Device

  /** How a run ends. Every exit of the script has status 0. */
  datatype Outcome =
    | NotWriter             // line 132: a standby unit of an HA pair
    | AlreadyLatest         // line 227: the stamp has not moved
    | EndpointsUnavailable  // line 240: the endpoint request failed
    | Completed             // line 468

  /** The five files the script writes are distinct. */
  lemma PathsDistinct()
    ensures GuidPath != VersionPath && GuidPath != UrlsPath && GuidPath != Ipv4Path && GuidPath != Ipv6Path
    ensures VersionPath != UrlsPath && VersionPath != Ipv4Path && VersionPath != Ipv6Path
    ensures UrlsPath != Ipv4Path && UrlsPath != Ipv6Path && Ipv4Path != Ipv6Path
  {
    assert GuidPath[14] != VersionPath[14] && GuidPath[14] != UrlsPath[14];
    assert GuidPath[14] != Ipv4Path[14] && GuidPath[14] != Ipv6Path[14];
    assert VersionPath[19] != UrlsPath[19] && VersionPath[19] != Ipv4Path[19] && VersionPath[19] != Ipv6Path[19];
    assert UrlsPath[19] != Ipv4Path[19] && UrlsPath[19] != Ipv6Path[19] && Ipv4Path[21] != Ipv6Path[21];
  }

  /** Writing `content` to `path` changes that file and no other. */
  lemma FileAtUpdate(files: map<string, string>, path: string, content: string)
    ensures FileAt(files[path := content], path) == Some(content)
    ensures forall p :: p != path ==> FileAt(files[path := content], p) == FileAt(files, p)
  {
  }

  /** The local files once the GUID step, the previous-version step and the
      scan of the version answer have run. */
  function PreludeFiles(files: map<string, string>, generated: string, response: Option<seq<VersionRecord>>)
    : (r: map<string, string>)
    requires IsUuidText(generated)
    ensures FileAt(r, GuidPath) == Some(GuidFileAfter(FileAt(files, GuidPath), generated))
    ensures LatestVersion(response) == "" ==>
      FileAt(r, VersionPath) == Some(VersionFileAfterLoad(FileAt(files, VersionPath)))
    ensures LatestVersion(response) != "" ==> FileAt(r, VersionPath) == Some(LatestVersion(response))
    ensures forall p :: p != GuidPath && p != VersionPath ==> FileAt(r, p) == FileAt(files, p)
  {
    PathsDistinct();
    var g := files[GuidPath := GuidFileAfter(FileAt(files, GuidPath), generated)];
    FileAtUpdate(files, GuidPath, GuidFileAfter(FileAt(files, GuidPath), generated));
    var v := g[VersionPath := VersionFileAfterLoad(FileAt(files, VersionPath))];
    FileAtUpdate(g, VersionPath, VersionFileAfterLoad(FileAt(files, VersionPath)));
    var latest := LatestVersion(response);
    FileAtUpdate(v, VersionPath, latest);
    if latest == "" then v else v[VersionPath := latest]
  }

  /** The local files once each enabled target's artifact is written. */
  function ArtifactFiles(cfg: Config, files: map<string, string>, urls: seq<string>, ips4: seq<string>, ips6: seq<string>)
    : (r: map<string, string>)
    ensures cfg.useUrlDg ==> FileAt(r, UrlsPath) == Some(UrlDataGroupText(urls))
    ensures cfg.useIpv4 ==> FileAt(r, Ipv4Path) == Some(NetworkDataGroupText(ips4))
    ensures cfg.useIpv6 ==> FileAt(r, Ipv6Path) == Some(NetworkDataGroupText(ips6))
    ensures forall p :: ((p != UrlsPath || !cfg.useUrlDg) && (p != Ipv4Path || !cfg.useIpv4)
      && (p != Ipv6Path || !cfg.useIpv6)) ==> FileAt(r, p) == FileAt(files, p)
  {
    PathsDistinct();
    var f1 := if cfg.useUrlDg then files[UrlsPath := UrlDataGroupText(urls)] else files;
    var f2 := if cfg.useIpv4 then f1[Ipv4Path := NetworkDataGroupText(ips4)] else f1;
    if cfg.useIpv6 then f2[Ipv6Path := NetworkDataGroupText(ips6)] else f2
  }

  /** Writing the artifacts leaves the GUID and version files alone. */
  lemma ArtifactsKeepPrelude(cfg: Config, files: map<string, string>, urls: seq<string>, ips4: seq<string>, ips6: seq<string>)
    ensures FileAt(ArtifactFiles(cfg, files, urls, ips4, ips6), GuidPath) == FileAt(files, GuidPath)
    ensures FileAt(ArtifactFiles(cfg, files, urls, ips4, ips6), VersionPath) == FileAt(files, VersionPath)
  {
    PathsDistinct();
  }

  /** A stamp that was offered and recorded is the next run's previous
      stamp, so a second run that sees the same answer, without a forced
      refresh, stops early. */
  lemma RecordedStampIsNextPrevious(files: map<string, string>, generated: string, response: Option<seq<VersionRecord>>)
    requires IsUuidText(generated)
    requires LatestVersion(response) != ""
    requires '\n' !in LatestVersion(response)
    ensures PreviousVersion(FileAt(PreludeFiles(files, generated, response), VersionPath)) == LatestVersion(response)
    ensures StopsEarly(LatestVersion(response),
                       PreviousVersion(FileAt(PreludeFiles(files, generated, response), VersionPath)), 0)
  {
    ReadLineWhole(LatestVersion(response));
  }

  /** Lines 141-220 on the unit's files: the GUID in use, the previous
      stamp and the latest one. */
  method Prelude(box: BigIp, generated: string, versions: Option<seq<VersionRecord>>)
    returns (guid: string, previous: string, latest: string)
    requires IsUuidText(generated)
    modifies box`files
    ensures guid == GuidInUse(FileAt(old(box.files), GuidPath), generated)
    ensures previous == PreviousVersion(FileAt(old(box.files), VersionPath))
    ensures latest == LatestVersion(versions)
    ensures box.files == PreludeFiles(old(box.files), generated, versions)
  {
    PathsDistinct();
    guid := box.LoadGuid(generated);
    assert FileAt(box.files, VersionPath) == FileAt(old(box.files), VersionPath);
    previous := box.LoadPreviousVersion();
    latest := box.RecordLatestVersion(versions);
  }

  /** One data-group target: when enabled, write its artifact `text` to
      `path`, then reconcile its objects. `p` is the pass so far, on top of
      the journal `base`. */
  method DataGroupStep(box: BigIp, enabled: bool, dg: string, vt: ValueType, path: string, text: string,
                       ghost base: seq<Command>, ghost p: Pass) returns (ghost q: Pass)
    requires box.objects == p.objects && box.journal == base + p.commands
    modifies box`files, box`objects, box`journal
    ensures q == DataGroupTarget(enabled, p, dg, vt, path)
    ensures box.objects == q.objects && box.journal == base + q.commands
    ensures box.files == if enabled then old(box.files)[path := text] else old(box.files)
  {
    if enabled {
      box.WriteFile(path, text);
      box.ReconcileDataGroup(dg, vt, path);
    }
    q := DataGroupTarget(enabled, p, dg, vt, path);
  }

  /** The enabled targets in the script's order: the URL category, then the
      three data groups. */
  method ReconcileTargets(box: BigIp, cfg: Config, latest: string, urls: seq<string>, ips4: seq<string>, ips6: seq<string>)
    returns (entries: seq<UrlEntry>)
    modifies box`files, box`objects, box`journal
    ensures cfg.useUrl ==> |entries| == 2 * |set u | u in urls|
    ensures cfg.useUrl ==> forall e :: e in entries <==> EntryOf(urls, e)
    ensures cfg.useUrl ==> ListsEntries(urls, entries)
    ensures !cfg.useUrl ==> entries == []
    ensures box.files == ArtifactFiles(cfg, old(box.files), urls, ips4, ips6)
    ensures box.objects == TargetsPass(cfg, old(box.objects), latest, entries).objects
    ensures box.journal == old(box.journal) + TargetsPass(cfg, old(box.objects), latest, entries).commands
  {
    ghost var base := box.journal;
    entries := [];
    if cfg.useUrl {
      entries := box.ReconcileCategory(latest, urls);
    }
    ghost var p1 := CategoryTarget(cfg.useUrl, Pass(old(box.objects), []), latest, entries);
    assert box.objects == p1.objects && box.journal == base + p1.commands;
    ghost var p4 := DataGroupSteps(box, cfg, urls, ips4, ips6, base, p1);
  }

  /** The three data-group targets in the script's order, each artifact
      written before its objects are reconciled. */
  method DataGroupSteps(box: BigIp, cfg: Config, urls: seq<string>, ips4: seq<string>, ips6: seq<string>,
                        ghost base: seq<Command>, ghost p: Pass) returns (ghost q: Pass)
    requires box.objects == p.objects && box.journal == base + p.commands
    modifies box`files, box`objects, box`journal
    ensures q == DataGroupTargets(cfg, p)
    ensures box.objects == q.objects && box.journal == base + q.commands
    ensures box.files == ArtifactFiles(cfg, old(box.files), urls, ips4, ips6)
  {
    var text := "";
    if cfg.useUrlDg {
      text := RenderUrlDataGroup(urls);
    }
    ghost var p2 := DataGroupStep(box, cfg.useUrlDg, UrlsDataGroup, StringValues, UrlsPath, text, base, p);
    if cfg.useIpv4 {
      text := RenderNetworkDataGroup(ips4);
    }
    ghost var p3 := DataGroupStep(box, cfg.useIpv4, Ipv4DataGroup, IpValues, Ipv4Path, text, base, p2);
    if cfg.useIpv6 {
      text := RenderNetworkDataGroup(ips6);
    }
    q := DataGroupStep(box, cfg.useIpv6, Ipv6DataGroup, IpValues, Ipv6Path, text, base, p3);
  }

  /** Lines 246-466: classify the records, write and reconcile every
      enabled target, then save and sync. */
  method Synchronise(box: BigIp, cfg: Config, latest: string, records: seq<EndpointRecord>)
    returns (entries: seq<UrlEntry>)
    modifies box`files, box`objects, box`journal
    ensures box.files == ArtifactFiles(cfg, old(box.files),
                                       BypassUrls(cfg, records), Ipv4Networks(cfg, records), Ipv6Networks(cfg, records))
    ensures FileAt(box.files, GuidPath) == FileAt(old(box.files), GuidPath)
    ensures FileAt(box.files, VersionPath) == FileAt(old(box.files), VersionPath)
    ensures box.objects == ReconcilePass(cfg, old(box.objects), latest, entries).objects
    ensures box.journal == old(box.journal) + ReconcilePass(cfg, old(box.objects), latest, entries).commands
    ensures cfg.useUrl ==> |entries| == 2 * |set u | u in BypassUrls(cfg, records)|
    ensures cfg.useUrl ==> forall e :: e in entries <==> EntryOf(BypassUrls(cfg, records), e)
    ensures cfg.useUrl ==> ListsEntries(BypassUrls(cfg, records), entries)
  {
    var urls, ips4, ips6 := Classify(cfg, records);
    entries := ReconcileTargets(box, cfg, latest, urls, ips4, ips6);
    ghost var t := TargetsPass(cfg, old(box.objects), latest, entries);
    box.SaveAndSyncConfig(cfg);
    assert box.journal == old(box.journal) + (t.commands + SaveAndSync(cfg));
    ArtifactsKeepPrelude(cfg, old(box.files), urls, ips4, ips6);
  }

  /** One run of the script. `failoverStatus` is the output of
      `tmsh show /cm failover-status`; a response of `None` is a request
      that did not answer 200. Also returns the GUID sent with both
      requests and the URL-category entries added. */
  method Run(box: BigIp, cfg: Config, failoverStatus: string, generated: string,
             versions: Option<seq<VersionRecord>>, endpoints: Option<seq<EndpointRecord>>)
    returns (outcome: Outcome, guid: string, entries: seq<UrlEntry>)
    requires IsUuidText(generated)
    modifies box
    // The gate: a unit that may not write touches nothing.
    ensures outcome == NotWriter <==> !IsWriter(failoverStatus, cfg.haConfig)
    ensures outcome == NotWriter ==>
      box.files == old(box.files) && box.objects == old(box.objects) && box.journal == old(box.journal)
    // Past the gate, the GUID in use.
    ensures outcome != NotWriter ==> guid == GuidInUse(FileAt(old(box.files), GuidPath), generated)
    ensures outcome != NotWriter ==>
      && FileAt(box.files, GuidPath) == Some(GuidFileAfter(FileAt(old(box.files), GuidPath), generated))
      && FileAt(box.files, VersionPath) == FileAt(PreludeFiles(old(box.files), generated, versions), VersionPath)
    // The early stop, and the failed endpoint request.
    ensures outcome == AlreadyLatest <==> (IsWriter(failoverStatus, cfg.haConfig)
      && StopsEarly(LatestVersion(versions), PreviousVersion(FileAt(old(box.files), VersionPath)), cfg.forceRefresh))
    ensures outcome == EndpointsUnavailable <==> (IsWriter(failoverStatus, cfg.haConfig)
      && !StopsEarly(LatestVersion(versions), PreviousVersion(FileAt(old(box.files), VersionPath)), cfg.forceRefresh)
      && endpoints.None?)
    ensures outcome == AlreadyLatest || outcome == EndpointsUnavailable ==>
      && box.files == PreludeFiles(old(box.files), generated, versions)
      && box.objects == old(box.objects) && box.journal == old(box.journal)
    // A completed run: the artifacts, the device objects and the commands.
    ensures outcome == Completed ==>
      var records := endpoints.value;
      && box.files == ArtifactFiles(cfg, PreludeFiles(old(box.files), generated, versions),
                                    BypassUrls(cfg, records), Ipv4Networks(cfg, records), Ipv6Networks(cfg, records))
      && box.objects == ReconcilePass(cfg, old(box.objects), LatestVersion(versions), entries).objects
      && box.journal == old(box.journal) + ReconcilePass(cfg, old(box.objects), LatestVersion(versions), entries).commands
      && (cfg.useUrl ==> |entries| == 2 * |set u | u in BypassUrls(cfg, records)|)
      && (cfg.useUrl ==> forall e :: e in entries <==> EntryOf(BypassUrls(cfg, records), e))
      && (cfg.useUrl ==> ListsEntries(BypassUrls(cfg, records), entries))
  {
    entries := [];
    guid := "";
    if !IsWriter(failoverStatus, cfg.haConfig) {
      return NotWriter, guid, entries;
    }
    var previous, latest;
    guid, previous, latest := Prelude(box, generated, versions);
    if StopsEarly(latest, previous, cfg.forceRefresh) {
      return AlreadyLatest, guid, entries;
    }
    if endpoints.None? {
      return EndpointsUnavailable, guid, entries;
    }
    entries := Synchronise(box, cfg, latest, endpoints.value);
    outcome := Completed;
  }

  /** Two runs on the same unit with the same settings: the GUID of the
      first is reused, a second completed run creates nothing, and after any
      first run past the gate, a second run that sees the same recorded,
      newline-free stamp stops early. */
  method RunTwice(box: BigIp, cfg: Config, failoverStatus: string, generated1: string, generated2: string,
                  versions1: Option<seq<VersionRecord>>, endpoints1: Option<seq<EndpointRecord>>,
                  versions2: Option<seq<VersionRecord>>, endpoints2: Option<seq<EndpointRecord>>)
    returns (first: Outcome, second: Outcome, guid1: string, guid2: string, secondCommands: seq<Command>)
    requires IsUuidText(generated1) && IsUuidText(generated2)
    modifies box
    ensures first == NotWriter <==> second == NotWriter
    ensures first != NotWriter ==> guid2 == guid1
    ensures first == Completed && second == Completed ==> forall c :: c in secondCommands ==> !c.Create?
    ensures first != NotWriter && versions2 == versions1 && cfg.forceRefresh == 0
      && LatestVersion(versions1) != ""
      && '\n' !in LatestVersion(versions1)
      ==> second == AlreadyLatest
  {
    ghost var files0 := box.files;
    ghost var objects0 := box.objects;
    var entries1, entries2;
    first, guid1, entries1 := Run(box, cfg, failoverStatus, generated1, versions1, endpoints1);
    ghost var files1 := box.files;
    ghost var objects1 := box.objects;
    ghost var journal1 := box.journal;
    var mark := |box.journal|;
    if first != NotWriter {
      GuidStable(FileAt(files0, GuidPath), generated1, generated2);
    }
    second, guid2, entries2 := Run(box, cfg, failoverStatus, generated2, versions2, endpoints2);
    secondCommands := box.journal[mark..];
    if first == Completed && second == Completed {
      ghost var c2 := ReconcilePass(cfg, objects1, LatestVersion(versions2), entries2).commands;
      assert secondCommands == c2 by {
        assert box.journal == journal1 + c2;
      }
      assert forall c :: c in c2 ==> !c.Create? by {
        SecondPassCreatesNothing(cfg, objects0, LatestVersion(versions1), entries1, LatestVersion(versions2), entries2);
      }
    }
    if first != NotWriter && versions2 == versions1 && cfg.forceRefresh == 0 && LatestVersion(versions1) != ""
       && '\n' !in LatestVersion(versions1) {
      RecordedStampIsNextPrevious(files0, generated1, versions1);
    }
  }
}
