/** The reconciler as a specification on values: the device's configuration
    objects, the `tmsh` commands a pass issues, and what one pass per
    enabled target leaves behind. The `BigIp` class carries these steps out
    one device call at a time. */
module Reconciler {
  import opened Records
  import opened Artifacts

  /** `type string` or `type ip` of a data-group file object. */
  datatype ValueType = StringValues | IpValues

  /** A `sys file data-group` object. */
  datatype DataGroupFile = DataGroupFile(valueType: ValueType, sourcePath: string)

  /** A `sys url-db url-category` object. */
  datatype Category = Category(displayName: string, urls: seq<UrlEntry>)

  datatype ObjectClass = UrlCategoryClass | DataGroupFileClass | ExternalDataGroupClass

  /** A `tmsh` command the script issues against configuration objects. */
  datatype Command =
    | List(cls: ObjectClass, name: string)
    | Create(cls: ObjectClass, name: string)
    | Modify(cls: ObjectClass, name: string)
    | Save
    | Sync(group: string)

  /** The device's configuration objects, by name. An external data group
      maps to the name of the file object it reads. */
  datatype DeviceObjects = DeviceObjects(
    files: map<string, DataGroupFile>,
    externals: map<string, string>,
    categories: map<string, Category>)

  predicate Exists(d: DeviceObjects, cls: ObjectClass, name: string) {
    match cls
    case UrlCategoryClass => name in d.categories
    case DataGroupFileClass => name in d.files
    case ExternalDataGroupClass => name in d.externals
  }

  /** The objects a pass leaves and the commands it issued, in order. */
  datatype Pass = Pass(objects: DeviceObjects, commands: seq<Command>)

  function Then(first: Pass, second: Pass): Pass {
    Pass(second.objects, first.commands + second.commands)
  }

  predicate ModifiesExternal(c: Command) {
    c.Modify? && c.cls == ExternalDataGroupClass
  }

  /** The file object behind data group `dg`. */
  function FileObjectName(dg: string): string {
    dg + "_object"
  }

  // ---------------------------------------------------------------------
  // One data-group target (lines 354-372, 393-411, 432-450)
  // ---------------------------------------------------------------------

  /** Query the file object; create it with the target's type when it was
      not found, otherwise point its source path at the artifact again.
      Then make sure the external data group exists: create it when absent,
      never modify it. */
  function DataGroupPass(d: DeviceObjects, dg: string, vt: ValueType, path: string): (p: Pass)
    ensures var f := FileObjectName(dg);
      && f in p.objects.files
      && p.objects.files[f] == DataGroupFile(if f in d.files then d.files[f].valueType else vt, path)
      && (forall n :: n in d.files && n != f ==> n in p.objects.files && p.objects.files[n] == d.files[n])
      && (forall n :: n in p.objects.files ==> n in d.files || n == f)
    ensures dg in p.objects.externals
    ensures dg in d.externals ==> p.objects.externals == d.externals
    ensures dg !in d.externals ==> p.objects.externals == d.externals[dg := FileObjectName(dg)]
    ensures p.objects.categories == d.categories
    ensures forall c :: c in p.commands && c.Create? ==>
      (c == Create(DataGroupFileClass, FileObjectName(dg)) && FileObjectName(dg) !in d.files)
      || (c == Create(ExternalDataGroupClass, dg) && dg !in d.externals)
    ensures FileObjectName(dg) !in d.files ==> Create(DataGroupFileClass, FileObjectName(dg)) in p.commands
    ensures dg !in d.externals ==> Create(ExternalDataGroupClass, dg) in p.commands
    ensures forall c :: c in p.commands ==> !ModifiesExternal(c) && !c.Sync?
  {
    var f := FileObjectName(dg);
    var files := if f in d.files then d.files[f := d.files[f].(sourcePath := path)]
                 else d.files[f := DataGroupFile(vt, path)];
    var fileCommands := [List(DataGroupFileClass, f)]
      + (if f in d.files then [Modify(DataGroupFileClass, f)] else [Create(DataGroupFileClass, f)]);
    var externals := if dg in d.externals then d.externals else d.externals[dg := f];
    var externalCommands := [List(ExternalDataGroupClass, dg)]
      + (if dg in d.externals then [] else [Create(ExternalDataGroupClass, dg)]);
    Pass(DeviceObjects(files, externals, d.categories), fileCommands + externalCommands)
  }

  // ---------------------------------------------------------------------
  // The custom URL category (lines 298-329)
  // ---------------------------------------------------------------------

  /** Query the category; create it when it was not found. Either way its
      URL list is replaced by the single version marker, and `entries` are
      then added after it. */
  function CategoryPass(d: DeviceObjects, latest: string, entries: seq<UrlEntry>): (p: Pass)
    ensures CategoryName in p.objects.categories
    ensures var created := CategoryName !in d.categories;
      p.objects.categories[CategoryName].urls == [VersionMarker(latest, created)] + entries
    ensures CategoryName in d.categories ==>
      p.objects.categories[CategoryName].displayName == d.categories[CategoryName].displayName
    ensures p.objects.categories - {CategoryName} == d.categories - {CategoryName}
    ensures p.objects.files == d.files && p.objects.externals == d.externals
    ensures forall c :: c in p.commands && c.Create? ==>
      c == Create(UrlCategoryClass, CategoryName) && CategoryName !in d.categories
    ensures CategoryName !in d.categories ==> Create(UrlCategoryClass, CategoryName) in p.commands
  {
    var created := CategoryName !in d.categories;
    var display := if created then CategoryName else d.categories[CategoryName].displayName;
    var category := Category(display, [VersionMarker(latest, created)] + entries);
    var commands := [List(UrlCategoryClass, CategoryName)]
      + (if created then [Create(UrlCategoryClass, CategoryName)] else [])
      + [Modify(UrlCategoryClass, CategoryName), Modify(UrlCategoryClass, CategoryName)];
    Pass(d.(categories := d.categories[CategoryName := category]), commands)
  }

  // ---------------------------------------------------------------------
  // A whole pass (lines 294-466)
  // ---------------------------------------------------------------------

  /** `tmsh save /sys config`, then a config-sync to the device group when
      the unit is HA paired. */
  function SaveAndSync(cfg: Config): seq<Command> {
    [Save] + (if cfg.haConfig == 1 then [Sync(cfg.deviceGroupName)] else [])
  }

  /** Keeps `p` as it is when the target is off; otherwise extends it by
      the data-group pass on the objects `p` left. */
  function DataGroupTarget(enabled: bool, p: Pass, dg: string, vt: ValueType, path: string): (r: Pass)
    ensures Keeps(p.objects, r.objects)
    ensures r.objects.categories == p.objects.categories
    ensures p.commands <= r.commands
    ensures forall c :: c in r.commands[|p.commands|..] ==> !ModifiesExternal(c) && !c.Sync?
    ensures forall c :: c in r.commands[|p.commands|..] && c.Create? ==>
      (c == Create(DataGroupFileClass, FileObjectName(dg)) && FileObjectName(dg) !in p.objects.files)
      || (c == Create(ExternalDataGroupClass, dg) && dg !in p.objects.externals)
    ensures enabled ==> (FileObjectName(dg) in r.objects.files && dg in r.objects.externals
      && r.objects.files[FileObjectName(dg)].sourcePath == path)
    ensures (FileObjectName(dg) in p.objects.files && dg in p.objects.externals
      && p.objects.files[FileObjectName(dg)].sourcePath == path) ==> r.objects == p.objects
    ensures forall n :: n in p.objects.files && n != FileObjectName(dg) ==> r.objects.files[n] == p.objects.files[n]
    ensures forall n :: n in r.objects.files ==> n in p.objects.files || (enabled && n == FileObjectName(dg))
    ensures forall n :: n in r.objects.externals ==> n in p.objects.externals || (enabled && n == dg)
  {
    if enabled then
      var q := DataGroupPass(p.objects, dg, vt, path);
      assert (p.commands + q.commands)[|p.commands|..] == q.commands;
      assert (FileObjectName(dg) in p.objects.files && dg in p.objects.externals
        && p.objects.files[FileObjectName(dg)].sourcePath == path) ==> q.objects == p.objects by {
        var f := FileObjectName(dg);
        if f in p.objects.files && dg in p.objects.externals && p.objects.files[f].sourcePath == path {
          assert q.objects.files == p.objects.files;
        }
      }
      Then(p, q)
    else
      p
  }

  /** The same for the custom URL category. */
  function CategoryTarget(enabled: bool, p: Pass, latest: string, entries: seq<UrlEntry>): (r: Pass)
    ensures Keeps(p.objects, r.objects)
    ensures r.objects.files == p.objects.files && r.objects.externals == p.objects.externals
    ensures p.commands <= r.commands
    ensures forall c :: c in r.commands[|p.commands|..] ==> !ModifiesExternal(c) && !c.Sync?
    ensures forall c :: c in r.commands[|p.commands|..] && c.Create? ==>
      c == Create(UrlCategoryClass, CategoryName) && CategoryName !in p.objects.categories
    ensures enabled ==> CategoryName in r.objects.categories
  {
    if enabled then
      var q := CategoryPass(p.objects, latest, entries);
      assert (p.commands + q.commands)[|p.commands|..] == q.commands;
      Then(p, q)
    else
      p
  }

  /** The enabled targets in the script's order: URL category, URL data
      group, IPv4 data group, IPv6 data group. */
  function TargetsPass(cfg: Config, d: DeviceObjects, latest: string, entries: seq<UrlEntry>): Pass {
    DataGroupTargets(cfg, CategoryTarget(cfg.useUrl, Pass(d, []), latest, entries))
  }

  /** The URL, IPv4 and IPv6 data-group targets, in that order, after `p`. */
  function DataGroupTargets(cfg: Config, p: Pass): Pass {
    var p2 := DataGroupTarget(cfg.useUrlDg, p, UrlsDataGroup, StringValues, UrlsPath);
    var p3 := DataGroupTarget(cfg.useIpv4, p2, Ipv4DataGroup, IpValues, Ipv4Path);
    DataGroupTarget(cfg.useIpv6, p3, Ipv6DataGroup, IpValues, Ipv6Path)
  }

  /** Every enabled target, then save and sync. */
  function ReconcilePass(cfg: Config, d: DeviceObjects, latest: string, entries: seq<UrlEntry>): Pass {
    var p := TargetsPass(cfg, d, latest, entries);
    Pass(p.objects, p.commands + SaveAndSync(cfg))
  }

  /** Every object an enabled target needs is on the device. */
  predicate Provisioned(cfg: Config, d: DeviceObjects) {
    && (cfg.useUrl ==> CategoryName in d.categories)
    && (cfg.useUrlDg ==> FileObjectName(UrlsDataGroup) in d.files && UrlsDataGroup in d.externals)
    && (cfg.useIpv4 ==> FileObjectName(Ipv4DataGroup) in d.files && Ipv4DataGroup in d.externals)
    && (cfg.useIpv6 ==> FileObjectName(Ipv6DataGroup) in d.files && Ipv6DataGroup in d.externals)
  }

  /** Objects are only ever added or updated, never removed, and an external
      data group that exists is left exactly as it is. */
  predicate Keeps(d: DeviceObjects, e: DeviceObjects) {
    && d.files.Keys <= e.files.Keys
    && d.categories.Keys <= e.categories.Keys
    && (forall n :: n in d.externals ==> n in e.externals && e.externals[n] == d.externals[n])
  }

  lemma FileObjectNamesDistinct()
    ensures FileObjectName(UrlsDataGroup) != FileObjectName(Ipv4DataGroup)
    ensures FileObjectName(UrlsDataGroup) != FileObjectName(Ipv6DataGroup)
    ensures FileObjectName(Ipv4DataGroup) != FileObjectName(Ipv6DataGroup)
  {
    assert FileObjectName(UrlsDataGroup)[5] != FileObjectName(Ipv4DataGroup)[5];
    assert FileObjectName(UrlsDataGroup)[5] != FileObjectName(Ipv6DataGroup)[5];
    assert FileObjectName(Ipv4DataGroup)[8] != FileObjectName(Ipv6DataGroup)[8];
  }

  /** After a pass every enabled target's objects exist, nothing was
      removed, no external data group was changed or modified, and each
      enabled data group's file object reads its own artifact. */
  lemma ReconcileProvisions(cfg: Config, d: DeviceObjects, latest: string, entries: seq<UrlEntry>)
    ensures var r := ReconcilePass(cfg, d, latest, entries);
      && Provisioned(cfg, r.objects)
      && Keeps(d, r.objects)
      && (forall c :: c in r.commands ==> !ModifiesExternal(c))
      && (cfg.useUrlDg ==> r.objects.files[FileObjectName(UrlsDataGroup)].sourcePath == UrlsPath)
      && (cfg.useIpv4 ==> r.objects.files[FileObjectName(Ipv4DataGroup)].sourcePath == Ipv4Path)
      && (cfg.useIpv6 ==> r.objects.files[FileObjectName(Ipv6DataGroup)].sourcePath == Ipv6Path)
  {
    var p0 := Pass(d, []);
    var p1 := CategoryTarget(cfg.useUrl, p0, latest, entries);
    var p2 := DataGroupTarget(cfg.useUrlDg, p1, UrlsDataGroup, StringValues, UrlsPath);
    var p3 := DataGroupTarget(cfg.useIpv4, p2, Ipv4DataGroup, IpValues, Ipv4Path);
    var p4 := DataGroupTarget(cfg.useIpv6, p3, Ipv6DataGroup, IpValues, Ipv6Path);
    FileObjectNamesDistinct();
    PassModifiesNoExternal(cfg, d, latest, entries);
  }

  /** No command of a pass re-points an external data group. */
  lemma PassModifiesNoExternal(cfg: Config, d: DeviceObjects, latest: string, entries: seq<UrlEntry>)
    ensures forall c :: c in ReconcilePass(cfg, d, latest, entries).commands ==> !ModifiesExternal(c)
  {
    var p0 := Pass(d, []);
    var p1 := CategoryTarget(cfg.useUrl, p0, latest, entries);
    var p2 := DataGroupTarget(cfg.useUrlDg, p1, UrlsDataGroup, StringValues, UrlsPath);
    var p3 := DataGroupTarget(cfg.useIpv4, p2, Ipv4DataGroup, IpValues, Ipv4Path);
    var p4 := DataGroupTarget(cfg.useIpv6, p3, Ipv6DataGroup, IpValues, Ipv6Path);
    NoModifySuffix(p0.commands, p1.commands);
    NoModifySuffix(p1.commands, p2.commands);
    NoModifySuffix(p2.commands, p3.commands);
    NoModifySuffix(p3.commands, p4.commands);
  }

  lemma NoModifySuffix(a: seq<Command>, b: seq<Command>)
    requires a <= b
    requires forall c :: c in a ==> !ModifiesExternal(c)
    requires forall c :: c in b[|a|..] ==> !ModifiesExternal(c)
    ensures forall c :: c in b ==> !ModifiesExternal(c)
  {
    assert b == a + b[|a|..];
  }

  lemma NoCreateSuffix(a: seq<Command>, b: seq<Command>)
    requires a <= b
    requires forall c :: c in a ==> !c.Create?
    requires forall c :: c in b[|a|..] ==> !c.Create?
    ensures forall c :: c in b ==> !c.Create?
  {
    assert b == a + b[|a|..];
  }

  /** On a device where every enabled target's objects already exist, a
      pass creates nothing. */
  lemma ProvisionedPassCreatesNothing(cfg: Config, d: DeviceObjects, latest: string, entries: seq<UrlEntry>)
    requires Provisioned(cfg, d)
    ensures forall c :: c in ReconcilePass(cfg, d, latest, entries).commands ==> !c.Create?
  {
    var p0 := Pass(d, []);
    var p1 := CategoryTarget(cfg.useUrl, p0, latest, entries);
    var p2 := DataGroupTarget(cfg.useUrlDg, p1, UrlsDataGroup, StringValues, UrlsPath);
    var p3 := DataGroupTarget(cfg.useIpv4, p2, Ipv4DataGroup, IpValues, Ipv4Path);
    var p4 := DataGroupTarget(cfg.useIpv6, p3, Ipv6DataGroup, IpValues, Ipv6Path);
    NoCreateSuffix(p0.commands, p1.commands);
    NoCreateSuffix(p1.commands, p2.commands);
    NoCreateSuffix(p2.commands, p3.commands);
    NoCreateSuffix(p3.commands, p4.commands);
  }

  /** A second pass, whatever version stamp and entries it carries, creates
      nothing and leaves every data-group object as the first pass left it. */
  lemma SecondPassCreatesNothing(cfg: Config, d: DeviceObjects, latest: string, entries: seq<UrlEntry>,
                                 latest': string, entries': seq<UrlEntry>)
    ensures var first := ReconcilePass(cfg, d, latest, entries).objects;
      var second := ReconcilePass(cfg, first, latest', entries');
      && (forall c :: c in second.commands ==> !c.Create?)
      && second.objects.files == first.files
      && second.objects.externals == first.externals
  {
    var first := ReconcilePass(cfg, d, latest, entries).objects;
    ReconcileProvisions(cfg, d, latest, entries);
    ProvisionedPassCreatesNothing(cfg, first, latest', entries');
    var q1 := CategoryTarget(cfg.useUrl, Pass(first, []), latest', entries');
    var q2 := DataGroupTarget(cfg.useUrlDg, q1, UrlsDataGroup, StringValues, UrlsPath);
    var q3 := DataGroupTarget(cfg.useIpv4, q2, Ipv4DataGroup, IpValues, Ipv4Path);
    var q4 := DataGroupTarget(cfg.useIpv6, q3, Ipv6DataGroup, IpValues, Ipv6Path);
    assert q2.objects.files == first.files && q2.objects.externals == first.externals;
    assert q3.objects.files == first.files && q3.objects.externals == first.externals;
  }

  /** Every pass ends by saving the configuration; it syncs to the device
      group, as its very last command, exactly when `ha_config == 1`. */
  lemma PassEndsWithSave(cfg: Config, d: DeviceObjects, latest: string, entries: seq<UrlEntry>)
    ensures var cs := ReconcilePass(cfg, d, latest, entries).commands;
      && (cfg.haConfig == 1 ==> |cs| >= 2 && cs[|cs| - 2] == Save && cs[|cs| - 1] == Sync(cfg.deviceGroupName))
      && (cfg.haConfig != 1 ==> |cs| >= 1 && cs[|cs| - 1] == Save)
      && ((exists c :: c in cs && c.Sync?) <==> cfg.haConfig == 1)
  {
    var t := TargetsPass(cfg, d, latest, entries).commands;
    TargetsIssueNoSync(cfg, d, latest, entries);
    var cs := t + SaveAndSync(cfg);
    assert cs == ReconcilePass(cfg, d, latest, entries).commands;
    if cfg.haConfig == 1 {
      assert cs[|cs| - 1] in cs;
    } else {
      assert forall c :: c in cs ==> c in t || c == Save;
    }
  }

  lemma TargetsIssueNoSync(cfg: Config, d: DeviceObjects, latest: string, entries: seq<UrlEntry>)
    ensures forall c :: c in TargetsPass(cfg, d, latest, entries).commands ==> !c.Sync?
  {
    var p0 := Pass(d, []);
    var p1 := CategoryTarget(cfg.useUrl, p0, latest, entries);
    var p2 := DataGroupTarget(cfg.useUrlDg, p1, UrlsDataGroup, StringValues, UrlsPath);
    var p3 := DataGroupTarget(cfg.useIpv4, p2, Ipv4DataGroup, IpValues, Ipv4Path);
    var p4 := DataGroupTarget(cfg.useIpv6, p3, Ipv6DataGroup, IpValues, Ipv6Path);
    NoSyncSuffix(p0.commands, p1.commands);
    NoSyncSuffix(p1.commands, p2.commands);
    NoSyncSuffix(p2.commands, p3.commands);
    NoSyncSuffix(p3.commands, p4.commands);
  }

  lemma NoSyncSuffix(a: seq<Command>, b: seq<Command>)
    requires a <= b
    requires forall c :: c in a ==> !c.Sync?
    requires forall c :: c in b[|a|..] ==> !c.Sync?
    ensures forall c :: c in b ==> !c.Sync?
  {
    assert b == a + b[|a|..];
  }
}
