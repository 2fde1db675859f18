/** The BIG-IP the script runs on: its local work files, its configuration
    objects, and the journal of `tmsh` commands issued against them. Each
    method is one step of the script; each reconciling method is proved
    against its specification function in `Reconciler`. */
module Device {
  import opened Wrappers
  import opened Records
  import opened Text
  import opened VersionCheck
  import opened Artifacts
  import opened Reconciler

  /** The content of the local file at `path`, when there is one. */
  function FileAt(files: map<string, string>, path: string): (r: Option<string>)
    ensures r.Some? <==> path in files
    ensures r.Some? ==> r.value == files[path]
  {
    if path in files then Some(files[path]) else None
  }

  class BigIp {
    /** Local files by path (the work directory and its artifacts). */
    var files: map<string, string>
    /** The configuration objects `tmsh` sees. */
    var objects: DeviceObjects
    /** Every configuration command issued so far, in order. */
    var journal: seq<Command>

    constructor (files0: map<string, string>, objects0: DeviceObjects)
      ensures files == files0 && objects == objects0 && journal == []
    {
      files := files0;
      objects := objects0;
      journal := [];
    }

    // -------------------------------------------------------------------
    // Single device calls. A `create` of an object that is already there,
    // or a `modify` of one that is not, fails inside tmsh; the script never
    // looks at that output, so such a call changes nothing.
    // -------------------------------------------------------------------

    /** `tmsh list ...`: reports whether the object is found. */
    method Query(cls: ObjectClass, name: string) returns (found: bool)
      modifies this`journal
      ensures found <==> Exists(objects, cls, name)
      ensures journal == old(journal) + [List(cls, name)]
    {
      found := Exists(objects, cls, name);
      journal := journal + [List(cls, name)];
    }

    /** `tmsh create /sys file data-group <name> type <vt> source-path file:<path>`. */
    method CreateFileObject(name: string, vt: ValueType, path: string)
      modifies this`objects, this`journal
      ensures name in old(objects.files) ==> objects == old(objects)
      ensures name !in old(objects.files) ==>
        objects == old(objects).(files := old(objects.files)[name := DataGroupFile(vt, path)])
      ensures journal == old(journal) + [Create(DataGroupFileClass, name)]
    {
      if name !in objects.files {
        objects := objects.(files := objects.files[name := DataGroupFile(vt, path)]);
      }
      journal := journal + [Create(DataGroupFileClass, name)];
    }

    /** `tmsh modify /sys file data-group <name> source-path file:<path>`. */
    method ModifyFileSource(name: string, path: string)
      modifies this`objects, this`journal
      ensures name !in old(objects.files) ==> objects == old(objects)
      ensures name in old(objects.files) ==>
        objects == old(objects).(files := old(objects.files)[name := old(objects.files[name]).(sourcePath := path)])
      ensures journal == old(journal) + [Modify(DataGroupFileClass, name)]
    {
      if name in objects.files {
        objects := objects.(files := objects.files[name := objects.files[name].(sourcePath := path)]);
      }
      journal := journal + [Modify(DataGroupFileClass, name)];
    }

    /** `tmsh create /ltm data-group external <dg> external-file-name <file>`. */
    method CreateExternal(dg: string, file: string)
      modifies this`objects, this`journal
      ensures dg in old(objects.externals) ==> objects == old(objects)
      ensures dg !in old(objects.externals) ==>
        objects == old(objects).(externals := old(objects.externals)[dg := file])
      ensures journal == old(journal) + [Create(ExternalDataGroupClass, dg)]
    {
      if dg !in objects.externals {
        objects := objects.(externals := objects.externals[dg := file]);
      }
      journal := journal + [Create(ExternalDataGroupClass, dg)];
    }

    /** `tmsh create /sys url-db url-category <name> display-name <name>`. */
    method CreateCategory(name: string)
      modifies this`objects, this`journal
      ensures name in old(objects.categories) ==> objects == old(objects)
      ensures name !in old(objects.categories) ==>
        objects == old(objects).(categories := old(objects.categories)[name := Category(name, [])])
      ensures journal == old(journal) + [Create(UrlCategoryClass, name)]
    {
      if name !in objects.categories {
        objects := objects.(categories := objects.categories[name := Category(name, [])]);
      }
      journal := journal + [Create(UrlCategoryClass, name)];
    }

    /** `tmsh modify ... url-category <name> urls replace-all-with { ... }`. */
    method ReplaceAllCategoryUrls(name: string, urls: seq<UrlEntry>)
      modifies this`objects, this`journal
      ensures name !in old(objects.categories) ==> objects == old(objects)
      ensures name in old(objects.categories) ==>
        objects == old(objects).(categories := old(objects.categories)[name := old(objects.categories[name]).(urls := urls)])
      ensures journal == old(journal) + [Modify(UrlCategoryClass, name)]
    {
      if name in objects.categories {
        objects := objects.(categories := objects.categories[name := objects.categories[name].(urls := urls)]);
      }
      journal := journal + [Modify(UrlCategoryClass, name)];
    }

    /** `tmsh modify ... url-category <name> urls add { ... } urls add { ... } ...`:
        one command appending every entry. */
    method AddCategoryUrls(name: string, urls: seq<UrlEntry>)
      modifies this`objects, this`journal
      ensures name !in old(objects.categories) ==> objects == old(objects)
      ensures name in old(objects.categories) ==>
        objects == old(objects).(categories := old(objects.categories)[name := old(objects.categories[name]).(urls := old(objects.categories[name].urls) + urls)])
      ensures journal == old(journal) + [Modify(UrlCategoryClass, name)]
    {
      if name in objects.categories {
        var c := objects.categories[name];
        objects := objects.(categories := objects.categories[name := c.(urls := c.urls + urls)]);
      }
      journal := journal + [Modify(UrlCategoryClass, name)];
    }

    /** `tmsh save /sys config`. */
    method SaveConfig()
      modifies this`journal
      ensures journal == old(journal) + [Save]
    {
      journal := journal + [Save];
    }

    /** `tmsh run cm config-sync to-group <group>`. */
    method ConfigSync(group: string)
      modifies this`journal
      ensures journal == old(journal) + [Sync(group)]
    {
      journal := journal + [Sync(group)];
    }

    /** Opens `path` for writing and writes `content`: the file holds exactly
        `content` afterwards. */
    method WriteFile(path: string, content: string)
      modifies this`files
      ensures files == old(files)[path := content]
    {
      files := files[path := content];
    }

    // -------------------------------------------------------------------
    // The GUID and version files (lines 141-220)
    // -------------------------------------------------------------------

    /** Creates the GUID file holding a newline when it is missing, keeps its
        first line when that starts with a UUID, and otherwise writes and
        uses `generated`. */
    method LoadGuid(generated: string) returns (guid: string)
      requires IsUuidText(generated)
      modifies this`files
      ensures guid == GuidInUse(FileAt(old(files), GuidPath), generated)
      ensures files == old(files)[GuidPath := GuidFileAfter(FileAt(old(files), GuidPath), generated)]
    {
      if GuidPath !in files {
        WriteFile(GuidPath, "\n");
      }
      var line := ReadLine(files[GuidPath]);
      if StartsWithUuid(line) {
        guid := line;
      } else {
        guid := generated;
        WriteFile(GuidPath, guid);
      }
    }

    /** Reads the previous stamp from the version file; a missing file, or
        one whose first line does not start with ten digits, is overwritten
        with the default stamp, which is then the previous one. */
    method LoadPreviousVersion() returns (previous: string)
      modifies this`files
      ensures previous == PreviousVersion(FileAt(old(files), VersionPath))
      ensures files == old(files)[VersionPath := VersionFileAfterLoad(FileAt(old(files), VersionPath))]
    {
      if VersionPath in files && StartsWithTenDigits(ReadLine(files[VersionPath])) {
        previous := ReadLine(files[VersionPath]);
        assert files == old(files)[VersionPath := files[VersionPath]];
      } else {
        previous := DefaultVersion;
        WriteFile(VersionPath, previous);
      }
    }

    /** Scans the version answer (nothing when the request failed); every
        worldwide record with a well-formed stamp becomes the latest stamp
        and is written to the version file at once. */
    method RecordLatestVersion(response: Option<seq<VersionRecord>>) returns (latest: string)
      modifies this`files
      ensures latest == LatestVersion(response)
      ensures latest == "" ==> files == old(files)
      ensures latest != "" ==> files == old(files)[VersionPath := latest]
    {
      var records := if response.Some? then response.value else [];
      latest := "";
      for i := 0 to |records|
        invariant latest == LatestOf(records[..i])
        invariant latest == "" ==> files == old(files)
        invariant latest != "" ==> files == old(files)[VersionPath := latest]
      {
        assert records[..i + 1][..i] == records[..i];
        var r := records[i];
        if r.instance.Some? && r.instance.value == Worldwide && r.latest.Some? {
          var candidate := r.latest.value;
          if StartsWithTenDigits(candidate) {
            latest := candidate;
            WriteFile(VersionPath, latest);
          }
        }
      }
      assert records[..|records|] == records;
    }

    // -------------------------------------------------------------------
    // Reconciling targets (lines 294-466)
    // -------------------------------------------------------------------

    /** Lines 354-372, 393-411 and 432-450: query the file object, create it
        or re-point it at `path`, then create the external data group when
        it was not found. */
    method ReconcileDataGroup(dg: string, vt: ValueType, path: string)
      modifies this`objects, this`journal
      ensures objects == DataGroupPass(old(objects), dg, vt, path).objects
      ensures journal == old(journal) + DataGroupPass(old(objects), dg, vt, path).commands
    {
      var f := FileObjectName(dg);
      var found := Query(DataGroupFileClass, f);
      if !found {
        CreateFileObject(f, vt, path);
      } else {
        ModifyFileSource(f, path);
      }
      found := Query(ExternalDataGroupClass, dg);
      if !found {
        CreateExternal(dg, f);
      }
    }

    /** Lines 298-329: query the category, create it when absent, replace
        its URL list by the version marker, then add two entries per
        distinct collected URL in one command. Returns the entries added.
        The entries are computed before the device calls; computing them
        touches no device state, so the calls are still issued in the
        script's order. */
    method ReconcileCategory(latest: string, urls: seq<string>) returns (entries: seq<UrlEntry>)
      modifies this`objects, this`journal
      ensures |entries| == 2 * |set u | u in urls|
      ensures forall e :: e in entries <==> EntryOf(urls, e)
      ensures ListsEntries(urls, entries)
      ensures objects == CategoryPass(old(objects), latest, entries).objects
      ensures journal == old(journal) + CategoryPass(old(objects), latest, entries).commands
    {
      entries := BuildCategoryEntries(urls);
      ApplyCategory(latest, entries);
    }

    /** The device calls of lines 298-329 for a given list of entries. */
    method ApplyCategory(latest: string, entries: seq<UrlEntry>)
      modifies this`objects, this`journal
      ensures objects == CategoryPass(old(objects), latest, entries).objects
      ensures journal == old(journal) + CategoryPass(old(objects), latest, entries).commands
    {
      var found := Query(UrlCategoryClass, CategoryName);
      if !found {
        CreateCategory(CategoryName);
      }
      ReplaceAllCategoryUrls(CategoryName, [VersionMarker(latest, !found)]);
      AddCategoryUrls(CategoryName, entries);
    }

    /** Lines 455-466: save the configuration, then sync it to the device
        group when the unit is in a sync-failover pair. */
    method SaveAndSyncConfig(cfg: Config)
      modifies this`journal
      ensures journal == old(journal) + SaveAndSync(cfg)
    {
      SaveConfig();
      if cfg.haConfig == 1 {
        ConfigSync(cfg.deviceGroupName);
      }
    }
  }
}
