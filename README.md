# Office 365 endpoint automation for BIG-IP, modelled in Dafny

`o365_ip_url_automation.py` is a cron script for an F5 BIG-IP. Its `main()`
works in five steps:

1. It checks that the unit may write: the unit is ACTIVE, or it is not in an HA pair.
2. It keeps a client GUID and the published version stamp in files under `/var/tmp/o365`.
3. It asks Microsoft's web service for the published version stamp, and stops early when that stamp equals the one on file and no refresh is forced.
4. It fetches the list and collects the URLs and the IPv4/IPv6 networks of the service areas the user cares about.
5. It publishes them to the unit as:
   - a custom URL category (`Office365`);
   - three external data groups (`o365_url_dg`, `o365_ipv4_dg`, `o365_ipv6_dg`), each backed by a data-group file object that reads a text artifact.

   It then saves the configuration and, on an HA pair, syncs it to the device group.

The model has one module per concern:

| file | module | what it holds |
|---|---|---|
| `wrappers.dfy` | `Wrappers` | `Option` |
| `text.dfy` | `Text` | The four regular expressions as string predicates and transformations, plus `readline()`, `lower()` and the `*` escaping |
| `ordering.dfy` | `Ordering` | Python's string order, and `sorted(set(xs))` as `SortedUnique` |
| `records.dfy` | `Records` | The user options, the JSON records and the script's constants |
| `version_check.dfy` | `VersionCheck` | The writer gate, the GUID file, and the previous/latest stamps and the early stop |
| `classifier.dfy` | `Classifier` | The loop over endpoint records, as a method proved against recursive specification functions |
| `artifacts.dfy` | `Artifacts` | Data-group key shaping, the artifact texts and their read-back, and the URL-category entries |
| `reconciler.dfy` | `Reconciler` | The device as an object store, and one pass per target as a function on values, with the idempotence lemmas |
| `bigip.dfy` | `Device` | `class BigIp`: local files, configuration objects, and the journal of `tmsh` commands; one method per device call and per script step |
| `orchestrator.dfy` | `Orchestrator` | `Run`, which is `main()`, and `RunTwice`, a client proving what a second run does |

Behaviours of the script that are easy to misread:

- **Data-group keys keep the leading dot.** The regular expression on line 337 turns `*.outlook.com` into `.outlook.com`, not `outlook.com`.
- **Glob entries are escaped.** URL-category glob entries are written `https://\*.outlook.com/`, because every `*` is escaped on line 320.
- **A failed endpoint request still records the new stamp.** The version file already holds the newly observed latest stamp (lines 217-220) when the endpoint request then fails and the run stops at line 240.
- **Save always runs.** The configuration is saved (line 456) after the targets, even when no target is enabled.
- **URL-category duplicates are removed before lower-casing** (line 309, then line 314). So two URLs that differ only in case give four entries.

## Model

| member | source | states |
|---|---|---|
| VersionCheck.IsWriter | o365_ip_url_automation.py:123-132 | The run goes on exactly when the failover output contains `status ACTIVE` or `ha_config == 0`. |
| Text.Contains | o365_ip_url_automation.py:125 | Python's `in` on strings: true exactly when the pattern occurs at some index. |
| Text.ReadLine | o365_ip_url_automation.py:151 | `readline()` returns a prefix of the file with no newline before its last character, ending in a newline unless it is the whole file. |
| Text.StartsWithUuid | o365_ip_url_automation.py:153 | `re.match` of the UUID pattern: the first 36 characters are 8-4-4-4-12 lower-case hex digits separated by `-`, and what follows is not looked at. |
| Text.IsUuidText | o365_ip_url_automation.py:157 | The text `str(uuid.uuid4())` gives: exactly 36 characters, all of them the 8-4-4-4-12 pattern. |
| VersionCheck.GuidFileRead | o365_ip_url_automation.py:142-151 | A missing GUID file is created holding a single newline before it is read; an existing one is read as it is. |
| VersionCheck.GuidInUse | o365_ip_url_automation.py:143-162 | The GUID in use always starts with the 8-4-4-4-12 lower-case hex pattern. It is the file's first line, verbatim, whenever that line starts with it, and the generated UUID otherwise. |
| VersionCheck.GuidFileAfter | o365_ip_url_automation.py:149-162 | After the GUID step the file's first line starts with a UUID. A file that already did is left unchanged, and any other file now holds exactly the generated UUID. |
| VersionCheck.GuidStable | o365_ip_url_automation.py:149-162 | A second run reads the same GUID and leaves the file as it is, whatever UUID it generates. |
| Text.UuidReadsBack | o365_ip_url_automation.py:157-161 | A generated UUID holds no newline, so `readline()` on the file it was written to gives it back whole. |
| Text.StartsWithTenDigits | o365_ip_url_automation.py:174 | `re.match('[0-9]{10}', s)`, here and at line 215: the first ten characters are decimal digits. |
| VersionCheck.PreviousVersion | o365_ip_url_automation.py:169-190 | The previous stamp always starts with ten digits: it is the file's first line when that starts with ten digits, and `1970010200` otherwise. |
| VersionCheck.VersionFileAfterLoad | o365_ip_url_automation.py:169-190 | A valid version file is left unchanged; a missing or invalid one now holds exactly `1970010200`. Either way it yields the same previous stamp. |
| VersionCheck.LatestOfMeaning | o365_ip_url_automation.py:209-220 | The latest stamp is empty iff no record is `Worldwide` with a `latest` that starts with ten digits; otherwise it is the stamp of the last such record. |
| VersionCheck.OffersLatest | o365_ip_url_automation.py:212-215 | A version record offers a stamp exactly when its `instance` is `Worldwide`, it has a `latest` key, and that value starts with ten digits. |
| VersionCheck.LatestOf | o365_ip_url_automation.py:210-220 | The stamp the overwrite loop leaves is empty or starts with ten digits; `LatestOfMeaning` says which record it comes from. |
| VersionCheck.LatestVersion | o365_ip_url_automation.py:196-220 | A failed version request scans no record and gives the empty stamp; an answer gives the stamp of its scan. |
| VersionCheck.StopsEarly | o365_ip_url_automation.py:225 | A stop needs `force_o365_record_refresh == 0`, and with a well-formed previous stamp it only happens on a well-formed latest one; `StopsEarlyMeaning` states it over the version answer. |
| VersionCheck.UnusableAnswerNeverStops | o365_ip_url_automation.py:201-227 | A failed version request, or one with no usable record, gives an empty latest stamp and never stops the run. |
| VersionCheck.StopsEarlyMeaning | o365_ip_url_automation.py:225-227 | The run stops early iff no refresh is forced and the last usable record's stamp equals the previous stamp. |
| Device.BigIp.LoadGuid | o365_ip_url_automation.py:141-162 | Creates a missing GUID file holding a newline, then returns and leaves the GUID and file that `GuidInUse` and `GuidFileAfter` specify. |
| Device.BigIp.LoadPreviousVersion | o365_ip_url_automation.py:169-190 | Returns `PreviousVersion` of the file and leaves `VersionFileAfterLoad` in it. |
| Device.BigIp.RecordLatestVersion | o365_ip_url_automation.py:196-220 | The scan loop returns the latest stamp and, if one was found, leaves it in the version file; otherwise no file changes. |
| Orchestrator.RecordedStampIsNextPrevious | o365_ip_url_automation.py:169-227 | A recorded stamp with no newline becomes the next run's previous stamp, so a second run seeing the same answer, without forced refresh, stops early. |
| Classifier.Interesting | o365_ip_url_automation.py:250-254 | Only a record of one of the five service areas (`Common`, `Exchange`, `SharePoint`, `Skype`, `Yammer`) can be kept, and none is when every `care_*` flag is off. |
| Classifier.CollectsUrls | o365_ip_url_automation.py:256 | URLs are collected when either the URL category or the URL data group is enabled. |
| Classifier.CollectsIps | o365_ip_url_automation.py:275 | Addresses are collected when either the IPv4 or the IPv6 data group is enabled. |
| Classifier.RecordUrls | o365_ip_url_automation.py:257-273 | A record contributes its `urls`, then its `allowUrls`, then its `defaultUrls`, each only when the key is present. |
| Classifier.AppendUrls | o365_ip_url_automation.py:257-272 | The append loop over one of `urls`, `allowUrls`, `defaultUrls` extends the list by that key's URLs in order, and by nothing when the key is absent. |
| Classifier.AppendIps | o365_ip_url_automation.py:277-283 | The loop over a record's `ips` keeps the IPv4 and IPv6 lists equal to the split of every address seen so far. |
| Classifier.ClassifyRecord | o365_ip_url_automation.py:250-283 | One record of a cared-for area appends its URLs when URLs are collected and splits its addresses when addresses are collected; any other record changes nothing. |
| Classifier.BypassUrlsMembership | o365_ip_url_automation.py:246-272 | A URL is collected iff URLs are collected at all and some record of a cared-for service area lists it in `urls`, `allowUrls` or `defaultUrls`. |
| Classifier.SeenIpsMembership | o365_ip_url_automation.py:246-283 | An address is seen iff addresses are collected at all and some record of a cared-for service area lists it in `ips`. |
| Classifier.Split | o365_ip_url_automation.py:278-283 | One side of the split holds exactly the seen addresses that pass, or fail, the IPv6 test. |
| Classifier.SplitPartitions | o365_ip_url_automation.py:278-283 | The IPv4 and IPv6 lists together are a permutation of the seen addresses. |
| Classifier.IpPartition | o365_ip_url_automation.py:274-288 | Every seen address lands in exactly one list: IPv6 iff it has a colon at index 1 or later before any newline. The two list lengths sum to the number seen. |
| Text.IsIpv6Text | o365_ip_url_automation.py:280 | `re.match('^.+:', ip)`: at least one character that is not a newline, then a colon on the same line. |
| Text.IsIpv6TextMeaning | o365_ip_url_automation.py:280 | `re.match('^.+:', ip)` holds iff some index k >= 1 has a colon with no newline before it. |
| Classifier.Classify | o365_ip_url_automation.py:246-283 | The record loop leaves the URL, IPv4 and IPv6 lists that `BypassUrls`, `Ipv4Networks` and `Ipv6Networks` specify. |
| Text.StripWildcardPrefix | o365_ip_url_automation.py:337 | The `re.sub` result is a suffix of the URL. It is the whole URL when there is no `*` on the first line; otherwise it is empty or starts with the first `.` after the last such `*`. |
| Text.StripWildcardPrefixIdempotent | o365_ip_url_automation.py:337 | On a single-line URL the result holds no `*`, and stripping again changes nothing. |
| Artifacts.DataGroupKey | o365_ip_url_automation.py:337 | A key is never longer than its URL, and a URL with no `*` on its first line is only lower-cased. |
| Artifacts.DataGroupKeyIdempotent | o365_ip_url_automation.py:337 | A shaped data-group key holds no `*`, and shaping it again gives the same key. |
| Artifacts.ShapeUrls | o365_ip_url_automation.py:336-338 | The loop builds the shaped key of every collected URL, in order. |
| Artifacts.UrlLine | o365_ip_url_automation.py:343 | One URL data-group line: the key, then ` := 1,` and a newline. |
| Artifacts.NetworkLine | o365_ip_url_automation.py:382 | One address data-group line, here and at line 421: `network `, the address, a comma and a newline. |
| Artifacts.RenderUrlDataGroup | o365_ip_url_automation.py:340-345 | The write loop produces the URL artifact text `UrlDataGroupText`. |
| Artifacts.UrlDataGroupReadsBack | o365_ip_url_automation.py:336-345 | The URL artifact is one `<key> := 1,` line per distinct shaped key, in strictly ascending order. Every key is the shape of some collected URL. |
| Artifacts.RenderNetworkDataGroup | o365_ip_url_automation.py:378-384 | The write loop produces the address artifact text `NetworkDataGroupText`. |
| Artifacts.NetworkDataGroupReadsBack | o365_ip_url_automation.py:380-384 | An address artifact is one `network <ip>,` line per distinct address, in strictly ascending order. |
| Ordering.Less | o365_ip_url_automation.py:342 | Python's order on strings, the order `sorted` writes the artifacts in: code point by code point, a proper prefix first. |
| Ordering.LessIrreflexive | o365_ip_url_automation.py:342 | No string is below itself. |
| Ordering.LessTransitive | o365_ip_url_automation.py:342 | The order is transitive. |
| Ordering.LessTotal | o365_ip_url_automation.py:342 | Any two different strings are ordered one way or the other. |
| Ordering.SortedUnique | o365_ip_url_automation.py:342 | `sorted(set(xs))` is strictly ascending and holds exactly the elements of `xs`. |
| Ordering.SortedUniqueDependsOnElements | o365_ip_url_automation.py:342 | `sorted(set(xs))` depends only on which elements occur. |
| Ordering.AscendingUnique | o365_ip_url_automation.py:342 | Two strictly ascending lists with the same elements are equal. |
| Text.Lower | o365_ip_url_automation.py:314 | `lower()` keeps the length and maps each character to its lower-case form. |
| Text.EscapeStars | o365_ip_url_automation.py:320 | The escaping leaves no bare `*`: every `*` of the result follows a backslash, and a text without `*` is kept as it is. |
| Text.EscapeStarsRoundTrip | o365_ip_url_automation.py:320 | Escaping every `*` as `\*` can be undone, so the original URL is recoverable from each glob entry. |
| Artifacts.CategoryEntries | o365_ip_url_automation.py:316-326 | Each URL gives two entries of one match type, glob iff the URL starts with `*`: `https://<e>/` and `https://<e>`, where `e` is the URL with every `*` escaped for a glob and the URL itself otherwise; the URL is recovered from the second entry. |
| Artifacts.BuildCategoryEntries | o365_ip_url_automation.py:309-326 | Iterating the set of collected URLs gives the entries of some duplicate-free listing of those URLs: two per URL, in listing order, each pair the `CategoryEntries` of the lower-cased URL. So there are two entries per distinct URL, and an entry is present iff it belongs to some collected URL. |
| Artifacts.EntriesOfListingMembership | o365_ip_url_automation.py:309-326 | The entries of a listing are exactly the two entries of each lower-cased URL in it. |
| Artifacts.DistinctCardinality | o365_ip_url_automation.py:309 | A listing without duplicates has as many URLs as the set it lists. |
| Artifacts.EnumerationEntries | o365_ip_url_automation.py:309-326 | Whatever the set's iteration order, the entries of a duplicate-free listing of the collected URLs number two per distinct URL and are those of the collected URLs. |
| Reconciler.CategoryPass | o365_ip_url_automation.py:294-329 | The category exists afterwards, created only if it was absent. Its list is the version marker `https://<latest>` (just created) or `https://<latest>/` (already there) followed by the entries. Nothing else changes. |
| Artifacts.VersionMarker | o365_ip_url_automation.py:302-305 | The category's first entry is the exact-match URL `https://<latest>` when the category was just created, and `https://<latest>/` when it already existed. |
| Reconciler.DataGroupPass | o365_ip_url_automation.py:354-372 | The file object exists afterwards and reads the artifact path, keeping its type if it existed and taking the target's type if created. The external data group is created only if absent and is left as it is otherwise. Only missing objects are created. |
| Reconciler.DataGroupTarget | o365_ip_url_automation.py:393-411 | One enabled data-group target provisions its objects. It only adds objects, never changes an external data group, issues no sync, and re-running it on settled objects changes nothing. |
| Reconciler.CategoryTarget | o365_ip_url_automation.py:294-329 | An enabled category target provisions the category and creates nothing that already exists. |
| Reconciler.TargetsPass | o365_ip_url_automation.py:294-450 | The enabled targets in the script's order: URL category, URL data group, IPv4 data group, IPv6 data group, each on the objects the previous one left. |
| Reconciler.DataGroupTargets | o365_ip_url_automation.py:354-450 | The URL, IPv4 and IPv6 data-group targets, in that order, each one applied to the pass the one before it left. |
| Reconciler.SaveAndSync | o365_ip_url_automation.py:455-466 | The closing commands: a save, then a sync to the device group when `ha_config == 1`. |
| Reconciler.ReconcilePass | o365_ip_url_automation.py:294-466 | A whole pass: `TargetsPass`, then `SaveAndSync`; its lemmas below state what it provisions and that a second pass creates nothing. |
| Reconciler.FileObjectName | o365_ip_url_automation.py:354 | The file object behind a data group is named after it with the suffix `_object`, as on lines 354-450. |
| Reconciler.FileObjectNamesDistinct | o365_ip_url_automation.py:80-82 | The three data groups' file objects have distinct names. |
| Reconciler.ReconcileProvisions | o365_ip_url_automation.py:294-450 | After a pass every enabled target's objects exist and nothing was removed. No external data group was modified, and each enabled file object reads its own artifact path. |
| Reconciler.ProvisionedPassCreatesNothing | o365_ip_url_automation.py:354-450 | A pass on a device that already has every enabled target's objects issues no create. |
| Reconciler.SecondPassCreatesNothing | o365_ip_url_automation.py:294-450 | A second pass, whatever stamp and entries it carries, issues no create and leaves every data-group object as the first left it. |
| Reconciler.PassEndsWithSave | o365_ip_url_automation.py:455-466 | Every pass ends with a save. It is followed by a sync to the device group exactly when `ha_config == 1`, and no other sync is issued. |
| Device.BigIp.Query | o365_ip_url_automation.py:354-356 | Reports found iff the object exists, and logs the `list` command. |
| Device.BigIp.CreateFileObject | o365_ip_url_automation.py:357 | Adds the file object with its type and source path when absent; otherwise changes nothing but the journal. |
| Device.BigIp.ModifyFileSource | o365_ip_url_automation.py:360 | Re-points an existing file object's source path and keeps its type. |
| Device.BigIp.CreateExternal | o365_ip_url_automation.py:371 | Adds the external data group reading the file object when absent. |
| Device.BigIp.CreateCategory | o365_ip_url_automation.py:301 | Adds the empty category, with its own name as display name, when absent. |
| Device.BigIp.ReplaceAllCategoryUrls | o365_ip_url_automation.py:302-305 | Replaces an existing category's URL list with the given one. |
| Device.BigIp.AddCategoryUrls | o365_ip_url_automation.py:329 | Appends the entries to an existing category's URL list in one command. |
| Device.BigIp.SaveConfig | o365_ip_url_automation.py:456 | Logs the save command. |
| Device.BigIp.ConfigSync | o365_ip_url_automation.py:465 | Logs the sync command to the named group. |
| Device.BigIp.WriteFile | o365_ip_url_automation.py:340-344 | The file holds exactly the written content, and no other file changes. |
| Device.BigIp.ReconcileDataGroup | o365_ip_url_automation.py:354-372 | The query-create-or-modify calls leave the objects and journal that `DataGroupPass` specifies. |
| Device.BigIp.ReconcileCategory | o365_ip_url_automation.py:294-329 | The calls leave the objects and journal that `CategoryPass` specifies, and return the entries of a duplicate-free listing of the collected URLs: two per distinct URL. |
| Device.BigIp.ApplyCategory | o365_ip_url_automation.py:298-329 | Query, create when absent, replace the list with the version marker, then add the entries: the objects and journal of `CategoryPass`. |
| Device.BigIp.SaveAndSyncConfig | o365_ip_url_automation.py:455-466 | Appends the save, then the sync when `ha_config == 1`. |
| Orchestrator.Prelude | o365_ip_url_automation.py:141-220 | The GUID, previous-stamp and latest-stamp steps in order, leaving `PreludeFiles`. |
| Orchestrator.PreludeFiles | o365_ip_url_automation.py:141-220 | After those steps the GUID file holds `GuidFileAfter`. The version file holds the latest stamp, or the loaded one when none was offered, and no other file changes. |
| Orchestrator.ArtifactFiles | o365_ip_url_automation.py:334-423 | Each enabled target's artifact path holds its artifact text, and no other file changes. |
| Orchestrator.ArtifactsKeepPrelude | o365_ip_url_automation.py:334-423 | Writing the artifacts leaves the GUID and version files alone. |
| Orchestrator.PathsDistinct | o365_ip_url_automation.py:86-91 | The five working files are distinct. |
| Orchestrator.DataGroupStep | o365_ip_url_automation.py:378-411 | Writing an enabled target's artifact and reconciling it advances the pass by `DataGroupTarget`. |
| Orchestrator.DataGroupSteps | o365_ip_url_automation.py:378-450 | The three data-group targets, each artifact written before its objects are reconciled, leave `ArtifactFiles` and the objects and journal of `DataGroupTargets`. |
| Orchestrator.ReconcileTargets | o365_ip_url_automation.py:294-450 | The enabled targets, in the script's order, leave the artifacts and the objects and journal of `TargetsPass`. |
| Orchestrator.Synchronise | o365_ip_url_automation.py:246-466 | Classification, the targets, then save and sync leave the artifacts, and the objects and commands of `ReconcilePass`. The category entries are those of a duplicate-free listing of the collected URLs, two per distinct URL. |
| Orchestrator.Run | o365_ip_url_automation.py:118-468 | `main()`. A unit that may not write changes nothing. The early stop and the failed endpoint request leave only the prelude files and touch no device object. A completed run leaves the artifacts, the objects and the commands of `ReconcilePass`, with category entries listing each distinct collected URL once, two entries each. |
| Orchestrator.RunTwice | o365_ip_url_automation.py:118-468 | Two runs reuse the first GUID. A second completed run creates nothing. After any first run past the gate, a second run that sees the same recorded stamp with no newline, without forced refresh, stops early. |

## Left out

- HTTP requests, status codes and `json.loads`: the version and endpoint answers are inputs, with `None` for a response other than 200. The GUID is returned but not attached to any request.
- `commands.getoutput` and the text of the `tmsh` commands: the device is an object store, and each command is a journal entry naming its class and object. A query answers found or not found instead of the `was not found` text.
- Failing `tmsh` commands. Their output is never checked, so a create of an existing object and a modify of a missing one change nothing.
- Logging (`log`, timestamps, log levels), `os.mkdir` of the work directory, and the `flush`/`close` calls.
- `uuid.uuid4()`: the caller passes any text of the UUID form as `generated`.
- `sys.exit(0)`: an `Outcome` value. Every exit has status 0.
- The order in which Python iterates a set (line 309): `BuildCategoryEntries` lists each distinct URL exactly once, but in an order the caller does not control. Its contract fixes everything about the entries except that order.
- Text.Lower: only ASCII `A`-`Z` are lower-cased. Python's `unicode.lower()` also folds other letters. Not modelled either: the `UnicodeEncodeError` that `str()` raises on a non-ASCII value on lines 247, 343, 382 and 421, and the `KeyError` a record without `serviceArea` or `id` raises on lines 247-248, because `EndpointRecord` makes those two fields mandatory.
- Device.BigIp.AddCategoryUrls: the category list is a sequence that simply grows. How `tmsh` treats an `urls add` of an entry that is already present is not modelled.
- Text.StripWildcardPrefixIdempotent and Artifacts.DataGroupKeyIdempotent: stated only for URLs without a newline. JSON URLs are single-line, and a newline changes what `.` matches.
- Artifacts.UrlDataGroupReadsBack and Artifacts.NetworkDataGroupReadsBack: stated only for inputs without a newline, so that every entry reads back as exactly one line. JSON URLs and addresses are single-line; a newline inside one would split its entry across lines of the artifact.
