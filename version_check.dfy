/** The decisions made before any endpoint is fetched: may this unit write,
    which client GUID is used, and is the published list newer than the one
    last seen. */
module VersionCheck {
  import opened Wrappers
  import opened Text
  import opened Records

  // ---------------------------------------------------------------------
  // Writer gate
  // ---------------------------------------------------------------------

  /** The run goes on when the failover status reports this unit active, or
      when the unit is not configured as part of an HA pair. */
  predicate IsWriter(failoverStatus: string, haConfig: int) {
    Contains(failoverStatus, ActiveMarker) || haConfig == 0
  }

  // ---------------------------------------------------------------------
  // GUID file
  // ---------------------------------------------------------------------

  /** What the GUID file holds when it is read: a missing file is first
      created holding a single newline. */
  function GuidFileRead(file: Option<string>): string {
    file.GetOr("\n")
  }

  /** The first line of the GUID file, kept verbatim, when it starts with a
      UUID; otherwise the freshly generated one. */
  function GuidInUse(file: Option<string>, generated: string): (guid: string)
    requires IsUuidText(generated)
    ensures StartsWithUuid(guid)
    ensures StartsWithUuid(ReadLine(GuidFileRead(file))) ==> guid == ReadLine(GuidFileRead(file))
    ensures !StartsWithUuid(ReadLine(GuidFileRead(file))) ==> guid == generated
  {
    var line := ReadLine(GuidFileRead(file));
    if StartsWithUuid(line) then line else generated
  }

  /** The GUID file after the GUID step: untouched when its first line was a
      valid GUID, otherwise overwritten with the generated one. */
  function GuidFileAfter(file: Option<string>, generated: string): (content: string)
    requires IsUuidText(generated)
    ensures StartsWithUuid(ReadLine(content))
    ensures StartsWithUuid(ReadLine(GuidFileRead(file))) ==> file == Some(content)
    ensures !StartsWithUuid(ReadLine(GuidFileRead(file))) ==> content == generated
  {
    UuidReadsBack(generated);
    if StartsWithUuid(ReadLine(GuidFileRead(file))) then file.value else generated
  }

  /** Once the GUID step has run, every later run reads the same GUID and
      leaves the file as it is, whatever UUID it would have generated. */
  lemma GuidStable(file: Option<string>, generated: string, later: string)
    requires IsUuidText(generated) && IsUuidText(later)
    ensures GuidInUse(Some(GuidFileAfter(file, generated)), later) == GuidInUse(file, generated)
    ensures GuidFileAfter(Some(GuidFileAfter(file, generated)), later) == GuidFileAfter(file, generated)
  {
    UuidReadsBack(generated);
  }

  // ---------------------------------------------------------------------
  // Previous version
  // ---------------------------------------------------------------------

  predicate HasValidVersion(file: Option<string>) {
    file.Some? && StartsWithTenDigits(ReadLine(file.value))
  }

  /** The previous stamp: the version file's first line when it starts with
      ten digits, the default stamp otherwise. */
  function PreviousVersion(file: Option<string>): (previous: string)
    ensures StartsWithTenDigits(previous)
    ensures HasValidVersion(file) ==> previous == ReadLine(file.value)
    ensures !HasValidVersion(file) ==> previous == DefaultVersion
  {
    if HasValidVersion(file) then ReadLine(file.value) else DefaultVersion
  }

  /** The version file after it was loaded: a missing or invalid one now
      holds the default stamp. */
  function VersionFileAfterLoad(file: Option<string>): (content: string)
    ensures PreviousVersion(Some(content)) == PreviousVersion(file)
    ensures HasValidVersion(file) ==> Some(content) == file
    ensures !HasValidVersion(file) ==> content == DefaultVersion
  {
    if HasValidVersion(file) then file.value
    else
      ReadLineWhole(DefaultVersion);
      DefaultVersion
  }

  // ---------------------------------------------------------------------
  // Latest version
  // ---------------------------------------------------------------------

  /** The record names the worldwide instance and carries a well-formed stamp. */
  predicate OffersLatest(r: VersionRecord) {
    r.instance == Some(Worldwide) && r.latest.Some? && StartsWithTenDigits(r.latest.value)
  }

  /** The stamp left in `ms_o365_version_latest` after the scan of `records`:
      each offering record overwrites it, so the last one wins. */
  function LatestOf(records: seq<VersionRecord>): (latest: string)
    ensures latest == "" || StartsWithTenDigits(latest)
    decreases |records|
  {
    if records == [] then ""
    else if OffersLatest(records[|records| - 1]) then records[|records| - 1].latest.value
    else LatestOf(records[..|records| - 1])
  }

  /** A failed version request scans nothing. */
  function LatestVersion(response: Option<seq<VersionRecord>>): string {
    if response.Some? then LatestOf(response.value) else ""
  }

  /** The latest stamp is empty exactly when no record offers one; otherwise
      it is the stamp of the last record that does. */
  lemma {:induction false} LatestOfMeaning(records: seq<VersionRecord>)
    ensures LatestOf(records) == "" <==> forall k :: 0 <= k < |records| ==> !OffersLatest(records[k])
    ensures LatestOf(records) != "" ==>
      exists k :: 0 <= k < |records| && OffersLatest(records[k])
        && LatestOf(records) == records[k].latest.value
        && forall m :: k < m < |records| ==> !OffersLatest(records[m])
    decreases |records|
  {
    if records != [] {
      var n := |records| - 1;
      var init := records[..n];
      LatestOfMeaning(init);
      assert forall k :: 0 <= k < n ==> init[k] == records[k];
      if OffersLatest(records[n]) {
        assert |records[n].latest.value| >= 10;
      } else if LatestOf(init) != "" {
        var k :| 0 <= k < |init| && OffersLatest(init[k]) && LatestOf(init) == init[k].latest.value
          && forall m :: k < m < |init| ==> !OffersLatest(init[m]);
        assert OffersLatest(records[k]);
      }
    }
  }

  // ---------------------------------------------------------------------
  // Early stop
  // ---------------------------------------------------------------------

  /** The run stops when the latest stamp equals the previous one and no
      refresh is forced. */
  predicate StopsEarly(latest: string, previous: string, forceRefresh: int): (stops: bool)
    ensures stops && StartsWithTenDigits(previous) ==> StartsWithTenDigits(latest)
    ensures stops ==> forceRefresh == 0
  {
    latest == previous && forceRefresh == 0
  }

  /** A failed or unusable version answer never stops the run: the previous
      stamp always has ten digits, the latest one is then empty. */
  lemma UnusableAnswerNeverStops(response: Option<seq<VersionRecord>>, file: Option<string>, forceRefresh: int)
    requires forall k :: response.Some? && 0 <= k < |response.value| ==> !OffersLatest(response.value[k])
    ensures LatestVersion(response) == ""
    ensures !StopsEarly(LatestVersion(response), PreviousVersion(file), forceRefresh)
  {
    if response.Some? {
      LatestOfMeaning(response.value);
    }
  }

  /** The early stop in full: exactly when some record offers a stamp, the
      last offered stamp equals the previous one, and no refresh is forced. */
  lemma StopsEarlyMeaning(response: Option<seq<VersionRecord>>, file: Option<string>, forceRefresh: int)
    ensures StopsEarly(LatestVersion(response), PreviousVersion(file), forceRefresh) <==>
      && forceRefresh == 0
      && response.Some?
      && exists k :: 0 <= k < |response.value| && OffersLatest(response.value[k])
           && response.value[k].latest.value == PreviousVersion(file)
           && forall m :: k < m < |response.value| ==> !OffersLatest(response.value[m])
  {
    if response.Some? {
      LatestOfMeaning(response.value);
      var rs := response.value;
      if exists k :: 0 <= k < |rs| && OffersLatest(rs[k]) && rs[k].latest.value == PreviousVersion(file)
           && forall m :: k < m < |rs| ==> !OffersLatest(rs[m]) {
        var k :| 0 <= k < |rs| && OffersLatest(rs[k]) && rs[k].latest.value == PreviousVersion(file)
           && forall m :: k < m < |rs| ==> !OffersLatest(rs[m]);
        assert LatestOf(rs) != "";
        var k' :| 0 <= k' < |rs| && OffersLatest(rs[k']) && LatestOf(rs) == rs[k'].latest.value
          && forall m :: k' < m < |rs| ==> !OffersLatest(rs[m]);
        assert k == k';
      }
    }
  }
}
