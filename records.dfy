/** The script's user options, the JSON records the Office 365 web service
    returns, and the fixed names of files and device objects. */
module Records {
  import opened Wrappers

  /** The "User Options" block. The `use_*` and `care_*` switches are tested
      for truth only; `force_o365_record_refresh` and `ha_config` are compared
      with 0 and 1, so any other number keeps its own meaning. */
  datatype Config = Config(
    useUrl: bool,
    useUrlDg: bool,
    useIpv4: bool,
    useIpv6: bool,
    careCommon: bool,
    careExchange: bool,
    careSkype: bool,
    careSharePoint: bool,
    careYammer: bool,
    forceRefresh: int,
    haConfig: int,
    deviceGroupName: string)

  /** One element of the `/version` answer; a key the JSON object lacks is `None`. */
  datatype VersionRecord = VersionRecord(instance: Option<string>, latest: Option<string>)

  /** One element of the `/endpoints` answer. `serviceArea` and `id` are read
      unconditionally; the four lists are optional keys. */
  datatype EndpointRecord = EndpointRecord(
    serviceArea: string,
    id: string,
    urls: Option<seq<string>>,
    allowUrls: Option<seq<string>>,
    defaultUrls: Option<seq<string>>,
    ips: Option<seq<string>>)

  /** An optional JSON list, with an absent key read as no elements. */
  function Present(list: Option<seq<string>>): seq<string> {
    list.GetOr([])
  }

  // Custom URL category and data-group names.
  const CategoryName: string := "Office365"
  const UrlsDataGroup: string := "o365_url_dg"
  const Ipv4DataGroup: string := "o365_ipv4_dg"
  const Ipv6DataGroup: string := "o365_ipv6_dg"

  // Work files.
  const GuidPath: string := "/var/tmp/o365/guid.txt"
  const VersionPath: string := "/var/tmp/o365/o365_version.txt"
  const UrlsPath: string := "/var/tmp/o365/o365_urls.txt"
  const Ipv4Path: string := "/var/tmp/o365/o365_ip4.txt"
  const Ipv6Path: string := "/var/tmp/o365/o365_ip6.txt"

  /** The stamp assumed when no valid previous version is on file. */
  const DefaultVersion: string := "1970010200"

  /** The `instance` whose `latest` stamp is compared. */
  const Worldwide: string := "Worldwide"

  /** The marker `tmsh show /cm failover-status` prints on the active unit. */
  const ActiveMarker: string := "status ACTIVE"
}
