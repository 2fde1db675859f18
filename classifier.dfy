/** The endpoint classifier: the loop over the `/endpoints` records that
    collects bypass URLs and splits IP ranges into IPv4 and IPv6 lists. The
    script's module-level lists are the three results here. */
module Classifier {
  import opened Wrappers
  import opened Text
  import opened Records

  /** The five service areas the endpoint list is divided into. */
  const ServiceAreas: set<string> := {"Common", "Exchange", "SharePoint", "Skype", "Yammer"}

  /** The record's service area is one the configuration cares about: only
      one of the five known areas can be, and only when its flag is set. */
  predicate Interesting(cfg: Config, area: string): (cared: bool)
    ensures cared ==> area in ServiceAreas
    ensures !cfg.careCommon && !cfg.careExchange && !cfg.careSharePoint && !cfg.careSkype && !cfg.careYammer
      ==> !cared
  {
    || (cfg.careCommon && area == "Common")
    || (cfg.careExchange && area == "Exchange")
    || (cfg.careSharePoint && area == "SharePoint")
    || (cfg.careSkype && area == "Skype")
    || (cfg.careYammer && area == "Yammer")
  }

  predicate CollectsUrls(cfg: Config) {
    cfg.useUrl || cfg.useUrlDg
  }

  predicate CollectsIps(cfg: Config) {
    cfg.useIpv4 || cfg.useIpv6
  }

  /** A record's URLs in the order they are appended: `urls`, then
      `allowUrls`, then `defaultUrls`. */
  function RecordUrls(r: EndpointRecord): seq<string> {
    Present(r.urls) + Present(r.allowUrls) + Present(r.defaultUrls)
  }

  /** The URLs the loop appends for the records seen so far. */
  function BypassUrls(cfg: Config, records: seq<EndpointRecord>): seq<string>
    decreases |records|
  {
    if records == [] then []
    else
      var r := records[|records| - 1];
      BypassUrls(cfg, records[..|records| - 1])
        + (if Interesting(cfg, r.serviceArea) && CollectsUrls(cfg) then RecordUrls(r) else [])
  }

  /** Every IP string the loop looks at, in order, before it is split. */
  function SeenIps(cfg: Config, records: seq<EndpointRecord>): seq<string>
    decreases |records|
  {
    if records == [] then []
    else
      var r := records[|records| - 1];
      SeenIps(cfg, records[..|records| - 1])
        + (if Interesting(cfg, r.serviceArea) && CollectsIps(cfg) then Present(r.ips) else [])
  }

  /** The IP strings in `ips` that the IPv6 test accepts (`want`) or rejects. */
  function Split(ips: seq<string>, want: bool): (r: seq<string>)
    ensures forall x {:trigger x in r} :: x in r <==> x in ips && IsIpv6Text(x) == want
    decreases |ips|
  {
    if ips == [] then []
    else Split(ips[..|ips| - 1], want) + (if IsIpv6Text(ips[|ips| - 1]) == want then [ips[|ips| - 1]] else [])
  }

  function Ipv4Networks(cfg: Config, records: seq<EndpointRecord>): seq<string> {
    Split(SeenIps(cfg, records), false)
  }

  function Ipv6Networks(cfg: Config, records: seq<EndpointRecord>): seq<string> {
    Split(SeenIps(cfg, records), true)
  }

  /** `for url in list: acc.append(url)`, with an absent key appending nothing. */
  method AppendUrls(acc: seq<string>, list: Option<seq<string>>) returns (r: seq<string>)
    ensures r == acc + Present(list)
  {
    r := acc;
    if list.Some? {
      var xs := list.value;
      for j := 0 to |xs|
        invariant r == acc + xs[..j]
      {
        r := r + [xs[j]];
        assert xs[..j + 1] == xs[..j] + [xs[j]];
      }
      assert xs[..|xs|] == xs;
    }
  }

  /** Lines 277-283: each IP string goes to the IPv6 list when `^.+:`
      matches it, to the IPv4 list otherwise. */
  method AppendIps(ghost seen: seq<string>, ips4: seq<string>, ips6: seq<string>, list: Option<seq<string>>)
    returns (ips4': seq<string>, ips6': seq<string>)
    requires ips4 == Split(seen, false) && ips6 == Split(seen, true)
    ensures ips4' == Split(seen + Present(list), false)
    ensures ips6' == Split(seen + Present(list), true)
  {
    ips4', ips6' := ips4, ips6;
    var xs := Present(list);
    ghost var done := seen;
    for j := 0 to |xs|
      invariant done == seen + xs[..j]
      invariant ips4' == Split(done, false)
      invariant ips6' == Split(done, true)
    {
      var ip := xs[j];
      SplitSnoc(done, ip);
      if IsIpv6Text(ip) {
        ips6' := ips6' + [ip];
      } else {
        ips4' := ips4' + [ip];
      }
      done := done + [ip];
      assert xs[..j + 1] == xs[..j] + [ip];
    }
    assert xs[..|xs|] == xs;
  }

  /** One more address extends exactly the side of the split it belongs to. */
  lemma SplitSnoc(ips: seq<string>, ip: string)
    ensures Split(ips + [ip], true) == Split(ips, true) + (if IsIpv6Text(ip) then [ip] else [])
    ensures Split(ips + [ip], false) == Split(ips, false) + (if IsIpv6Text(ip) then [] else [ip])
  {
    assert (ips + [ip])[..|ips|] == ips;
  }

  /** The body of the loop at lines 246-283 for one record. */
  method ClassifyRecord(cfg: Config, r: EndpointRecord, urls: seq<string>,
                        ghost seen: seq<string>, ips4: seq<string>, ips6: seq<string>)
    returns (urls': seq<string>, ips4': seq<string>, ips6': seq<string>)
    requires ips4 == Split(seen, false) && ips6 == Split(seen, true)
    ensures urls' == urls + if Interesting(cfg, r.serviceArea) && CollectsUrls(cfg) then RecordUrls(r) else []
    ensures var seen' := seen + if Interesting(cfg, r.serviceArea) && CollectsIps(cfg) then Present(r.ips) else [];
      ips4' == Split(seen', false) && ips6' == Split(seen', true)
  {
    urls', ips4', ips6' := urls, ips4, ips6;
    if Interesting(cfg, r.serviceArea) {
      if CollectsUrls(cfg) {
        urls' := AppendUrls(urls', r.urls);
        urls' := AppendUrls(urls', r.allowUrls);
        urls' := AppendUrls(urls', r.defaultUrls);
      }
      if CollectsIps(cfg) {
        ips4', ips6' := AppendIps(seen, ips4', ips6', r.ips);
      }
    }
    assert seen + [] == seen && urls + [] == urls;
  }

  /** Lines 246-283: one pass over the records, appending to the three lists. */
  method Classify(cfg: Config, records: seq<EndpointRecord>)
    returns (urls: seq<string>, ips4: seq<string>, ips6: seq<string>)
    ensures urls == BypassUrls(cfg, records)
    ensures ips4 == Ipv4Networks(cfg, records)
    ensures ips6 == Ipv6Networks(cfg, records)
  {
    urls, ips4, ips6 := [], [], [];
    for i := 0 to |records|
      invariant urls == BypassUrls(cfg, records[..i])
      invariant ips4 == Split(SeenIps(cfg, records[..i]), false)
      invariant ips6 == Split(SeenIps(cfg, records[..i]), true)
    {
      PrefixStep(cfg, records, i);
      urls, ips4, ips6 := ClassifyRecord(cfg, records[i], urls, SeenIps(cfg, records[..i]), ips4, ips6);
    }
    assert records[..|records|] == records;
  }

  /** Extending the records seen by one extends both accumulators by that
      record's contribution. */
  lemma PrefixStep(cfg: Config, records: seq<EndpointRecord>, i: nat)
    requires i < |records|
    ensures BypassUrls(cfg, records[..i + 1]) == BypassUrls(cfg, records[..i])
      + (if Interesting(cfg, records[i].serviceArea) && CollectsUrls(cfg) then RecordUrls(records[i]) else [])
    ensures SeenIps(cfg, records[..i + 1]) == SeenIps(cfg, records[..i])
      + (if Interesting(cfg, records[i].serviceArea) && CollectsIps(cfg) then Present(records[i].ips) else [])
  {
    assert records[..i + 1][..i] == records[..i];
  }

  // ---------------------------------------------------------------------
  // What the classification means
  // ---------------------------------------------------------------------

  /** A URL is collected exactly when URLs are wanted and some record of an
      area the user cares about lists it under `urls`, `allowUrls` or
      `defaultUrls`. */
  lemma {:induction false} BypassUrlsMembership(cfg: Config, records: seq<EndpointRecord>, u: string)
    ensures u in BypassUrls(cfg, records) <==>
      CollectsUrls(cfg) && exists k :: 0 <= k < |records| && Interesting(cfg, records[k].serviceArea) && u in RecordUrls(records[k])
    decreases |records|
  {
    if records != [] {
      var n := |records| - 1;
      BypassUrlsMembership(cfg, records[..n], u);
      assert forall k :: 0 <= k < n ==> records[..n][k] == records[k];
    }
  }

  /** An IP string is seen exactly when IPs are wanted and some record of an
      area the user cares about lists it under `ips`. */
  lemma {:induction false} SeenIpsMembership(cfg: Config, records: seq<EndpointRecord>, ip: string)
    ensures ip in SeenIps(cfg, records) <==>
      CollectsIps(cfg) && exists k :: 0 <= k < |records| && Interesting(cfg, records[k].serviceArea) && ip in Present(records[k].ips)
    decreases |records|
  {
    if records != [] {
      var n := |records| - 1;
      SeenIpsMembership(cfg, records[..n], ip);
      assert forall k :: 0 <= k < n ==> records[..n][k] == records[k];
    }
  }

  /** Splitting is a partition: every IP string seen lands in exactly one
      of the two lists, as often as it was seen. */
  lemma {:induction false} SplitPartitions(ips: seq<string>)
    ensures multiset(Split(ips, false)) + multiset(Split(ips, true)) == multiset(ips)
    decreases |ips|
  {
    if ips != [] {
      var n := |ips| - 1;
      SplitPartitions(ips[..n]);
      assert ips == ips[..n] + [ips[n]];
    }
  }

  /** The two IP lists together hold exactly the IP strings seen, so their
      lengths add up to the number seen; IPv6 holds those with a ':' at
      index 1 or later on their first line, IPv4 all others. */
  lemma IpPartition(cfg: Config, records: seq<EndpointRecord>)
    ensures multiset(Ipv4Networks(cfg, records)) + multiset(Ipv6Networks(cfg, records)) == multiset(SeenIps(cfg, records))
    ensures |Ipv4Networks(cfg, records)| + |Ipv6Networks(cfg, records)| == |SeenIps(cfg, records)|
    ensures forall x :: x in Ipv6Networks(cfg, records) ==> IsIpv6Text(x)
    ensures forall x :: x in Ipv4Networks(cfg, records) ==> !IsIpv6Text(x)
  {
    var seen := SeenIps(cfg, records);
    SplitPartitions(seen);
    assert |multiset(Split(seen, false)) + multiset(Split(seen, true))| == |multiset(seen)|;
  }
}
