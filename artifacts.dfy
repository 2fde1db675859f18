/** What the script builds from the classified lists: the text of the three
    external data-group files, and the entries of the custom URL category. */
module Artifacts {
  import opened Text
  import opened Ordering

  // ---------------------------------------------------------------------
  // Data-group files
  // ---------------------------------------------------------------------

  /** Line 337: the data-group key of one URL, the wildcard prefix removed,
      then lower-cased. */
  function DataGroupKey(url: string): (key: string)
    ensures |key| <= |url|
    ensures NoStarOnFirstLine(url) ==> key == Lower(url)
  {
    Lower(StripWildcardPrefix(url))
  }

  function DataGroupKeys(urls: seq<string>): seq<string> {
    seq(|urls|, i requires 0 <= i < |urls| => DataGroupKey(urls[i]))
  }

  /** On a single-line URL the key is a fixed point of the shaping, and it
      holds no '*': the data group matches on a flat key, not a glob. */
  lemma DataGroupKeyIdempotent(url: string)
    requires SingleLine(url)
    ensures StarFree(DataGroupKey(url))
    ensures DataGroupKey(DataGroupKey(url)) == DataGroupKey(url)
  {
    var r := StripWildcardPrefix(url);
    StripWildcardPrefixIdempotent(url);
    SuffixSingleLine(url, r);
    var key := Lower(r);
    assert DataGroupKey(url) == key;
    LowerKeeps(r);
    StripStarFree(key);
    LowerIdempotent(r);
    assert DataGroupKey(key) == Lower(key);
  }

  predicate StarFree(s: string) {
    forall k :: 0 <= k < |s| ==> s[k] != '*'
  }

  lemma SuffixSingleLine(s: string, r: string)
    requires SingleLine(s) && |r| <= |s| && r == s[|s| - |r|..]
    ensures SingleLine(r)
  {
    forall k | 0 <= k < |r| ensures r[k] != '\n' {
      assert r[k] == s[|s| - |r| + k];
    }
  }

  /** Lower-casing neither creates nor removes a '*' or a newline. */
  lemma LowerKeeps(s: string)
    requires StarFree(s) && SingleLine(s)
    ensures StarFree(Lower(s)) && SingleLine(Lower(s))
  {
  }

  lemma LowerIdempotent(s: string)
    ensures Lower(Lower(s)) == Lower(s)
  {
  }

  /** Without a '*' there is nothing to strip. */
  lemma StripStarFree(s: string)
    requires StarFree(s)
    ensures StripWildcardPrefix(s) == s
  {
    assert NoStarOnFirstLine(s);
  }

  /** Lines 336-338: the key of every collected URL, in order. */
  method ShapeUrls(urls: seq<string>) returns (keys: seq<string>)
    ensures keys == DataGroupKeys(urls)
  {
    keys := [];
    for i := 0 to |urls|
      invariant |keys| == i
      invariant forall k :: 0 <= k < i ==> keys[k] == DataGroupKey(urls[k])
    {
      keys := keys + [DataGroupKey(urls[i])];
    }
  }

  /** Line 343: one URL data-group line. */
  function UrlLine(key: string): string {
    key + " := 1,\n"
  }

  /** Lines 382 and 421: one address data-group line. */
  function NetworkLine(ip: string): string {
    "network " + ip + ",\n"
  }

  /** The text of a file written line after line. */
  function Join(lines: seq<string>): string
    decreases |lines|
  {
    if lines == [] then "" else Join(lines[..|lines| - 1]) + lines[|lines| - 1]
  }

  function UrlLines(keys: seq<string>): seq<string> {
    seq(|keys|, i requires 0 <= i < |keys| => UrlLine(keys[i]))
  }

  function NetworkLines(ips: seq<string>): seq<string> {
    seq(|ips|, i requires 0 <= i < |ips| => NetworkLine(ips[i]))
  }

  /** Lines 341-345: the URL data-group file, one line per distinct key in
      ascending order. */
  function UrlDataGroupText(urls: seq<string>): string {
    Join(UrlLines(SortedUnique(DataGroupKeys(urls))))
  }

  /** Lines 380-384 and 419-423: an address data-group file. */
  function NetworkDataGroupText(ips: seq<string>): string {
    Join(NetworkLines(SortedUnique(ips)))
  }

  /** Writes `sorted(set(keys))`, one line each, as the loop at 342-343 does. */
  method RenderUrlDataGroup(urls: seq<string>) returns (text: string)
    ensures text == UrlDataGroupText(urls)
  {
    var keys := ShapeUrls(urls);
    var sorted := SortedUnique(keys);
    var lines := UrlLines(sorted);
    text := "";
    for i := 0 to |sorted|
      invariant text == Join(lines[..i])
    {
      text := text + UrlLine(sorted[i]);
      assert lines[..i + 1][..i] == lines[..i];
    }
    assert lines[..|sorted|] == lines;
  }

  /** Writes `sorted(set(ips))`, one line each. */
  method RenderNetworkDataGroup(ips: seq<string>) returns (text: string)
    ensures text == NetworkDataGroupText(ips)
  {
    var sorted := SortedUnique(ips);
    var lines := NetworkLines(sorted);
    text := "";
    for i := 0 to |sorted|
      invariant text == Join(lines[..i])
    {
      text := text + NetworkLine(sorted[i]);
      assert lines[..i + 1][..i] == lines[..i];
    }
    assert lines[..|sorted|] == lines;
  }

  // ---------------------------------------------------------------------
  // Reading a data-group file back
  // ---------------------------------------------------------------------

  /** The lines of a text, each without its terminating newline. */
  function SplitLines(text: string): seq<string>
    decreases |text|
  {
    if text == [] then []
    else
      var n := LineEnd(text);
      if n == |text| then [text] else [text[..n]] + SplitLines(text[n + 1..])
  }

  predicate SingleLine(s: string) {
    '\n' !in s
  }

  /** A text made of newline-terminated single lines splits back into them. */
  lemma {:induction false} SplitJoin(bodies: seq<string>)
    requires forall i :: 0 <= i < |bodies| ==> SingleLine(bodies[i])
    ensures SplitLines(JoinTerminated(bodies)) == bodies
    decreases |bodies|
  {
    if bodies != [] {
      var b := bodies[0];
      var rest := JoinTerminated(bodies[1..]);
      var text := b + "\n" + rest;
      assert JoinTerminated(bodies) == text;
      LineEndOf(b, rest);
      assert text[..|b|] == b;
      assert text[|b| + 1..] == rest;
      SplitJoin(bodies[1..]);
      assert bodies == [b] + bodies[1..];
    }
  }

  /** Newline-terminated lines, joined from the front. */
  function JoinTerminated(bodies: seq<string>): string
    decreases |bodies|
  {
    if bodies == [] then "" else bodies[0] + "\n" + JoinTerminated(bodies[1..])
  }

  lemma {:induction false} LineEndOf(b: string, rest: string)
    requires SingleLine(b)
    ensures LineEnd(b + "\n" + rest) == |b|
    decreases |b|
  {
    if b != [] {
      assert (b + "\n" + rest)[1..] == b[1..] + "\n" + rest;
      LineEndOf(b[1..], rest);
    }
  }

  /** Joining from the back and from the front give the same text. */
  lemma {:induction false} JoinTerminatedAsJoin(bodies: seq<string>)
    ensures Join(seq(|bodies|, i requires 0 <= i < |bodies| => bodies[i] + "\n")) == JoinTerminated(bodies)
    decreases |bodies|
  {
    var lines := seq(|bodies|, i requires 0 <= i < |bodies| => bodies[i] + "\n");
    if bodies != [] {
      var n := |bodies| - 1;
      JoinTerminatedAsJoin(bodies[..n]);
      assert lines[..n] == seq(n, i requires 0 <= i < n => bodies[..n][i] + "\n");
      JoinTerminatedSnoc(bodies[..n], bodies[n]);
      assert bodies[..n] + [bodies[n]] == bodies;
    }
  }

  lemma {:induction false} JoinTerminatedSnoc(bodies: seq<string>, b: string)
    ensures JoinTerminated(bodies + [b]) == JoinTerminated(bodies) + b + "\n"
    decreases |bodies|
  {
    if bodies != [] {
      assert (bodies + [b])[1..] == bodies[1..] + [b];
      JoinTerminatedSnoc(bodies[1..], b);
    } else {
      assert JoinTerminated([b]) == b + "\n" + JoinTerminated([]);
    }
  }

  /** Newline-terminated single lines, joined, split back into their bodies. */
  lemma SplitTerminated(lines: seq<string>, bodies: seq<string>)
    requires |lines| == |bodies|
    requires forall i :: 0 <= i < |bodies| ==> SingleLine(bodies[i]) && lines[i] == bodies[i] + "\n"
    ensures SplitLines(Join(lines)) == bodies
  {
    assert lines == seq(|bodies|, i requires 0 <= i < |bodies| => bodies[i] + "\n");
    JoinTerminatedAsJoin(bodies);
    SplitJoin(bodies);
  }

  /** Lines `<key> := 1,` for single-line keys split back into those lines. */
  lemma UrlLinesReadBack(keys: seq<string>)
    requires forall i :: 0 <= i < |keys| ==> SingleLine(keys[i])
    ensures SplitLines(Join(UrlLines(keys))) == seq(|keys|, i requires 0 <= i < |keys| => keys[i] + " := 1,")
  {
    var bodies := seq(|keys|, i requires 0 <= i < |keys| => keys[i] + " := 1,");
    var lines := UrlLines(keys);
    forall i | 0 <= i < |keys|
      ensures SingleLine(bodies[i]) && lines[i] == bodies[i] + "\n"
    {
      assert " := 1,\n" == " := 1," + "\n";
    }
    SplitTerminated(lines, bodies);
  }

  /** The URL data-group file read back line by line gives one `<key> := 1,`
      line for every distinct key of the collected URLs, in strictly
      ascending order of key, and nothing else. */
  lemma UrlDataGroupReadsBack(urls: seq<string>)
    requires forall i :: 0 <= i < |urls| ==> SingleLine(urls[i])
    ensures var keys := SortedUnique(DataGroupKeys(urls));
      && StrictlyAscending(keys)
      && (forall k :: k in keys <==> exists i :: 0 <= i < |urls| && k == DataGroupKey(urls[i]))
      && SplitLines(UrlDataGroupText(urls)) == seq(|keys|, i requires 0 <= i < |keys| => keys[i] + " := 1,")
  {
    var keys := SortedUnique(DataGroupKeys(urls));
    KeysInUrls(urls);
    KeysSingleLine(urls);
    assert forall i :: 0 <= i < |keys| ==> keys[i] in DataGroupKeys(urls);
    UrlLinesReadBack(keys);
  }

  lemma KeysInUrls(urls: seq<string>)
    ensures forall k :: k in DataGroupKeys(urls) <==> exists i :: 0 <= i < |urls| && k == DataGroupKey(urls[i])
  {
    forall k ensures k in DataGroupKeys(urls) ==> exists i :: 0 <= i < |urls| && k == DataGroupKey(urls[i]) {
      if k in DataGroupKeys(urls) {
        var j :| 0 <= j < |urls| && DataGroupKeys(urls)[j] == k;
      }
    }
    forall i | 0 <= i < |urls| ensures DataGroupKey(urls[i]) in DataGroupKeys(urls) {
      assert DataGroupKeys(urls)[i] == DataGroupKey(urls[i]);
    }
  }

  lemma KeysSingleLine(urls: seq<string>)
    requires forall i :: 0 <= i < |urls| ==> SingleLine(urls[i])
    ensures forall k :: k in DataGroupKeys(urls) ==> SingleLine(k)
  {
    forall i | 0 <= i < |urls| ensures SingleLine(DataGroupKeys(urls)[i]) {
      var r := StripWildcardPrefix(urls[i]);
      SuffixSingleLine(urls[i], r);
    }
  }

  /** The address data-group file read back line by line gives one
      `network <ip>,` line for every distinct address, in strictly ascending
      order, and nothing else. */
  lemma NetworkDataGroupReadsBack(ips: seq<string>)
    requires forall i :: 0 <= i < |ips| ==> SingleLine(ips[i])
    ensures var sorted := SortedUnique(ips);
      && StrictlyAscending(sorted)
      && (forall x :: x in sorted <==> x in ips)
      && SplitLines(NetworkDataGroupText(ips)) == seq(|sorted|, i requires 0 <= i < |sorted| => "network " + sorted[i] + ",")
  {
    var sorted := SortedUnique(ips);
    var bodies := seq(|sorted|, i requires 0 <= i < |sorted| => "network " + sorted[i] + ",");
    var lines := NetworkLines(sorted);
    forall i | 0 <= i < |sorted|
      ensures SingleLine(bodies[i]) && lines[i] == bodies[i] + "\n"
    {
      assert sorted[i] in ips;
      var j :| 0 <= j < |ips| && ips[j] == sorted[i];
      assert ",\n" == "," + "\n";
    }
    SplitTerminated(lines, bodies);
  }

  // ---------------------------------------------------------------------
  // Custom URL category entries
  // ---------------------------------------------------------------------

  datatype MatchType = ExactMatch | GlobMatch

  /** One `urls add { <url> { type <match> } }` entry. */
  datatype UrlEntry = UrlEntry(url: string, matchType: MatchType)

  const Scheme: string := "https://"

  /** The URL an entry stands for under its match type: the scheme removed
      and, for a glob, the `\*` escapes read back as '*'. */
  function EntryTarget(e: UrlEntry): string {
    var body := if Scheme <= e.url then e.url[|Scheme|..] else e.url;
    if e.matchType == GlobMatch then UnescapeStars(body) else body
  }

  /** Lines 317-326 for one lower-cased URL: a URL that starts with '*'
      gives two glob-match entries with every '*' escaped, any other two
      exact-match entries; the first of the pair ends in '/' and the second
      does not. Both stand for the URL itself. */
  function CategoryEntries(u: string): (es: seq<UrlEntry>)
    ensures |es| == 2
    ensures es[0].matchType == es[1].matchType
    ensures es[0].matchType == GlobMatch <==> |u| > 0 && u[0] == '*'
    ensures Scheme <= es[1].url && es[0].url == es[1].url + "/"
    ensures EntryTarget(es[1]) == u
    ensures es[0].matchType == GlobMatch ==> es[1].url == Scheme + EscapeStars(u)
    ensures es[0].matchType == ExactMatch ==> es[1].url == Scheme + u
  {
    if |u| > 0 && u[0] == '*' then
      var escaped := Scheme + EscapeStars(u);
      EscapeStarsRoundTrip(u);
      assert escaped[|Scheme|..] == EscapeStars(u);
      [UrlEntry(escaped + "/", GlobMatch), UrlEntry(escaped, GlobMatch)]
    else
      assert (Scheme + u)[|Scheme|..] == u;
      [UrlEntry(Scheme + u + "/", ExactMatch), UrlEntry(Scheme + u, ExactMatch)]
  }

  /** The entries every collected URL contributes, lower-cased. */
  predicate EntryOf(urls: seq<string>, e: UrlEntry) {
    exists u :: u in urls && e in CategoryEntries(Lower(u))
  }

  /** `us` lists every collected URL exactly once, in some order. */
  ghost predicate Enumerates(us: seq<string>, urls: seq<string>) {
    Distinct(us) && forall u {:trigger u in us} :: u in us <==> u in urls
  }

  /** No element of `us` occurs twice. */
  predicate Distinct(us: seq<string>) {
    forall i, j :: 0 <= i < j < |us| ==> us[i] != us[j]
  }

  /** Appending an element not yet present keeps a list duplicate-free. */
  lemma DistinctSnoc(us: seq<string>, u: string)
    requires Distinct(us) && u !in us
    ensures Distinct(us + [u])
  {
    var vs := us + [u];
    forall i, j | 0 <= i < j < |vs|
      ensures vs[i] != vs[j]
    {
      assert vs[i] == us[i];
      if j == |us| {
        assert us[i] in us;
      } else {
        assert vs[j] == us[j];
      }
    }
  }

  /** `entries` holds the two entries of each URL of `us`, lower-cased, in
      the order of `us`: those of `us[i]` at positions `2 * i` and `2 * i + 1`. */
  predicate EntriesOfListing(us: seq<string>, entries: seq<UrlEntry>) {
    && |entries| == 2 * |us|
    && forall i :: 0 <= i < |us| ==>
      entries[2 * i] == CategoryEntries(Lower(us[i]))[0] && entries[2 * i + 1] == CategoryEntries(Lower(us[i]))[1]
  }

  /** One more URL appends its own two entries to the listing. */
  lemma EntriesOfListingSnoc(us: seq<string>, entries: seq<UrlEntry>, u: string)
    requires EntriesOfListing(us, entries)
    ensures EntriesOfListing(us + [u], entries + CategoryEntries(Lower(u)))
  {
    var vs := us + [u];
    var fs := entries + CategoryEntries(Lower(u));
    forall i | 0 <= i < |vs|
      ensures fs[2 * i] == CategoryEntries(Lower(vs[i]))[0] && fs[2 * i + 1] == CategoryEntries(Lower(vs[i]))[1]
    {
      if i < |us| {
        assert vs[i] == us[i];
      } else {
        assert vs[i] == u;
      }
    }
  }

  /** Each position of the listing holds an entry of the URL it belongs to. */
  lemma ListingEntryOwner(us: seq<string>, entries: seq<UrlEntry>, k: int)
    requires EntriesOfListing(us, entries) && 0 <= k < |entries|
    ensures us[k / 2] in us && entries[k] in CategoryEntries(Lower(us[k / 2]))
  {
    var i := k / 2;
    var es := CategoryEntries(Lower(us[i]));
    if k == 2 * i {
      assert entries[k] == es[0];
    } else {
      assert k == 2 * i + 1;
      assert entries[k] == es[1];
    }
  }

  /** Both entries of each URL of `us` are in the listing. */
  lemma ListingHoldsEntries(us: seq<string>, entries: seq<UrlEntry>, i: int)
    requires EntriesOfListing(us, entries) && 0 <= i < |us|
    ensures forall e :: e in CategoryEntries(Lower(us[i])) ==> e in entries
  {
    var es := CategoryEntries(Lower(us[i]));
    assert es == [es[0], es[1]];
    assert entries[2 * i] == es[0] && entries[2 * i + 1] == es[1];
  }

  /** An entry of the listing is one of the two entries of some URL of `us`,
      and every such entry is in the listing. */
  lemma EntriesOfListingMembership(us: seq<string>, entries: seq<UrlEntry>)
    requires EntriesOfListing(us, entries)
    ensures forall e :: e in entries <==> exists u :: u in us && e in CategoryEntries(Lower(u))
  {
    forall e
      ensures e in entries <==> exists u :: u in us && e in CategoryEntries(Lower(u))
    {
      if e in entries {
        var k :| 0 <= k < |entries| && entries[k] == e;
        ListingEntryOwner(us, entries, k);
      }
      if exists u :: u in us && e in CategoryEntries(Lower(u)) {
        var u :| u in us && e in CategoryEntries(Lower(u));
        var i :| 0 <= i < |us| && us[i] == u;
        ListingHoldsEntries(us, entries, i);
      }
    }
  }

  /** A list without repetitions has as many elements as its set. */
  lemma {:induction false} DistinctCardinality(us: seq<string>)
    requires Distinct(us)
    ensures |set u | u in us| == |us|
    decreases |us|
  {
    if us != [] {
      var init := us[..|us| - 1];
      var last := us[|us| - 1];
      DistinctCardinality(init);
      assert last !in init;
      assert (set u | u in us) == (set u | u in init) + {last};
    }
  }

  /** `entries` are the entries of some duplicate-free listing of the
      collected URLs, in the order of that listing. */
  ghost predicate ListsEntries(urls: seq<string>, entries: seq<UrlEntry>) {
    exists us :: Enumerates(us, urls) && EntriesOfListing(us, entries)
  }

  /** The entries of any duplicate-free listing of the collected URLs: two
      per distinct URL, and as a set those of every lower-cased URL. */
  lemma EnumerationEntries(urls: seq<string>, us: seq<string>, entries: seq<UrlEntry>)
    requires Enumerates(us, urls) && EntriesOfListing(us, entries)
    ensures |entries| == 2 * |set u | u in urls|
    ensures forall e :: e in entries <==> EntryOf(urls, e)
  {
    DistinctCardinality(us);
    assert (set u | u in us) == (set u | u in urls);
    EntriesOfListingMembership(us, entries);
    forall e
      ensures e in entries <==> EntryOf(urls, e)
    {
      if e in entries {
        var u :| u in us && e in CategoryEntries(Lower(u));
        assert u in urls;
      }
      if EntryOf(urls, e) {
        var u :| u in urls && e in CategoryEntries(Lower(u));
        assert u in us;
      }
    }
  }

  /** Lines 309-326: each distinct collected URL, taken in the unspecified
      order in which Python iterates a set, is lower-cased and adds its two
      entries. Duplicates are removed before lower-casing, so the list is the
      entries of some duplicate-free listing of the collected URLs: two
      entries per distinct URL as collected; as a set it holds the two
      entries of every lower-cased URL and nothing else. */
  method BuildCategoryEntries(urls: seq<string>) returns (entries: seq<UrlEntry>)
    ensures |entries| == 2 * |set u | u in urls|
    ensures forall e :: e in entries <==> EntryOf(urls, e)
    ensures ListsEntries(urls, entries)
  {
    var all := set u | u in urls;
    var pending := all;
    entries := [];
    ghost var order: seq<string> := [];
    while pending != {}
      invariant pending <= all
      invariant Distinct(order)
      invariant forall u :: u in order <==> u in all - pending
      invariant EntriesOfListing(order, entries)
      decreases |pending|
    {
      var u :| u in pending;
      var lowered := Lower(u);
      var added := CategoryEntries(lowered);
      DistinctSnoc(order, u);
      EntriesOfListingSnoc(order, entries, u);
      entries := entries + added;
      order := order + [u];
      pending := pending - {u};
    }
    assert Enumerates(order, urls);
    EnumerationEntries(urls, order, entries);
  }

  /** The custom category's first entry: `https://<latest>` when the
      category was just created, `https://<latest>/` when it existed. */
  function VersionMarker(latest: string, created: bool): UrlEntry {
    UrlEntry(Scheme + latest + (if created then "" else "/"), ExactMatch)
  }
}
