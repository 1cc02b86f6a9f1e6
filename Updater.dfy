/**
 * The self-updater: the plugin looks up the latest GitHub release of its own
 * repository and feeds it to WordPress's plugin-update pipeline. The HTTP
 * request and JSON decoding are an input (`FetchResult`); the site transient
 * that caches the release is a field of the updater object.
 */
module Updater {
  import opened Wrappers
  import opened Php

  const GithubUser := "LouGriffith"
  const GithubRepo := "Cerrito-Schedule"

  /** The project page offered as the plugin's `url`. */
  const RepoUrl := "https://github.com/" + GithubUser + "/" + GithubRepo

  // ---------------------------------------------------------------------------
  // Releases and the lookup behind get_github_release
  // ---------------------------------------------------------------------------

  datatype Asset = Asset(name: string, downloadUrl: string)

  /**
   * The decoded body of a release. A missing `tag_name` is the empty string
   * (PHP's `empty` treats both alike); `body` and `published_at` may be unset.
   */
  datatype Release = Release(tagName: string, assets: seq<Asset>, body: Option<string>, publishedAt: Option<string>)

  /**
   * What the GitHub API call produced: a transport error, or a status code with
   * a body that decoded to a release object (`None` when it is empty or does
   * not decode).
   */
  datatype FetchResult = FetchError | Status(code: int, body: Option<Release>)

  /** The release a fetch yields: only a 200 whose body has a non-empty tag. */
  function Fetched(f: FetchResult): (r: Option<Release>)
    ensures r.Some? <==> f.Status? && f.code == 200 && f.body.Some? && Truthy(f.body.value.tagName)
    ensures r.Some? ==> r == f.body
  {
    if f.Status? && f.code == 200 && f.body.Some? && Truthy(f.body.value.tagName) then f.body else None
  }

  /** The release handed back, and the memo field and cache slot afterwards. */
  datatype Resolution = Resolution(release: Option<Release>, memo: Option<Release>, cache: Option<Release>)

  /**
   * `get_github_release`: the memo field if set; else the cached release, which
   * is also memoised; else a fetch, whose success is memoised and cached.
   */
  function Resolve(memo: Option<Release>, cache: Option<Release>, fetch: FetchResult): (r: Resolution)
    ensures memo.Some? ==> r.release == memo && r.memo == memo && r.cache == cache
    ensures memo.None? && cache.Some? ==> r.release == cache && r.memo == cache && r.cache == cache
    ensures r.release.None? <==> memo.None? && cache.None? && Fetched(fetch).None?
    ensures r.release.None? ==> r.memo == memo && r.cache == cache
    ensures r.release.Some? ==> r.memo == r.release
    ensures r.release.Some? && memo.None? ==> r.cache.Some?
    ensures memo.None? && cache.None? ==> r.release == Fetched(fetch)
  {
    if memo.Some? then Resolution(memo, memo, cache)
    else if cache.Some? then Resolution(cache, cache, cache)
    else
      match Fetched(fetch)
      case None => Resolution(None, None, None)
      case Some(b) => Resolution(Some(b), Some(b), Some(b))
  }

  /** Once a lookup has succeeded, looking up again gives the same, whatever the network does. */
  lemma ResolveStable(memo: Option<Release>, cache: Option<Release>, f1: FetchResult, f2: FetchResult)
    requires Resolve(memo, cache, f1).release.Some?
    ensures var r := Resolve(memo, cache, f1); Resolve(r.memo, r.cache, f2) == r
  {
  }

  /** With the memo or the cache set, the network is not consulted. */
  lemma ResolveWithoutNetwork(memo: Option<Release>, cache: Option<Release>, f1: FetchResult, f2: FetchResult)
    requires memo.Some? || cache.Some?
    ensures Resolve(memo, cache, f1) == Resolve(memo, cache, f2)
  {
  }

  // ---------------------------------------------------------------------------
  // normalize_version
  // ---------------------------------------------------------------------------

  /** `ltrim($tag, 'vV')`: every leading `v` and `V`, not just one, is removed. */
  function NormalizeVersion(tag: string): (r: string)
    ensures |r| <= |tag| && r == tag[|tag| - |r|..]
    ensures forall k :: 0 <= k < |tag| - |r| ==> tag[k] == 'v' || tag[k] == 'V'
    ensures |r| > 0 ==> r[0] != 'v' && r[0] != 'V'
  {
    LTrim(tag, {'v', 'V'})
  }

  lemma NormalizeVersionIdempotent(tag: string)
    ensures NormalizeVersion(NormalizeVersion(tag)) == NormalizeVersion(tag)
  {
    var r := NormalizeVersion(tag);
    if |r| > 0 {
      assert r[0] !in {'v', 'V'};
    }
  }

  /** A tag that does not start with a `v` or `V` is already a version. */
  lemma NormalizeVersionKeeps(tag: string)
    requires |tag| > 0 && tag[0] != 'v' && tag[0] != 'V'
    ensures NormalizeVersion(tag) == tag
  {
    assert tag[0] !in {'v', 'V'};
  }

  /** The tags of the release notes: `v6.3` and `vV6.3` are version `6.3`. */
  lemma NormalizeVersionExamples()
    ensures NormalizeVersion("v6.3") == "6.3"
    ensures NormalizeVersion("vV6.3") == "6.3"
    ensures NormalizeVersion("6.3") == "6.3"
  {
    NormalizeVersionKeeps("6.3");
    var vs := {'v', 'V'};
    assert "V6.3"[1..] == "6.3" && "V6.3"[0] in vs;
    assert LTrim("V6.3", vs) == LTrim("6.3", vs);
    assert "vV6.3"[1..] == "V6.3" && "vV6.3"[0] in vs;
    assert LTrim("vV6.3", vs) == LTrim("V6.3", vs);
    assert "v6.3"[1..] == "6.3" && "v6.3"[0] in vs;
    assert LTrim("v6.3", vs) == LTrim("6.3", vs);
  }

  // ---------------------------------------------------------------------------
  // get_download_url
  // ---------------------------------------------------------------------------

  /**
   * `pathinfo($name, PATHINFO_EXTENSION)`: what follows the last dot of the
   * base name (the part after the last slash), read from the right of the
   * first `i` characters.
   */
  function ExtensionScan(name: string, i: nat): (r: string)
    requires i <= |name|
    decreases i
  {
    if i == 0 || name[i - 1] == '/' then ""
    else if name[i - 1] == '.' then name[i..]
    else ExtensionScan(name, i - 1)
  }

  function Extension(name: string): string {
    ExtensionScan(name, |name|)
  }

  /** Scanning leftwards over characters that are neither dot nor slash changes nothing. */
  lemma {:induction false} ExtensionScanSkips(name: string, i: nat, j: nat)
    requires j <= i <= |name|
    requires forall k :: j <= k < i ==> name[k] != '.' && name[k] != '/'
    ensures ExtensionScan(name, i) == ExtensionScan(name, j)
    decreases i - j
  {
    if j < i {
      ExtensionScanSkips(name, i - 1, j);
    }
  }

  /** The extension of `stem.ext` is `ext` when `ext` holds no dot and no slash. */
  lemma ExtensionOf(stem: string, ext: string)
    requires '.' !in ext && '/' !in ext
    ensures Extension(stem + "." + ext) == ext
  {
    var name := stem + "." + ext;
    var d := |stem| + 1;
    forall k | d <= k < |name| ensures name[k] != '.' && name[k] != '/' {
      assert name[k] == ext[k - d];
    }
    ExtensionScanSkips(name, |name|, d);
    assert name[d - 1] == '.' && name[d..] == ext;
  }

  /** `strtolower(pathinfo($asset->name, PATHINFO_EXTENSION)) === 'zip'`. */
  predicate IsZip(a: Asset) {
    StrToLower(Extension(a.name)) == "zip"
  }

  /** The tag-archive URL used when a release has no zip asset. */
  function ArchiveUrl(tag: string): string {
    RepoUrl + "/archive/refs/tags/" + tag + ".zip"
  }

  /** The URL of the first zip among `assets`, else the archive of `tag`. */
  function FirstZipUrl(assets: seq<Asset>, tag: string): string
    decreases |assets|
  {
    if assets == [] then ArchiveUrl(tag)
    else if IsZip(assets[0]) then assets[0].downloadUrl
    else FirstZipUrl(assets[1..], tag)
  }

  /** The package to install: the first zip asset's URL, else the tag archive. */
  function DownloadUrl(release: Release): string {
    FirstZipUrl(release.assets, release.tagName)
  }

  /** When asset `j` is the first zip, its URL is the package. */
  lemma {:induction false} FirstZipUrlAt(assets: seq<Asset>, tag: string, j: nat)
    requires j < |assets| && IsZip(assets[j])
    requires forall k :: 0 <= k < j ==> !IsZip(assets[k])
    ensures FirstZipUrl(assets, tag) == assets[j].downloadUrl
    decreases j
  {
    if j > 0 {
      var rest := assets[1..];
      assert FirstZipUrl(assets, tag) == FirstZipUrl(rest, tag) by {
        assert !IsZip(assets[0]);
      }
      assert rest[j - 1] == assets[j];
      assert forall k :: 0 <= k < j - 1 ==> !IsZip(rest[k]) by {
        forall k | 0 <= k < j - 1 ensures !IsZip(rest[k]) {
          assert rest[k] == assets[k + 1];
        }
      }
      FirstZipUrlAt(rest, tag, j - 1);
    }
  }

  /** With no zip among the assets, the package is the tag archive. */
  lemma {:induction false} FirstZipUrlNone(assets: seq<Asset>, tag: string)
    requires forall k :: 0 <= k < |assets| ==> !IsZip(assets[k])
    ensures FirstZipUrl(assets, tag) == ArchiveUrl(tag)
    decreases |assets|
  {
    if assets != [] {
      assert !IsZip(assets[0]);
      FirstZipUrlNone(assets[1..], tag);
    }
  }

  lemma DownloadUrlFirstZip(release: Release, j: nat)
    requires j < |release.assets| && IsZip(release.assets[j])
    requires forall k :: 0 <= k < j ==> !IsZip(release.assets[k])
    ensures DownloadUrl(release) == release.assets[j].downloadUrl
  {
    FirstZipUrlAt(release.assets, release.tagName, j);
  }

  lemma DownloadUrlNoZip(release: Release)
    requires forall k :: 0 <= k < |release.assets| ==> !IsZip(release.assets[k])
    ensures DownloadUrl(release) == ArchiveUrl(release.tagName)
  {
    FirstZipUrlNone(release.assets, release.tagName);
  }

  // ---------------------------------------------------------------------------
  // version_compare on dotted numeric versions
  // ---------------------------------------------------------------------------

  /** `explode($c, $s)`: the pieces of `s` between occurrences of `c`. */
  function SplitOn(s: string, c: char): (r: seq<string>)
    ensures |r| > 0
    ensures forall i :: 0 <= i < |r| ==> c !in r[i]
    decreases |s|
  {
    if s == [] then [""]
    else
      var rest := SplitOn(s[1..], c);
      if s[0] == c then [""] + rest else [[s[0]] + rest[0]] + rest[1..]
  }

  /** `implode($c, $parts)`. */
  function Join(parts: seq<string>, c: char): (r: string)
    requires |parts| > 0
    decreases |parts|
  {
    if |parts| == 1 then parts[0] else parts[0] + [c] + Join(parts[1..], c)
  }

  /** Splitting and joining again gives back the string. */
  lemma {:induction false} JoinSplit(s: string, c: char)
    ensures Join(SplitOn(s, c), c) == s
    decreases |s|
  {
    if s != [] {
      var rest := SplitOn(s[1..], c);
      JoinSplit(s[1..], c);
      if s[0] != c {
        var r := SplitOn(s, c);
        if |rest| == 1 {
          assert r == [[s[0]] + rest[0]];
        } else {
          assert r[1..] == rest[1..];
          assert Join(r, c) == [s[0]] + rest[0] + [c] + Join(rest[1..], c);
        }
      }
    }
  }

  /** A version made of decimal numbers separated by dots, such as `6.10.2`. */
  predicate DottedNumeric(v: string) {
    var parts := SplitOn(v, '.');
    forall i :: 0 <= i < |parts| ==> CtypeDigit(parts[i])
  }

  /** One numeric part as `strtol` reads it, saturating at the `long` ceiling. */
  function PartValue(p: string): (n: nat)
    requires CtypeDigit(p)
    ensures n <= LongMax
  {
    var d := DecimalValue(p);
    if d > LongMax then LongMax else d
  }

  function PartValues(v: string): (r: seq<nat>)
    requires DottedNumeric(v)
    ensures |r| == |SplitOn(v, '.')|
  {
    var parts := SplitOn(v, '.');
    seq(|parts|, i requires 0 <= i < |parts| => PartValue(parts[i]))
  }

  /**
   * Part-by-part comparison of version numbers; when one runs out while the
   * parts so far agree, the longer one (whose next part is a number) is newer.
   */
  predicate LexGreater(a: seq<nat>, b: seq<nat>)
    decreases |a|
  {
    if a == [] then false
    else if b == [] then true
    else if a[0] != b[0] then a[0] > b[0]
    else LexGreater(a[1..], b[1..])
  }

  lemma {:induction false} LexGreaterIrreflexive(a: seq<nat>)
    ensures !LexGreater(a, a)
    decreases |a|
  {
    if a != [] {
      LexGreaterIrreflexive(a[1..]);
    }
  }

  lemma {:induction false} LexGreaterTransitive(a: seq<nat>, b: seq<nat>, c: seq<nat>)
    requires LexGreater(a, b) && LexGreater(b, c)
    ensures LexGreater(a, c)
    decreases |a|
  {
    if c != [] && a[0] == b[0] && b[0] == c[0] {
      LexGreaterTransitive(a[1..], b[1..], c[1..]);
    }
  }

  lemma LexGreaterAsymmetric(a: seq<nat>, b: seq<nat>)
    requires LexGreater(a, b)
    ensures !LexGreater(b, a)
  {
    if LexGreater(b, a) {
      LexGreaterTransitive(a, b, a);
      LexGreaterIrreflexive(a);
    }
  }

  lemma {:induction false} LexGreaterTotal(a: seq<nat>, b: seq<nat>)
    requires a != b
    ensures LexGreater(a, b) || LexGreater(b, a)
    decreases |a|
  {
    if a != [] && b != [] && a[0] == b[0] {
      assert a == [a[0]] + a[1..] && b == [b[0]] + b[1..];
      LexGreaterTotal(a[1..], b[1..]);
    }
  }

  /**
   * `version_compare($a, $b, '>')`. On dotted numeric versions it is the part
   * comparison above; any other pair is decided by `otherCompare`.
   */
  predicate VersionGreater(otherCompare: (string, string) -> bool, a: string, b: string) {
    if DottedNumeric(a) && DottedNumeric(b) then LexGreater(PartValues(a), PartValues(b))
    else otherCompare(a, b)
  }

  /** On dotted numeric versions, "newer than" is a strict total order on the part values. */
  lemma VersionGreaterStrictOrder(oc: (string, string) -> bool, a: string, b: string, c: string)
    requires DottedNumeric(a) && DottedNumeric(b) && DottedNumeric(c)
    ensures !VersionGreater(oc, a, a)
    ensures VersionGreater(oc, a, b) ==> !VersionGreater(oc, b, a)
    ensures VersionGreater(oc, a, b) && VersionGreater(oc, b, c) ==> VersionGreater(oc, a, c)
    ensures PartValues(a) != PartValues(b) ==> VersionGreater(oc, a, b) || VersionGreater(oc, b, a)
  {
    LexGreaterIrreflexive(PartValues(a));
    if VersionGreater(oc, a, b) {
      LexGreaterAsymmetric(PartValues(a), PartValues(b));
      if VersionGreater(oc, b, c) {
        LexGreaterTransitive(PartValues(a), PartValues(b), PartValues(c));
      }
    }
    if PartValues(a) != PartValues(b) {
      LexGreaterTotal(PartValues(a), PartValues(b));
    }
  }

  /** A string without `c` is one piece. */
  lemma {:induction false} SplitOnNone(x: string, c: char)
    requires c !in x
    ensures SplitOn(x, c) == [x]
    decreases |x|
  {
    if x != [] {
      SplitOnNone(x[1..], c);
      assert [x[0]] + x[1..] == x;
    }
  }

  /** The piece before the first `c` comes first. */
  lemma {:induction false} SplitOnFirst(x: string, c: char, t: string)
    requires c !in x
    ensures SplitOn(x + [c] + t, c) == [x] + SplitOn(t, c)
    decreases |x|
  {
    var s := x + [c] + t;
    if x == [] {
      assert s[1..] == t;
    } else {
      assert s[1..] == x[1..] + [c] + t;
      SplitOnFirst(x[1..], c, t);
      assert [x[0]] + x[1..] == x;
    }
  }

  /** A version `x.y` of two numeric parts has their values as parts. */
  lemma TwoPartValues(x: string, y: string)
    requires CtypeDigit(x) && CtypeDigit(y)
    ensures DottedNumeric(x + "." + y) && PartValues(x + "." + y) == [PartValue(x), PartValue(y)]
  {
    assert '.' !in x by { assert forall i :: 0 <= i < |x| ==> IsDigit(x[i]); }
    assert '.' !in y by { assert forall i :: 0 <= i < |y| ==> IsDigit(y[i]); }
    SplitOnNone(y, '.');
    SplitOnFirst(x, '.', y);
  }

  lemma SmallDecimals()
    ensures DecimalValue("6") == 6 && DecimalValue("4") == 4 && DecimalValue("9") == 9 && DecimalValue("10") == 10
  {
    assert DecimalValue("6") == 6 by { assert "6"[..0] == ""; }
    assert DecimalValue("4") == 4 by { assert "4"[..0] == ""; }
    assert DecimalValue("9") == 9 by { assert "9"[..0] == ""; }
    assert DecimalValue("10") == 10 by { assert "10"[..1] == "1" && "1"[..0] == ""; }
  }

  /** 6.3 is newer than 4.5: the first parts decide. */
  lemma SixThreeOverFourFive(oc: (string, string) -> bool)
    ensures VersionGreater(oc, "6.3", "4.5")
  {
    SmallDecimals();
    TwoPartValues("6", "3");
    assert "6" + "." + "3" == "6.3";
    TwoPartValues("4", "5");
    assert "4" + "." + "5" == "4.5";
  }

  /** 4.5 is not newer than itself. */
  lemma FourFiveNotOverItself(oc: (string, string) -> bool)
    ensures !VersionGreater(oc, "4.5", "4.5")
  {
    TwoPartValues("4", "5");
    assert "4" + "." + "5" == "4.5";
    LexGreaterIrreflexive(PartValues("4.5"));
  }

  /** 6.10 is newer than 6.9: parts compare as numbers, not as strings. */
  lemma SixTenOverSixNine(oc: (string, string) -> bool)
    ensures VersionGreater(oc, "6.10", "6.9")
  {
    SmallDecimals();
    TwoPartValues("6", "10");
    assert "6" + "." + "10" == "6.10";
    TwoPartValues("6", "9");
    assert "6" + "." + "9" == "6.9";
    assert PartValues("6.10")[1..] == [10] && PartValues("6.9")[1..] == [9];
  }

  /** The version pairs named by the plugin's release notes: 6.3 beats 4.5, 4.5 does not beat itself, and 6.10 beats 6.9. */
  lemma VersionGreaterExamples(oc: (string, string) -> bool)
    ensures VersionGreater(oc, "6.3", "4.5")
    ensures !VersionGreater(oc, "4.5", "4.5")
    ensures VersionGreater(oc, "6.10", "6.9")
  {
    SixThreeOverFourFive(oc);
    FourFiveNotOverItself(oc);
    SixTenOverSixNine(oc);
  }

  // ---------------------------------------------------------------------------
  // check_for_update
  // ---------------------------------------------------------------------------

  /** The plugin file's header fields, as `get_plugin_data` reads them. */
  datatype PluginHeaders = PluginHeaders(
    name: string, version: string, author: string, authorUri: string,
    pluginUri: string, description: string)

  /** The update offer placed under the plugin's basename. */
  datatype Offer = Offer(id: string, slug: string, plugin: string, newVersion: string, url: string, package: string)

  /** The `update_plugins` site transient: installed versions, and offered updates by basename. */
  datatype UpdateTransient = UpdateTransient(checked: map<string, string>, response: map<string, Offer>)

  /**
   * The transient after `check_for_update`, given the release the lookup found:
   * an offer under `slug` exactly when there are installed versions, a release,
   * and its normalised tag is newer than `current`.
   */
  function WithUpdate(
    t: UpdateTransient, release: Option<Release>, current: string,
    slug: string, folder: string, otherCompare: (string, string) -> bool): (r: UpdateTransient)
    ensures r.checked == t.checked
    ensures forall k :: k != slug ==> (k in r.response <==> k in t.response)
    ensures forall k :: k != slug && k in t.response ==> r.response[k] == t.response[k]
    ensures slug in r.response && (slug !in t.response || r.response[slug] != t.response[slug]) ==>
              |t.checked| > 0 && release.Some?
              && VersionGreater(otherCompare, NormalizeVersion(release.value.tagName), current)
    ensures |t.checked| > 0 && release.Some?
            && VersionGreater(otherCompare, NormalizeVersion(release.value.tagName), current) ==>
              slug in r.response
              && r.response[slug] == Offer(folder, folder, slug, NormalizeVersion(release.value.tagName),
                                           RepoUrl, DownloadUrl(release.value))
  {
    if |t.checked| == 0 || release.None? then t
    else
      var latest := NormalizeVersion(release.value.tagName);
      if VersionGreater(otherCompare, latest, current) then
        t.(response := t.response[slug := Offer(folder, folder, slug, latest, RepoUrl, DownloadUrl(release.value))])
      else t
  }

  /** Running the check twice against the same release leaves what running it once does. */
  lemma WithUpdateIdempotent(
    t: UpdateTransient, release: Option<Release>, current: string,
    slug: string, folder: string, oc: (string, string) -> bool)
    ensures var once := WithUpdate(t, release, current, slug, folder, oc);
            WithUpdate(once, release, current, slug, folder, oc) == once
  {
    var once := WithUpdate(t, release, current, slug, folder, oc);
    var twice := WithUpdate(once, release, current, slug, folder, oc);
    assert twice.response == once.response;
  }

  // ---------------------------------------------------------------------------
  // plugins_api details, after_install and purge_cache inputs
  // ---------------------------------------------------------------------------

  /** The "View details" record. */
  datatype PluginDetails = PluginDetails(
    name: string, slug: string, version: string, author: string, homepage: string,
    downloadLink: string, description: string, changelog: string, lastUpdated: string,
    tested: string, requiresVersion: string)

  /** What `plugin_info` hands back: the incoming `$result` untouched, or the details. */
  datatype InfoResult = PassThrough | Details(details: PluginDetails)

  /**
   * The details for a found release. `formatDate` stands for
   * `date('Y-m-d', strtotime(...))`, which is left to the host.
   */
  function DetailsFor(
    release: Release, headers: PluginHeaders, folder: string, wpVersion: string,
    formatDate: string -> string): (d: PluginDetails)
    ensures d.version == NormalizeVersion(release.tagName) && d.slug == folder
    ensures d.downloadLink == DownloadUrl(release)
    ensures d.changelog == (if release.body.Some? then release.body.value else "See GitHub for release notes.")
    ensures d.lastUpdated == (if release.publishedAt.Some? then formatDate(release.publishedAt.value) else "")
    ensures d.requiresVersion == "5.0" && d.tested == wpVersion
  {
    PluginDetails(
      headers.name, folder, NormalizeVersion(release.tagName),
      "<a href=\"" + headers.authorUri + "\">" + headers.author + "</a>",
      headers.pluginUri, DownloadUrl(release), headers.description,
      release.body.GetOr("See GitHub for release notes."),
      if release.publishedAt.Some? then formatDate(release.publishedAt.value) else "",
      wpVersion, "5.0")
  }

  /** What `after_install` hands back: the incoming `$response`, or the updated `$result`. */
  datatype InstallOutcome = KeepResponse | Moved(result: map<string, string>)

  /** The `upgrader_process_complete` options; unset entries are `None`. */
  datatype UpgradeOptions = UpgradeOptions(action: Option<string>, kind: Option<string>, plugins: Option<seq<string>>)

  /** `dirname` of a plugin basename: the folder before the last slash, or "." when there is none. */
  function Dirname(path: string): (r: string)
    ensures '/' in path ==> path == r + "/" + AfterLast(path, '/')
    ensures '/' !in path ==> r == "."
  {
    var base := AfterLast(path, '/');
    if |base| == |path| then
      assert '/' !in path by {
        assert path == path[|path| - |base|..];
      }
      "."
    else
      var r := path[..|path| - |base| - 1];
      assert path == r + "/" + base by {
        assert path[|path| - |base| - 1] == '/';
        assert path == path[..|path| - |base| - 1] + [path[|path| - |base| - 1]] + path[|path| - |base|..];
      }
      r
  }

  // ---------------------------------------------------------------------------
  // The updater object
  // ---------------------------------------------------------------------------

  class CerritoUpdater {
    /** `plugin_basename` of the main file, e.g. `cerrito-schedule/cerrito-schedule.php`. */
    const pluginSlug: string
    /** The folder part of the basename. */
    const pluginFolder: string
    /** `plugin_dir_path` of the main file, where an update is moved to. */
    const installDirectory: string
    /** The header fields `get_plugin_data` reads from the main file. */
    const fileHeaders: PluginHeaders

    /** The `$plugin_data` memo: empty until first read. */
    var pluginData: Option<PluginHeaders>
    /** The `$github_response` memo. */
    var githubResponse: Option<Release>
    /** The `cerrito_schedule_github_release` site transient (unset is `None`). */
    var cache: Option<Release>

    /** The plugin-data memo only ever holds the file's headers. */
    predicate Valid()
      reads this
    {
      pluginData.Some? ==> pluginData.value == fileHeaders
    }

    constructor(slug: string, pluginDir: string, headers: PluginHeaders, storedCache: Option<Release>)
      ensures pluginSlug == slug && pluginFolder == Dirname(slug)
      ensures installDirectory == pluginDir && fileHeaders == headers
      ensures pluginData == None && githubResponse == None && cache == storedCache
      ensures Valid()
    {
      pluginSlug := slug;
      pluginFolder := Dirname(slug);
      installDirectory := pluginDir;
      fileHeaders := headers;
      pluginData := None;
      githubResponse := None;
      cache := storedCache;
    }

    /** `get_plugin_data`: read the headers once and keep them. */
    method GetPluginData() returns (h: PluginHeaders)
      requires Valid()
      modifies this
      ensures Valid()
      ensures h == fileHeaders && pluginData == Some(fileHeaders)
      ensures githubResponse == old(githubResponse) && cache == old(cache)
    {
      if pluginData.None? {
        pluginData := Some(fileHeaders);
      }
      h := pluginData.value;
    }

    /** `get_github_release`. */
    method GetGithubRelease(fetch: FetchResult) returns (r: Option<Release>)
      modifies this
      ensures Resolution(r, githubResponse, cache) == Resolve(old(githubResponse), old(cache), fetch)
      ensures pluginData == old(pluginData)
    {
      if githubResponse.Some? {
        return githubResponse;
      }
      if cache.Some? {
        githubResponse := cache;
        return cache;
      }
      match Fetched(fetch)
      case None =>
        return None;
      case Some(body) =>
        githubResponse := Some(body);
        cache := Some(body);
        return Some(body);
    }

    /** `get_download_url`: scan the assets for the first zip. */
    method GetDownloadUrl(release: Release) returns (url: string)
      ensures url == DownloadUrl(release)
    {
      var i := 0;
      while i < |release.assets|
        invariant 0 <= i <= |release.assets|
        invariant FirstZipUrl(release.assets[i..], release.tagName) == DownloadUrl(release)
        decreases |release.assets| - i
      {
        if StrToLower(Extension(release.assets[i].name)) == "zip" {
          return release.assets[i].downloadUrl;
        }
        assert release.assets[i..][1..] == release.assets[i + 1..];
        i := i + 1;
      }
      url := ArchiveUrl(release.tagName);
    }

    /** `check_for_update`, filtering the `update_plugins` transient before it is saved. */
    method CheckForUpdate(t: UpdateTransient, fetch: FetchResult, otherCompare: (string, string) -> bool)
      returns (r: UpdateTransient)
      requires Valid()
      modifies this
      ensures Valid()
      ensures |t.checked| == 0 ==>
                r == t && githubResponse == old(githubResponse) && cache == old(cache)
                && pluginData == old(pluginData)
      ensures |t.checked| > 0 ==>
                var res := Resolve(old(githubResponse), old(cache), fetch);
                && githubResponse == res.memo && cache == res.cache
                && pluginData == (if res.release.Some? then Some(fileHeaders) else old(pluginData))
                && r == WithUpdate(t, res.release, fileHeaders.version, pluginSlug, pluginFolder, otherCompare)
    {
      if |t.checked| == 0 {
        return t;
      }
      var release := GetGithubRelease(fetch);
      if release.None? {
        return t;
      }
      var headers := GetPluginData();
      var latest := NormalizeVersion(release.value.tagName);
      r := t;
      if VersionGreater(otherCompare, latest, headers.version) {
        var package := GetDownloadUrl(release.value);
        r := t.(response := t.response[pluginSlug := Offer(pluginFolder, pluginFolder, pluginSlug, latest, RepoUrl, package)]);
      }
    }

    /** Whether a `plugins_api` call asks for this plugin's details. */
    predicate AsksForDetails(action: string, argsSlug: Option<string>) {
      action == "plugin_information" && argsSlug == Some(pluginFolder)
    }

    /**
     * `plugin_info`: details for this plugin's "View details" modal. Once the
     * guards pass, the release and the plugin data are both looked up before
     * the release is checked, so a failed lookup still loads the plugin data.
     */
    method PluginInfo(
      action: string, argsSlug: Option<string>, fetch: FetchResult, wpVersion: string,
      formatDate: string -> string) returns (r: InfoResult)
      requires Valid()
      modifies this
      ensures Valid()
      ensures !AsksForDetails(action, argsSlug) ==>
                r == PassThrough && githubResponse == old(githubResponse) && cache == old(cache)
                && pluginData == old(pluginData)
      ensures AsksForDetails(action, argsSlug) ==>
                var res := Resolve(old(githubResponse), old(cache), fetch);
                && githubResponse == res.memo && cache == res.cache
                && pluginData == Some(fileHeaders)
                && r == (if res.release.None? then PassThrough
                         else Details(DetailsFor(res.release.value, fileHeaders, pluginFolder, wpVersion, formatDate)))
    {
      if action != "plugin_information" {
        return PassThrough;
      }
      if argsSlug.None? || argsSlug.value != pluginFolder {
        return PassThrough;
      }
      var release := GetGithubRelease(fetch);
      var headers := GetPluginData();
      if release.None? {
        return PassThrough;
      }
      var url := GetDownloadUrl(release.value);
      r := Details(PluginDetails(
        headers.name, pluginFolder, NormalizeVersion(release.value.tagName),
        "<a href=\"" + headers.authorUri + "\">" + headers.author + "</a>",
        headers.pluginUri, url, headers.description,
        release.value.body.GetOr("See GitHub for release notes."),
        if release.value.publishedAt.Some? then formatDate(release.value.publishedAt.value) else "",
        wpVersion, "5.0"));
    }

    /**
     * `after_install`: for this plugin's own package, the result's destination
     * becomes the plugin directory; any other package passes through.
     */
    function AfterInstall(pluginKey: Option<string>, result: map<string, string>): (r: InstallOutcome)
      ensures r.Moved? <==> pluginKey == Some(pluginSlug)
      ensures r.Moved? ==> "destination" in r.result && r.result["destination"] == installDirectory
      ensures r.Moved? ==> forall k :: k != "destination" ==>
                (k in r.result <==> k in result) && (k in result ==> r.result[k] == result[k])
    {
      if pluginKey.None? || pluginKey.value != pluginSlug then KeepResponse
      else Moved(result["destination" := installDirectory])
    }

    /** Whether an upgrade run updated this plugin. */
    method ListsPlugin(plugins: seq<string>) returns (found: bool)
      ensures found <==> pluginSlug in plugins
    {
      found := false;
      var i := 0;
      while i < |plugins|
        invariant 0 <= i <= |plugins|
        invariant pluginSlug !in plugins[..i]
        decreases |plugins| - i
      {
        if plugins[i] == pluginSlug {
          found := true;
          break;
        }
        i := i + 1;
      }
      assert found || plugins[..i] == plugins;
    }

    /** The condition under which `purge_cache` drops the cached release. */
    predicate PurgeApplies(options: UpgradeOptions) {
      && options.action == Some("update")
      && options.kind == Some("plugin")
      && options.plugins.Some?
      && pluginSlug in options.plugins.value
    }

    /** `purge_cache`: forget the cached release once this plugin has been updated. */
    method PurgeCache(options: UpgradeOptions)
      modifies this
      ensures cache == (if PurgeApplies(options) then None else old(cache))
      ensures githubResponse == old(githubResponse) && pluginData == old(pluginData)
    {
      if options.action == Some("update") && options.kind == Some("plugin") && options.plugins.Some? {
        var found := ListsPlugin(options.plugins.value);
        if found {
          cache := None;
        }
      }
    }
  }
}
