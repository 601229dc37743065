/**
 * The start-up helpers of the forwarder: the instance-metadata URL builder
 * (syslog/forward-to-cloudwatch.py:42-52) and the region taken from the
 * availability-zone name (syslog/forward-to-cloudwatch.py:218-220).
 */
module InstanceMetadata {
  import opened Types
  import opened PyText

  const ApiRoot: string := "169.254.169.254/latest/meta-data/"
  const Scheme: string := "http://"

  /** No two consecutive slashes. */
  predicate NoDoubleSlash(s: string) {
    forall i :: 0 <= i < |s| - 1 ==> !(s[i] == '/' && s[i + 1] == '/')
  }

  /** `s` with every slash removed: what slash-collapsing must leave alone. */
  function DropSlashes(s: string): string {
    if s == [] then [] else (if s[0] == '/' then [] else [s[0]]) + DropSlashes(s[1..])
  }

  /**
   * `re.sub('/+', '/', s)`: every run of slashes becomes one. The result has no
   * double slash, keeps every other character in order, starts like `s`, and leaves
   * a text without double slashes as it was.
   */
  function Squeeze(s: string): (r: string)
    ensures NoDoubleSlash(r)
    ensures DropSlashes(r) == DropSlashes(s)
    ensures s != [] ==> r != [] && r[0] == s[0]
    ensures NoDoubleSlash(s) ==> r == s
  {
    if |s| <= 1 then s
    else if s[0] == '/' && s[1] == '/' then Squeeze(s[1..])
    else
      var rest := Squeeze(s[1..]);
      assert ([s[0]] + rest)[1..] == rest;
      [s[0]] + rest
  }

  /** `re.sub('^/', '', s)`: one leading slash removed. */
  function DropLeadingSlash(s: string): (r: string)
    ensures NoDoubleSlash(s) ==> NoDoubleSlash(r) && (r == [] || r[0] != '/')
    ensures DropSlashes(r) == DropSlashes(s)
  {
    if s != [] && s[0] == '/' then s[1..] else s
  }

  /**
   * `AwsMetadata.url_for_api(api)`: "http://" and then the root joined to `api` by a
   * slash, with slash runs collapsed and a leading slash removed.
   */
  function UrlForApi(api: string): (url: string)
    ensures |url| >= |Scheme| && url[..|Scheme|] == Scheme
    ensures var path := url[|Scheme|..];
      NoDoubleSlash(path) && (path == [] || path[0] != '/')
      && DropSlashes(path) == DropSlashes(ApiRoot + "/" + api)
  {
    var squeezed := Squeeze(ApiRoot + "/" + api);
    var path := DropLeadingSlash(squeezed);
    assert (Scheme + path)[|Scheme|..] == path;
    Scheme + path
  }

  /** One redundant slash anywhere makes no difference to the collapsed text. */
  lemma {:induction false} SqueezeCollapses(x: string, y: string)
    ensures Squeeze(x + "//" + y) == Squeeze(x + "/" + y)
    decreases |x|
  {
    var s, t := x + "//" + y, x + "/" + y;
    if x == [] {
      assert s[1..] == t;
    } else {
      SqueezeCollapses(x[1..], y);
      DropFirst(x, "//", y);
      DropFirst(x, "/", y);
      SqueezeSameStart(s, t);
    }
  }

  /** Dropping the first character of a text that starts with a non-empty `x`. */
  lemma DropFirst(x: string, m: string, y: string)
    requires x != []
    ensures (x + m + y)[1..] == x[1..] + m + y
  {
  }

  /** `Squeeze` sees only the first two characters and the squeezed remainder. */
  lemma SqueezeSameStart(s: string, t: string)
    requires |s| >= 2 && |t| >= 2 && s[0] == t[0] && s[1] == t[1]
    requires Squeeze(s[1..]) == Squeeze(t[1..])
    ensures Squeeze(s) == Squeeze(t)
  {
  }

  /** Splicing texts without double slashes at a single slash gives no double slash. */
  lemma NoDoubleSlashJoin(x: string, y: string)
    requires NoDoubleSlash(x) && NoDoubleSlash(y)
    requires x == [] || x[|x| - 1] != '/'
    requires y == [] || y[0] != '/'
    ensures NoDoubleSlash(x + "/" + y)
  {
    var s := x + "/" + y;
    forall i | 0 <= i < |s| - 1
      ensures !(s[i] == '/' && s[i + 1] == '/')
    {
      if i + 1 < |x| {
        assert s[i] == x[i] && s[i + 1] == x[i + 1];
      } else if i > |x| {
        assert s[i] == y[i - |x| - 1] && s[i + 1] == y[i - |x|];
      }
    }
  }

  /** A doubled slash inside `api` does not change the URL. */
  lemma UrlForApiExtraSlash(x: string, y: string)
    ensures UrlForApi(x + "//" + y) == UrlForApi(x + "/" + y)
  {
    assert ApiRoot + "/" + (x + "//" + y) == (ApiRoot + "/" + x) + "//" + y;
    assert ApiRoot + "/" + (x + "/" + y) == (ApiRoot + "/" + x) + "/" + y;
    SqueezeCollapses(ApiRoot + "/" + x, y);
  }

  /**
   * An `api` path that is already clean (no leading slash, no double slash) is
   * appended to the root as it is: `url_for_api("placement/availability-zone")` is
   * "http://169.254.169.254/latest/meta-data/placement/availability-zone".
   */
  lemma UrlForCleanApi(api: string)
    requires NoDoubleSlash(api) && (api == [] || api[0] != '/')
    ensures UrlForApi(api) == Scheme + ApiRoot + api
  {
    var base := ApiRoot[..|ApiRoot| - 1];
    ApiRootClean();
    assert ApiRoot + "/" + api == base + "//" + api;
    SqueezeCollapses(base, api);
    NoDoubleSlashJoin(base, api);
    assert base + "/" + api == ApiRoot + api;
  }

  /**
   * For every `api`, the URL is "http://" and the root followed by `api` with slash
   * runs collapsed: the joining slash merges into the root's own final one, and the
   * collapsed text starts with the root's first character, so no leading slash is left.
   */
  lemma UrlForAnyApi(api: string)
    ensures UrlForApi(api) == Scheme + Squeeze(ApiRoot + api)
  {
    var base := ApiRoot[..|ApiRoot| - 1];
    ApiRootClean();
    assert ApiRoot + "/" + api == base + "//" + api;
    SqueezeCollapses(base, api);
    assert base + "/" + api == ApiRoot + api;
    assert (ApiRoot + api)[0] == ApiRoot[0];
  }

  /** A leading slash on `api` is redundant too: `url_for_api("/x")` is `url_for_api("x")`. */
  lemma UrlForSlashedApi(api: string)
    ensures UrlForApi("/" + api) == UrlForApi(api)
  {
    var base := ApiRoot[..|ApiRoot| - 1];
    UrlForAnyApi("/" + api);
    UrlForAnyApi(api);
    ApiRootClean();
    assert ApiRoot + ("/" + api) == base + "//" + api;
    SqueezeCollapses(base, api);
    assert base + "/" + api == ApiRoot + api;
  }

  /** The root has no double slash, starts with no slash, and ends with exactly one. */
  lemma ApiRootClean()
    ensures var base := ApiRoot[..|ApiRoot| - 1];
      ApiRoot == base + "/" && NoDoubleSlash(base) && base[|base| - 1] != '/' && base[0] != '/'
  {
    var base := ApiRoot[..|ApiRoot| - 1];
    assert base == "169.254.169.254/latest/meta-data";
  }

  /** Text that `\S+-\d` matches in full: no whitespace, ending in a hyphen and a digit. */
  predicate IsRegion(p: string) {
    |p| >= 3 && NoSpace(p) && p[|p| - 2] == '-' && IsAsciiDigit(p[|p| - 1])
  }

  /**
   * Group 1 of `re.match('^(\S+-\d)[a-z]$', az)`, None when it does not match. As
   * `$` also matches before a final newline, one trailing newline is allowed.
   */
  function RegionOfAz(az: string): (region: Option<string>)
    ensures region.Some? ==>
      var r := region.value;
      IsRegion(r) && |az| > |r| && az[..|r|] == r && IsAsciiLower(az[|r|])
      && (|az| == |r| + 1 || (|az| == |r| + 2 && az[|r| + 1] == '\n'))
  {
    var core := if az != [] && az[|az| - 1] == '\n' then az[..|az| - 1] else az;
    if core != [] && IsAsciiLower(core[|core| - 1]) && IsRegion(core[..|core| - 1]) then
      Some(core[..|core| - 1])
    else
      None
  }

  /** Every availability-zone name, region plus one lower-case letter, gives back its region. */
  lemma RegionOfAzComplete(region: string, zone: char)
    requires IsRegion(region) && IsAsciiLower(zone)
    ensures RegionOfAz(region + [zone]) == Some(region)
    ensures RegionOfAz(region + [zone, '\n']) == Some(region)
  {
    assert (region + [zone])[..|region|] == region;
    assert (region + [zone, '\n'])[..|region| + 1] == region + [zone];
  }
}
