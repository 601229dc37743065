/**
 * The scheme dispatch of file_importer.py: an address is split into a scheme and a
 * path (scheme syntax after section 3.1 of RFC 3986) and handed to the first
 * retriever whose scheme list holds the scheme (file_importer.py:22-47).
 */
module FileImporter {
  import opened Types
  import opened PyText

  /** The subclasses of `FileRetriever`, a closed set. */
  datatype Retriever = LocalFile | AwsS3File | HttpFile

  /** Each class's `schemes()` list. */
  function Schemes(kind: Retriever): seq<string> {
    match kind
    case LocalFile => ["file"]
    case AwsS3File => ["s3"]
    case HttpFile => ["http", "https"]
  }

  /** `FileRetriever.__subclasses__()`, in definition order. */
  const Subclasses: seq<Retriever> := [LocalFile, AwsS3File, HttpFile]

  /** A retriever object: its class and the two attributes its constructor stores. */
  datatype FileRetriever = FileRetriever(kind: Retriever, scheme: string, path: string)

  /** `\w` on ASCII text. */
  predicate IsWordChar(c: char) {
    IsAsciiLetter(c) || IsAsciiDigit(c) || c == '_'
  }

  /** `[\w+-.]`: a word character or one of the range `+` to `.`, which holds `+ , - .`. */
  predicate IsSchemeChar(c: char) {
    IsWordChar(c) || ('+' <= c <= '.')
  }

  /** Text that `[A-Za-z][\w+-.]*` matches in full. */
  predicate IsScheme(s: string) {
    |s| >= 1 && IsAsciiLetter(s[0]) && forall i :: 0 <= i < |s| ==> IsSchemeChar(s[i])
  }

  /** The length of the longest prefix of `s` made of scheme characters. */
  function SchemeRun(s: string): (n: nat)
    ensures n <= |s|
    ensures forall i :: 0 <= i < n ==> IsSchemeChar(s[i])
    ensures n == |s| || !IsSchemeChar(s[n])
  {
    if s == [] || !IsSchemeChar(s[0]) then 0 else 1 + SchemeRun(s[1..])
  }

  lemma {:induction false} SchemeRunOfScheme(s: string, rest: string)
    requires forall i :: 0 <= i < |s| ==> IsSchemeChar(s[i])
    requires rest != [] && !IsSchemeChar(rest[0])
    ensures SchemeRun(s + rest) == |s|
  {
    if s != [] {
      assert (s + rest)[1..] == s[1..] + rest;
      SchemeRunOfScheme(s[1..], rest);
    }
  }

  /**
   * The `(?P<path>.*)$` part over the text after "://": `.` stops at a newline and `$`
   * also matches before a final newline.
   */
  function PathGroup(rest: string): (p: Option<string>)
    ensures p.Some? ==> '\n' !in p.value && (rest == p.value || rest == p.value + "\n")
  {
    if '\n' !in rest then Some(rest)
    else if rest[|rest| - 1] == '\n' && '\n' !in rest[..|rest| - 1] then
      assert rest == rest[..|rest| - 1] + "\n";
      Some(rest[..|rest| - 1])
    else None
  }

  /**
   * The groups of `^(?P<scheme>[A-Za-z][\w+-.]*)://(?P<path>.*)$` on `address`. The
   * scheme class has no `:`, so the scheme group is the whole run of scheme
   * characters at the start.
   */
  function MatchAddress(address: string): (m: Option<(string, string)>)
    ensures m.Some? ==>
      IsScheme(m.value.0) && '\n' !in m.value.1
      && (address == m.value.0 + "://" + m.value.1 || address == m.value.0 + "://" + m.value.1 + "\n")
  {
    var n := SchemeRun(address);
    if address == [] || !IsAsciiLetter(address[0]) || n + 3 > |address| || address[n..n + 3] != "://" then None
    else
      match PathGroup(address[n + 3..])
      case None => None
      case Some(path) =>
        assert address == address[..n] + "://" + address[n + 3..];
        Some((address[..n], path))
  }

  /** Every scheme followed by "://" and a one-line path matches, with and without a final newline. */
  lemma MatchAddressComplete(scheme: string, path: string)
    requires IsScheme(scheme) && '\n' !in path
    ensures MatchAddress(scheme + "://" + path) == Some((scheme, path))
    ensures MatchAddress(scheme + "://" + path + "\n") == Some((scheme, path))
  {
    var a, b := scheme + "://" + path, scheme + "://" + path + "\n";
    assert a == scheme + ("://" + path) && b == scheme + ("://" + path + "\n");
    SchemeRunOfScheme(scheme, "://" + path);
    SchemeRunOfScheme(scheme, "://" + path + "\n");
    assert a[|scheme|..|scheme| + 3] == "://" && b[|scheme|..|scheme| + 3] == "://";
    assert a[..|scheme|] == scheme && b[..|scheme|] == scheme;
    assert a[|scheme| + 3..] == path && b[|scheme| + 3..] == path + "\n";
    assert (path + "\n")[..|path|] == path;
  }

  /** `next(...)` over the classes: the first whose schemes hold `scheme`. */
  function HandlerFor(classes: seq<Retriever>, scheme: string): (h: Option<Retriever>)
    ensures h.Some? ==> h.value in classes && scheme in Schemes(h.value)
    ensures h.None? ==> forall k :: k in classes ==> scheme !in Schemes(k)
  {
    if classes == [] then None
    else if scheme in Schemes(classes[0]) then Some(classes[0])
    else HandlerFor(classes[1..], scheme)
  }

  /** The scheme and path `retrieverFor` works with: "file" and the whole address when it does not match. */
  function SchemeAndPath(address: string): (sp: (string, string))
    ensures IsScheme(sp.0) && LowerAscii(sp.0) == sp.0
    ensures MatchAddress(address).None? ==> sp == ("file", address)
    ensures MatchAddress(address).Some? ==>
      '\n' !in sp.1
      && (exists raw :: IsScheme(raw) && LowerAscii(raw) == sp.0
            && (address == raw + "://" + sp.1 || address == raw + "://" + sp.1 + "\n"))
  {
    match MatchAddress(address)
    case None =>
      assert IsScheme("file") && LowerAscii("file") == "file";
      ("file", address)
    case Some((scheme, path)) =>
      LowerSchemeIsScheme(scheme);
      (LowerAscii(scheme), path)
  }

  /** `FileRetriever.retrieverFor(address)`, with the exception it raises as `Err`. */
  function RetrieverFor(address: string): (r: Result<FileRetriever, string>)
    ensures r.Ok? ==> r.value.scheme in Schemes(r.value.kind)
    ensures r.Ok? ==> (r.value.scheme, r.value.path) == SchemeAndPath(address)
    ensures r.Err? ==> forall k :: k in Subclasses ==> SchemeAndPath(address).0 !in Schemes(k)
  {
    var (scheme, path) := SchemeAndPath(address);
    match HandlerFor(Subclasses, scheme)
    case Some(kind) => Ok(FileRetriever(kind, scheme, path))
    case None => Err(address + ": no parser for scheme " + scheme)
  }

  /** Which class handles which scheme; every other scheme has no handler. */
  lemma DispatchTable(scheme: string)
    ensures HandlerFor(Subclasses, scheme) ==
      if scheme == "file" then Some(LocalFile)
      else if scheme == "s3" then Some(AwsS3File)
      else if scheme == "http" || scheme == "https" then Some(HttpFile)
      else None
  {
    assert Subclasses[1..] == [AwsS3File, HttpFile];
    assert Subclasses[1..][1..] == [HttpFile];
  }

  /** An address without `scheme://` is a local file named by the whole address. */
  lemma PlainAddressIsLocal(address: string)
    requires MatchAddress(address).None?
    ensures RetrieverFor(address) == Ok(FileRetriever(LocalFile, "file", address))
  {
    DispatchTable("file");
  }

  /** `scheme://path` goes to the class for the lower-cased scheme, with the path untouched, or fails. */
  lemma SchemedAddress(scheme: string, path: string)
    requires IsScheme(scheme) && '\n' !in path
    ensures var r := RetrieverFor(scheme + "://" + path);
      var lower := LowerAscii(scheme);
      && (lower == "file" ==> r == Ok(FileRetriever(LocalFile, lower, path)))
      && (lower == "s3" ==> r == Ok(FileRetriever(AwsS3File, lower, path)))
      && (lower == "http" || lower == "https" ==> r == Ok(FileRetriever(HttpFile, lower, path)))
      && (lower !in ["file", "s3", "http", "https"] ==> r.Err?)
  {
    MatchAddressComplete(scheme, path);
    DispatchTable(LowerAscii(scheme));
  }

  lemma {:induction false} LowerSchemeIsScheme(scheme: string)
    requires IsScheme(scheme)
    ensures IsScheme(LowerAscii(scheme)) && LowerAscii(LowerAscii(scheme)) == LowerAscii(scheme)
  {
    var lower := LowerAscii(scheme);
    assert forall i :: 0 <= i < |scheme| ==> LowerChar(LowerChar(scheme[i])) == LowerChar(scheme[i]);
    assert LowerAscii(lower) == lower;
  }

  /** Scheme case does not matter: `HTTPS://x` and `https://x` give the same retriever. */
  lemma SchemeCaseInsensitive(scheme: string, path: string)
    requires IsScheme(scheme) && '\n' !in path
    ensures RetrieverFor(scheme + "://" + path).Ok? <==> RetrieverFor(LowerAscii(scheme) + "://" + path).Ok?
    ensures RetrieverFor(scheme + "://" + path).Ok? ==>
      RetrieverFor(scheme + "://" + path) == RetrieverFor(LowerAscii(scheme) + "://" + path)
  {
    LowerSchemeIsScheme(scheme);
    SchemedAddress(scheme, path);
    SchemedAddress(LowerAscii(scheme), path);
  }

  /**
   * The bucket and key `AwsS3File.retrieveContent` reads the path as: the text before
   * the first slash, and everything after it joined back with slashes.
   */
  function S3Location(path: string): (location: (string, string))
    ensures '/' !in location.0
    ensures '/' in path ==> location.0 + "/" + location.1 == path
    ensures '/' !in path ==> location == (path, "")
  {
    var elements := Split(path, '/');
    JoinSplit(path, '/');
    assert |elements| >= 2 ==> Join(elements, "/") == elements[0] + "/" + Join(elements[1..], "/");
    (elements[0], Join(elements[1..], "/"))
  }

  /** The URL `HttpFile.retrieveContent` requests. */
  function HttpUrl(retriever: FileRetriever): string {
    retriever.scheme + "://" + retriever.path
  }

  /** The URL an HTTP retriever requests is its address with the scheme lower-cased. */
  lemma HttpUrlRebuildsAddress(scheme: string, path: string)
    requires IsScheme(scheme) && '\n' !in path
    requires LowerAscii(scheme) == "http" || LowerAscii(scheme) == "https"
    ensures var r := RetrieverFor(scheme + "://" + path);
      r.Ok? && r.value.kind == HttpFile && HttpUrl(r.value) == LowerAscii(scheme) + "://" + path
  {
    SchemedAddress(scheme, path);
  }
}
