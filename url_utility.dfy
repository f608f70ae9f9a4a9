/**
 * Static helpers that join SharePoint URL paths and resolve a resource URL
 * against the URL of a site (Web).
 *
 * A `System.Uri` is supplied by the caller as its scheme, its authority
 * (host and port) and the text `ToString()` gives; a `Uri` the helpers
 * construct is represented by the string it is constructed from.
 */
module UrlUtility {
  import opened Maybe
  import opened DotNetStrings

  const PathDelimiter: char := '/'
  const Backslash: char := '\\'
  const HttpsPrefix: string := "https://"

  /** The parts of a `System.Uri` the helpers read. */
  datatype Uri = Uri(scheme: string, authority: string, text: string)

  /** The exceptions the helpers throw. */
  datatype UrlError =
    | ArgumentNull(paramName: string)
    | ResourceNotInWeb(resourceUrl: string, webUrl: string)

  /** A possibly null string, with null read as the empty string. */
  function OrEmpty(s: Nullable<string>): string {
    match s
    case Null => ""
    case NonNull(v) => v
  }

  /** A string that has no run of slashes at its end. */
  predicate NoTrailingDelimiter(s: string) {
    s == [] || s[|s| - 1] != PathDelimiter
  }

  /** A string that has no run of slashes at its start. */
  predicate NoLeadingDelimiter(s: string) {
    s == [] || s[0] != PathDelimiter
  }

  /** The left part of a join: backslashes turned into slashes, trailing slashes removed. */
  function JoinLeft(path: string): (l: string)
    ensures NoTrailingDelimiter(l)
  {
    TrimEnd(Replace(path, Backslash, PathDelimiter), PathDelimiter)
  }

  /** The right part of a join: backslashes turned into slashes, leading slashes removed. */
  function JoinRight(relative: string): (r: string)
    ensures NoLeadingDelimiter(r)
  {
    TrimStart(Replace(relative, Backslash, PathDelimiter), PathDelimiter)
  }

  /**
   * Joins `path` and `relative` with one slash. Null is read as the empty
   * string, and an empty side leaves the other side untouched (backslashes
   * included).
   */
  function CombineInternal(path: Nullable<string>, relative: Nullable<string>): (r: string)
    ensures OrEmpty(path) == "" && OrEmpty(relative) == "" ==> r == ""
    ensures OrEmpty(relative) == "" ==> r == OrEmpty(path)
    ensures OrEmpty(path) == "" ==> r == OrEmpty(relative)
    ensures OrEmpty(path) != "" && OrEmpty(relative) != "" ==>
      r == JoinLeft(OrEmpty(path)) + [PathDelimiter] + JoinRight(OrEmpty(relative))
  {
    var relative := OrEmpty(relative);
    var path := OrEmpty(path);
    if |relative| == 0 && |path| == 0 then ""
    else if |relative| == 0 then path
    else if |path| == 0 then relative
    else JoinLeft(path) + [PathDelimiter] + JoinRight(relative)
  }

  /** Neither part of a join keeps a backslash. */
  lemma JoinPartsHaveNoBackslash(path: string, relative: string)
    ensures Backslash !in JoinLeft(path) && Backslash !in JoinRight(relative)
  {
    var p', q' := Replace(path, Backslash, PathDelimiter), Replace(relative, Backslash, PathDelimiter);
    ReplaceRemoves(path, Backslash, PathDelimiter);
    ReplaceRemoves(relative, Backslash, PathDelimiter);
    TrimEndRemovesRun(p', PathDelimiter);
    TrimStartRemovesRun(q', PathDelimiter);
  }

  /**
   * Joining two non-empty strings leaves no backslash and exactly one slash
   * where the parts meet.
   */
  lemma CombineInternalJoinsOnce(path: string, relative: string)
    requires path != "" && relative != ""
    ensures var r, l := CombineInternal(NonNull(path), NonNull(relative)), JoinLeft(path);
      && Backslash !in r
      && |l| < |r| && r[|l|] == PathDelimiter
      && (|l| == 0 || r[|l| - 1] != PathDelimiter)
      && (|l| + 1 == |r| || r[|l| + 1] != PathDelimiter)
  {
    JoinPartsHaveNoBackslash(path, relative);
  }

  /** Extra slashes at the end of a path do not change its left part. */
  lemma JoinLeftIgnoresTrailingDelimiters(path: string, m: nat)
    ensures JoinLeft(path + Repeat(PathDelimiter, m)) == JoinLeft(path)
  {
    var slashes := Repeat(PathDelimiter, m);
    calc {
      JoinLeft(path + slashes);
      TrimEnd(Replace(path + slashes, Backslash, PathDelimiter), PathDelimiter);
      { ReplaceConcat(path, slashes, Backslash, PathDelimiter);
        RepeatOnly(PathDelimiter, m, Backslash);
        ReplaceAbsent(slashes, Backslash, PathDelimiter); }
      TrimEnd(Replace(path, Backslash, PathDelimiter) + slashes, PathDelimiter);
      { TrimEndIgnoresTrailing(Replace(path, Backslash, PathDelimiter), PathDelimiter, m); }
      JoinLeft(path);
    }
  }

  /** Extra slashes at the start of a relative path do not change its right part. */
  lemma JoinRightIgnoresLeadingDelimiters(relative: string, n: nat)
    ensures JoinRight(Repeat(PathDelimiter, n) + relative) == JoinRight(relative)
  {
    var slashes := Repeat(PathDelimiter, n);
    calc {
      JoinRight(slashes + relative);
      TrimStart(Replace(slashes + relative, Backslash, PathDelimiter), PathDelimiter);
      { ReplaceConcat(slashes, relative, Backslash, PathDelimiter);
        RepeatOnly(PathDelimiter, n, Backslash);
        ReplaceAbsent(slashes, Backslash, PathDelimiter); }
      TrimStart(slashes + Replace(relative, Backslash, PathDelimiter), PathDelimiter);
      { TrimStartIgnoresLeading(Replace(relative, Backslash, PathDelimiter), PathDelimiter, n); }
      JoinRight(relative);
    }
  }

  /** Extra slashes at the end of `path` or at the start of `relative` change nothing. */
  lemma CombineInternalIgnoresExtraDelimiters(path: string, relative: string, m: nat, n: nat)
    requires path != "" && relative != ""
    ensures CombineInternal(NonNull(path + Repeat(PathDelimiter, m)), NonNull(Repeat(PathDelimiter, n) + relative))
         == CombineInternal(NonNull(path), NonNull(relative))
  {
    JoinLeftIgnoresTrailingDelimiters(path, m);
    JoinRightIgnoresLeadingDelimiters(relative, n);
  }

  /**
   * The left fold of `CombineInternal` over `segments`, starting at `path`;
   * it is defined on the last segment so that it follows the loop in `Combine`.
   */
  function CombineFold(path: string, segments: seq<Nullable<string>>): string
    decreases |segments|
  {
    if segments == [] then path
    else CombineInternal(NonNull(CombineFold(path, segments[..|segments| - 1])), segments[|segments| - 1])
  }

  /** Folding over one more segment joins it to the fold so far. */
  lemma CombineFoldStep(path: string, segments: seq<Nullable<string>>, i: nat)
    requires i < |segments|
    ensures CombineFold(path, segments[..i + 1]) == CombineInternal(NonNull(CombineFold(path, segments[..i])), segments[i])
  {
    assert segments[..i + 1][..i] == segments[..i];
  }

  /** Folding over two runs of segments is folding over the first and then the second. */
  lemma {:induction false} CombineFoldAppend(path: string, s: seq<Nullable<string>>, t: seq<Nullable<string>>)
    ensures CombineFold(path, s + t) == CombineFold(CombineFold(path, s), t)
    decreases |t|
  {
    if t == [] {
      assert s + t == s;
    } else {
      assert (s + t)[..|s + t| - 1] == s + t[..|t| - 1];
      CombineFoldAppend(path, s, t[..|t| - 1]);
    }
  }

  /** The segments that are neither null nor empty. */
  function NonEmptySegments(segments: seq<Nullable<string>>): (r: seq<Nullable<string>>)
    ensures forall x :: x in r <==> x in segments && OrEmpty(x) != ""
    ensures |r| <= |segments|
    decreases |segments|
  {
    if segments == [] then []
    else
      var init := NonEmptySegments(segments[..|segments| - 1]);
      if OrEmpty(segments[|segments| - 1]) == "" then init else init + [segments[|segments| - 1]]
  }

  /** Null and empty segments are skipped: only the others shape the result. */
  lemma {:induction false} CombineFoldSkipsEmptySegments(path: string, segments: seq<Nullable<string>>)
    ensures CombineFold(path, segments) == CombineFold(path, NonEmptySegments(segments))
    decreases |segments|
  {
    if segments != [] {
      var init, last := segments[..|segments| - 1], segments[|segments| - 1];
      CombineFoldSkipsEmptySegments(path, init);
      if OrEmpty(last) != "" {
        var kept := NonEmptySegments(init) + [last];
        assert kept[..|kept| - 1] == NonEmptySegments(init);
      }
    }
  }

  /** A join whose left part is already clean leaves it alone. */
  lemma JoinLeftOfClean(x: string)
    requires Backslash !in x && NoTrailingDelimiter(x)
    ensures JoinLeft(x) == x
  {
    ReplaceAbsent(x, Backslash, PathDelimiter);
  }

  /** Clean parts, without backslashes or delimiters at the join, are joined by one delimiter and nothing else changes. */
  lemma CombineInternalOfClean(path: string, relative: string)
    requires path != "" && Backslash !in path && NoTrailingDelimiter(path)
    requires relative != "" && Backslash !in relative && NoLeadingDelimiter(relative)
    ensures CombineInternal(NonNull(path), NonNull(relative)) == path + [PathDelimiter] + relative
  {
    JoinLeftOfClean(path);
    ReplaceAbsent(relative, Backslash, PathDelimiter);
  }

  /** The right part of `a + "/" + b`, when `a` ends in a character that is no delimiter. */
  lemma JoinRightOfJoined(a: string, b: string)
    requires a != [] && a[|a| - 1] != PathDelimiter && a[|a| - 1] != Backslash
    ensures JoinRight(a + [PathDelimiter] + b) == JoinRight(a) + [PathDelimiter] + Replace(b, Backslash, PathDelimiter)
  {
    var a', b' := Replace(a, Backslash, PathDelimiter), Replace(b, Backslash, PathDelimiter);
    assert TrimStart(a', PathDelimiter) != [] by {
      ReplaceAt(a, Backslash, PathDelimiter, |a| - 1);
      TrimStartKeepsLast(a', PathDelimiter);
    }
    var ta := TrimStart(a', PathDelimiter);
    calc {
      JoinRight(a + [PathDelimiter] + b);
      TrimStart(Replace(a + [PathDelimiter] + b, Backslash, PathDelimiter), PathDelimiter);
      { ReplaceAround(a, b, Backslash, PathDelimiter); }
      TrimStart(a' + [PathDelimiter] + b', PathDelimiter);
      { assert a' + [PathDelimiter] + b' == a' + ([PathDelimiter] + b'); }
      TrimStart(a' + ([PathDelimiter] + b'), PathDelimiter);
      { TrimStartConcat(a', [PathDelimiter] + b', PathDelimiter); }
      ta + ([PathDelimiter] + b');
      { assert ta + ([PathDelimiter] + b') == ta + [PathDelimiter] + b'; }
      ta + [PathDelimiter] + b';
    }
  }

  /** Folding over one or two segments. */
  lemma CombineFoldShort(path: string, a: Nullable<string>, b: Nullable<string>)
    ensures CombineFold(path, [a]) == CombineInternal(NonNull(path), a)
    ensures CombineFold(path, [a, b]) == CombineInternal(NonNull(CombineInternal(NonNull(path), a)), b)
  {
  }

  /** A join whose last segment ends in a character that is no delimiter can be joined to again unchanged. */
  lemma JoinLeftOfCombined(path: string, a: string)
    requires path != "" && a != ""
    requires a[|a| - 1] != PathDelimiter && a[|a| - 1] != Backslash
    ensures JoinLeft(CombineInternal(NonNull(path), NonNull(a))) == CombineInternal(NonNull(path), NonNull(a))
  {
    var ta := JoinRight(a);
    var x := JoinLeft(path) + [PathDelimiter] + ta;
    assert ta != [] && ta[|ta| - 1] != PathDelimiter by {
      ReplaceAt(a, Backslash, PathDelimiter, |a| - 1);
      TrimStartKeepsLast(Replace(a, Backslash, PathDelimiter), PathDelimiter);
    }
    assert x[|x| - 1] == ta[|ta| - 1];
    assert Backslash !in x by {
      CombineInternalJoinsOnce(path, a);
    }
    JoinLeftOfClean(x);
  }

  /** The URL that `SplitSegment` is about, from the two segments. */
  lemma CombineTwoSegments(path: string, a: string, b: string)
    requires path != "" && a != "" && b != ""
    requires a[|a| - 1] != PathDelimiter && a[|a| - 1] != Backslash
    requires b[0] != PathDelimiter && b[0] != Backslash
    ensures CombineFold(path, [NonNull(a), NonNull(b)])
         == JoinLeft(path) + [PathDelimiter] + JoinRight(a) + [PathDelimiter] + Replace(b, Backslash, PathDelimiter)
  {
    var ta, b' := JoinRight(a), Replace(b, Backslash, PathDelimiter);
    var x := JoinLeft(path) + [PathDelimiter] + ta;
    assert JoinRight(b) == b' by {
      ReplaceAt(b, Backslash, PathDelimiter, 0);
    }
    JoinLeftOfCombined(path, a);
    calc {
      CombineFold(path, [NonNull(a), NonNull(b)]);
      { CombineFoldShort(path, NonNull(a), NonNull(b)); }
      CombineInternal(NonNull(CombineInternal(NonNull(path), NonNull(a))), NonNull(b));
      CombineInternal(NonNull(x), NonNull(b));
      JoinLeft(x) + [PathDelimiter] + JoinRight(b);
      x + [PathDelimiter] + b';
    }
  }

  /** Two segments give the same URL as one segment that holds them joined by a slash. */
  lemma SplitSegment(path: string, a: string, b: string)
    requires path != "" && a != "" && b != ""
    requires a[|a| - 1] != PathDelimiter && a[|a| - 1] != Backslash
    requires b[0] != PathDelimiter && b[0] != Backslash
    ensures CombineFold(path, [NonNull(a), NonNull(b)]) == CombineFold(path, [NonNull(a + [PathDelimiter] + b)])
  {
    var joined := a + [PathDelimiter] + b;
    var l, ta, b' := JoinLeft(path), JoinRight(a), Replace(b, Backslash, PathDelimiter);
    calc {
      CombineFold(path, [NonNull(joined)]);
      { CombineFoldShort(path, NonNull(joined), Null); }
      CombineInternal(NonNull(path), NonNull(joined));
      l + [PathDelimiter] + JoinRight(joined);
      { JoinRightOfJoined(a, b); }
      l + [PathDelimiter] + (ta + [PathDelimiter] + b');
      l + [PathDelimiter] + ta + [PathDelimiter] + b';
      { CombineTwoSegments(path, a, b); }
      CombineFold(path, [NonNull(a), NonNull(b)]);
    }
  }

  /**
   * The `Combine` overload on a string base and an array of segments:
   * starting from the base (null read as empty), joins each segment in turn. A null array yields the path.
   */
  method Combine(path: Nullable<string>, relativePaths: Nullable<seq<Nullable<string>>>) returns (r: string)
    ensures relativePaths.Null? ==> r == OrEmpty(path)
    ensures relativePaths.NonNull? ==> r == CombineFold(OrEmpty(path), relativePaths.value)
  {
    var pathBuilder := OrEmpty(path);
    if relativePaths.Null? {
      return pathBuilder;
    }
    var segments := relativePaths.value;
    var i := 0;
    while i < |segments|
      invariant 0 <= i <= |segments|
      invariant pathBuilder == CombineFold(OrEmpty(path), segments[..i])
    {
      CombineFoldStep(OrEmpty(path), segments, i);
      pathBuilder := CombineInternal(NonNull(pathBuilder), segments[i]);
      i := i + 1;
    }
    assert segments[..i] == segments;
    return pathBuilder;
  }

  /** The text of a possibly null `Uri`; null stays null. */
  function UriText(path: Nullable<Uri>): Nullable<string> {
    match path
    case Null => Null
    case NonNull(u) => NonNull(u.text)
  }

  /** The `Combine` overload on a `Uri` base: the same fold, from the text of the base. */
  method CombineUri(path: Nullable<Uri>, relativePaths: Nullable<seq<Nullable<string>>>) returns (r: string)
    ensures relativePaths.Null? ==> r == OrEmpty(UriText(path))
    ensures relativePaths.NonNull? ==> r == CombineFold(OrEmpty(UriText(path)), relativePaths.value)
  {
    r := Combine(UriText(path), relativePaths);
  }

  /** The `Combine` overload on two strings: the same as the array form with one segment. */
  function CombinePair(path: Nullable<string>, relative: Nullable<string>): (r: string)
    ensures r == CombineFold(OrEmpty(path), [relative])
  {
    CombineInternal(path, relative)
  }

  /** The server URL of a site: its scheme and authority joined by `://`. */
  function ServerUrl(webUrl: Uri): string {
    webUrl.scheme + "://" + webUrl.authority
  }

  /** A scheme and authority as `System.Uri` reports them: no backslash, a non-empty authority without a slash. */
  predicate WellFormedServer(webUrl: Uri) {
    && Backslash !in webUrl.scheme
    && webUrl.authority != ""
    && Backslash !in webUrl.authority
    && PathDelimiter !in webUrl.authority
  }

  /** A well-formed server URL is left alone as the left part of a join. */
  lemma ServerUrlIsJoinReady(webUrl: Uri)
    ensures WellFormedServer(webUrl) ==> JoinLeft(ServerUrl(webUrl)) == ServerUrl(webUrl)
  {
    if WellFormedServer(webUrl) {
      var serverUrl, a := ServerUrl(webUrl), webUrl.authority;
      assert serverUrl[|serverUrl| - 1] == a[|a| - 1] && a[|a| - 1] in a;
      JoinLeftOfClean(serverUrl);
    }
  }

  /**
   * The absolute URL of a server-relative URL: the server-relative URL
   * joined to the scheme and authority of the site; the site's own path is
   * not used. A null site gives null.
   */
  function MakeAbsoluteUrl(webUrl: Nullable<Uri>, serverRelativeUrl: Nullable<string>): (r: Nullable<string>)
    ensures r.Null? <==> webUrl.Null?
    ensures webUrl.NonNull? && WellFormedServer(webUrl.value) && OrEmpty(serverRelativeUrl) == "" ==>
      r.value == ServerUrl(webUrl.value)
    ensures webUrl.NonNull? && WellFormedServer(webUrl.value) && OrEmpty(serverRelativeUrl) != "" ==>
      r.value == ServerUrl(webUrl.value) + [PathDelimiter] + JoinRight(OrEmpty(serverRelativeUrl))
  {
    if webUrl.Null? then Null
    else
      var serverUrl := ServerUrl(webUrl.value);
      ServerUrlIsJoinReady(webUrl.value);
      NonNull(CombineInternal(NonNull(serverUrl), serverRelativeUrl))
  }

  /** Only the scheme and authority of the site matter to `MakeAbsoluteUrl`. */
  lemma MakeAbsoluteUrlDiscardsWebPath(web1: Uri, web2: Uri, serverRelativeUrl: Nullable<string>)
    requires web1.scheme == web2.scheme && web1.authority == web2.authority
    ensures MakeAbsoluteUrl(NonNull(web1), serverRelativeUrl) == MakeAbsoluteUrl(NonNull(web2), serverRelativeUrl)
  {
  }

  /**
   * The absolute URL of a resource. A resource URL that starts with
   * `https://` is kept as it is (after an optional check that it starts with
   * the site's URL); any other is resolved with `MakeAbsoluteUrl`.
   */
  function EnsureAbsoluteUrl(webUrl: Nullable<Uri>, resourceUrl: Nullable<string>, checkIfWebContainedResource: bool): (r: Result<string, UrlError>)
    ensures resourceUrl.Null? ==> r == Failure(ArgumentNull("resourceUrl"))
    ensures resourceUrl.NonNull? && webUrl.Null? ==> r == Failure(ArgumentNull("webUrl"))
    ensures (r.Failure? && r.error.ResourceNotInWeb?) <==>
      && resourceUrl.NonNull? && webUrl.NonNull?
      && StartsWith(resourceUrl.value, HttpsPrefix)
      && checkIfWebContainedResource
      && !StartsWith(resourceUrl.value, webUrl.value.text)
    ensures resourceUrl.NonNull? && webUrl.NonNull? && StartsWith(resourceUrl.value, HttpsPrefix) && r.Success? ==>
      r.value == resourceUrl.value
    ensures resourceUrl.NonNull? && webUrl.NonNull? && !StartsWith(resourceUrl.value, HttpsPrefix) ==>
      r == Success(MakeAbsoluteUrl(webUrl, resourceUrl).value)
    ensures && resourceUrl.NonNull? && webUrl.NonNull? && StartsWith(resourceUrl.value, HttpsPrefix)
            && (!checkIfWebContainedResource || StartsWith(resourceUrl.value, webUrl.value.text))
            ==> r == Success(resourceUrl.value)
    ensures r.Success? && checkIfWebContainedResource && StartsWith(resourceUrl.value, HttpsPrefix) ==>
      StartsWith(r.value, webUrl.value.text)
  {
    if resourceUrl.Null? then Failure(ArgumentNull("resourceUrl"))
    else if webUrl.Null? then Failure(ArgumentNull("webUrl"))
    else if StartsWith(resourceUrl.value, HttpsPrefix) then
      if checkIfWebContainedResource && !StartsWith(resourceUrl.value, webUrl.value.text) then
        Failure(ResourceNotInWeb(resourceUrl.value, webUrl.value.text))
      else
        Success(resourceUrl.value)
    else
      Success(MakeAbsoluteUrl(webUrl, resourceUrl).value)
  }

  /**
   * Whether a resource lies in the site: its absolute URL starts with the
   * site's URL, ignoring case. A null site, or a null or empty resource URL,
   * is an error.
   */
  function IsSameSite(webUrl: Nullable<Uri>, resourceUrl: Nullable<string>): (r: Result<bool, UrlError>)
    ensures webUrl.Null? ==> r == Failure(ArgumentNull("webUrl"))
    ensures webUrl.NonNull? && OrEmpty(resourceUrl) == "" ==> r == Failure(ArgumentNull("resourceUrl"))
    ensures webUrl.NonNull? && OrEmpty(resourceUrl) != "" ==>
      && EnsureAbsoluteUrl(webUrl, resourceUrl, false).Success?
      && r.Success?
      && (r.value <==> StartsWith(ToLower(EnsureAbsoluteUrl(webUrl, resourceUrl, false).value), ToLower(webUrl.value.text)))
  {
    if webUrl.Null? then Failure(ArgumentNull("webUrl"))
    else if OrEmpty(resourceUrl) == "" then Failure(ArgumentNull("resourceUrl"))
    else
      var resourceAbsoluteUrl := EnsureAbsoluteUrl(webUrl, resourceUrl, false).value;
      Success(StartsWith(ToLower(resourceAbsoluteUrl), ToLower(webUrl.value.text)))
  }

  /** A resource that passes the containment check of `EnsureAbsoluteUrl` is in the same site. */
  lemma ContainedResourceIsSameSite(webUrl: Uri, resourceUrl: string)
    requires StartsWith(resourceUrl, HttpsPrefix)
    requires EnsureAbsoluteUrl(NonNull(webUrl), NonNull(resourceUrl), true).Success?
    ensures IsSameSite(NonNull(webUrl), NonNull(resourceUrl)) == Success(true)
  {
    ToLowerKeepsPrefix(webUrl.text, resourceUrl);
  }

  /** The right part of a join of `"/" + sitePath + rest`, for a clean site path. */
  lemma JoinRightUnderSitePath(sitePath: string, rest: string)
    requires sitePath != [] && sitePath[0] != PathDelimiter && Backslash !in sitePath
    ensures JoinRight([PathDelimiter] + sitePath + rest) == sitePath + Replace(rest, Backslash, PathDelimiter)
  {
    var tail := sitePath + Replace(rest, Backslash, PathDelimiter);
    calc {
      JoinRight([PathDelimiter] + sitePath + rest);
      { assert [PathDelimiter] + sitePath + rest == Repeat(PathDelimiter, 1) + (sitePath + rest); }
      JoinRight(Repeat(PathDelimiter, 1) + (sitePath + rest));
      { JoinRightIgnoresLeadingDelimiters(sitePath + rest, 1); }
      JoinRight(sitePath + rest);
      TrimStart(Replace(sitePath + rest, Backslash, PathDelimiter), PathDelimiter);
      { ReplaceConcat(sitePath, rest, Backslash, PathDelimiter);
        ReplaceAbsent(sitePath, Backslash, PathDelimiter); }
      TrimStart(tail, PathDelimiter);
      tail;
    }
  }

  /**
   * A server-relative URL written as a slash, a clean first part and a rest
   * resolves to the server URL followed by that path, whether or not the
   * containment check is asked for.
   */
  lemma ServerRelativeAbsoluteUrl(webUrl: Uri, sitePath: string, rest: string, check: bool)
    requires WellFormedServer(webUrl)
    requires sitePath != [] && sitePath[0] != PathDelimiter && Backslash !in sitePath
    ensures var absolute := ServerUrl(webUrl) + [PathDelimiter] + sitePath + Replace(rest, Backslash, PathDelimiter);
      && MakeAbsoluteUrl(NonNull(webUrl), NonNull([PathDelimiter] + sitePath + rest)) == NonNull(absolute)
      && EnsureAbsoluteUrl(NonNull(webUrl), NonNull([PathDelimiter] + sitePath + rest), check) == Success(absolute)
  {
    var resource := [PathDelimiter] + sitePath + rest;
    var tail := Replace(rest, Backslash, PathDelimiter);
    assert !StartsWith(resource, HttpsPrefix) by {
      assert resource[0] != HttpsPrefix[0];
    }
    calc {
      MakeAbsoluteUrl(NonNull(webUrl), NonNull(resource)).value;
      ServerUrl(webUrl) + [PathDelimiter] + JoinRight(resource);
      { JoinRightUnderSitePath(sitePath, rest); }
      ServerUrl(webUrl) + [PathDelimiter] + (sitePath + tail);
      { assert ServerUrl(webUrl) + [PathDelimiter] + (sitePath + tail) == ServerUrl(webUrl) + [PathDelimiter] + sitePath + tail; }
      ServerUrl(webUrl) + [PathDelimiter] + sitePath + tail;
    }
  }

  /**
   * A server-relative resource URL that starts with the site's path, written
   * with a leading slash, is in the same site.
   */
  lemma ServerRelativeUnderWebIsSameSite(webUrl: Uri, sitePath: string, rest: string)
    requires WellFormedServer(webUrl)
    requires webUrl.text == ServerUrl(webUrl) + [PathDelimiter] + sitePath
    requires sitePath != [] && sitePath[0] != PathDelimiter && Backslash !in sitePath
    ensures IsSameSite(NonNull(webUrl), NonNull([PathDelimiter] + sitePath + rest)) == Success(true)
  {
    var absolute := webUrl.text + Replace(rest, Backslash, PathDelimiter);
    ServerRelativeAbsoluteUrl(webUrl, sitePath, rest, false);
    ToLowerKeepsPrefix(webUrl.text, absolute);
  }
}
