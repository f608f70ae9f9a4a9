/** The unit-test scenarios of the URL helpers, as lemmas about the model. */
module UrlUtilityExamples {
  import opened Maybe
  import opened DotNetStrings
  import opened UrlUtility

  const Host: string := "contoso.sharepoint.com"
  const Scheme: string := "https"
  const Tenant: string := Scheme + "://" + Host
  const SitesSegment: string := "sites"
  const FooSegment: string := "foo"
  const FooPath: string := SitesSegment + [PathDelimiter] + FooSegment
  const FooSite: string := Tenant + [PathDelimiter] + FooPath
  const FooWeb: Uri := Uri(Scheme, Host, FooSite)
  const DocumentPath: string := "/library/doc.docx"
  const FooDocument: string := [PathDelimiter] + FooPath + DocumentPath
  const BarPath: string := "sites/bar"
  const BarDocument: string := [PathDelimiter] + BarPath + DocumentPath
  const AbsoluteFooDocument: string := FooSite + DocumentPath
  const AbsoluteBarDocument: string := Tenant + [PathDelimiter] + BarPath + DocumentPath

  /** The tenant URL is clean as the left part of a join. */
  lemma TenantIsJoinReady()
    ensures Tenant != "" && Backslash !in Tenant && NoTrailingDelimiter(Tenant)
  {
  }

  /** Joining "sites/foo" to the tenant URL gives the site URL. */
  lemma CombineWithRelativePath()
    ensures CombinePair(NonNull(Tenant), NonNull(FooPath)) == FooSite
  {
    TenantIsJoinReady();
    SitePathsAreClean();
    CombineInternalOfClean(Tenant, FooPath);
  }

  /** Joining "sites" and then "foo" gives the same site URL. */
  lemma CombineWithParts()
    ensures CombineFold(Tenant, [NonNull(SitesSegment), NonNull(FooSegment)]) == FooSite
  {
    TenantIsJoinReady();
    SplitSegment(Tenant, SitesSegment, FooSegment);
    CombineWithRelativePath();
  }

  /** The tenant as a `Uri`: `System.Uri` writes a bare authority with a trailing slash. */
  const TenantUri: Uri := Uri(Scheme, Host, Tenant + [PathDelimiter])

  /** Joining "sites" and then "foo" to the tenant `Uri` gives the site URL too. */
  lemma CombineUriPathWithParts()
    ensures CombineFold(OrEmpty(UriText(NonNull(TenantUri))), [NonNull(SitesSegment), NonNull(FooSegment)]) == FooSite
  {
    var segments := [NonNull(SitesSegment), NonNull(FooSegment)];
    TenantIsJoinReady();
    CombineFoldShort(Tenant + [PathDelimiter], NonNull(SitesSegment), NonNull(FooSegment));
    CombineFoldShort(Tenant, NonNull(SitesSegment), NonNull(FooSegment));
    assert Tenant + [PathDelimiter] == Tenant + Repeat(PathDelimiter, 1);
    JoinLeftIgnoresTrailingDelimiters(Tenant, 1);
    CombineWithParts();
  }

  /** A null relative path leaves the base untouched (the trailing slash comes from `System.Uri`). */
  lemma CombineWithNullRelativePath()
    ensures CombinePair(NonNull(Tenant), Null) == Tenant
  {
  }

  /** The host name has neither kind of slash. */
  lemma HostIsPlain()
    ensures Backslash !in Host && PathDelimiter !in Host
  {
  }

  /** The site "foo" has a plain scheme and host, and its server URL is the tenant URL. */
  lemma FooWebIsWellFormed()
    ensures WellFormedServer(FooWeb) && ServerUrl(FooWeb) == Tenant
  {
    HostIsPlain();
  }

  /** The site paths are clean: not empty, no leading slash, no backslash. */
  lemma SitePathsAreClean()
    ensures FooPath != [] && FooPath[0] != PathDelimiter && Backslash !in FooPath
    ensures BarPath != [] && BarPath[0] != PathDelimiter && Backslash !in BarPath
  {
  }

  /** The document path has no backslash, so the join keeps it as it is. */
  lemma DocumentPathIsClean()
    ensures Replace(DocumentPath, Backslash, PathDelimiter) == DocumentPath
  {
    ReplaceAbsent(DocumentPath, Backslash, PathDelimiter);
  }

  /** A server-relative URL is joined to the tenant, not to the whole site URL. */
  lemma MakeAbsoluteUrlOfServerRelative()
    ensures MakeAbsoluteUrl(NonNull(FooWeb), NonNull(FooDocument)) == NonNull(AbsoluteFooDocument)
  {
    FooWebIsWellFormed();
    SitePathsAreClean();
    ServerRelativeAbsoluteUrl(FooWeb, FooPath, DocumentPath, false);
    DocumentPathIsClean();
  }

  lemma MakeAbsoluteUrlWithNullWebUrl()
    ensures MakeAbsoluteUrl(Null, NonNull(FooDocument)) == Null
  {
  }

  lemma EnsureAbsoluteUrlWithRelativeResourceUrl()
    ensures EnsureAbsoluteUrl(NonNull(FooWeb), NonNull(FooDocument), false) == Success(AbsoluteFooDocument)
  {
    assert !StartsWith(FooDocument, HttpsPrefix) by {
      assert FooDocument[0] != HttpsPrefix[0];
    }
    MakeAbsoluteUrlOfServerRelative();
  }

  lemma EnsureAbsoluteUrlWithValidAbsoluteResourceUrl()
    ensures EnsureAbsoluteUrl(NonNull(FooWeb), NonNull(AbsoluteFooDocument), false) == Success(AbsoluteFooDocument)
  {
    assert StartsWith(AbsoluteFooDocument, HttpsPrefix);
  }

  /** The absolute URL of a document of site "bar" is not prefixed by the URL of site "foo". */
  lemma BarIsNotUnderFoo()
    ensures !StartsWith(AbsoluteBarDocument, FooSite)
    ensures !StartsWith(ToLower(AbsoluteBarDocument), ToLower(FooSite))
  {
    assert AbsoluteBarDocument[37] != FooSite[37];
    ToLowerAt(AbsoluteBarDocument, 37);
    ToLowerAt(FooSite, 37);
  }

  lemma EnsureAbsoluteUrlWithInvalidAbsoluteResourceUrl()
    ensures EnsureAbsoluteUrl(NonNull(FooWeb), NonNull(AbsoluteBarDocument), true)
         == Failure(ResourceNotInWeb(AbsoluteBarDocument, FooSite))
  {
    assert StartsWith(AbsoluteBarDocument, HttpsPrefix);
    BarIsNotUnderFoo();
  }

  lemma EnsureAbsoluteUrlWithNoCrossSiteCheckUrl()
    ensures EnsureAbsoluteUrl(NonNull(FooWeb), NonNull(AbsoluteBarDocument), false) == Success(AbsoluteBarDocument)
  {
    assert StartsWith(AbsoluteBarDocument, HttpsPrefix);
  }

  /** The absolute URL of the document of site "bar", from its server-relative URL. */
  lemma EnsureAbsoluteUrlOfBarDocument()
    ensures EnsureAbsoluteUrl(NonNull(FooWeb), NonNull(BarDocument), false) == Success(AbsoluteBarDocument)
  {
    FooWebIsWellFormed();
    SitePathsAreClean();
    ServerRelativeAbsoluteUrl(FooWeb, BarPath, DocumentPath, false);
    DocumentPathIsClean();
  }

  lemma IsSameSiteRelativeUrl()
    ensures IsSameSite(NonNull(FooWeb), NonNull(FooDocument)) == Success(true)
    ensures IsSameSite(NonNull(FooWeb), NonNull(BarDocument)) == Success(false)
  {
    FooWebIsWellFormed();
    SitePathsAreClean();
    ServerRelativeUnderWebIsSameSite(FooWeb, FooPath, DocumentPath);
    EnsureAbsoluteUrlOfBarDocument();
    BarIsNotUnderFoo();
  }

  lemma IsSameSiteAbsoluteUrl()
    ensures IsSameSite(NonNull(FooWeb), NonNull(AbsoluteFooDocument)) == Success(true)
    ensures IsSameSite(NonNull(FooWeb), NonNull(AbsoluteBarDocument)) == Success(false)
  {
    assert StartsWith(AbsoluteFooDocument, HttpsPrefix) && StartsWith(AbsoluteFooDocument, FooSite);
    ContainedResourceIsSameSite(FooWeb, AbsoluteFooDocument);
    assert StartsWith(AbsoluteBarDocument, HttpsPrefix);
    BarIsNotUnderFoo();
  }

  /**
   * The site test is a plain prefix test, so a document of a site whose path
   * merely extends "sites/foo" (here "sites/foobar") counts as one of "foo".
   */
  lemma LongerSitePathCountsAsSameSite()
    ensures IsSameSite(NonNull(FooWeb), NonNull([PathDelimiter] + FooPath + ("bar" + DocumentPath))) == Success(true)
  {
    FooWebIsWellFormed();
    SitePathsAreClean();
    ServerRelativeUnderWebIsSameSite(FooWeb, FooPath, "bar" + DocumentPath);
  }
}
