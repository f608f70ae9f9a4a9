# PnP Core SDK: URL helpers and CSOM response lookup

This project models two small pieces of the PnP Core SDK for SharePoint and
proves properties of them.

**`UrlUtility`** holds the static helpers that build SharePoint URLs:
- `CombineInternal` joins a base and a relative path with exactly one `/`.
  It first turns backslashes into slashes, then strips the slashes at the join.
  A null or empty side leaves the other side unchanged.
- The three `Combine` overloads fold that join over their segments.
- `MakeAbsoluteUrl` joins a server-relative URL to the scheme and authority of a
  site (Web).
- `EnsureAbsoluteUrl` keeps an `https://` URL as it is, optionally after checking
  that it lies under the site's URL. It resolves any other URL with
  `MakeAbsoluteUrl`.
- `IsSameSite` compares the resolved URL with the site's URL, ignoring case.

**`CSOMResponseHelper`** reads a value out of a CSOM response. A CSOM response is
a flat JSON array. In it, an integer token (a property identifier) stands
directly before the value it names. `ProcessResponse` finds the first token equal
to the identifier and decodes the token after it. If the identifier is missing
it returns the default value. If the identifier is the last token, reading its
successor fails. `CompareIdElement` decides whether a token is that identifier.

Files:
- `maybe.dfy`: `Nullable` (a C# null) and `Result` (a value, or the exception
  thrown).
- `dotnet_strings.dfy`: the .NET string operations used, on `seq<char>`:
  `Replace`, `TrimEnd`, `TrimStart`, ordinal `StartsWith`, and `ToLower` (ASCII).
  It also has the lemmas about them.
- `url_utility.dfy`: the URL helpers. A `System.Uri` is a record of the scheme,
  the authority and the text that `ToString()` returns. A `Uri` that a helper
  constructs is the string it is constructed from.
- `url_utility_examples.dfy`: the unit-test scenarios as lemmas.
- `csom_response_helper.dfy`: JSON tokens, `TryGetInt64`, `CompareIdElement`,
  `FindIndex` and `ProcessResponse`. The list is modelled after it has been
  parsed, and the decoding of the successor token is a function parameter.
- `csom_response_examples.dfy`: concrete lookups.

## Model

| member | source | states |
|---|---|---|
| UrlUtility.CombineInternal | src/sdk/PnP.Core/Utilities/UrlUtility.cs:54-75 | Null counts as empty. Two empty sides give `""`. An empty relative path returns the base unchanged, backslashes included, and an empty base returns the relative path unchanged. Otherwise the result is the cleaned left part, one `/`, and the cleaned right part. |
| UrlUtility.JoinLeft | src/sdk/PnP.Core/Utilities/UrlUtility.cs:71-74 | The left part of a join never ends in `/`. |
| UrlUtility.JoinRight | src/sdk/PnP.Core/Utilities/UrlUtility.cs:72-74 | The right part of a join never starts with `/`. |
| UrlUtility.JoinPartsHaveNoBackslash | src/sdk/PnP.Core/Utilities/UrlUtility.cs:71-74 | Neither cleaned part contains a backslash. |
| UrlUtility.CombineInternalJoinsOnce | src/sdk/PnP.Core/Utilities/UrlUtility.cs:71-74 | Joining two non-empty strings leaves no backslash. Exactly one `/` stands where the parts meet: no slash before it and none after it. |
| UrlUtility.JoinLeftIgnoresTrailingDelimiters | src/sdk/PnP.Core/Utilities/UrlUtility.cs:74 | Any number of extra trailing slashes on the base leaves its cleaned left part the same. |
| UrlUtility.JoinRightIgnoresLeadingDelimiters | src/sdk/PnP.Core/Utilities/UrlUtility.cs:74 | Any number of extra leading slashes on the relative path leaves its cleaned right part the same. |
| UrlUtility.CombineInternalIgnoresExtraDelimiters | src/sdk/PnP.Core/Utilities/UrlUtility.cs:74 | For non-empty sides, adding slashes at the end of the base or at the start of the relative path does not change the join. |
| UrlUtility.CombineInternalOfClean | src/sdk/PnP.Core/Utilities/UrlUtility.cs:71-74 | Sides with no backslash and no slash at the join are concatenated around one `/`, and nothing else changes. |
| UrlUtility.JoinLeftOfClean | src/sdk/PnP.Core/Utilities/UrlUtility.cs:71-74 | A base with no backslash and no trailing slash is its own left part. |
| UrlUtility.JoinRightOfJoined | src/sdk/PnP.Core/Utilities/UrlUtility.cs:72-74 | Cleaning `a/b` for the right side strips only the slashes in front of `a`. The `/` inside stays. |
| UrlUtility.CombineFoldStep | src/sdk/PnP.Core/Utilities/UrlUtility.cs:36-39 | Folding one more segment joins it to the fold so far, as one pass of the loop does. |
| UrlUtility.CombineFoldAppend | src/sdk/PnP.Core/Utilities/UrlUtility.cs:36-39 | Folding over `s + t` is folding over `s` and then over `t`. |
| UrlUtility.NonEmptySegments | src/sdk/PnP.Core/Utilities/UrlUtility.cs:65-66 | A segment is kept exactly when it is in the input and is neither null nor empty, and the result is never longer than the input. |
| UrlUtility.CombineFoldSkipsEmptySegments | src/sdk/PnP.Core/Utilities/UrlUtility.cs:36-66 | Null and empty segments are skipped: folding over all segments equals folding over the non-empty ones. |
| UrlUtility.CombineFoldShort | src/sdk/PnP.Core/Utilities/UrlUtility.cs:36-39 | Folding over one or two segments is one or two nested joins. |
| UrlUtility.JoinLeftOfCombined | src/sdk/PnP.Core/Utilities/UrlUtility.cs:38-74 | A join whose last segment does not end in a slash is already a clean base for the next join. |
| UrlUtility.CombineTwoSegments | src/sdk/PnP.Core/Utilities/UrlUtility.cs:36-74 | Joining two clean segments in turn gives the base, `/`, the first segment, `/`, the second segment. |
| UrlUtility.SplitSegment | src/sdk/PnP.Core/Utilities/UrlUtility.cs:29-41 | Joining segments `a` and `b` in turn gives the same URL as joining `a/b` once, provided `a` does not end and `b` does not start with a slash. |
| UrlUtility.Combine | src/sdk/PnP.Core/Utilities/UrlUtility.cs:29-41 | A null array returns the base (null read as empty). Otherwise the loop computes the left fold of `CombineInternal` over the segments. |
| UrlUtility.CombineUri | src/sdk/PnP.Core/Utilities/UrlUtility.cs:18-21 | The same as `Combine`, starting from the base `Uri`'s text, or from empty for a null `Uri`. |
| UrlUtility.CombinePair | src/sdk/PnP.Core/Utilities/UrlUtility.cs:49-52 | The two-string overload is the array overload with a single segment. |
| UrlUtility.ServerUrlIsJoinReady | src/sdk/PnP.Core/Utilities/UrlUtility.cs:87-88 | A server URL with a plain scheme and authority is left as it is by the left side of the join. |
| UrlUtility.MakeAbsoluteUrl | src/sdk/PnP.Core/Utilities/UrlUtility.cs:83-89 | Null exactly when the site is null. For a well-formed server, an empty server-relative URL gives the server URL. Otherwise the result is the server URL, `/`, and the cleaned relative URL. The site's own path is never used. |
| UrlUtility.MakeAbsoluteUrlDiscardsWebPath | src/sdk/PnP.Core/Utilities/UrlUtility.cs:87-88 | Two sites with the same scheme and authority give the same absolute URL, whatever their paths. |
| UrlUtility.ServerRelativeAbsoluteUrl | src/sdk/PnP.Core/Utilities/UrlUtility.cs:83-112 | For a URL `/path/rest` with a clean first part, `MakeAbsoluteUrl` and `EnsureAbsoluteUrl` both return the server URL followed by that path, with or without the containment check. |
| UrlUtility.EnsureAbsoluteUrl | src/sdk/PnP.Core/Utilities/UrlUtility.cs:98-112 | A null resource is an argument error, and this is checked before a null site. An `https://` resource fails with the containment error exactly when the check is asked for and the resource does not start with the site text; otherwise it comes back unchanged. Any other resource resolves through `MakeAbsoluteUrl`. With the check, every accepted `https://` result starts with the site text. |
| UrlUtility.IsSameSite | src/sdk/PnP.Core/Utilities/UrlUtility.cs:120-127 | A null site, or a null or empty resource, is an argument error. Otherwise resolution always succeeds. The answer is true exactly when the lower-cased resolved URL starts with the lower-cased site text. |
| UrlUtility.ContainedResourceIsSameSite | src/sdk/PnP.Core/Utilities/UrlUtility.cs:103-127 | An `https://` resource that passes the containment check of `EnsureAbsoluteUrl` is in the same site. |
| UrlUtility.JoinRightUnderSitePath | src/sdk/PnP.Core/Utilities/UrlUtility.cs:72-74 | The right part of `/sitePath + rest` is `sitePath` followed by `rest` with its backslashes turned into slashes. |
| UrlUtility.ServerRelativeUnderWebIsSameSite | src/sdk/PnP.Core/Utilities/UrlUtility.cs:111-127 | Take a site whose text is its server URL plus `/sitePath`. A server-relative URL that starts with `/sitePath` is then in the same site. |
| DotNetStrings.TrimEnd | src/sdk/PnP.Core/Utilities/UrlUtility.cs:74 | `TrimEnd('/')` returns a prefix of its input that does not end in the trimmed character. |
| DotNetStrings.TrimStart | src/sdk/PnP.Core/Utilities/UrlUtility.cs:74 | `TrimStart('/')` returns a string no longer than its input that does not start with the trimmed character. |
| DotNetStrings.TrimEndRemovesRun | src/sdk/PnP.Core/Utilities/UrlUtility.cs:74 | The input is the trimmed string followed by a run of the trimmed character only. |
| DotNetStrings.TrimStartRemovesRun | src/sdk/PnP.Core/Utilities/UrlUtility.cs:74 | The input is a run of the trimmed character only followed by the trimmed string. |
| DotNetStrings.TrimEndIgnoresTrailing | src/sdk/PnP.Core/Utilities/UrlUtility.cs:74 | An extra run of the trimmed character at the end does not change `TrimEnd`, so every repeated slash is removed. |
| DotNetStrings.TrimStartIgnoresLeading | src/sdk/PnP.Core/Utilities/UrlUtility.cs:74 | An extra run of the trimmed character at the start does not change `TrimStart`. |
| DotNetStrings.TrimStartConcat | src/sdk/PnP.Core/Utilities/UrlUtility.cs:74 | `TrimStart` of `x + y` is `TrimStart(x) + y` when something of `x` is left. |
| DotNetStrings.TrimStartKeepsLast | src/sdk/PnP.Core/Utilities/UrlUtility.cs:74 | `TrimStart` keeps a last character that is not the trimmed one. |
| DotNetStrings.Replace | src/sdk/PnP.Core/Utilities/UrlUtility.cs:71-72 | `Replace('\\', '/')` keeps the length. |
| DotNetStrings.ReplaceAt | src/sdk/PnP.Core/Utilities/UrlUtility.cs:71-72 | `Replace` works character by character. |
| DotNetStrings.ReplaceConcat | src/sdk/PnP.Core/Utilities/UrlUtility.cs:71-72 | `Replace` commutes with concatenation. |
| DotNetStrings.ReplaceRemoves | src/sdk/PnP.Core/Utilities/UrlUtility.cs:71-72 | After replacing a character by a different one, none of it is left. |
| DotNetStrings.ReplaceAbsent | src/sdk/PnP.Core/Utilities/UrlUtility.cs:71-72 | A string without backslashes is unchanged by the rewrite. |
| DotNetStrings.ToLower | src/sdk/PnP.Core/Utilities/UrlUtility.cs:126 | Lower-casing keeps the length. |
| DotNetStrings.ToLowerAt | src/sdk/PnP.Core/Utilities/UrlUtility.cs:126 | Lower-casing works character by character. |
| DotNetStrings.ToLowerConcat | src/sdk/PnP.Core/Utilities/UrlUtility.cs:126 | Lower-casing commutes with concatenation. |
| DotNetStrings.ToLowerOfLower | src/sdk/PnP.Core/Utilities/UrlUtility.cs:126 | A string with no upper-case letter is its own lower-case form. |
| DotNetStrings.ToLowerKeepsPrefix | src/sdk/PnP.Core/Utilities/UrlUtility.cs:126 | If `p` is a prefix of `s`, then `ToLower(p)` is a prefix of `ToLower(s)`. |
| UrlUtilityExamples.CombineUriPathWithParts | src/sdk/PnP.Core.Test/Utilities/UrlUtilityTests.cs:12-18 | Folding `sites` and `foo` over the text of the tenant `Uri`, which ends in `/`, also gives the site URL: the trailing slash is trimmed at the first join. |
| UrlUtilityExamples.CombineWithRelativePath | src/sdk/PnP.Core.Test/Utilities/UrlUtilityTests.cs:29-34 | The tenant URL joined with `sites/foo` is `https://contoso.sharepoint.com/sites/foo`. |
| UrlUtilityExamples.CombineWithParts | src/sdk/PnP.Core.Test/Utilities/UrlUtilityTests.cs:20-26 | Joining `sites`, then `foo`, to the tenant URL gives the same site URL. |
| UrlUtilityExamples.CombineWithNullRelativePath | src/sdk/PnP.Core.Test/Utilities/UrlUtilityTests.cs:36-42 | A null relative path returns the tenant URL (the trailing `/` of the test comes from `System.Uri`). |
| UrlUtilityExamples.MakeAbsoluteUrlOfServerRelative | src/sdk/PnP.Core.Test/Utilities/UrlUtilityTests.cs:53-61 | `/sites/foo/library/doc.docx` under the site `foo` becomes the document's absolute URL. |
| UrlUtilityExamples.MakeAbsoluteUrlWithNullWebUrl | src/sdk/PnP.Core.Test/Utilities/UrlUtilityTests.cs:63-71 | A null site gives null. |
| UrlUtilityExamples.EnsureAbsoluteUrlWithRelativeResourceUrl | src/sdk/PnP.Core.Test/Utilities/UrlUtilityTests.cs:73-81 | A server-relative resource is resolved to its absolute URL. |
| UrlUtilityExamples.EnsureAbsoluteUrlWithValidAbsoluteResourceUrl | src/sdk/PnP.Core.Test/Utilities/UrlUtilityTests.cs:83-91 | An absolute `https://` resource comes back unchanged. |
| UrlUtilityExamples.BarIsNotUnderFoo | src/sdk/PnP.Core.Test/Utilities/UrlUtilityTests.cs:93-102 | The document of site `bar` is not prefixed by the URL of site `foo`, with or without lower-casing. |
| UrlUtilityExamples.EnsureAbsoluteUrlWithInvalidAbsoluteResourceUrl | src/sdk/PnP.Core.Test/Utilities/UrlUtilityTests.cs:93-102 | With the containment check, the document of site `bar` is refused for site `foo`. |
| UrlUtilityExamples.EnsureAbsoluteUrlWithNoCrossSiteCheckUrl | src/sdk/PnP.Core.Test/Utilities/UrlUtilityTests.cs:104-112 | Without the check, the same document comes back unchanged. |
| UrlUtilityExamples.EnsureAbsoluteUrlOfBarDocument | src/sdk/PnP.Core.Test/Utilities/UrlUtilityTests.cs:122-125 | `/sites/bar/library/doc.docx` under site `foo` resolves to the absolute URL of the `bar` document. |
| UrlUtilityExamples.IsSameSiteRelativeUrl | src/sdk/PnP.Core.Test/Utilities/UrlUtilityTests.cs:114-126 | The server-relative `foo` document is in site `foo`. The `bar` document is not. |
| UrlUtilityExamples.IsSameSiteAbsoluteUrl | src/sdk/PnP.Core.Test/Utilities/UrlUtilityTests.cs:128-140 | The same two answers for the absolute URLs. |
| UrlUtilityExamples.LongerSitePathCountsAsSameSite | src/sdk/PnP.Core/Utilities/UrlUtility.cs:126 | The site test is a plain prefix test, so a document of `sites/foobar` counts as one of site `sites/foo`. |
| CsomResponseHelper.TryGetInt64 | src/sdk/PnP.Core/Services/Core/CSOM/Utils/CSOMResponseHelper.cs:34 | Reading a number as a 64-bit integer succeeds exactly for an integer literal in the Int64 range, and gives its value. |
| CsomResponseHelper.CompareIdElement | src/sdk/PnP.Core/Services/Core/CSOM/Utils/CSOMResponseHelper.cs:31-39 | True exactly when the token is the integer literal `id`. Strings, booleans, null, arrays, objects, fractions, exponents and integers beyond 64 bits never match. |
| CsomResponseHelper.FindIndex | src/sdk/PnP.Core/Services/Core/CSOM/Utils/CSOMResponseHelper.cs:23 | The result is -1 exactly when no token matches. Otherwise it is the lowest matching index, and every earlier token fails to match. |
| CsomResponseHelper.ProcessResponse | src/sdk/PnP.Core/Services/Core/CSOM/Utils/CSOMResponseHelper.cs:20-30 | Absent (the default value) exactly when no token matches. With the first match at `i`: if `i + 1` is in range, the result is the decoding of token `i + 1`; if the match is the last token, reading the successor fails. |
| CsomResponseHelper.SkipNonMatchingPrefix | src/sdk/PnP.Core/Services/Core/CSOM/Utils/CSOMResponseHelper.cs:23-29 | Putting tokens that are not the identifier in front of the list changes no lookup. |
| CsomResponseHelper.IgnoresTokensAfterSuccessor | src/sdk/PnP.Core/Services/Core/CSOM/Utils/CSOMResponseHelper.cs:23-27 | Tokens after the successor of the first match are never looked at. |
| CsomResponseHelper.AppendedIdentifierIsOutOfRange | src/sdk/PnP.Core/Services/Core/CSOM/Utils/CSOMResponseHelper.cs:24-29 | A missing identifier gives the default value. The same identifier appended as the last token makes the lookup fail. |
| CsomResponseExamples.RepeatedIdentifierReturnsSecond | src/sdk/PnP.Core/Services/Core/CSOM/Utils/CSOMResponseHelper.cs:23-26 | In `[5, 5, "x"]` with id 5, the token at index 1 is returned. |
| CsomResponseExamples.FirstPairingWins | src/sdk/PnP.Core/Services/Core/CSOM/Utils/CSOMResponseHelper.cs:23-26 | With the identifier present twice, the value after the first occurrence is read. |
| CsomResponseExamples.MissingIdentifierIsAbsent | src/sdk/PnP.Core/Services/Core/CSOM/Utils/CSOMResponseHelper.cs:24-29 | A missing identifier gives the default value. |
| CsomResponseExamples.TrailingIdentifierIsOutOfRange | src/sdk/PnP.Core/Services/Core/CSOM/Utils/CSOMResponseHelper.cs:26 | An identifier in the last position makes the read fail. |
| CsomResponseExamples.ValueEqualToIdentifierIsMatched | src/sdk/PnP.Core/Services/Core/CSOM/Utils/CSOMResponseHelper.cs:23 | The search also matches a value that equals the identifier, and reads the token after that value. |
| CsomResponseExamples.NonIntegralNumbersNeverMatch | src/sdk/PnP.Core/Services/Core/CSOM/Utils/CSOMResponseHelper.cs:34 | `5.0`, 2^63 and the string `"5"` are never identifiers. |

## Left out

- `System.Uri` parsing and normalisation are not modelled, because they are library code:
  - the trailing `/` that `ToString()` adds to a bare authority;
  - lower-casing of the scheme and host;
  - the `UriFormatException` thrown when a string is relative or empty, which breaks a combine of a null base.
  A `Uri` is given by its scheme, authority and text, and a constructed `Uri` is the string it is built from.
- `MakeAbsoluteUrl`: its resolved URL is stated only for a well-formed server. That means a scheme and an authority as `System.Uri` reports them: no backslash, and an authority that is non-empty and contains no `/`. For any other record, only "non-null" is stated.
- A .NET string is a sequence of UTF-16 code units and may hold lone surrogates; a Dafny `char` is a Unicode scalar value, so such strings are not represented.
- `ToLower` is culture-sensitive in .NET. It is modelled as ASCII lower-casing.
- `StartsWith(string)` is culture-sensitive in .NET. It is modelled as an ordinal prefix test; culture-dependent differences (contractions such as Czech "ch", ignorable characters) are not modelled.
- JSON text parsing is not modelled. A response is given as its already-parsed list of tokens; a body that is not an array, or the `null` literal, is outside the model.
- A JSON number is modelled by whether its text is an integer literal, together with its value. Float parsing is not modelled.
- `JsonSerializer.Deserialize<T>` of the successor token is a function parameter `Token -> T`. Its own failures are not modelled.
- The `SPGuidConverter` and `DateTimeConverter` are registered in the constructor. Their code is not part of this model, and neither is the constructor's `Options` set-up.
- The default value `default(T)` is modelled as the distinct outcome `Absent`, not as a value of `T`.
- The commented-out `NOT USED NOW` region of `UrlUtility.cs` is dead code.
- `EnsureTrailingSlash` is not part of this model, because its implementation is not among the modelled files.
