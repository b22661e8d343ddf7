/**
 * The per-version entries of the two documentation UIs set up in
 * `Middleware.ConfigurePipeline`: the Swagger UI gets one endpoint and the
 * Scalar reference one document per API version, each pointing at the JSON
 * document that the Swagger route template serves, labelled by the group
 * name in upper case and marked when the version is deprecated. Both loops
 * visit the descriptions in descending order of group name (a string
 * order, so "v2" comes before "v10").
 */
module DocsUi {
  import opened Versioning
  import opened Ordering

  /** The route template the Swagger JSON documents are served under. */
  const JsonRouteTemplate: string := "openApi/{documentName}.json"
  const DocumentNamePlaceholder: string := "{documentName}"
  const UrlPrefix: string := "/openApi/"
  const UrlSuffix: string := ".json"
  const DeprecatedSuffix: string := " (DEPRECATED)"
  /** The document name every Scalar document is added under. */
  const ScalarDocumentName: string := "Keyed Services Demo"

  /** `SwaggerEndpoint(url, name)`: one entry of the Swagger UI's document list. */
  datatype UrlDescriptor = UrlDescriptor(url: string, name: string)

  /** `AddDocument(documentName, title, routePattern)`: one document of the Scalar reference. */
  datatype ScalarDocument = ScalarDocument(documentName: string, title: string, routePattern: string)

  predicate IsAsciiLower(c: char) {
    'a' <= c <= 'z'
  }

  /** Upper-casing of one character, on the ASCII range. */
  function UpperChar(c: char): char {
    if IsAsciiLower(c) then (c as int - 32) as char else c
  }

  /** `ToUpperInvariant`, restricted to ASCII letters. */
  function ToUpperInvariant(s: string): (r: string)
    ensures |r| == |s|
    ensures forall i :: 0 <= i < |s| ==> r[i] == UpperChar(s[i])
  {
    if s == [] then [] else [UpperChar(s[0])] + ToUpperInvariant(s[1..])
  }

  /** The URL of a version's JSON document. */
  function EndpointUrl(groupName: string): string {
    UrlPrefix + groupName + UrlSuffix
  }

  /** The label of a version: its group name upper-cased, marked when deprecated. */
  function DisplayName(description: ApiVersionDescription): string {
    if description.isDeprecated
    then ToUpperInvariant(description.groupName) + DeprecatedSuffix
    else ToUpperInvariant(description.groupName)
  }

  /** The Swagger UI entries for `descriptions`, in the given order. */
  function Endpoints(descriptions: seq<ApiVersionDescription>): (r: seq<UrlDescriptor>)
    ensures |r| == |descriptions|
    ensures forall i :: 0 <= i < |descriptions| ==>
      r[i] == UrlDescriptor(EndpointUrl(descriptions[i].groupName), DisplayName(descriptions[i]))
  {
    if descriptions == [] then []
    else [UrlDescriptor(EndpointUrl(descriptions[0].groupName), DisplayName(descriptions[0]))]
         + Endpoints(descriptions[1..])
  }

  /** The Scalar documents for `descriptions`, in the given order. */
  function ScalarDocs(descriptions: seq<ApiVersionDescription>): (r: seq<ScalarDocument>)
    ensures |r| == |descriptions|
    ensures forall i :: 0 <= i < |descriptions| ==>
      r[i] == ScalarDocument(ScalarDocumentName, DisplayName(descriptions[i]), EndpointUrl(descriptions[i].groupName))
  {
    if descriptions == [] then []
    else [ScalarDocument(ScalarDocumentName, DisplayName(descriptions[0]), EndpointUrl(descriptions[0].groupName))]
         + ScalarDocs(descriptions[1..])
  }

  /** What the Swagger UI lists: one entry per description, greatest group name first. */
  function SwaggerEndpoints(descriptions: seq<ApiVersionDescription>): seq<UrlDescriptor> {
    Endpoints(OrderByDescending(descriptions, ByGroupName))
  }

  /** What the Scalar reference lists: one document per description, greatest group name first. */
  function ScalarDocuments(descriptions: seq<ApiVersionDescription>): seq<ScalarDocument> {
    ScalarDocs(OrderByDescending(descriptions, ByGroupName))
  }

  // ---------------------------------------------------------------------
  // Upper-casing

  /** The result has no lower-case ASCII letter. */
  lemma UpperHasNoLower(s: string)
    ensures forall i :: 0 <= i < |s| ==> !IsAsciiLower(ToUpperInvariant(s)[i])
  {
  }

  /** Upper-casing twice is upper-casing once. */
  lemma UpperIdempotent(s: string)
    ensures ToUpperInvariant(ToUpperInvariant(s)) == ToUpperInvariant(s)
  {
  }

  /** Only lower-case letters change, each into its upper-case letter. */
  lemma UpperChangesOnlyLowercase(s: string)
    ensures forall i :: 0 <= i < |s| ==>
      (ToUpperInvariant(s)[i] == s[i] <==> !IsAsciiLower(s[i]))
    ensures forall i :: 0 <= i < |s| && IsAsciiLower(s[i]) ==>
      ToUpperInvariant(s)[i] as int == s[i] as int - 32
  {
  }

  // ---------------------------------------------------------------------
  // URLs

  /** Replaces the first occurrence of `pattern` in `s` by `value`. */
  function ReplaceFirst(s: string, pattern: string, value: string): string
    decreases |s|
  {
    if pattern <= s then value + s[|pattern|..]
    else if s == [] then []
    else [s[0]] + ReplaceFirst(s[1..], pattern, value)
  }

  lemma {:induction false} ReplaceAfterPlainPrefix(p: string, pattern: string, q: string, value: string)
    requires pattern != [] && pattern[0] !in p
    ensures ReplaceFirst(p + pattern + q, pattern, value) == p + value + q
  {
    var s := p + pattern + q;
    if p == [] {
      assert s == pattern + q;
      assert pattern <= s;
      assert s[|pattern|..] == q;
    } else {
      assert s[0] == p[0] && s[0] != pattern[0];
      assert !(pattern <= s);
      assert s[1..] == p[1..] + pattern + q;
      ReplaceAfterPlainPrefix(p[1..], pattern, q, value);
    }
  }

  lemma TemplateParts()
    ensures JsonRouteTemplate == "openApi/" + DocumentNamePlaceholder + UrlSuffix
    ensures DocumentNamePlaceholder != [] && DocumentNamePlaceholder[0] !in "openApi/"
  {
  }

  lemma UrlParts(groupName: string)
    ensures EndpointUrl(groupName) == "/" + ("openApi/" + groupName + UrlSuffix)
  {
    assert UrlPrefix == "/" + "openApi/";
  }

  /**
   * A version's URL is the JSON route template with the group name in place
   * of the document name, as a root-relative path.
   */
  lemma UrlMatchesRouteTemplate(groupName: string)
    ensures EndpointUrl(groupName) == "/" + ReplaceFirst(JsonRouteTemplate, DocumentNamePlaceholder, groupName)
  {
    TemplateParts();
    ReplaceAfterPlainPrefix("openApi/", DocumentNamePlaceholder, UrlSuffix, groupName);
    UrlParts(groupName);
  }

  /** The group name is recovered from the URL, so distinct versions get distinct URLs. */
  lemma UrlDeterminesGroupName(groupName: string)
    ensures var url := EndpointUrl(groupName);
      url[|UrlPrefix|..|url| - |UrlSuffix|] == groupName
  {
  }

  lemma UrlInjective(a: string, b: string)
    requires EndpointUrl(a) == EndpointUrl(b)
    ensures a == b
  {
    UrlDeterminesGroupName(a);
    UrlDeterminesGroupName(b);
  }

  // ---------------------------------------------------------------------
  // Display names

  /**
   * The display name is the upper-cased group name, followed by the
   * deprecation marker exactly when the version is deprecated.
   */
  lemma DisplayNameShape(description: ApiVersionDescription)
    ensures var name := DisplayName(description);
      |name| >= |description.groupName|
      && name[..|description.groupName|] == ToUpperInvariant(description.groupName)
      && (description.isDeprecated <==> |name| > |description.groupName|)
      && (description.isDeprecated ==> name[|description.groupName|..] == DeprecatedSuffix)
  {
  }

  // ---------------------------------------------------------------------
  // The two lists

  /** One Swagger entry and one Scalar document per description. */
  lemma OneEntryPerDescription(descriptions: seq<ApiVersionDescription>)
    ensures |SwaggerEndpoints(descriptions)| == |descriptions|
    ensures |ScalarDocuments(descriptions)| == |descriptions|
  {
  }

  /**
   * Both UIs list the same (url, name) pairs in the same order; every Scalar
   * document is added under the same document name.
   */
  lemma SwaggerAndScalarAgree(descriptions: seq<ApiVersionDescription>)
    ensures var swagger, scalar := SwaggerEndpoints(descriptions), ScalarDocuments(descriptions);
      |swagger| == |scalar|
      && forall i :: 0 <= i < |swagger| ==>
           swagger[i].url == scalar[i].routePattern && swagger[i].name == scalar[i].title
           && scalar[i].documentName == ScalarDocumentName
  {
  }

  /**
   * The entries follow the descriptions sorted by descending group name
   * (ordinal string order), and each is the URL and label of its description.
   */
  lemma EntriesByDescendingGroupName(descriptions: seq<ApiVersionDescription>)
    ensures var ordered := OrderByDescending(descriptions, ByGroupName);
      multiset(ordered) == multiset(descriptions)
      && (forall i, j :: 0 <= i < j < |ordered| ==> OrdinalAtLeast(ordered[i].groupName, ordered[j].groupName))
      && (forall i :: 0 <= i < |ordered| ==>
            SwaggerEndpoints(descriptions)[i] == UrlDescriptor(EndpointUrl(ordered[i].groupName), DisplayName(ordered[i])))
  {
    OrderByDescendingSorted(descriptions, ByGroupName);
  }

  /**
   * Group names order as strings, not as versions: with versions 10.0 ("v10")
   * and 2.0 ("v2"), the UIs list v2 first while the documents are generated
   * v10 first.
   */
  lemma StringOrderNotVersionOrder()
    ensures var v10 := ApiVersionDescription(ApiVersion(10, 0, "10.0"), "v10", false, Wrappers.None);
      var v2 := ApiVersionDescription(ApiVersion(2, 0, "2.0"), "v2", false, Wrappers.None);
      OrderByDescending([v10, v2], ByGroupName) == [v2, v10]
      && OrderByDescending([v10, v2], ByApiVersion) == [v10, v2]
  {
    var v10 := ApiVersionDescription(ApiVersion(10, 0, "10.0"), "v10", false, Wrappers.None);
    var v2 := ApiVersionDescription(ApiVersion(2, 0, "2.0"), "v2", false, Wrappers.None);
    assert OrdinalAtLeast("v2", "v10") by {
      assert "v2"[1..] == "2" && "v10"[1..] == "10";
    }
    assert !OrdinalAtLeast("v10", "v2") by {
      assert "v2"[1..] == "2" && "v10"[1..] == "10";
    }
    assert OrderByDescending([v2], ByGroupName) == [v2];
    assert OrderByDescending([v2], ByApiVersion) == [v2];
    assert [v10, v2][1..] == [v2];
  }

  // ---------------------------------------------------------------------
  // The imperative code

  /** The Swagger UI options: the endpoints added so far. */
  class SwaggerUIOptions {
    var urls: seq<UrlDescriptor>

    constructor ()
      ensures urls == []
    {
      urls := [];
    }

    /** `SwaggerEndpoint(url, name)`: adds one entry to the document list. */
    method SwaggerEndpoint(url: string, name: string)
      modifies this
      ensures urls == old(urls) + [UrlDescriptor(url, name)]
    {
      urls := urls + [UrlDescriptor(url, name)];
    }
  }

  /** The Scalar options: the documents added so far. */
  class ScalarOptions {
    var documents: seq<ScalarDocument>

    constructor ()
      ensures documents == []
    {
      documents := [];
    }

    /** `AddDocument(documentName, title, routePattern)`: adds one document. */
    method AddDocument(documentName: string, title: string, routePattern: string)
      modifies this
      ensures documents == old(documents) + [ScalarDocument(documentName, title, routePattern)]
    {
      documents := documents + [ScalarDocument(documentName, title, routePattern)];
    }
  }

  /** The Swagger UI loop: one endpoint per description, greatest group name first. */
  method ConfigureSwaggerUI(descriptions: seq<ApiVersionDescription>, options: SwaggerUIOptions)
    modifies options
    ensures options.urls == old(options.urls) + SwaggerEndpoints(descriptions)
  {
    var ordered := OrderByDescending(descriptions, ByGroupName);
    var i := 0;
    while i < |ordered|
      invariant 0 <= i <= |ordered|
      invariant options.urls == old(options.urls) + Endpoints(ordered[..i])
    {
      var description := ordered[i];
      var url := UrlPrefix + description.groupName + UrlSuffix;
      var name := if description.isDeprecated
        then ToUpperInvariant(description.groupName) + DeprecatedSuffix
        else ToUpperInvariant(description.groupName);
      options.SwaggerEndpoint(url, name);
      EndpointsStep(old(options.urls), ordered, i);
      i := i + 1;
    }
    assert ordered[..i] == ordered;
  }

  /** The Scalar loop: one document per description, greatest group name first. */
  method ConfigureScalar(descriptions: seq<ApiVersionDescription>, options: ScalarOptions)
    modifies options
    ensures options.documents == old(options.documents) + ScalarDocuments(descriptions)
  {
    var ordered := OrderByDescending(descriptions, ByGroupName);
    var i := 0;
    while i < |ordered|
      invariant 0 <= i <= |ordered|
      invariant options.documents == old(options.documents) + ScalarDocs(ordered[..i])
    {
      var description := ordered[i];
      var url := UrlPrefix + description.groupName + UrlSuffix;
      var name := if description.isDeprecated
        then ToUpperInvariant(description.groupName) + DeprecatedSuffix
        else ToUpperInvariant(description.groupName);
      options.AddDocument(ScalarDocumentName, name, url);
      ScalarDocsStep(old(options.documents), ordered, i);
      i := i + 1;
    }
    assert ordered[..i] == ordered;
  }

  lemma EndpointsStep(added: seq<UrlDescriptor>, s: seq<ApiVersionDescription>, i: nat)
    requires i < |s|
    ensures added + Endpoints(s[..i]) + [UrlDescriptor(EndpointUrl(s[i].groupName), DisplayName(s[i]))]
         == added + Endpoints(s[..i + 1])
  {
    var l := added + Endpoints(s[..i]) + [UrlDescriptor(EndpointUrl(s[i].groupName), DisplayName(s[i]))];
    var r := added + Endpoints(s[..i + 1]);
    assert |l| == |r|;
    forall k | 0 <= k < |l| ensures l[k] == r[k] {
      if k >= |added| {
        assert s[..i + 1][k - |added|] == s[k - |added|];
      }
    }
  }

  lemma ScalarDocsStep(added: seq<ScalarDocument>, s: seq<ApiVersionDescription>, i: nat)
    requires i < |s|
    ensures added + ScalarDocs(s[..i])
            + [ScalarDocument(ScalarDocumentName, DisplayName(s[i]), EndpointUrl(s[i].groupName))]
         == added + ScalarDocs(s[..i + 1])
  {
    var l := added + ScalarDocs(s[..i]) + [ScalarDocument(ScalarDocumentName, DisplayName(s[i]), EndpointUrl(s[i].groupName))];
    var r := added + ScalarDocs(s[..i + 1]);
    assert |l| == |r|;
    forall k | 0 <= k < |l| ensures l[k] == r[k] {
      if k >= |added| {
        assert s[..i + 1][k - |added|] == s[k - |added|];
      }
    }
  }
}
