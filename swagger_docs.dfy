/**
 * `ConfigureSwaggerOptions`: one OpenAPI document per API version, each
 * with a description assembled from a fixed sentence, a deprecation notice,
 * a sunset sentence and an HTML list of the sunset policy's human-readable
 * links.
 *
 * `Narrative` is the specification of the text; the method
 * `CreateInfoForApiVersion` builds it step by step as the source does (a
 * growing buffer, an index loop over the links and a "header rendered"
 * flag) and is proved to produce exactly it.
 */
module SwaggerDocs {
  import opened Wrappers
  import opened Versioning
  import opened Ordering

  const BaseDescription: string :=
    "This API contains all the endpoints demonstrating Keyed Services and its injection. An example application with OpenAPI, Swashbuckle, and API versioning."
  const DeprecationNotice: string := "\n\nThis API version has been deprecated."
  const SunsetPrefix: string := " The API will be sunset on "
  /** `StringBuilder.AppendLine()` with no argument: the line terminator alone. */
  const NewLine: string := "\n"
  const HtmlMediaType: string := "text/html"
  const LinksHeader: string := "<h4>Links</h4><ul>"
  const LinksFooter: string := "</ul>"

  const DocumentTitle: string := "Keyed Services Demo"
  const ContactName: string := "Jiten Shahani"
  const ContactEmail: string := "shahani.jiten@gmail.com"
  const LicenseName: string := "MIT"
  const LicenseUrl: string := "https://opensource.org/licenses/MIT"

  /** The `OpenApiInfo` of one generated document. */
  datatype OpenApiInfo = OpenApiInfo(
    title: string,
    version: string,
    contactName: string,
    contactEmail: string,
    licenseName: string,
    licenseUrl: string,
    description: string)

  /** A document registered with `SwaggerDoc`: its name and its info. */
  datatype SwaggerDocument = SwaggerDocument(name: string, info: OpenApiInfo)

  /** The sentence announcing the sunset date. */
  function SunsetSentence(date: string): string {
    SunsetPrefix + date + "."
  }

  /** A link is rendered only when its media type is exactly `text/html` (ordinal comparison). */
  predicate IsHtml(link: Link) {
    link.mediaType == Some(HtmlMediaType)
  }

  /** The text of a link: its title, or its target when the title is null or empty. */
  function Label(link: Link): string {
    match link.title
    case Some(t) => if t == [] then link.target else t
    case None => link.target
  }

  /** One rendered list item. */
  function LinkItem(link: Link): string {
    "<li><a href=\"" + link.target + "\">" + Label(link) + "</a></li>"
  }

  /** The `text/html` links of `links`, in their order. */
  function HtmlLinks(links: seq<Link>): seq<Link> {
    if links == [] then []
    else (if IsHtml(links[0]) then [links[0]] else []) + HtmlLinks(links[1..])
  }

  /** The list items of `links`, one per link, in order. */
  function RenderItems(links: seq<Link>): string {
    if links == [] then [] else LinkItem(links[0]) + RenderItems(links[1..])
  }

  /** The HTML link list: empty when no link is `text/html`, else header, items and footer. */
  function LinkList(links: seq<Link>): string {
    var html := HtmlLinks(links);
    if html == [] then [] else LinksHeader + RenderItems(html) + LinksFooter
  }

  /** The date sentence of a sunset policy, when it has a date. */
  function DatePart(policy: SunsetPolicy): string {
    match policy.date
    case Some(date) => SunsetSentence(date)
    case None => []
  }

  /** A line break and the link list, when the policy has links. */
  function LinksPart(policy: SunsetPolicy): string {
    if policy.links != [] then NewLine + LinkList(policy.links) else []
  }

  /** What a sunset policy adds: its date sentence, then (when it has links) a line break and the link list. */
  function SunsetText(policy: SunsetPolicy): string {
    DatePart(policy) + LinksPart(policy)
  }

  /** The deprecation part of the description. */
  function DeprecationText(description: ApiVersionDescription): string {
    if description.isDeprecated then DeprecationNotice else []
  }

  /** The sunset sentence and links, or nothing when there is no sunset policy. */
  function PolicyText(description: ApiVersionDescription): string {
    match description.sunsetPolicy
    case Some(policy) => SunsetText(policy)
    case None => []
  }

  /** The whole description text of the document for `description`. */
  function Narrative(description: ApiVersionDescription): string {
    BaseDescription + DeprecationText(description) + PolicyText(description)
  }

  /** The info of the document for `description`. */
  function InfoFor(description: ApiVersionDescription): OpenApiInfo {
    OpenApiInfo(DocumentTitle, description.apiVersion.text, ContactName, ContactEmail,
                LicenseName, LicenseUrl, Narrative(description))
  }

  /** The document `Configure` registers for `description`. */
  function DocumentFor(description: ApiVersionDescription): SwaggerDocument {
    SwaggerDocument(description.groupName, InfoFor(description))
  }

  /** The documents for `descriptions`, in the given order. */
  function Documents(descriptions: seq<ApiVersionDescription>): (r: seq<SwaggerDocument>)
    ensures |r| == |descriptions|
    ensures forall i :: 0 <= i < |descriptions| ==> r[i] == DocumentFor(descriptions[i])
  {
    if descriptions == [] then []
    else [DocumentFor(descriptions[0])] + Documents(descriptions[1..])
  }

  /** The documents `Configure` registers: one per description, newest API version first. */
  function VersionDocuments(descriptions: seq<ApiVersionDescription>): seq<SwaggerDocument> {
    Documents(OrderByDescending(descriptions, ByApiVersion))
  }

  // ---------------------------------------------------------------------
  // The link list

  /** Filtering distributes over concatenation, so links keep their input order. */
  lemma {:induction false} HtmlLinksAppend(a: seq<Link>, b: seq<Link>)
    ensures HtmlLinks(a + b) == HtmlLinks(a) + HtmlLinks(b)
  {
    if a == [] {
      assert a + b == b;
    } else {
      assert (a + b)[1..] == a[1..] + b;
      HtmlLinksAppend(a[1..], b);
    }
  }

  /** A link is kept exactly when it is one of the input links and has type `text/html`. */
  lemma {:induction false} HtmlLinksMembers(links: seq<Link>, link: Link)
    ensures link in HtmlLinks(links) <==> link in links && IsHtml(link)
  {
    if links != [] {
      HtmlLinksMembers(links[1..], link);
      assert links == [links[0]] + links[1..];
    }
  }

  /** The list has an item for some link exactly when some link has type `text/html`. */
  lemma {:induction false} HtmlLinksNonEmpty(links: seq<Link>)
    ensures HtmlLinks(links) != [] <==> exists i :: 0 <= i < |links| && IsHtml(links[i])
  {
    if links != [] {
      HtmlLinksNonEmpty(links[1..]);
      if !IsHtml(links[0]) && exists i :: 0 <= i < |links| && IsHtml(links[i]) {
        var i :| 0 <= i < |links| && IsHtml(links[i]);
        assert links[1..][i - 1] == links[i];
      }
    }
  }

  /** Rendering distributes over concatenation. */
  lemma {:induction false} RenderItemsAppend(a: seq<Link>, b: seq<Link>)
    ensures RenderItems(a + b) == RenderItems(a) + RenderItems(b)
  {
    if a == [] {
      assert a + b == b;
    } else {
      assert (a + b)[1..] == a[1..] + b;
      RenderItemsAppend(a[1..], b);
    }
  }

  /** Links of any other type contribute nothing: the list of all links is the list of the `text/html` ones. */
  lemma {:induction false} LinkListIgnoresOtherTypes(links: seq<Link>)
    ensures LinkList(links) == LinkList(HtmlLinks(links))
  {
    HtmlLinksIdempotent(links);
  }

  lemma {:induction false} HtmlLinksIdempotent(links: seq<Link>)
    ensures HtmlLinks(HtmlLinks(links)) == HtmlLinks(links)
  {
    if links != [] {
      HtmlLinksIdempotent(links[1..]);
      var head := if IsHtml(links[0]) then [links[0]] else [];
      HtmlLinksAppend(head, HtmlLinks(links[1..]));
      if IsHtml(links[0]) {
        assert HtmlLinks(head) == head by { assert head[1..] == []; }
      }
    }
  }

  /**
   * The header and the footer are both emitted, or neither: the list is
   * empty exactly when no link is `text/html`, and otherwise it is one
   * header, one item per `text/html` link, one footer.
   */
  lemma LinkListShape(links: seq<Link>)
    ensures LinkList(links) == [] <==> forall i :: 0 <= i < |links| ==> !IsHtml(links[i])
    ensures LinkList(links) != [] ==>
      LinkList(links) == LinksHeader + RenderItems(HtmlLinks(links)) + LinksFooter
  {
    HtmlLinksNonEmpty(links);
  }

  // ---------------------------------------------------------------------
  // The narrative

  /** The description always begins with the base sentence; title and version come from the constants and the API version. */
  lemma InfoForShape(description: ApiVersionDescription)
    ensures BaseDescription <= InfoFor(description).description
    ensures InfoFor(description).title == "Keyed Services Demo"
    ensures InfoFor(description).version == description.apiVersion.text
  {
  }

  /** The text that follows the base sentence and the deprecation notice. */
  function AfterDeprecation(description: ApiVersionDescription): string {
    Narrative(description)[|BaseDescription| + |DeprecationText(description)|..]
  }

  lemma SunsetTextStart(policy: SunsetPolicy)
    ensures var t := SunsetText(policy);
      t == [] || t[0] == ' ' || (t[0] == '\n' && (|t| == 1 || t[1] == '<'))
  {
    var t := SunsetText(policy);
    if policy.date.None? && policy.links != [] {
      var l := LinkList(policy.links);
      assert t == NewLine + l;
      assert l == [] || l[0] == '<';
    }
  }

  /** The narrative after the fixed first sentence is the notice followed by the sunset text. */
  lemma NarrativeParts(description: ApiVersionDescription)
    ensures Narrative(description)[|BaseDescription|..] == DeprecationText(description) + PolicyText(description)
    ensures AfterDeprecation(description) == PolicyText(description)
  {
    var b, n, t := BaseDescription, DeprecationText(description), PolicyText(description);
    assert (b + n + t)[|b|..] == n + t;
    assert (b + n + t)[|b| + |n|..] == t;
  }

  /** Text that starts as the sunset text does cannot start with the deprecation notice. */
  lemma NoticeNotPrefix(t: string)
    requires t == [] || t[0] == ' ' || (t[0] == '\n' && (|t| == 1 || t[1] == '<'))
    ensures !(DeprecationNotice <= t)
  {
    assert DeprecationNotice[0] == '\n' && DeprecationNotice[1] == '\n';
  }

  /**
   * The deprecation notice follows the base sentence exactly when the version
   * is deprecated, so it comes before any sunset text.
   */
  lemma NoticeIffDeprecated(description: ApiVersionDescription)
    ensures DeprecationNotice <= Narrative(description)[|BaseDescription|..] <==> description.isDeprecated
  {
    NarrativeParts(description);
    if !description.isDeprecated {
      var t := PolicyText(description);
      assert DeprecationText(description) + t == t;
      if description.sunsetPolicy.Some? {
        SunsetTextStart(description.sunsetPolicy.value);
      }
      NoticeNotPrefix(t);
    }
  }

  /** With a date, the sunset text opens with the date sentence. */
  lemma DatedSunsetStart(policy: SunsetPolicy)
    requires policy.date.Some?
    ensures SunsetPrefix <= SunsetSentence(policy.date.value) <= SunsetText(policy)
  {
    var sentence := SunsetSentence(policy.date.value);
    assert sentence == SunsetPrefix + (policy.date.value + ".");
    assert SunsetText(policy) == sentence + LinksPart(policy);
  }

  /** Without a date, the sunset text is empty or opens with a line break. */
  lemma UndatedSunsetStart(policy: SunsetPolicy)
    requires policy.date.None?
    ensures SunsetText(policy) == [] || SunsetText(policy)[0] == '\n'
  {
    assert SunsetText(policy) == LinksPart(policy);
  }

  /** Text that is empty or opens with a line break does not open with the sunset sentence. */
  lemma SunsetPrefixAbsent(t: string)
    requires t == [] || t[0] == '\n'
    ensures !(SunsetPrefix <= t)
  {
    assert SunsetPrefix[0] == ' ';
  }

  /**
   * The sunset sentence follows the deprecation part exactly when there is a
   * policy with a date, and it then names that date.
   */
  lemma SunsetSentenceIffDate(description: ApiVersionDescription)
    ensures SunsetPrefix <= AfterDeprecation(description)
        <==> description.sunsetPolicy.Some? && description.sunsetPolicy.value.date.Some?
    ensures description.sunsetPolicy.Some? && description.sunsetPolicy.value.date.Some? ==>
      SunsetSentence(description.sunsetPolicy.value.date.value) <= AfterDeprecation(description)
  {
    NarrativeParts(description);
    match description.sunsetPolicy
    case None =>
      SunsetPrefixAbsent(PolicyText(description));
    case Some(policy) =>
      if policy.date.Some? {
        DatedSunsetStart(policy);
      } else {
        UndatedSunsetStart(policy);
        SunsetPrefixAbsent(SunsetText(policy));
      }
  }

  /** Without a sunset policy the description carries no sunset sentence and no markup. */
  lemma NoPolicyNoMarkup(description: ApiVersionDescription)
    requires description.sunsetPolicy.None?
    ensures Narrative(description) == BaseDescription + DeprecationText(description)
    ensures AfterDeprecation(description) == []
  {
  }

  /**
   * A policy with links ends its sunset text with a line break even when no
   * link is `text/html` (the link list is then empty).
   */
  lemma LineBreakWhenLinks(policy: SunsetPolicy)
    requires policy.links != []
    requires forall i :: 0 <= i < |policy.links| ==> !IsHtml(policy.links[i])
    ensures SunsetText(policy) ==
      (match policy.date case Some(date) => SunsetSentence(date) case None => []) + NewLine
  {
    LinkListShape(policy.links);
  }

  // ---------------------------------------------------------------------
  // Documents for all versions

  lemma {:induction false} DocumentsAppend(a: seq<ApiVersionDescription>, b: seq<ApiVersionDescription>)
    ensures Documents(a + b) == Documents(a) + Documents(b)
  {
    var l, r := Documents(a + b), Documents(a) + Documents(b);
    assert |l| == |r|;
    forall i | 0 <= i < |l| ensures l[i] == r[i] {
      if i < |a| {
        assert (a + b)[i] == a[i];
      } else {
        assert (a + b)[i] == b[i - |a|];
      }
    }
  }

  /** Registering the next description's document extends the registered prefix by one. */
  lemma DocumentsStep(registered: seq<SwaggerDocument>, s: seq<ApiVersionDescription>, i: nat)
    requires i < |s|
    ensures registered + Documents(s[..i]) + [DocumentFor(s[i])] == registered + Documents(s[..i + 1])
  {
    assert s[..i + 1] == s[..i] + [s[i]];
    DocumentsAppend(s[..i], [s[i]]);
  }

  lemma {:induction false} DocumentsInsert(d: ApiVersionDescription, s: seq<ApiVersionDescription>, key: SortKey)
    ensures multiset(Documents(Insert(d, s, key))) == multiset(Documents(s)) + multiset{DocumentFor(d)}
  {
    if s != [] && !AtLeast(d, s[0], key) {
      DocumentsInsert(d, s[1..], key);
      assert Documents(Insert(d, s, key)) == [DocumentFor(s[0])] + Documents(Insert(d, s[1..], key));
      assert Documents(s) == [DocumentFor(s[0])] + Documents(s[1..]);
    }
  }

  /**
   * `Configure` registers exactly one document per description: the
   * registered documents are those of the descriptions, each as often as its
   * description occurs, named by its group name.
   */
  lemma {:induction false} OneDocumentPerDescription(descriptions: seq<ApiVersionDescription>)
    ensures |VersionDocuments(descriptions)| == |descriptions|
    ensures multiset(VersionDocuments(descriptions)) == multiset(Documents(descriptions))
  {
    if descriptions != [] {
      var s := descriptions;
      OneDocumentPerDescription(s[1..]);
      DocumentsInsert(s[0], OrderByDescending(s[1..], ByApiVersion), ByApiVersion);
      assert Documents(s) == [DocumentFor(s[0])] + Documents(s[1..]);
    }
  }

  /** The documents are registered newest API version first. */
  lemma VersionDocumentsNewestFirst(descriptions: seq<ApiVersionDescription>)
    ensures var ordered := OrderByDescending(descriptions, ByApiVersion);
      |VersionDocuments(descriptions)| == |ordered|
      && (forall i :: 0 <= i < |ordered| ==> VersionDocuments(descriptions)[i] == DocumentFor(ordered[i]))
      && (forall i, j :: 0 <= i < j < |ordered| ==> VersionAtLeast(ordered[i].apiVersion, ordered[j].apiVersion))
  {
    var ordered := OrderByDescending(descriptions, ByApiVersion);
    OrderByDescendingSorted(descriptions, ByApiVersion);
    assert VersionDocuments(descriptions) == Documents(ordered);
    forall i, j | 0 <= i < j < |ordered|
      ensures VersionAtLeast(ordered[i].apiVersion, ordered[j].apiVersion)
    {
      assert AtLeast(ordered[i], ordered[j], ByApiVersion);
    }
  }

  lemma AppendAssoc(a: string, b: string, c: string)
    ensures (a + b) + c == a + (b + c)
  {
  }

  /** What the `i`-th link adds to the `text/html` links and to the rendered items. */
  lemma LinkStep(links: seq<Link>, i: nat)
    requires i < |links|
    ensures HtmlLinks(links[..i + 1]) == HtmlLinks(links[..i]) + (if IsHtml(links[i]) then [links[i]] else [])
    ensures RenderItems(HtmlLinks(links[..i + 1]))
         == RenderItems(HtmlLinks(links[..i])) + (if IsHtml(links[i]) then LinkItem(links[i]) else [])
    ensures HtmlLinks(links[..i]) == [] ==> RenderItems(HtmlLinks(links[..i])) == []
  {
    var link := links[i];
    assert links[..i + 1] == links[..i] + [link];
    HtmlLinksAppend(links[..i], [link]);
    assert [link][1..] == [];
    var items := HtmlLinks(links[..i]);
    if IsHtml(link) {
      RenderItemsAppend(items, [link]);
    } else {
      assert items + [] == items;
    }
  }

  lemma EmptySuffix(a: string)
    ensures a + [] == a
  {
  }

  lemma LinkListClose(text: string, links: seq<Link>, rendered: bool, i: nat)
    requires i == |links|
    requires rendered <==> HtmlLinks(links[..i]) != []
    ensures rendered ==> text + LinksHeader + RenderItems(HtmlLinks(links[..i])) + LinksFooter == text + LinkList(links)
    ensures !rendered ==> text + [] + RenderItems(HtmlLinks(links[..i])) == text + LinkList(links)
  {
    assert links[..i] == links;
    if !rendered {
      assert text + [] + [] == text;
    }
  }

  // ---------------------------------------------------------------------
  // The imperative code

  /** `SwaggerGenOptions`: the documents registered so far, in registration order. */
  class SwaggerGenOptions {
    var swaggerDocs: seq<SwaggerDocument>

    constructor ()
      ensures swaggerDocs == []
    {
      swaggerDocs := [];
    }

    /** `SwaggerDoc(name, info)`: registers one more document. */
    method SwaggerDoc(name: string, info: OpenApiInfo)
      modifies this
      ensures swaggerDocs == old(swaggerDocs) + [SwaggerDocument(name, info)]
    {
      swaggerDocs := swaggerDocs + [SwaggerDocument(name, info)];
    }
  }

  /** `ConfigureSwaggerOptions`, holding the descriptions its provider reports. */
  class ConfigureSwaggerOptions {
    const apiVersionDescriptions: seq<ApiVersionDescription>

    constructor (provider: seq<ApiVersionDescription>)
      ensures apiVersionDescriptions == provider
    {
      apiVersionDescriptions := provider;
    }

    /** Adds a document for each description, newest API version first. */
    method Configure(options: SwaggerGenOptions)
      modifies options
      ensures options.swaggerDocs == old(options.swaggerDocs) + VersionDocuments(apiVersionDescriptions)
    {
      var ordered := OrderByDescending(apiVersionDescriptions, ByApiVersion);
      var i := 0;
      while i < |ordered|
        invariant 0 <= i <= |ordered|
        invariant options.swaggerDocs == old(options.swaggerDocs) + Documents(ordered[..i])
      {
        var info := CreateInfoForApiVersion(ordered[i]);
        options.SwaggerDoc(ordered[i].groupName, info);
        DocumentsStep(old(options.swaggerDocs), ordered, i);
        i := i + 1;
      }
      assert ordered[..i] == ordered;
    }

    /** Builds the info of one document, growing its description piece by piece. */
    static method CreateInfoForApiVersion(description: ApiVersionDescription) returns (info: OpenApiInfo)
      ensures info == InfoFor(description)
    {
      var text := BaseDescription;
      if description.isDeprecated {
        text := text + DeprecationNotice;
      }
      assert text == BaseDescription + DeprecationText(description);
      if description.sunsetPolicy.Some? {
        text := AppendSunset(text, description.sunsetPolicy.value);
      } else {
        EmptySuffix(text);
      }
      info := OpenApiInfo(DocumentTitle, description.apiVersion.text, ContactName, ContactEmail,
                          LicenseName, LicenseUrl, text);
    }

    /** Appends what a sunset policy adds: the date sentence, then a line break and the link list. */
    static method AppendSunset(text: string, policy: SunsetPolicy) returns (result: string)
      ensures result == text + SunsetText(policy)
    {
      var dated := AppendDate(text, policy);
      result := AppendLinksPart(dated, policy);
      AppendAssoc(text, DatePart(policy), LinksPart(policy));
    }

    /** Appends " The API will be sunset on <date>." when the policy has a date. */
    static method AppendDate(text: string, policy: SunsetPolicy) returns (result: string)
      ensures result == text + DatePart(policy)
    {
      result := text;
      if policy.date.Some? {
        var date := policy.date.value;
        result := result + SunsetPrefix + date + ".";
        AppendAssoc(text, SunsetPrefix, date);
        AppendAssoc(text, SunsetPrefix + date, ".");
      } else {
        EmptySuffix(text);
      }
    }

    /** Appends a line break and the link list when the policy has links. */
    static method AppendLinksPart(text: string, policy: SunsetPolicy) returns (result: string)
      ensures result == text + LinksPart(policy)
    {
      result := text;
      if policy.links != [] {
        result := result + NewLine;
        result := AppendLinks(result, policy.links);
        AppendAssoc(text, NewLine, LinkList(policy.links));
      } else {
        EmptySuffix(text);
      }
    }

    /**
     * Appends the link list to `text`: the header before the first `text/html`
     * link, one item per such link, and the footer once a header was rendered.
     */
    static method AppendLinks(text: string, links: seq<Link>) returns (result: string)
      ensures result == text + LinkList(links)
    {
      result := text;
      var rendered := false;
      var i := 0;
      while i < |links|
        invariant 0 <= i <= |links|
        invariant rendered <==> HtmlLinks(links[..i]) != []
        invariant result == text + (if rendered then LinksHeader else []) + RenderItems(HtmlLinks(links[..i]))
      {
        var link := links[i];
        LinkStep(links, i);
        if link.mediaType == Some(HtmlMediaType) {
          ghost var items := RenderItems(HtmlLinks(links[..i]));
          if !rendered {
            result := result + LinksHeader;
            rendered := true;
            EmptySuffix(text + LinksHeader);
          }
          result := AppendItem(result, link);
          AppendAssoc(text + LinksHeader, items, LinkItem(link));
        } else {
          EmptySuffix(result);
        }
        i := i + 1;
      }
      if rendered {
        result := result + LinksFooter;
      }
      LinkListClose(text, links, rendered, i);
    }

    /** Appends one list item: the anchor to the link's target, labelled by its title or, failing that, its target. */
    static method AppendItem(text: string, link: Link) returns (result: string)
      ensures result == text + LinkItem(link)
    {
      result := text + "<li><a href=\"";
      result := result + link.target;
      result := result + "\">";
      var title := link.title;
      result := result + (if title.None? || title.value == [] then link.target else title.value);
      result := result + "</a></li>";
    }
  }
}
