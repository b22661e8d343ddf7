# API versioning demo: documents, documentation UIs and the even-number rule

A Dafny model of three parts of an ASP.NET Core demo application that serves
several API versions side by side:

- `ConfigureSwaggerOptions` registers one OpenAPI document per API version,
  newest version first. Each document's description is assembled from:
  - a fixed sentence;
  - a deprecation notice, when the version is deprecated;
  - a sunset-date sentence, when the sunset policy has a date;
  - an HTML list of the policy's `text/html` links.
- `Middleware.ConfigurePipeline` lists one entry per API version in the
  Swagger UI and in the Scalar reference:
  - each entry points at `/openApi/<group>.json`;
  - each entry is labelled by the upper-cased group name, with ` (DEPRECATED)`
    added for deprecated versions;
  - entries are visited in descending order of the group name as a string.
- `EvenNumberAttribute` is a validation rule that accepts even `int` values
  and rejects everything else, with one message per kind of failure.

Modules:

- `Wrappers`: `Option`.
- `Versioning`: the API-version descriptions the versioning library hands to
  the application. These are inputs.
- `Ordering`: LINQ's stable `OrderByDescending`, keyed by API version or by
  group name. It is modelled as a stable insertion sort. Proved: it returns a
  permutation, sorted greatest-first, and keeps equal keys in input order.
- `SwaggerDocs`: `ConfigureSwaggerOptions`. The functions `Narrative`,
  `InfoFor` and `VersionDocuments` specify the result. The methods
  `Configure` and `CreateInfoForApiVersion` build it step by step, as the
  source does:
  - a growing text buffer;
  - an index loop over the links;
  - a "header rendered" flag.

  Both methods are proved to produce exactly the specified result.
- `DocsUi`: the Swagger UI and Scalar loops of `Middleware.cs`.
- `Validation`: `EvenNumberAttribute`.

Two behaviours of the code are easy to miss:

- Both UIs order their entries by group name, a string order, so "v2" comes
  before "v10". The documents are ordered by API version, so "v10" comes
  first there. `DocsUi.StringOrderNotVersionOrder` exhibits the difference.
- Once a sunset policy has any links at all, a line break is emitted, even
  when none of the links is `text/html` and no list follows.

## Model

| member | source | states |
|---|---|---|
| Ordering.VersionAtLeast | ApiVersioningDemo/Swagger/ConfigureSwaggerOptions.cs:16 | The version key: a later or equal major, or the same major and a later or equal minor. |
| Ordering.OrdinalAtLeast | ApiVersioningDemo/Startup/Middleware.cs:36 | The group-name key: character-code order, first difference decides, a prefix sorts first. |
| Ordering.AtLeast | ApiVersioningDemo/Swagger/ConfigureSwaggerOptions.cs:16 | The ordering by the chosen key: API version for the documents, group name for the UIs (Middleware.cs lines 36 and 66). |
| Ordering.OrderByDescending | ApiVersioningDemo/Swagger/ConfigureSwaggerOptions.cs:14-16 | The ordered sequence is a permutation of the descriptions (same length, same multiset). |
| Ordering.Insert | ApiVersioningDemo/Swagger/ConfigureSwaggerOptions.cs:14-16 | One insertion step of the stable sort adds exactly the inserted description to the multiset. |
| Ordering.OrderByDescendingSorted | ApiVersioningDemo/Swagger/ConfigureSwaggerOptions.cs:14-16 | After `OrderByDescending`, every description's key is at least that of every later one. |
| Ordering.InsertSorted | ApiVersioningDemo/Swagger/ConfigureSwaggerOptions.cs:14-16 | Inserting into a descending sequence keeps it descending. |
| Ordering.OrderByDescendingStable | ApiVersioningDemo/Startup/Middleware.cs:36 | Stability: the descriptions sharing a key come out in their input order. |
| Ordering.InsertWithKeyOf | ApiVersioningDemo/Startup/Middleware.cs:36 | An insertion puts the new description ahead of all earlier descriptions with an equal key. |
| Ordering.OrdinalTotal | ApiVersioningDemo/Startup/Middleware.cs:36 | Any two group names are comparable in the string order. |
| Ordering.OrdinalTransitive | ApiVersioningDemo/Startup/Middleware.cs:66 | The string order on group names is transitive. |
| Ordering.OrdinalAntisymmetric | ApiVersioningDemo/Startup/Middleware.cs:66 | Two group names each at least the other are equal. |
| Ordering.AtLeastTotal | ApiVersioningDemo/Swagger/ConfigureSwaggerOptions.cs:16 | Under either key, any two descriptions are comparable. |
| Ordering.AtLeastTransitive | ApiVersioningDemo/Swagger/ConfigureSwaggerOptions.cs:16 | Under either key, the ordering is transitive. |
| SwaggerDocs.SwaggerGenOptions.SwaggerDoc | ApiVersioningDemo/Swagger/ConfigureSwaggerOptions.cs:18 | Registering a document appends exactly that name and info to the registered documents. |
| SwaggerDocs.ConfigureSwaggerOptions.constructor | ApiVersioningDemo/Swagger/ConfigureSwaggerOptions.cs:7-8 | The options object holds the descriptions its provider reports. |
| SwaggerDocs.ConfigureSwaggerOptions.Configure | ApiVersioningDemo/Swagger/ConfigureSwaggerOptions.cs:10-20 | Afterwards the registered documents are the earlier ones followed by one document per description, newest API version first; nothing else changes. |
| SwaggerDocs.ConfigureSwaggerOptions.CreateInfoForApiVersion | ApiVersioningDemo/Swagger/ConfigureSwaggerOptions.cs:22-86 | The info built step by step is exactly `InfoFor`: fixed title, contact and licence, the version's string form, and the narrative. |
| SwaggerDocs.ConfigureSwaggerOptions.AppendSunset | ApiVersioningDemo/Swagger/ConfigureSwaggerOptions.cs:37-80 | A sunset policy appends its date sentence and then its link part, in that order. |
| SwaggerDocs.ConfigureSwaggerOptions.AppendDate | ApiVersioningDemo/Swagger/ConfigureSwaggerOptions.cs:39-44 | With a date, " The API will be sunset on <date>." is appended; without one, nothing is. |
| SwaggerDocs.ConfigureSwaggerOptions.AppendLinksPart | ApiVersioningDemo/Swagger/ConfigureSwaggerOptions.cs:46-49 | With links, a line break and then the link list are appended; without links, nothing is. |
| SwaggerDocs.ConfigureSwaggerOptions.AppendLinks | ApiVersioningDemo/Swagger/ConfigureSwaggerOptions.cs:50-78 | The loop with its `rendered` flag appends exactly `LinkList`. That is the header once, before the first `text/html` link, then one item per such link in order, then the footer. It is nothing when there is no such link. |
| SwaggerDocs.ConfigureSwaggerOptions.AppendItem | ApiVersioningDemo/Swagger/ConfigureSwaggerOptions.cs:64-71 | One list item is appended: an anchor to the target, labelled by the title or, when the title is missing or empty, by the target. |
| SwaggerDocs.IsHtml | ApiVersioningDemo/Swagger/ConfigureSwaggerOptions.cs:56 | A link is rendered when its media type is exactly "text/html"; a missing type is not. |
| SwaggerDocs.Label | ApiVersioningDemo/Swagger/ConfigureSwaggerOptions.cs:67-70 | The anchor text: the title, or the target when the title is missing or empty. |
| SwaggerDocs.LinkItem | ApiVersioningDemo/Swagger/ConfigureSwaggerOptions.cs:64-71 | One `<li>` holding an anchor to the link's target, labelled by `Label`. |
| SwaggerDocs.HtmlLinks | ApiVersioningDemo/Swagger/ConfigureSwaggerOptions.cs:52-56 | The policy's `text/html` links, in their order. |
| SwaggerDocs.RenderItems | ApiVersioningDemo/Swagger/ConfigureSwaggerOptions.cs:64-71 | The list items of the given links, one after the other. |
| SwaggerDocs.LinkList | ApiVersioningDemo/Swagger/ConfigureSwaggerOptions.cs:50-78 | Nothing when no link is `text/html`; otherwise the header, the items and the footer. |
| SwaggerDocs.SunsetSentence | ApiVersioningDemo/Swagger/ConfigureSwaggerOptions.cs:41-43 | " The API will be sunset on ", the date, then ".". |
| SwaggerDocs.DatePart | ApiVersioningDemo/Swagger/ConfigureSwaggerOptions.cs:39-44 | The sunset sentence with the date, or nothing without a date. |
| SwaggerDocs.LinksPart | ApiVersioningDemo/Swagger/ConfigureSwaggerOptions.cs:46-49 | A line break and the link list when the policy has links, or nothing. |
| SwaggerDocs.SunsetText | ApiVersioningDemo/Swagger/ConfigureSwaggerOptions.cs:37-80 | What a sunset policy adds: its date part, then its links part. |
| SwaggerDocs.DeprecationText | ApiVersioningDemo/Swagger/ConfigureSwaggerOptions.cs:34-35 | The deprecation notice for a deprecated version, nothing otherwise. |
| SwaggerDocs.PolicyText | ApiVersioningDemo/Swagger/ConfigureSwaggerOptions.cs:37-80 | The sunset text of the policy, or nothing when there is no policy. |
| SwaggerDocs.Narrative | ApiVersioningDemo/Swagger/ConfigureSwaggerOptions.cs:24-83 | The description text: the fixed sentence, the deprecation part, then the sunset part. |
| SwaggerDocs.InfoFor | ApiVersioningDemo/Swagger/ConfigureSwaggerOptions.cs:26-32 | The info of one document: fixed title, contact and licence, the version's string form, and `Narrative`. |
| SwaggerDocs.DocumentFor | ApiVersioningDemo/Swagger/ConfigureSwaggerOptions.cs:18 | One document: the description's group name with its info. |
| SwaggerDocs.VersionDocuments | ApiVersioningDemo/Swagger/ConfigureSwaggerOptions.cs:14-19 | The documents of the descriptions in descending API-version order. |
| SwaggerDocs.Documents | ApiVersioningDemo/Swagger/ConfigureSwaggerOptions.cs:14-19 | There is one document per description, at the same position, named by its group name and carrying its info. |
| SwaggerDocs.DocumentsAppend | ApiVersioningDemo/Swagger/ConfigureSwaggerOptions.cs:14-19 | The documents of a concatenation are the concatenation of the documents. |
| SwaggerDocs.DocumentsStep | ApiVersioningDemo/Swagger/ConfigureSwaggerOptions.cs:18 | One loop iteration extends the documents of the visited prefix by the next description's document. |
| SwaggerDocs.DocumentsInsert | ApiVersioningDemo/Swagger/ConfigureSwaggerOptions.cs:14-16 | Reordering does not change which documents are produced, step by step. |
| SwaggerDocs.OneDocumentPerDescription | ApiVersioningDemo/Swagger/ConfigureSwaggerOptions.cs:12-19 | There are exactly as many documents as descriptions, and they are the documents of the descriptions in some order (same multiset). |
| SwaggerDocs.VersionDocumentsNewestFirst | ApiVersioningDemo/Swagger/ConfigureSwaggerOptions.cs:14-18 | There are as many documents as ordered descriptions; the i-th document, for every i, belongs to the i-th description in descending API-version order, and each version is at least every later one. |
| SwaggerDocs.HtmlLinksAppend | ApiVersioningDemo/Swagger/ConfigureSwaggerOptions.cs:52-56 | Filtering `text/html` links distributes over concatenation. |
| SwaggerDocs.HtmlLinksMembers | ApiVersioningDemo/Swagger/ConfigureSwaggerOptions.cs:56 | A link is rendered if and only if it is one of the policy's links and its media type is exactly `text/html`. |
| SwaggerDocs.HtmlLinksNonEmpty | ApiVersioningDemo/Swagger/ConfigureSwaggerOptions.cs:56-62 | Some link is rendered if and only if some link has media type `text/html`. |
| SwaggerDocs.HtmlLinksIdempotent | ApiVersioningDemo/Swagger/ConfigureSwaggerOptions.cs:56 | Filtering the rendered links again changes nothing. |
| SwaggerDocs.RenderItemsAppend | ApiVersioningDemo/Swagger/ConfigureSwaggerOptions.cs:64-71 | Items are rendered link by link, in order. |
| SwaggerDocs.LinkListIgnoresOtherTypes | ApiVersioningDemo/Swagger/ConfigureSwaggerOptions.cs:56 | Links of other media types leave no trace in the list. |
| SwaggerDocs.LinkListShape | ApiVersioningDemo/Swagger/ConfigureSwaggerOptions.cs:58-78 | The list is empty if and only if no link is `text/html`. Otherwise it is the header, the items and the footer, so the header and footer come exactly once. |
| SwaggerDocs.LinkStep | ApiVersioningDemo/Swagger/ConfigureSwaggerOptions.cs:52-72 | What one iteration over link i adds to the rendered links and items. |
| SwaggerDocs.LinkListClose | ApiVersioningDemo/Swagger/ConfigureSwaggerOptions.cs:75-78 | The footer is written exactly when the header was, which completes the list. |
| SwaggerDocs.InfoForShape | ApiVersioningDemo/Swagger/ConfigureSwaggerOptions.cs:24-32 | Every description opens with the fixed sentence. The title is "Keyed Services Demo" and the version is the API version's string form. |
| SwaggerDocs.NarrativeParts | ApiVersioningDemo/Swagger/ConfigureSwaggerOptions.cs:24-80 | After the fixed sentence, the text is the deprecation part followed by the sunset part. |
| SwaggerDocs.NoticeIffDeprecated | ApiVersioningDemo/Swagger/ConfigureSwaggerOptions.cs:34-35 | The deprecation notice follows the fixed sentence if and only if the version is deprecated. |
| SwaggerDocs.NoticeNotPrefix | ApiVersioningDemo/Swagger/ConfigureSwaggerOptions.cs:35 | Text that starts as sunset text can never be mistaken for the notice. |
| SwaggerDocs.SunsetTextStart | ApiVersioningDemo/Swagger/ConfigureSwaggerOptions.cs:37-49 | Sunset text is empty or starts with the date sentence's blank. Otherwise it is a line break, followed by nothing or by the list header's `<`. |
| SwaggerDocs.SunsetSentenceIffDate | ApiVersioningDemo/Swagger/ConfigureSwaggerOptions.cs:37-44 | The sunset sentence follows the deprecation part if and only if there is a policy with a date. It then names that date. |
| SwaggerDocs.DatedSunsetStart | ApiVersioningDemo/Swagger/ConfigureSwaggerOptions.cs:39-44 | With a date, the sunset text opens with the date sentence. |
| SwaggerDocs.UndatedSunsetStart | ApiVersioningDemo/Swagger/ConfigureSwaggerOptions.cs:46-48 | Without a date, the sunset text is empty or opens with the line break. |
| SwaggerDocs.SunsetPrefixAbsent | ApiVersioningDemo/Swagger/ConfigureSwaggerOptions.cs:41 | Empty text, or text opening with a line break, has no sunset sentence at its start. |
| SwaggerDocs.NoPolicyNoMarkup | ApiVersioningDemo/Swagger/ConfigureSwaggerOptions.cs:37 | Without a sunset policy, the description is the fixed sentence plus at most the deprecation notice. |
| SwaggerDocs.LineBreakWhenLinks | ApiVersioningDemo/Swagger/ConfigureSwaggerOptions.cs:46-48 | A policy whose links are all non-HTML still adds a line break after the date sentence, and nothing more. |
| DocsUi.UpperChar | ApiVersioningDemo/Startup/Middleware.cs:41 | One character upper-cased: an ASCII lower-case letter becomes its capital, anything else is kept (also line 71). |
| DocsUi.ToUpperInvariant | ApiVersioningDemo/Startup/Middleware.cs:41-42 | Upper-casing keeps the length and maps each character independently. |
| DocsUi.UpperHasNoLower | ApiVersioningDemo/Startup/Middleware.cs:41 | No lower-case letter is left after upper-casing. |
| DocsUi.UpperIdempotent | ApiVersioningDemo/Startup/Middleware.cs:41 | Upper-casing twice equals upper-casing once. |
| DocsUi.UpperChangesOnlyLowercase | ApiVersioningDemo/Startup/Middleware.cs:42 | A character changes if and only if it is a lower-case letter, which moves to its capital. |
| DocsUi.EndpointUrl | ApiVersioningDemo/Startup/Middleware.cs:38 | "/openApi/", the group name, ".json" (the same URL at line 68). |
| DocsUi.DisplayName | ApiVersioningDemo/Startup/Middleware.cs:40-42 | The upper-cased group name, with " (DEPRECATED)" for a deprecated version (the same name at lines 70-72). |
| DocsUi.SwaggerEndpoints | ApiVersioningDemo/Startup/Middleware.cs:36-46 | The Swagger UI entries of the descriptions in descending group-name order. |
| DocsUi.ScalarDocuments | ApiVersioningDemo/Startup/Middleware.cs:66-75 | The Scalar documents of the descriptions in descending group-name order. |
| DocsUi.Endpoints | ApiVersioningDemo/Startup/Middleware.cs:38-45 | One Swagger endpoint per description, at the same position, with its URL and display name. |
| DocsUi.ScalarDocs | ApiVersioningDemo/Startup/Middleware.cs:68-74 | One Scalar document per description, at the same position, under "Keyed Services Demo", titled by its display name and routed to its URL. |
| DocsUi.ReplaceAfterPlainPrefix | ApiVersioningDemo/Startup/Middleware.cs:19 | Substituting the route template's placeholder replaces it in place and keeps the text around it. |
| DocsUi.TemplateParts | ApiVersioningDemo/Startup/Middleware.cs:19 | The route template is "openApi/", the document-name placeholder and ".json". |
| DocsUi.UrlParts | ApiVersioningDemo/Startup/Middleware.cs:38 | An endpoint URL is "/", "openApi/", the group name and ".json". |
| DocsUi.UrlMatchesRouteTemplate | ApiVersioningDemo/Startup/Middleware.cs:19-38 | Every endpoint URL is exactly the route at which the Swagger middleware serves that group's document. |
| DocsUi.UrlDeterminesGroupName | ApiVersioningDemo/Startup/Middleware.cs:68 | The group name is recovered from the URL between its prefix and suffix. |
| DocsUi.UrlInjective | ApiVersioningDemo/Startup/Middleware.cs:38 | Different group names get different URLs. |
| DocsUi.DisplayNameShape | ApiVersioningDemo/Startup/Middleware.cs:40-42 | The name is the upper-cased group name. " (DEPRECATED)" follows if and only if the version is deprecated. |
| DocsUi.OneEntryPerDescription | ApiVersioningDemo/Startup/Middleware.cs:36-46 | Each UI gets exactly one entry per description. |
| DocsUi.SwaggerAndScalarAgree | ApiVersioningDemo/Startup/Middleware.cs:66-75 | The Scalar list duplicates the Swagger list: same URLs and names, position by position. |
| DocsUi.EntriesByDescendingGroupName | ApiVersioningDemo/Startup/Middleware.cs:36 | The entries are those of the descriptions in descending string order of group name, a permutation of the input. |
| DocsUi.StringOrderNotVersionOrder | ApiVersioningDemo/Startup/Middleware.cs:66 | For "v10" and "v2", the UIs list "v2" first while the documents list "v10" first. |
| DocsUi.SwaggerUIOptions.SwaggerEndpoint | ApiVersioningDemo/Startup/Middleware.cs:45 | Adding an endpoint appends exactly that URL and name. |
| DocsUi.ScalarOptions.AddDocument | ApiVersioningDemo/Startup/Middleware.cs:74 | Adding a document appends exactly that name, title and route. |
| DocsUi.ConfigureSwaggerUI | ApiVersioningDemo/Startup/Middleware.cs:36-46 | The endpoints afterwards are the earlier ones followed by one per description, in descending group-name order. |
| DocsUi.ConfigureScalar | ApiVersioningDemo/Startup/Middleware.cs:66-75 | The documents afterwards are the earlier ones followed by one per description, in descending group-name order. |
| DocsUi.EndpointsStep | ApiVersioningDemo/Startup/Middleware.cs:45 | One Swagger loop iteration extends the endpoints of the visited prefix by the next one. |
| DocsUi.ScalarDocsStep | ApiVersioningDemo/Startup/Middleware.cs:74 | One Scalar loop iteration extends the documents of the visited prefix by the next one. |
| Validation.RemainderByTwo | ApiVersioningDemo/Attributes/EvenNumberAttribute.cs:10 | C#'s `% 2` is 0 or 1 for non-negative numbers and 0 or -1 for negative ones, and it differs from the number by a multiple of two. |
| Validation.RemainderZeroIffEven | ApiVersioningDemo/Attributes/EvenNumberAttribute.cs:10 | The truncated remainder is zero if and only if the number is even, negatives included. |
| Validation.EvenNumberAttribute.IsValid | ApiVersioningDemo/Attributes/EvenNumberAttribute.cs:6-16 | Success if and only if the value is an even `int`. An odd `int` gets the custom message or the even-number template. Anything else, null included, gets the custom message or the valid-integer template. |
| Validation.EvenNumberAttribute.IsValidFormatted | ApiVersioningDemo/Attributes/EvenNumberAttribute.cs:12-15 | The corrected rule: the same outcome, with the message's placeholder filled with the member's name. |
| Validation.ExactlyOneOutcome | ApiVersioningDemo/Attributes/EvenNumberAttribute.cs:8-15 | Without a custom message, each value gets exactly one of three outcomes. The two messages differ, so an odd integer and a non-integer are told apart. |
| Validation.CustomMessageOverrides | ApiVersioningDemo/Attributes/EvenNumberAttribute.cs:12-15 | A custom message is the message of both kinds of failure. |
| Validation.NegativeNumbers | ApiVersioningDemo/Attributes/EvenNumberAttribute.cs:10 | -4 and the smallest `int` are accepted; -3 is rejected as odd. |
| Validation.MessageParts | ApiVersioningDemo/Attributes/EvenNumberAttribute.cs:12-15 | The text around the placeholder in both default messages has no brace. |
| Validation.UnformattedPlaceholder | ApiVersioningDemo/Attributes/EvenNumberAttribute.cs:12 | As written, the message for 3 still holds the literal placeholder "{0}". |
| Validation.FormatPlain | ApiVersioningDemo/Attributes/EvenNumberAttribute.cs:12 | Formatting text without braces leaves it unchanged. |
| Validation.FormatOne | ApiVersioningDemo/Attributes/EvenNumberAttribute.cs:12-15 | Formatting a template with one placeholder puts the argument in its place. |
| Validation.FormattedOddMessage | ApiVersioningDemo/Attributes/EvenNumberAttribute.cs:10-12 | Corrected, the message for every odd `int` reads "The <name> must be an even number." |
| Validation.FormattedNonIntegerMessage | ApiVersioningDemo/Attributes/EvenNumberAttribute.cs:8-15 | Corrected, the message for every value that is not an `int`, null included, reads "The <name> must be a valid integer." |

## Left out

- The API-versioning library is an input, not part of the model. Version discovery, request version resolution, keyed-service registration and resolution, controllers, minimal endpoints and the problem-details configuration are not modelled. `ApiVersionDescription` values are inputs.
- `ApiVersion.ToString()` is library code. The model carries the version's numbers for ordering and its string form as a given `text`. Group-version dates and status are not part of the model's `ApiVersion`.
- `Ordering.OrderByDescending`: group names are compared ordinally, by character code. .NET's default string comparer is culture-aware; for the usual ASCII group names such as "v1" and "v2", the two give the same order.
- `DocsUi.ToUpperInvariant`: only ASCII letters are mapped to upper case. The invariant culture also maps non-ASCII letters.
- `DateTimeOffset.Date.ToShortDateString()` depends on the current culture. The model takes the rendered date string as given.
- `SwaggerDocs.NewLine`: `StringBuilder.AppendLine()` writes `Environment.NewLine`. The model uses "\n", the value on Linux; on Windows it is "\r\n".
- `SwaggerDocs.SwaggerGenOptions.SwaggerDoc`: the options keep a dictionary keyed by document name, which rejects a duplicate name with an exception. The model keeps a sequence, so two descriptions with the same group name are not rejected.
- The Swagger UI settings (try-it-out, request duration, doc expansion, model rendering) are not modelled. Neither are the Scalar settings (sidebar, tag sorter, layout, theme, title, buttons, favicon, default client), `MapOpenApi`, exception handling, status code pages, HTTPS redirection and controller mapping. None of them affect the per-version entries.
- The `IsDevelopment` guard is not modelled. The model describes the development configuration, where the UIs are set up.
- `Validation.Format`: only the `{0}` placeholder is substituted. Other brace syntax of `string.Format`, and the exceptions it throws on malformed templates, are not modelled.
- `ValidationContext` is not modelled; the corrected rule takes the member's display name directly.
- `SwaggerDocs.ConfigureSwaggerOptions.CreateInfoForApiVersion`: the source builds the text in one method. The model splits that work into `AppendSunset`, `AppendDate`, `AppendLinksPart`, `AppendLinks` and `AppendItem`, each appending to an immutable string rather than mutating a shared `StringBuilder`.

## Findings

| source | as written | input that shows it | evidently intended | confidence | as-written member | corrected member |
|---|---|---|---|---|---|---|
| ApiVersioningDemo/Attributes/EvenNumberAttribute.cs:12-15 | The error message is built from the template without formatting it, so "{0}" is returned literally instead of the member's name. | The odd `int` 3 with no custom `ErrorMessage` yields "The {0} must be an even number." | Format the message with the member's display name (as `FormatErrorMessage` does): "The <name> must be an even number." for every odd `int`, and likewise "The <name> must be a valid integer." for every non-`int` value (`Validation.FormattedNonIntegerMessage`). | medium; not executed | Validation.UnformattedPlaceholder | Validation.FormattedOddMessage |
