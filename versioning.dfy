/**
 * The values the API-versioning library hands to the application: one
 * description per API version the explorer discovered, with its optional
 * sunset policy. The library computes them; here they are plain inputs.
 */
module Versioning {
  import opened Wrappers

  /**
   * An API version: the numeric parts the library orders by, and its
   * string form (`ApiVersion.ToString()`), which the library formats and
   * this model takes as given.
   */
  datatype ApiVersion = ApiVersion(major: nat, minor: nat, text: string)

  /**
   * One link of a sunset policy. `mediaType` and `title` are nullable
   * segments in the library; `target` is the link URI as originally written.
   */
  datatype Link = Link(mediaType: Option<string>, target: string, title: Option<string>)

  /** A sunset policy: an optional date (already rendered as a short date string) and links in order. */
  datatype SunsetPolicy = SunsetPolicy(date: Option<string>, links: seq<Link>)

  /** `ApiVersionDescription`: what the explorer reports for one API version. */
  datatype ApiVersionDescription = ApiVersionDescription(
    apiVersion: ApiVersion,
    groupName: string,
    isDeprecated: bool,
    sunsetPolicy: Option<SunsetPolicy>)
}
