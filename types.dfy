/**
  The records of the IndexNow submitter: a URL entry with its status, the
  per-site settings, a site, and the application document that holds every
  site and the active-site id.
*/
module Types {

  /** A value that may be absent (`null` or `undefined` in the program). */
  datatype Option<T> = None | Some(value: T)

  /** The four states a tracked URL can be in. */
  datatype Status = Pending | Submitted | Changed | Error

  /** One tracked URL. `lastSubmitted` is a timestamp or null; `lastModified` is optional. */
  datatype UrlEntry = UrlEntry(
    url: string,
    contentHash: string,
    lastSubmitted: Option<string>,
    status: Status,
    lastModified: Option<string>)

  /** The IndexNow settings of one site. */
  datatype SiteSettings = SiteSettings(apiKey: string, keyLocation: string, host: string)

  /** Settings a new site starts with, and what is read for a missing site. */
  const DefaultSettings := SiteSettings("", "", "")

  datatype Site = Site(
    id: string,
    name: string,
    settings: SiteSettings,
    urls: map<string, UrlEntry>,
    createdAt: string,
    updatedAt: string)

  /**
    The whole persisted document. `order` lists the keys of `sites` in the order
    they were first inserted, which is the order in which the program enumerates
    the keys of its `sites` record.
  */
  datatype AppData = AppData(sites: map<string, Site>, order: seq<string>, activeSiteId: Option<string>)

  /** The document the program starts from when nothing is stored. */
  const EmptyAppData := AppData(map[], [], None)

  /** A content fingerprint: an MD5 digest written as 32 hexadecimal characters, hence never empty. */
  type Digest = s: string | |s| == 32 witness "00000000000000000000000000000000"

  /** JavaScript truthiness of an optional string: null, undefined and "" are falsy. */
  predicate Truthy(s: Option<string>)
  {
    s.Some? && s.value != ""
  }

  /** `x || null` for an optional string. */
  function OrNull(s: Option<string>): (r: Option<string>)
    ensures Truthy(s) ==> r == s
    ensures !Truthy(s) ==> r.None?
  {
    if Truthy(s) then s else None
  }
}
