# IndexNower, modelled in Dafny

IndexNower is a small web application that tracks the URLs of one or more
sites and submits them to the IndexNow protocol so search engines re-crawl
them. This project models its URL lifecycle and proves properties of that model:

- **The reconciler.** When a list of URLs is loaded, each page is fetched and
  fingerprinted. The fingerprint is compared with the stored entry and the URL
  becomes `pending`, `submitted`, `changed` or stays in `error`. Its companion
  steps are marking URLs submitted, removing one URL and clearing a site.
- **The document store.** One `AppData` document holds every site and the
  active-site id. Each operation reads it, changes it and writes it back.
- **The batch submitter.** The URL list is cut into consecutive requests of at
  most 10,000 URLs. They are sent one by one, and the run stops at the first
  failure with a count of what was accepted before it.
- **Manual URL entry and the submit panel.** Pasted text becomes trimmed
  http/https URLs. The panel submits the pending and changed entries and marks
  them submitted only when the whole run succeeds.
- **The API server's decisions.** These are the CORS allow-list and origin
  check, the validation and reply mapping of the submission proxy, and the
  reply mapping of the content proxy.

Files:

| file | contents |
|---|---|
| `types.dfy` | the records: `Status`, `UrlEntry`, `SiteSettings`, `Site`, `AppData`; JavaScript truthiness of optional strings |
| `text.dfy` | `split` on one character and `trim`, with their properties |
| `seqs.dfy` | `filter` and a fused filter-and-map, with their properties |
| `storage.dfy` | the document store as a class `Store` whose field `doc` is the document |
| `indexnow.dfy` | `apiUrl`, the batch submitter (a loop against a reply oracle), `fetchPageContent` |
| `sitemap.dfy` | manual URL extraction (a loop) |
| `submit_panel.dfy` | the selection rule and the submit button's handler |
| `app.dfy` | the reconciler specification and the application's handlers as a class `Application` |
| `server.dfy` | the server's CORS and route decisions |

The key ordering of JavaScript objects matters in one place: `deleteSite`
moves the active-site id to the first remaining key. So the document carries the
site keys twice: as a map, and as a sequence `order` that lists the keys in
insertion order. `WellFormed` ties the two together, and every store
operation keeps it.

When fetched content matches the stored fingerprint, the reconciler gives
`submitted` only if the entry was submitted, and `pending` otherwise
(`src/App.tsx:41,48-53`). So a `changed` or `error` entry whose content is
fetched again unchanged becomes `pending` (`App.ReconcileAgain`). An `error` status is
never produced, only carried over when nothing could be fetched
(`App.ErrorIsOnlyCarried`).

A URL listed twice is reconciled twice against the same stored snapshot
and written twice, and the second write merges over the first. So the view
and the store can disagree for it: the view shows each reconciled entry,
while the store keeps a fingerprint of the first write that the second
write's empty one does not overwrite (`App.DuplicateUrlKeepsEarlierFingerprint`).
For distinct URLs they agree (`App.ReconciledStoreAgrees`).

Outside interactions become parameters:

- the fingerprint function (`hash`);
- the URL parser's protocol (`protocolOf`);
- generated site ids;
- the clock (`now`);
- the replies to network requests: `respond(k, payload)` for the k-th submission
  request, one reply per URL for content fetches, and the upstream reply for
  each proxy route.

## Model

| member | source | states |
|---|---|---|
| Types.OrNull | src/App.tsx:63 | `x \|\| null`: a truthy string is kept; null, undefined and "" all become null |
| Text.Split | src/lib/sitemap.ts:15 | there is always at least one piece, and no piece contains the separator |
| Text.JoinSplit | src/lib/sitemap.ts:15 | splitting loses nothing: joining the pieces with the separator gives the text back |
| Text.SplitCount | src/lib/sitemap.ts:15 | there are exactly as many pieces as separators plus one |
| Text.Trim | src/lib/sitemap.ts:19 | the result is a contiguous slice of the input, has no whitespace at either end, everything cut off is whitespace, and it is empty exactly when the input is all whitespace |
| Text.TrimOfTrimmed | src/lib/sitemap.ts:19 | a string without whitespace at its ends is left as it is |
| Text.TrimIdempotent | src/lib/sitemap.ts:19 | trimming twice is trimming once |
| Seqs.Filter | src/components/SubmitPanel.tsx:19 | keeps exactly the elements that pass, takes nothing that is not in the input, and keeps everything or nothing when all elements pass or all fail |
| Seqs.FilterAppend | src/components/SubmitPanel.tsx:19 | filtering a concatenation filters each part in turn, so order is kept |
| Seqs.FilterMap | src/lib/sitemap.ts:18-23 | no longer than the input; nothing is kept when the function gives nothing |
| Seqs.FilterMapKeeps | src/lib/sitemap.ts:18-23 | every value the function gives for an input element is kept |
| Seqs.FilterMapAppend | src/lib/sitemap.ts:18-23 | works block by block, so order is kept and a value kept twice appears twice |
| Seqs.FilterMapOrigin | src/lib/sitemap.ts:18-23 | every kept value is what the function gives to some input element |
| Sitemap.IsValidUrl | src/lib/sitemap.ts:28-34 | a string is valid exactly when the URL parser accepts it and reports the `http:` or `https:` protocol |
| Sitemap.Pick | src/lib/sitemap.ts:19-21 | a line is kept as its trimmed form, which is then non-empty, trimmed and a valid http/https URL; otherwise its trimmed form is empty or not a valid URL |
| Sitemap.PickedLines | src/lib/sitemap.ts:18-23 | of a list of lines, every picked URL is non-empty, trimmed and valid, and every line whose trimmed form is a non-empty valid URL is picked |
| Sitemap.ExtractUrlsFromText | src/lib/sitemap.ts:14-26 | the loop's result is the kept trimmed lines of the text split on `\n`, in order; there are at most as many as lines, each is non-empty, trimmed and valid, every line that trims to a valid URL contributes it, and empty text gives none |
| Storage.FullPatch | src/App.tsx:68 | a whole entry handed to `updateUrlEntry` supplies every field |
| Storage.MergeUrlEntry | src/lib/storage.ts:111-118 | field by field: a truthy patch hash, status or lastModified wins, otherwise the stored value, otherwise "", pending or absent; lastSubmitted falls back only when the patch's is null |
| Storage.MergeSettings | src/lib/storage.ts:130 | a supplied settings field overwrites, even when it is "", and the others are kept |
| Storage.ApplySiteUpdates | src/lib/storage.ts:83-87 | supplied fields overwrite, id and createdAt are kept, and updatedAt becomes now |
| Storage.NewSite | src/lib/storage.ts:61-68 | a new site has the given id and name, all-empty settings, no URLs, and createdAt == updatedAt |
| Storage.RemoveKey | src/lib/storage.ts:95 | removes exactly the deleted key from the key order, keeps the others without duplicates, and leaves an absent key's order as it is |
| Storage.RemoveKeyIsFilter | src/lib/storage.ts:95-99 | deleting a key is filtering it out of the key order, so the remaining keys keep their insertion order and the first of them is the first key that is not the deleted one |
| Storage.WithUrlEntry | src/lib/storage.ts:105-122 | a missing site leaves the document as it is; otherwise only that URL of that site changes, to the merge, and only that site's updatedAt moves; the document stays well formed |
| Storage.Cleared | src/lib/storage.ts:145-154 | a missing site leaves the document as it is; otherwise the site has no entries, keeps its id, name, settings and createdAt, and nothing else changes |
| Storage.Store.constructor | src/lib/storage.ts:24 | the document read when nothing is stored: no sites, null active-site id |
| Storage.Store.GetActiveSite | src/lib/storage.ts:35-41 | null when the active-site id is null, empty or names a missing site; the named site otherwise |
| Storage.Store.SetActiveSite | src/lib/storage.ts:43-49 | the active-site id moves only onto a stored site; otherwise the document is unchanged |
| Storage.Store.CreateSite | src/lib/storage.ts:56-75 | adds the new site under its id (an id collision overwrites), makes it active and leaves every other site untouched |
| Storage.Store.UpdateSite | src/lib/storage.ts:77-91 | a missing site gives null without a write; otherwise the merged site is stored and returned |
| Storage.Store.DeleteSite | src/lib/storage.ts:93-103 | removes the site; the key order becomes the old order with that key filtered out; an active deleted site moves the active-site id to the first remaining key in that order, or to null; otherwise the active-site id is unchanged |
| Storage.Store.UpdateUrlEntry | src/lib/storage.ts:105-122 | the document becomes `WithUrlEntry` of the old one |
| Storage.Store.UpdateSiteSettings | src/lib/storage.ts:124-133 | a missing site is a no-op; otherwise only that site's settings (shallow merge) and updatedAt change |
| Storage.Store.GetSiteSettings | src/lib/storage.ts:135-138 | the stored settings, or all-empty settings for a missing site |
| Storage.Store.GetSiteUrlEntries | src/lib/storage.ts:140-143 | the stored entries, or none for a missing site |
| Storage.Store.ClearSiteHistory | src/lib/storage.ts:145-154 | the document becomes `Cleared` of the old one |
| IndexNow.AcceptedIsOk | src/lib/indexnow.ts:56 | the explicit 200 and 202 tests add nothing: a reply is accepted exactly when it is ok |
| IndexNow.ApiUrl | src/lib/indexnow.ts:5-10 | with no base the path is used as is; for a path with a leading `/`, the result is the base with exactly one trailing `/` removed, if it has one, followed by the path; for any path, the result ends with the path and has a `/` before a path that lacked one (with `ApiUrlLeadingSlash`, every case is fixed) |
| IndexNow.ApiUrlTrailingSlash | src/lib/indexnow.ts:7 | one trailing slash on the base makes no difference |
| IndexNow.ApiUrlLeadingSlash | src/lib/indexnow.ts:8 | a missing leading slash on the path makes no difference |
| IndexNow.KeyLocation | src/lib/indexnow.ts:43 | the configured key location, or `https://{host}/{apiKey}.txt` when it is empty |
| IndexNow.NumBatchesBound | src/lib/indexnow.ts:37 | request k exists exactly when k * 10000 is below the number of URLs |
| IndexNow.NumBatchesCeiling | src/lib/indexnow.ts:37 | n URLs take ceil(n / 10000) requests |
| IndexNow.Batch | src/lib/indexnow.ts:38 | every request carries 1 to 10,000 URLs, and every request but the last carries exactly 10,000 |
| IndexNow.PayloadFor | src/lib/indexnow.ts:40-45 | every request carries the host, the key, the key location and its slice |
| IndexNow.SubmitToIndexNow | src/lib/indexnow.ts:18-80 | checks api key, then host, then a non-empty list, sending nothing on failure; sends the k-th slice as request k; succeeds exactly when all ceil(n/10000) requests are accepted, with count n; otherwise stops right after the first reply that is not accepted, with its message and the count of the earlier slices; the count never exceeds n |
| IndexNow.SubmitBatches | src/lib/indexnow.ts:34-79 | the sending loop: request k is the k-th slice, each earlier request was accepted, success means every request was sent and the last accepted, and a failed run stops at a rejected reply and counts k * 10000 URLs when it stops at request k |
| IndexNow.NextBatch | src/lib/indexnow.ts:37-38 | the slice the loop cuts at i = k * 10000 is the k-th batch, and another follows exactly when it ends before the list |
| IndexNow.CarriedBatches | src/lib/indexnow.ts:34-38 | the first m requests carry exactly the first min(m * 10000, n) URLs, in order, with no gap |
| IndexNow.FailedRunCount | src/lib/indexnow.ts:57-64 | a run that stops at request k reports exactly k * 10000 URLs submitted |
| IndexNow.TwentyFiveThousandUrls | src/lib/indexnow.ts:34-38 | 25,000 URLs go out as three requests of 10,000, 10,000 and 5,000 URLs, in order |
| IndexNow.FetchPageContent | src/lib/indexnow.ts:82-92 | the body of an ok reply; null for any other status or a thrown error |
| SubmitPanel.UrlsToSubmit | src/components/SubmitPanel.tsx:19 | exactly the pending and changed entries, taken from the list; none when every entry is submitted or in error |
| SubmitPanel.UrlsToSubmitAppend | src/components/SubmitPanel.tsx:19 | selection keeps list order |
| SubmitPanel.Urls | src/components/SubmitPanel.tsx:32 | the URLs of the entries, one per entry, in order |
| SubmitPanel.HandleSubmit | src/components/SubmitPanel.tsx:21-41 | without api key or host: failure shown, nothing sent, no completion; otherwise the selected URLs are submitted, and the completion callback is called, with exactly them, if and only if the selection is non-empty and every one of its requests was sent and accepted; a failure stops at the first rejected reply, every earlier one accepted, and shows that reply's message |
| App.Reconcile | src/App.tsx:41-66 | fetched content: the fingerprint is the content's; `changed` iff a non-empty stored fingerprint differs; a match keeps only `submitted`; otherwise `pending`. Nothing fetched: stored fingerprint and status carried over, or `pending` with "". Timestamps come from the stored entry |
| App.ErrorIsOnlyCarried | src/App.tsx:41-58 | the result is `error` exactly when nothing was fetched and the stored entry was in error |
| App.ChangedNeedsNewContent | src/App.tsx:49-58 | `changed` comes only from a differing non-empty stored fingerprint, or is carried over when nothing was fetched |
| App.ReconcileAgain | src/App.tsx:48-53 | reconciling again with the same content changes nothing except that `changed` becomes `pending`; a submitted unchanged URL stays submitted |
| App.StoredMatchesShown | src/App.tsx:60-68 | writing a reconciled entry back stores it as shown, except that the stored lastSubmitted is kept exactly |
| App.ReconcileAll | src/App.tsx:35-69 | one entry per input URL, in input order, the i-th reconciled from the i-th reply against the entries stored before the loop |
| App.WriteEntries | src/App.tsx:68 | writing entries one by one touches only the given site and keeps the site keys, order and active-site id |
| App.WriteEntriesWellFormed | src/App.tsx:68 | writing entries one by one keeps the document well formed |
| App.WriteEntriesDistinct | src/App.tsx:38-69 | with distinct URLs, each written URL holds its entry merged over what was stored, and every other URL keeps its entry |
| App.DuplicateUrlKeepsEarlierFingerprint | src/App.tsx:35-69 | for a URL not stored before and listed twice, whose first fetch gives content and whose second fails, shows an empty fingerprint in the view while the store keeps the first fingerprint |
| App.ReconciledStoreAgrees | src/App.tsx:35-69 | after reconciling distinct URLs and writing them back, the store holds under each URL the entry the view shows, with the previously stored lastSubmitted |
| App.MarkEntry | src/App.tsx:99-108 | a submitted URL's entry becomes `submitted` with lastSubmitted = now; any other is unchanged |
| App.Marked | src/App.tsx:97-110 | the entries written back are all submitted URLs, now `submitted` at now |
| App.MarkAll | src/App.tsx:97-110 | the view after marking: one entry per listed entry, each marked on its own |
| App.MarkedIsFilter | src/App.tsx:97-109 | the entries written back are exactly the new view's entries whose URL was submitted, in view order |
| App.MarkedFacts | src/App.tsx:97-109 | only listed URLs are written, none twice when the list has no duplicate URL, and every listed submitted entry is written in its marked form |
| App.WriteEntriesSubmitted | src/App.tsx:99-105 | writing entries that are all `submitted` at now leaves every written URL stored as `submitted` at now, even a URL written twice |
| App.WriteEntriesFrame | src/App.tsx:68 | writing entries leaves every stored URL that none of them names as it was |
| App.MarkedStoreAgrees | src/App.tsx:97-109 | afterwards the store holds every listed submitted URL as `submitted` with lastSubmitted = now, also when the view lists a URL more than once |
| App.MarkedStoreKeepsOthers | src/App.tsx:97-109 | every stored URL that is not both listed and submitted keeps its entry, for any view |
| App.NothingLeftToSubmit | src/App.tsx:97-110 | marking the URLs the panel selected leaves nothing for the panel to select in the view |
| App.WithoutUrl | src/App.tsx:84-89 | a missing site leaves the document as it is; otherwise only that URL is gone from that site, updatedAt is not touched, and the document stays well formed |
| App.Application.constructor | src/App.tsx:14-15 | the view starts on the store's active site with no entries listed |
| App.Application.HandleUrlsLoaded | src/App.tsx:31-74 | no active site: nothing changes; otherwise one entry per input URL, duplicates included, in input order, each reconciled against the entries read once before the loop (`ReconcileAll`), each written to the store under its URL in turn, and the list shown |
| App.Application.HandleClear | src/App.tsx:76-80 | no active site: nothing changes; otherwise the site is cleared in the store and the view emptied |
| App.Application.HandleRemove | src/App.tsx:82-91 | no active site: nothing changes; otherwise only that URL is deleted from the site in the store, and the view drops every entry for it even when the site is gone |
| App.Application.HandleSubmitComplete | src/App.tsx:93-111 | no active site: nothing changes; otherwise the view becomes `MarkAll` of the listed entries, and the marked ones are written back to the store in list order |
| Server.OriginPiece | server/index.ts:10-11 | a piece of the setting contributes its trimmed form when that is non-empty, and nothing otherwise |
| Server.CorsSetting | server/index.ts:8 | an unset or empty setting reads as "" |
| Server.CorsOrigins | server/index.ts:8-11 | every origin is non-empty and trimmed, every non-blank comma-separated piece contributes its trimmed form, every origin is the trimmed form of some piece, there are no more origins than pieces, and an unset setting gives none |
| Server.CorsOriginsFromSetting | server/index.ts:9-11 | every kept origin is the trimmed form of a piece of the setting |
| Server.CorsOriginsFacts | server/index.ts:9-11 | the kept pieces are non-empty and trimmed, and every non-blank piece is kept |
| Server.BlankSettingAllowsAll | server/index.ts:8-17 | a setting made only of blank pieces gives an empty allow-list |
| Server.CorsCheck | server/index.ts:15-20 | allowed iff there is no origin, the allow-list is empty, or the origin is listed; otherwise refused with "CORS origin not allowed" |
| Server.ListedOriginAllowed | server/index.ts:8-18 | an origin written in the setting, with spaces around it, is allowed |
| Server.OnlyWrittenOriginsAllowed | server/index.ts:8-20 | with a non-empty allow-list, an allowed origin was written in the setting |
| Server.Forwarded | server/index.ts:114-130 | refused iff host or key is missing or empty or urlList is not an array; otherwise forwards host, key and the URL list, with the key location defaulting to `https://{host}/{key}.txt` |
| Server.SubmitRoute | server/index.ts:111-142 | a refused body gives 400 and nothing is sent; an accepted upstream reply gives 200 success; another status is proxied with its body as the error; a thrown error gives 500 |
| Server.AsBody | src/lib/indexnow.ts:53 | the client's request body carries all four fields |
| Server.ClientRequestForwardedUnchanged | server/index.ts:128 | every request the client submitter makes passes the proxy's checks and is forwarded exactly as sent |
| Server.ClientVerdictMatchesUpstream | server/index.ts:133-137 | the client accepts the proxy's reply exactly when the IndexNow reply was accepted |
| Server.FetchContentRoute | server/index.ts:144-169 | a missing url gives 400; an ok upstream gives 200 with its body; any other status is passed on with an empty body; a thrown error gives 500 with an empty body |
| Server.ContentThroughProxy | server/index.ts:159-165 | through the proxy, the client's content fetch sees what a direct fetch would |

## Left out

- Network I/O. This covers `fetch`, Express routing, `app.listen`, the `cors` middleware wiring and `express.json` body parsing. Every reply is a parameter.
- `parseSitemap` and the `/api/sitemap` route with its xml2js flattening are not modelled. Their result order depends on callbacks inside the XML library.
- MD5 is not modelled. The fingerprint is a parameter returning a 32-character string, so it is never empty.
- The WHATWG URL parser is not modelled. `isValidUrl` takes the protocol the parser reports as a parameter.
- localStorage and JSON (de)serialisation are not modelled, nor the try/catch around them. The document is a field.
- `generateId` and `new Date().toISOString()` are not modelled; ids and `now` are parameters.
- `getAllSites`: the `localeCompare` sort by name uses a foreign collation and is not modelled.
- React rendering, and the effect that fills the view with `Object.values` of the stored entries, are not modelled. The per-site entry order is not tracked.
- `SiteSelector` is not modelled. Its post-delete choice of active site is by name order and may differ from the store's first-key choice.
- Storage.Store.DeleteSite: JavaScript enumerates integer-like keys first, in numeric order, and the model does not. `order` is plain insertion order.
- Storage.ApplySiteUpdates: an update field explicitly set to `undefined` overwrites in the source. The model treats it as absent.
- App.Application.HandleUrlsLoaded: uses one `now` for all writes in a call; the source reads the clock inside each `updateUrlEntry`. Overlapping async calls racing on the document are not modelled.
- App.Application.HandleSubmitComplete: uses one `now` both for `lastSubmitted` and for the `updatedAt` of each write; the source reads the clock once for the first and again inside each `updateUrlEntry`.
- App.Application.HandleUrlsLoaded: a URL that names a built-in object property (such as `__proto__`) is treated as absent. JavaScript object lookup would find the prototype's member.
- IndexNow.SubmitToIndexNow: result messages are structured values (`ApiError(status, text)`, `NetworkError(reason)`, `SubmittedAll(n)`), not the formatted strings.
- IndexNow.ApiUrl: the configured base URL comes from the build environment and is a parameter.
- IndexNow.FetchPageContent: builds no request URL; the URL encoding of the request is not modelled.
- Server.SubmitRoute: body fields that are not strings, and thrown values that are not `Error` objects, are not modelled. A thrown error's reason is its message.
- Server.FetchContentRoute: Express rejects out-of-range status codes, and that is not modelled.
