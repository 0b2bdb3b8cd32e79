/**
  The URL lifecycle as the application drives it: reconciling a freshly
  loaded URL list against the stored entries, marking URLs submitted,
  removing one URL and clearing a site's history.
*/
module App {
  import opened Types
  import opened Seqs
  import opened Storage
  import opened IndexNow
  import opened SubmitPanel

  /**
    The entry the reconciler makes for `url`, given the stored entry
    `existing` and the fetched page content (null when the fetch failed).
    Fetched content is fingerprinted; the status is `changed` only when a
    non-empty stored fingerprint differs, stays `submitted` only when the
    fingerprint is the same, and is `pending` otherwise. Without content the
    stored fingerprint and status are carried over, or the entry starts
    pending with no fingerprint.
  */
  function Reconcile(existing: Option<UrlEntry>, url: string, content: Option<string>, hash: string -> Digest): (e: UrlEntry)
    ensures e.url == url
    ensures Truthy(content) ==> e.contentHash == hash(content.value)
    ensures Truthy(content) && (existing.None? || existing.value.contentHash == "") ==> e.status == Pending
    ensures (Truthy(content) && existing.Some? && existing.value.contentHash != ""
             && existing.value.contentHash != hash(content.value)) ==> e.status == Changed
    ensures Truthy(content) && existing.Some? && existing.value.contentHash == hash(content.value) ==>
      e.status == (if existing.value.status == Submitted then Submitted else Pending)
    ensures !Truthy(content) && existing.Some? ==>
      e.contentHash == existing.value.contentHash && e.status == existing.value.status
    ensures !Truthy(content) && existing.None? ==> e.contentHash == "" && e.status == Pending
    ensures e.lastSubmitted == (if existing.Some? then OrNull(existing.value.lastSubmitted) else None)
    ensures e.lastModified == (if existing.Some? then existing.value.lastModified else None)
  {
    var lastSubmitted := if existing.Some? then OrNull(existing.value.lastSubmitted) else None;
    var lastModified := if existing.Some? then existing.value.lastModified else None;
    if Truthy(content) then
      var h: string := hash(content.value);
      var status :=
        if existing.Some? && existing.value.contentHash != "" && existing.value.contentHash != h then Changed
        else if existing.Some? && existing.value.status == Submitted && existing.value.contentHash == h then Submitted
        else Pending;
      UrlEntry(url, h, lastSubmitted, status, lastModified)
    else if existing.Some? then
      UrlEntry(url, existing.value.contentHash, lastSubmitted, existing.value.status, lastModified)
    else
      UrlEntry(url, "", lastSubmitted, Pending, lastModified)
  }

  /** The reconciler never produces `error`: an entry is in error only when it was and nothing was fetched. */
  lemma ErrorIsOnlyCarried(existing: Option<UrlEntry>, url: string, content: Option<string>, hash: string -> Digest)
    ensures Reconcile(existing, url, content, hash).status == Error <==>
      !Truthy(content) && existing.Some? && existing.value.status == Error
  {
  }

  /** `changed` is produced only by a differing fingerprint, or carried over when nothing was fetched. */
  lemma ChangedNeedsNewContent(existing: Option<UrlEntry>, url: string, content: Option<string>, hash: string -> Digest)
    ensures Reconcile(existing, url, content, hash).status == Changed ==>
      || (Truthy(content) && existing.Some? && existing.value.contentHash != ""
          && existing.value.contentHash != hash(content.value))
      || (!Truthy(content) && existing.Some? && existing.value.status == Changed)
  {
  }

  /**
    Reconciling again with the same content changes nothing, except that a
    `changed` entry becomes `pending`: the stored fingerprint now matches,
    and only `submitted` survives a match. In particular a submitted URL
    whose content is unchanged stays submitted with the same fingerprint.
  */
  lemma ReconcileAgain(existing: Option<UrlEntry>, url: string, content: Option<string>, hash: string -> Digest)
    requires Truthy(content)
    ensures var first := Reconcile(existing, url, content, hash);
      Reconcile(Some(first), url, content, hash) == if first.status == Changed then first.(status := Pending) else first
  {
    var first := Reconcile(existing, url, content, hash);
    assert first.contentHash == hash(content.value) != "";
  }

  /**
    Writing a reconciled entry back through `updateUrlEntry` stores it as it
    is, except that the stored `lastSubmitted` is kept exactly (the entry
    itself turns an empty stored timestamp into null).
  */
  lemma StoredMatchesShown(existing: Option<UrlEntry>, url: string, content: Option<string>, hash: string -> Digest)
    ensures var e := Reconcile(existing, url, content, hash);
      MergeUrlEntry(existing, url, FullPatch(e))
        == e.(lastSubmitted := if existing.Some? then existing.value.lastSubmitted else None)
  {
  }

  /**
    The list the reconciler shows for `newUrls`: one entry per URL, in input
    order and duplicates included, each judged against the same stored
    entries; `responses[i]` is the reply to the content fetch for URL i.
  */
  function ReconcileAll(stored: map<string, UrlEntry>, newUrls: seq<string>, responses: seq<Response>, hash: string -> Digest)
    : (r: seq<UrlEntry>)
    requires |responses| == |newUrls|
    ensures |r| == |newUrls|
    ensures forall i :: 0 <= i < |newUrls| ==>
      r[i] == Reconcile(Lookup(stored, newUrls[i]), newUrls[i], FetchPageContent(responses[i]), hash)
    decreases |newUrls|
  {
    if |newUrls| == 0 then []
    else
      var n := |newUrls| - 1;
      ReconcileAll(stored, newUrls[..n], responses[..n], hash)
        + [Reconcile(Lookup(stored, newUrls[n]), newUrls[n], FetchPageContent(responses[n]), hash)]
  }

  lemma ReconcileAllStep(stored: map<string, UrlEntry>, newUrls: seq<string>, responses: seq<Response>, hash: string -> Digest, i: nat)
    requires |responses| == |newUrls| && i < |newUrls|
    ensures ReconcileAll(stored, newUrls[..i + 1], responses[..i + 1], hash)
      == ReconcileAll(stored, newUrls[..i], responses[..i], hash)
         + [Reconcile(Lookup(stored, newUrls[i]), newUrls[i], FetchPageContent(responses[i]), hash)]
  {
    assert newUrls[..i + 1][..i] == newUrls[..i];
    assert responses[..i + 1][..i] == responses[..i];
  }

  /** The document after writing `entries` one after the other through `updateUrlEntry`, each under its own URL. */
  function WriteEntries(d: AppData, siteId: string, entries: seq<UrlEntry>, now: string): (r: AppData)
    ensures siteId !in d.sites ==> r == d
    ensures r.order == d.order && r.activeSiteId == d.activeSiteId && r.sites.Keys == d.sites.Keys
    ensures forall k :: k in d.sites && k != siteId ==> r.sites[k] == d.sites[k]
    decreases |entries|
  {
    if |entries| == 0 then d
    else
      var last := entries[|entries| - 1];
      WithUrlEntry(WriteEntries(d, siteId, entries[..|entries| - 1], now), siteId, last.url, FullPatch(last), now)
  }

  /** Writing entries keeps the document well formed. */
  lemma {:induction false} WriteEntriesWellFormed(d: AppData, siteId: string, entries: seq<UrlEntry>, now: string)
    requires WellFormed(d)
    ensures WellFormed(WriteEntries(d, siteId, entries, now))
    decreases |entries|
  {
    if |entries| > 0 {
      WriteEntriesWellFormed(d, siteId, entries[..|entries| - 1], now);
    }
  }

  lemma WriteEntriesSnoc(d: AppData, siteId: string, entries: seq<UrlEntry>, e: UrlEntry, now: string)
    ensures WriteEntries(d, siteId, entries + [e], now)
      == WithUrlEntry(WriteEntries(d, siteId, entries, now), siteId, e.url, FullPatch(e), now)
  {
    assert (entries + [e])[..|entries|] == entries;
  }

  /** `u` is stored in `urls` as `submitted` at `now`. */
  predicate StoredAsSubmitted(urls: map<string, UrlEntry>, u: string, now: string)
  {
    u in urls && urls[u].status == Submitted && urls[u].lastSubmitted == Some(now)
  }

  /** Writing one entry that is `submitted` at `now` keeps the URLs already stored so and adds its own. */
  lemma WriteSubmittedEntry(d: AppData, siteId: string, e: UrlEntry, now: string, us: seq<string>)
    requires siteId in d.sites
    requires e.status == Submitted && e.lastSubmitted == Some(now)
    requires forall u :: u in us ==> StoredAsSubmitted(d.sites[siteId].urls, u, now)
    ensures forall u :: u in us + [e.url] ==>
      StoredAsSubmitted(WithUrlEntry(d, siteId, e.url, FullPatch(e), now).sites[siteId].urls, u, now)
  {
  }

  /**
    Writing entries that are all `submitted` at `now` leaves every written
    URL stored as `submitted` at `now`, even when a URL is written twice.
  */
  lemma {:induction false} WriteEntriesSubmitted(d: AppData, siteId: string, entries: seq<UrlEntry>, now: string)
    requires siteId in d.sites
    requires forall j :: 0 <= j < |entries| ==> entries[j].status == Submitted && entries[j].lastSubmitted == Some(now)
    ensures forall u :: u in Urls(entries) ==>
      StoredAsSubmitted(WriteEntries(d, siteId, entries, now).sites[siteId].urls, u, now)
    decreases |entries|
  {
    if |entries| > 0 {
      var n := |entries| - 1;
      var init := entries[..n];
      WriteEntriesSubmitted(d, siteId, init, now);
      assert Urls(entries) == Urls(init) + [entries[n].url];
      WriteSubmittedEntry(WriteEntries(d, siteId, init, now), siteId, entries[n], now, Urls(init));
    }
  }

  /** Writing entries leaves every stored URL that none of them names as it was. */
  lemma {:induction false} WriteEntriesFrame(d: AppData, siteId: string, entries: seq<UrlEntry>, now: string)
    requires siteId in d.sites
    ensures var before := d.sites[siteId].urls;
      var after := WriteEntries(d, siteId, entries, now).sites[siteId].urls;
      forall u :: u in before && u !in Urls(entries) ==> u in after && after[u] == before[u]
    decreases |entries|
  {
    if |entries| > 0 {
      var n := |entries| - 1;
      WriteEntriesFrame(d, siteId, entries[..n], now);
      assert Urls(entries) == Urls(entries[..n]) + [entries[n].url];
    }
  }

  /**
    Writing entries with distinct URLs: the site ends up with the URLs it had
    plus the written ones; each written URL holds the merge of its entry over
    what was stored under it before, and every other URL keeps its entry.
  */
  lemma {:induction false} WriteEntriesDistinct(d: AppData, siteId: string, entries: seq<UrlEntry>, now: string)
    requires siteId in d.sites
    requires NoDuplicates(Urls(entries))
    ensures var after := WriteEntries(d, siteId, entries, now).sites[siteId].urls;
      var before := d.sites[siteId].urls;
      && (forall u :: u in after <==> u in before || u in Urls(entries))
      && (forall i :: 0 <= i < |entries| ==>
            after[entries[i].url] == MergeUrlEntry(Lookup(before, entries[i].url), entries[i].url, FullPatch(entries[i])))
      && (forall u :: u in before && u !in Urls(entries) ==> after[u] == before[u])
    decreases |entries|
  {
    if |entries| > 0 {
      var n := |entries| - 1;
      var init := entries[..n];
      var last := entries[n];
      assert Urls(init) == Urls(entries)[..n];
      assert Urls(entries) == Urls(init) + [last.url];
      WriteEntriesDistinct(d, siteId, init, now);
      var before := d.sites[siteId].urls;
      var mid := WriteEntries(d, siteId, init, now).sites[siteId].urls;
      var after := WriteEntries(d, siteId, entries, now).sites[siteId].urls;
      assert after == WithUrlEntry(WriteEntries(d, siteId, init, now), siteId, last.url, FullPatch(last), now).sites[siteId].urls;
      assert last.url !in Urls(init);
      assert Lookup(mid, last.url) == Lookup(before, last.url);
      forall i | 0 <= i < n
        ensures after[entries[i].url] == MergeUrlEntry(Lookup(before, entries[i].url), entries[i].url, FullPatch(entries[i]))
      {
        assert Urls(entries)[i] != Urls(entries)[n];
        assert entries[i].url in Urls(init) by {
          assert Urls(init)[i] == entries[i].url;
        }
      }
    }
  }

  /**
    After reconciling distinct URLs, the store holds under each URL the
    entry the view shows, with the stored `lastSubmitted` kept.
  */
  lemma ReconciledStoreAgrees(
    d: AppData, siteId: string, newUrls: seq<string>, responses: seq<Response>, hash: string -> Digest, now: string)
    requires siteId in d.sites
    requires NoDuplicates(newUrls)
    requires |responses| == |newUrls|
    ensures var shown := ReconcileAll(d.sites[siteId].urls, newUrls, responses, hash);
      var after := WriteEntries(d, siteId, shown, now).sites[siteId].urls;
      forall i :: 0 <= i < |newUrls| ==>
        var existing := Lookup(d.sites[siteId].urls, newUrls[i]);
        newUrls[i] in after
        && after[newUrls[i]] == shown[i].(lastSubmitted := if existing.Some? then existing.value.lastSubmitted else None)
  {
    var stored := d.sites[siteId].urls;
    var shown := ReconcileAll(stored, newUrls, responses, hash);
    assert Urls(shown) == newUrls;
    WriteEntriesDistinct(d, siteId, shown, now);
    forall i | 0 <= i < |newUrls|
      ensures MergeUrlEntry(Lookup(stored, newUrls[i]), newUrls[i], FullPatch(shown[i]))
        == shown[i].(lastSubmitted :=
             var existing := Lookup(stored, newUrls[i]);
             if existing.Some? then existing.value.lastSubmitted else None)
    {
      StoredMatchesShown(Lookup(stored, newUrls[i]), newUrls[i], FetchPageContent(responses[i]), hash);
    }
  }

  /**
    A URL listed twice is written twice, and the second write merges over
    the first: when the first fetch gives content and the second fails for a URL
    that was not stored, the view shows the second entry with an empty
    fingerprint while the store keeps the first fetch's fingerprint.
  */
  lemma DuplicateUrlKeepsEarlierFingerprint(
    d: AppData, siteId: string, url: string, responses: seq<Response>, hash: string -> Digest, now: string)
    requires siteId in d.sites && url !in d.sites[siteId].urls
    requires |responses| == 2 && Ok(responses[0]) && responses[0].body != "" && !Ok(responses[1])
    ensures var shown := ReconcileAll(d.sites[siteId].urls, [url, url], responses, hash);
      var after := WriteEntries(d, siteId, shown, now).sites[siteId].urls;
      && shown[1].contentHash == ""
      && url in after
      && after[url].contentHash == hash(responses[0].body) != ""
  {
    var stored := d.sites[siteId].urls;
    var shown := ReconcileAll(stored, [url, url], responses, hash);
    assert Lookup(stored, url) == None;
    assert FetchPageContent(responses[0]) == Some(responses[0].body);
    var first := shown[0];
    var second := shown[1];
    assert first.contentHash == hash(responses[0].body);
    assert second.contentHash == "";
    var d1 := WriteEntries(d, siteId, shown[..1], now);
    assert shown[..1][..0] == [] && shown[..1][0] == first;
    assert WriteEntries(d, siteId, [], now) == d;
    assert d1 == WithUrlEntry(d, siteId, url, FullPatch(first), now);
    var e1 := d1.sites[siteId].urls[url];
    assert e1 == MergeUrlEntry(None, url, FullPatch(first));
    assert e1.contentHash == hash(responses[0].body);
    var d2 := WriteEntries(d, siteId, shown, now);
    assert d2 == WithUrlEntry(d1, siteId, url, FullPatch(second), now);
    assert d2.sites[siteId].urls[url] == MergeUrlEntry(Some(e1), url, FullPatch(second));
  }

  /** The view's entry after `handleSubmitComplete`: a submitted URL becomes `submitted` at `now`. */
  function MarkEntry(e: UrlEntry, submitted: seq<string>, now: string): (r: UrlEntry)
    ensures e.url in submitted ==> r == e.(status := Submitted, lastSubmitted := Some(now))
    ensures e.url !in submitted ==> r == e
  {
    if e.url in submitted then e.(status := Submitted, lastSubmitted := Some(now)) else e
  }

  /** The entries `handleSubmitComplete` writes back, in order: the marked ones. */
  function Marked(entries: seq<UrlEntry>, submitted: seq<string>, now: string): (r: seq<UrlEntry>)
    ensures |r| <= |entries|
    ensures forall j :: 0 <= j < |r| ==>
      r[j].url in submitted && r[j].status == Submitted && r[j].lastSubmitted == Some(now)
    decreases |entries|
  {
    if |entries| == 0 then []
    else
      var last := entries[|entries| - 1];
      Marked(entries[..|entries| - 1], submitted, now)
        + (if last.url in submitted then [MarkEntry(last, submitted, now)] else [])
  }

  /** The view after `handleSubmitComplete`: every entry marked in place, in order. */
  function MarkAll(entries: seq<UrlEntry>, submitted: seq<string>, now: string): (r: seq<UrlEntry>)
    ensures |r| == |entries|
    ensures forall i :: 0 <= i < |entries| ==> r[i] == MarkEntry(entries[i], submitted, now)
    decreases |entries|
  {
    if |entries| == 0 then []
    else
      var n := |entries| - 1;
      MarkAll(entries[..n], submitted, now) + [MarkEntry(entries[n], submitted, now)]
  }

  lemma MarkedStep(entries: seq<UrlEntry>, i: nat, submitted: seq<string>, now: string)
    requires i < |entries|
    ensures Marked(entries[..i + 1], submitted, now)
      == Marked(entries[..i], submitted, now)
         + (if entries[i].url in submitted then [MarkEntry(entries[i], submitted, now)] else [])
    ensures MarkAll(entries[..i + 1], submitted, now) == MarkAll(entries[..i], submitted, now) + [MarkEntry(entries[i], submitted, now)]
  {
    assert entries[..i + 1][..i] == entries[..i];
  }

  /** The test "its URL was submitted", as a value. */
  function SubmittedIn(submitted: seq<string>): UrlEntry -> bool
  {
    (e: UrlEntry) => e.url in submitted
  }

  /**
    The entries written back are exactly the entries of the new view whose
    URL was submitted, in view order.
  */
  lemma {:induction false} MarkedIsFilter(entries: seq<UrlEntry>, submitted: seq<string>, now: string)
    ensures Marked(entries, submitted, now) == Filter(MarkAll(entries, submitted, now), SubmittedIn(submitted))
    decreases |entries|
  {
    if |entries| > 0 {
      var n := |entries| - 1;
      MarkedIsFilter(entries[..n], submitted, now);
      var all := MarkAll(entries, submitted, now);
      assert all[..n] == MarkAll(entries[..n], submitted, now);
      assert all[n].url == entries[n].url;
    }
  }

  /**
    What `Marked` writes: URLs of the listed entries only, each at most once
    when the list has no duplicate URL, and the marked form of every listed
    entry whose URL was submitted.
  */
  lemma {:induction false} MarkedFacts(entries: seq<UrlEntry>, submitted: seq<string>, now: string)
    ensures forall j :: 0 <= j < |Marked(entries, submitted, now)| ==>
      Marked(entries, submitted, now)[j].url in Urls(entries)
    ensures NoDuplicates(Urls(entries)) ==> NoDuplicates(Urls(Marked(entries, submitted, now)))
    ensures forall i :: 0 <= i < |entries| && entries[i].url in submitted ==>
      MarkEntry(entries[i], submitted, now) in Marked(entries, submitted, now)
    decreases |entries|
  {
    if |entries| > 0 {
      var n := |entries| - 1;
      var init := entries[..n];
      var last := entries[n];
      MarkedFacts(init, submitted, now);
      var m0 := Marked(init, submitted, now);
      var m := Marked(entries, submitted, now);
      assert m == m0 + (if last.url in submitted then [MarkEntry(last, submitted, now)] else []);
      assert Urls(init) == Urls(entries)[..n];
      forall j | 0 <= j < |m|
        ensures m[j].url in Urls(entries)
      {
        if j < |m0| {
          assert m[j] == m0[j] && m0[j].url in Urls(init);
          var k :| 0 <= k < |Urls(init)| && Urls(init)[k] == m0[j].url;
          assert Urls(entries)[k] == m0[j].url;
        } else {
          assert Urls(entries)[n] == last.url;
        }
      }
      if NoDuplicates(Urls(entries)) {
        assert NoDuplicates(Urls(init));
        if last.url in submitted {
          assert last.url !in Urls(init) by {
            forall k | 0 <= k < n
              ensures Urls(init)[k] != last.url
            {
              assert Urls(entries)[k] != Urls(entries)[n];
            }
          }
          forall j | 0 <= j < |m0|
            ensures Urls(m)[j] != last.url
          {
            assert m[j] == m0[j] && m0[j].url in Urls(init);
          }
        }
      }
    }
  }

  /**
    After `handleSubmitComplete`, the store holds every listed URL that was
    submitted as `submitted` at `now`, whether or not the view lists it
    more than once.
  */
  lemma MarkedStoreAgrees(d: AppData, siteId: string, entries: seq<UrlEntry>, submitted: seq<string>, now: string)
    requires siteId in d.sites
    ensures var after := WriteEntries(d, siteId, Marked(entries, submitted, now), now).sites[siteId].urls;
      forall i :: 0 <= i < |entries| && entries[i].url in submitted ==>
        && entries[i].url in after
        && after[entries[i].url].status == Submitted
        && after[entries[i].url].lastSubmitted == Some(now)
  {
    var m := Marked(entries, submitted, now);
    MarkedFacts(entries, submitted, now);
    WriteEntriesSubmitted(d, siteId, m, now);
    var after := WriteEntries(d, siteId, m, now).sites[siteId].urls;
    forall i | 0 <= i < |entries| && entries[i].url in submitted
      ensures StoredAsSubmitted(after, entries[i].url, now)
    {
      var j :| 0 <= j < |m| && m[j] == MarkEntry(entries[i], submitted, now);
      assert Urls(m)[j] == entries[i].url;
    }
  }

  /** `handleSubmitComplete` leaves every stored URL that is not both listed and submitted as it was. */
  lemma MarkedStoreKeepsOthers(d: AppData, siteId: string, entries: seq<UrlEntry>, submitted: seq<string>, now: string)
    requires siteId in d.sites
    ensures var before := d.sites[siteId].urls;
      var after := WriteEntries(d, siteId, Marked(entries, submitted, now), now).sites[siteId].urls;
      forall u :: u in before && (u !in Urls(entries) || u !in submitted) ==> u in after && after[u] == before[u]
  {
    var m := Marked(entries, submitted, now);
    MarkedFacts(entries, submitted, now);
    WriteEntriesFrame(d, siteId, m, now);
    forall u | u in d.sites[siteId].urls && (u !in Urls(entries) || u !in submitted)
      ensures u !in Urls(m)
    {
      forall j | 0 <= j < |m|
        ensures Urls(m)[j] != u
      {
        assert m[j].url in Urls(entries) && m[j].url in submitted;
      }
    }
  }

  /**
    Marking the URLs the panel selected leaves nothing to submit: every
    pending or changed entry of the view becomes `submitted`.
  */
  lemma NothingLeftToSubmit(before: seq<UrlEntry>, now: string)
    ensures UrlsToSubmit(MarkAll(before, Urls(UrlsToSubmit(before)), now)) == []
  {
    var selected := UrlsToSubmit(before);
    var submitted := Urls(selected);
    var after := MarkAll(before, submitted, now);
    forall i | 0 <= i < |after|
      ensures after[i].status in {Submitted, Error}
    {
      assert after[i] == MarkEntry(before[i], submitted, now);
      if before[i].status == Pending || before[i].status == Changed {
        assert before[i] in selected;
        var j :| 0 <= j < |selected| && selected[j] == before[i];
        assert submitted[j] == before[i].url;
      }
    }
  }

  /** The document after `handleRemove`: the entry under `url` of the site is deleted; nothing else changes. */
  function WithoutUrl(d: AppData, siteId: string, url: string): (r: AppData)
    ensures siteId !in d.sites ==> r == d
    ensures r.order == d.order && r.activeSiteId == d.activeSiteId && r.sites.Keys == d.sites.Keys
    ensures forall k :: k in d.sites && k != siteId ==> r.sites[k] == d.sites[k]
    ensures siteId in d.sites ==>
      var before := d.sites[siteId];
      var after := r.sites[siteId];
      && after.urls.Keys == before.urls.Keys - {url}
      && (forall u :: u in after.urls ==> after.urls[u] == before.urls[u])
      && after.id == before.id && after.name == before.name && after.settings == before.settings
      && after.createdAt == before.createdAt && after.updatedAt == before.updatedAt
    ensures WellFormed(d) ==> WellFormed(r)
  {
    if siteId !in d.sites then d
    else
      var site := d.sites[siteId];
      d.(sites := d.sites[siteId := site.(urls := site.urls - {url})])
  }

  /** The removal filter as a value: keeps the entries for other URLs. */
  function OtherThan(url: string): UrlEntry -> bool
  {
    (e: UrlEntry) => e.url != url
  }

  /** The application state the handlers work on, and the store behind it. */
  class Application {
    /** The document store. */
    const store: Store
    /** The id of the active site the view shows, or null. */
    var activeSiteId: Option<string>
    /** The entries the view lists, in display order. */
    var urls: seq<UrlEntry>

    ghost predicate Valid()
      reads this, store
    {
      store.Valid()
    }

    /** The view starts on the store's active site with no entries listed. */
    constructor (store: Store)
      requires store.Valid()
      ensures this.store == store && Valid()
      ensures activeSiteId == (if store.GetActiveSite().Some? then Some(store.GetActiveSite().value.id) else None)
      ensures urls == []
    {
      this.store := store;
      var site := store.GetActiveSite();
      activeSiteId := if site.Some? then Some(site.value.id) else None;
      urls := [];
    }

    /**
      `handleUrlsLoaded`. `responses[i]` is the reply to the content fetch for
      `newUrls[i]` and `hash` is the page fingerprint. Without an active site
      nothing is read, written or shown. Otherwise every URL, duplicates
      included, gets one entry in input order, judged against the entries
      read once before the loop; each entry is written to the store under
      its URL, and the new list is shown.
    */
    method HandleUrlsLoaded(newUrls: seq<string>, responses: seq<Response>, hash: string -> Digest, now: string)
      requires Valid()
      requires |responses| == |newUrls|
      modifies this, store
      ensures Valid() && activeSiteId == old(activeSiteId)
      ensures activeSiteId.None? ==> urls == old(urls) && store.doc == old(store.doc)
      ensures activeSiteId.Some? ==>
        var snapshot := old(store.GetSiteUrlEntries(activeSiteId.value));
        && urls == ReconcileAll(snapshot, newUrls, responses, hash)
        && store.doc == WriteEntries(old(store.doc), activeSiteId.value, urls, now)
    {
      if activeSiteId.None? {
        return;
      }
      var siteId := activeSiteId.value;
      var existingEntries := store.GetSiteUrlEntries(siteId);
      var updatedUrls: seq<UrlEntry> := [];
      for i := 0 to |newUrls|
        modifies store
        invariant store.Valid()
        invariant updatedUrls == ReconcileAll(existingEntries, newUrls[..i], responses[..i], hash)
        invariant store.doc == WriteEntries(old(store.doc), siteId, updatedUrls, now)
      {
        var url := newUrls[i];
        var existing := Lookup(existingEntries, url);
        var status := Pending;
        var contentHash := "";
        var content := FetchPageContent(responses[i]);
        if Truthy(content) {
          contentHash := hash(content.value);
          if existing.Some? {
            if existing.value.contentHash != "" && existing.value.contentHash != contentHash {
              status := Changed;
            } else if existing.value.status == Submitted && existing.value.contentHash == contentHash {
              status := Submitted;
            }
          }
        } else if existing.Some? {
          contentHash := existing.value.contentHash;
          status := existing.value.status;
        }
        var entry := UrlEntry(
          url,
          contentHash,
          if existing.Some? then OrNull(existing.value.lastSubmitted) else None,
          status,
          if existing.Some? then existing.value.lastModified else None);
        assert entry == Reconcile(existing, url, content, hash);
        store.UpdateUrlEntry(siteId, url, FullPatch(entry), now);
        WriteEntriesSnoc(old(store.doc), siteId, updatedUrls, entry, now);
        ReconcileAllStep(existingEntries, newUrls, responses, hash, i);
        updatedUrls := updatedUrls + [entry];
      }
      assert newUrls[..|newUrls|] == newUrls;
      assert responses[..|responses|] == responses;
      urls := updatedUrls;
    }

    /** `handleClear`: the active site's history is cleared and the view emptied. */
    method HandleClear(now: string)
      requires Valid()
      modifies this, store
      ensures Valid() && activeSiteId == old(activeSiteId)
      ensures activeSiteId.None? ==> urls == old(urls) && store.doc == old(store.doc)
      ensures activeSiteId.Some? ==> store.doc == Cleared(old(store.doc), activeSiteId.value, now) && urls == []
    {
      if activeSiteId.None? {
        return;
      }
      store.ClearSiteHistory(activeSiteId.value, now);
      urls := [];
    }

    /**
      `handleRemove`: the entry under `url` is deleted from the active site
      in the store, without touching its `updatedAt`, and the view drops
      every entry for `url`, even when the site is no longer stored.
    */
    method HandleRemove(url: string)
      requires Valid()
      modifies this, store
      ensures Valid() && activeSiteId == old(activeSiteId)
      ensures activeSiteId.None? ==> urls == old(urls) && store.doc == old(store.doc)
      ensures activeSiteId.Some? ==>
        && store.doc == WithoutUrl(old(store.doc), activeSiteId.value, url)
        && urls == Filter(old(urls), OtherThan(url))
    {
      if activeSiteId.None? {
        return;
      }
      var data := store.doc;
      if activeSiteId.value in data.sites {
        var site := data.sites[activeSiteId.value];
        site := site.(urls := site.urls - {url});
        data := data.(sites := data.sites[activeSiteId.value := site]);
        store.doc := data;
      }
      urls := Filter(urls, OtherThan(url));
    }

    /**
      `handleSubmitComplete`: every listed entry whose URL was submitted
      becomes `submitted` at `now` and is written to the store; the others
      are left as they are, in the view and in the store.
    */
    method HandleSubmitComplete(submittedUrls: seq<string>, now: string)
      requires Valid()
      modifies this, store
      ensures Valid() && activeSiteId == old(activeSiteId)
      ensures activeSiteId.None? ==> urls == old(urls) && store.doc == old(store.doc)
      ensures activeSiteId.Some? ==>
        && urls == MarkAll(old(urls), submittedUrls, now)
        && store.doc == WriteEntries(old(store.doc), activeSiteId.value, Marked(old(urls), submittedUrls, now), now)
    {
      if activeSiteId.None? {
        return;
      }
      var siteId := activeSiteId.value;
      var prev := urls;
      var next: seq<UrlEntry> := [];
      ghost var written: seq<UrlEntry> := [];
      for i := 0 to |prev|
        modifies store
        invariant store.Valid()
        invariant next == MarkAll(prev[..i], submittedUrls, now)
        invariant written == Marked(prev[..i], submittedUrls, now)
        invariant store.doc == WriteEntries(old(store.doc), siteId, written, now)
      {
        var entry := prev[i];
        MarkedStep(prev, i, submittedUrls, now);
        if entry.url in submittedUrls {
          var updated := entry.(status := Submitted, lastSubmitted := Some(now));
          store.UpdateUrlEntry(siteId, entry.url, FullPatch(updated), now);
          WriteEntriesSnoc(old(store.doc), siteId, written, updated, now);
          written := written + [updated];
          next := next + [updated];
        } else {
          next := next + [entry];
        }
      }
      assert prev[..|prev|] == prev;
      urls := next;
    }
  }
}
