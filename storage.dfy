/**
  The document store: every operation reads the one `AppData` document,
  changes it and writes the whole of it back. The document is the field
  `doc` of a `Store`; the persistence behind it is not modelled.
*/
module Storage {
  import opened Types
  import opened Seqs

  /** No key occurs twice in `ks`. */
  predicate NoDuplicates(ks: seq<string>)
  {
    forall i, j :: 0 <= i < j < |ks| ==> ks[i] != ks[j]
  }

  /**
    The shape every operation keeps: `order` lists each key of `sites` exactly
    once, and every site is stored under its own id.
  */
  ghost predicate WellFormed(d: AppData)
  {
    && (forall k :: k in d.sites <==> k in d.order)
    && NoDuplicates(d.order)
    && (forall k :: k in d.sites ==> d.sites[k].id == k)
  }

  /** The active-site id is null or names a stored site. */
  ghost predicate ActiveIdSound(d: AppData)
  {
    d.activeSiteId.None? || d.activeSiteId.value in d.sites
  }

  /** `a || b` on optional strings. */
  function Or(a: Option<string>, b: Option<string>): Option<string>
  {
    if Truthy(a) then a else b
  }

  /** A `Partial<UrlEntry>`: each field may be left out (`None`). */
  datatype UrlPatch = UrlPatch(
    contentHash: Option<string>,
    lastSubmitted: Option<string>,
    status: Option<Status>,
    lastModified: Option<string>)

  /** A whole entry handed over as a patch. */
  function FullPatch(e: UrlEntry): (p: UrlPatch)
    ensures p.contentHash == Some(e.contentHash) && p.status == Some(e.status)
    ensures p.lastSubmitted == e.lastSubmitted && p.lastModified == e.lastModified
  {
    UrlPatch(Some(e.contentHash), e.lastSubmitted, Some(e.status), e.lastModified)
  }

  /**
    The entry `updateUrlEntry` stores under `url`, given what was stored there.
    `contentHash`, `status` and `lastModified` of the patch count only when
    truthy; `lastSubmitted` counts unless it is null or undefined.
  */
  function MergeUrlEntry(stored: Option<UrlEntry>, url: string, patch: UrlPatch): (e: UrlEntry)
    ensures e.url == url
    ensures Truthy(patch.contentHash) ==> e.contentHash == patch.contentHash.value
    ensures !Truthy(patch.contentHash) && stored.Some? ==> e.contentHash == stored.value.contentHash
    ensures !Truthy(patch.contentHash) && stored.None? ==> e.contentHash == ""
    ensures patch.lastSubmitted.Some? ==> e.lastSubmitted == patch.lastSubmitted
    ensures patch.lastSubmitted.None? && stored.Some? ==> e.lastSubmitted == stored.value.lastSubmitted
    ensures patch.lastSubmitted.None? && stored.None? ==> e.lastSubmitted.None?
    ensures patch.status.Some? ==> e.status == patch.status.value
    ensures patch.status.None? && stored.Some? ==> e.status == stored.value.status
    ensures patch.status.None? && stored.None? ==> e.status == Pending
    ensures Truthy(patch.lastModified) ==> e.lastModified == patch.lastModified
    ensures !Truthy(patch.lastModified) && stored.Some? ==> e.lastModified == stored.value.lastModified
    ensures !Truthy(patch.lastModified) && stored.None? ==> e.lastModified.None?
  {
    var storedHash := if stored.Some? then Some(stored.value.contentHash) else None;
    var hash := Or(patch.contentHash, Or(storedHash, Some("")));
    var submitted :=
      if patch.lastSubmitted.Some? then patch.lastSubmitted
      else if stored.Some? then stored.value.lastSubmitted
      else None;
    var status :=
      if patch.status.Some? then patch.status.value
      else if stored.Some? then stored.value.status
      else Pending;
    var modified := Or(patch.lastModified, if stored.Some? then stored.value.lastModified else None);
    UrlEntry(url, hash.value, submitted, status, modified)
  }

  /** A `Partial<SiteSettings>`. */
  datatype SettingsPatch = SettingsPatch(apiKey: Option<string>, keyLocation: Option<string>, host: Option<string>)

  /** `{ ...settings, ...patch }`: a supplied field wins even when it is "", the others are kept. */
  function MergeSettings(settings: SiteSettings, patch: SettingsPatch): (r: SiteSettings)
    ensures r.apiKey == (if patch.apiKey.Some? then patch.apiKey.value else settings.apiKey)
    ensures r.keyLocation == (if patch.keyLocation.Some? then patch.keyLocation.value else settings.keyLocation)
    ensures r.host == (if patch.host.Some? then patch.host.value else settings.host)
  {
    var r := settings;
    var r := if patch.apiKey.Some? then r.(apiKey := patch.apiKey.value) else r;
    var r := if patch.keyLocation.Some? then r.(keyLocation := patch.keyLocation.value) else r;
    if patch.host.Some? then r.(host := patch.host.value) else r
  }

  /** A `Partial<Omit<Site, 'id' | 'createdAt'>>` as `updateSite` receives it. */
  datatype SiteUpdates = SiteUpdates(
    name: Option<string>,
    settings: Option<SiteSettings>,
    urls: Option<map<string, UrlEntry>>)

  /** `{ ...site, ...updates, updatedAt: now }`. */
  function ApplySiteUpdates(site: Site, updates: SiteUpdates, now: string): (r: Site)
    ensures r.id == site.id && r.createdAt == site.createdAt && r.updatedAt == now
    ensures r.name == (if updates.name.Some? then updates.name.value else site.name)
    ensures r.settings == (if updates.settings.Some? then updates.settings.value else site.settings)
    ensures r.urls == (if updates.urls.Some? then updates.urls.value else site.urls)
  {
    var r := site;
    var r := if updates.name.Some? then r.(name := updates.name.value) else r;
    var r := if updates.settings.Some? then r.(settings := updates.settings.value) else r;
    var r := if updates.urls.Some? then r.(urls := updates.urls.value) else r;
    r.(updatedAt := now)
  }

  /** The site a new id starts as: default settings, no URLs, created and updated at `now`. */
  function NewSite(id: string, name: string, now: string): (s: Site)
    ensures s.id == id && s.name == name && s.settings == DefaultSettings
    ensures s.urls == map[] && s.createdAt == s.updatedAt == now
  {
    Site(id, name, DefaultSettings, map[], now, now)
  }

  /** `ks` without `k`, in the same order: the keys left after `delete sites[k]`. */
  function RemoveKey(ks: seq<string>, k: string): (r: seq<string>)
    ensures forall x :: x in r <==> x in ks && x != k
    ensures |r| <= |ks|
    ensures k !in ks ==> r == ks
    ensures NoDuplicates(ks) ==> NoDuplicates(r)
    ensures |ks| > 0 && ks[0] != k ==> r != [] && r[0] == ks[0]
    decreases |ks|
  {
    if |ks| == 0 then []
    else if ks[0] == k then RemoveKey(ks[1..], k)
    else
      var rest := RemoveKey(ks[1..], k);
      assert NoDuplicates(ks) ==> NoDuplicates(ks[1..]) && ks[0] !in ks[1..];
      [ks[0]] + rest
  }

  /** The test `x != k`, as a value. */
  function OtherKey(k: string): string -> bool
  {
    x => x != k
  }

  /** Deleting a key keeps the other keys in their order: it is filtering the key out. */
  lemma {:induction false} RemoveKeyIsFilter(ks: seq<string>, k: string)
    ensures RemoveKey(ks, k) == Filter(ks, OtherKey(k))
    decreases |ks|
  {
    if |ks| > 0 {
      RemoveKeyIsFilter(ks[1..], k);
      FilterAppend([ks[0]], ks[1..], OtherKey(k));
      assert [ks[0]] + ks[1..] == ks;
      assert Filter([ks[0]], OtherKey(k)) == if ks[0] != k then [ks[0]] else [];
    }
  }

  /** The entry stored under `url` in `urls`, if any. */
  function Lookup(urls: map<string, UrlEntry>, url: string): (r: Option<UrlEntry>)
    ensures r.Some? <==> url in urls
    ensures r.Some? ==> r.value == urls[url]
  {
    if url in urls then Some(urls[url]) else None
  }

  /**
    The document after `updateUrlEntry(siteId, url, patch)` at time `now`: a
    missing site leaves it as it is; otherwise only the entry under `url` of
    that site changes, to the merge of the patch over it, and that site's
    `updatedAt` becomes `now`.
  */
  function WithUrlEntry(d: AppData, siteId: string, url: string, patch: UrlPatch, now: string): (r: AppData)
    ensures siteId !in d.sites ==> r == d
    ensures r.order == d.order && r.activeSiteId == d.activeSiteId && r.sites.Keys == d.sites.Keys
    ensures forall k :: k in d.sites && k != siteId ==> r.sites[k] == d.sites[k]
    ensures siteId in d.sites ==>
      var before := d.sites[siteId];
      var after := r.sites[siteId];
      && after.urls.Keys == before.urls.Keys + {url}
      && after.urls[url] == MergeUrlEntry(Lookup(before.urls, url), url, patch)
      && (forall u :: u in before.urls && u != url ==> after.urls[u] == before.urls[u])
      && after.id == before.id && after.name == before.name && after.settings == before.settings
      && after.createdAt == before.createdAt && after.updatedAt == now
    ensures WellFormed(d) ==> WellFormed(r)
  {
    if siteId !in d.sites then d
    else
      var site := d.sites[siteId];
      var entry := MergeUrlEntry(Lookup(site.urls, url), url, patch);
      d.(sites := d.sites[siteId := site.(urls := site.urls[url := entry], updatedAt := now)])
  }

  /**
    The document after `clearSiteHistory(siteId)` at time `now`: a missing site
    leaves it as it is; otherwise that site has no entries left and
    `updatedAt == now`, and keeps its id, name, settings and `createdAt`.
  */
  function Cleared(d: AppData, siteId: string, now: string): (r: AppData)
    ensures siteId !in d.sites ==> r == d
    ensures r.order == d.order && r.activeSiteId == d.activeSiteId && r.sites.Keys == d.sites.Keys
    ensures forall k :: k in d.sites && k != siteId ==> r.sites[k] == d.sites[k]
    ensures siteId in d.sites ==>
      var before := d.sites[siteId];
      var after := r.sites[siteId];
      && after.urls == map[]
      && after.id == before.id && after.name == before.name && after.settings == before.settings
      && after.createdAt == before.createdAt && after.updatedAt == now
    ensures WellFormed(d) ==> WellFormed(r)
  {
    if siteId !in d.sites then d
    else
      var site := d.sites[siteId];
      d.(sites := d.sites[siteId := site.(urls := map[], updatedAt := now)])
  }

  class Store {
    /** The persisted document. */
    var doc: AppData

    ghost predicate Valid()
      reads this
    {
      WellFormed(doc)
    }

    /** The document read when nothing has been stored yet. */
    constructor ()
      ensures doc == EmptyAppData
      ensures Valid() && ActiveIdSound(doc)
    {
      doc := EmptyAppData;
    }

    /**
      `getActiveSite`: the site the active-site id names; null when the active-site id is null
      or "" (both falsy) or names a site that is not stored.
    */
    function GetActiveSite(): (r: Option<Site>)
      reads this
      ensures r.Some? <==> Truthy(doc.activeSiteId) && doc.activeSiteId.value in doc.sites
      ensures r.Some? ==> r.value == doc.sites[doc.activeSiteId.value] && r.value in doc.sites.Values
    {
      var data := doc;
      if !Truthy(data.activeSiteId) || data.activeSiteId.value !in data.sites then None
      else Some(data.sites[data.activeSiteId.value])
    }

    /** `setActiveSite`: moves the active-site id only onto a stored site. */
    method SetActiveSite(siteId: string)
      requires Valid()
      modifies this
      ensures Valid()
      ensures siteId in old(doc.sites) ==> doc == old(doc).(activeSiteId := Some(siteId))
      ensures siteId !in old(doc.sites) ==> doc == old(doc)
      ensures ActiveIdSound(old(doc)) ==> ActiveIdSound(doc)
      ensures siteId in old(doc.sites) && siteId != "" ==> GetActiveSite() == Some(doc.sites[siteId])
    {
      var data := doc;
      if siteId in data.sites {
        data := data.(activeSiteId := Some(siteId));
        doc := data;
      }
    }

    /**
      `createSite` with the generated id and the clock reading as parameters.
      An id that is already taken replaces that site (keeping its place in the
      key order); the new site becomes the active one.
    */
    method CreateSite(name: string, id: string, now: string) returns (site: Site)
      requires Valid()
      modifies this
      ensures Valid() && ActiveIdSound(doc)
      ensures site == NewSite(id, name, now)
      ensures doc.sites == old(doc.sites)[id := site]
      ensures forall k :: k in old(doc.sites) && k != id ==> k in doc.sites && doc.sites[k] == old(doc.sites)[k]
      ensures doc.order == if id in old(doc.sites) then old(doc.order) else old(doc.order) + [id]
      ensures doc.activeSiteId == Some(id)
    {
      var data := doc;
      site := NewSite(id, name, now);
      var order := if id in data.sites then data.order else data.order + [id];
      data := data.(sites := data.sites[id := site], order := order);
      data := data.(activeSiteId := Some(id));
      doc := data;
    }

    /** `updateSite`: null and no write for a missing site; otherwise the merged site, which is also stored. */
    method UpdateSite(siteId: string, updates: SiteUpdates, now: string) returns (r: Option<Site>)
      requires Valid()
      modifies this
      ensures Valid()
      ensures siteId !in old(doc.sites) ==> r.None? && doc == old(doc)
      ensures siteId in old(doc.sites) ==>
        && r == Some(ApplySiteUpdates(old(doc.sites)[siteId], updates, now))
        && doc == old(doc).(sites := old(doc.sites)[siteId := r.value])
      ensures ActiveIdSound(old(doc)) ==> ActiveIdSound(doc)
    {
      var data := doc;
      if siteId !in data.sites {
        return None;
      }
      var site := data.sites[siteId];
      data := data.(sites := data.sites[siteId := ApplySiteUpdates(site, updates, now)]);
      doc := data;
      r := Some(data.sites[siteId]);
    }

    /**
      `deleteSite`: removes the site; if it was active, the active-site id moves to the
      first remaining key in insertion order, or to null when none remain.
    */
    method DeleteSite(siteId: string)
      requires Valid()
      modifies this
      ensures Valid()
      ensures doc.sites == old(doc.sites) - {siteId}
      ensures doc.order == RemoveKey(old(doc.order), siteId) == Filter(old(doc.order), OtherKey(siteId))
      ensures old(doc.activeSiteId) == Some(siteId) ==>
        doc.activeSiteId == if doc.sites == map[] then None else Some(doc.order[0])
      ensures old(doc.activeSiteId) != Some(siteId) ==> doc.activeSiteId == old(doc.activeSiteId)
      ensures ActiveIdSound(old(doc)) ==> ActiveIdSound(doc)
    {
      var data := doc;
      RemoveKeyIsFilter(data.order, siteId);
      data := data.(sites := data.sites - {siteId}, order := RemoveKey(data.order, siteId));
      if data.activeSiteId == Some(siteId) {
        var remaining := data.order;
        data := data.(activeSiteId := if |remaining| > 0 then Some(remaining[0]) else None);
        if |remaining| == 0 {
          assert forall k :: k !in data.sites;
        } else {
          assert remaining[0] in data.sites;
        }
      }
      doc := data;
    }

    /** `updateUrlEntry`, with the clock reading as a parameter. */
    method UpdateUrlEntry(siteId: string, url: string, patch: UrlPatch, now: string)
      requires Valid()
      modifies this
      ensures Valid()
      ensures doc == WithUrlEntry(old(doc), siteId, url, patch, now)
      ensures ActiveIdSound(old(doc)) ==> ActiveIdSound(doc)
    {
      var data := doc;
      if siteId !in data.sites {
        return;
      }
      var site := data.sites[siteId];
      var entry := MergeUrlEntry(Lookup(site.urls, url), url, patch);
      site := site.(urls := site.urls[url := entry]);
      site := site.(updatedAt := now);
      data := data.(sites := data.sites[siteId := site]);
      doc := data;
    }

    /** `updateSiteSettings`: a shallow merge of the patch over the stored settings; a missing site is left alone. */
    method UpdateSiteSettings(siteId: string, patch: SettingsPatch, now: string)
      requires Valid()
      modifies this
      ensures Valid()
      ensures siteId !in old(doc.sites) ==> doc == old(doc)
      ensures siteId in old(doc.sites) ==>
        var site := old(doc.sites)[siteId];
        doc == old(doc).(sites := old(doc.sites)[siteId :=
          site.(settings := MergeSettings(site.settings, patch), updatedAt := now)])
      ensures ActiveIdSound(old(doc)) ==> ActiveIdSound(doc)
    {
      var data := doc;
      if siteId !in data.sites {
        return;
      }
      var site := data.sites[siteId];
      site := site.(settings := MergeSettings(site.settings, patch));
      site := site.(updatedAt := now);
      data := data.(sites := data.sites[siteId := site]);
      doc := data;
    }

    /** `getSiteSettings`: the stored settings, or fresh default settings for a missing site. */
    function GetSiteSettings(siteId: string): (r: SiteSettings)
      reads this
      ensures siteId in doc.sites ==> r == doc.sites[siteId].settings
      ensures siteId !in doc.sites ==> r == SiteSettings("", "", "")
    {
      if siteId in doc.sites then doc.sites[siteId].settings else DefaultSettings
    }

    /** `getSiteUrlEntries`: the stored entries, or none for a missing site. */
    function GetSiteUrlEntries(siteId: string): (r: map<string, UrlEntry>)
      reads this
      ensures siteId in doc.sites ==> r == doc.sites[siteId].urls
      ensures siteId !in doc.sites ==> r == map[]
    {
      if siteId in doc.sites then doc.sites[siteId].urls else map[]
    }

    /** `clearSiteHistory`, with the clock reading as a parameter. */
    method ClearSiteHistory(siteId: string, now: string)
      requires Valid()
      modifies this
      ensures Valid()
      ensures doc == Cleared(old(doc), siteId, now)
      ensures ActiveIdSound(old(doc)) ==> ActiveIdSound(doc)
    {
      var data := doc;
      if siteId !in data.sites {
        return;
      }
      var site := data.sites[siteId];
      site := site.(urls := map[]);
      site := site.(updatedAt := now);
      data := data.(sites := data.sites[siteId := site]);
      doc := data;
    }
  }
}
