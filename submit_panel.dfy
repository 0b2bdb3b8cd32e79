/**
  The submit panel: which tracked URLs it offers for submission, and what
  its submit button does with the site's settings and the submitter's result.
*/
module SubmitPanel {
  import opened Types
  import opened Seqs
  import opened Storage
  import opened IndexNow

  /** An entry is offered for submission when it is pending or changed. */
  predicate Selectable(e: UrlEntry)
  {
    e.status == Pending || e.status == Changed
  }

  /** `urlsToSubmit`: the pending and changed entries, in list order. */
  function UrlsToSubmit(urls: seq<UrlEntry>): (r: seq<UrlEntry>)
    ensures |r| <= |urls|
    ensures forall j :: 0 <= j < |r| ==> (r[j].status == Pending || r[j].status == Changed) && r[j] in urls
    ensures forall i :: 0 <= i < |urls| && (urls[i].status == Pending || urls[i].status == Changed) ==> urls[i] in r
    ensures (forall i :: 0 <= i < |urls| ==> urls[i].status in {Submitted, Error}) ==> r == []
  {
    Filter(urls, Selectable)
  }

  /** Selecting from a concatenation selects from each part, in order. */
  lemma UrlsToSubmitAppend(a: seq<UrlEntry>, b: seq<UrlEntry>)
    ensures UrlsToSubmit(a + b) == UrlsToSubmit(a) + UrlsToSubmit(b)
  {
    FilterAppend(a, b, Selectable);
  }

  /** `entries.map((u) => u.url)`. */
  function Urls(entries: seq<UrlEntry>): (r: seq<string>)
    ensures |r| == |entries|
    ensures forall i :: 0 <= i < |entries| ==> r[i] == entries[i].url
  {
    seq(|entries|, i requires 0 <= i < |entries| => entries[i].url)
  }

  /** What the panel shows after a click. */
  datatype Notice = ConfigureSettings | Reported(message: Message)

  datatype Shown = Shown(success: bool, notice: Notice)

  /**
    `handleSubmit` for the site `siteId`. Without an api key or a host the
    panel shows a failure and submits nothing. Otherwise the selected URLs
    go to the submitter, whose replies come from `respond`; the panel shows
    its success flag and message, and `completed` holds the URLs handed to
    `onSubmitComplete`, which is called only when every request was sent
    and accepted. The partial count
    of a failed run is never used.
  */
  method HandleSubmit(store: Store, siteId: string, urls: seq<UrlEntry>, respond: (nat, Payload) -> Response)
    returns (shown: Shown, completed: Option<seq<string>>, sent: seq<Payload>)
    ensures var settings := store.GetSiteSettings(siteId);
      settings.apiKey == "" || settings.host == "" ==>
        shown == Shown(false, ConfigureSettings) && completed.None? && sent == []
    ensures completed.Some? <==> shown.success
    ensures completed.Some? ==> completed.value == Urls(UrlsToSubmit(urls)) && Carried(sent) == completed.value
    ensures var settings := store.GetSiteSettings(siteId);
      var selected := Urls(UrlsToSubmit(urls));
      settings.apiKey != "" && settings.host != "" ==>
        && (selected == [] ==> shown == Shown(false, Reported(NoUrls)) && sent == [])
        && |sent| <= NumBatches(|selected|)
        && (forall k :: 0 <= k < |sent| ==> sent[k] == PayloadFor(selected, settings, k))
        && (completed.Some? <==>
              && selected != []
              && |sent| == NumBatches(|selected|)
              && forall k :: 0 <= k < |sent| ==> Accepted(respond(k, sent[k])))
        && (shown.success ==> shown.notice == Reported(SubmittedAll(|selected|)))
        && (selected != [] && !shown.success ==>
              && |sent| >= 1
              && (forall k :: 0 <= k < |sent| - 1 ==> Accepted(respond(k, sent[k])))
              && !Accepted(respond(|sent| - 1, sent[|sent| - 1]))
              && shown.notice == Reported(FailureMessage(respond(|sent| - 1, sent[|sent| - 1]))))
  {
    var settings := store.GetSiteSettings(siteId);
    if settings.apiKey == "" || settings.host == "" {
      return Shown(false, ConfigureSettings), None, [];
    }
    var urlStrings := Urls(UrlsToSubmit(urls));
    var submitResult;
    submitResult, sent := SubmitToIndexNow(urlStrings, settings, respond);
    shown := Shown(submitResult.success, Reported(submitResult.message));
    completed := if submitResult.success then Some(urlStrings) else None;
  }
}
