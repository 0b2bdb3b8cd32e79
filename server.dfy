/**
  The decisions of the API server: the CORS allow-list and its origin
  check, the validation and reply mapping of the submission proxy, and the
  reply mapping of the content proxy. The upstream reply of each proxied
  request is a parameter.
*/
module Server {
  import opened Types
  import opened Text
  import opened Seqs
  import opened IndexNow

  /** One piece of the allow-list setting: kept trimmed, dropped when that leaves nothing. */
  function OriginPiece(s: string): (r: Option<string>)
    ensures r.Some? ==> r.value == Trim(s) && r.value != "" && IsTrimmed(r.value)
    ensures r.None? ==> Trim(s) == ""
  {
    var t := Trim(s);
    if t == "" then None else Some(t)
  }

  /** `process.env.CORS_ORIGINS || ''`. */
  function CorsSetting(env: Option<string>): (raw: string)
    ensures Truthy(env) ==> raw == env.value
    ensures !Truthy(env) ==> raw == ""
  {
    if Truthy(env) then env.value else ""
  }

  /**
    `CORS_ORIGINS`: the setting split on commas, each piece trimmed, empty
    pieces dropped. Every origin in it is non-empty and trimmed, every piece
    that is not blank contributes its trimmed form, every origin is the
    trimmed form of some piece, and there are no more origins than pieces; an
    unset or empty setting gives no origins.
  */
  function CorsOrigins(env: Option<string>): (r: seq<string>)
    ensures forall j :: 0 <= j < |r| ==> r[j] != "" && IsTrimmed(r[j])
    ensures var pieces := Split(CorsSetting(env), ',');
      forall i :: 0 <= i < |pieces| && Trim(pieces[i]) != "" ==> Trim(pieces[i]) in r
    ensures var pieces := Split(CorsSetting(env), ',');
      forall j :: 0 <= j < |r| ==> exists i :: 0 <= i < |pieces| && Trim(pieces[i]) == r[j]
    ensures |r| <= Occurrences(CorsSetting(env), ',') + 1
    ensures !Truthy(env) ==> r == []
  {
    var pieces := Split(CorsSetting(env), ',');
    var r := FilterMap(pieces, OriginPiece);
    CorsOriginsFacts(pieces, r);
    CorsOriginsFromSetting(pieces, r);
    SplitCount(CorsSetting(env), ',');
    assert !Truthy(env) ==> pieces == [""];
    r
  }

  /** The kept pieces are non-empty and trimmed, and every non-blank piece is kept. */
  lemma CorsOriginsFacts(pieces: seq<string>, r: seq<string>)
    requires r == FilterMap(pieces, OriginPiece)
    ensures forall j :: 0 <= j < |r| ==> r[j] != "" && IsTrimmed(r[j])
    ensures forall i :: 0 <= i < |pieces| && Trim(pieces[i]) != "" ==> Trim(pieces[i]) in r
  {
    FilterMapOrigin(pieces, OriginPiece);
    FilterMapKeeps(pieces, OriginPiece);
    forall j | 0 <= j < |r|
      ensures r[j] != "" && IsTrimmed(r[j])
    {
      var i :| 0 <= i < |pieces| && OriginPiece(pieces[i]) == Some(r[j]);
    }
    forall i | 0 <= i < |pieces| && Trim(pieces[i]) != ""
      ensures Trim(pieces[i]) in r
    {
      assert OriginPiece(pieces[i]).Some?;
    }
  }

  /** Every kept piece is the trimmed form of a piece of the setting: nothing else enters the list. */
  lemma CorsOriginsFromSetting(pieces: seq<string>, r: seq<string>)
    requires r == FilterMap(pieces, OriginPiece)
    ensures forall j :: 0 <= j < |r| ==> exists i :: 0 <= i < |pieces| && Trim(pieces[i]) == r[j]
  {
    FilterMapOrigin(pieces, OriginPiece);
    forall j | 0 <= j < |r|
      ensures exists i :: 0 <= i < |pieces| && Trim(pieces[i]) == r[j]
    {
      var i :| 0 <= i < |pieces| && OriginPiece(pieces[i]) == Some(r[j]);
      assert Trim(pieces[i]) == r[j];
    }
  }

  /** A setting whose pieces are all blank gives no origins, so every origin is allowed. */
  lemma BlankSettingAllowsAll(env: string)
    requires forall i :: 0 <= i < |Split(env, ',')| ==> Trim(Split(env, ',')[i]) == ""
    ensures CorsOrigins(Some(env)) == []
  {
    var pieces := Split(CorsSetting(Some(env)), ',');
    assert CorsSetting(Some(env)) == env;
    forall i | 0 <= i < |pieces|
      ensures OriginPiece(pieces[i]).None?
    {
    }
    assert CorsOrigins(Some(env)) == FilterMap(pieces, OriginPiece);
  }

  /** The outcome of the CORS origin callback. */
  datatype CorsDecision = Allow | Deny(reason: string)

  /**
    The origin callback: a request without an origin is allowed, an empty
    allow-list allows every origin, and otherwise exactly the listed origins
    are allowed; the others are refused with an error.
  */
  function CorsCheck(origins: seq<string>, origin: Option<string>): (d: CorsDecision)
    ensures d == Allow <==> !Truthy(origin) || origins == [] || origin.value in origins
    ensures d != Allow ==> d == Deny("CORS origin not allowed")
  {
    if !Truthy(origin) then Allow
    else if |origins| == 0 then Allow
    else if origin.value in origins then Allow
    else Deny("CORS origin not allowed")
  }

  /** An origin written in the setting, with any spaces around it, is allowed. */
  lemma ListedOriginAllowed(env: string, origin: string, i: nat)
    requires i < |Split(env, ',')| && Trim(Split(env, ',')[i]) == origin && origin != ""
    ensures CorsCheck(CorsOrigins(Some(env)), Some(origin)) == Allow
  {
    assert CorsSetting(Some(env)) == env;
  }

  /**
    The converse: once the allow-list is not empty, an origin is allowed only
    if it was written in the setting, with any spaces around it.
  */
  lemma OnlyWrittenOriginsAllowed(env: string, origin: string)
    requires CorsOrigins(Some(env)) != [] && origin != ""
    requires CorsCheck(CorsOrigins(Some(env)), Some(origin)) == Allow
    ensures exists i :: 0 <= i < |Split(env, ',')| && Trim(Split(env, ',')[i]) == origin
  {
    assert CorsSetting(Some(env)) == env;
    var r := CorsOrigins(Some(env));
    var j :| 0 <= j < |r| && r[j] == origin;
  }

  /** The `urlList` field of a submission body. */
  datatype UrlListField = Absent | NotAList | List(urls: seq<string>)

  /** The fields of a submission body; a missing string field is `None`. */
  datatype SubmitBody = SubmitBody(host: Option<string>, key: Option<string>, keyLocation: Option<string>, urlList: UrlListField)

  /** The body of a server reply: a JSON error, a JSON success, or plain text. */
  datatype Body = JsonError(error: string) | JsonSuccess(message: string) | PlainText(text: string)

  datatype ServerReply = ServerReply(status: int, body: Body)

  /**
    The request the submission proxy sends upstream, or `None` when the body
    is refused: host and key must be non-empty and `urlList` an array. The
    key location defaults to `https://{host}/{key}.txt`.
  */
  function Forwarded(b: SubmitBody): (p: Option<Payload>)
    ensures p.None? <==> !Truthy(b.host) || !Truthy(b.key) || !b.urlList.List?
    ensures p.Some? ==>
      && p.value.host == b.host.value && p.value.key == b.key.value && p.value.urlList == b.urlList.urls
      && p.value.keyLocation ==
           (if Truthy(b.keyLocation) then b.keyLocation.value else "https://" + b.host.value + "/" + b.key.value + ".txt")
  {
    if !Truthy(b.host) || !Truthy(b.key) || !b.urlList.List? then None
    else
      var keyLocation :=
        if Truthy(b.keyLocation) then b.keyLocation.value else "https://" + b.host.value + "/" + b.key.value + ".txt";
      Some(Payload(b.host.value, b.key.value, keyLocation, b.urlList.urls))
  }

  /**
    `POST /api/submit`. A refused body is answered 400 and nothing is sent.
    Otherwise `upstream` is the IndexNow reply: an accepted one is answered
    200 with a success message, another status is passed on with its body
    text as the error, and a thrown error is answered 500.
  */
  function SubmitRoute(b: SubmitBody, upstream: Response): (reply: ServerReply)
    ensures Forwarded(b).None? ==> reply == ServerReply(400, JsonError("Missing required fields: host, key, urlList"))
    ensures Forwarded(b).Some? && Accepted(upstream) ==> reply == ServerReply(200, JsonSuccess("URLs submitted successfully"))
    ensures Forwarded(b).Some? && upstream.Reply? && !Accepted(upstream) ==>
      reply == ServerReply(upstream.status, JsonError(upstream.body))
    ensures Forwarded(b).Some? && upstream.Thrown? ==>
      reply == ServerReply(500, JsonError("Failed to submit to IndexNow: " + upstream.reason))
  {
    if Forwarded(b).None? then ServerReply(400, JsonError("Missing required fields: host, key, urlList"))
    else
      match upstream
      case Thrown(reason) => ServerReply(500, JsonError("Failed to submit to IndexNow: " + reason))
      case Reply(status, text) =>
        if 200 <= status <= 299 || status == 200 || status == 202 then ServerReply(200, JsonSuccess("URLs submitted successfully"))
        else ServerReply(status, JsonError(text))
  }

  /** A submission request as the client sends it. */
  function AsBody(p: Payload): (b: SubmitBody)
    ensures b.host == Some(p.host) && b.key == Some(p.key) && b.keyLocation == Some(p.keyLocation)
    ensures b.urlList == List(p.urlList)
  {
    SubmitBody(Some(p.host), Some(p.key), Some(p.keyLocation), List(p.urlList))
  }

  /**
    Every request the client submitter makes passes the proxy's checks and
    is forwarded exactly as it was sent: the client always fills in the key
    location, so the proxy's default never applies.
  */
  lemma ClientRequestForwardedUnchanged(urls: seq<string>, settings: SiteSettings, k: nat)
    requires Ready(urls, settings) && k < NumBatches(|urls|)
    ensures Forwarded(AsBody(PayloadFor(urls, settings, k))) == Some(PayloadFor(urls, settings, k))
  {
    var p := PayloadFor(urls, settings, k);
    assert p.keyLocation != "" by {
      if settings.keyLocation == "" {
        assert p.keyLocation[0] == 'h';
      }
    }
  }

  /** The client accepts the proxy's reply exactly when the proxy accepted the IndexNow reply. */
  lemma ClientVerdictMatchesUpstream(b: SubmitBody, upstream: Response, text: string)
    requires Forwarded(b).Some?
    ensures Accepted(Reply(SubmitRoute(b, upstream).status, text)) <==> Accepted(upstream)
  {
  }

  /**
    `GET /api/fetch-content`. A missing or empty `url` is answered 400.
    Otherwise `upstream` is the page's reply: an ok reply is answered with
    its body text, any other status is passed on with an empty body, and a
    thrown error is answered 500 with an empty body.
  */
  function FetchContentRoute(url: Option<string>, upstream: Response): (reply: ServerReply)
    ensures !Truthy(url) ==> reply == ServerReply(400, JsonError("URL parameter is required"))
    ensures Truthy(url) && upstream.Thrown? ==> reply == ServerReply(500, PlainText(""))
    ensures Truthy(url) && upstream.Reply? && !Ok(upstream) ==> reply == ServerReply(upstream.status, PlainText(""))
    ensures Truthy(url) && Ok(upstream) ==> reply == ServerReply(200, PlainText(upstream.body))
  {
    if !Truthy(url) then ServerReply(400, JsonError("URL parameter is required"))
    else
      match upstream
      case Thrown(_) => ServerReply(500, PlainText(""))
      case Reply(status, text) =>
        if !(200 <= status <= 299) then ServerReply(status, PlainText(""))
        else ServerReply(200, PlainText(text))
  }

  /**
    Through the proxy the client's content fetch sees what a direct fetch
    would: the page body for an ok reply, and null for a failed or thrown one.
  */
  lemma ContentThroughProxy(url: string, upstream: Response)
    requires url != ""
    ensures var reply := FetchContentRoute(Some(url), upstream);
      reply.body.PlainText? && FetchPageContent(Reply(reply.status, reply.body.text)) == FetchPageContent(upstream)
  {
  }
}
