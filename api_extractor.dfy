/** `APIExtractor` and `MultiDomainAPIExtractor`: the official share APIs, called per
    configuration (or per domain) until one gives files. Every `self.request` is the oracle
    `net`, which maps a request to the value `request` returns (`JNull` for `None`). */
module ApiStrategy {
  import opened Wrappers
  import opened Json
  import opened Base
  import opened Config
  import opened Strategy

  const ApiName: string := "api"
  const ApiPriority: nat := 1
  const MultiName: string := "multi_domain_api"
  const MultiPriority: nat := 2

  // ----- APIExtractor -----

  function ShortUrlInfoParams(shareId: string): seq<(string, string)> {
    [("shorturl", shareId), ("root", "1"), ("app_id", "250528"), ("web", "1"), ("channel", "dubox"), ("clienttype", "0")]
  }

  function ListParams(shareId: string): seq<(string, string)> {
    [("shorturl", shareId), ("root", "1"), ("page", "1"), ("num", "100")]
  }

  /** The request of `_call_shorturlinfo` / `_call_list`: the endpoint on the base url with
      its query string, sent with Referer and Origin set to the base. */
  function EndpointReq(base: string, endpoint: string, params: seq<(string, string)>): Req {
    GetRequest(WithQuery(base + endpoint, params), [("Referer", base + "/"), ("Origin", base)])
  }

  /** `response.get("errno") == 0` on a dict. */
  predicate ErrnoZero(response: Json)
    requires response.JObj?
  {
    "errno" in response.fields && IsZero(response.fields["errno"])
  }

  /** One file of `_parse_response`; an item that is not a dict raises at its first `get`. */
  function ApiItem(item: Json): Res<FileInfo> {
    if item.JObj? then ApiFields(item.fields) else Raise("object has no attribute 'get'")
  }

  /** The descriptor of an API item. The thumbnail is url3, else url2, else ""; duration and
      resolution are written only for videos. */
  function ApiFields(m: map<string, Json>): Res<FileInfo> {
    var size := Field(m, "size", JInt(0));
    var formatted :- SizeOf(size);
    var isVideo :- VideoFlag(Field(m, "category", JNull), Field(m, "server_filename", JStr("")));
    var thumbs := Field(m, "thumbs", JObj(map[]));
    var thumbnail :-
      if thumbs.JObj? then Ok(Field(thumbs.fields, "url3", Field(thumbs.fields, "url2", JStr(""))))
      else Raise("object has no attribute 'get'");
    var duration :- if isVideo then DurationOf(Field(m, "duration", JInt(0))) else Ok("");
    Ok(FileInfo(Field(m, "server_filename", JStr("Unknown")), size, formatted, Some(Field(m, "fs_id", JStr(""))),
                Field(m, "dlink", JStr("")), isVideo, Some(thumbnail), Some(Field(m, "md5", JStr(""))),
                if isVideo then Some(duration) else None,
                if isVideo then Some(Field(m, "resolution", JStr(""))) else None))
  }

  /** `_parse_response`: one file per item of "list", always a success. */
  function ParseResponse(data: Json): Res<Reply>
    requires data.JObj?
  {
    var items :- Items(Field(data.fields, "list", JArr([])));
    var files :- ParseEach(items, ApiItem);
    Ok(Success(files, ApiName))
  }

  /** `_call_shorturlinfo` / `_call_list`: only a dict with errno 0 is parsed. */
  function CallEndpoint(base: string, endpoint: string, params: seq<(string, string)>, net: Req -> Json): Res<Option<Reply>> {
    var response := net(EndpointReq(base, endpoint, params));
    if IsDict(response) && ErrnoZero(response) then
      var reply :- ParseResponse(response);
      Ok(Some(reply))
    else Ok(None)
  }

  /** `_try_api`: shorturlinfo, when configured, then list, when configured; the first reply
      wins and an exception escapes. */
  function TryApi(cfg: ApiConfig, shareId: string, net: Req -> Json): Res<Option<Reply>> {
    var first :-
      if cfg.shortUrlInfo.Some? then CallEndpoint(cfg.base, cfg.shortUrlInfo.value, ShortUrlInfoParams(shareId), net)
      else Ok(None);
    if first.Some? then Ok(first)
    else if cfg.list.Some? then CallEndpoint(cfg.base, cfg.list.value, ListParams(shareId), net)
    else Ok(None)
  }

  /** `APIExtractor.extract`: `{"error": "Invalid URL"}` without a share id; otherwise the
      normalised id is tried on every configuration in table order. */
  function ApiExtract(url: string, net: Req -> Json): Option<Reply> {
    match ExtractShareId(url)
    case None => Some(Failure("Invalid URL"))
    case Some(id) => FirstSuccess(ApiEndpoints, (cfg: ApiConfig) => TryApi(cfg, NormalizeShareId(id), net)).0
  }

  /** `APIExtractor.extract` with its loop. */
  method ApiExtractLoop(url: string, net: Req -> Json) returns (r: Option<Reply>)
    ensures r == ApiExtract(url, net)
  {
    var id := ExtractShareId(url);
    if id.None? {
      return Some(Failure("Invalid URL"));
    }
    var shareId := NormalizeShareId(id.value);
    var tried;
    r, tried := FirstSuccessLoop(ApiEndpoints, (cfg: ApiConfig) => TryApi(cfg, shareId, net));
  }

  // ----- MultiDomainAPIExtractor -----

  const Domains: seq<string> := [
    "https://www.terabox.com", "https://www.teraboxapp.com", "https://www.1024tera.com", "https://www.4funbox.com",
    "https://www.mirrobox.com", "https://www.nephobox.com", "https://www.freeterabox.com", "https://www.momerybox.com"
  ]

  /** The two urls `_try_domain` requests, in order. */
  function DomainEndpoints(domain: string, shareId: string): seq<string> {
    [domain + "/api/shorturlinfo?shorturl=" + shareId + "&root=1",
     domain + "/share/list?shorturl=" + shareId + "&root=1&page=1&num=100"]
  }

  /** One file of `_try_domain`: no fs_id, md5 or duration; a video by extension only. */
  function MultiItem(item: Json): Res<FileInfo> {
    if !item.JObj? then Raise("object has no attribute 'get'")
    else
      var m := item.fields;
      var size := Field(m, "size", JInt(0));
      var formatted :- SizeOf(size);
      var isVideo :- VideoName(Field(m, "server_filename", JStr("")));
      var thumbs := Field(m, "thumbs", JObj(map[]));
      var thumbnail :- if thumbs.JObj? then Ok(Field(thumbs.fields, "url3", JStr(""))) else Raise("object has no attribute 'get'");
      Ok(FileInfo(Field(m, "server_filename", JStr("Unknown")), size, formatted, None, Field(m, "dlink", JStr("")),
                  isVideo, Some(thumbnail), None, None, None))
  }

  /** The files of one endpoint's response, `None` when it is not a dict with errno 0. */
  function DomainFiles(response: Json): Res<Option<seq<FileInfo>>> {
    if IsDict(response) && ErrnoZero(response) then
      var items :- Items(Field(response.fields, "list", JArr([])));
      var files :- ParseEach(items, MultiItem);
      Ok(Some(files))
    else Ok(None)
  }

  /** `_try_domain` from endpoint `k` on: the first endpoint giving a non-empty file list wins. */
  function TryDomainFrom(domain: string, shareId: string, net: Req -> Json, k: nat): Res<Option<Reply>>
    requires k <= 2
    decreases 2 - k
  {
    if k == 2 then Ok(None)
    else
      var response := net(GetRequest(DomainEndpoints(domain, shareId)[k], [("Referer", domain + "/"), ("Origin", domain)]));
      var files :- DomainFiles(response);
      if files.Some? && files.value != [] then Ok(Some(Success(files.value, MultiName)))
      else TryDomainFrom(domain, shareId, net, k + 1)
  }

  /** `_try_domain`, with its loop over the two endpoints and the append loop inside. */
  method TryDomain(domain: string, shareId: string, net: Req -> Json) returns (r: Res<Option<Reply>>)
    ensures r == TryDomainFrom(domain, shareId, net, 0)
  {
    var endpoints := DomainEndpoints(domain, shareId);
    var k := 0;
    while k < 2
      invariant k <= 2
      invariant TryDomainFrom(domain, shareId, net, k) == TryDomainFrom(domain, shareId, net, 0)
    {
      var response := net(GetRequest(endpoints[k], [("Referer", domain + "/"), ("Origin", domain)]));
      if IsDict(response) && ErrnoZero(response) {
        var items := Items(Field(response.fields, "list", JArr([])));
        if items.Raise? {
          return Raise(items.msg);
        }
        var files := AppendEach(items.value, MultiItem);
        if files.Raise? {
          return Raise(files.msg);
        }
        if files.value != [] {
          return Ok(Some(Success(files.value, MultiName)));
        }
      }
      k := k + 1;
    }
    return Ok(None);
  }

  /** `MultiDomainAPIExtractor.extract`: `None` without a share id; otherwise the domains in
      listed order. */
  function MultiExtract(url: string, net: Req -> Json): Option<Reply> {
    match ExtractShareId(url)
    case None => None
    case Some(id) => FirstSuccess(Domains, (d: string) => TryDomainFrom(d, NormalizeShareId(id), net, 0)).0
  }

  // ----- Properties -----

  /** Without a share id the API strategy answers with the "Invalid URL" error, which has no
      success flag; the multi-domain one answers `None`. */
  lemma NoShareId(url: string, net: Req -> Json)
    requires ExtractShareId(url).None?
    ensures ApiExtract(url, net) == Some(Failure("Invalid URL"))
    ensures MultiExtract(url, net).None?
  {
  }

  /** Only a dict with errno 0 is accepted; such a response always gives a success (or an
      exception), even with an empty list. */
  lemma EndpointAcceptsErrnoZero(base: string, endpoint: string, params: seq<(string, string)>, net: Req -> Json)
    ensures var response := net(EndpointReq(base, endpoint, params));
      var r := CallEndpoint(base, endpoint, params, net);
      (r.Ok? && r.value.Some? ==> IsDict(response) && ErrnoZero(response) && r.value.value.Success?)
      && (!(IsDict(response) && ErrnoZero(response)) ==> r == Ok(None))
  {
  }

  /** `_parse_response` gives one file per item, in order, even for an empty list. */
  lemma ParseResponseOnePerItem(data: Json)
    requires data.JObj?
    ensures var r := ParseResponse(data);
      var items := Items(Field(data.fields, "list", JArr([])));
      r.Ok? ==>
        && r.value == Success(r.value.files, ApiName)
        && items.Ok?
        && |r.value.files| == |items.value|
        && forall k :: 0 <= k < |items.value| ==> ApiItem(items.value[k]) == Ok(r.value.files[k])
    ensures Field(data.fields, "list", JArr([])) == JArr([]) ==> ParseResponse(data) == Ok(Success([], ApiName))
  {
  }

  /** The item has a "server_filename" with a video extension. */
  predicate NamedVideo(m: map<string, Json>) {
    "server_filename" in m && m["server_filename"].JStr? && IsVideoFile(m["server_filename"].s)
  }

  /** The defaults of an API file: filename "Unknown" when missing; a video exactly when the
      category is 1 or the name has a video extension; duration and resolution only for
      videos. */
  lemma ApiItemFields(item: Json)
    requires ApiItem(item).Ok?
    ensures item.JObj?
    ensures var f := ApiItem(item).value;
      && ("server_filename" !in item.fields ==> f.filename == JStr("Unknown"))
      && (f.isVideo <==> IsOne(Field(item.fields, "category", JNull)) || NamedVideo(item.fields))
      && (f.duration.Some? <==> f.isVideo)
      && (f.resolution.Some? <==> f.isVideo)
  {
  }

  /** Shorturlinfo comes first: when it gives a reply, the list endpoint's response does not
      matter. */
  lemma ShortUrlInfoFirst(cfg: ApiConfig, shareId: string, net: Req -> Json, net': Req -> Json)
    requires cfg.shortUrlInfo.Some?
    requires var q := EndpointReq(cfg.base, cfg.shortUrlInfo.value, ShortUrlInfoParams(shareId)); net(q) == net'(q)
    requires CallEndpoint(cfg.base, cfg.shortUrlInfo.value, ShortUrlInfoParams(shareId), net).Ok?
    requires CallEndpoint(cfg.base, cfg.shortUrlInfo.value, ShortUrlInfoParams(shareId), net).value.Some?
    ensures TryApi(cfg, shareId, net) == TryApi(cfg, shareId, net')
  {
  }

  /** The multi-domain strategy only succeeds with a non-empty file list, and its files are
      videos by extension alone. */
  lemma {:induction false} MultiNeedsFiles(domain: string, shareId: string, net: Req -> Json, k: nat)
    requires k <= 2
    ensures var r := TryDomainFrom(domain, shareId, net, k);
      r.Ok? && r.value.Some? ==> r.value.value.Success? && r.value.value.files != [] && r.value.value.extractor == MultiName
    decreases 2 - k
  {
    if k < 2 {
      MultiNeedsFiles(domain, shareId, net, k + 1);
    }
  }

  lemma MultiItemVideoByName(item: Json)
    requires MultiItem(item).Ok?
    ensures MultiItem(item).value.isVideo <==> NamedVideo(item.fields)
    ensures MultiItem(item).value.fsId.None? && MultiItem(item).value.duration.None?
  {
  }
}
