/** `ThirdPartyExtractor`: posts the share url to outside download services and reads the
    shapes their answers come in. */
module ThirdPartyStrategy {
  import opened Wrappers
  import opened Json
  import opened Base
  import opened Config
  import opened Strategy

  const ThirdPartyName: string := "third_party"
  const ThirdPartyPriority: nat := 4

  const JsonHeaders: seq<(string, string)> := [("Content-Type", "application/json"), ("Accept", "application/json")]

  /** `_try_api`'s request: a POST carries `{"url": url}` as its JSON body, any other method
      is a GET with `?url=` appended; neither uses a proxy or a cookie. */
  function ApiRequest(api: ThirdPartyApi, url: string): Req {
    if api.httpMethod == "POST" then Req(api.url, "POST", JsonHeaders, Some(JObj(map["url" := JStr(url)])), false, false)
    else Req(api.url + "?url=" + url, "GET", JsonHeaders, None, false, false)
  }

  /** One file of `_extract_from_data`. */
  function ThirdItem(item: Json): Res<FileInfo> {
    if !item.JObj? then Raise("object has no attribute 'get'")
    else
      var m := item.fields;
      var size := Field(m, "size", JInt(0));
      var formatted :- SizeOf(size);
      var isVideo :- VideoName(Field(m, "filename", JStr("")));
      Ok(FileInfo(Field(m, "filename", Field(m, "name", JStr("Unknown"))), size, formatted, None,
                  Field(m, "download_url", Field(m, "dlink", JStr(""))), isVideo, None, None, None, None))
  }

  /** `_extract_from_data`: the list under "files", else "list"; `None` when it has no files. */
  function ExtractFromData(data: Json): Attempt {
    if !data.JObj? then Raise("object has no attribute 'get'")
    else
      var items :- Items(Field(data.fields, "files", Field(data.fields, "list", JArr([]))));
      var files :- ParseEach(items, ThirdItem);
      if files == [] then Ok(None) else Ok(Some(Success(files, ThirdPartyName)))
  }

  /** `_extract_from_data` with its append loop. */
  method ExtractFromDataLoop(data: Json) returns (r: Attempt)
    ensures r == ExtractFromData(data)
  {
    if !data.JObj? {
      return Raise("object has no attribute 'get'");
    }
    var items := Items(Field(data.fields, "files", Field(data.fields, "list", JArr([]))));
    if items.Raise? {
      return Raise(items.msg);
    }
    var files := AppendEach(items.value, ThirdItem);
    if files.Raise? {
      return Raise(files.msg);
    }
    r := if files.value == [] then Ok(None) else Ok(Some(Success(files.value, ThirdPartyName)));
  }

  /** The single file of a bare "download_url" answer. */
  function DownloadFile(m: map<string, Json>): Res<FileInfo>
    requires "download_url" in m
  {
    var size := Field(m, "size", JInt(0));
    var formatted :- SizeOf(size);
    Ok(FileInfo(Field(m, "filename", JStr("Unknown")), size, formatted, None, m["download_url"], true, None, None, None, None))
  }

  /** `_parse_response`: success+data, then status "success"+result, then download_url. */
  function ParseResponse(data: Json, apiName: string): Attempt {
    if !data.JObj? then Raise("object has no attribute 'get'")
    else
      var m := data.fields;
      if Truthy(Field(m, "success", JNull)) && "data" in m then ExtractFromData(m["data"])
      else if Field(m, "status", JNull) == JStr("success") && "result" in m then ExtractFromData(m["result"])
      else if "download_url" in m then
        var file :- DownloadFile(m);
        Ok(Some(Success([file], ThirdPartyName + ":" + apiName)))
      else Ok(None)
  }

  /** `_try_api`: a falsy response gives `None`. */
  function TryApi(api: ThirdPartyApi, url: string, net: Req -> Json): Attempt {
    var response := net(ApiRequest(api, url));
    if Truthy(response) then ParseResponse(response, api.name) else Ok(None)
  }

  /** `ThirdPartyExtractor.extract`: the services in table order. */
  function ThirdPartyExtract(url: string, net: Req -> Json): Option<Reply> {
    FirstSuccess(ThirdPartyApis, (api: ThirdPartyApi) => TryApi(api, url, net)).0
  }

  /** `ThirdPartyExtractor.extract` with its loop. */
  method ThirdPartyExtractLoop(url: string, net: Req -> Json) returns (r: Option<Reply>)
    ensures r == ThirdPartyExtract(url, net)
  {
    var tried;
    r, tried := FirstSuccessLoop(ThirdPartyApis, (api: ThirdPartyApi) => TryApi(api, url, net));
  }

  // ----- Properties -----

  /** The request never uses a proxy or a cookie; a POST sends the url as JSON, a GET in the
      query. */
  lemma RequestShape(api: ThirdPartyApi, url: string)
    ensures var q := ApiRequest(api, url);
      && !q.useProxy && !q.useCookie
      && (api.httpMethod == "POST" ==> q.url == api.url && q.jsonBody == Some(JObj(map["url" := JStr(url)])))
      && (api.httpMethod != "POST" ==> q.url == api.url + "?url=" + url && q.jsonBody.None? && q.httpMethod == "GET")
  {
  }

  /** Both configured services are posted to. */
  lemma ServicesArePosted(url: string)
    ensures forall k :: 0 <= k < |ThirdPartyApis| ==> ApiRequest(ThirdPartyApis[k], url).httpMethod == "POST"
  {
  }

  /** A falsy response gives `None`. */
  lemma FalsyResponseIsNone(api: ThirdPartyApi, url: string, net: Req -> Json)
    requires !Truthy(net(ApiRequest(api, url)))
    ensures TryApi(api, url, net) == Ok(None)
  {
  }

  /** The shapes are checked in order: success+data wins over status+result, which wins over
      download_url; a download_url answer is one video file tagged with the service's name. */
  lemma ParseOrder(data: Json, apiName: string)
    requires data.JObj?
    ensures Truthy(Field(data.fields, "success", JNull)) && "data" in data.fields
      ==> ParseResponse(data, apiName) == ExtractFromData(data.fields["data"])
    ensures !(Truthy(Field(data.fields, "success", JNull)) && "data" in data.fields)
      && Field(data.fields, "status", JNull) == JStr("success") && "result" in data.fields
      ==> ParseResponse(data, apiName) == ExtractFromData(data.fields["result"])
    ensures var m := data.fields; var r := ParseResponse(data, apiName);
      !(Truthy(Field(m, "success", JNull)) && "data" in m) && !(Field(m, "status", JNull) == JStr("success") && "result" in m)
      && "download_url" in m && r.Ok?
      ==> r.value.Some? && r.value.value.extractor == ThirdPartyName + ":" + apiName
          && |r.value.value.files| == 1 && r.value.value.files[0].isVideo
          && r.value.value.files[0].directLink == m["download_url"]
  {
  }

  /** `_extract_from_data` only succeeds with files, tagged "third_party"; each takes its name
      from filename, else name, else "Unknown", and its link from download_url, else dlink. */
  lemma ExtractFromDataFiles(data: Json)
    ensures var r := ExtractFromData(data);
      r.Ok? && r.value.Some? ==> r.value.value.extractor == ThirdPartyName && r.value.value.files != []
  {
  }

  lemma ThirdItemFields(item: Json)
    requires ThirdItem(item).Ok?
    ensures item.JObj?
    ensures var m := item.fields; var f := ThirdItem(item).value;
      && f.filename == (if "filename" in m then m["filename"] else if "name" in m then m["name"] else JStr("Unknown"))
      && f.directLink == (if "download_url" in m then m["download_url"] else if "dlink" in m then m["dlink"] else JStr(""))
  {
  }
}
