/** `BypassExtractor`: the mobile API, the signed app API and the WAP page, in that order.
    The millisecond clock and the md5 digest are inputs. */
module BypassStrategy {
  import opened Wrappers
  import opened Text
  import opened Json
  import opened Base
  import opened Strategy

  const BypassName: string := "bypass"
  const BypassPriority: nat := 5

  function MobileParams(shareId: string): seq<(string, string)> {
    [("shorturl", shareId), ("root", "1"), ("page", "1"), ("num", "100"), ("clienttype", "1"), ("channel", "android")]
  }

  function MobileReq(shareId: string): Req {
    GetRequest(WithQuery("https://www.terabox.com/share/list", MobileParams(shareId)), [("User-Agent", "terabox;4.5.0;Android;14;SM-S918B")])
  }

  /** The string the app method signs. */
  function SignInput(shareId: string, timestamp: nat): string {
    "shorturl=" + shareId + "&timestamp=" + Decimal(timestamp) + "&app_id=250528"
  }

  function AppParams(shareId: string, timestamp: nat, sign: string): seq<(string, string)> {
    [("shorturl", shareId), ("timestamp", Decimal(timestamp)), ("sign", sign), ("app_id", "250528"), ("clienttype", "5")]
  }

  function AppReq(shareId: string, timestamp: nat, sign: string): Req {
    GetRequest(WithQuery("https://www.terabox.com/api/shorturlinfo", AppParams(shareId, timestamp, sign)), [])
  }

  function WapReq(shareId: string): Req {
    GetRequest("https://www.terabox.com/wap/share/filelist?surl=" + shareId,
               [("User-Agent", "Mozilla/5.0 (iPhone; CPU iPhone OS 17_0 like Mac OS X) AppleWebKit/605.1.15")])
  }

  /** One file of `_parse_api_response`. */
  function BypassItem(item: Json): Res<FileInfo> {
    if !item.JObj? then Raise("object has no attribute 'get'")
    else
      var m := item.fields;
      var size := Field(m, "size", JInt(0));
      var formatted :- SizeOf(size);
      var isVideo :- VideoFlag(Field(m, "category", JNull), Field(m, "server_filename", JStr("")));
      var thumbs := Field(m, "thumbs", JObj(map[]));
      var thumbnail :- if thumbs.JObj? then Ok(Field(thumbs.fields, "url3", JStr(""))) else Raise("object has no attribute 'get'");
      Ok(FileInfo(Field(m, "server_filename", JStr("Unknown")), size, formatted, Some(Field(m, "fs_id", JStr(""))),
                  Field(m, "dlink", JStr("")), isVideo, Some(thumbnail), None, None, None))
  }

  /** `_parse_api_response`: `None` for an empty list. */
  function ParseApiResponse(data: Json): Attempt {
    if !data.JObj? then Raise("object has no attribute 'get'")
    else
      var items :- Items(Field(data.fields, "list", JArr([])));
      var files :- ParseEach(items, BypassItem);
      if files == [] then Ok(None) else Ok(Some(Success(files, BypassName)))
  }

  /** `_parse_api_response` with its append loop. */
  method ParseApiResponseLoop(data: Json) returns (r: Attempt)
    ensures r == ParseApiResponse(data)
  {
    if !data.JObj? {
      return Raise("object has no attribute 'get'");
    }
    var items := Items(Field(data.fields, "list", JArr([])));
    if items.Raise? {
      return Raise(items.msg);
    }
    var files := AppendEach(items.value, BypassItem);
    if files.Raise? {
      return Raise(files.msg);
    }
    r := if files.value == [] then Ok(None) else Ok(Some(Success(files.value, BypassName)));
  }

  /** A mobile or app answer is parsed only when it is a dict with errno 0. */
  function Accepted(response: Json): Attempt {
    if IsDict(response) && "errno" in response.fields && IsZero(response.fields["errno"]) then ParseApiResponse(response)
    else Ok(None)
  }

  /** `_mobile_api_bypass` */
  function Mobile(url: string, net: Req -> Json): Attempt {
    match ExtractShareId(url)
    case None => Ok(None)
    case Some(id) => Accepted(net(MobileReq(NormalizeShareId(id))))
  }

  /** `_app_api_bypass`, at `nowMs` milliseconds, with `md5` the hex digest. */
  function App(url: string, net: Req -> Json, nowMs: nat, md5: string -> string): Attempt {
    match ExtractShareId(url)
    case None => Ok(None)
    case Some(id) =>
      var shareId := NormalizeShareId(id);
      Accepted(net(AppReq(shareId, nowMs, md5(SignInput(shareId, nowMs)))))
  }

  /** `_wap_bypass`: the yunData object of the page, when found and decoded. */
  function Wap(url: string, net: Req -> Json, find: (string, Pattern) -> Option<string>, loads: string -> Option<Json>): Attempt {
    match ExtractShareId(url)
    case None => Ok(None)
    case Some(id) =>
      var response := net(WapReq(NormalizeShareId(id)));
      if !Truthy(response) then Ok(None)
      else
        var hasHtml :- Has(response, "html");
        if !hasHtml then Ok(None)
        else
          var html :- Index(response, "html");
          if !html.JStr? then Raise("expected string or bytes-like object")
          else match find(html.s, YunData)
            case None => Ok(None)
            case Some(text) =>
              match loads(text)
              case None => Ok(None)
              case Some(data) =>
                var r := ParseApiResponse(data);
                if r.Raise? then Ok(None) else r
  }

  /** The environment of one extraction: network, clock, digest and page readers. */
  datatype Env = Env(net: Req -> Json, nowMs: nat, md5: string -> string, find: (string, Pattern) -> Option<string>, loads: string -> Option<Json>)

  /** The methods in order: mobile, app, wap. */
  function Method(url: string, e: Env, k: int): Attempt {
    if k == 0 then Mobile(url, e.net)
    else if k == 1 then App(url, e.net, e.nowMs, e.md5)
    else Wap(url, e.net, e.find, e.loads)
  }

  /** `BypassExtractor.extract` */
  function BypassExtract(url: string, e: Env): Option<Reply> {
    FirstSuccess([0, 1, 2], (k: int) => Method(url, e, k)).0
  }

  /** `BypassExtractor.extract` with its loop. */
  method BypassExtractLoop(url: string, e: Env) returns (r: Option<Reply>)
    ensures r == BypassExtract(url, e)
  {
    var tried;
    r, tried := FirstSuccessLoop([0, 1, 2], (k: int) => Method(url, e, k));
  }

  // ----- Properties -----

  /** Every method gives `None` without a share id, so the strategy does too. */
  lemma NoShareIdNoReply(url: string, e: Env)
    requires ExtractShareId(url).None?
    ensures forall k :: 0 <= k < 3 ==> Method(url, e, k) == Ok(None)
    ensures BypassExtract(url, e).None?
  {
  }

  /** The mobile and app methods succeed only on a dict with errno 0, and only with files. */
  lemma AcceptsErrnoZero(response: Json)
    ensures Succeeded(Accepted(response)) ==>
      IsDict(response) && "errno" in response.fields && IsZero(response.fields["errno"])
      && Accepted(response).value.value.files != [] && Accepted(response).value.value.extractor == BypassName
  {
  }

  /** The signing input is three `k=v` pieces joined by '&': the share id, the timestamp and
      the app id. */
  lemma SignInputPieces(shareId: string, timestamp: nat)
    requires !HasChar(shareId, '&')
    ensures SplitChar(SignInput(shareId, timestamp), '&')
      == ["shorturl=" + shareId, "timestamp=" + Decimal(timestamp), "app_id=250528"]
  {
    var a := "shorturl=" + shareId;
    var b := "timestamp=" + Decimal(timestamp);
    var c := "app_id=250528";
    NoAmpConcat("shorturl=", shareId);
    NoAmpConcat("timestamp=", Decimal(timestamp));
    assert !HasChar(c, '&');
    SplitThree(a, b, c);
    SignInputShape(shareId, Decimal(timestamp));
  }

  lemma SignInputShape(shareId: string, digits: string)
    ensures "shorturl=" + shareId + "&timestamp=" + digits + "&app_id=250528"
      == ("shorturl=" + shareId) + "&" + ("timestamp=" + digits) + "&" + "app_id=250528"
  {
    assert "&timestamp=" == "&" + "timestamp=";
    assert "&app_id=250528" == "&" + "app_id=250528";
  }

  lemma NoAmpConcat(x: string, y: string)
    requires !HasChar(x, '&') && !HasChar(y, '&')
    ensures !HasChar(x + y, '&')
  {
    forall i | 0 <= i < |x + y| ensures (x + y)[i] != '&' {
      if i >= |x| { assert (x + y)[i] == y[i - |x|]; }
    }
  }

  lemma SplitThree(a: string, b: string, c: string)
    requires !HasChar(a, '&') && !HasChar(b, '&') && !HasChar(c, '&')
    ensures SplitChar(a + "&" + b + "&" + c, '&') == [a, b, c]
  {
    SplitNoSep(c, '&');
    SplitPrefix(b, c, '&');
    SplitPrefix(a, b + "&" + c, '&');
    assert a + "&" + b + "&" + c == a + ['&'] + (b + ['&'] + c);
  }

  /** The signed share id is the normalised one, which starts with '1'. */
  lemma AppSignsNormalisedId(url: string, timestamp: nat)
    requires ExtractShareId(url).Some?
    ensures var shareId := NormalizeShareId(ExtractShareId(url).value);
      shareId[0] == '1' && SignInput(shareId, timestamp)[..9] == "shorturl=" && SignInput(shareId, timestamp)[9] == '1'
  {
  }

  /** `_parse_api_response` gives `None` for an empty list and otherwise one file per item. */
  lemma ParseApiResponseFiles(data: Json)
    requires data.JObj?
    ensures Field(data.fields, "list", JArr([])) == JArr([]) ==> ParseApiResponse(data) == Ok(None)
    ensures var r := ParseApiResponse(data); var items := Items(Field(data.fields, "list", JArr([])));
      r.Ok? && r.value.Some? ==> items.Ok? && |r.value.value.files| == |items.value| > 0
  {
  }

  lemma BypassItemFields(item: Json)
    requires BypassItem(item).Ok?
    ensures item.JObj?
    ensures var m := item.fields; var f := BypassItem(item).value;
      && ("server_filename" !in m ==> f.filename == JStr("Unknown"))
      && (IsOne(Field(m, "category", JNull)) ==> f.isVideo)
      && (!IsOne(Field(m, "category", JNull)) ==> (f.isVideo <==> IsVideoFile(Field(m, "server_filename", JStr("")).s)))
  {
  }
}
