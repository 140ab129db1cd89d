/** What the four extraction strategies share: the file descriptor and reply they build, the
    request they hand to `BaseExtractor.request`, the size/duration/video helpers applied to
    JSON fields, and the two loop shapes every strategy is made of (an append loop over the
    items of a file list, and a first-success loop over fixed candidates). */
module Strategy {
  import opened Wrappers
  import opened Text
  import opened Json
  import opened Base

  /** One file of a reply. Fields a strategy does not write are `None`; `fsId` is the raw
      value that the source passes to `str()`. */
  datatype FileInfo = FileInfo(
    filename: Json,
    size: Json,
    formattedSize: SizeText,
    fsId: Option<Json>,
    directLink: Json,
    isVideo: bool,
    thumbnail: Option<Json>,
    md5: Option<Json>,
    duration: Option<string>,
    resolution: Option<Json>)

  /** A strategy's dict: `{"success": True, "files": ..., "extractor": ...}`, or one whose
      "success" is false or missing and that carries an "error" message. */
  datatype Reply = Success(files: seq<FileInfo>, extractor: string) | Failure(error: string)

  /** The arguments of one `self.request(...)` call. */
  datatype Req = Req(
    url: string,
    httpMethod: string,
    headers: seq<(string, string)>,
    jsonBody: Option<Json>,
    useProxy: bool,
    useCookie: bool)

  /** `self.request(url, headers=headers)` with its defaults: GET, proxy and cookie on. */
  function GetRequest(url: string, headers: seq<(string, string)>): Req {
    Req(url, "GET", headers, None, true, true)
  }

  /** The page patterns searched with `re.search(pattern, html, re.DOTALL)`. */
  datatype Pattern =
    | InitialStateScript   // window.__INITIAL_STATE__ = {...} up to </script>
    | InitialStateLine     // window.__INITIAL_STATE__ = {...} up to the end of the line
    | LocalsMset           // locals.mset({...})
    | FileListKey          // "file_list": [...]
    | ListKey              // "list": [...]
    | YunData              // window.yunData = {...};

  /** What a candidate attempt gives: a dict, `None`, or an exception. */
  type Attempt = Res<Option<Reply>>

  /** `result and result.get("success")` */
  predicate Succeeded(a: Attempt) {
    a.Ok? && a.value.Some? && a.value.value.Success?
  }

  /** `response and isinstance(response, dict)` */
  predicate IsDict(response: Json) {
    response.JObj? && Truthy(response)
  }

  // ----- Field helpers -----

  /** `format_size` on a non-zero amount. */
  function Scaled(x: real): SizeText {
    var (amount, idx) := Scale(x, 0);
    Sized(amount, SizeUnits[idx])
  }

  /** `format_size(v)` for a JSON field: `v == 0` gives "Unknown" (also for `False`); an
      integer is formatted. Of the strings `float()` accepts only plain digit strings are
      modelled; signs, a decimal point, exponents, surrounding whitespace, underscores, "inf"
      and "nan" raise here although Python converts them. */
  function SizeOf(v: Json): (r: Res<SizeText>)
    ensures v.JInt? ==> r == Ok(SizeFor(v.i))
    ensures r == Ok(Unknown) <==> IsZero(v)
    ensures r.Ok? <==> (v.JInt? || v.JBool? || (v.JStr? && v.s != "" && AllDigits(v.s)))
  {
    match v
    case JInt(n) => Ok(SizeFor(n))
    case JBool(b) => Ok(SizeFor(if b then 1 else 0))
    case JStr(s) =>
      if s != "" && AllDigits(s) then Ok(Scaled(DecimalValue(s) as real))
      else Raise("could not convert string to float")
    case _ => Raise("float() argument must be a string or a number")
  }

  /** `format_duration(v)` for a JSON field: only integers (and booleans) support `//`. */
  function DurationOf(v: Json): (r: Res<string>)
    ensures r.Ok? <==> (v.JInt? || v.JBool?)
    ensures IsZero(v) ==> r == Ok("")
    ensures v.JInt? ==> r == Ok(FormatDuration(v.i))
  {
    match v
    case JInt(n) => Ok(FormatDuration(n))
    case JBool(b) => Ok(FormatDuration(if b then 1 else 0))
    case _ => Raise("unsupported operand type for //")
  }

  /** `is_video_file(name)` on a JSON field: only a string can be lowered. */
  function VideoName(name: Json): (r: Res<bool>)
    ensures r.Ok? <==> name.JStr?
    ensures name.JStr? ==> r.value == IsVideoFile(name.s)
  {
    if name.JStr? then Ok(IsVideoFile(name.s)) else Raise("object has no attribute 'lower'")
  }

  /** `category == 1 or is_video_file(name)`: the name is only looked at when the category
      is not 1. */
  function VideoFlag(category: Json, name: Json): (r: Res<bool>)
    ensures IsOne(category) ==> r == Ok(true)
    ensures !IsOne(category) ==> r == VideoName(name)
  {
    if IsOne(category) then Ok(true) else VideoName(name)
  }

  // ----- Append loops -----

  /** Parses the items in order into a list of files; the first item that raises makes the
      whole loop raise. */
  function ParseEach(items: seq<Json>, parse: Json -> Res<FileInfo>): (r: Res<seq<FileInfo>>)
    ensures r.Ok? ==> |r.value| == |items| && forall k :: 0 <= k < |items| ==> parse(items[k]) == Ok(r.value[k])
    ensures r.Raise? <==> exists k :: 0 <= k < |items| && parse(items[k]).Raise?
  {
    if items == [] then Ok([])
    else
      var n := |items| - 1;
      var init := ParseEach(items[..n], parse);
      if init.Raise? then
        var k :| 0 <= k < n && parse(items[..n][k]).Raise?;
        assert parse(items[k]).Raise?;
        Raise(init.msg)
      else
        var f := parse(items[n]);
        if f.Raise? then Raise(f.msg)
        else
          var r := init.value + [f.value];
          assert forall k :: 0 <= k < n ==> items[..n][k] == items[k];
          Ok(r)
  }

  /** A prefix that raises makes the whole loop raise with the same exception. */
  lemma {:induction false} ParseEachPrefixRaises(items: seq<Json>, k: nat, parse: Json -> Res<FileInfo>)
    requires k <= |items| && ParseEach(items[..k], parse).Raise?
    ensures ParseEach(items, parse) == ParseEach(items[..k], parse)
    decreases |items| - k
  {
    if k < |items| {
      var n := |items| - 1;
      assert items[..n][..k] == items[..k];
      ParseEachPrefixRaises(items[..n], k, parse);
    } else {
      assert items[..k] == items;
    }
  }

  /** `files = []; for item in items: files.append(parse(item))` */
  method AppendEach(items: seq<Json>, parse: Json -> Res<FileInfo>) returns (r: Res<seq<FileInfo>>)
    ensures r == ParseEach(items, parse)
  {
    var files: seq<FileInfo> := [];
    var k := 0;
    while k < |items|
      invariant k <= |items|
      invariant ParseEach(items[..k], parse) == Ok(files)
    {
      var f := parse(items[k]);
      assert items[..k + 1][..k] == items[..k];
      if f.Raise? {
        ParseEachPrefixRaises(items, k + 1, parse);
        return Raise(f.msg);
      }
      files := files + [f.value];
      k := k + 1;
    }
    assert items[..k] == items;
    r := Ok(files);
  }

  // ----- First-success loops -----

  /** `for c in candidates: try: result = attempt(c); if result and result.get("success"):
      return result except: continue` then `return None`, together with the number of
      candidates attempted. The result is the first successful attempt's reply; every
      candidate before it was attempted and did not succeed; none after it was attempted. */
  function FirstSuccess<C>(cs: seq<C>, attempt: C -> Attempt): (r: (Option<Reply>, nat))
    ensures r.1 <= |cs|
    ensures r.0.Some? ==> 0 < r.1 && Succeeded(attempt(cs[r.1 - 1])) && r.0 == attempt(cs[r.1 - 1]).value
    ensures r.0.Some? ==> forall k :: 0 <= k < r.1 - 1 ==> !Succeeded(attempt(cs[k]))
    ensures r.0.None? ==> r.1 == |cs| && forall k :: 0 <= k < |cs| ==> !Succeeded(attempt(cs[k]))
  {
    if cs == [] then (None, 0)
    else if Succeeded(attempt(cs[0])) then (attempt(cs[0]).value, 1)
    else
      var (res, n) := FirstSuccess(cs[1..], attempt);
      assert forall k :: 1 <= k < |cs| ==> cs[k] == cs[1..][k - 1];
      (res, n + 1)
  }

  /** The first-success loop itself. */
  method FirstSuccessLoop<C>(cs: seq<C>, attempt: C -> Attempt) returns (r: Option<Reply>, tried: nat)
    ensures (r, tried) == FirstSuccess(cs, attempt)
  {
    var k := 0;
    while k < |cs|
      invariant k <= |cs|
      invariant forall j :: 0 <= j < k ==> !Succeeded(attempt(cs[j]))
    {
      var result := attempt(cs[k]);
      if Succeeded(result) {
        return result.value, k + 1;
      }
      k := k + 1;
    }
    return None, |cs|;
  }

  // ----- Query strings -----

  function PairText(kv: (string, string)): string {
    kv.0 + "=" + kv.1
  }

  /** `"&".join(f"{k}={v}" for k, v in params.items())`, in insertion order, unencoded. */
  function QueryString(params: seq<(string, string)>): string {
    JoinChar(seq(|params|, i requires 0 <= i < |params| => PairText(params[i])), '&')
  }

  /** `f"{url}?{query}"` */
  function WithQuery(url: string, params: seq<(string, string)>): string {
    url + "?" + QueryString(params)
  }

  predicate NoAmp(params: seq<(string, string)>) {
    forall i :: 0 <= i < |params| ==> !HasChar(params[i].0, '&') && !HasChar(params[i].1, '&')
  }

  /** Splitting the query string at '&' gives back one `k=v` piece per parameter, in order,
      when no key or value holds '&'. */
  lemma QueryStringSplits(params: seq<(string, string)>)
    requires |params| >= 1 && NoAmp(params)
    ensures var parts := SplitChar(QueryString(params), '&');
      |parts| == |params| && forall i :: 0 <= i < |params| ==> parts[i] == PairText(params[i])
  {
    var texts := seq(|params|, i requires 0 <= i < |params| => PairText(params[i]));
    assert forall i :: 0 <= i < |texts| ==> !HasChar(texts[i], '&');
    SplitJoinChar(texts, '&');
  }
}
