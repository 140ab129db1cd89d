/** `ScraperExtractor`: fetches the share page under several hosts and reads the file list
    embedded in it. The regular-expression search is the oracle `find` (the first capture
    group, or `None` when the pattern does not match) and `json.loads` is the oracle `loads`
    (`None` when it raises). */
module ScraperStrategy {
  import opened Wrappers
  import opened Text
  import opened Json
  import opened Base
  import opened Strategy

  const ScraperName: string := "scraper"
  const ScraperPriority: nat := 3

  /** The pages tried, in order: three hosts with the share id as found (not normalised), then
      the url itself. */
  function CandidateUrls(url: string, shareId: string): seq<string> {
    ["https://www.terabox.com/s/" + shareId, "https://www.teraboxapp.com/s/" + shareId,
     "https://www.1024tera.com/s/" + shareId, url]
  }

  // ----- File items -----

  /** `_parse_file_item`. */
  function ParseFileItem(item: Json): Res<FileInfo> {
    if !item.JObj? then Raise("object has no attribute 'get'")
    else
      var m := item.fields;
      var filename := Field(m, "server_filename", Field(m, "filename", JStr("Unknown")));
      var size := Field(m, "size", JInt(0));
      var formatted :- SizeOf(size);
      var isVideo :- VideoFlag(Field(m, "category", JNull), filename);
      var thumbs := Field(m, "thumbs", JObj(map[]));
      var thumbnail :- if thumbs.JObj? then Ok(Field(thumbs.fields, "url3", JStr(""))) else Raise("object has no attribute 'get'");
      var duration :- DurationOf(Field(m, "duration", JInt(0)));
      Ok(FileInfo(filename, size, formatted, Some(Field(m, "fs_id", JStr(""))), Field(m, "dlink", JStr("")),
                  isVideo, Some(thumbnail), None, Some(duration), Some(Field(m, "resolution", JStr("")))))
  }

  /** The files of a list value: one per item, `None` when there are none. */
  function ParseList(list: Json): Res<Option<seq<FileInfo>>> {
    var items :- Items(list);
    var files :- ParseEach(items, ParseFileItem);
    if files == [] then Ok(None) else Ok(Some(files))
  }

  // ----- window.__INITIAL_STATE__ -----

  /** The three candidate lists, all read before any is used:
      shareInfo.file_list.list, file_list.list and list. */
  function InitialStateLists(data: Json): Res<seq<Json>> {
    var shareInfo :- GetObj(data, "shareInfo");
    var nested :- GetObj(shareInfo, "file_list");
    var l1 :- DictGet(nested, "list", JArr([]));
    var fileList :- GetObj(data, "file_list");
    var l2 :- DictGet(fileList, "list", JArr([]));
    var l3 :- DictGet(data, "list", JArr([]));
    Ok([l1, l2, l3])
  }

  /** The position of the first truthy value. */
  function FirstTruthy(ls: seq<Json>): (r: Option<nat>)
    ensures r.Some? ==> r.value < |ls| && Truthy(ls[r.value]) && forall k :: 0 <= k < r.value ==> !Truthy(ls[k])
    ensures r.None? ==> forall k :: 0 <= k < |ls| ==> !Truthy(ls[k])
  {
    if ls == [] then None
    else if Truthy(ls[0]) then Some(0)
    else
      var r := FirstTruthy(ls[1..]);
      if r.Some? then Some(r.value + 1) else None
  }

  /** `_parse_initial_state`: only the first non-empty list is used. */
  function ParseInitialState(data: Json): Res<Option<seq<FileInfo>>> {
    var lists :- InitialStateLists(data);
    match FirstTruthy(lists)
    case None => Ok(None)
    case Some(k) => ParseList(lists[k])
  }

  /** `_parse_initial_state` with its loop: the first non-empty list is appended item by
      item, then the loop breaks. */
  method ParseInitialStateLoop(data: Json) returns (r: Res<Option<seq<FileInfo>>>)
    ensures r == ParseInitialState(data)
  {
    var lists := InitialStateLists(data);
    if lists.Raise? {
      return Raise(lists.msg);
    }
    var files: seq<FileInfo> := [];
    var k := 0;
    while k < |lists.value|
      invariant k <= |lists.value|
      invariant forall j :: 0 <= j < k ==> !Truthy(lists.value[j])
    {
      if Truthy(lists.value[k]) {
        var items := Items(lists.value[k]);
        if items.Raise? {
          return Raise(items.msg);
        }
        var parsed := AppendEach(items.value, ParseFileItem);
        if parsed.Raise? {
          return Raise(parsed.msg);
        }
        files := parsed.value;
        break;
      }
      k := k + 1;
    }
    r := if files == [] then Ok(None) else Ok(Some(files));
  }

  const InitialStatePatterns: seq<Pattern> := [InitialStateScript, InitialStateLine]

  /** `_extract_initial_state` from pattern `k` on: the first pattern that matches and decodes
      decides, whatever `_parse_initial_state` then gives; an exception moves on. */
  function InitialStateFrom(html: string, find: (string, Pattern) -> Option<string>, loads: string -> Option<Json>, k: nat)
    : Option<seq<FileInfo>>
    requires k <= 2
    decreases 2 - k
  {
    if k == 2 then None
    else match find(html, InitialStatePatterns[k])
      case None => InitialStateFrom(html, find, loads, k + 1)
      case Some(text) =>
        match loads(text)
        case None => InitialStateFrom(html, find, loads, k + 1)
        case Some(data) =>
          var r := ParseInitialState(data);
          if r.Raise? then InitialStateFrom(html, find, loads, k + 1) else r.value
  }

  // ----- locals.mset(...) -----

  /** The length of the whitespace run at the front. */
  function SpaceRun(s: string): (n: nat)
    ensures n <= |s| && forall i :: 0 <= i < n ==> IsSpace(s[i])
    ensures n < |s| ==> !IsSpace(s[n])
  {
    if s != [] && IsSpace(s[0]) then 1 + SpaceRun(s[1..]) else 0
  }

  /** A comma, whitespace, then `close` at the front of `s`. */
  predicate TrailingComma(s: string, close: char) {
    |s| > 0 && s[0] == ',' && 1 + SpaceRun(s[1..]) < |s| && s[1 + SpaceRun(s[1..])] == close
  }

  /** `re.sub(r',\s*' + close, close, s)`: each comma followed by whitespace and `close` is
      dropped with the whitespace, scanning left to right without overlap. */
  function DropCommasBefore(s: string, close: char): string
    decreases |s|
  {
    if s == [] then []
    else if TrailingComma(s, close) then [close] + DropCommasBefore(s[2 + SpaceRun(s[1..])..], close)
    else [s[0]] + DropCommasBefore(s[1..], close)
  }

  /** The two substitutions of `_extract_locals_mset`. */
  function StripTrailingCommas(s: string): string {
    DropCommasBefore(DropCommasBefore(s, '}'), ']')
  }

  /** The characters other than commas and whitespace. */
  function Solid(s: string): (r: string)
    ensures forall i :: 0 <= i < |r| ==> r[i] != ',' && !IsSpace(r[i])
  {
    if s == [] then []
    else if s[0] == ',' || IsSpace(s[0]) then Solid(s[1..])
    else [s[0]] + Solid(s[1..])
  }

  lemma {:induction false} SolidConcat(a: string, b: string)
    ensures Solid(a + b) == Solid(a) + Solid(b)
  {
    if a != [] {
      assert (a + b)[0] == a[0];
      assert (a + b)[1..] == a[1..] + b;
      SolidConcat(a[1..], b);
    } else {
      assert a + b == b;
    }
  }

  /** The substitution only removes commas and whitespace: everything else stays, in order. */
  lemma {:induction false} DropKeepsSolid(s: string, close: char)
    requires close != ',' && !IsSpace(close)
    ensures Solid(DropCommasBefore(s, close)) == Solid(s)
    decreases |s|
  {
    if s != [] {
      if TrailingComma(s, close) {
        var rest := s[2 + SpaceRun(s[1..])..];
        DropKeepsSolid(rest, close);
        SolidOfTrailingComma(s, close);
        SolidCons(close, DropCommasBefore(rest, close));
      } else {
        DropKeepsSolid(s[1..], close);
        SolidCons(s[0], DropCommasBefore(s[1..], close));
        assert s == [s[0]] + s[1..];
        SolidCons(s[0], s[1..]);
      }
    }
  }

  lemma SolidCons(c: char, t: string)
    ensures Solid([c] + t) == if c == ',' || IsSpace(c) then Solid(t) else [c] + Solid(t)
  {
    assert ([c] + t)[0] == c && ([c] + t)[1..] == t;
  }

  /** A dropped comma and the whitespace after it contribute nothing solid. */
  lemma SolidOfTrailingComma(s: string, close: char)
    requires close != ',' && !IsSpace(close) && TrailingComma(s, close)
    ensures Solid(s) == [close] + Solid(s[2 + SpaceRun(s[1..])..])
  {
    var n := SpaceRun(s[1..]);
    var head, tail := s[..1 + n], s[1 + n..];
    assert s == head + tail;
    forall i | 0 <= i < |head| ensures head[i] == ',' || IsSpace(head[i]) {
      if i > 0 { assert head[i] == s[1..][i - 1]; }
    }
    SeparatorsAreNotSolid(head);
    SolidConcat(head, tail);
    assert tail == [close] + s[2 + n..];
    SolidCons(close, s[2 + n..]);
  }

  lemma {:induction false} SeparatorsAreNotSolid(s: string)
    requires forall i :: 0 <= i < |s| ==> s[i] == ',' || IsSpace(s[i])
    ensures Solid(s) == []
  {
    if s != [] {
      SeparatorsAreNotSolid(s[1..]);
    }
  }

  /** Text without a trailing comma before `close` is left as it is. */
  lemma {:induction false} DropWithoutMatch(s: string, close: char)
    requires forall i :: 0 <= i < |s| ==> !TrailingComma(s[i..], close)
    ensures DropCommasBefore(s, close) == s
    decreases |s|
  {
    if s != [] {
      assert s[0..] == s;
      forall i | 0 <= i < |s[1..]| ensures !TrailingComma(s[1..][i..], close) {
        assert s[1..][i..] == s[i + 1..];
      }
      DropWithoutMatch(s[1..], close);
    }
  }

  /** A trailing comma in front is removed with its whitespace. */
  lemma DropRemovesFront(ws: string, rest: string, close: char)
    requires forall i :: 0 <= i < |ws| ==> IsSpace(ws[i])
    requires !IsSpace(close)
    ensures DropCommasBefore([','] + ws + [close] + rest, close) == [close] + DropCommasBefore(rest, close)
  {
    var s := [','] + ws + [close] + rest;
    assert s[1..] == ws + ([close] + rest);
    SpaceRunOver(ws, [close] + rest);
    assert s[1 + |ws|] == close;
    assert TrailingComma(s, close);
    assert s[2 + |ws|..] == rest;
  }

  lemma {:induction false} SpaceRunOver(ws: string, t: string)
    requires forall i :: 0 <= i < |ws| ==> IsSpace(ws[i])
    requires t != [] && !IsSpace(t[0])
    ensures SpaceRun(ws + t) == |ws|
  {
    if ws != [] {
      assert (ws + t)[1..] == ws[1..] + t;
      SpaceRunOver(ws[1..], t);
    }
  }

  /** `_extract_locals_mset`: succeeds only for a non-empty file_list.list. */
  function LocalsMsetFiles(html: string, find: (string, Pattern) -> Option<string>, loads: string -> Option<Json>)
    : Option<seq<FileInfo>>
  {
    match find(html, Pattern.LocalsMset)
    case None => None
    case Some(text) =>
      match loads(StripTrailingCommas(text))
      case None => None
      case Some(data) =>
        var fileList := GetObj(data, "file_list");
        var list := if fileList.Ok? then DictGet(fileList.value, "list", JArr([])) else Raise(fileList.msg);
        if list.Raise? || !Truthy(list.value) then None
        else
          var r := ParseList(list.value);
          if r.Raise? then None else r.value
  }

  // ----- "file_list": [...] -----

  const FileListPatterns: seq<Pattern> := [FileListKey, ListKey]

  /** `_extract_file_list_json` from pattern `k` on: the first pattern whose capture decodes
      to a non-empty list of parsable items wins. */
  function FileListFrom(html: string, find: (string, Pattern) -> Option<string>, loads: string -> Option<Json>, k: nat)
    : Option<seq<FileInfo>>
    requires k <= 2
    decreases 2 - k
  {
    if k == 2 then None
    else
      var found := if find(html, FileListPatterns[k]).Some? then loads(find(html, FileListPatterns[k]).value) else None;
      var r := if found.Some? then ParseList(found.value) else Ok(None);
      if r.Ok? && r.value.Some? then r.value else FileListFrom(html, find, loads, k + 1)
  }

  // ----- Pages -----

  /** The three page readers, in the order `_scrape_page` tries them. */
  function SubExtract(html: string, find: (string, Pattern) -> Option<string>, loads: string -> Option<Json>, k: int)
    : Option<seq<FileInfo>>
  {
    if k == 0 then InitialStateFrom(html, find, loads, 0)
    else if k == 1 then LocalsMsetFiles(html, find, loads)
    else FileListFrom(html, find, loads, 0)
  }

  /** `_scrape_page`: a response with an "html" key is read by the three readers in order;
      the first that finds files wins and is tagged with the scraper's name. An "html" value
      that is not a string makes every reader raise. */
  function ScrapePage(url: string, net: Req -> Json, find: (string, Pattern) -> Option<string>, loads: string -> Option<Json>)
    : Attempt
  {
    var response := net(GetRequest(url, []));
    if !Truthy(response) then Ok(None)
    else
      var hasHtml :- Has(response, "html");
      if !hasHtml then Ok(None)
      else
        var html :- Index(response, "html");
        if !html.JStr? then Ok(None)
        else Ok(FirstSuccess([0, 1, 2], (k: int) =>
          var files := SubExtract(html.s, find, loads, k);
          if files.Some? then Ok(Some(Success(files.value, ScraperName))) else Ok(None)).0)
  }

  /** `ScraperExtractor.extract`: `None` without a share id; otherwise the candidate pages in
      order. */
  function ScraperExtract(url: string, net: Req -> Json, find: (string, Pattern) -> Option<string>, loads: string -> Option<Json>)
    : Option<Reply>
  {
    match ExtractShareId(url)
    case None => None
    case Some(id) => FirstSuccess(CandidateUrls(url, id), (u: string) => ScrapePage(u, net, find, loads)).0
  }

  /** `ScraperExtractor.extract` with its loop. */
  method ScraperExtractLoop(url: string, net: Req -> Json, find: (string, Pattern) -> Option<string>, loads: string -> Option<Json>)
    returns (r: Option<Reply>)
    ensures r == ScraperExtract(url, net, find, loads)
  {
    var id := ExtractShareId(url);
    if id.None? {
      return None;
    }
    var tried;
    r, tried := FirstSuccessLoop(CandidateUrls(url, id.value), (u: string) => ScrapePage(u, net, find, loads));
  }

  // ----- Properties -----

  /** Without a share id the scraper gives `None`; with one, the fourth page is the url
      itself and the other three carry the id unnormalised. */
  lemma ScraperPages(url: string, net: Req -> Json, find: (string, Pattern) -> Option<string>, loads: string -> Option<Json>)
    ensures ExtractShareId(url).None? ==> ScraperExtract(url, net, find, loads).None?
    ensures ExtractShareId(url).Some? ==>
      var us := CandidateUrls(url, ExtractShareId(url).value);
      |us| == 4 && us[3] == url && us[0] == "https://www.terabox.com/s/" + ExtractShareId(url).value
  {
  }

  /** A page only succeeds when its response has an "html" key, with files, tagged "scraper". */
  lemma ScrapePageNeedsHtml(url: string, net: Req -> Json, find: (string, Pattern) -> Option<string>, loads: string -> Option<Json>)
    ensures var r := ScrapePage(url, net, find, loads);
      var response := net(GetRequest(url, []));
      Succeeded(r) ==> Truthy(response) && Has(response, "html") == Ok(true) && r.value.value.extractor == ScraperName
  {
  }

  /** `_parse_initial_state` reads the first non-empty list only, and gives `None` when all
      three are empty. */
  lemma InitialStateFirstList(data: Json)
    requires InitialStateLists(data).Ok?
    ensures var ls := InitialStateLists(data).value;
      && ((forall k :: 0 <= k < 3 ==> !Truthy(ls[k])) ==> ParseInitialState(data) == Ok(None))
      && (Truthy(ls[0]) ==> ParseInitialState(data) == ParseList(ls[0]))
      && (!Truthy(ls[0]) && Truthy(ls[1]) ==> ParseInitialState(data) == ParseList(ls[1]))
  {
  }

  /** A non-empty list gives a file per item; an empty one gives `None`. */
  lemma ParseListOnePerItem(list: Json)
    ensures var r := ParseList(list);
      && (r.Ok? && r.value.Some? ==> list.JArr? && |r.value.value| == |list.items| > 0)
      && (!Truthy(list) && Items(list).Ok? ==> r == Ok(None))
  {
  }

  /** The comma substitutions keep everything but commas and whitespace, and leave text
      without trailing commas alone. */
  lemma StripKeepsSolid(s: string)
    ensures Solid(StripTrailingCommas(s)) == Solid(s)
    ensures (forall i :: 0 <= i < |s| ==> !TrailingComma(s[i..], '}') && !TrailingComma(s[i..], ']'))
      ==> StripTrailingCommas(s) == s
  {
    DropKeepsSolid(s, '}');
    DropKeepsSolid(DropCommasBefore(s, '}'), ']');
    if forall i :: 0 <= i < |s| ==> !TrailingComma(s[i..], '}') && !TrailingComma(s[i..], ']') {
      DropWithoutMatch(s, '}');
      DropWithoutMatch(s, ']');
    }
  }

  /** The locals.mset and "file_list" readers only succeed with files. */
  lemma {:induction false} ReadersNeedFiles(html: string, find: (string, Pattern) -> Option<string>, loads: string -> Option<Json>, k: nat)
    requires k <= 2
    ensures LocalsMsetFiles(html, find, loads).Some? ==> LocalsMsetFiles(html, find, loads).value != []
    ensures FileListFrom(html, find, loads, k).Some? ==> FileListFrom(html, find, loads, k).value != []
    decreases 2 - k
  {
    if k < 2 {
      ReadersNeedFiles(html, find, loads, k + 1);
    }
  }

  /** The defaults of a scraped file: filename is server_filename, else filename, else
      "Unknown"; the duration is always written; a video when the category is 1 or the name
      has a video extension. */
  lemma FileItemFields(item: Json)
    requires ParseFileItem(item).Ok?
    ensures item.JObj?
    ensures var m := item.fields; var f := ParseFileItem(item).value;
      && f.filename == (if "server_filename" in m then m["server_filename"] else if "filename" in m then m["filename"] else JStr("Unknown"))
      && f.duration.Some? && f.fsId.Some?
      && (f.isVideo <==> IsOne(Field(m, "category", JNull)) || (f.filename.JStr? && IsVideoFile(f.filename.s)))
  {
  }
}
