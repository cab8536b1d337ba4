/** The request-shaping part of the `Imagga` client class (src/Imagga.php):
    every endpoint method is a pure function from its arguments to either the
    client's exception message or a description of the one HTTP request it
    would send. Sending, authentication and JSON decoding are not modelled. */
module Imagga {
  import opened Wrappers
  import opened Bytes
  import opened UrlEncoding
  import opened QueryBuilder

  /** The base URL of the service; every request path is appended to it. */
  const Api: ByteString := Str("http://api.imagga.com/v1/")

  const MaxUrls := 10
  const MaxContentIds := 30

  const TenUrlsError := "You can only request ten URLs"
  const ThirtyUrlsError := "You can only request thirty URLs"
  const OneUrlError := "You can only request one URL"

  const Question: Byte := '?' as int
  const Comma: Byte := ',' as int

  /** A PHP argument that may be a single string or an array of strings. */
  datatype Arg = One(item: ByteString) | Many(items: seq<ByteString>)

  datatype Verb = GET | POST | DELETE

  /** The multipart `image` field of an upload: file name and contents. */
  datatype Upload = Upload(filename: ByteString, data: ByteString)

  /** A request: the verb, the path below `API` (query string included) that
      `_get`, `_post` or `_delete` is handed, the query pairs that query
      string was rendered from (kept for stating properties; the dispatch
      routine receives only the path), and the upload body for a POST. */
  datatype Request = Request(verb: Verb, path: ByteString, query: seq<Pair>, body: Option<Upload>)

  /** An `ImaggaException` message, or the request. */
  datatype Result<+T> = Ok(value: T) | Err(message: string)

  /** The list an argument stands for: a single string becomes a
      one-element list, an array is kept as it is. */
  function Items(a: Arg): (r: seq<ByteString>)
    ensures a.One? ==> r == [a.item]
    ensures a.Many? ==> r == a.items
  {
    match a
    case One(s) => [s]
    case Many(ss) => ss
  }

  /** A flag as the query renders it: PHP's `1` or `0`. */
  function Flag(b: bool): (r: ByteString)
    ensures r == Str("1") <==> b
    ensures r == Str("0") <==> !b
  {
    assert Str("1")[0] != Str("0")[0];
    if b then Str("1") else Str("0")
  }

  /** A GET of `endpoint?query`. */
  function QueryGet(endpoint: ByteString, q: Builder): Request
  {
    Request(GET, endpoint + [Question] + ToString(q), q.parts, None)
  }

  /** `r` is a GET whose path is `endpoint?` followed by the rendering of its
      query, and whose query holds one `(key, item)` pair per item, in
      order, followed by `extras`. */
  predicate ShapedGet(r: Request, endpoint: ByteString, key: ByteString,
                      items: seq<ByteString>, extras: seq<Pair>)
  {
    && r.verb == GET
    && r.body == None
    && r.path == endpoint + [Question] + Render(r.query)
    && |r.query| == |items| + |extras|
    && (forall i :: 0 <= i < |items| ==> r.query[i] == Pair(key, items[i]))
    && r.query[|items|..] == extras
  }

  const Tagging: ByteString := Str("tagging")
  const Croppings: ByteString := Str("croppings")
  const Colors: ByteString := Str("colors")
  const UrlKey: ByteString := Str("url")
  const ContentKey: ByteString := Str("content")

  function Categorizations(category: ByteString): ByteString
  {
    Str("categorizations/") + category
  }

  /** The two pairs a crop request ends with: the resolutions joined by
      commas, then `no_scaling`, which is `1` exactly when scaling is not
      allowed. */
  function CropExtras(resolution: Arg, allowScale: bool): (r: seq<Pair>)
    ensures |r| == 2
    ensures r[0].key == Str("resolution") && r[1].key == Str("no_scaling")
    ensures r[0].value == Join(Items(resolution), Comma)
    ensures r[1].value == Str("1") <==> !allowScale
    ensures r[1].value == Str("0") <==> allowScale
  {
    [Pair(Str("resolution"), Join(Items(resolution), Comma)),
     Pair(Str("no_scaling"), Flag(!allowScale))]
  }

  /** The two pairs a colour request ends with, each `1` when its flag is
      set and `0` when it is not. */
  function ColorExtras(extractOverallColors: bool, extractObjectColors: bool): (r: seq<Pair>)
    ensures |r| == 2
    ensures r[0].key == Str("extract_overall_colors") && r[1].key == Str("extract_object_colors")
    ensures r[0].value == Str("1") <==> extractOverallColors
    ensures r[1].value == Str("1") <==> extractObjectColors
    ensures r[0].value == Str("0") <==> !extractOverallColors
    ensures r[1].value == Str("0") <==> !extractObjectColors
  {
    [Pair(Str("extract_overall_colors"), Flag(extractOverallColors)),
     Pair(Str("extract_object_colors"), Flag(extractObjectColors))]
  }

  /** The builder every crop and colour endpoint fills: one `(key, item)`
      pair per item, then the two extra pairs `first` and `second`. */
  function ItemsThenTwo(key: ByteString, items: seq<ByteString>, first: Pair, second: Pair): (q: Builder)
    ensures |q.parts| == |items| + 2
    ensures forall i :: 0 <= i < |items| ==> q.parts[i] == Pair(key, items[i])
    ensures q.parts[|items|..] == [first, second]
  {
    var q0 := AddEach(Empty, key, items);
    var q1 := Add(q0, first.key, first.value);
    var q2 := Add(q1, second.key, second.value);
    assert q2.parts == q0.parts + [first, second];
    q2
  }

  function GetUsage(): (r: Request)
    ensures r.verb == GET && r.path == Str("usage") && r.query == [] && r.body == None
  {
    Request(GET, Str("usage"), [], None)
  }

  function GetCategories(): (r: Request)
    ensures r.verb == GET && r.path == Str("categorizers") && r.query == [] && r.body == None
  {
    Request(GET, Str("categorizers"), [], None)
  }

  function GetTagsByUrl(imageUrl: Arg): (r: Result<Request>)
    ensures r.Err? <==> |Items(imageUrl)| > MaxUrls
    ensures r.Err? ==> r.message == TenUrlsError
    ensures r.Ok? ==> ShapedGet(r.value, Tagging, UrlKey, Items(imageUrl), [])
  {
    var urls := Items(imageUrl);
    if |urls| > MaxUrls then Err(TenUrlsError)
    else Ok(QueryGet(Tagging, AddEach(Empty, UrlKey, urls)))
  }

  function GetTagsByContentId(contentId: Arg): (r: Result<Request>)
    ensures r.Err? <==> |Items(contentId)| > MaxContentIds
    ensures r.Err? ==> r.message == ThirtyUrlsError
    ensures r.Ok? ==> ShapedGet(r.value, Tagging, ContentKey, Items(contentId), [])
  {
    var ids := Items(contentId);
    if |ids| > MaxContentIds then Err(ThirtyUrlsError)
    else Ok(QueryGet(Tagging, AddEach(Empty, ContentKey, ids)))
  }

  function CategorizeByUrl(category: ByteString, imageUrl: Arg): (r: Result<Request>)
    ensures r.Ok?
    ensures ShapedGet(r.value, Categorizations(category), UrlKey, Items(imageUrl), [])
  {
    var q := AddEach(Empty, UrlKey, Items(imageUrl));
    assert q.parts[|Items(imageUrl)|..] == [];
    Ok(QueryGet(Categorizations(category), q))
  }

  function CategorizeByContentId(category: ByteString, contentId: Arg): (r: Result<Request>)
    ensures r.Err? <==> |Items(contentId)| > MaxContentIds
    ensures r.Err? ==> r.message == ThirtyUrlsError
    ensures r.Ok? ==> ShapedGet(r.value, Categorizations(category), ContentKey, Items(contentId), [])
  {
    var ids := Items(contentId);
    if |ids| > MaxContentIds then Err(ThirtyUrlsError)
    else Ok(QueryGet(Categorizations(category), AddEach(Empty, ContentKey, ids)))
  }

  function CropByUrl(imageUrl: Arg, resolution: Arg, allowScale: bool := false): (r: Result<Request>)
    ensures r.Ok?
    ensures ShapedGet(r.value, Croppings, UrlKey, Items(imageUrl), CropExtras(resolution, allowScale))
  {
    var extras := CropExtras(resolution, allowScale);
    Ok(QueryGet(Croppings, ItemsThenTwo(UrlKey, Items(imageUrl), extras[0], extras[1])))
  }

  function CropByContentId(contentId: Arg, resolution: Arg, allowScale: bool := false): (r: Result<Request>)
    ensures r.Err? <==> |Items(contentId)| > MaxContentIds
    ensures r.Err? ==> r.message == ThirtyUrlsError
    ensures r.Ok? ==> ShapedGet(r.value, Croppings, ContentKey, Items(contentId), CropExtras(resolution, allowScale))
  {
    var ids := Items(contentId);
    if |ids| > MaxContentIds then Err(ThirtyUrlsError)
    else
      var extras := CropExtras(resolution, allowScale);
      Ok(QueryGet(Croppings, ItemsThenTwo(ContentKey, ids, extras[0], extras[1])))
  }

  function GetColorsByUrl(imageUrl: Arg, extractOverallColors: bool := true,
                          extractObjectColors: bool := true): (r: Result<Request>)
    ensures r.Ok?
    ensures ShapedGet(r.value, Colors, UrlKey, Items(imageUrl),
                      ColorExtras(extractOverallColors, extractObjectColors))
  {
    var extras := ColorExtras(extractOverallColors, extractObjectColors);
    Ok(QueryGet(Colors, ItemsThenTwo(UrlKey, Items(imageUrl), extras[0], extras[1])))
  }

  function GetColorsByContentId(contentId: Arg, extractOverallColors: bool := true,
                                extractObjectColors: bool := true): (r: Result<Request>)
    ensures r.Err? <==> |Items(contentId)| > MaxContentIds
    ensures r.Err? ==> r.message == ThirtyUrlsError
    ensures r.Ok? ==> ShapedGet(r.value, Colors, ContentKey, Items(contentId),
                                ColorExtras(extractOverallColors, extractObjectColors))
  {
    var ids := Items(contentId);
    if |ids| > MaxContentIds then Err(ThirtyUrlsError)
    else
      var extras := ColorExtras(extractOverallColors, extractObjectColors);
      Ok(QueryGet(Colors, ItemsThenTwo(ContentKey, ids, extras[0], extras[1])))
  }

  /** Whether PHP treats the file name as false: true for a missing name,
      the empty string and the string "0". */
  predicate IsFalsy(filename: Option<ByteString>)
  {
    filename.None? || filename.value == [] || filename.value == Str("0")
  }

  /** The name given to an upload without one: the clock reading `now` in
      decimal, followed by the extension `.png`. */
  function DefaultFilename(now: nat): (name: ByteString)
    ensures |name| >= 5 && name[|name| - 4..] == Str(".png")
    ensures forall i :: 0 <= i < |name| - 4 ==> IsDigit(name[i])
    ensures name[..|name| - 4] == Decimal(now)
    ensures DigitsValue(name[..|name| - 4]) == now
    ensures now == 0 <==> name == Str("0.png")
  {
    var digits := Decimal(now);
    DigitsValueDecimal(now);
    assert (digits + Str(".png"))[..|digits|] == digits;
    digits + Str(".png")
  }

  /** The upload of raw data. The clock reading `now` comes before the file
      name so that the name can keep the source's default of no name. */
  function ContentUploadByData(data: Arg, now: nat, filename: Option<ByteString> := None): (r: Result<Request>)
    ensures r.Err? <==> data.Many?
    ensures r.Err? ==> r.message == OneUrlError
    ensures r.Ok? ==> r.value.verb == POST && r.value.path == ContentKey && r.value.query == []
    ensures r.Ok? ==> r.value.body.Some? && r.value.body.value.data == data.item
    ensures r.Ok? && !IsFalsy(filename) ==> r.value.body.value.filename == filename.value
    ensures r.Ok? && IsFalsy(filename) ==> r.value.body.value.filename == DefaultFilename(now)
  {
    match data
    case Many(_) => Err(OneUrlError)
    case One(bytes) =>
      var name := if IsFalsy(filename) then DefaultFilename(now) else filename.value;
      Ok(Request(POST, ContentKey, [], Some(Upload(name, bytes))))
  }

  /** The upload from a URL. The file name (PHP `basename` of the URL: its
      last `/`-separated component once trailing slashes are removed, any
      query string included) and the bytes fetched from it come from the
      filesystem or the network and are parameters here. */
  function ContentUploadByUrl(url: Arg, basename: ByteString, contents: ByteString): (r: Result<Request>)
    ensures r.Err? <==> url.Many?
    ensures r.Err? ==> r.message == OneUrlError
    ensures r.Ok? ==> r.value == Request(POST, ContentKey, [], Some(Upload(basename, contents)))
  {
    if url.Many? then Err(OneUrlError)
    else Ok(Request(POST, ContentKey, [], Some(Upload(basename, contents))))
  }

  function ContentDelete(contentId: ByteString): (r: Request)
    ensures r.verb == DELETE && r.query == [] && r.body == None
    ensures |r.path| == |ContentKey| + 1 + |contentId|
    ensures r.path[..|ContentKey| + 1] == Str("content/")
    ensures r.path[|ContentKey| + 1..] == contentId
  {
    Request(DELETE, Str("content/") + contentId, [], None)
  }

  /** The absolute URL the dispatch routines request: the base URL followed
      by the request path. */
  function Url(r: Request): (url: ByteString)
    ensures |url| == |Api| + |r.path|
    ensures url[..|Api|] == Api && url[|Api|..] == r.path
  {
    Api + r.path
  }

  /** Cuts `s` at the first `b`, if there is one. */
  function SplitAtFirst(s: ByteString, b: Byte): (r: Option<(ByteString, ByteString)>)
    ensures r.None? <==> b !in s
    ensures r.Some? ==> b !in r.value.0 && s == r.value.0 + [b] + r.value.1
    decreases |s|
  {
    if s == [] then None
    else if s[0] == b then Some(([], s[1..]))
    else
      match SplitAtFirst(s[1..], b)
      case None => None
      case Some((front, back)) => Some(([s[0]] + front, back))
  }

  lemma {:induction false} SplitAtFirstOf(a: ByteString, b: Byte, t: ByteString)
    requires b !in a
    ensures SplitAtFirst(a + [b] + t, b) == Some((a, t))
    decreases |a|
  {
    var s := a + [b] + t;
    if a == [] {
      assert s[1..] == t;
    } else {
      assert s[1..] == a[1..] + [b] + t;
      SplitAtFirstOf(a[1..], b, t);
      assert [a[0]] + a[1..] == a;
    }
  }

  /** Reads a request path back into its endpoint and query pairs. */
  function ParsePath(path: ByteString): Option<(ByteString, seq<Pair>)>
  {
    match SplitAtFirst(path, Question)
    case None => None
    case Some((endpoint, query)) =>
      match ParseQuery(query)
      case None => None
      case Some(parts) => Some((endpoint, parts))
  }

  /** A GET shaped by an endpoint method parses back into its endpoint and
      exactly the query pairs it was built from, provided the endpoint has
      no `?` of its own. */
  lemma ShapedGetParses(r: Request, endpoint: ByteString, key: ByteString,
                        items: seq<ByteString>, extras: seq<Pair>)
    requires ShapedGet(r, endpoint, key, items, extras)
    requires Question !in endpoint
    ensures ParsePath(r.path) == Some((endpoint, r.query))
  {
    SplitAtFirstOf(endpoint, Question, Render(r.query));
    ParseRender(r.query);
  }

  /** None of the fixed endpoint names contains a `?`. */
  lemma EndpointsQuestionFree()
    ensures Question !in Tagging && Question !in Croppings && Question !in Colors
    ensures Question !in Str("categorizations/")
  {
  }

  /** A successful tagging request's path is `tagging?` followed by a query
      that reads back as one `url` pair per URL, in order. */
  lemma TagsByUrlPathParses(imageUrl: Arg)
    requires GetTagsByUrl(imageUrl).Ok?
    ensures ParsePath(GetTagsByUrl(imageUrl).value.path) == Some((Tagging, GetTagsByUrl(imageUrl).value.query))
  {
    var r := GetTagsByUrl(imageUrl).value;
    assert ShapedGet(r, Tagging, UrlKey, Items(imageUrl), []);
    EndpointsQuestionFree();
    ShapedGetParses(r, Tagging, UrlKey, Items(imageUrl), []);
  }

  lemma TagsByContentIdPathParses(contentId: Arg)
    requires GetTagsByContentId(contentId).Ok?
    ensures ParsePath(GetTagsByContentId(contentId).value.path) == Some((Tagging, GetTagsByContentId(contentId).value.query))
  {
    var r := GetTagsByContentId(contentId).value;
    assert ShapedGet(r, Tagging, ContentKey, Items(contentId), []);
    EndpointsQuestionFree();
    ShapedGetParses(r, Tagging, ContentKey, Items(contentId), []);
  }

  /** The category is put into the path unencoded, so the path reads back
      as `categorizations/<category>` and the query only when the category
      holds no `?`. */
  lemma CategorizePathParses(category: ByteString, imageUrl: Arg, contentId: Arg)
    requires Question !in category
    ensures ParsePath(CategorizeByUrl(category, imageUrl).value.path)
      == Some((Categorizations(category), CategorizeByUrl(category, imageUrl).value.query))
    ensures CategorizeByContentId(category, contentId).Ok? ==>
      ParsePath(CategorizeByContentId(category, contentId).value.path)
        == Some((Categorizations(category), CategorizeByContentId(category, contentId).value.query))
  {
    EndpointsQuestionFree();
    assert Question !in Categorizations(category);
    ShapedGetParses(CategorizeByUrl(category, imageUrl).value, Categorizations(category),
                    UrlKey, Items(imageUrl), []);
    if CategorizeByContentId(category, contentId).Ok? {
      ShapedGetParses(CategorizeByContentId(category, contentId).value, Categorizations(category),
                      ContentKey, Items(contentId), []);
    }
  }

  /** With a `?` in the category the path no longer reads back as the
      category endpoint: the query is taken to start inside the category, so
      whenever the path reads back at all, its endpoint is the category
      endpoint cut at the category's first `?`. */
  lemma CategoryWithQuestionMisparses(category: ByteString, imageUrl: Arg)
    requires Question in category
    ensures ParsePath(CategorizeByUrl(category, imageUrl).value.path).Some? ==>
      ParsePath(CategorizeByUrl(category, imageUrl).value.path).value.0 != Categorizations(category)
    ensures ParsePath(CategorizeByUrl(category, imageUrl).value.path).Some? ==>
      ParsePath(CategorizeByUrl(category, imageUrl).value.path).value.0
        == Categorizations(SplitAtFirst(category, Question).value.0)
  {
    var r := CategorizeByUrl(category, imageUrl).value;
    EndpointsQuestionFree();
    CutInsideCategory(category, Render(r.query));
  }

  /** Where the first `?` falls in a category path whose category holds one. */
  lemma CutInsideCategory(category: ByteString, rendered: ByteString)
    requires Question in category
    requires Question !in Str("categorizations/")
    ensures SplitAtFirst(Categorizations(category) + [Question] + rendered, Question).value.0
      == Categorizations(SplitAtFirst(category, Question).value.0)
    ensures |SplitAtFirst(category, Question).value.0| < |category|
  {
    var front := SplitAtFirst(category, Question).value.0;
    var back := SplitAtFirst(category, Question).value.1;
    assert Question !in Categorizations(front);
    assert Categorizations(category) + [Question] + rendered
      == Categorizations(front) + [Question] + (back + [Question] + rendered);
    SplitAtFirstOf(Categorizations(front), Question, back + [Question] + rendered);
  }

  lemma CropPathParses(imageUrl: Arg, contentId: Arg, resolution: Arg, allowScale: bool)
    ensures ParsePath(CropByUrl(imageUrl, resolution, allowScale).value.path)
      == Some((Croppings, CropByUrl(imageUrl, resolution, allowScale).value.query))
    ensures CropByContentId(contentId, resolution, allowScale).Ok? ==>
      ParsePath(CropByContentId(contentId, resolution, allowScale).value.path)
        == Some((Croppings, CropByContentId(contentId, resolution, allowScale).value.query))
  {
    EndpointsQuestionFree();
    ShapedGetParses(CropByUrl(imageUrl, resolution, allowScale).value, Croppings, UrlKey,
                    Items(imageUrl), CropExtras(resolution, allowScale));
    if CropByContentId(contentId, resolution, allowScale).Ok? {
      ShapedGetParses(CropByContentId(contentId, resolution, allowScale).value, Croppings, ContentKey,
                      Items(contentId), CropExtras(resolution, allowScale));
    }
  }

  lemma ColorsPathParses(imageUrl: Arg, contentId: Arg, overallColors: bool, objectColors: bool)
    ensures ParsePath(GetColorsByUrl(imageUrl, overallColors, objectColors).value.path)
      == Some((Colors, GetColorsByUrl(imageUrl, overallColors, objectColors).value.query))
    ensures GetColorsByContentId(contentId, overallColors, objectColors).Ok? ==>
      ParsePath(GetColorsByContentId(contentId, overallColors, objectColors).value.path)
        == Some((Colors, GetColorsByContentId(contentId, overallColors, objectColors).value.query))
  {
    EndpointsQuestionFree();
    ShapedGetParses(GetColorsByUrl(imageUrl, overallColors, objectColors).value, Colors, UrlKey,
                    Items(imageUrl), ColorExtras(overallColors, objectColors));
    if GetColorsByContentId(contentId, overallColors, objectColors).Ok? {
      ShapedGetParses(GetColorsByContentId(contentId, overallColors, objectColors).value, Colors, ContentKey,
                      Items(contentId), ColorExtras(overallColors, objectColors));
    }
  }

  /** The `resolution` value splits back on `,` into the resolutions given,
      when none of them contains a comma itself. */
  lemma ResolutionSplits(resolution: Arg, allowScale: bool)
    requires SeparatorFree(Items(resolution), Comma)
    requires |Items(resolution)| >= 1
    ensures Split(CropExtras(resolution, allowScale)[0].value, Comma) == Items(resolution)
  {
    SplitJoin(Items(resolution), Comma);
  }

  /** Left to its default, `allowScale` is false and a crop sends
      `no_scaling=1`. */
  lemma DefaultNoScaling(imageUrl: Arg, resolution: Arg)
    ensures CropByUrl(imageUrl, resolution).value.query[|Items(imageUrl)| + 1] == Pair(Str("no_scaling"), Str("1"))
  {
    var n := |Items(imageUrl)|;
    var query := CropByUrl(imageUrl, resolution).value.query;
    var extras := CropExtras(resolution, false);
    assert query[n..] == extras;
    assert query[n + 1] == extras[1];
  }

  /** Left to their defaults, both colour flags are true and sent as `1`. */
  lemma DefaultColorFlags(imageUrl: Arg)
    ensures GetColorsByUrl(imageUrl).value.query[|Items(imageUrl)|] == Pair(Str("extract_overall_colors"), Str("1"))
    ensures GetColorsByUrl(imageUrl).value.query[|Items(imageUrl)| + 1] == Pair(Str("extract_object_colors"), Str("1"))
  {
    var n := |Items(imageUrl)|;
    var query := GetColorsByUrl(imageUrl).value.query;
    var extras := ColorExtras(true, true);
    assert query[n..] == extras;
    assert query[n] == extras[0];
    assert query[n + 1] == extras[1];
  }
}
