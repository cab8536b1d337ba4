# Imagga API client: query builder and request shaping

This project models the two pieces of real logic in the PHP client for the
Imagga image-recognition API:

- the query-string builder `QueryBuilder` (`src/Helpers/QueryBuilder.php`).
  It keeps an append-only list of key/value pairs. It renders them as
  `urlencode(k1)=urlencode(v1)&urlencode(k2)=urlencode(v2)...`.
- the request shaping done by each endpoint method of the `Imagga` class
  (`src/Imagga.php`). Each method is modelled as a pure function. It returns
  either the `ImaggaException` message or the request it describes: the
  verb, the path below `API` that it hands to `_get`, `_post` or `_delete`,
  and, for uploads, the `image` file field. The request also keeps the
  ordered query pairs that the path's query string was rendered from;
  `_get` itself receives only the path.

PHP strings are byte strings, so every key, value, URL, content id and path is
a `seq<Byte>` (`Bytes.ByteString`). `urlencode` is defined concretely, byte by
byte (`UrlEncoding.Encode`). Letters, digits and `-_.` pass through, a space
becomes `+`, and every other byte becomes `%XX` with upper-case hex. Its
partner is `urldecode` (`UrlEncoding.Decode`). A query string is read back by
splitting on `&`, then on `=`, then decoding (`QueryBuilder.ParseQuery`).
Rendering any list of pairs and reading it back gives the list again.

A PHP argument that may be a string or an array is `Imagga.Arg`:
`One(s) | Many(ss)`. `Imagga.Items` turns it into a list: a single string
becomes a one-element list and an array is kept as it is. The clock reading `time()` is the
parameter `now`. In the URL upload, the last `/`-separated component of the URL
once trailing slashes are removed (PHP `basename`), any query string included, and the bytes fetched from the URL are the parameters `basename` and `contents`.
`ContentUploadByData` keeps the source's default of no file name.

Modules follow the source: `Bytes` holds byte strings, `implode`/`explode` and
integer-to-decimal. `UrlEncoding` holds `urlencode`/`urldecode`.
`QueryBuilder` is `src/Helpers/QueryBuilder.php`. `Imagga` is
`src/Imagga.php`.

The builder is an immutable value (`QueryBuilder.Builder`). `Add` returns the
extended builder. `ToString` is a function of the pairs alone, so calling
`__toString` twice with no `add` in between gives the same string by
construction. `QueryBuilder.Build` is the loop of `_build` as written: it
collects the encoded segments, then implodes them. It is proved equal to
`ToString`.

The "no file name" test in `contentUploadByData` uses PHP truthiness. It replaces
a missing name, the empty name and the name `"0"` by `<time>.png`
(`Imagga.IsFalsy`). The model keeps all three cases.

## Model

| member | source | states |
|---|---|---|
| `QueryBuilder.Add` | src/Helpers/QueryBuilder.php:8-14 | adds exactly one pair, `(key, value)`, at the end; every earlier pair stays in its place and order |
| `QueryBuilder.AddEach` | src/Imagga.php:75-79 | the endpoint loop appends one `(key, item)` pair per item, in input order, after the pairs already present |
| `QueryBuilder.Build` | src/Helpers/QueryBuilder.php:16-27 | the `_build` loop (encode each pair into a list, implode with `&`) computes the same string as the declarative rendering `ToString` |
| `QueryBuilder.SegmentShape` | src/Helpers/QueryBuilder.php:22-23 | a rendered pair holds no `&`, holds exactly one `=`, and cutting it at `=` gives `urlencode(key)` and `urlencode(value)` |
| `QueryBuilder.RenderEmpty` | src/Helpers/QueryBuilder.php:16-27 | the rendering is the empty string if and only if the builder has no pairs |
| `QueryBuilder.RenderAdd` | src/Helpers/QueryBuilder.php:8-31 | rendering after `add` gives the earlier rendering, then `&` (omitted when the builder was empty), then the new pair's segment |
| `QueryBuilder.RenderSegments` | src/Helpers/QueryBuilder.php:20-26 | for n >= 1 pairs, cutting the rendering at `&` gives one segment per pair in insertion order, and segment i cut at `=` is `urlencode(key_i)`, `urlencode(value_i)` |
| `QueryBuilder.RenderSeparatorCounts` | src/Helpers/QueryBuilder.php:22-26 | n >= 1 pairs render with exactly n - 1 `&` and exactly n `=` |
| `QueryBuilder.ParseRender` | src/Helpers/QueryBuilder.php:16-31 | splitting the rendering on `&` and `=` and url-decoding each side gives back the original pair list, for every list including the empty one |
| `QueryBuilder.RenderInjective` | src/Helpers/QueryBuilder.php:16-31 | two builders with different pairs never render to the same query string |
| `UrlEncoding.EncodeByte` | src/Helpers/QueryBuilder.php:23 | a byte is kept as itself exactly when it is a letter, digit, `-`, `_` or `.`; it becomes `+` exactly when it is a space; otherwise it becomes `%` followed by two upper-case hexadecimal digits whose value is the byte |
| `UrlEncoding.Encode` | src/Helpers/QueryBuilder.php:23 | `urlencode` output is between one and three times the input length and contains only unreserved bytes, `+` and `%` |
| `UrlEncoding.DecodeEncode` | src/Helpers/QueryBuilder.php:22-23 | `urldecode(urlencode(s)) == s` for every byte string |
| `UrlEncoding.EncodeInjective` | src/Helpers/QueryBuilder.php:22-23 | distinct keys or values always have distinct encodings |
| `UrlEncoding.EncodeIdentity` | src/Helpers/QueryBuilder.php:23 | `urlencode` leaves a string unchanged if and only if every byte is a letter, digit, `-`, `_` or `.` |
| `UrlEncoding.EncodeAvoids` | src/Helpers/QueryBuilder.php:22-26 | no byte outside the encoded alphabet occurs in an encoding, in particular no `&`, `=` or `?` |
| `Bytes.SplitJoin` | src/Helpers/QueryBuilder.php:26 | `implode` of one or more parts, none containing the separator, is undone by splitting on the separator; with no parts it is not, since the empty string splits into one empty part |
| `Bytes.CountJoin` | src/Helpers/QueryBuilder.php:26 | imploding n >= 1 separator-free parts places exactly n - 1 separators |
| `Bytes.Decimal` | src/Imagga.php:337 | the string form of the timestamp is a non-empty run of decimal digits with no leading zero; 0 is the single digit `0` |
| `Bytes.DigitsValueDecimal` | src/Imagga.php:337 | the string form of the timestamp reads back as the timestamp |
| `Imagga.Items` | src/Imagga.php:65-68 | a scalar argument becomes the one-element list, an array is kept as it is |
| `Imagga.Flag` | src/Imagga.php:259-260 | a flag is sent as `1` exactly when true and as `0` exactly when false |
| `Imagga.CropExtras` | src/Imagga.php:185-196 | a crop ends with `resolution`, whose value is the resolutions joined by `,` (the empty string for none), then `no_scaling`, which is `1` exactly when scaling is not allowed and `0` exactly when it is |
| `Imagga.ColorExtras` | src/Imagga.php:259-260 | a colour request ends with `extract_overall_colors` then `extract_object_colors`, each `1` exactly when its flag is set and `0` exactly when it is not |
| `Imagga.ItemsThenTwo` | src/Imagga.php:190-196 | the crop and colour query holds the item pairs in order and then exactly the two extra pairs, in the order added |
| `Imagga.GetUsage` | src/Imagga.php:51-54 | `getUsage` is a GET of `usage` with no query and no body |
| `Imagga.GetCategories` | src/Imagga.php:166-169 | `getCategories` is a GET of `categorizers` with no query and no body |
| `Imagga.GetTagsByUrl` | src/Imagga.php:63-82 | fails with `You can only request ten URLs` if and only if more than 10 URLs are given; otherwise a GET of `tagging?` + rendered query whose pairs are one `url` per URL, in order, and nothing else |
| `Imagga.GetTagsByContentId` | src/Imagga.php:91-110 | fails with `You can only request thirty URLs` if and only if more than 30 ids are given; otherwise a GET of `tagging?` + query of one `content` pair per id, in order |
| `Imagga.CategorizeByUrl` | src/Imagga.php:118-132 | never fails, whatever the number of URLs; a GET of `categorizations/<category>?` + query of one `url` pair per URL, with the category unencoded |
| `Imagga.CategorizeByContentId` | src/Imagga.php:142-161 | fails with the thirty message if and only if more than 30 ids are given; otherwise a GET of `categorizations/<category>?` + one `content` pair per id |
| `Imagga.CropByUrl` | src/Imagga.php:178-199 | never fails; a GET of `croppings?` + query of one `url` pair per URL, then `resolution`, then `no_scaling` (`allowScale` defaults to false) |
| `Imagga.CropByContentId` | src/Imagga.php:210-236 | fails with the thirty message if and only if more than 30 ids are given, whatever the resolution; otherwise `croppings?` + `content` pairs, `resolution`, `no_scaling` |
| `Imagga.GetColorsByUrl` | src/Imagga.php:245-263 | never fails; a GET of `colors?` + `url` pairs, then the two colour flags (both default to true) |
| `Imagga.GetColorsByContentId` | src/Imagga.php:274-297 | fails with the thirty message if and only if more than 30 ids are given; otherwise `colors?` + `content` pairs, then the two colour flags |
| `Imagga.ContentUploadByUrl` | src/Imagga.php:306-318 | fails with `You can only request one URL` if and only if an array is given; otherwise a POST to `content` carrying the fetched file under its base name |
| `Imagga.DefaultFilename` | src/Imagga.php:335-338 | the default file name is the canonical decimal form of the timestamp (no leading zero) followed by `.png`, is `0.png` exactly when the timestamp is 0, and its digits read back as the timestamp |
| `Imagga.ContentUploadByData` | src/Imagga.php:328-345 | fails with `You can only request one URL` if and only if an array is given; otherwise a POST to `content` with the data, named by the caller unless the name is falsy (missing, empty or `"0"`), in which case `<now>.png` |
| `Imagga.ContentDelete` | src/Imagga.php:352-355 | a DELETE with no query whose path is `content/` followed by exactly the content id |
| `Imagga.Url` | src/Imagga.php:370 | the requested URL is `http://api.imagga.com/v1/` followed by exactly the request path |
| `Imagga.SplitAtFirst` | src/Imagga.php:131 | cutting a path at its first `?` finds one exactly when the path has one; the front is free of `?` and front, `?`, back make up the path |
| `Imagga.ShapedGetParses` | src/Imagga.php:81 | a shaped GET whose endpoint has no `?` reads back as that endpoint and exactly its query pairs |
| `Imagga.TagsByUrlPathParses` | src/Imagga.php:81 | a successful `getTagsByUrl` path reads back as `tagging` and its query pairs |
| `Imagga.TagsByContentIdPathParses` | src/Imagga.php:109 | a successful `getTagsByContentId` path reads back as `tagging` and its query pairs |
| `Imagga.CategorizePathParses` | src/Imagga.php:131 | with a `?`-free category, both categorize paths read back as `categorizations/<category>` and their query pairs |
| `Imagga.CategoryWithQuestionMisparses` | src/Imagga.php:131 | a category containing `?` never lets the path read back as `categorizations/<category>`, because the category is not encoded; whenever the path reads back at all, its endpoint is `categorizations/` plus the category up to its first `?` |
| `Imagga.CutInsideCategory` | src/Imagga.php:131 | the first `?` of a category path whose category holds a `?` lies inside the category, so the endpoint is cut at the category's first `?` |
| `Imagga.CropPathParses` | src/Imagga.php:198 | both crop paths read back as `croppings` and their query pairs |
| `Imagga.ColorsPathParses` | src/Imagga.php:262 | both colour paths read back as `colors` and their query pairs |
| `Imagga.ResolutionSplits` | src/Imagga.php:195 | the `resolution` value of one or more resolutions, none containing a comma, splits back on `,` into exactly those resolutions; with none the value is the empty string, which splits into one empty resolution |
| `Imagga.DefaultNoScaling` | src/Imagga.php:178 | with `allowScale` left to its default, a crop by URL sends `no_scaling=1` |
| `Imagga.DefaultColorFlags` | src/Imagga.php:245-247 | with both flags left to their defaults, a colour request by URL sends `extract_overall_colors=1` and `extract_object_colors=1` |

## Left out

- Sending the request in `_get`, `_post` and `_delete` (src/Imagga.php:365-437) is left out. This is network I/O through the Guzzle client, with the basic-auth pair and JSON decoding of the response. The model stops at the request description and the URL, which is the base URL followed by the path.
- Turning a Guzzle `ClientException` into an `ImaggaException` carrying the response's JSON `message` is left out. It depends on Guzzle response objects and JSON parsing, which are not part of this model.
- The `Client` set up in the constructor (src/Imagga.php:36-46) and the stored credentials are left out. The credentials only reach the transport.
- The multipart encoding of `PostFile` is left out. An upload is modelled as its file name and bytes.
- `basename` and `file_get_contents` in `contentUploadByUrl` are left out. Their results are parameters.
- The wall clock `time()` is a parameter.
- PHP dynamic typing beyond "string or array of strings" is left out. Associative arrays, non-string array elements and non-boolean flags are not modelled. `foreach` visits an array in its insertion order, which is the order of the modelled list.
- `src/Imagga.php` has no 32-character content-id classification and no unified tag/categorize/crop/colour methods. It has only separate `ByUrl` and `ByContentId` methods, and those are what the model follows.
- `Bytes.Str` turns the ASCII literals of the source (`'tagging?'`, `'url'`, ...) into bytes. It is a helper, and a non-ASCII character would keep only its low byte.
