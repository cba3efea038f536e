# Messier.HttpClient `Client`, modelled in Dafny

`Messier\HttpClient\Client` is a small PHP wrapper around the curl
extension. A caller sets a few client-wide settings, then sends HEAD, GET,
POST or download requests by URL. Each request:

- lays the caller's option array over `DEFAULT_REQUEST_PARAMS` with
  `array_merge`;
- builds an engine option array, into which a raw `curl` array is passed
  through with PHP's left-biased `+`;
- optionally redirects the body to an output file;
- makes up to `attemptsMax` attempts, stopping at the first that gets a
  response, and sleeps `attemptsDelay` seconds between attempts;
- deletes the output file when every attempt failed;
- reports an engine error or a missing response to the error callback;
- otherwise returns the body (or `true` when it went to a file) and copies
  it to the last-response file, if one is set.

GET parameters set with `setGetParameters` are used by the next URL only.
`getCookies` reads the engine's Netscape-format cookie file into a
name → value array.

The project models this behaviour and proves what the class promises:

| file | module | what it holds |
|---|---|---|
| `wrappers.dfy` | `Wrappers` | `Option` |
| `strings.dfy` | `Strings` | `explode`/`implode` and `trim` over `seq<char>` |
| `php_arrays.dfy` | `PhpArrays` | PHP's ordered arrays of strings, integer-like key normalisation, `$a[$k] = $v` and `array_merge` with its renumbering of integer keys |
| `url_query.dfy` | `UrlQuery` | `urlencode` and `http_build_query`, with a decoder against which they are proved lossless |
| `request_options.dfy` | `RequestOptions` | the merged request options and the engine options of `_initCurl` |
| `transfer.dfy` | `Transfer` | the retry loop and the outcome of `_sendRequest`, as pure functions of what the engine does |
| `cookies.dfy` | `Cookies` | the cookie-file parsing of `getCookies` |
| `client.dfy` | `HttpClient` | the `Client` class itself, plus an `Environment` object standing for the files, the clock and the engine |

The code is the reference throughout. The `Client` class becomes a Dafny
`class` whose methods update its fields, with `modifies` clauses, and whose
loops carry invariants. Each request method is proved against the pure
function `Transfer.Perform`, through the predicate `Sent`.

The transfer engine is an input, an `EngineRun` value, which holds:

- the result of each attempt (a failure, or the body received);
- the `curl_error` text;
- the `curl_getinfo` array.

Files, `sleep` and transfer counting live in an `Environment` object. Its
`writable` set says which paths `fopen`/`file_put_contents` succeed on.

The error callback is a `Handler` value. Each call of it is recorded in the
client's `reports` log.

## Model

| member | source | states |
|---|---|---|
| PhpArrays.NormalizeKey | src/Client.php:443 | the key `$cookies[$name]` is stored under: an integer exactly when the name is a canonical decimal integer, and it prints back as the name |
| PhpArrays.NormalizeKeyText | src/Client.php:443 | printing a stored key and storing that text again gives the same key |
| PhpArrays.Put | src/Client.php:443 | `$a[$k] = $v`: the key then maps to the value, every other key is unaffected, an existing key keeps its position, and a new key is appended at the end |
| PhpArrays.Step | src/Client.php:313 | one entry of `array_merge`: an integer key is appended under the next number; a new string key is appended; a string key already present keeps its position and takes the new value, every other entry staying as it was |
| PhpArrays.MergeIntoInts | src/Client.php:313 | the integer-keyed values of a merge are those of the result so far followed by those of the merged array |
| PhpArrays.MergeIntoGet | src/Client.php:313 | under a string key, a merge finds the merged array's value if it has one, and the earlier value otherwise |
| PhpArrays.MergeIntoGrows | src/Client.php:313 | merging never drops entries, and merging a non-empty array gives a non-empty result |
| PhpArrays.ArrayMerge | src/Client.php:313 | `array_merge($a, $b)`: the result is empty iff both inputs are; string keys resolve to `$b`'s value, else to `$a`'s; the integer-keyed values are `$a`'s then `$b`'s, renumbered 0, 1, 2, … |
| PhpArrays.ArrayMergeOrder | src/Client.php:313 | the order of `array_merge($a, $b)`: `$a`'s entries in place (a string key `$b` also has taking `$b`'s value), followed by `$b`'s integer-keyed entries and new string keys in `$b`'s order, up to the renumbering of integer keys |
| PhpArrays.MergeIntoOrder | src/Client.php:313 | the merge loop over one array keeps the entries already there in place, overriding shared string keys, and appends the fresh entries in order, up to the numbering of integer keys |
| PhpArrays.RenumberingUnique | src/Client.php:313 | two arrays with integer keys numbered 0, 1, 2, … in order that agree up to that numbering are equal, so `ArrayMerge`'s order and renumbering determine its result |
| PhpArrays.MergeOrderExample | src/Client.php:313 | `array_merge(['b'=>'1','a'=>'2'], [7=>'x','b'=>'3'])` is `['b'=>'3','a'=>'2',0=>'x']` |
| Strings.Split | src/Client.php:438-440 | `explode` always yields at least one part, and no part contains the separator |
| Strings.JoinSplit | src/Client.php:438-440 | joining the parts of `explode` with the separator gives back the text |
| Strings.SplitJoin | src/Client.php:438-440 | exploding parts that do not contain the separator, once joined, gives back those parts |
| Strings.TrimEmptyIffBlank | src/Client.php:531 | `trim($s) === ''` exactly when every character of `$s` is one that `trim` strips |
| UrlQuery.UrlEncode | src/Client.php:317 | `urlencode` output never contains the separators `&` and `=` |
| UrlQuery.DecodeEncode | src/Client.php:317 | `urldecode(urlencode($s)) == $s` for every string |
| UrlQuery.ParseSegmentOfSegment | src/Client.php:317 | one `name=value` segment of `http_build_query` reads back as the key and the value it was built from |
| UrlQuery.QueryRoundTrip | src/Client.php:317 | the query string of a non-empty array reads back as exactly that array, in order |
| RequestOptions.Merge | src/Client.php:192 | every option the caller gives keeps the caller's value, and every other option has its `DEFAULT_REQUEST_PARAMS` value |
| RequestOptions.DefaultSettings | src/Client.php:90-102 | without retry or output settings from the caller, a request makes one attempt with a 10-second delay and valid settings |
| RequestOptions.ComputedOptions | src/Client.php:277-302 | `REFERER` is set iff the referer is not `empty()`; `POST`=1 and `POSTFIELDS` iff `post` is not null; `HTTPHEADER` iff `headers` is not null; `COOKIEFILE` and `COOKIEJAR` iff a cookie file exists; `FILE` is never set here |
| RequestOptions.RequestOptionsSet | src/Client.php:266-270 | `URL`, `HEADER`, `TIMEOUT` and `NOBODY` are always set, to the merged request's values |
| RequestOptions.ClientOptionsSet | src/Client.php:271-274 | `USERAGENT` is the client's user agent; `RETURNTRANSFER` is true exactly when `toFile` is not set; `FOLLOWLOCATION` is 1; `ENCODING` is "" |
| RequestOptions.ComputedOptionKeys | src/Client.php:266-302 | no option other than the literal's eight and the four conditional groups is set |
| RequestOptions.Passthrough | src/Client.php:306 | the passthrough options are exactly the integer-keyed entries of the caller's `curl` array, with their values |
| RequestOptions.EngineOptions | src/Client.php:306 | `$parameters['curl'] + $options` has the keys of both, and a passthrough value wins over the computed one |
| RequestOptions.EngineOptionsEffective | src/Client.php:306 | every engine option has the passthrough value if there is one, else the computed value, and is absent otherwise |
| RequestOptions.HeadRequestFlags | src/Client.php:567-577 | a HEAD request asks for headers and no body, unless the passthrough overrides `HEADER` or `NOBODY` |
| RequestOptions.PostRequestFlags | src/Client.php:611-617 | a POST request always sets `POST` to 1 and `POSTFIELDS` to the data array, even when it is empty, unless the passthrough overrides them |
| Transfer.RetryFrom | src/Client.php:218-221 | the retry loop runs between 1 and `attemptsMax` transfers; every transfer before the last failed; it stops early only on a success; its result is the last transfer's |
| Transfer.RetryStopsAtFirstSuccess | src/Client.php:218-221 | if attempt j is the first to succeed and j < `attemptsMax`, exactly j+1 transfers run and the response is that attempt's body |
| Transfer.RetryAllFailing | src/Client.php:218-221 | if no allowed attempt succeeds, exactly `attemptsMax` transfers run and the result is a failure |
| Transfer.Perform | src/Client.php:186-260 | when the output file cannot be opened, the request reports it and transfers nothing. Otherwise it makes 1 to `attemptsMax` transfers and keeps the transfer information. A final failure removes the output file; a success leaves the body in it. An engine error is reported first, then a missing response. A report is made iff the response is `false`. A success is saved to the last-response file if that can be written |
| Transfer.AllAttemptsFail | src/Client.php:218-250 | when every allowed attempt fails, `attemptsMax` transfers run, the response is `false` and the error callback is called |
| Cookies.ReadCookies | src/Client.php:437-447 | the loop over the cookie file's lines yields the cookie table of the text |
| Cookies.CookieNames | src/Client.php:438-445 | a name is in the cookie table exactly when some line of exactly seven tab-separated fields has it as its sixth field |
| Cookies.LastLineWins | src/Client.php:438-445 | the value stored under a name is the seventh field of the last seven-field line with that name |
| HttpClient.Pauses | src/Client.php:218-221 | a loop of N transfers sleeps N-1 times, each time for the delay |
| HttpClient.Environment.Open | src/Client.php:205 | `fopen($path, 'wb')` succeeds exactly on writable paths, and then creates or empties the file |
| HttpClient.Environment.Unlink | src/Client.php:230 | `unlink` removes the file and leaves the others |
| HttpClient.Environment.PutContents | src/Client.php:255 | `file_put_contents` replaces the file's text if the path is writable, and changes nothing otherwise |
| HttpClient.Environment.Sleep | src/Client.php:221 | `sleep` records one pause of the given length |
| HttpClient.Environment.Exec | src/Client.php:218 | one `curl_exec` counts one transfer, returns that attempt's result, and on success appends the body to the open output file |
| HttpClient.RunTransfers | src/Client.php:218-221 | the `do … while` loop runs exactly the transfers `Retry` describes, sleeps between them, and leaves the successful body in the output file |
| HttpClient.QueryAfterMark | src/Client.php:317 | the text after the `?` that `_buildUrl` appends reads back as the parameter array |
| HttpClient.RequestUrl | src/Client.php:310-324 | without pending or given parameters the URL is unchanged; otherwise it is the URL, `?`, and a query string that reads back as `array_merge(pending, given)` |
| HttpClient.OutputFileSetLast | src/Client.php:198-213 | the output file, set after `curl_setopt_array`, wins over a passthrough `FILE`, and every other option is as `_initCurl` left it |
| HttpClient.Client.constructor | src/Client.php:114-139 | a new client has no pending parameters, the default user agent and cookie prefix, no cookie file, no handle, empty transfer information, no last-response file and the throwing error handler |
| HttpClient.Client.SetUserAgent | src/Client.php:462-469 | sets the user agent and returns the client itself |
| HttpClient.Client.SetUseRandomCookieFile | src/Client.php:477-484 | sets the random-cookie-file flag and returns the client itself |
| HttpClient.Client.SetRandCookieFilePrefix | src/Client.php:492-499 | sets the cookie-file prefix and returns the client itself |
| HttpClient.Client.OnError | src/Client.php:511-518 | replaces the error callback and returns the client itself |
| HttpClient.Client.SetLastResponseToFile | src/Client.php:526-535 | a null or blank path switches the last-response file off; any other path is kept as given, untrimmed; returns the client itself |
| HttpClient.Client.SetGetParameters | src/Client.php:543-550 | replaces the pending GET parameters and returns the client itself |
| HttpClient.Client.BuildUrl | src/Client.php:310-324 | the URL carries the pending parameters merged with the given ones, and afterwards no parameters are pending, so they serve one request only |
| HttpClient.Client.CloseCurl | src/Client.php:326-338 | afterwards there is no engine handle |
| HttpClient.Client.SetOutputFile | src/Client.php:213 | attaches the output file to the open handle and changes nothing else about it |
| HttpClient.Client.InitCurl | src/Client.php:262-308 | opens a handle configured with the merged request, the client's user agent and its cookie file |
| HttpClient.Client.SendRequest | src/Client.php:186-260 | response, files, transfers, pauses, transfer information, error-callback calls and engine handle are exactly what `Perform` gives for the merged options and the state before the call |
| HttpClient.Client.TransferLoop | src/Client.php:217-232 | the attempts run as `Retry` describes; the output file holds the successful body, or is removed after a final failure |
| HttpClient.Client.Conclude | src/Client.php:234-258 | stores the transfer information; reports an engine error, or else a missing response; otherwise returns the body (or `true` for a file) and saves it to the last-response file — all as `Perform` says |
| HttpClient.Client.SendHead | src/Client.php:567-579 | sends the caller's options with `url` built by `_buildUrl`, `header` and `nobody` true; the outcome is `Perform`'s, and the pending GET parameters are used up |
| HttpClient.Client.SendGet | src/Client.php:591-599 | sends the caller's options with `url` built by `_buildUrl`; the outcome is `Perform`'s, and the pending GET parameters are used up |
| HttpClient.Client.SendPost | src/Client.php:611-619 | sends the caller's options with `url` built from the pending parameters only and `post` set to the data array; the outcome is `Perform`'s |
| HttpClient.Client.SendDownload | src/Client.php:632-640 | sends the caller's options with `url` built from the pending parameters only and `toFile` set to the destination; the outcome is `Perform`'s |
| HttpClient.Client.GetCookies | src/Client.php:425-449 | without a cookie file (none, "" or "0") it returns an empty array and leaves the handle alone; otherwise it releases the handle and returns the cookie table of the file's text, or, when the file does not exist, ends in the `TypeError` that `explode` raises on `false` under strict types |
| HttpClient.SameSettings | src/Client.php:571-575 | setting `url`, `header`, `nobody` or `post` leaves the retry and output settings of the merged options as they were |

## Left out

- The curl extension. The transfer, `curl_error` and `curl_getinfo` are an input (`EngineRun`). The engine handle is modelled by what it was configured with (`Handle`). The option array it holds is `Configured`.
- Real files and time. Files are a map from path to text, with a set of writable paths. `sleep` is a log of pauses; the time it takes is not modelled.
- HttpClient.Client.GetCookies: releasing the handle (the `unset` in `getCookies`, and `curl_close` in `_closeCurl`) makes the engine write its cookie jar to the cookie file. That write is not modelled, so `getCookies` reads the file as it stood before the release.
- Partial writes. Bytes that a failed attempt writes to the output file before failing are not modelled. Such a file is deleted after a final failure, as the source does.
- Exceptions. The constructor's default error callback throws a `ClientException`. In the model it is the handler `ThrowException`, and each call of a handler is a `Report`. Every call in `_sendRequest` is followed by `return false`, so only whether the caller sees `false` or the exception differs.
- `__construct`'s check that the curl extension is loaded, `__destruct`, the static `Create` and `ClientException`.
- `_init` and `_setRandomCookieFile`. Nothing in the class calls them, so the cookie file stays null. `getCookies` and the cookie options are proved for any cookie file the client holds.
- The getters `getUserAgent`, `getUseRandomCookieFile`, `getRandCookieFilePrefix`, `getCookieFile`, `getLastResponseTargetFile` and `getInfo`. Each only returns a field of the class, and the model exposes those fields directly.
- RequestOptions.ValidSettings: a request requires `attemptsMax >= 1`, `attemptsDelay >= 0`, `toFile` null or a string, and `curl` an array. With `attemptsMax <= 0`, the pre-decremented counter in the loop condition never reaches 0, so a transfer that keeps failing is retried for ever. A negative delay makes `sleep` fail.
- A passthrough `RETURNTRANSFER` or `FILE` that contradicts `toFile`. The model assumes the body goes to the output file exactly when `toFile` is set.
- String keys in the `curl` array. `curl_setopt_array` rejects them, and the model passes through only integer keys.
- Option names the client never reads. The caller's option array is a map over the eleven known names.
- Value types in arrays. POST data is a map without order. GET parameters are arrays of strings; nested arrays and non-string values in `http_build_query` are not modelled.
- Integer keys are unbounded. PHP's 64-bit key range and the overflow of very long digit strings into string keys are not modelled.
- UrlQuery.UrlEncode: characters above U+00FF pass through unchanged. PHP byte strings never hold them.
