/**
  The options of one request and the option map the client hands to the
  transfer engine (libcurl, through PHP's curl extension).

  A caller describes a request by an array keyed by option name; the client
  lays it over `DEFAULT_REQUEST_PARAMS` with `array_merge`, so a name the
  caller gives replaces the default and every other default stays. The
  merged array always holds the eleven names of the defaults and nothing the
  client reads besides them, so it is modelled as a record. `_initCurl` then
  builds the engine options from it, and the caller's `curl` entry is joined
  with PHP's `+`, in which the LEFT operand wins: a passthrough option
  replaces the computed one of the same number.
 */
module RequestOptions {
  import opened Wrappers
  import opened PhpArrays

  /** The PHP values that can appear in request options. */
  datatype Value =
    | Null
    | Bool(b: bool)
    | Int(i: int)
    | Str(s: string)
    | Arr(entries: map<ArrayKey, Value>)
    | Resource(path: string)   // an open file handle, known by the path it was opened on

  /** `empty($v)`: null, false, 0, "", "0" and the empty array. */
  predicate IsEmpty(v: Value) {
    match v
    case Null => true
    case Bool(b) => !b
    case Int(i) => i == 0
    case Str(s) => s == "" || s == "0"
    case Arr(e) => e == map[]
    case Resource(_) => false
  }

  /** The option names the client reads. */
  datatype Name = Url | Post | Headers | Referer | Header | Nobody | Timeout | ToFile | AttemptsMax | AttemptsDelay | Curl

  /** The array a caller passes; names the client never reads have no effect and are not modelled. */
  type Options = map<Name, Value>

  /** The merged option array: one value for every name. */
  datatype Request = Request(
    url: Value,
    post: Value,
    headers: Value,
    referer: Value,
    header: Value,
    nobody: Value,
    timeout: Value,
    toFile: Value,
    attemptsMax: Value,
    attemptsDelay: Value,
    curl: Value)

  /** `$parameters[k]`. */
  function Field(r: Request, k: Name): Value {
    match k
    case Url => r.url
    case Post => r.post
    case Headers => r.headers
    case Referer => r.referer
    case Header => r.header
    case Nobody => r.nobody
    case Timeout => r.timeout
    case ToFile => r.toFile
    case AttemptsMax => r.attemptsMax
    case AttemptsDelay => r.attemptsDelay
    case Curl => r.curl
  }

  /** `DEFAULT_REQUEST_PARAMS`. */
  const DefaultRequestParams := Request(
    url := Str(""),
    post := Null,
    headers := Null,
    referer := Str(""),
    header := Bool(false),
    nobody := Bool(false),
    timeout := Int(15),
    toFile := Null,
    attemptsMax := Int(1),
    attemptsDelay := Int(10),
    curl := Arr(map[]))

  function Given(options: Options, k: Name): Value {
    if k in options then options[k] else Field(DefaultRequestParams, k)
  }

  /**
    `array_merge(DEFAULT_REQUEST_PARAMS, $options)`: every name the caller
    gives keeps the caller's value, every other name has its default.
   */
  function Merge(options: Options): (r: Request)
    ensures forall k :: k in options ==> Field(r, k) == options[k]
    ensures forall k :: k !in options ==> Field(r, k) == Field(DefaultRequestParams, k)
  {
    Request(
      Given(options, Url), Given(options, Post), Given(options, Headers), Given(options, Referer),
      Given(options, Header), Given(options, Nobody), Given(options, Timeout), Given(options, ToFile),
      Given(options, AttemptsMax), Given(options, AttemptsDelay), Given(options, Curl))
  }

  /** `isset($parameters['toFile'])`. */
  predicate HasTarget(r: Request) {
    r.toFile != Null
  }

  /**
    What the retry loop and the output file need of the merged options: an
    output path that is a string, at least one attempt (with 0 or less the
    pre-decremented counter never reaches 0 and a failing transfer is
    retried for ever), a delay `sleep` accepts and a passthrough array.
   */
  predicate ValidSettings(r: Request) {
    && (r.toFile.Null? || r.toFile.Str?)
    && r.attemptsMax.Int? && r.attemptsMax.i >= 1
    && r.attemptsDelay.Int? && r.attemptsDelay.i >= 0
    && r.curl.Arr?
  }

  function MaxAttempts(r: Request): nat
    requires ValidSettings(r)
  {
    r.attemptsMax.i
  }

  function Delay(r: Request): nat
    requires ValidSettings(r)
  {
    r.attemptsDelay.i
  }

  /** A caller who leaves the retry settings alone gets one attempt. */
  lemma DefaultSettings(options: Options)
    requires ToFile !in options && AttemptsMax !in options && AttemptsDelay !in options && Curl !in options
    ensures ValidSettings(Merge(options))
    ensures MaxAttempts(Merge(options)) == 1 && Delay(Merge(options)) == 10
    ensures !HasTarget(Merge(options))
  {
    assert Field(Merge(options), ToFile) == Null;
    assert Field(Merge(options), AttemptsMax) == Int(1);
    assert Field(Merge(options), AttemptsDelay) == Int(10);
    assert Field(Merge(options), Curl) == Arr(map[]);
  }

  // ----- engine option numbers (libcurl's values; RETURNTRANSFER is PHP's own) -----

  const CURLOPT_FILE := 10001
  const CURLOPT_URL := 10002
  const CURLOPT_POSTFIELDS := 10015
  const CURLOPT_REFERER := 10016
  const CURLOPT_USERAGENT := 10018
  const CURLOPT_HTTPHEADER := 10023
  const CURLOPT_COOKIEFILE := 10031
  const CURLOPT_TIMEOUT := 13
  const CURLOPT_HEADER := 42
  const CURLOPT_NOBODY := 44
  const CURLOPT_POST := 47
  const CURLOPT_FOLLOWLOCATION := 52
  const CURLOPT_COOKIEJAR := 10082
  const CURLOPT_ENCODING := 10102
  const CURLOPT_RETURNTRANSFER := 19913

  /** The options of `_initCurl`'s array literal. */
  function FixedOptions(r: Request, userAgent: string): map<int, Value> {
    map[
      CURLOPT_URL := r.url,
      CURLOPT_HEADER := r.header,
      CURLOPT_TIMEOUT := r.timeout,
      CURLOPT_NOBODY := r.nobody,
      CURLOPT_USERAGENT := Str(userAgent),
      CURLOPT_RETURNTRANSFER := Bool(!HasTarget(r)),
      CURLOPT_FOLLOWLOCATION := Int(1),
      CURLOPT_ENCODING := Str("")
    ]
  }

  /** The options `_initCurl` computes itself, before the passthrough is joined. */
  function ComputedOptions(r: Request, userAgent: string, cookieFile: Option<string>): (o: map<int, Value>)
    ensures CURLOPT_REFERER in o <==> !IsEmpty(r.referer)
    ensures CURLOPT_REFERER in o ==> o[CURLOPT_REFERER] == r.referer
    ensures CURLOPT_POST in o <==> r.post != Null
    ensures CURLOPT_POSTFIELDS in o <==> r.post != Null
    ensures CURLOPT_POST in o ==> o[CURLOPT_POST] == Int(1) && o[CURLOPT_POSTFIELDS] == r.post
    ensures CURLOPT_HTTPHEADER in o <==> r.headers != Null
    ensures CURLOPT_HTTPHEADER in o ==> o[CURLOPT_HTTPHEADER] == r.headers
    ensures CURLOPT_COOKIEFILE in o <==> cookieFile.Some?
    ensures CURLOPT_COOKIEJAR in o <==> cookieFile.Some?
    ensures cookieFile.Some? ==>
              o[CURLOPT_COOKIEFILE] == Str(cookieFile.value) && o[CURLOPT_COOKIEJAR] == Str(cookieFile.value)
    ensures CURLOPT_FILE !in o
  {
    var base := FixedOptions(r, userAgent);
    var withReferer := if IsEmpty(r.referer) then base else base[CURLOPT_REFERER := r.referer];
    var withPost :=
      if r.post == Null then withReferer
      else withReferer[CURLOPT_POST := Int(1)][CURLOPT_POSTFIELDS := r.post];
    var withHeaders :=
      if r.headers == Null then withPost else withPost[CURLOPT_HTTPHEADER := r.headers];
    if cookieFile.None? then withHeaders
    else withHeaders[CURLOPT_COOKIEFILE := Str(cookieFile.value)][CURLOPT_COOKIEJAR := Str(cookieFile.value)]
  }

  /** The options of the array literal taken from the request are always set. */
  lemma RequestOptionsSet(r: Request, userAgent: string, cookieFile: Option<string>)
    ensures var o := ComputedOptions(r, userAgent, cookieFile);
            && CURLOPT_URL in o && o[CURLOPT_URL] == r.url
            && CURLOPT_HEADER in o && o[CURLOPT_HEADER] == r.header
            && CURLOPT_TIMEOUT in o && o[CURLOPT_TIMEOUT] == r.timeout
            && CURLOPT_NOBODY in o && o[CURLOPT_NOBODY] == r.nobody
  {
  }

  /**
    The other options of the array literal are always set too;
    `RETURNTRANSFER` is true exactly when no output file is given.
   */
  lemma ClientOptionsSet(r: Request, userAgent: string, cookieFile: Option<string>)
    ensures var o := ComputedOptions(r, userAgent, cookieFile);
            && CURLOPT_USERAGENT in o && o[CURLOPT_USERAGENT] == Str(userAgent)
            && CURLOPT_RETURNTRANSFER in o && o[CURLOPT_RETURNTRANSFER] == Bool(!HasTarget(r))
            && CURLOPT_FOLLOWLOCATION in o && o[CURLOPT_FOLLOWLOCATION] == Int(1)
            && CURLOPT_ENCODING in o && o[CURLOPT_ENCODING] == Str("")
  {
  }

  /** `_initCurl` sets no option other than the fixed ones and the four conditional groups. */
  lemma ComputedOptionKeys(r: Request, userAgent: string, cookieFile: Option<string>)
    ensures ComputedOptions(r, userAgent, cookieFile).Keys
         <= FixedOptions(r, userAgent).Keys
          + {CURLOPT_REFERER, CURLOPT_POST, CURLOPT_POSTFIELDS, CURLOPT_HTTPHEADER, CURLOPT_COOKIEFILE, CURLOPT_COOKIEJAR}
  {
  }

  /** The integer-keyed entries of the caller's `curl` array, by option number. */
  function Passthrough(r: Request): (o: map<int, Value>)
    ensures forall n :: n in o <==> r.curl.Arr? && IntKey(n) in r.curl.entries
    ensures forall n :: n in o ==> o[n] == r.curl.entries[IntKey(n)]
  {
    match r.curl
    case Arr(e) => map k | k in e && k.IntKey? :: k.n := e[k]
    case _ => map[]
  }

  /** `$parameters['curl'] + $options`: the option map the engine is set up with. */
  function EngineOptions(r: Request, userAgent: string, cookieFile: Option<string>): (o: map<int, Value>)
    ensures o.Keys == ComputedOptions(r, userAgent, cookieFile).Keys + Passthrough(r).Keys
    ensures forall n :: n in Passthrough(r) ==> o[n] == Passthrough(r)[n]
    ensures forall n :: n in ComputedOptions(r, userAgent, cookieFile) && n !in Passthrough(r) ==>
              o[n] == ComputedOptions(r, userAgent, cookieFile)[n]
  {
    ComputedOptions(r, userAgent, cookieFile) + Passthrough(r)
  }

  /** The value an engine option ends up with: the caller's passthrough value if there is one. */
  function Effective(r: Request, userAgent: string, cookieFile: Option<string>, n: int): Option<Value> {
    if n in Passthrough(r) then Some(Passthrough(r)[n])
    else if n in ComputedOptions(r, userAgent, cookieFile) then Some(ComputedOptions(r, userAgent, cookieFile)[n])
    else None
  }

  /** The engine map is exactly the computed options overridden by the passthrough. */
  lemma EngineOptionsEffective(r: Request, userAgent: string, cookieFile: Option<string>, n: int)
    ensures n in EngineOptions(r, userAgent, cookieFile) <==> Effective(r, userAgent, cookieFile, n).Some?
    ensures n in EngineOptions(r, userAgent, cookieFile) ==>
              EngineOptions(r, userAgent, cookieFile)[n] == Effective(r, userAgent, cookieFile, n).value
  {
    var o := EngineOptions(r, userAgent, cookieFile);
    if n in Passthrough(r) {
      assert o[n] == Passthrough(r)[n];
    }
  }

  /**
    The options of a HEAD request (`sendHead` sets `url`, `header` and
    `nobody` over whatever the caller gave): the engine returns headers and
    no body unless the passthrough says otherwise.
   */
  lemma HeadRequestFlags(options: Options, url: string, userAgent: string, cookieFile: Option<string>)
    ensures var r := Merge(options[Url := Str(url)][Header := Bool(true)][Nobody := Bool(true)]);
            && Effective(r, userAgent, cookieFile, CURLOPT_HEADER)
               == Some(if CURLOPT_HEADER in Passthrough(r) then Passthrough(r)[CURLOPT_HEADER] else Bool(true))
            && Effective(r, userAgent, cookieFile, CURLOPT_NOBODY)
               == Some(if CURLOPT_NOBODY in Passthrough(r) then Passthrough(r)[CURLOPT_NOBODY] else Bool(true))
  {
    var r := Merge(options[Url := Str(url)][Header := Bool(true)][Nobody := Bool(true)]);
    assert Field(r, Header) == Bool(true) && Field(r, Nobody) == Bool(true);
    RequestOptionsSet(r, userAgent, cookieFile);
  }

  /**
    The options of a POST request (`sendPost` sets `post` to the data
    array): the engine is told to POST, even when the data array is empty.
   */
  lemma PostRequestFlags(options: Options, url: string, data: map<ArrayKey, Value>,
                                            userAgent: string, cookieFile: Option<string>)
    ensures var r := Merge(options[Url := Str(url)][Post := Arr(data)]);
            && Effective(r, userAgent, cookieFile, CURLOPT_POST)
               == Some(if CURLOPT_POST in Passthrough(r) then Passthrough(r)[CURLOPT_POST] else Int(1))
            && Effective(r, userAgent, cookieFile, CURLOPT_POSTFIELDS)
               == Some(if CURLOPT_POSTFIELDS in Passthrough(r) then Passthrough(r)[CURLOPT_POSTFIELDS] else Arr(data))
  {
    var r := Merge(options[Url := Str(url)][Post := Arr(data)]);
    assert Field(r, Post) == Arr(data);
  }
}
