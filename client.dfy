/**
  The `Client` class: its state, its setters, the one-shot GET parameters
  of `_buildUrl`, the request cycle of `_sendRequest` and the public
  request methods, and the reading of the cookie file.

  Everything the client asks of the outside world (files, the clock, the
  transfer engine) goes through an `Environment` object, so that each
  request states exactly how the world changed.
 */
module HttpClient {
  import opened Wrappers
  import opened Strings
  import opened PhpArrays
  import opened UrlQuery
  import opened RequestOptions
  import opened Transfer
  import opened Cookies

  /** The `sleep` calls of a loop that ran `transfers` times: one before every transfer but the first. */
  function Pauses(transfers: nat, delay: nat): (p: seq<nat>)
    ensures transfers >= 1 ==> |p| == transfers - 1
    ensures transfers == 0 ==> p == []
    ensures forall i :: 0 <= i < |p| ==> p[i] == delay
  {
    if transfers <= 1 then [] else Pauses(transfers - 1, delay) + [delay]
  }

  /**
    The files, the clock and the transfer engine. `writable` is the set of
    paths `fopen(…, 'wb')` and `file_put_contents` succeed on.
   */
  class Environment {
    var files: map<string, string>
    const writable: set<string>
    var transfers: nat
    var slept: seq<nat>

    constructor (files: map<string, string>, writable: set<string>)
      ensures this.files == files && this.writable == writable
      ensures transfers == 0 && slept == []
    {
      this.files := files;
      this.writable := writable;
      transfers := 0;
      slept := [];
    }

    /** `fopen($path, 'wb')`: fails unless the path is writable, and otherwise creates or empties the file. */
    method Open(path: string) returns (ok: bool)
      modifies this`files
      ensures ok == (path in writable)
      ensures files == if ok then old(files)[path := ""] else old(files)
    {
      ok := path in writable;
      if ok {
        files := files[path := ""];
      }
    }

    /** `unlink($path)`. */
    method Unlink(path: string)
      modifies this`files
      ensures files == old(files) - {path}
    {
      files := files - {path};
    }

    /** `file_put_contents($path, $text)`: replaces the file if the path is writable. */
    method PutContents(path: string, text: string)
      modifies this`files
      ensures files == if path in writable then old(files)[path := text] else old(files)
    {
      if path in writable {
        files := files[path := text];
      }
    }

    /** `file_get_contents($path)`: the file's text, or `false` (here `None`) when there is no such file. */
    function Read(path: string): Option<string>
      reads this
    {
      if path in files then Some(files[path]) else None
    }

    /** `sleep($seconds)`. */
    method Sleep(seconds: nat)
      modifies this`slept
      ensures slept == old(slept) + [seconds]
    {
      slept := slept + [seconds];
    }

    /**
      `curl_exec` for the attempt numbered `k`: one transfer, whose body, on
      success, goes to the output file when one is open.
     */
    method Exec(run: EngineRun, k: nat, target: Option<string>) returns (attempt: Attempt)
      requires target.Some? ==> target.value in files
      modifies this`transfers, this`files
      ensures attempt == AttemptAt(run.attempts, k)
      ensures transfers == old(transfers) + 1
      ensures files == if target.Some? && attempt.Succeeded?
                       then old(files)[target.value := old(files)[target.value] + attempt.body]
                       else old(files)
    {
      attempt := AttemptAt(run.attempts, k);
      transfers := transfers + 1;
      if target.Some? && attempt.Succeeded? {
        files := files[target.value := files[target.value] + attempt.body];
      }
    }
  }

  /**
    The `do … while` loop of `_sendRequest`: transfer, and while the
    transfer failed, count the attempt down and, unless none is left, sleep
    and transfer again.
   */
  method RunTransfers(run: EngineRun, attemptsMax: nat, delay: nat, target: Option<string>, env: Environment)
    returns (count: nat, last: Attempt)
    requires attemptsMax >= 1
    requires target.Some? ==> target.value in env.files && env.files[target.value] == ""
    modifies env`files, env`transfers, env`slept
    ensures (count, last) == Retry(run.attempts, attemptsMax)
    ensures env.transfers == old(env.transfers) + count
    ensures env.slept == old(env.slept) + Pauses(count, delay)
    ensures env.files == if target.Some? && last.Succeeded?
                         then old(env.files)[target.value := last.body]
                         else old(env.files)
  {
    var left: int := attemptsMax;
    last := env.Exec(run, 0, target);
    if target.Some? && last.Succeeded? {
      assert "" + last.body == last.body;
    }
    count := 1;
    while last.Failed? && left - 1 != 0
      invariant 1 <= count <= attemptsMax && left == attemptsMax - count + 1
      invariant Retry(run.attempts, attemptsMax)
             == if last.Failed? && count < attemptsMax then RetryFrom(run.attempts, count, attemptsMax) else (count, last)
      invariant env.transfers == old(env.transfers) + count
      invariant env.slept == old(env.slept) + Pauses(count, delay)
      invariant env.files == if target.Some? && last.Succeeded?
                             then old(env.files)[target.value := last.body]
                             else old(env.files)
      decreases left
    {
      left := left - 1;
      env.Sleep(delay);
      assert Pauses(count + 1, delay) == Pauses(count, delay) + [delay];
      last := env.Exec(run, count, target);
      if target.Some? && last.Succeeded? {
        assert "" + last.body == last.body;
      }
      count := count + 1;
    }
  }

  /** A query string after "?" reads back as the array it was built from. */
  lemma QueryAfterMark(url: string, q: PhpArray)
    requires q != []
    ensures var u := url + "?" + BuildQuery(q);
            && |u| > |url| && u[..|url|] == url && u[|url|] == '?'
            && ParseQuery(u[|url| + 1..]) == q
  {
    var query := BuildQuery(q);
    QueryRoundTrip(q);
    assert (url + "?" + query)[|url| + 1..] == query;
  }

  /** `_buildUrl`'s result: the URL, and `?` plus the query string of the merged parameters if there are any. */
  function RequestUrl(url: string, pending: PhpArray, parameters: PhpArray): (u: string)
    ensures pending == [] && parameters == [] ==> u == url
    ensures pending != [] || parameters != [] ==>
              && |u| > |url| && u[..|url|] == url && u[|url|] == '?'
              && ParseQuery(u[|url| + 1..]) == ArrayMerge(pending, parameters)
  {
    var merged := ArrayMerge(pending, parameters);
    if merged == [] then url
    else
      QueryAfterMark(url, merged);
      url + "?" + BuildQuery(merged)
  }

  const DefaultUserAgent := "Mozilla/5.0 (X11; Linux x86_64) AppleWebKit/537.36 (KHTML, like Gecko) "
                          + "Ubuntu Chromium/56.0.2924.76 Chrome/56.0.2924.76 Safari/537.36"
  const DefaultRandCookieFilePrefix := "meshcl"

  /** The error callback: the constructor's, which throws, or one the caller set with `onError`. */
  datatype Handler = ThrowException | Callback(id: nat)

  /** One call of the error callback. */
  datatype Report = Report(handler: Handler, message: string)

  function ReportsOf(handler: Handler, report: Option<string>): seq<Report> {
    if report.Some? then [Report(handler, report.value)] else []
  }

  /**
    An engine handle: the request options and client settings `_initCurl`
    configured it with, and the output file `_sendRequest` attached to it.
   */
  datatype Handle = Handle(request: Request, userAgent: string, cookieFile: Option<string>, output: Option<string>)

  /** The options set on a handle: those of `_initCurl`, then the output file. */
  function Configured(h: Handle): map<int, Value> {
    var o := EngineOptions(h.request, h.userAgent, h.cookieFile);
    if h.output.Some? then o[CURLOPT_FILE := Resource(h.output.value)] else o
  }

  /**
    The output file is set after the other options, so it wins over a
    `CURLOPT_FILE` passed through `curl`; every other option is as
    `_initCurl` left it.
   */
  lemma OutputFileSetLast(h: Handle, n: int)
    requires h.output.Some?
    ensures CURLOPT_FILE in Configured(h) && Configured(h)[CURLOPT_FILE] == Resource(h.output.value)
    ensures n != CURLOPT_FILE ==>
              (n in Configured(h) <==> Effective(h.request, h.userAgent, h.cookieFile, n).Some?)
    ensures n != CURLOPT_FILE && n in Configured(h) ==>
              Configured(h)[n] == Effective(h.request, h.userAgent, h.cookieFile, n).value
  {
    EngineOptionsEffective(h.request, h.userAgent, h.cookieFile, n);
  }

  /** The fields of a client and its environment as they were when a request started. */
  datatype Snapshot = Snapshot(
    lastResponseToFile: Option<string>,
    onError: Handler,
    userAgent: string,
    cookieFile: Option<string>,
    reports: seq<Report>,
    files: map<string, string>,
    transfers: nat,
    slept: seq<nat>)

  class Client {
    var nextRequestGetParams: PhpArray
    var userAgent: string
    var useRandomCookieFile: bool
    var randCookieFilePrefix: string
    var cookieFile: Option<string>
    /** The options of the open engine handle; `None` once it is closed or released. */
    var curlHandle: Option<Handle>
    var curlInfo: map<string, Value>
    var lastResponseToFile: Option<string>
    var onError: Handler
    /** Every call of the error callback so far. */
    var reports: seq<Report>

    constructor ()
      ensures nextRequestGetParams == []
      ensures userAgent == DefaultUserAgent
      ensures !useRandomCookieFile && randCookieFilePrefix == DefaultRandCookieFilePrefix
      ensures cookieFile.None? && curlHandle.None? && curlInfo == map[]
      ensures lastResponseToFile.None? && onError == ThrowException && reports == []
    {
      nextRequestGetParams := [];
      userAgent := DefaultUserAgent;
      useRandomCookieFile := false;
      randCookieFilePrefix := DefaultRandCookieFilePrefix;
      cookieFile := None;
      curlHandle := None;
      curlInfo := map[];
      lastResponseToFile := None;
      onError := ThrowException;
      reports := [];
    }

    // ----- setters -----------------------------------------------------------

    method SetUserAgent(userAgent: string) returns (self: Client)
      modifies this`userAgent
      ensures this.userAgent == userAgent && self == this
    {
      this.userAgent := userAgent;
      self := this;
    }

    method SetUseRandomCookieFile(useRandomCookieFile: bool) returns (self: Client)
      modifies this`useRandomCookieFile
      ensures this.useRandomCookieFile == useRandomCookieFile && self == this
    {
      this.useRandomCookieFile := useRandomCookieFile;
      self := this;
    }

    method SetRandCookieFilePrefix(randCookieFilePrefix: string) returns (self: Client)
      modifies this`randCookieFilePrefix
      ensures this.randCookieFilePrefix == randCookieFilePrefix && self == this
    {
      this.randCookieFilePrefix := randCookieFilePrefix;
      self := this;
    }

    method OnError(errorCallback: Handler) returns (self: Client)
      modifies this`onError
      ensures onError == errorCallback && self == this
    {
      onError := errorCallback;
      self := this;
    }

    /** A missing or blank path switches the last-response file off; any other path is kept as given. */
    method SetLastResponseToFile(path: Option<string>) returns (self: Client)
      modifies this`lastResponseToFile
      ensures var given := if path.Some? then path.value else "";
              lastResponseToFile == if IsBlank(given) then None else Some(given)
      ensures self == this
    {
      var given := if path.Some? then path.value else "";
      lastResponseToFile := Some(given);
      TrimEmptyIffBlank(given);
      if Trim(given) == "" {
        lastResponseToFile := None;
      }
      self := this;
    }

    method SetGetParameters(getParameters: PhpArray) returns (self: Client)
      modifies this`nextRequestGetParams
      ensures nextRequestGetParams == getParameters && self == this
    {
      nextRequestGetParams := getParameters;
      self := this;
    }

    // ----- requests ----------------------------------------------------------

    /** `_buildUrl`: the pending GET parameters are used by this URL and then dropped. */
    method BuildUrl(url: string, parameters: PhpArray) returns (result: string)
      modifies this`nextRequestGetParams
      ensures result == RequestUrl(url, old(nextRequestGetParams), parameters)
      ensures nextRequestGetParams == []
    {
      nextRequestGetParams := ArrayMerge(nextRequestGetParams, parameters);
      result := url;
      if 0 < |nextRequestGetParams| {
        result := result + "?" + BuildQuery(nextRequestGetParams);
      }
      nextRequestGetParams := [];
    }

    /** `_closeCurl`. */
    method CloseCurl()
      modifies this`curlHandle
      ensures curlHandle.None?
    {
      if curlHandle.None? {
        return;
      }
      curlHandle := None;
    }

    /** `curl_setopt($this->curlHandle, CURLOPT_FILE, $fp)`. */
    method SetOutputFile(path: string)
      requires curlHandle.Some?
      modifies this`curlHandle
      ensures curlHandle == Some(old(curlHandle).value.(output := Some(path)))
    {
      curlHandle := Some(curlHandle.value.(output := Some(path)));
    }

    /** `_initCurl`. */
    method InitCurl(r: Request)
      modifies this`curlHandle
      ensures curlHandle == Some(Handle(r, userAgent, cookieFile, None))
    {
      curlHandle := Some(Handle(r, userAgent, cookieFile, None));
    }

    /** The part of the client's and the environment's state a request depends on or changes. */
    function Snap(env: Environment): Snapshot
      reads this`lastResponseToFile, this`onError, this`userAgent, this`cookieFile, this`reports
      reads env`files, env`transfers, env`slept
    {
      Snapshot(lastResponseToFile, onError, userAgent, cookieFile, reports, env.files, env.transfers, env.slept)
    }

    /**
      The state a request with merged options `r` leaves behind when it
      starts from `before`, as `Perform` describes it: the response, the
      files, the transfers and pauses, the transfer information, the error
      callback's calls and the engine handle.
     */
    predicate Sent(r: Request, run: EngineRun, env: Environment, before: Snapshot, response: Response)
      reads this, env
    {
      && ValidSettings(r) && r.url.Str?
      && var e := Perform(r, run, before.lastResponseToFile, before.files, env.writable);
      && response == e.response
      && env.files == e.files
      && env.transfers == before.transfers + e.transfers
      && env.slept == before.slept + Pauses(e.transfers, Delay(r))
      && curlInfo == e.info
      && reports == before.reports + ReportsOf(before.onError, e.report)
      && curlHandle == Some(Handle(r, before.userAgent, before.cookieFile, if e.fileOpened then Some(r.toFile.s) else None))
    }

    /** `_sendRequest`. */
    method SendRequest(options: Options, run: EngineRun, env: Environment) returns (response: Response)
      requires ValidSettings(Merge(options)) && Merge(options).url.Str?
      modifies this`curlInfo, this`curlHandle, this`reports, env`files, env`transfers, env`slept
      ensures Sent(Merge(options), run, env, old(Snap(env)), response)
    {
      ghost var before := Snap(env);
      var r := Merge(options);
      curlInfo := map[];
      CloseCurl();
      InitCurl(r);
      var target: Option<string> := None;
      if HasTarget(r) {
        var ok := env.Open(r.toFile.s);
        if !ok {
          assert OpenFails(r, env.writable);
          reports := reports + [Report(onError, OpenFailure(r.toFile.s))];
          return NoResponse;
        }
        SetOutputFile(r.toFile.s);
        target := Some(r.toFile.s);
      }
      var last := TransferLoop(r, run, target, env, before.files);
      response := Conclude(r, run, last, target, env, before);
    }

    /**
      The attempts of `_sendRequest` once the output file, if any, is open,
      and the removal of that file when the last attempt failed.
     */
    method TransferLoop(r: Request, run: EngineRun, target: Option<string>, env: Environment, ghost files: map<string, string>)
      returns (last: Attempt)
      requires ValidSettings(r)
      requires target == if HasTarget(r) then Some(r.toFile.s) else None
      requires env.files == if target.Some? then files[target.value := ""] else files
      modifies env`files, env`transfers, env`slept
      ensures last == Final(r, run)
      ensures env.files == FilesAfterLoop(r, run, files)
      ensures env.transfers == old(env.transfers) + Retry(run.attempts, MaxAttempts(r)).0
      ensures env.slept == old(env.slept) + Pauses(Retry(run.attempts, MaxAttempts(r)).0, Delay(r))
    {
      var count;
      count, last := RunTransfers(run, MaxAttempts(r), Delay(r), target, env);
      if target.Some? && last.Failed? {
        env.Unlink(target.value);
      }
    }

    /**
      The end of `_sendRequest`: the transfer information is kept, then an
      engine error or a failed last attempt is reported, and otherwise the
      response is returned and saved to the last-response file.
     */
    method Conclude(r: Request, run: EngineRun, last: Attempt, target: Option<string>, env: Environment, ghost before: Snapshot)
      returns (response: Response)
      requires ValidSettings(r) && r.url.Str? && !OpenFails(r, env.writable)
      requires target == if HasTarget(r) then Some(r.toFile.s) else None
      requires last == Final(r, run)
      requires lastResponseToFile == before.lastResponseToFile && onError == before.onError && reports == before.reports
      requires env.files == FilesAfterLoop(r, run, before.files)
      requires env.transfers == before.transfers + Retry(run.attempts, MaxAttempts(r)).0
      requires env.slept == before.slept + Pauses(Retry(run.attempts, MaxAttempts(r)).0, Delay(r))
      requires curlHandle == Some(Handle(r, before.userAgent, before.cookieFile, target))
      modifies this`curlInfo, this`reports, env`files
      ensures Sent(r, run, env, before, response)
    {
      curlInfo := run.info;
      if !IsEmpty(Str(run.error)) {
        reports := reports + [Report(onError, run.error)];
        return NoResponse;
      }
      if last.Failed? {
        reports := reports + [Report(onError, NoResponseFrom(r.url.s))];
        return NoResponse;
      }
      response := if target.Some? then Saved else Body(last.body);
      if lastResponseToFile.Some? {
        env.PutContents(lastResponseToFile.value, Text(response));
      }
    }

    /** `sendHead`: `url`, `header` and `nobody` are set over the caller's options. */
    method SendHead(url: string, parameters: PhpArray, options: Options, run: EngineRun, env: Environment)
      returns (response: Response)
      requires ValidSettings(Merge(options))
      modifies this`nextRequestGetParams, this`curlInfo, this`curlHandle, this`reports
      modifies env`files, env`transfers, env`slept
      ensures nextRequestGetParams == []
      ensures Sent(Merge(options[Url := Str(RequestUrl(url, old(nextRequestGetParams), parameters))]
                                [Header := Bool(true)][Nobody := Bool(true)]), run, env, old(Snap(env)), response)
    {
      var target := BuildUrl(url, parameters);
      var sent := options[Url := Str(target)][Header := Bool(true)][Nobody := Bool(true)];
      SameSettings(options, sent);
      response := SendRequest(sent, run, env);
    }

    /** `sendGet`. */
    method SendGet(url: string, parameters: PhpArray, options: Options, run: EngineRun, env: Environment)
      returns (response: Response)
      requires ValidSettings(Merge(options))
      modifies this`nextRequestGetParams, this`curlInfo, this`curlHandle, this`reports
      modifies env`files, env`transfers, env`slept
      ensures nextRequestGetParams == []
      ensures Sent(Merge(options[Url := Str(RequestUrl(url, old(nextRequestGetParams), parameters))]), run, env, old(Snap(env)), response)
    {
      var target := BuildUrl(url, parameters);
      var sent := options[Url := Str(target)];
      SameSettings(options, sent);
      response := SendRequest(sent, run, env);
    }

    /** `sendPost`: the data array always becomes the POST body, even when empty. */
    method SendPost(url: string, data: map<ArrayKey, Value>, options: Options, run: EngineRun, env: Environment)
      returns (response: Response)
      requires ValidSettings(Merge(options))
      modifies this`nextRequestGetParams, this`curlInfo, this`curlHandle, this`reports
      modifies env`files, env`transfers, env`slept
      ensures nextRequestGetParams == []
      ensures Sent(Merge(options[Url := Str(RequestUrl(url, old(nextRequestGetParams), []))][Post := Arr(data)]),
                   run, env, old(Snap(env)), response)
    {
      var target := BuildUrl(url, []);
      var sent := options[Url := Str(target)][Post := Arr(data)];
      SameSettings(options, sent);
      response := SendRequest(sent, run, env);
    }

    /** `sendDownload`: the response goes to `destinationFile`. */
    method SendDownload(url: string, destinationFile: string, options: Options, run: EngineRun, env: Environment)
      returns (response: Response)
      requires ValidSettings(Merge(options[ToFile := Str(destinationFile)]))
      modifies this`nextRequestGetParams, this`curlInfo, this`curlHandle, this`reports
      modifies env`files, env`transfers, env`slept
      ensures nextRequestGetParams == []
      ensures Sent(Merge(options[Url := Str(RequestUrl(url, old(nextRequestGetParams), []))]
                                [ToFile := Str(destinationFile)]), run, env, old(Snap(env)), response)
    {
      var target := BuildUrl(url, []);
      var sent := options[Url := Str(target)][ToFile := Str(destinationFile)];
      SameSettings(options[ToFile := Str(destinationFile)], sent);
      response := SendRequest(sent, run, env);
    }

    /**
      `getCookies`: an empty table without a cookie file; otherwise the
      engine handle is released and the file is read as a cookie table.
      The class declares strict types, so when the file does not exist the
      `false` that `file_get_contents` returns makes `explode` throw a
      `TypeError`: that outcome is `None`.
     */
    method GetCookies(env: Environment) returns (cookies: Option<PhpArray>)
      modifies this`curlHandle
      ensures !HasCookieFile(cookieFile) ==> cookies == Some([]) && curlHandle == old(curlHandle)
      ensures HasCookieFile(cookieFile) ==> curlHandle.None?
      ensures HasCookieFile(cookieFile) ==> (cookies.None? <==> cookieFile.value !in env.files)
      ensures HasCookieFile(cookieFile) && cookieFile.value in env.files ==>
                cookies == Some(CookieTable(env.files[cookieFile.value]))
    {
      if !HasCookieFile(cookieFile) {
        return Some([]);
      }
      curlHandle := None;
      var text := env.Read(cookieFile.value);
      if text.None? {
        return None;
      }
      var table := ReadCookies(text.value);
      cookies := Some(table);
    }
  }

  /** `! $this->getCookieFile()`: no path, "" and "0" all count as no cookie file. */
  predicate HasCookieFile(cookieFile: Option<string>) {
    cookieFile.Some? && !IsEmpty(Str(cookieFile.value))
  }

  /** Setting the URL, the flags or the POST data leaves the retry and output settings as they were. */
  lemma SameSettings(options: Options, sent: Options)
    requires forall k :: k in {ToFile, AttemptsMax, AttemptsDelay, Curl} ==>
               (k in sent <==> k in options) && (k in options ==> sent[k] == options[k])
    requires Url in sent && sent[Url].Str?
    ensures ValidSettings(Merge(sent)) == ValidSettings(Merge(options))
    ensures Merge(sent).url.Str?
    ensures Merge(sent).toFile == Merge(options).toFile
  {
    assert Field(Merge(sent), ToFile) == Field(Merge(options), ToFile);
    assert Field(Merge(sent), AttemptsMax) == Field(Merge(options), AttemptsMax);
    assert Field(Merge(sent), AttemptsDelay) == Field(Merge(options), AttemptsDelay);
    assert Field(Merge(sent), Curl) == Field(Merge(options), Curl);
    assert Field(Merge(sent), Url) == sent[Url];
  }
}
