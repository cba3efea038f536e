/**
  What one call of `_sendRequest` does, as a function of its inputs: the
  merged options, what the engine does on each attempt, the last-response
  path and the files that exist or can be opened for writing.

  The engine itself is not modelled. Its behaviour in one request is an
  input: the result of each attempt (a failed transfer, or the body it
  received), the error text `curl_error` reports afterwards and the array
  `curl_getinfo` returns. Attempts past the end of the list fail.
 */
module Transfer {
  import opened Wrappers
  import opened RequestOptions

  datatype Attempt = Failed | Succeeded(body: string)

  datatype EngineRun = EngineRun(attempts: seq<Attempt>, error: string, info: map<string, Value>)

  function AttemptAt(attempts: seq<Attempt>, k: nat): Attempt {
    if k < |attempts| then attempts[k] else Failed
  }

  /**
    The `do … while` loop from the attempt numbered `done` on, with `max`
    attempts allowed in all: it returns how many transfers ran and the
    result of the last. It stops after the first success or after `max`
    transfers, whichever comes first.
   */
  function RetryFrom(attempts: seq<Attempt>, done: nat, max: nat): (r: (nat, Attempt))
    requires done < max
    ensures done < r.0 <= max
    ensures r.1 == AttemptAt(attempts, r.0 - 1)
    ensures forall k :: done <= k < r.0 - 1 ==> AttemptAt(attempts, k).Failed?
    ensures r.0 < max ==> r.1.Succeeded?
    decreases max - done
  {
    var attempt := AttemptAt(attempts, done);
    if attempt.Succeeded? || done + 1 == max then (done + 1, attempt)
    else RetryFrom(attempts, done + 1, max)
  }

  /** The whole loop: `RetryFrom` from the first attempt. */
  function Retry(attempts: seq<Attempt>, max: nat): (nat, Attempt)
    requires max >= 1
  {
    RetryFrom(attempts, 0, max)
  }

  /**
    The loop runs exactly up to the first success: if attempt `j` is the
    first to succeed and `j < max`, `j + 1` transfers run; if none of the
    first `max` succeeds, all `max` run and the result is a failure.
   */
  lemma RetryStopsAtFirstSuccess(attempts: seq<Attempt>, max: nat, j: nat)
    requires j < max
    requires forall k :: 0 <= k < j ==> AttemptAt(attempts, k).Failed?
    requires AttemptAt(attempts, j).Succeeded?
    ensures Retry(attempts, max) == (j + 1, AttemptAt(attempts, j))
  {
  }

  lemma RetryAllFailing(attempts: seq<Attempt>, max: nat)
    requires max >= 1
    requires forall k :: 0 <= k < max ==> AttemptAt(attempts, k).Failed?
    ensures Retry(attempts, max) == (max, Failed)
  {
  }

  /** What `_sendRequest` returns: `false`, the body, or `true` when the body went to the output file. */
  datatype Response = NoResponse | Body(text: string) | Saved

  /** The bytes `file_put_contents` writes for a response (`true` is written as "1"). */
  function Text(response: Response): string {
    match response
    case NoResponse => ""
    case Body(text) => text
    case Saved => "1"
  }

  function OpenFailure(path: string): string {
    "HTTPClient can not open file \"" + path + "\" for writing!"
  }

  function NoResponseFrom(url: string): string {
    "HTTPClient can not get a response from \"" + url + "\"!"
  }

  /** Everything one request changes or yields. */
  datatype Effect = Effect(
    response: Response,
    report: Option<string>,     // the message passed to the error handler, if any
    transfers: nat,             // how many times the engine ran
    files: map<string, string>, // the files afterwards
    info: map<string, Value>,   // the transfer information kept afterwards
    fileOpened: bool)             // whether the output file was opened

  /** The output file could not be opened: `fopen` failed. */
  predicate OpenFails(r: Request, writable: set<string>) {
    r.toFile.Str? && r.toFile.s !in writable
  }

  /** The result of the last transfer of the loop. */
  function Final(r: Request, run: EngineRun): Attempt
    requires ValidSettings(r)
  {
    Retry(run.attempts, MaxAttempts(r)).1
  }

  /** `_sendRequest` on the merged options `r`. */
  function Perform(r: Request, run: EngineRun, lastResponseToFile: Option<string>,
                   files: map<string, string>, writable: set<string>): (e: Effect)
    requires ValidSettings(r) && r.url.Str?
    // an output file that cannot be opened: reported, and nothing transferred
    ensures OpenFails(r, writable) ==>
              e == Effect(NoResponse, Some(OpenFailure(r.toFile.s)), 0, files, map[], false)
    // otherwise the loop ran between one and `attemptsMax` times and the engine's information is kept
    ensures !OpenFails(r, writable) ==>
              && 1 <= e.transfers <= MaxAttempts(r)
              && (e.transfers, Final(r, run)) == Retry(run.attempts, MaxAttempts(r))
              && e.fileOpened == HasTarget(r)
              && e.info == run.info
    // a failed transfer leaves no output file behind; a successful one leaves the body in it
    ensures e.fileOpened && Final(r, run).Failed? ==> r.toFile.s !in e.files
    ensures e.fileOpened && Final(r, run).Succeeded? && (lastResponseToFile.Some? ==> lastResponseToFile.value != r.toFile.s) ==>
              r.toFile.s in e.files && e.files[r.toFile.s] == Final(r, run).body
    // the outcome: an engine error first, then a missing response, else success
    ensures !OpenFails(r, writable) ==>
              e.report == if !IsEmpty(Str(run.error)) then Some(run.error)
                          else if Final(r, run).Failed? then Some(NoResponseFrom(r.url.s))
                          else None
    ensures e.report.Some? <==> e.response == NoResponse
    ensures e.report.None? ==> e.response == if e.fileOpened then Saved else Body(Final(r, run).body)
    // the response is saved to the last-response file exactly on success, if that file can be written
    ensures e.report.None? && lastResponseToFile.Some? && lastResponseToFile.value in writable ==>
              e.files == FilesAfterLoop(r, run, files)[lastResponseToFile.value := Text(e.response)]
    ensures e.report.Some? || lastResponseToFile.None? || lastResponseToFile.value !in writable ==>
              e.files == if OpenFails(r, writable) then files else FilesAfterLoop(r, run, files)
  {
    if OpenFails(r, writable) then
      Effect(NoResponse, Some(OpenFailure(r.toFile.s)), 0, files, map[], false)
    else
      var (count, last) := Retry(run.attempts, MaxAttempts(r));
      var afterLoop := FilesAfterLoop(r, run, files);
      if !IsEmpty(Str(run.error)) then
        Effect(NoResponse, Some(run.error), count, afterLoop, run.info, HasTarget(r))
      else if last.Failed? then
        Effect(NoResponse, Some(NoResponseFrom(r.url.s)), count, afterLoop, run.info, HasTarget(r))
      else
        var response := if HasTarget(r) then Saved else Body(last.body);
        var saved :=
          if lastResponseToFile.Some? && lastResponseToFile.value in writable
          then afterLoop[lastResponseToFile.value := Text(response)]
          else afterLoop;
        Effect(response, None, count, saved, run.info, HasTarget(r))
  }

  /**
    The files once the loop is over: the output file, opened (and so
    truncated) before the first transfer, holds the body of the successful
    transfer, or is deleted when the last transfer failed.
   */
  function FilesAfterLoop(r: Request, run: EngineRun, files: map<string, string>): map<string, string>
    requires ValidSettings(r)
  {
    if !r.toFile.Str? then files
    else if Final(r, run).Succeeded? then files[r.toFile.s := Final(r, run).body]
    else files - {r.toFile.s}
  }

  /** When every allowed attempt fails, `attemptsMax` transfers run and the request fails. */
  lemma AllAttemptsFail(r: Request, run: EngineRun, lastResponseToFile: Option<string>,
                        files: map<string, string>, writable: set<string>)
    requires ValidSettings(r) && r.url.Str? && !OpenFails(r, writable)
    requires forall k :: 0 <= k < MaxAttempts(r) ==> AttemptAt(run.attempts, k).Failed?
    ensures var e := Perform(r, run, lastResponseToFile, files, writable);
            && e.transfers == MaxAttempts(r)
            && e.response == NoResponse
            && e.report.Some?
  {
    RetryAllFailing(run.attempts, MaxAttempts(r));
  }
}
