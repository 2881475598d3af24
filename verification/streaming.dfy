/** A streaming generation request (`POST /api/generate` with `stream: true`):
    consuming the newline-delimited chunks, and the outcome of the session. */
module Streaming {
  import opened Wrappers
  import opened Text
  import opened Registry
  import opened Oom
  import opened Resources
  import opened Diagnosis

  /** One decoded chunk: `error` is `Some` exactly when the chunk has an
      "error" key; `response` is `chunk.get("response", "")`; `done` is the
      truth value of `chunk.get("done")`. */
  datatype Chunk = Chunk(error: Option<string>, response: string, done: bool)

  /** One line of the response body. */
  datatype Line =
    | Blank              // an empty line, skipped
    | Malformed          // a line `json.loads` rejects
    | Decoded(chunk: Chunk)

  /** How the body ends once the given lines have been delivered: it closes,
      the next read times out, or the transport fails (a broken chunked
      encoding, a reset connection). */
  datatype Ending = Closed | ReadTimeout | Broken(reason: string)

  /** What the request produced. */
  datatype Connection =
    | ConnectFailed(reason: string)   // any other transport failure before the response
    | TimedOut                        // the connect or the wait for the response headers timed out
    | HttpStatusError(body: string)   // `raise_for_status` raised; `body` is the response text, "" when unreadable
    | Opened(lines: seq<Line>, ending: Ending)

  /** The reply used when the answer is empty after stripping. */
  const NO_REPLY: string := "(無回覆)"

  /** Why reading stopped. */
  datatype Stop = Reading | Done | ErrorChunk(message: string) | Undecodable

  /** The loop state: the fragments collected so far (`full_response`), the
      two flags, the positions of the lines at which the resource report ran,
      and whether reading has stopped. */
  datatype Progress = Progress(fragments: seq<string>, firstTokenReceived: bool, gotAnyToken: bool,
                               reportedAt: seq<nat>, stop: Stop)

  const START: Progress := Progress([], false, false, [], Reading)

  /** One line through the loop body; `at` is the line's position. */
  function Step(p: Progress, line: Line, at: nat, showResource: bool): Progress {
    if !p.stop.Reading? then p
    else match line
      case Blank => p
      case Malformed => p.(stop := Undecodable)
      case Decoded(c) =>
        if c.error.Some? then p.(stop := ErrorChunk(c.error.value))
        else
          var q :=
            if c.response == "" then p
            else if !p.firstTokenReceived && showResource then
              p.(fragments := p.fragments + [c.response], firstTokenReceived := true,
                 gotAnyToken := true, reportedAt := p.reportedAt + [at])
            else
              p.(fragments := p.fragments + [c.response], gotAnyToken := true);
          if c.done then q.(stop := Done) else q
  }

  predicate HasToken(line: Line) {
    line.Decoded? && line.chunk.response != ""
  }

  /** The state after the lines have gone through the loop. */
  function Consume(lines: seq<Line>, showResource: bool): Progress {
    if lines == [] then START
    else Step(Consume(lines[..|lines| - 1], showResource), lines[|lines| - 1], |lines| - 1, showResource)
  }

  /** What the loop state records. The resource report runs at most once, at
      the first line carrying text, and only when `showResource` is set; the
      token flag records whether any text has been collected; only non-empty
      fragments are kept. */
  lemma {:induction false} ConsumeFacts(lines: seq<Line>, showResource: bool)
    ensures var p := Consume(lines, showResource);
      && |p.reportedAt| <= 1
      && (|p.reportedAt| == 1 <==> showResource && p.fragments != [])
      && (p.reportedAt != [] ==> p.reportedAt[0] < |lines| && HasToken(lines[p.reportedAt[0]]))
      && (p.reportedAt != [] ==> forall j :: 0 <= j < p.reportedAt[0] ==> !HasToken(lines[j]))
      && (p.gotAnyToken <==> p.fragments != [])
      && (p.firstTokenReceived <==> showResource && p.fragments != [])
      && (forall k :: 0 <= k < |p.fragments| ==> p.fragments[k] != "")
      && (p.stop.Reading? ==> (p.fragments == [] <==> forall j :: 0 <= j < |lines| ==> !HasToken(lines[j])))
  {
    if lines != [] {
      var init := lines[..|lines| - 1];
      ConsumeFacts(init, showResource);
      assert forall j :: 0 <= j < |init| ==> lines[j] == init[j];
    }
  }

  /** The number of resource reports: one when reporting is on and some text
      arrived, none otherwise. */
  lemma ReportCount(lines: seq<Line>, showResource: bool)
    ensures var p := Consume(lines, showResource);
            |p.reportedAt| <= 1 && (|p.reportedAt| == 1 <==> showResource && p.fragments != [])
  {
    ConsumeFacts(lines, showResource);
  }

  /** `"".join(full_response).strip() or "(無回覆)"`. */
  function Finish(fragments: seq<string>): (text: string)
    ensures text != ""
    ensures AllSpace(Concat(fragments)) ==> text == NO_REPLY
    ensures !AllSpace(Concat(fragments)) ==> text == Strip(Concat(fragments))
  {
    var t := Strip(Concat(fragments));
    if t == "" then NO_REPLY else t
  }

  // ---- The two session drivers ----

  /** How a session ended. */
  datatype Outcome =
    | Reply(text: string)
    | OllamaError(message: string)                   // an error chunk, or an out-of-memory HTTP error
    | TimeoutWithDiagnosis(findings: seq<Finding>)
    | Timeout                                        // a read timeout `llama_local` lets escape
    | HttpError(body: string)                        // the HTTP error, re-raised
    | ConnectionError(reason: string)
    | DecodeError                                    // a line `json.loads` rejected, escaping as ValueError

  /** The outcome of `llama_local`: nothing is caught. */
  function LlamaLocalOutcome(conn: Connection, showResource: bool): Outcome {
    match conn
    case ConnectFailed(reason) => ConnectionError(reason)
    case TimedOut => Timeout
    case HttpStatusError(body) => HttpError(body)
    case Opened(lines, ending) => PlainEnd(Consume(lines, showResource), ending)
  }

  /** How `llama_local` ends once the loop has left state `p` and the body
      ended as `ending`. */
  function PlainEnd(p: Progress, ending: Ending): Outcome {
    match p.stop
    case ErrorChunk(message) => OllamaError(message)
    case Undecodable => DecodeError
    case Done => Reply(Finish(p.fragments))
    case Reading =>
      match ending
      case Closed => Reply(Finish(p.fragments))
      case ReadTimeout => Timeout
      case Broken(reason) => ConnectionError(reason)
  }

  /** `except requests.HTTPError`: an out-of-memory body becomes an error
      with the OOM prefix, any other HTTP error is re-raised. */
  function ClassifyHttpError(body: string): (o: Outcome)
    ensures o.OllamaError? <==> body != "" && IsOomError(body)
    ensures o.OllamaError? ==> o.message == OOM_PREFIX + body
    ensures !o.OllamaError? ==> o == HttpError(body)
  {
    if body != "" && IsOomError(body) then OllamaError(OOM_PREFIX + body) else HttpError(body)
  }

  /** The outcome of `llama_local_greeting`; `diagPoll` is the running list
      read by the diagnosis after a timeout. */
  function GreetingOutcome(model: string, conn: Connection, diagPoll: Option<seq<Entry>>): Outcome {
    match conn
    case ConnectFailed(reason) => ConnectionError(reason)
    case TimedOut => TimeoutWithDiagnosis(Diagnose(model, false, diagPoll))
    case HttpStatusError(body) => ClassifyHttpError(body)
    case Opened(lines, ending) => GreetingEnd(model, Consume(lines, true), ending, diagPoll)
  }

  /** How `llama_local_greeting` ends once the loop has left state `p` and the
      body ended as `ending`. */
  function GreetingEnd(model: string, p: Progress, ending: Ending, diagPoll: Option<seq<Entry>>): Outcome {
    match p.stop
    case ErrorChunk(message) => OllamaError(message)
    case Undecodable => DecodeError
    case Done => Reply(Finish(p.fragments))
    case Reading =>
      match ending
      case Closed => Reply(Finish(p.fragments))
      case ReadTimeout => TimeoutWithDiagnosis(Diagnose(model, p.gotAnyToken, diagPoll))
      case Broken(reason) => ConnectionError(reason)
  }

  /** The `for line in resp.iter_lines()` loop shared by both drivers. It
      returns the loop state and the resource reports shown (`usagePoll` is
      the running list the report reads). */
  method ReadStream(model: string, lines: seq<Line>, showResource: bool, usagePoll: Option<seq<Entry>>)
    returns (p: Progress, reports: seq<Option<Usage>>)
    ensures p == Consume(lines, showResource)
    ensures |reports| == |p.reportedAt|
    ensures forall k :: 0 <= k < |reports| ==> reports[k] == ResourceUsage(model, usagePoll)
  {
    var fullResponse: seq<string> := [];
    var firstTokenReceived := false;
    var gotAnyToken := false;
    var reportedAt: seq<nat> := [];
    var stop := Reading;
    reports := [];
    var i := 0;
    while i < |lines|
      invariant 0 <= i <= |lines|
      invariant Progress(fullResponse, firstTokenReceived, gotAnyToken, reportedAt, stop) == Consume(lines[..i], showResource)
      invariant stop == Reading
      invariant |reports| == |reportedAt|
      invariant forall k :: 0 <= k < |reports| ==> reports[k] == ResourceUsage(model, usagePoll)
    {
      assert lines[..i + 1][..i] == lines[..i];
      ghost var next := Step(Consume(lines[..i], showResource), lines[i], i, showResource);
      assert next == Consume(lines[..i + 1], showResource);
      var line := lines[i];
      i := i + 1;
      if line.Blank? {
        continue;
      }
      if line.Malformed? {
        stop := Undecodable;
        assert Progress(fullResponse, firstTokenReceived, gotAnyToken, reportedAt, stop) == next;
        break;
      }
      var chunk := line.chunk;
      if chunk.error.Some? {
        stop := ErrorChunk(chunk.error.value);
        assert Progress(fullResponse, firstTokenReceived, gotAnyToken, reportedAt, stop) == next;
        break;
      }
      var token := chunk.response;
      if token != "" {
        if !firstTokenReceived && showResource {
          firstTokenReceived := true;
          var usage := ShowModelResourceUsage(model, usagePoll);
          reports := reports + [usage];
          reportedAt := reportedAt + [i - 1];
        }
        gotAnyToken := true;
        fullResponse := fullResponse + [token];
      }
      if chunk.done {
        stop := Done;
        assert Progress(fullResponse, firstTokenReceived, gotAnyToken, reportedAt, stop) == next;
        break;
      }
    }
    p := Progress(fullResponse, firstTokenReceived, gotAnyToken, reportedAt, stop);
    assert p == Consume(lines[..i], showResource);
    if !stop.Reading? {
      StoppedStaysStopped(lines[..i], lines[i..], showResource);
      assert lines[..i] + lines[i..] == lines;
    } else {
      assert lines[..i] == lines;
    }
  }

  /** `llama_local`. */
  method LlamaLocal(model: string, conn: Connection, showResource: bool, usagePoll: Option<seq<Entry>>)
    returns (outcome: Outcome, reports: seq<Option<Usage>>)
    ensures outcome == LlamaLocalOutcome(conn, showResource)
    ensures |reports| <= 1
    ensures |reports| == 1 <==> conn.Opened? && showResource && Consume(conn.lines, showResource).fragments != []
    ensures forall k :: 0 <= k < |reports| ==> reports[k] == ResourceUsage(model, usagePoll)
  {
    reports := [];
    match conn {
      case ConnectFailed(reason) =>
        outcome := ConnectionError(reason);
      case TimedOut =>
        outcome := Timeout;
      case HttpStatusError(body) =>
        outcome := HttpError(body);
      case Opened(lines, ending) =>
        var p;
        p, reports := ReadStream(model, lines, showResource, usagePoll);
        ReportCount(lines, showResource);
        match p.stop {
          case ErrorChunk(message) => outcome := OllamaError(message);
          case Undecodable => outcome := DecodeError;
          case Done => outcome := Reply(Finish(p.fragments));
          case Reading =>
            match ending {
              case Closed => outcome := Reply(Finish(p.fragments));
              case ReadTimeout => outcome := Timeout;
              case Broken(reason) => outcome := ConnectionError(reason);
            }
        }
    }
  }

  /** `llama_local_greeting`: a timeout is answered with a diagnosis, an HTTP
      error is checked for out-of-memory text. */
  method LlamaLocalGreeting(model: string, conn: Connection, usagePoll: Option<seq<Entry>>,
                            diagPoll: Option<seq<Entry>>)
    returns (outcome: Outcome, reports: seq<Option<Usage>>)
    ensures outcome == GreetingOutcome(model, conn, diagPoll)
    ensures |reports| <= 1
    ensures |reports| == 1 <==> conn.Opened? && Consume(conn.lines, true).fragments != []
    ensures forall k :: 0 <= k < |reports| ==> reports[k] == ResourceUsage(model, usagePoll)
  {
    reports := [];
    match conn {
      case ConnectFailed(reason) =>
        outcome := ConnectionError(reason);
      case TimedOut =>
        var diag := DiagnoseTimeout(model, false, diagPoll);
        outcome := TimeoutWithDiagnosis(diag);
      case HttpStatusError(body) =>
        outcome := ClassifyHttpError(body);
      case Opened(lines, ending) =>
        var p;
        p, reports := ReadStream(model, lines, true, usagePoll);
        ReportCount(lines, true);
        match p.stop {
          case ErrorChunk(message) => outcome := OllamaError(message);
          case Undecodable => outcome := DecodeError;
          case Done => outcome := Reply(Finish(p.fragments));
          case Reading =>
            match ending {
              case Closed => outcome := Reply(Finish(p.fragments));
              case ReadTimeout =>
                var diag := DiagnoseTimeout(model, p.gotAnyToken, diagPoll);
                outcome := TimeoutWithDiagnosis(diag);
              case Broken(reason) => outcome := ConnectionError(reason);
            }
        }
    }
  }

  // ---- What the loop does, stated against the lines ----

  /** Once reading has stopped, later lines change nothing: nothing after
      `done` (or an error chunk, or an undecodable line) is read. */
  lemma {:induction false} StoppedStaysStopped(lines: seq<Line>, rest: seq<Line>, showResource: bool)
    requires !Consume(lines, showResource).stop.Reading?
    ensures Consume(lines + rest, showResource) == Consume(lines, showResource)
  {
    if rest != [] {
      var all := lines + rest;
      assert all[..|all| - 1] == lines + rest[..|rest| - 1];
      StoppedStaysStopped(lines, rest[..|rest| - 1], showResource);
    } else {
      assert lines + rest == lines;
    }
  }

  /** A line that neither stops reading nor carries an error. */
  predicate Passes(line: Line) {
    line.Blank? || (line.Decoded? && line.chunk.error.None? && !line.chunk.done)
  }

  predicate AllPass(lines: seq<Line>) {
    forall j :: 0 <= j < |lines| ==> Passes(lines[j])
  }

  /** The text fragments of the decoded lines, in order (empty ones included). */
  function Responses(lines: seq<Line>): (r: seq<string>)
    ensures |r| <= |lines|
  {
    if lines == [] then []
    else if lines[|lines| - 1].Decoded? then Responses(lines[..|lines| - 1]) + [lines[|lines| - 1].chunk.response]
    else Responses(lines[..|lines| - 1])
  }

  /** While no line stops reading, the collected fragments are exactly the
      non-empty responses seen so far. */
  lemma {:induction false} PassingLinesCollectText(lines: seq<Line>, showResource: bool)
    requires AllPass(lines)
    ensures Consume(lines, showResource).stop.Reading?
    ensures Consume(lines, showResource).fragments == NonEmpty(Responses(lines))
  {
    if lines != [] {
      var init := lines[..|lines| - 1];
      var last := lines[|lines| - 1];
      assert AllPass(init) by {
        forall j | 0 <= j < |init| ensures Passes(init[j]) { assert init[j] == lines[j]; }
      }
      PassingLinesCollectText(init, showResource);
      if last.Decoded? {
        assert Responses(lines) == Responses(init) + [last.chunk.response];
        NonEmptyAppend(Responses(init), [last.chunk.response]);
        assert [last.chunk.response][..0] == [];
      }
    }
  }

  /** Reading stops at the first chunk that has `done` set when no error
      chunk and no undecodable line comes before it; the fragments are then
      the non-empty responses up to and including that chunk. */
  lemma ReadingStopsAtDone(lines: seq<Line>, rest: seq<Line>, last: Chunk, showResource: bool)
    requires AllPass(lines) && last.error.None? && last.done
    ensures var p := Consume(lines + [Decoded(last)] + rest, showResource);
            p.stop == Done && p.fragments == NonEmpty(Responses(lines + [Decoded(last)]))
  {
    var upTo := lines + [Decoded(last)];
    PassingLinesCollectText(lines, showResource);
    assert upTo[..|upTo| - 1] == lines;
    assert Consume(upTo, showResource) == Step(Consume(lines, showResource), Decoded(last), |lines|, showResource);
    assert Responses(upTo) == Responses(lines) + [last.response];
    NonEmptyAppend(Responses(lines), [last.response]);
    assert [last.response][..0] == [];
    StoppedStaysStopped(upTo, rest, showResource);
  }

  /** Ending with the first chunk that has `done` set, with no error chunk and
      no undecodable line before it: the reply is the concatenation of every
      fragment up to and including that chunk, stripped, or the no-reply
      marker; later lines and the way the body ends play no part. */
  lemma StreamCompletes(lines: seq<Line>, rest: seq<Line>, last: Chunk, ending: Ending, showResource: bool,
                        model: string, diagPoll: Option<seq<Entry>>)
    requires AllPass(lines) && last.error.None? && last.done
    ensures var all := lines + [Decoded(last)] + rest;
            var text := Finish(NonEmpty(Responses(lines + [Decoded(last)])));
            && LlamaLocalOutcome(Opened(all, ending), showResource) == Reply(text)
            && GreetingOutcome(model, Opened(all, ending), diagPoll) == Reply(text)
  {
    var all := lines + [Decoded(last)] + rest;
    PlainStreamCompletes(all, lines, rest, last, ending, showResource);
    GreetingStreamCompletes(all, lines, rest, last, ending, model, diagPoll);
  }

  lemma PlainStreamCompletes(all: seq<Line>, lines: seq<Line>, rest: seq<Line>, last: Chunk, ending: Ending,
                             showResource: bool)
    requires AllPass(lines) && last.error.None? && last.done && all == lines + [Decoded(last)] + rest
    ensures LlamaLocalOutcome(Opened(all, ending), showResource)
            == Reply(Finish(NonEmpty(Responses(lines + [Decoded(last)]))))
  {
    ReadingStopsAtDone(lines, rest, last, showResource);
    PlainDoneReplies(all, ending, showResource);
  }

  lemma GreetingStreamCompletes(all: seq<Line>, lines: seq<Line>, rest: seq<Line>, last: Chunk, ending: Ending,
                                model: string, diagPoll: Option<seq<Entry>>)
    requires AllPass(lines) && last.error.None? && last.done && all == lines + [Decoded(last)] + rest
    ensures GreetingOutcome(model, Opened(all, ending), diagPoll)
            == Reply(Finish(NonEmpty(Responses(lines + [Decoded(last)]))))
  {
    ReadingStopsAtDone(lines, rest, last, true);
    GreetingDoneReplies(all, ending, model, diagPoll);
  }

  /** A body read up to `done` gives a reply, however it ends. */
  lemma PlainDoneReplies(lines: seq<Line>, ending: Ending, showResource: bool)
    requires Consume(lines, showResource).stop == Done
    ensures LlamaLocalOutcome(Opened(lines, ending), showResource) == Reply(Finish(Consume(lines, showResource).fragments))
  {
    var p := Consume(lines, showResource);
    assert LlamaLocalOutcome(Opened(lines, ending), showResource) == PlainEnd(p, ending);
  }

  lemma GreetingDoneReplies(lines: seq<Line>, ending: Ending, model: string, diagPoll: Option<seq<Entry>>)
    requires Consume(lines, true).stop == Done
    ensures GreetingOutcome(model, Opened(lines, ending), diagPoll) == Reply(Finish(Consume(lines, true).fragments))
  {
    var p := Consume(lines, true);
    assert GreetingOutcome(model, Opened(lines, ending), diagPoll) == GreetingEnd(model, p, ending, diagPoll);
  }

  /** The reply text is the stripped concatenation of all the fragments,
      empty ones included. */
  lemma ReplyIgnoresEmptyFragments(lines: seq<Line>)
    ensures Finish(NonEmpty(Responses(lines))) == Finish(Responses(lines))
  {
    ConcatSkipsEmpty(Responses(lines));
  }

  /** An error chunk before any `done` ends the session with its message,
      whatever text came before it and whatever follows. */
  lemma ErrorChunkAborts(lines: seq<Line>, rest: seq<Line>, bad: Chunk, ending: Ending, showResource: bool,
                         model: string, diagPoll: Option<seq<Entry>>)
    requires AllPass(lines) && bad.error.Some?
    ensures var all := lines + [Decoded(bad)] + rest;
            && LlamaLocalOutcome(Opened(all, ending), showResource) == OllamaError(bad.error.value)
            && GreetingOutcome(model, Opened(all, ending), diagPoll) == OllamaError(bad.error.value)
  {
    var upTo := lines + [Decoded(bad)];
    PassingLinesCollectText(lines, showResource);
    PassingLinesCollectText(lines, true);
    assert upTo[..|upTo| - 1] == lines;
    StoppedStaysStopped(upTo, rest, showResource);
    StoppedStaysStopped(upTo, rest, true);
  }

  /** A read timeout before `done` yields the diagnosis, with the token flag
      set exactly when some non-empty fragment had arrived. */
  lemma TimeoutDiagnosed(lines: seq<Line>, model: string, diagPoll: Option<seq<Entry>>)
    requires AllPass(lines)
    ensures GreetingOutcome(model, Opened(lines, ReadTimeout), diagPoll)
            == TimeoutWithDiagnosis(Diagnose(model, NonEmpty(Responses(lines)) != [], diagPoll))
  {
    PassingLinesCollectText(lines, true);
  }

  /** `llama_local` lets the same timeout escape undiagnosed. */
  lemma PlainTimeoutUndiagnosed(lines: seq<Line>, showResource: bool)
    requires AllPass(lines)
    ensures LlamaLocalOutcome(Opened(lines, ReadTimeout), showResource) == Timeout
  {
    PassingLinesCollectText(lines, showResource);
  }

  /** A transport failure before `done` ends both drivers with a connection
      error, after any resource report already shown. */
  lemma BrokenStreamFails(lines: seq<Line>, reason: string, showResource: bool, model: string,
                          diagPoll: Option<seq<Entry>>)
    requires AllPass(lines)
    ensures LlamaLocalOutcome(Opened(lines, Broken(reason)), showResource) == ConnectionError(reason)
    ensures GreetingOutcome(model, Opened(lines, Broken(reason)), diagPoll) == ConnectionError(reason)
  {
    PassingLinesCollectText(lines, showResource);
    PassingLinesCollectText(lines, true);
  }

  // ---- A read timeout in the middle of the body, as the library reports it ----

  /** The text of the error `requests` raises for a read that times out
      while the body is being iterated. */
  const READ_TIMED_OUT: string := "Read timed out."

  /** What the HTTP library delivers: `iter_lines` turns a read timeout into a
      `ConnectionError`, so only a timeout before the response headers
      arrives as `requests.Timeout`. */
  function AsDelivered(conn: Connection): (c: Connection)
    ensures c.Opened? ==> !c.ending.ReadTimeout?
    ensures !(conn.Opened? && conn.ending.ReadTimeout?) ==> c == conn
  {
    match conn
    case Opened(lines, ReadTimeout) => Opened(lines, Broken(READ_TIMED_OUT))
    case _ => conn
  }

  /** `llama_local_greeting` as written, run over what the library delivers. */
  function GreetingOutcomeAsWritten(model: string, conn: Connection, diagPoll: Option<seq<Entry>>): Outcome {
    GreetingOutcome(model, AsDelivered(conn), diagPoll)
  }

  /** As written, every diagnosis says the model stalled while loading: the
      "slow generation" sentence is never produced. */
  lemma AsWrittenNeverSlow(model: string, conn: Connection, diagPoll: Option<seq<Entry>>)
    ensures var o := GreetingOutcomeAsWritten(model, conn, diagPoll);
            o.TimeoutWithDiagnosis? ==> o.findings[0] == StalledWhileLoading && SlowGeneration !in o.findings
  {
    var o := GreetingOutcomeAsWritten(model, conn, diagPoll);
    if o.TimeoutWithDiagnosis? {
      assert AsDelivered(conn) == TimedOut;
      DiagnoseFindings(model, false, diagPoll);
    }
  }

  /** A token, then a read timeout: as written the request is reported as
      failed, where the diagnosis of a slow generation was intended. */
  lemma SlowGenerationLost(model: string, diagPoll: Option<seq<Entry>>)
    ensures var conn := Opened([Decoded(Chunk(None, "Hi", false))], ReadTimeout);
            && GreetingOutcomeAsWritten(model, conn, diagPoll) == ConnectionError(READ_TIMED_OUT)
            && GreetingForModel(GreetingOutcomeAsWritten(model, conn, diagPoll)) == SkippedRequestFailed
            && GreetingOutcome(model, conn, diagPoll) == TimeoutWithDiagnosis(Diagnose(model, true, diagPoll))
            && GreetingOutcome(model, conn, diagPoll).findings[0] == SlowGeneration
  {
    var lines := [Decoded(Chunk(None, "Hi", false))];
    assert lines[..0] == [];
    assert Consume(lines, true).fragments == ["Hi"];
  }

  /** An HTTP error whose body mentions memory, in any letter case, is reported as out of memory. */
  lemma MemoryBodyIsOom(model: string, body: string, diagPoll: Option<seq<Entry>>)
    requires Contains(Lower(body), "memory")
    ensures GreetingOutcome(model, HttpStatusError(body), diagPoll) == OllamaError(OOM_PREFIX + body)
  {
    assert body != "";
  }

  /** Two fragments "He" and "llo", then `done`: the reply is "Hello". */
  lemma HelloScenario(ending: Ending)
    ensures LlamaLocalOutcome(Opened([Decoded(Chunk(None, "He", false)), Decoded(Chunk(None, "llo", false)),
                                      Decoded(Chunk(None, "", true))], ending), true)
            == Reply("Hello")
  {
    var lines := [Decoded(Chunk(None, "He", false)), Decoded(Chunk(None, "llo", false))];
    var last := Chunk(None, "", true);
    var all := [Decoded(Chunk(None, "He", false)), Decoded(Chunk(None, "llo", false)), Decoded(last)];
    assert lines + [Decoded(last)] + [] == all;
    assert lines + [Decoded(last)] == all;
    StreamCompletes(lines, [], last, ending, true, "", None);
    HelloFragments();
    HelloStrips();
  }

  lemma HelloFragments()
    ensures NonEmpty(Responses([Decoded(Chunk(None, "He", false)), Decoded(Chunk(None, "llo", false)),
                                Decoded(Chunk(None, "", true))])) == ["He", "llo"]
  {
    var all := [Decoded(Chunk(None, "He", false)), Decoded(Chunk(None, "llo", false)), Decoded(Chunk(None, "", true))];
    assert all[..2][..1][..0] == [];
    assert Responses(all[..2][..1]) == ["He"];
    assert Responses(all[..2]) == ["He", "llo"];
    assert Responses(all) == ["He", "llo", ""];
    var fs := ["He", "llo", ""];
    assert fs[..2][..1][..0] == [];
    assert NonEmpty(fs[..2][..1]) == ["He"];
    assert NonEmpty(fs[..2]) == ["He", "llo"];
  }

  lemma HelloStrips()
    ensures Finish(["He", "llo"]) == "Hello"
  {
    var fs := ["He", "llo"];
    assert fs[..1][..0] == [];
    assert Concat(fs[..1]) == "He";
    assert Concat(fs) == "Hello";
    assert TrimStart("Hello") == "Hello";
    assert TrimEnd("Hello") == "Hello";
  }

  // ---- greeting_for_model ----

  /** What `greeting_for_model` does with the outcome: the reply, or `None`
      with the reason it reports. */
  datatype Greeting =
    | Greeted(reply: string)
    | SkippedTimeout(findings: seq<Finding>)
    | SkippedOutOfMemory(message: string)
    | SkippedOllamaError(message: string)
    | SkippedRequestFailed
    | Uncaught               // a `ValueError` from an undecodable line escapes

  function GreetingForModel(outcome: Outcome): (g: Greeting)
    ensures g.Greeted? <==> outcome.Reply?
    ensures g.Greeted? ==> g.reply == outcome.text
    ensures g.SkippedTimeout? <==> outcome.TimeoutWithDiagnosis?
    ensures outcome.OllamaError? <==> g.SkippedOutOfMemory? || g.SkippedOllamaError?
    ensures outcome.OllamaError? ==> (g.SkippedOutOfMemory? <==> IsOomError(outcome.message))
    ensures g.SkippedRequestFailed? <==> outcome.Timeout? || outcome.HttpError? || outcome.ConnectionError?
    ensures g.Uncaught? <==> outcome.DecodeError?
  {
    match outcome
    case Reply(text) => Greeted(text)
    case TimeoutWithDiagnosis(findings) => SkippedTimeout(findings)
    case OllamaError(message) =>
      if IsOomError(message) then SkippedOutOfMemory(message) else SkippedOllamaError(message)
    case Timeout => SkippedRequestFailed
    case HttpError(_) => SkippedRequestFailed
    case ConnectionError(_) => SkippedRequestFailed
    case DecodeError => Uncaught
  }

  /** An HTTP error recognised as out of memory is reported as out of memory
      once more by `greeting_for_model`. */
  lemma OomHttpErrorStaysOom(model: string, body: string, diagPoll: Option<seq<Entry>>)
    requires body != "" && IsOomError(body)
    ensures GreetingForModel(GreetingOutcome(model, HttpStatusError(body), diagPoll))
            == SkippedOutOfMemory(OOM_PREFIX + body)
  {
    var lowered := Lower(OOM_PREFIX + body);
    assert OccursAt(lowered, "oom", 7);
  }
}
