/** The bot's main loop: one tick as a step function over the loop's two
    variables (the watermark and the last status sent), a finite run of
    ticks as its fold, and the loop itself as a method. The HTTP request
    is an input: its outcome as the loop sees it. Sending a message is
    appending it to the sequence of messages handed to the chat client. */
module Bot {
  import opened Wrappers
  import opened Json
  import opened Exceptions
  import opened Homework

  /** An HTTP status code other than 200 (OK). */
  type FailingStatus = c: int | c != 200 witness 500

  /** What a call of get_api_answer gives the loop. */
  datatype ApiOutcome =
      /** status 200 and a body that decodes as JSON */
    | Answer(body: Json)
      /** the request library raised (a transport error, or a body that is
          not JSON): the error is logged and the call returns None */
    | RequestFailed
      /** any other status: a plain Exception naming the code propagates */
    | StatusNotOk(code: FailingStatus)

  /** The loop's local variables: the `from_date` of the next request
      (whatever value the last accepted answer had under `current_date`)
      and the last status sent to the chat. */
  datatype PollState = PollState(timestamp: Json, lastStatus: string)

  const NoStatusYet := "Статус отсутствует"
  const FailurePrefix := "Сбой в работе программы: "
  const StatusNotOkPrefix := "Сервер вернул ответ с кодом, отличным от 200: "

  /** The state before the first tick: the watermark is the start time,
      and no status has been sent. */
  function InitialState(startTime: int): (s: PollState)
    ensures s.timestamp == JInt(startTime) && s.lastStatus == ""
  {
    PollState(JInt(startTime), "")
  }

  /** get_api_answer as the loop sees it: the decoded body, None, or the
      exception raised for a status other than 200. */
  function GetApiAnswer(outcome: ApiOutcome): (r: Result<Json, Error>)
    ensures r.Ok? <==> !outcome.StatusNotOk?
    ensures outcome.Answer? ==> r == Ok(outcome.body)
    ensures outcome.RequestFailed? ==> r == Ok(JNull)
    ensures outcome.StatusNotOk? ==>
      r.error.kind == Exception && r.error.message == StatusNotOkPrefix + IntString(outcome.code)
  {
    match outcome
    case Answer(body) => Ok(body)
    case RequestFailed => Ok(JNull)
    case StatusNotOk(code) => Err(Raised(Exception, StatusNotOkPrefix + IntString(code)))
  }

  /** The homeworks list of a valid answer. */
  function Homeworks(response: Json): seq<Json>
    requires IsHomeworkResponse(response)
  {
    response.fields["homeworks"].items
  }

  /** Everything a tick does inside its `try` before comparing statuses:
      fetch, validate, then parse the first homework or fall back to the
      default status. Gives the current status and the answer's
      `current_date`, or the first exception raised. */
  function Attempt(outcome: ApiOutcome): (r: Result<(string, Json), Error>)
    ensures r.Ok? ==> outcome.Answer? && IsHomeworkResponse(outcome.body) && r.value.0 != ""
  {
    match GetApiAnswer(outcome)
    case Err(e) => Err(e)
    case Ok(response) =>
      match CheckResponse(response)
      case Err(e) => Err(e)
      case Ok(homeworks) =>
        if |homeworks| > 0 then
          match ParseStatus(homeworks[0])
          case Err(e) => Err(e)
          case Ok(status) => Ok((status, response.fields["current_date"]))
        else
          Ok((NoStatusYet, response.fields["current_date"]))
  }

  /** What a tick's `try` block yields, by case: it succeeds exactly on
      a valid answer whose homeworks list is empty or starts with a valid
      homework record; otherwise the first failing step decides the
      exception: the request, then the response check, then parsing. */
  lemma AttemptCases(outcome: ApiOutcome)
    ensures Attempt(outcome).Ok? <==>
      outcome.Answer? && IsHomeworkResponse(outcome.body)
      && (Homeworks(outcome.body) == [] || IsHomework(Homeworks(outcome.body)[0]))
    ensures Attempt(outcome).Ok? ==> Attempt(outcome).value.1 == outcome.body.fields["current_date"]
    ensures Attempt(outcome).Ok? && Homeworks(outcome.body) == [] ==> Attempt(outcome).value.0 == NoStatusYet
    ensures Attempt(outcome).Ok? && Homeworks(outcome.body) != [] ==>
      Ok(Attempt(outcome).value.0) == ParseStatus(Homeworks(outcome.body)[0])
    ensures outcome.StatusNotOk? ==> Attempt(outcome) == Err(GetApiAnswer(outcome).error)
    ensures outcome.RequestFailed? ==> Attempt(outcome) == Err(Raised(TypeError, NotADict))
    ensures outcome.Answer? && !IsHomeworkResponse(outcome.body) ==>
      Attempt(outcome) == Err(CheckResponse(outcome.body).error)
    ensures outcome.Answer? && IsHomeworkResponse(outcome.body) && Homeworks(outcome.body) != []
            && !IsHomework(Homeworks(outcome.body)[0]) ==>
      Attempt(outcome) == Err(ParseStatus(Homeworks(outcome.body)[0]).error)
  {
  }

  /** The chat message for an exception caught by the loop. */
  function FailureMessage(e: Error): (m: string)
    ensures |m| == |FailurePrefix| + |Text(e)|
    ensures m[..|FailurePrefix|] == FailurePrefix && m[|FailurePrefix|..] == Text(e)
  {
    FailurePrefix + Text(e)
  }

  /** One iteration of the loop. Returns the new state and the messages
      sent during it.

      A failure sends one message naming the exception and leaves the
      state alone. A success sends the current status only when it differs
      from the last one sent; then the status is remembered and the
      watermark moves to the answer's `current_date`. */
  function Tick(state: PollState, outcome: ApiOutcome): (r: (PollState, seq<string>))
    ensures |r.1| <= 1
    ensures r.1 == [] ==> r.0 == state
    ensures r.0 != state ==> r.1 == [r.0.lastStatus]
  {
    match Attempt(outcome)
    case Err(e) => (state, [FailureMessage(e)])
    case Ok((status, currentDate)) =>
      if status != state.lastStatus then (PollState(currentDate, status), [status])
      else (state, [])
  }

  /** A tick by case: a failure sends one message naming the exception
      and keeps the state; a success sends nothing when the status is the
      one last sent, and otherwise sends the status, remembers it and
      moves the watermark to the answer's `current_date`. */
  lemma TickCases(state: PollState, outcome: ApiOutcome)
    ensures Attempt(outcome).Err? ==>
      Tick(state, outcome) == (state, [FailureMessage(Attempt(outcome).error)])
    ensures Attempt(outcome).Ok? && Attempt(outcome).value.0 == state.lastStatus ==>
      Tick(state, outcome) == (state, [])
    ensures Attempt(outcome).Ok? && Attempt(outcome).value.0 != state.lastStatus ==>
      Tick(state, outcome)
      == (PollState(Attempt(outcome).value.1, Attempt(outcome).value.0), [Attempt(outcome).value.0])
  {
  }

  /** The state after a run of ticks and every message sent during it, in
      order. */
  function Run(state: PollState, outcomes: seq<ApiOutcome>): (r: (PollState, seq<string>))
    ensures |r.1| <= |outcomes|
    decreases |outcomes|
  {
    if outcomes == [] then (state, [])
    else
      var before := Run(state, outcomes[..|outcomes| - 1]);
      var after := Tick(before.0, outcomes[|outcomes| - 1]);
      (after.0, before.1 + after.1)
  }

  /** RunAppend for a run over the first `i + 1` outcomes. */
  lemma RunStep(state: PollState, outcomes: seq<ApiOutcome>, i: nat)
    requires i < |outcomes|
    ensures Run(state, outcomes[..i + 1]) ==
      (Tick(Run(state, outcomes[..i]).0, outcomes[i]).0,
       Run(state, outcomes[..i]).1 + Tick(Run(state, outcomes[..i]).0, outcomes[i]).1)
  {
    assert outcomes[..i + 1] == outcomes[..i] + [outcomes[i]];
    RunAppend(state, outcomes[..i], outcomes[i]);
  }

  /** The body of the loop, statement by statement: inside `try`, fetch,
      validate, parse the first homework or take the default status, and
      on a new status send it and update both variables; in `except`, send
      the failure message. */
  method Iterate(timestamp: Json, lastStatus: string, outcome: ApiOutcome)
    returns (newTimestamp: Json, newLastStatus: string, sent: seq<string>)
    ensures (PollState(newTimestamp, newLastStatus), sent) == Tick(PollState(timestamp, lastStatus), outcome)
  {
    newTimestamp, newLastStatus, sent := timestamp, lastStatus, [];
    var failure: Option<Error> := None;
    var response := GetApiAnswer(outcome);
    if response.Err? {
      failure := Some(response.error);
    } else {
      var homeworks := CheckResponse(response.value);
      if homeworks.Err? {
        failure := Some(homeworks.error);
      } else {
        var currentStatus := NoStatusYet;
        if |homeworks.value| > 0 {
          var parsed := ParseStatus(homeworks.value[0]);
          if parsed.Err? {
            failure := Some(parsed.error);
          } else {
            currentStatus := parsed.value;
          }
        }
        if failure.None? && currentStatus != lastStatus {
          sent := [currentStatus];
          newLastStatus := currentStatus;
          newTimestamp := response.value.fields["current_date"];
        }
      }
    }
    if failure.Some? {
      sent := [FailureMessage(failure.value)];
    }
  }

  /** The bot's main routine over a finite prefix of its endless loop: the
      credential check, the construction of the Telegram client, then one
      iteration per request outcome, each updating the local watermark and
      last status. An exception from the credential check or from the
      client's constructor ends the program before any request. Whether
      the client library accepts the token is an input: `clientError` is
      the exception its constructor raises, if any. */
  method RunBot(practicumToken: Option<string>, telegramToken: Option<string>,
                telegramChatId: Option<string>, clientError: Option<Error>,
                startTime: int, outcomes: seq<ApiOutcome>)
    returns (r: Result<(PollState, seq<string>), Error>)
    ensures CheckTokens(practicumToken, telegramToken, telegramChatId).Err? ==>
      r == Err(Raised(TokenError, MissingTokens))
    ensures CheckTokens(practicumToken, telegramToken, telegramChatId).Ok? && clientError.Some? ==>
      r == Err(clientError.value)
    ensures CheckTokens(practicumToken, telegramToken, telegramChatId).Ok? && clientError.None? ==>
      r == Ok(Run(InitialState(startTime), outcomes))
  {
    var tokens := CheckTokens(practicumToken, telegramToken, telegramChatId);
    if tokens.Err? {
      return Err(tokens.error);
    }
    if clientError.Some? {
      return Err(clientError.value);
    }
    var timestamp := JInt(startTime);
    var lastStatus := "";
    var sent: seq<string> := [];
    var i := 0;
    while i < |outcomes|
      invariant 0 <= i <= |outcomes|
      invariant (PollState(timestamp, lastStatus), sent) == Run(InitialState(startTime), outcomes[..i])
    {
      RunStep(InitialState(startTime), outcomes, i);
      var message;
      timestamp, lastStatus, message := Iterate(timestamp, lastStatus, outcomes[i]);
      sent := sent + message;
      i := i + 1;
    }
    assert outcomes[..|outcomes|] == outcomes;
    return Ok((PollState(timestamp, lastStatus), sent));
  }

  // ---------------------------------------------------------------------
  // Properties of a tick

  /** Seeing the same accepted answer again sends nothing and changes
      nothing. */
  lemma TickIdempotent(state: PollState, outcome: ApiOutcome)
    requires Attempt(outcome).Ok?
    ensures Tick(Tick(state, outcome).0, outcome) == (Tick(state, outcome).0, [])
  {
  }

  /** The empty initial status differs from every status a tick can
      accept, so the first accepted answer of a run is always announced,
      and the watermark moves to its `current_date`. */
  lemma FirstAcceptedAnswerNotifies(startTime: int, outcome: ApiOutcome)
    requires Attempt(outcome).Ok?
    ensures Tick(InitialState(startTime), outcome) ==
      (PollState(Attempt(outcome).value.1, Attempt(outcome).value.0), [Attempt(outcome).value.0])
  {
    TickCases(InitialState(startTime), outcome);
  }

  /** Only the first homework of an answer is looked at: two valid answers
      that agree on it (or both list none) and on `current_date` lead to
      the same tick. */
  lemma TickReadsOnlyFirstHomework(state: PollState, body1: Json, body2: Json)
    requires IsHomeworkResponse(body1) && IsHomeworkResponse(body2)
    requires body1.fields["current_date"] == body2.fields["current_date"]
    requires Homeworks(body1) == [] <==> Homeworks(body2) == []
    requires Homeworks(body1) != [] ==> Homeworks(body1)[0] == Homeworks(body2)[0]
    ensures Tick(state, Answer(body1)) == Tick(state, Answer(body2))
  {
  }

  /** A request that failed inside the request library returns None, which
      the response check rejects as not being a dict. */
  lemma RequestFailureReported(state: PollState)
    ensures Tick(state, RequestFailed) == (state, [FailurePrefix + NotADict])
  {
  }

  /** An answer with a status other than 200 is reported with its code. */
  lemma StatusNotOkReported(state: PollState, code: FailingStatus)
    ensures Tick(state, StatusNotOk(code)) == (state, [FailurePrefix + (StatusNotOkPrefix + IntString(code))])
  {
    assert Attempt(StatusNotOk(code)) == Err(Raised(Exception, StatusNotOkPrefix + IntString(code)));
  }

  /** Two different status codes are reported by two different messages. */
  lemma StatusCodesDistinguished(state: PollState, code1: FailingStatus, code2: FailingStatus)
    requires code1 != code2
    ensures Tick(state, StatusNotOk(code1)).1 != Tick(state, StatusNotOk(code2)).1
  {
    StatusNotOkReported(state, code1);
    StatusNotOkReported(state, code2);
    var m1 := StatusNotOkPrefix + IntString(code1);
    var m2 := StatusNotOkPrefix + IntString(code2);
    assert (FailurePrefix + m1)[|FailurePrefix|..] == m1;
    assert (FailurePrefix + m2)[|FailurePrefix|..] == m2;
    assert m1[|StatusNotOkPrefix|..] == IntString(code1);
    assert m2[|StatusNotOkPrefix|..] == IntString(code2);
    if FailurePrefix + m1 == FailurePrefix + m2 {
      IntStringInjective(code1, code2);
    }
  }

  /** A valid answer whose first homework record names a homework but has
      no status is reported with the KeyError's message in quotes, since
      `str` of a KeyError is the repr of its argument; the state is kept. */
  lemma MissingStatusReported(state: PollState, body: Json)
    requires IsHomeworkResponse(body) && Homeworks(body) != []
    requires Homeworks(body)[0].JMap?
    requires "homework_name" in Homeworks(body)[0].fields && "status" !in Homeworks(body)[0].fields
    ensures Tick(state, Answer(body)) == (state, [FailurePrefix + "'" + NoStatus + "'"])
  {
    assert ParseStatus(Homeworks(body)[0]) == Err(Raised(KeyError, NoStatus));
    assert Attempt(Answer(body)) == Err(Raised(KeyError, NoStatus));
    assert FailureMessage(Raised(KeyError, NoStatus)) == FailurePrefix + "'" + NoStatus + "'";
  }

  /** The first record of a valid answer has the given name and status. */
  predicate FirstRecordIs(body: Json, name: Json, status: string) {
    IsHomeworkResponse(body) && Homeworks(body) != [] && Homeworks(body)[0].JMap?
    && "homework_name" in Homeworks(body)[0].fields && Homeworks(body)[0].fields["homework_name"] == name
    && "status" in Homeworks(body)[0].fields && Homeworks(body)[0].fields["status"] == JStr(status)
  }

  /** From any state, a tick that sees a homework as `reviewing` followed
      by one that sees it as `rejected` ends with exactly one message from
      the second tick: the one naming the `rejected` verdict; the status
      is remembered and the watermark moves to the second answer's
      `current_date`. */
  lemma ReviewingThenRejected(state: PollState, name: Json, answer1: Json, answer2: Json)
    requires FirstRecordIs(answer1, name, "reviewing")
    requires FirstRecordIs(answer2, name, "rejected")
    ensures var r := Tick(Tick(state, Answer(answer1)).0, Answer(answer2));
      r.1 == [Notice(Show(name), "rejected")]
      && VerdictOf(r.1[0]) == Some("rejected")
      && r.0 == PollState(answer2.fields["current_date"], Notice(Show(name), "rejected"))
  {
    var after1 := Tick(state, Answer(answer1)).0;
    assert Attempt(Answer(answer1)) == Ok((Notice(Show(name), "reviewing"), answer1.fields["current_date"]));
    assert after1.lastStatus == Notice(Show(name), "reviewing");
    assert Attempt(Answer(answer2)) == Ok((Notice(Show(name), "rejected"), answer2.fields["current_date"]));
    NoticesDifferByVerdict(Show(name), "reviewing", "rejected");
    NoticeNamesItsVerdict(Show(name), "rejected");
  }

  // ---------------------------------------------------------------------
  // Properties of a run

  /** A run one tick longer is the run followed by that tick. */
  lemma RunAppend(state: PollState, outcomes: seq<ApiOutcome>, outcome: ApiOutcome)
    ensures Run(state, outcomes + [outcome]) ==
      (Tick(Run(state, outcomes).0, outcome).0, Run(state, outcomes).1 + Tick(Run(state, outcomes).0, outcome).1)
  {
    assert (outcomes + [outcome])[..|outcomes|] == outcomes;
  }

  /** A run can be split anywhere: running `first` and then `rest` from the
      state reached is the whole run, and the messages of the two parts,
      in order, are all the messages sent. */
  lemma {:induction false} RunSplit(state: PollState, first: seq<ApiOutcome>, rest: seq<ApiOutcome>)
    ensures var mid := Run(state, first);
      Run(state, first + rest) == (Run(mid.0, rest).0, mid.1 + Run(mid.0, rest).1)
    decreases |rest|
  {
    var mid := Run(state, first);
    if rest == [] {
      assert first + rest == first;
      assert Run(mid.0, rest) == (mid.0, []);
      assert mid.1 + [] == mid.1;
    } else {
      var init, last := rest[..|rest| - 1], rest[|rest| - 1];
      assert rest == init + [last];
      assert first + rest == (first + init) + [last];
      RunSplit(state, first, init);
      var before := Run(mid.0, init);
      assert Run(state, first + init) == (before.0, mid.1 + before.1);
      var step := Tick(before.0, last);
      RunAppend(state, first + init, last);
      assert Run(state, first + rest) == (step.0, (mid.1 + before.1) + step.1);
      RunAppend(mid.0, init, last);
      assert Run(mid.0, rest) == (step.0, before.1 + step.1);
      assert (mid.1 + before.1) + step.1 == mid.1 + (before.1 + step.1);
    }
  }

  /** Polling the same accepted answer over and over notifies at most once:
      the whole run is the first tick. */
  lemma {:induction false} RepeatedAnswerNotifiesOnce(state: PollState, outcome: ApiOutcome, n: nat)
    requires Attempt(outcome).Ok?
    requires n >= 1
    ensures Run(state, seq(n, _ => outcome)) == Tick(state, outcome)
  {
    if n == 1 {
      assert seq(1, _ => outcome) == [] + [outcome];
      RunAppend(state, [], outcome);
      assert [] + Tick(state, outcome).1 == Tick(state, outcome).1;
    } else {
      assert seq(n, _ => outcome) == seq(n - 1, _ => outcome) + [outcome];
      RunAppend(state, seq(n - 1, _ => outcome), outcome);
      RepeatedAnswerNotifiesOnce(state, outcome, n - 1);
      TickIdempotent(state, outcome);
      var first := Tick(state, outcome);
      assert Tick(first.0, outcome) == (first.0, []);
      assert first.1 + [] == first.1;
    }
  }

  /** A run of failing ticks never touches the state and sends one failure
      message per tick. */
  lemma {:induction false} FailuresKeepState(state: PollState, outcomes: seq<ApiOutcome>)
    requires forall o | o in outcomes :: Attempt(o).Err?
    ensures Run(state, outcomes).0 == state
    ensures |Run(state, outcomes).1| == |outcomes|
    ensures forall k :: 0 <= k < |outcomes| ==>
      Run(state, outcomes).1[k] == FailureMessage(Attempt(outcomes[k]).error)
    decreases |outcomes|
  {
    if outcomes != [] {
      var n := |outcomes| - 1;
      var prefix := outcomes[..n];
      var failure := Attempt(outcomes[n]).error;
      assert outcomes == prefix + [outcomes[n]];
      FailuresKeepState(state, prefix);
      RunAppend(state, prefix, outcomes[n]);
      assert Run(state, outcomes).1 == Run(state, prefix).1 + [FailureMessage(failure)];
      forall k | 0 <= k < |outcomes|
        ensures Run(state, outcomes).1[k] == FailureMessage(Attempt(outcomes[k]).error)
      {
        if k < n {
          assert prefix[k] == outcomes[k];
        }
      }
    }
  }

  /** After a run, the remembered status is either the initial one or one
      of the messages sent during the run: it only changes together with a
      notification of the new status. */
  lemma {:induction false} LastStatusWasSent(state: PollState, outcomes: seq<ApiOutcome>)
    ensures var r := Run(state, outcomes);
      r.0.lastStatus == state.lastStatus || r.0.lastStatus in r.1
    decreases |outcomes|
  {
    if outcomes != [] {
      LastStatusWasSent(state, outcomes[..|outcomes| - 1]);
    }
  }
}
