# homework_bot, modelled in Dafny

The bot polls a homework-review API, and when the status of the most recent
homework changes it sends a message to a Telegram chat. This project models the
decisions the bot makes and proves properties about them:

- the credential check (`check_tokens`);
- the validation of the API's answer (`check_response`);
- the rendering of a homework's status through the verdict table
  (`parse_status`, `HOMEWORK_VERDICTS`);
- one iteration of `main`'s loop, as a step function over the loop's two
  variables, the watermark `timestamp` and `last_status`;
- a finite run of iterations, as a fold of that step and as a method with the
  loop.

The HTTP request is an input. A tick receives what `get_api_answer` handed the
loop: a decoded body, `None` (the request library raised), or the exception for
a status other than 200. Sending is appending to the sequence of messages
given to the chat client.

Files:

- `wrappers.dfy`: `Option` and `Result`. `Err` stands for a raised exception.
- `json.dfy`: decoded JSON values. Also Python's `str()` of such a value and
  the decimal text of an integer, with its round trip.
- `exceptions.dfy`: exception classes and instances, and `str()` of an
  exception.
- `homework.py` is modelled in two files:
  - `homework.dfy`: `CheckTokens`, `CheckResponse`, `ParseStatus` and the
    verdict table;
  - `bot.dfy`: `Tick`, `Run`, the loop body `Iterate` and the loop `RunBot`.

Where this model follows the code rather than the program's documentation:

- A token counts as present unless it is `None`; an empty value passes.
- `current_date` is required in every answer.
- The watermark moves to the answer's `current_date` only on a tick that sends
  a new status.
- A status that is a JSON array or object cannot be looked up in the verdict
  table, so it raises TypeError ("unhashable type"), not ValueError.
- The first homework is not checked to be an object. Python's `in` and `[]`
  decide what a list, a string, a number, a boolean or `None` in that place
  raises.
- The failure message for a KeyError shows the message in single quotes,
  because `str` of a KeyError is the repr of its argument.

## Model

| member | source | states |
|---|---|---|
| `Homework.CheckTokens` | homework.py:40-49 | Succeeds exactly when all three tokens are present, and then returns true. Otherwise it raises TokenError with the fixed message. It never returns false. |
| `Homework.CheckResponse` | homework.py:83-96 | The first failing check decides the error: not a dict gives TypeError; no `homeworks` gives EmptyResponseError; no `current_date` gives EmptyResponseError; `homeworks` not a list gives TypeError. It succeeds exactly on a documented response shape, and then returns exactly `response['homeworks']`. |
| `Homework.ParseStatus` | homework.py:99-113 | On an object, a missing `homework_name` gives KeyError before `status` is looked at, and a missing `status` gives KeyError. It succeeds exactly on a record whose status is a key of the verdict table, and returns the fixed sentence with the name and the verdict's text. ValueError, naming the status, is raised exactly when both keys are present and the status is hashable but unknown. An unhashable status gives TypeError. A value that is not an object gives KeyError or TypeError. |
| `Homework.NoticesDifferByVerdict` | homework.py:24-28 | For one homework name, two different verdicts render two different messages. |
| `Homework.NoticeNamesItsVerdict` | homework.py:110-113 | The verdict can be read back off any rendered message, whatever the homework's name. |
| `Json.NatStringRoundTrip` | homework.py:75-76 | Reading back the decimal text of a natural number gives the number. |
| `Json.IntStringSign` | homework.py:75-76 | The text of an integer is non-empty and starts with a minus sign exactly when the integer is negative. |
| `Json.NatStringInjective` | homework.py:75-76 | Different natural numbers have different decimal texts. |
| `Json.IntStringInjective` | homework.py:75-76 | Different integers, such as HTTP status codes, have different texts. |
| `Json.Show` | homework.py:108-112 | `str()` of a scalar as an f-string interpolates it: a string is itself, an integer its decimal text, `None`, `True` and `False` their names. |
| `Exceptions.Text` | homework.py:141 | `str()` of an exception is its message, except that a KeyError shows its message in single quotes, from which the message can be read back. |
| `Homework.Notice` | homework.py:110-113 | The sentence is the fixed prefix, then the homework's name, then a closing quote and full stop, and it ends with the verdict's text. |
| `Bot.InitialState` | homework.py:121-122 | The loop starts with the start time as watermark and an empty last status. |
| `Bot.FirstAcceptedAnswerNotifies` | homework.py:121-122 | From the initial state the first accepted answer is always sent, because no accepted status is empty. It becomes the last status and the watermark moves to its `current_date`. |
| `Bot.GetApiAnswer` | homework.py:61-80 | A request outcome as the loop sees it. It fails exactly for a status other than 200, with a plain Exception naming the code. A failed request yields None. |
| `Bot.Attempt` | homework.py:124-133 | The tick's `try` block succeeds only on a valid answer, and then with a non-empty status. Its full case analysis is `Bot.AttemptCases`. |
| `Bot.AttemptCases` | homework.py:124-133 | A tick's `try` block succeeds exactly on a valid answer whose homework list is empty or starts with a valid record. The status is then the parsed first homework, or "Статус отсутствует" for an empty list. Otherwise the first failing step decides the exception: the request, then `check_response`, then `parse_status`. A None answer fails the dict check. |
| `Bot.FailureMessage` | homework.py:141 | The failure message is "Сбой в работе программы: " followed by exactly `str()` of the exception. |
| `Bot.Tick` | homework.py:124-143 | One iteration sends at most one message. When it sends none, the state is unchanged. The state changes only when the new status is sent. |
| `Bot.TickCases` | homework.py:129-143 | A failure sends exactly one message, "Сбой в работе программы: " followed by the error text, and keeps the state. A success with the last status sent sends nothing and keeps the state. A success with a new status sends exactly that status, remembers it and moves the watermark to `current_date`. |
| `Bot.Run` | homework.py:123-143 | A run of n iterations sends at most n messages. |
| `Bot.RunSplit` | homework.py:123-143 | A run can be split anywhere: running the first part and then, from the state it reached, the rest is the whole run, and its messages are those of the two parts in order. |
| `Bot.Iterate` | homework.py:124-143 | The loop body, written statement by statement, computes exactly `Tick`. |
| `Bot.RunBot` | homework.py:116-145 | A failed credential check ends the program with TokenError before any request. If the credentials pass but the Telegram client's constructor raises (its outcome is an input), the program ends with that exception. Otherwise the loop, starting from the start time and an empty last status, computes exactly `Run`. |
| `Bot.TickIdempotent` | homework.py:134-139 | Seeing the same accepted answer again sends nothing and changes nothing. |
| `Bot.TickReadsOnlyFirstHomework` | homework.py:130-133 | Only `homeworks[0]` and `current_date` of a valid answer matter to a tick. |
| `Bot.RequestFailureReported` | homework.py:85-86 | A request that returned None is reported as "Сбой в работе программы: Ответ сервера приходит не в виде словаря", and the state is kept. |
| `Bot.StatusNotOkReported` | homework.py:74-76 | A status other than 200 is reported with its code, and the state is kept. |
| `Bot.StatusCodesDistinguished` | homework.py:74-76 | Two different status codes are reported by two different messages. |
| `Bot.MissingStatusReported` | homework.py:104-105 | In any valid answer whose first homework is an object with `homework_name` but no `status`, whatever other keys it holds, the tick reports the KeyError's message in quotes, and the state is kept. |
| `Bot.ReviewingThenRejected` | homework.py:130-139 | From any state, two valid answers whose first records share a name and carry `reviewing`, then `rejected` (other keys are free): the second tick sends exactly one message, the one whose verdict reads back as `rejected`. That message becomes the last status, and the watermark moves to the second answer's `current_date`. |
| `Bot.RepeatedAnswerNotifiesOnce` | homework.py:123-139 | Polling the same accepted answer any number of times gives the same result as polling it once, so at most one message is sent. |
| `Bot.FailuresKeepState` | homework.py:140-143 | A run of failing iterations leaves the state unchanged. It sends one failure message per iteration, in order. |
| `Bot.LastStatusWasSent` | homework.py:134-139 | After a run, the remembered status is either the initial one or one of the messages sent. |

## Left out

- The HTTP request (homework.py:61-80): the URL, headers, query and JSON
  decoding are I/O. The tick takes the outcome as an input. A body that is
  not JSON counts as a failed request. This assumes a version of the
  requests library whose decoding error is a `RequestException`.
- The Telegram client and `send_message` (homework.py:52-58): a foreign
  library. A message counts as sent when it is handed to the client.
  `send_message` logs delivery failures and does not re-raise them.
- `Bot.RunBot`: whether `telegram.Bot(token=...)` (homework.py:120) accepts
  a token is decided by the client library, whose validation is not
  modelled. The exception its constructor raises, if any, is an input.
- Logging (homework.py:30-37 and every logger call): side effects only.
- `load_dotenv` and `os.getenv` (homework.py:8-17): environment I/O. The
  tokens are `Option<string>` inputs.
- `time.time`, `time.sleep(RETRY_PERIOD)` and the endless `while True`
  (homework.py:121-123, 144-145): the start time is an input, sleeping is not
  modelled, and a run covers finitely many iterations.
- The `except ResponseToJSONError` branch (homework.py:127-128) can never run.
  The bare `SystemExit` expression (homework.py:119) does nothing.
  Neither is modelled.
- The project's `exceptions` module is not part of this model. Its exception
  classes are constructors of `Exceptions.Kind`, and `str()` of them is
  assumed to be their message.
- `Json.Show`: Python's `str()` of a JSON array or object is its repr, which
  includes the repr of the strings and nested values inside it (and, for an
  object, its key order, which the model's maps do not keep). That repr is
  not modelled: a `homework_name` holding such a value is rendered as the
  fixed text `[...]` or `{...}`.
- JSON numbers with a fraction are not modelled.
- The TypeError messages Python itself produces (for `in`, indexing and
  hashing) follow the wording of Python 3.11 to 3.13.
