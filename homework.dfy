/** The bot's three checks: the credential check, the validation of the
    API's answer and the rendering of a homework's status as a chat
    message. Each returns a value or raises; a raise is an `Err`. */
module Homework {
  import opened Wrappers
  import opened Json
  import opened Exceptions

  const ApprovedText := "Работа проверена: ревьюеру всё понравилось. Ура!"
  const ReviewingText := "Работа взята на проверку ревьюером."
  const RejectedText := "Работа проверена: у ревьюера есть замечания."

  /** The verdict table: status code to the sentence shown in the chat. */
  const HomeworkVerdicts: map<string, string> :=
    map["approved" := ApprovedText, "reviewing" := ReviewingText, "rejected" := RejectedText]

  const MissingTokens := "Один из токенов или несколько не определены"
  const NotADict := "Ответ сервера приходит не в виде словаря"
  const NoHomeworks := "Ответ сервера не содержит ключ homeworks"
  const NoCurrentDate := "Ответ сервера не содержит ключ current_date"
  const HomeworksNotAList := "Значение с ключом homeworks не является списком"
  const NoHomeworkName := "Ответ сервера не содержит ключ homework_name"
  const NoStatus := "Ответ сервера не содержит ключ status"
  const BadStatus := "Сервер передал некорректный или пустой статус: "
  const ChangedPrefix := "Изменился статус проверки работы \""

  // ---------------------------------------------------------------------
  // Credentials

  /** The three credentials are read from the environment; an absent
      variable is `None`. Only absence is tested: an empty value passes.
      The check either returns true or raises TokenError; it never returns
      false. */
  function CheckTokens(practicumToken: Option<string>, telegramToken: Option<string>,
                       telegramChatId: Option<string>): (r: Result<bool, Error>)
    ensures r.Ok? <==> practicumToken.Some? && telegramToken.Some? && telegramChatId.Some?
    ensures r != Ok(false)
    ensures r.Err? ==> r.error == Raised(TokenError, MissingTokens)
  {
    if practicumToken.None? || telegramToken.None? || telegramChatId.None? then
      Err(Raised(TokenError, MissingTokens))
    else
      Ok(true)
  }

  // ---------------------------------------------------------------------
  // Response validation

  /** The documented shape of an answer: an object holding a list under
      `homeworks` and a `current_date`. */
  predicate IsHomeworkResponse(response: Json) {
    response.JMap? && "homeworks" in response.fields && "current_date" in response.fields
    && response.fields["homeworks"].JList?
  }

  /** Validates an answer and returns its homeworks list. The checks run in
      a fixed order and the first one that fails decides the exception. */
  function CheckResponse(response: Json): (r: Result<seq<Json>, Error>)
    ensures !response.JMap? ==> r == Err(Raised(TypeError, NotADict))
    ensures response.JMap? && "homeworks" !in response.fields ==>
      r == Err(Raised(EmptyResponseError, NoHomeworks))
    ensures response.JMap? && "homeworks" in response.fields && "current_date" !in response.fields ==>
      r == Err(Raised(EmptyResponseError, NoCurrentDate))
    ensures (response.JMap? && "homeworks" in response.fields && "current_date" in response.fields
             && !response.fields["homeworks"].JList?) ==> r == Err(Raised(TypeError, HomeworksNotAList))
    ensures r.Ok? <==> IsHomeworkResponse(response)
    ensures r.Ok? ==> response.fields["homeworks"] == JList(r.value)
  {
    if !response.JMap? then
      Err(Raised(TypeError, NotADict))
    else if "homeworks" !in response.fields then
      Err(Raised(EmptyResponseError, NoHomeworks))
    else if "current_date" !in response.fields then
      Err(Raised(EmptyResponseError, NoCurrentDate))
    else
      var homeworks := response.fields["homeworks"];
      if !homeworks.JList? then Err(Raised(TypeError, HomeworksNotAList))
      else Ok(homeworks.items)
  }

  // ---------------------------------------------------------------------
  // Status rendering

  /** The notification for a homework whose status is a known verdict. */
  function Notice(name: string, status: string): (m: string)
    requires status in HomeworkVerdicts
    ensures |m| == |ChangedPrefix| + |name| + 3 + |HomeworkVerdicts[status]|
    ensures m[..|ChangedPrefix|] == ChangedPrefix
    ensures m[|ChangedPrefix|..|ChangedPrefix| + |name|] == name
    ensures m[|ChangedPrefix| + |name|..|ChangedPrefix| + |name| + 3] == "\". "
    ensures EndsWith(m, HomeworkVerdicts[status])
  {
    ChangedPrefix + name + "\". " + HomeworkVerdicts[status]
  }

  /** A homework record as documented: an object with a `homework_name`
      and a `status` that is one of the known verdict codes. */
  predicate IsHomework(homework: Json) {
    homework.JMap? && "homework_name" in homework.fields && "status" in homework.fields
    && homework.fields["status"].JStr? && homework.fields["status"].text in HomeworkVerdicts
  }

  /** An object that has both keys parse_status looks up. */
  predicate HasBothKeys(homework: Json) {
    homework.JMap? && "homework_name" in homework.fields && "status" in homework.fields
  }

  /** Renders the first homework of an answer as a chat message.

      On an object: `homework_name` is looked up before `status`, a missing
      key raises KeyError, a status the verdict table cannot be searched
      for (a list or an object) raises TypeError, any other status outside
      the table raises ValueError naming it.

      The record is not checked to be an object, so Python's `in` and `[]`
      decide what happens to any other value: on a list, `in` tests
      membership; on a string, it tests for a substring; on a number, a
      boolean or None it raises TypeError. */
  function ParseStatus(homework: Json): (r: Result<string, Error>)
    ensures homework.JMap? && "homework_name" !in homework.fields ==>
      r == Err(Raised(KeyError, NoHomeworkName))
    ensures homework.JMap? && "homework_name" in homework.fields && "status" !in homework.fields ==>
      r == Err(Raised(KeyError, NoStatus))
    ensures r.Ok? <==> IsHomework(homework)
    ensures r.Ok? ==>
      r.value == ChangedPrefix + Show(homework.fields["homework_name"]) + "\". "
                 + HomeworkVerdicts[homework.fields["status"].text]
    ensures (r.Err? && r.error.kind == ValueError) <==>
      HasBothKeys(homework) && IsHashable(homework.fields["status"]) && !IsHomework(homework)
    ensures r.Err? && r.error.kind == ValueError ==>
      r.error.message == BadStatus + Show(homework.fields["status"])
    ensures HasBothKeys(homework) && !IsHashable(homework.fields["status"]) ==>
      r.Err? && r.error.kind == TypeError
    ensures !homework.JMap? ==> r.Err? && r.error.kind in {KeyError, TypeError}
  {
    match homework
    case JMap(fields) =>
      if "homework_name" !in fields then Err(Raised(KeyError, NoHomeworkName))
      else if "status" !in fields then Err(Raised(KeyError, NoStatus))
      else
        var verdict := fields["status"];
        if !IsHashable(verdict) then
          Err(Raised(TypeError, "unhashable type: '" + TypeName(verdict) + "'"))
        else if !(verdict.JStr? && verdict.text in HomeworkVerdicts) then
          Err(Raised(ValueError, BadStatus + Show(verdict)))
        else
          Ok(Notice(Show(fields["homework_name"]), verdict.text))
    case JList(items) =>
      if JStr("homework_name") in items then
        Err(Raised(TypeError, "list indices must be integers or slices, not str"))
      else
        Err(Raised(KeyError, NoHomeworkName))
    case JStr(text) =>
      if Contains(text, "homework_name") then
        Err(Raised(TypeError, "string indices must be integers, not 'str'"))
      else
        Err(Raised(KeyError, NoHomeworkName))
    case _ =>
      Err(Raised(TypeError, "argument of type '" + TypeName(homework) + "' is not iterable"))
  }

  /** For one homework name, the three verdicts give three different
      messages. */
  lemma NoticesDifferByVerdict(name: string, status1: string, status2: string)
    requires status1 in HomeworkVerdicts && status2 in HomeworkVerdicts
    requires status1 != status2
    ensures Notice(name, status1) != Notice(name, status2)
  {
    var prefix := ChangedPrefix + name + "\". ";
    assert Notice(name, status1)[|prefix|..] == HomeworkVerdicts[status1];
    assert Notice(name, status2)[|prefix|..] == HomeworkVerdicts[status2];
    assert |ApprovedText| != |ReviewingText| && |ApprovedText| != |RejectedText|
      && |ReviewingText| != |RejectedText|;
  }

  predicate EndsWith(s: string, suffix: string) {
    |suffix| <= |s| && s[|s| - |suffix|..] == suffix
  }

  /** Reads the verdict code back off a message: the one whose sentence
      ends it. */
  function VerdictOf(message: string): Option<string> {
    if EndsWith(message, ApprovedText) then Some("approved")
    else if EndsWith(message, ReviewingText) then Some("reviewing")
    else if EndsWith(message, RejectedText) then Some("rejected")
    else None
  }

  /** A rendered notification always identifies its verdict, whatever the
      homework's name. */
  lemma NoticeNamesItsVerdict(name: string, status: string)
    requires status in HomeworkVerdicts
    ensures VerdictOf(Notice(name, status)) == Some(status)
  {
    var m := Notice(name, status);
    var text := HomeworkVerdicts[status];
    assert m == (ChangedPrefix + name + "\". ") + text;
    assert EndsWith(m, text);
    assert m[|m| - 1] == text[|text| - 1];
    assert m[|m| - 2] == text[|text| - 2];
    if status != "approved" {
      assert ApprovedText[|ApprovedText| - 1] == '!';
      assert text[|text| - 1] == '.';
    }
    if status == "rejected" {
      assert ReviewingText[|ReviewingText| - 2] == 'м';
      assert text[|text| - 2] == 'я';
    }
  }
}
