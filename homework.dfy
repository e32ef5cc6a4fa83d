/**
 * The deterministic core of the homework-status bot: classifying a fetched
 * reply, validating the answer's shape, translating a homework's review
 * status into a message, and checking that the credentials are set.
 * Each Python exception becomes a `Failure` value carried by `Err`.
 */
module Homework {
  import opened Wrappers
  import opened Json

  const HTTP_OK: int := 200
  const ENDPOINT: string := "https://practicum.yandex.ru/api/user_api/homework_statuses/"

  const APPROVED: string := "Работа проверена: ревьюеру всё понравилось. Ура!"
  const REVIEWING: string := "Работа взята на проверку ревьюером."
  const REJECTED: string := "Работа проверена: у ревьюера есть замечания."

  /** Review status code to the fixed verdict text. */
  const VERDICTS: map<string, string> :=
    map["approved" := APPROVED, "reviewing" := REVIEWING, "rejected" := REJECTED]

  /** Opening words of every status message. */
  const STATUS_HEAD: string := "Изменился статус проверки работы \""

  /** Prefix of the message the loop builds from any caught exception. */
  const FAILURE_HEAD: string := "Сбой в работе программы: "

  /** What a request carries into error texts: the API token and `from_date`. */
  datatype Request = Request(token: string, fromDate: Json)

  /** The exception classes the core raises, coarsely. */
  datatype Kind =
    | RequestErrorKind     // RequestException
    | ServerErrorKind      // ServerError
    | DecodeErrorKind      // the JSONDecodeError of `response.json()`, a subclass of ValueError
    | WrongApiAnswerKind   // WrongAPIAnswerError
    | TypeErrorKind        // TypeError
    | KeyErrorKind         // KeyError
    | ValueErrorKind       // ValueError raised directly, by `parse_status`

  /** Every exception the fetch-validate-translate pipeline can raise, with what its text names. */
  datatype Failure =
    | ConnectionFailure(cause: string, req: Request)
    | ServerError(code: int, req: Request)
    | UndecodableBody(cause: string)
    | ApiError(value: Json, req: Request)
    | ApiCode(value: Json, req: Request)
    | EmptyAnswer
    | MissingHomeworks
    | NotIterable(typeName: string)
    | IndexedByStr(typeName: string)
    | NoLen(typeName: string)
    | AnswerNotDict(typeName: string)
    | HomeworksNotList
    | MissingKey(key: string)
    | Unhashable(typeName: string)
    | UnknownStatus(status: Json)
  {
    function KindOf(): Kind {
      match this
      case ConnectionFailure(_, _) => RequestErrorKind
      case ServerError(_, _) => ServerErrorKind
      case UndecodableBody(_) => DecodeErrorKind
      case ApiError(_, _) => WrongApiAnswerKind
      case ApiCode(_, _) => WrongApiAnswerKind
      case EmptyAnswer => WrongApiAnswerKind
      case MissingHomeworks => WrongApiAnswerKind
      case NotIterable(_) => TypeErrorKind
      case IndexedByStr(_) => TypeErrorKind
      case NoLen(_) => TypeErrorKind
      case AnswerNotDict(_) => TypeErrorKind
      case HomeworksNotList => TypeErrorKind
      case MissingKey(_) => KeyErrorKind
      case Unhashable(_) => TypeErrorKind
      case UnknownStatus(_) => ValueErrorKind
    }
  }

  /** `ENDPOINT, HEADERS, params` as the error texts of the fetch render them. */
  function RequestText(req: Request): string {
    ENDPOINT + ", {'Authorization': 'OAuth " + req.token + "'}, {'from_date': " + Repr(req.fromDate) + "}"
  }

  /** A fetch failure's text: `head`, then the request parameters and a full stop. */
  function WithRequest(head: string, req: Request): (r: string)
    requires |head| > 0
    ensures |r| > |RequestText(req)| && r[|r| - |RequestText(req)| - 1..] == RequestText(req) + "."
  {
    var tail := RequestText(req) + ".";
    assert (head + tail)[|head|..] == tail;
    head + tail
  }

  /** `str(error)` for each failure. */
  function Describe(f: Failure): string
  {
    match f
    case ConnectionFailure(cause, req) =>
      WithRequest("Ошибка соединения - " + cause + ". Параметры запроса ", req)
    case ServerError(code, req) =>
      WithRequest("Ошибка доступа к серверу. Код ошибки - " + IntToDecimal(code) + ". Параметры запроса ", req)
    case UndecodableBody(cause) => cause
    case ApiError(value, req) =>
      WithRequest("Отказ API - \"error\": " + Str(value) + ". Параметры запроса: ", req)
    case ApiCode(value, req) =>
      WithRequest("Отказ API - \"code\": " + Str(value) + ". Параметры запроса: ", req)
    case EmptyAnswer => "Пустой ответ API."
    case MissingHomeworks => "В ответе API отсутствует ключ \"homeworks\"."
    case NotIterable(t) => "argument of type '" + t + "' is not iterable"
    case IndexedByStr(t) =>
      if t == "list" then "list indices must be integers or slices, not str"
      else if t == "str" then "string indices must be integers"
      else "'" + t + "' object is not subscriptable"
    case NoLen(t) => "object of type '" + t + "' has no len()"
    case AnswerNotDict(t) => "Некорректный тип ответа API: \"<class '" + t + "'>\"."
    case HomeworksNotList => "Объект \"homeworks\" не является списком"
    case MissingKey(k) => "'" + k + "'"
    case Unhashable(t) => "unhashable type: '" + t + "'"
    case UnknownStatus(status) => "Неожиданный статус \"" + Str(status) + "\" домашней работы!"
  }

  /** The text of a failure of the request itself ends with the parameters of the request. */
  lemma DescribeEndsWithRequest(f: Failure)
    requires f.ConnectionFailure? || f.ServerError? || f.ApiError? || f.ApiCode?
    ensures var r := Describe(f);
      |r| > |RequestText(f.req)| && r[|r| - |RequestText(f.req)| - 1..] == RequestText(f.req) + "."
  {
  }

  /** The message the poll loop sends for a caught exception. */
  function FailureMessage(f: Failure): (m: string)
    ensures FAILURE_HEAD <= m && m[|FAILURE_HEAD|..] == Describe(f)
  {
    FAILURE_HEAD + Describe(f)
  }

  /** `j[key]` for a string key: KeyError on a dict without it, TypeError on anything else. */
  function Subscript(j: Json, key: string): (r: Result<Json, Failure>)
    ensures r.Ok? <==> j.JObj? && key in j.fields
    ensures r.Ok? ==> r.value == j.fields[key]
    ensures r.Err? && j.JObj? ==> r.error == MissingKey(key)
    ensures r.Err? && !j.JObj? ==> r.error == IndexedByStr(TypeName(j))
  {
    if j.JObj? then
      if key in j.fields then Ok(j.fields[key]) else Err(MissingKey(key))
    else Err(IndexedByStr(TypeName(j)))
  }

  // ---------------------------------------------------------------------
  // get_api_answer: classifying the reply
  // ---------------------------------------------------------------------

  /** The body of an HTTP reply: decoded JSON, or text `response.json()` cannot decode. */
  datatype Body = Parsed(json: Json) | Unparseable(cause: string)

  /** What `requests.get` produced: a network failure, or a status code and a body. */
  datatype Reply = NetworkError(cause: string) | Answered(status: int, body: Body)

  /** `'key' in answer` followed by `answer[key]` for the refusal that names `key`. */
  function Refusal(answer: Json, key: string, req: Request): Option<Failure>
    requires Sized(answer)
  {
    if Contains(answer, key) == Some(true) then
      match Subscript(answer, key)
      case Ok(v) => Some(if key == "error" then ApiError(v, req) else ApiCode(v, req))
      case Err(e) => Some(e)
    else None
  }

  /**
   * A refusal exactly when `key in answer` holds, whatever the type of the
   * answer; on a dict it carries the refused value and the request, on a
   * list or a string `answer[key]` raises TypeError.
   */
  lemma RefusalCases(answer: Json, key: string, req: Request)
    requires Sized(answer)
    ensures var r := Refusal(answer, key, req);
      (r.Some? <==> Contains(answer, key) == Some(true))
      && (r.Some? && answer.JObj? ==>
            r.value == (if key == "error" then ApiError(answer.fields[key], req) else ApiCode(answer.fields[key], req)))
      && (r.Some? && !answer.JObj? ==> r.value == IndexedByStr(TypeName(answer)))
  {
  }

  /**
   * What `get_api_answer` does once the request has returned: a non-200
   * status is a ServerError whatever the body; otherwise an `error` key,
   * then a `code` key, is a refusal; otherwise the decoded body is the answer.
   */
  function GetApiAnswer(reply: Reply, req: Request): (r: Result<Json, Failure>)
    // the answer is the body of a 200 reply, unchanged
    ensures r.Ok? ==> reply == Answered(HTTP_OK, Parsed(r.value))
  {
    match reply
    case NetworkError(cause) => Err(ConnectionFailure(cause, req))
    case Answered(status, body) =>
      if status != HTTP_OK then Err(ServerError(status, req))
      else
        match body
        case Unparseable(cause) => Err(UndecodableBody(cause))
        case Parsed(answer) =>
          if !Sized(answer) then Err(NotIterable(TypeName(answer)))
          else
            match Refusal(answer, "error", req)
            case Some(f) => Err(f)
            case None =>
              match Refusal(answer, "code", req)
              case Some(f) => Err(f)
              case None => Ok(answer)
  }

  /**
   * The classification order of `get_api_answer`: any status but 200 is a
   * ServerError naming it, whatever the body; for a 200 dict, an `error`
   * key refuses the answer even when `code` is present, then a `code` key
   * refuses it, otherwise the dict is the answer.
   */
  lemma ClassifyReply(reply: Reply, req: Request)
    ensures reply.NetworkError? ==> GetApiAnswer(reply, req) == Err(ConnectionFailure(reply.cause, req))
    ensures reply.Answered? && reply.status != HTTP_OK ==>
      GetApiAnswer(reply, req) == Err(ServerError(reply.status, req))
    ensures reply.Answered? && reply.status == HTTP_OK && reply.body.Unparseable? ==>
      GetApiAnswer(reply, req) == Err(UndecodableBody(reply.body.cause))
    ensures reply.Answered? && reply.status == HTTP_OK && reply.body.Parsed? && reply.body.json.JObj? ==>
      var fields := reply.body.json.fields;
      GetApiAnswer(reply, req)
        == if "error" in fields then Err(ApiError(fields["error"], req))
           else if "code" in fields then Err(ApiCode(fields["code"], req))
           else Ok(reply.body.json)
    // None, bool and int bodies fail the membership test itself
    ensures reply.Answered? && reply.status == HTTP_OK && reply.body.Parsed? && !Sized(reply.body.json) ==>
      GetApiAnswer(reply, req) == Err(NotIterable(TypeName(reply.body.json)))
  {
  }

  // ---------------------------------------------------------------------
  // check_response: validating the answer's shape
  // ---------------------------------------------------------------------

  /** The shape the bot expects of an answer: a dict whose `homeworks` is a list. */
  predicate WellFormedAnswer(answer: Json) {
    answer.JObj? && "homeworks" in answer.fields && answer.fields["homeworks"].JArr?
  }

  /**
   * `check_response`: an empty value (of any sized type) is a WrongAPIAnswer
   * before any type test; a non-dict is a TypeError; a dict without
   * `homeworks` is a WrongAPIAnswer; a `homeworks` that is not a list is a
   * TypeError; otherwise the list itself is returned.
   */
  function CheckResponse(response: Json): (r: Result<seq<Json>, Failure>)
    ensures r.Ok? <==> WellFormedAnswer(response)
    ensures r.Ok? ==> response.fields["homeworks"] == JArr(r.value)
    ensures r.Err? ==> r.error.KindOf() in {WrongApiAnswerKind, TypeErrorKind}
  {
    match Len(response)
    case None => Err(NoLen(TypeName(response)))
    case Some(n) =>
      if n == 0 then Err(EmptyAnswer)
      else if !response.JObj? then Err(AnswerNotDict(TypeName(response)))
      else if "homeworks" !in response.fields then Err(MissingHomeworks)
      else
        match response.fields["homeworks"]
        case JArr(homeworks) => Ok(homeworks)
        case _ => Err(HomeworksNotList)
  }

  /**
   * The order of the checks in `check_response`: emptiness is tested before
   * the type, so an empty list or string is a WrongAPIAnswer and not a
   * TypeError; then the type, then the presence of `homeworks`, then its type.
   */
  lemma CheckResponseOrder(response: Json)
    ensures Len(response) == Some(0) ==> CheckResponse(response) == Err(EmptyAnswer)
    ensures !Sized(response) ==> CheckResponse(response) == Err(NoLen(TypeName(response)))
    ensures Sized(response) && Len(response) != Some(0) && !response.JObj? ==>
      CheckResponse(response) == Err(AnswerNotDict(TypeName(response)))
    ensures response.JObj? && |response.fields| > 0 && "homeworks" !in response.fields ==>
      CheckResponse(response) == Err(MissingHomeworks)
    ensures response.JObj? && "homeworks" in response.fields && !response.fields["homeworks"].JArr? ==>
      CheckResponse(response) == Err(HomeworksNotList)
  {
  }

  // ---------------------------------------------------------------------
  // parse_status: translating a homework into a message
  // ---------------------------------------------------------------------

  /** The one-line message for a homework `name` whose status has `verdict`. */
  function StatusMessage(name: string, verdict: string): string {
    STATUS_HEAD + name + "\". " + verdict
  }

  /** A status `VERDICTS.get` can hash: anything but a list or a dict. */
  predicate Hashable(j: Json) {
    !j.JArr? && !j.JObj?
  }

  /** True when `status` is one of the keys of VERDICTS. */
  predicate KnownStatus(status: Json) {
    status.JStr? && status.s in VERDICTS
  }

  /**
   * `parse_status`: `homework_name` then `status` are read (KeyError when
   * absent, TypeError when the homework is not a dict), the status is looked
   * up in VERDICTS (TypeError when it cannot be hashed, ValueError naming it
   * when it is not a key), and the message is formatted.
   */
  function ParseStatus(homework: Json): (r: Result<string, Failure>)
    ensures r.Ok? <==>
      homework.JObj? && "homework_name" in homework.fields && "status" in homework.fields
      && KnownStatus(homework.fields["status"])
    // a known status gives exactly the formatted verdict
    ensures r.Ok? ==>
      r.value == STATUS_HEAD + Str(homework.fields["homework_name"]) + "\". "
                 + VERDICTS[homework.fields["status"].s]
  {
    match Subscript(homework, "homework_name")
    case Err(e) => Err(e)
    case Ok(name) =>
      match Subscript(homework, "status")
      case Err(e) => Err(e)
      case Ok(status) =>
        if !Hashable(status) then Err(Unhashable(TypeName(status)))
        else if !KnownStatus(status) then Err(UnknownStatus(status))
        else Ok(StatusMessage(Str(name), VERDICTS[status.s]))
  }

  /**
   * The failures of `parse_status`: the keys are read before the status is
   * judged, `homework_name` first; a ValueError naming the status is raised
   * exactly when a readable, hashable status is not a key of VERDICTS.
   */
  lemma ParseStatusErrors(homework: Json)
    ensures !homework.JObj? ==> ParseStatus(homework) == Err(IndexedByStr(TypeName(homework)))
    ensures homework.JObj? && "homework_name" !in homework.fields ==>
      ParseStatus(homework) == Err(MissingKey("homework_name"))
    ensures homework.JObj? && "homework_name" in homework.fields && "status" !in homework.fields ==>
      ParseStatus(homework) == Err(MissingKey("status"))
    ensures (ParseStatus(homework).Err? && ParseStatus(homework).error.KindOf() == ValueErrorKind) <==>
      homework.JObj? && "homework_name" in homework.fields && "status" in homework.fields
      && Hashable(homework.fields["status"]) && !KnownStatus(homework.fields["status"])
    ensures ParseStatus(homework).Err? && ParseStatus(homework).error.KindOf() == ValueErrorKind ==>
      ParseStatus(homework).error == UnknownStatus(homework.fields["status"])
  {
  }

  /**
   * Reads a status message back: the homework name and the status code it
   * reports, or `None` for text that no known status produces.
   */
  function ReadStatusMessage(m: string): (r: Option<(string, string)>)
    ensures r.Some? ==> r.value.1 in VERDICTS
  {
    if |m| < |STATUS_HEAD| || m[..|STATUS_HEAD|] != STATUS_HEAD then None
    else ReadVerdict(m, STATUS_CODES)
  }

  const STATUS_CODES: seq<string> := ["approved", "reviewing", "rejected"]

  /** What follows the name in the message for `code`. */
  function VerdictTail(code: string): string
    requires code in VERDICTS
  {
    "\". " + VERDICTS[code]
  }

  /** `m` is long enough to hold the head and ends with the verdict tail of `code`. */
  predicate EndsWithVerdict(m: string, code: string)
    requires code in VERDICTS
  {
    |STATUS_HEAD| + |VerdictTail(code)| <= |m| && m[|m| - |VerdictTail(code)|..] == VerdictTail(code)
  }

  function ReadVerdict(m: string, codes: seq<string>): (r: Option<(string, string)>)
    requires forall c :: c in codes ==> c in VERDICTS
    requires |STATUS_HEAD| <= |m|
    ensures r.Some? ==> r.value.1 in codes
  {
    if codes == [] then None
    else if EndsWithVerdict(m, codes[0]) then
      Some((m[|STATUS_HEAD|..|m| - |VerdictTail(codes[0])|], codes[0]))
    else ReadVerdict(m, codes[1..])
  }

  /** The last two characters of a verdict text tell the three verdicts apart. */
  lemma VerdictEndings()
    ensures APPROVED[|APPROVED| - 1] == '!'
    ensures REVIEWING[|REVIEWING| - 2] == 'м' && REVIEWING[|REVIEWING| - 1] == '.'
    ensures REJECTED[|REJECTED| - 2] == 'я' && REJECTED[|REJECTED| - 1] == '.'
  {
  }

  /** No message ends with the verdict tails of two different statuses. */
  lemma TailsDiffer(m: string, a: string, b: string)
    requires a in VERDICTS && b in VERDICTS && a != b
    requires EndsWithVerdict(m, a)
    ensures !EndsWithVerdict(m, b)
  {
    var ta, tb := VerdictTail(a), VerdictTail(b);
    var k := if a == "approved" || b == "approved" then 1 else 2;
    VerdictEndings();
    assert ta[|ta| - k] == VERDICTS[a][|VERDICTS[a]| - k];
    assert tb[|tb| - k] == VERDICTS[b][|VERDICTS[b]| - k];
    assert m[|m| - k] == m[|m| - |ta|..][|ta| - k] == ta[|ta| - k] != tb[|tb| - k];
    if |tb| <= |m| {
      assert m[|m| - |tb|..][|tb| - k] != tb[|tb| - k];
    }
  }

  /** Reading skips every code whose tail does not end `m` and stops at the first that does. */
  lemma {:induction false} ReadVerdictSkips(m: string, codes: seq<string>, k: nat)
    requires forall c :: c in codes ==> c in VERDICTS
    requires |STATUS_HEAD| <= |m|
    requires k < |codes| && EndsWithVerdict(m, codes[k])
    requires forall j :: 0 <= j < k ==> !EndsWithVerdict(m, codes[j])
    ensures ReadVerdict(m, codes) == Some((m[|STATUS_HEAD|..|m| - |VerdictTail(codes[k])|], codes[k]))
  {
    if k > 0 {
      assert !EndsWithVerdict(m, codes[0]);
      ReadVerdictSkips(m, codes[1..], k - 1);
    }
  }

  /** The head, the name and the tail can be cut back out of a concatenation. */
  lemma MessageParts(head: string, name: string, tail: string)
    ensures var m := head + name + tail;
      m[..|head|] == head && m[|m| - |tail|..] == tail && m[|head|..|m| - |tail|] == name
  {
  }

  /** Reading back the message built for `name` and a known `status`. */
  lemma ReadStatusMessageOf(name: string, status: string)
    requires status in VERDICTS
    ensures ReadStatusMessage(StatusMessage(name, VERDICTS[status])) == Some((name, status))
  {
    var tail := VerdictTail(status);
    var m := STATUS_HEAD + name + tail;
    assert StatusMessage(name, VERDICTS[status]) == m;
    MessageParts(STATUS_HEAD, name, tail);
    assert EndsWithVerdict(m, status);
    var k := if status == "approved" then 0 else if status == "reviewing" then 1 else 2;
    assert STATUS_CODES[k] == status;
    forall j | 0 <= j < k
      ensures !EndsWithVerdict(m, STATUS_CODES[j])
    {
      TailsDiffer(m, status, STATUS_CODES[j]);
    }
    ReadVerdictSkips(m, STATUS_CODES, k);
  }

  /**
   * A status message determines the homework's name and status: reading
   * back what `ParseStatus` produced gives `str()` of the name and the
   * status, so no two verdicts can be mistaken for one another.
   */
  lemma ReadParseStatus(homework: Json)
    requires ParseStatus(homework).Ok?
    ensures ReadStatusMessage(ParseStatus(homework).value)
         == Some((Str(homework.fields["homework_name"]), homework.fields["status"].s))
  {
    var name, status := Str(homework.fields["homework_name"]), homework.fields["status"].s;
    assert ParseStatus(homework).value == StatusMessage(name, VERDICTS[status]);
    ReadStatusMessageOf(name, status);
  }

  // ---------------------------------------------------------------------
  // check_tokens
  // ---------------------------------------------------------------------

  const TOKENS_NAME: seq<string> := ["PRACTICUM_TOKEN", "TELEGRAM_TOKEN", "TELEGRAM_CHAT_ID"]

  /** The three credentials as `os.getenv` returned them: `None` when unset. */
  datatype Tokens = Tokens(practicum: Option<string>, telegram: Option<string>, chatId: Option<string>)

  /** `globals()[name]` for one of the token names. */
  function TokenValue(t: Tokens, name: string): Option<string>
    requires name in TOKENS_NAME
  {
    if name == "PRACTICUM_TOKEN" then t.practicum
    else if name == "TELEGRAM_TOKEN" then t.telegram
    else t.chatId
  }

  /** The comprehension `[name for name in names if globals()[name] is None]`. */
  function MissingTokens(t: Tokens, names: seq<string>): (r: seq<string>)
    requires forall n :: n in names ==> n in TOKENS_NAME
    ensures forall n :: n in r <==> n in names && TokenValue(t, n).None?
    ensures |r| <= |names|
  {
    if names == [] then []
    else
      var rest := MissingTokens(t, names[1..]);
      if TokenValue(t, names[0]).None? then [names[0]] + rest else rest
  }

  /** `check_tokens`: true when no credential is missing. Only `None` counts as missing. */
  function CheckTokens(t: Tokens): (ok: bool)
    ensures ok <==> t.practicum.Some? && t.telegram.Some? && t.chatId.Some?
  {
    MissingTokensInOrder(t);
    |MissingTokens(t, TOKENS_NAME)| == 0
  }

  /** The reported list keeps the order of TOKENS_NAME. */
  lemma MissingTokensInOrder(t: Tokens)
    ensures MissingTokens(t, TOKENS_NAME) ==
      (if t.practicum.None? then ["PRACTICUM_TOKEN"] else [])
      + (if t.telegram.None? then ["TELEGRAM_TOKEN"] else [])
      + (if t.chatId.None? then ["TELEGRAM_CHAT_ID"] else [])
  {
    assert TOKENS_NAME[1..][1..][1..] == [];
    assert MissingTokens(t, TOKENS_NAME[1..][1..]) == if t.chatId.None? then ["TELEGRAM_CHAT_ID"] else [];
    assert MissingTokens(t, TOKENS_NAME[1..])
        == (if t.telegram.None? then ["TELEGRAM_TOKEN"] else []) + MissingTokens(t, TOKENS_NAME[1..][1..]);
  }
}
