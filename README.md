# homework_bot: the polling core in Dafny

The bot polls the Yandex Practicum homework-status API every ten minutes.
It checks the shape of the answer and turns the review status of the first
listed homework into a one-line message. It then sends that message to a
Telegram chat. A fetch or check failure identical to the remembered
`previous_message` is skipped. Status messages and `parse_status` failures
are sent again in every cycle that produces them, because every successful
check clears `previous_message`.
This project models the deterministic core of `homework.py`:

- `json.dfy` (module `Json`): the decoded JSON values the bot handles, and
  the Python operations it applies to them (`in`, `len`, `str`, `repr`, type names).
- `homework.dfy` (module `Homework`): the `VERDICTS` table, the reply
  classification of `get_api_answer`, `check_response`, `parse_status` and
  `check_tokens`. Every Python exception is a `Failure` value inside `Err`,
  and `Failure.KindOf` gives its exception class.
- `poller.dfy` (module `Poller`): one iteration of the `main` loop as the
  pure transition `Cycle`, and the class `PollLoop`. `PollLoop` holds the
  loop's variables `current_timestamp`, `previous_message` and `message`;
  its `Step` method performs one cycle in place. `Run` drives `PollLoop` over a
  finite sequence of cycle inputs. It stops at startup when a credential
  is missing, and stops after a cycle that crashes.
- `wrappers.dfy` (module `Wrappers`): `Option` and `Result`.

A cycle takes three inputs: what the HTTP request produced, the clock
reading, and the boolean that `send_message` returns. `message` is an
`Option<string>`. While it is `None` the variable has never been assigned,
and reading it in the `finally` block is the crash (`UnboundLocalError`).

Behaviours of the code that are easy to miss:
- A status message is not suppressed when it repeats. Every successful
  check clears `previous_message` before the first homework is translated,
  so only identical consecutive fetch or check failures are skipped
  (`Poller.RepeatedStatusResent`, `Poller.RepeatedFetchFailureSuppressed`).
- A `parse_status` failure is not suppressed when it repeats. The failure
  happens after `previous_message` has been cleared
  (`Poller.RepeatedUnknownStatusResent`).
- A `parse_status` failure still advances the timestamp, because the
  timestamp is updated before the first homework is translated. Only fetch
  and check failures keep it (`Poller.SuccessAdvancesTimestamp`,
  `Poller.FetchFailureKeepsTimestamp`).
- Without `current_date` in the answer, the timestamp becomes the clock
  reading. It is not left unchanged.
- Credentials are missing only when they are `None`. An empty string passes.
- Only top-level `error` and `code` keys refuse an answer.

`homework.py:13` imports `WrongAPIAnswerError`, but `exceptions.py` defines
only `WrongAPIAnswer`. As written, the module would fail to import. The model
assumes the intended exception class exists (`WrongApiAnswerKind`).

## Model

| member | source | states |
|---|---|---|
| `Json.Len` | homework.py:88 | `len()` succeeds exactly on str, list and dict values, and raises TypeError on None, bool and int |
| `Json.Contains` | homework.py:73 | `'key' in answer` is defined exactly on str, list and dict values; on a dict it is key membership |
| `Homework.Subscript` | homework.py:102-103 | `homework[key]` succeeds exactly on a dict holding the key and yields its value; a dict without the key raises KeyError naming it, any other value raises TypeError |
| `Homework.DescribeEndsWithRequest` | homework.py:62-81 | the text of a connection failure, a server error or a refusal ends with the request parameters `ENDPOINT, HEADERS, params` |
| `Homework.FailureMessage` | homework.py:144 | the message for a caught exception is `Сбой в работе программы: ` followed by the exception's text |
| `Homework.GetApiAnswer` | homework.py:67-83 | an answer is always the body of a 200 reply, returned unchanged |
| `Homework.RefusalCases` | homework.py:72-81 | a refusal exactly when `key in answer` holds; on a dict it carries the refused value and the request, on a list or a string `answer[key]` raises TypeError |
| `Homework.ClassifyReply` | homework.py:67-83 | a non-200 status is a ServerError naming the status, whatever the body; on a 200 dict, an `error` key refuses the answer and takes precedence over `code`, then a `code` key refuses it, otherwise the dict is returned unchanged; scalar bodies fail the `in` test with TypeError; a network failure is a RequestException and an undecodable body a JSONDecodeError, which Python derives from ValueError |
| `Homework.CheckResponse` | homework.py:86-97 | success exactly for a dict whose `homeworks` is a list, returning that list unchanged; every failure is a WrongAPIAnswer or a TypeError |
| `Homework.CheckResponseOrder` | homework.py:88-96 | an empty value of any sized type is WrongAPIAnswer before any type test; a non-empty non-dict is TypeError; a non-empty dict without `homeworks` is WrongAPIAnswer; a non-list `homeworks` is TypeError; None, bool and int fail `len()` with TypeError |
| `Homework.ParseStatus` | homework.py:100-108 | success exactly for a dict with both keys and a status in VERDICTS, giving `Изменился статус проверки работы "<name>". <verdict>` |
| `Homework.ParseStatusErrors` | homework.py:102-106 | a non-dict homework is a TypeError; a missing `homework_name` is a KeyError naming it, checked before `status`; then a missing `status` is a KeyError; a ValueError naming the status is raised exactly when a hashable status is not a key of VERDICTS |
| `Homework.ReadParseStatus` | homework.py:36-40 | the status message of any homework can be read back as `str()` of its name and its status, so the three verdict texts cannot be confused |
| `Homework.MissingTokens` | homework.py:113 | a name is reported missing exactly when it is one of the names examined and its value is None |
| `Homework.CheckTokens` | homework.py:111-118 | true exactly when all three credentials are set; only None counts as missing |
| `Homework.MissingTokensInOrder` | homework.py:30 | the missing names come out in the order of TOKENS_NAME |
| `Poller.Initial` | homework.py:128-129 | the loop starts with the startup clock as its timestamp, nothing remembered and `message` unassigned |
| `Poller.FetchAndCheck` | homework.py:132-134 | a successful fetch and check yields the body of a 200 reply, which is a well-formed answer whose `homeworks` is the returned list; its failures are never a KeyError, nor the ValueError of an unknown status |
| `Poller.FetchSuccessIgnoresRequest` | homework.py:58-82 | whether a reply passes the fetch and the check, and what it yields then, does not depend on the token or the timestamp sent |
| `Poller.NextTimestamp` | homework.py:137 | the next timestamp is the answer's `current_date` when present, else the clock reading |
| `Poller.AfterTry` | homework.py:131-144 | a caught failure changes only `message`, which it assigns; a success clears `previous_message` and moves the timestamp to `current_date` or the clock; `message` stays unassigned only on an empty homework list |
| `Poller.Deliver` | homework.py:146-149 | crash exactly when `message` is unassigned; a send is attempted exactly when the message is non-empty and differs from `previous_message`; `previous_message` changes only through a successful send, and then to the sent text |
| `Poller.CycleCrashes` | homework.py:131-149 | a cycle crashes exactly when `message` was never assigned and the homework list is empty; the timestamp moves only after a successful fetch and check |
| `Poller.Replay` | homework.py:130-150 | a run of cycles yields at most one result per input |
| `Poller.ReplayStopsAtCrash` | homework.py:130-150 | a run stops early only at a crash, and a crash is always the run's last result |
| `Poller.PollLoop.constructor` | homework.py:127-129 | the loop state starts as `Initial` of the startup clock |
| `Poller.PollLoop.Step` | homework.py:131-149 | one loop iteration updates the three fields and returns the cycle's result exactly as `Cycle` of the old state |
| `Poller.Run` | homework.py:121-150 | startup is refused exactly when a credential is missing, and then no request is made; otherwise the results are those of `Replay` from the initial state |
| `Poller.FetchFailureKeepsTimestamp` | homework.py:143-149 | a fetch or check failure leaves the timestamp unchanged and sets the failure message; it is sent exactly when it differs from the remembered one |
| `Poller.SuccessAdvancesTimestamp` | homework.py:136-137 | after a successful check the timestamp is `current_date` or the clock; `previous_message` is cleared unless this cycle's send just succeeded |
| `Poller.OnlyFirstHomework` | homework.py:138-139 | homeworks after the first never affect a cycle |
| `Poller.RepeatedFetchFailureSuppressed` | homework.py:143-149 | the same fetch failure in the next cycle, after the failure was delivered, sends nothing |
| `Poller.RepeatedStatusResent` | homework.py:136-149 | two consecutive replies whose first homework reads as the same status message are both announced, whatever the sends report and whatever the timestamp became |
| `Poller.RepeatedUnknownStatusResent` | homework.py:136-144 | a translation failure is sent even when it repeats, because `previous_message` was cleared first |
| `Poller.FirstQuietCycleCrashes` | homework.py:138-147 | as written, a first cycle whose reply has an empty `homeworks` list crashes |
| `Poller.QuietCycleResendsStaleMessage` | homework.py:136-149 | as written, a cycle with an empty `homeworks` list re-sends the last message |
| `Poller.ApprovedAnnounces` | homework.py:100-108 | a reply with one approved homework `proj1` passes the check and announces `Изменился статус проверки работы "proj1". Работа проверена: ревьюеру всё понравилось. Ура!` |
| `Poller.ApprovedFirstCycle` | homework.py:132-149 | from the start, a reply with one approved homework `proj1` and `current_date` 1700000100 sends `Изменился статус проверки работы "proj1". Работа проверена: ревьюеру всё понравилось. Ура!` and sets the timestamp to 1700000100 |
| `Poller.AnnouncementSentTwice` | homework.py:136-149 | as written, any status announcement followed by a reply with an empty `homeworks` list is sent twice, whatever the sends report |
| `Poller.ApprovalSentTwice` | homework.py:130-149 | as written, an approved homework followed by a quiet reply produces the approval message twice |
| `Poller.CycleIntended` | homework.py:138-149 | with the empty-list branch clearing `message`, a cycle never crashes and a quiet reply sends nothing |
| `Poller.IntendedCycleCorrect` | homework.py:138-141 | the corrected cycle differs from the code as written only on an empty homework list: a failed fetch or a non-empty list behaves exactly as written |

## Left out

- The HTTP request (`requests.get`), `response.json()` and the re-raising of `RequestException` (homework.py:61-66, 72) are not modelled. Their outcome is the `Reply` input: a network error with its text, or a status code with a decoded or undecodable body. The `from_date` sent with the request does not influence the reply in the model. It appears only in the error texts.
- The Telegram `Bot` and the body of `send_message` (homework.py:43-54, 127) are not modelled, because they are a foreign client. Only the boolean that `send_message` returns is an input.
- Logging (homework.py:17-25, 153-159 and every `logger` call) is not modelled, because it has no effect on the loop's state.
- `time.time()` is not modelled; the clock is a parameter. `time.sleep(RETRY_TIME)` and its constant are not modelled. The infinite `while True` is modelled as a finite sequence of cycle inputs.
- `load_dotenv` and `os.getenv` (homework.py:15, 27-29) are not modelled. The three tokens are `Option<string>` inputs.
- exceptions.py is not modelled, because it holds only empty class declarations. The exception classes are the `Kind` datatype.
- JSON floats are not modelled. Decoded numbers are integers.
- Json.Str: renders a dict as `{...}` instead of Python's full `str()`, because a Dafny map keeps no insertion order. Two refusals whose `error` (or `code`) values are dicts with different contents therefore get the same text. The model then suppresses the second one, which Python sends: 200 replies `{"error": {"error": "A"}}` and then `{"error": {"error": "B"}}` send one message in the model and two in Python. For the same reason, request texts whose `from_date` values are different dicts are identical in the model.
- Json.Repr: quotes a string without Python's escaping of quotes and backslashes, and always with single quotes.
- Homework.RequestText: writes the token into the `HEADERS` text unescaped, where Python's `repr` of the dict would escape quotes and backslashes in it.
- Homework.Describe: the built-in TypeError texts are those of CPython 3.8 to 3.10; other versions word some of them differently.
- Exceptions that `except Exception` does not catch (`KeyboardInterrupt`, `SystemExit`) are not modelled, and neither are failures inside the logging calls.

## Findings

| source | as written | input that shows it | evidently intended | confidence | as-written member | corrected member |
|---|---|---|---|---|---|---|
| homework.py:138-147 | `message` is assigned only in the non-empty branch and in `except`, and the `finally` block reads it | a first reply `{"homeworks": []}`: `UnboundLocalError` escapes the loop and the bot stops | a quiet reply leaves nothing to send and the loop goes on | high; not executed | `Poller.FirstQuietCycleCrashes` | `Poller.IntendedCycleCorrect` |
| homework.py:136-149 | each successful check clears `previous_message` but keeps the old `message` when `homeworks` is empty | cycle 1 returns one approved homework; cycle 2 returns `{"homeworks": []}`: the approval message is sent again, and again in every later quiet cycle | a quiet reply sends nothing | high; not executed | `Poller.QuietCycleResendsStaleMessage` | `Poller.IntendedCycleCorrect` |

`Poller.PollLoop` and `Poller.Run` follow the code as written. `Poller.CycleIntended`
gives the corrected cycle. The corrected branch sets `message` to the empty
string, so its `finally` block sends nothing.
