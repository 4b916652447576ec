# Homework-review poller: a Dafny model

This project models the decision logic of `homework.py`, a bot that polls a
homework-review API and sends a chat message whenever the review status of
the latest submission changes. The model has five modules:

- `HomeworkApi` (`api.dfy`) holds the data the poller handles. A submission is a map of its
  JSON fields. The `homeworks` field of the decoded body is absent, null, a list, or
  another JSON value. A raw reply is either a transport failure or a status code with a
  body. One datatype lists the exceptions a cycle can raise, and `ErrorText` gives what
  `str(error)` shows for each. `Status` is the value the loop compares: `Empty` for the
  list `[]`, or `Text(sentence)`.
- `StatusTranslator` (`translator.dfy`) holds `VERDICTS` and `parse_status`. It also has a
  reading of each sentence as a (status, name) pair and the inverse `ReadSentence`. The
  round-trip lemma shows that comparing sentences is the same as comparing (status, name)
  pairs.
- `ResponseValidator` (`validator.dfy`) holds `check_response`. Its results are an empty
  list, a sentence about the first submission, KeyError, ValueError or TypeError.
- `Fetcher` (`fetcher.dfy`) holds the status-code branch of `get_api_answer`.
- `ChangeDetector` (`poller.dfy`) holds the `while True` body of `main`. The state record
  `PollState` has four parts: the loop variables `status` and `current_timestamp`, the list
  of messages handed to `send_message`, and the `from_date` of every request. `Apply` is one
  iteration and `Run` is a finite run of iterations. The class `Poller` keeps the same state
  in fields: `Step` is proved equal to `Apply`, and `RunCycles` (a `while` loop) is proved
  equal to `Run`. Lemmas about `Run` give the loop's promises. Runs of equal results send
  once. When every cycle succeeds, the messages sent are exactly the changes of the
  validated status against the stored one. An error cycle sends the failure message and
  leaves the status and the cursor alone.

The reply to each request and the clock reading (`int(time.time())`) are inputs to a cycle.
The HTTP request, the Telegram client, logging and sleeping are not modelled.

The code takes precedence over the system's design description in these places:
- `parse_status` returns a sentence for an undocumented status; it does not raise.
- `check_response` returns the list `[]` for an empty `homeworks`, not a placeholder
  sentence. That list differs from the initial text `'Проект пока не проверяется.'`, so the
  first empty result is sent and `status` becomes `[]` (`FirstSuccessNotifies`,
  `UnreachableThenEmpty`).
- There is no separate error for an empty body. A body without `homeworks` raises KeyError.
- The start-up credential check only logs. A missing token does not stop the loop by itself.
  A failed `telegram.Bot(...)` does, though (see "## Left out").
- The loop does not send each distinct status once per run. It sends every change against
  the stored value, so the results A, B, A send A twice.
- `status` is updated after `send_message` whether or not the client delivered the message,
  because `send_message` catches every exception.

## Model

| member | source | states |
|---|---|---|
| `HomeworkApi.ErrorText` | homework.py:58-106 | what each raised exception shows in the failure message: a KeyError its argument between single quotes, the bare ValueError nothing, the wrong-type TypeError `'Неверный тип значения по ключу homeworks.'`, the unreachable-endpoint exception `'Недоступен Эндпоинт.'`, a transport or decoding failure its own text |
| `StatusTranslator.NameOf` | homework.py:75 | the name is `homework_name` when present and `'latest homework'` otherwise |
| `StatusTranslator.ReadingOf` | homework.py:73-75 | a submission's reading is a verdict on (status, name) exactly when its status is in `VERDICTS`, and an undocumented status otherwise |
| `StatusTranslator.ParseStatus` | homework.py:71-82 | a documented status gives `'Изменился статус проверки работы "' + name + '". ' + VERDICTS[status]`; an undocumented one does not fail and gives `'Недокументированный статус проверки работы ' + status + '.'`; a missing status raises KeyError('status') |
| `StatusTranslator.ParseStatusWritesSentence` | homework.py:73-82 | `parse_status` writes the sentence of the submission's reading |
| `StatusTranslator.ReadSentenceRoundTrip` | homework.py:76-82 | every sentence reads back to the reading it was written from, including the name between the quotes |
| `StatusTranslator.SentenceInjective` | homework.py:76-82 | two readings give equal sentences if and only if they are equal |
| `StatusTranslator.ParseStatusDistinguishes` | homework.py:71-82 | two submissions get the same sentence if and only if they have the same status and, for a documented status, the same name |
| `StatusTranslator.SentenceOpening` | homework.py:76-82 | a sentence opens with the change announcement `'Изменился статус проверки работы "'` exactly when it is about a documented verdict, and an undocumented one opens with `'Недокументированный статус проверки работы '`; the first letter alone tells them apart |
| `ResponseValidator.CheckResponse` | homework.py:85-106 | a missing or null `homeworks` raises KeyError quoting the keys; `[]` is returned as it is, and it is the only body that gives `Empty`; otherwise the first submission decides: no status gives KeyError('status'), an undocumented status ValueError, a documented one its `parse_status` sentence; a non-list value TypeError |
| `ResponseValidator.OnlyFirstHomeworkConsulted` | homework.py:99-104 | the result does not depend on the submissions after the first |
| `ResponseValidator.ValidatedTextIsVerdict` | homework.py:99-104 | a sentence that passes validation always reads back as the documented verdict on the first submission, never as the undocumented sentence |
| `ResponseValidator.SameStatusIffSameVerdict` | homework.py:97-104 | two validated bodies give equal results if and only if both lists are empty or their first submissions have the same (status, name) |
| `Fetcher.GetApiAnswer` | homework.py:51-68 | the decoded body is returned if and only if the status code is 200 and the body decodes; every other code raises UnreachableEndpointException whatever the body; a transport failure is re-raised unchanged |
| `ChangeDetector.FailureMessage` | homework.py:132 | the failure message is `'Сбой в работе программы: '` followed by what the exception shows |
| `ChangeDetector.Poll` | homework.py:124-125 | a cycle's outcome is the fetch's exception, or else the validator's result on the fetched body |
| `ChangeDetector.Apply` | homework.py:123-135 | one iteration always completes (given a constructed bot) and asks from the current cursor. On success it sends exactly when the new value differs from `status`, which then equals the new value, and the cursor becomes the clock reading. On an exception it sends the failure message and leaves `status` and the cursor unchanged |
| `ChangeDetector.RunAppend` | homework.py:122-135 | running cycles one after another is running their concatenation |
| `ChangeDetector.RunStoresLastSuccess` | homework.py:126-129 | after any cycles, `status` and the cursor are the value and clock reading of the last successful cycle, or their start values if none succeeded |
| `ChangeDetector.RunQueries` | homework.py:124 | every cycle makes exactly one request, from the cursor it started with |
| `ChangeDetector.RunOfSuccesses` | homework.py:125-128 | when every cycle succeeds, the messages sent are exactly the changes of the validated values against the stored one, in order |
| `ChangeDetector.ChangesSeparated` | homework.py:126-128 | the changes never hold two equal neighbours and never start with the stored value, so each run of equal values is sent at most once |
| `ChangeDetector.ChangesOfConstant` | homework.py:126-128 | a run of N >= 1 equal values changes once if it differs from the stored value, otherwise never |
| `ChangeDetector.RepeatedStatusSentOnce` | homework.py:125-129 | N >= 1 consecutive identical results produce exactly one message (none if equal to the stored one), and that value is stored |
| `ChangeDetector.ReviewingThenApproved` | homework.py:121-129 | after start-up, results reviewing, reviewing, approved, approved send exactly two messages: the reviewing sentence, then the approved sentence |
| `ChangeDetector.SentencesDiffer` | homework.py:20-24 | the reviewing and approved sentences for a name differ |
| `ChangeDetector.NotInitialStatus` | homework.py:121-126 | no validated value, `[]` included, equals the initial `'Проект пока не проверяется.'` |
| `ChangeDetector.FirstSuccessNotifies` | homework.py:121-128 | the first successful cycle after start-up always sends its value |
| `ChangeDetector.UnreachableThenEmpty` | homework.py:62-135 | a 503 reply sends the failure message and keeps state. A following 200 reply with `homeworks: []` sends `[]` and stores it. Both requests ask from the start-up cursor |
| `ChangeDetector.ErrorCycleIsTransparent` | homework.py:131-135 | inserting a failing cycle anywhere leaves the final `status` and cursor as without it |
| `ChangeDetector.RunIgnoresLogs` | homework.py:122-135 | the messages sent and requests made never influence later decisions: states agreeing on `status` and cursor keep agreeing |
| `ChangeDetector.NotifiesIffVerdictChanged` | homework.py:125-128 | after a verdict sentence, a successful cycle sends if and only if the list became empty or the first submission's (status, name) changed |
| `ChangeDetector.Poller.constructor` | homework.py:120-121 | start-up: the cursor is the clock reading, `status` is the initial text, and nothing has been sent or requested |
| `ChangeDetector.Poller.SendMessage` | homework.py:41-48 | `send_message` never fails: it records the message handed to the client and changes nothing else |
| `ChangeDetector.Poller.Step` | homework.py:123-135 | the in-place iteration leaves the fields in exactly the state `Apply` gives |
| `ChangeDetector.Poller.RunCycles` | homework.py:122-135 | the loop over a finite sequence of cycles leaves the fields in exactly the state `Run` gives |

## Left out

- The HTTP request itself (`requests.get` with the OAuth header and `from_date`). Each cycle takes its reply as an input, and the model logs only the `from_date` of each request.
- The Telegram client. Whether the client delivers a message is not visible to the loop, so the model records only the messages handed to `send_message`.
- The bot's construction (lines 116-119): the model assumes `telegram.Bot(...)` succeeded. If it fails, the code only logs, and the local `bot` stays unbound. The first cycle always sends something: a success sends its value (`FirstSuccessNotifies`), an error its failure message. So `send_message(bot, …)` then raises UnboundLocalError. Raised at line 127, it is caught at line 131, and the handler's own `send_message` at line 134 raises it again, outside any handler. That ends `main`. The model's promise that every iteration completes (`ChangeDetector.Apply`, `ChangeDetector.Poller.Step`) holds only for a constructed bot.
- Loading `.env` and the module-level tokens.
- Logging and formatter setup, and every `logger` call, because they do not change behaviour.
- `time.sleep(RETRY_TIME)` and `time.time()`. The clock reading is a field of each cycle, and the 300-second sleep has no effect on the model.
- The never-ending `while True`. The model covers finite runs of cycles.
- The start-up credential check, which only logs.
- `ResponseValidator.CheckResponse`: a `homeworks` value that is not a list is modelled as reaching the TypeError branch. In Python, `homeworks[0]` on such a value raises its own error first (KeyError, IndexError or TypeError, depending on the type), and that error would show a different text.
- `HomeworkApi.ErrorText`: the text of a KeyError is its argument in single quotes. Python's `repr` escaping of quotes inside the argument is not modelled. The key view `response.keys()` is taken as its given rendering.
- JSON field values of submissions are modelled as the strings they render as in the f-strings. A JSON body that is not an object is modelled as a decoding failure with its cause text.
- A `homeworks` list whose first element is not a JSON object (`[1]`, `[null]`) cannot be written in the model, because a submission is a map of strings. In Python, `homeworks[0]['status']` at line 99 then raises TypeError, and the cycle fails with that error's text.
- A `status` that is a JSON array or object is unhashable. In Python, the `not in VERDICTS` test at line 99 then raises TypeError. The model knows only string statuses, and they give ValueError when undocumented.
