/** The response validator: classifies the decoded body of a reply and, for
    a non-empty list of submissions, translates the first one. */
module ResponseValidator {
  import opened HomeworkApi
  import opened StatusTranslator

  /** The text of the KeyError raised when `homeworks` is missing or null;
      it quotes the body's keys. */
  function MissingHomeworksMessage(keysShown: string): string {
    "Ключ \"homeworks\" не существует. Все ключи " + keysShown + "."
  }

  /** `check_response`. A missing or null `homeworks` raises KeyError; an
      empty list is returned as it is; otherwise only the first submission
      is consulted: without a status it raises KeyError('status'), with an
      undocumented status ValueError, and with a documented one the result
      is its sentence. A value of another JSON type raises TypeError. */
  function CheckResponse(response: Response): (r: Result<Status>)
    ensures response.homeworks.Absent? || response.homeworks.Null? ==>
      r == Err(KeyErr(MissingHomeworksMessage(response.keysShown)))
    ensures response.homeworks == List([]) ==> r == Ok(Empty)
    ensures response.homeworks.Other? ==> r == Err(TypeErr)
    ensures response.homeworks.List? && response.homeworks.items != [] ==>
      var first := response.homeworks.items[0];
      && ("status" !in first ==> r == Err(KeyErr("status")))
      && ("status" in first && first["status"] !in VERDICTS ==> r == Err(ValueErr))
      && ("status" in first && first["status"] in VERDICTS ==> r == Ok(Text(ParseStatus(first).value)))
    ensures r == Ok(Empty) <==> response.homeworks == List([])
  {
    match response.homeworks
    case Absent => Err(KeyErr(MissingHomeworksMessage(response.keysShown)))
    case Null => Err(KeyErr(MissingHomeworksMessage(response.keysShown)))
    case List(items) =>
      if |items| == 0 then
        Ok(Empty)
      else if "status" !in items[0] then
        Err(KeyErr("status"))
      else if items[0]["status"] !in VERDICTS then
        Err(ValueErr)
      else
        (match ParseStatus(items[0])
         case Ok(sentence) => Ok(Text(sentence))
         case Err(e) => Err(e))
    case Other => Err(TypeErr)
  }

  /** The submissions after the first never matter. */
  lemma OnlyFirstHomeworkConsulted(keysShown: string, first: Homework, rest1: seq<Homework>, rest2: seq<Homework>)
    ensures CheckResponse(Response(keysShown, List([first] + rest1)))
         == CheckResponse(Response(keysShown, List([first] + rest2)))
  {
    assert ([first] + rest1)[0] == first == ([first] + rest2)[0];
  }

  /** Every sentence that passes validation reads back as a documented
      verdict on the first submission: the undocumented sentence of
      `parse_status` never reaches the loop through `check_response`. */
  lemma ValidatedTextIsVerdict(response: Response)
    requires CheckResponse(response).Ok? && CheckResponse(response).value.Text?
    ensures response.homeworks.List? && response.homeworks.items != []
    ensures var first := response.homeworks.items[0];
      && "status" in first && first["status"] in VERDICTS
      && ReadSentence(CheckResponse(response).value.text) == Some(Verdict(first["status"], NameOf(first)))
  {
    var first := response.homeworks.items[0];
    ParseStatusWritesSentence(first);
    ReadSentenceRoundTrip(ReadingOf(first));
  }

  /** Two validated bodies give the same status exactly when both have an
      empty list, or their first submissions carry the same documented
      status and the same name. */
  lemma SameStatusIffSameVerdict(a: Response, b: Response)
    requires CheckResponse(a).Ok? && CheckResponse(b).Ok?
    ensures CheckResponse(a) == CheckResponse(b) <==>
      || (a.homeworks == List([]) && b.homeworks == List([]))
      || (&& a.homeworks.List? && a.homeworks.items != []
          && b.homeworks.List? && b.homeworks.items != []
          && ReadingOf(a.homeworks.items[0]) == ReadingOf(b.homeworks.items[0]))
  {
    if CheckResponse(a).value.Text? && CheckResponse(b).value.Text? {
      ValidatedTextIsVerdict(a);
      ValidatedTextIsVerdict(b);
      var fa, fb := a.homeworks.items[0], b.homeworks.items[0];
      ParseStatusWritesSentence(fa);
      ParseStatusWritesSentence(fb);
      SentenceInjective(ReadingOf(fa), ReadingOf(fb));
    }
  }
}
