/** The status translator: turns one submission into the notification
    sentence the bot sends, through the fixed three-entry verdict table. */
module StatusTranslator {
  import opened HomeworkApi

  const APPROVED_VERDICT := "Работа проверена: ревьюеру всё понравилось. Ура!"
  const REVIEWING_VERDICT := "Работа взята на проверку ревьюером."
  const REJECTED_VERDICT := "Работа проверена, в ней нашлись ошибки."

  /** The verdict table: a status code of the API to its sentence. */
  const VERDICTS: map<string, string> := map[
    "approved" := APPROVED_VERDICT,
    "reviewing" := REVIEWING_VERDICT,
    "rejected" := REJECTED_VERDICT
  ]

  datatype Option<T> = None | Some(value: T)

  const DEFAULT_NAME := "latest homework"
  const CHANGED_PREFIX := "Изменился статус проверки работы "
  const UNDOCUMENTED_PREFIX := "Недокументированный статус проверки работы "

  /** The name a sentence mentions: `homework_name`, or the placeholder. */
  function NameOf(hw: Homework): (name: string)
    ensures "homework_name" in hw ==> name == hw["homework_name"]
    ensures "homework_name" !in hw ==> name == DEFAULT_NAME
  {
    if "homework_name" in hw then hw["homework_name"] else DEFAULT_NAME
  }

  /** What a sentence tells its reader: a documented verdict on a named
      submission, or an undocumented status code. */
  datatype Reading = Verdict(status: string, name: string) | Undocumented(status: string)

  ghost predicate WellFormed(r: Reading) {
    r.Verdict? <==> r.status in VERDICTS
  }

  /** The reading a submission with a `status` field gives. */
  function ReadingOf(hw: Homework): (r: Reading)
    requires "status" in hw
    ensures WellFormed(r) && r.status == hw["status"]
    ensures r.Verdict? ==> r.name == NameOf(hw)
  {
    var status := hw["status"];
    if status in VERDICTS then Verdict(status, NameOf(hw)) else Undocumented(status)
  }

  /** The closing part of a documented sentence: the quote after the name,
      and the verdict. */
  function VerdictTail(status: string): string
    requires status in VERDICTS
  {
    "\". " + VERDICTS[status]
  }

  /** The opening part of a documented sentence, up to the name. */
  const OPENING := CHANGED_PREFIX + "\""

  /** `parse_status`: a documented status gives the sentence naming the
      submission and its verdict; an undocumented one is not an error and
      gives the undocumented-status sentence; a submission without a
      `status` field raises KeyError('status'). */
  function ParseStatus(hw: Homework): (r: Result<string>)
    ensures "status" !in hw ==> r == Err(KeyErr("status"))
    ensures "status" in hw && hw["status"] in VERDICTS ==>
      r == Ok(CHANGED_PREFIX + "\"" + NameOf(hw) + "\". " + VERDICTS[hw["status"]])
    ensures "status" in hw && hw["status"] !in VERDICTS ==>
      r == Ok(UNDOCUMENTED_PREFIX + hw["status"] + ".")
  {
    if "status" !in hw then
      Err(KeyErr("status"))
    else if hw["status"] in VERDICTS then
      var verdict := VERDICTS[hw["status"]];
      var homeworkName := NameOf(hw);
      Ok(CHANGED_PREFIX + "\"" + homeworkName + "\". " + verdict)
    else
      Ok(UNDOCUMENTED_PREFIX + hw["status"] + ".")
  }

  /** The sentence for a reading, as `parse_status` writes it. */
  function Sentence(r: Reading): (text: string)
    requires WellFormed(r)
  {
    match r
    case Verdict(status, name) => OPENING + name + VerdictTail(status)
    case Undocumented(status) => UNDOCUMENTED_PREFIX + status + "."
  }

  /** The text is long enough to hold the opening and ends with the tail. */
  predicate HasVerdictTail(text: string, tail: string) {
    |OPENING| + |tail| <= |text| && text[|text| - |tail|..] == tail
  }

  /** Reads a sentence back: the inverse of `Sentence`. The name of a
      documented sentence is whatever lies between the opening and the
      verdict's tail. */
  function ReadSentence(text: string): Option<Reading> {
    if |OPENING| <= |text| && text[..|OPENING|] == OPENING then
      if HasVerdictTail(text, VerdictTail("approved")) then
        Some(Verdict("approved", text[|OPENING|..|text| - |VerdictTail("approved")|]))
      else if HasVerdictTail(text, VerdictTail("reviewing")) then
        Some(Verdict("reviewing", text[|OPENING|..|text| - |VerdictTail("reviewing")|]))
      else if HasVerdictTail(text, VerdictTail("rejected")) then
        Some(Verdict("rejected", text[|OPENING|..|text| - |VerdictTail("rejected")|]))
      else
        None
    else if |UNDOCUMENTED_PREFIX| < |text| && text[..|UNDOCUMENTED_PREFIX|] == UNDOCUMENTED_PREFIX
            && text[|text| - 1] == '.' then
      Some(Undocumented(text[|UNDOCUMENTED_PREFIX|..|text| - 1]))
    else
      None
  }

  /** `parse_status` on a submission with a status writes the sentence of
      the submission's reading. */
  lemma ParseStatusWritesSentence(hw: Homework)
    requires "status" in hw
    ensures ParseStatus(hw) == Ok(Sentence(ReadingOf(hw)))
  {
    var status := hw["status"];
    if status in VERDICTS {
      var name := NameOf(hw);
      assert CHANGED_PREFIX + "\"" + name + "\". " + VERDICTS[status]
          == OPENING + name + VerdictTail(status);
    }
  }

  /** Every sentence can be read back into the reading it was written from. */
  lemma ReadSentenceRoundTrip(r: Reading)
    requires WellFormed(r)
    ensures ReadSentence(Sentence(r)) == Some(r)
  {
    var text := Sentence(r);
    match r
    case Verdict(status, name) =>
      assert text[..|OPENING|] == OPENING;
      assert text[|text| - |VerdictTail(status)|..] == VerdictTail(status);
      assert text[|OPENING|..|text| - |VerdictTail(status)|] == name;
      if status != "approved" {
        // the last character tells the approved verdict from the others
        var tail := VerdictTail("approved");
        assert text[|text| - 1] == '.' && tail[|tail| - 1] == '!';
        assert !HasVerdictTail(text, tail);
        if status == "rejected" {
          // the one before it tells the rejected verdict from reviewing
          var tail := VerdictTail("reviewing");
          assert text[|text| - 2] == 'и' && tail[|tail| - 2] == 'м';
          assert !HasVerdictTail(text, tail);
        }
      }
    case Undocumented(status) =>
      // the first character tells an undocumented sentence from a verdict
      assert text[0] == UNDOCUMENTED_PREFIX[0] == 'Н' && OPENING[0] == 'И';
      assert !(|OPENING| <= |text| && text[..|OPENING|] == OPENING);
      assert text[..|UNDOCUMENTED_PREFIX|] == UNDOCUMENTED_PREFIX;
      assert text[|UNDOCUMENTED_PREFIX|..|text| - 1] == status;
  }

  /** Two readings give the same sentence exactly when they are the same:
      comparing sentences compares (verdict, name) pairs. */
  lemma SentenceInjective(r1: Reading, r2: Reading)
    requires WellFormed(r1) && WellFormed(r2)
    ensures Sentence(r1) == Sentence(r2) <==> r1 == r2
  {
    ReadSentenceRoundTrip(r1);
    ReadSentenceRoundTrip(r2);
  }

  /** `parse_status` gives two submissions the same sentence exactly when
      they have the same status and, for a documented status, the same
      name; an undocumented status ignores the name. */
  lemma ParseStatusDistinguishes(hw1: Homework, hw2: Homework)
    requires "status" in hw1 && "status" in hw2
    ensures ParseStatus(hw1) == ParseStatus(hw2) <==>
      hw1["status"] == hw2["status"] && (hw1["status"] in VERDICTS ==> NameOf(hw1) == NameOf(hw2))
  {
    ParseStatusWritesSentence(hw1);
    ParseStatusWritesSentence(hw2);
    SentenceInjective(ReadingOf(hw1), ReadingOf(hw2));
  }

  /** A documented sentence opens with the change announcement, an
      undocumented one does not. */
  lemma SentenceOpening(r: Reading)
    requires WellFormed(r)
    ensures |Sentence(r)| > 0
    ensures r.Verdict? <==> Sentence(r)[0] == 'И'
    ensures r.Undocumented? ==>
      |UNDOCUMENTED_PREFIX| < |Sentence(r)| && Sentence(r)[..|UNDOCUMENTED_PREFIX|] == UNDOCUMENTED_PREFIX
    ensures r.Verdict? <==> |OPENING| <= |Sentence(r)| && Sentence(r)[..|OPENING|] == OPENING
  {
    assert Sentence(r)[0] == (if r.Verdict? then OPENING[0] else UNDOCUMENTED_PREFIX[0]);
  }
}
