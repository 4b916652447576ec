/** The change detector: the polling loop of `main`. It keeps the last
    status it handed to the notifier and the timestamp cursor of its next
    request; each cycle fetches, validates, and notifies only when the
    validated status differs from the stored one. Any error of a cycle is
    turned into a best-effort failure message and leaves both variables as
    they were. */
module ChangeDetector {
  import opened HomeworkApi
  import opened StatusTranslator
  import opened ResponseValidator
  import opened Fetcher

  /** The value `status` starts with. */
  const INITIAL_STATUS := "Проект пока не проверяется."
  const FAILURE_PREFIX := "Сбой в работе программы: "

  /** The message sent when a cycle fails: the fixed prefix, then what the
      exception shows. */
  function FailureMessage(e: Error): (m: string)
    ensures |FAILURE_PREFIX| <= |m|
    ensures m[..|FAILURE_PREFIX|] == FAILURE_PREFIX && m[|FAILURE_PREFIX|..] == ErrorText(e)
  {
    FAILURE_PREFIX + ErrorText(e)
  }

  /** What one cycle is given: the reply to its request, and the clock
      reading it takes after a successful comparison (`int(time.time())`). */
  datatype Cycle = Cycle(reply: HttpReply, now: int)

  /** The body of the `try` up to the comparison: fetch, then validate.
      Either step's exception ends the cycle with that exception. */
  function Poll(reply: HttpReply): (r: Result<Status>)
    ensures GetApiAnswer(reply).Err? ==> r == Err(GetApiAnswer(reply).error)
    ensures GetApiAnswer(reply).Ok? ==> r == CheckResponse(GetApiAnswer(reply).value)
  {
    match GetApiAnswer(reply)
    case Err(e) => Err(e)
    case Ok(response) => CheckResponse(response)
  }

  /** A cycle as the comparison sees it: the validated status or the
      exception, and the clock reading. */
  datatype Observation = Observation(outcome: Result<Status>, now: int)

  function Observe(c: Cycle): Observation {
    Observation(Poll(c.reply), c.now)
  }

  function ObserveAll(cycles: seq<Cycle>): (obs: seq<Observation>)
    ensures |obs| == |cycles|
    ensures forall i :: 0 <= i < |cycles| ==> obs[i] == Observe(cycles[i])
  {
    seq(|cycles|, i requires 0 <= i < |cycles| => Observe(cycles[i]))
  }

  /** The loop's variables, with the messages handed to `send_message` and
      the `from_date` of every request, both in order. */
  datatype PollState = PollState(status: Status, cursor: int, outbox: seq<Status>, queries: seq<int>)

  function Initial(now: int): PollState {
    PollState(Text(INITIAL_STATUS), now, [], [])
  }

  /** One iteration of the loop. The request asks from the cursor. On
      success a message goes out only when the new status differs from the
      stored one, the new status is stored and the cursor moves to the clock
      reading; on an exception the failure message goes out and both
      variables stay. `send_message` swallows every failure of the
      messaging client, so the iteration always completes. */
  function Apply(s: PollState, o: Observation): (t: PollState)
    ensures t.queries == s.queries + [s.cursor]
    ensures o.outcome.Err? ==>
      && t.status == s.status && t.cursor == s.cursor
      && t.outbox == s.outbox + [Text(FailureMessage(o.outcome.error))]
    ensures o.outcome.Ok? ==>
      && t.status == o.outcome.value && t.cursor == o.now
      && |s.outbox| <= |t.outbox| <= |s.outbox| + 1
      && t.outbox[..|s.outbox|] == s.outbox
      && (|t.outbox| == |s.outbox| + 1 <==> o.outcome.value != s.status)
      && (|t.outbox| > |s.outbox| ==> t.outbox[|s.outbox|] == t.status)
  {
    var queries := s.queries + [s.cursor];
    match o.outcome
    case Ok(newStatus) =>
      var outbox := if newStatus != s.status then s.outbox + [newStatus] else s.outbox;
      PollState(newStatus, o.now, outbox, queries)
    case Err(e) =>
      PollState(s.status, s.cursor, s.outbox + [Text(FailureMessage(e))], queries)
  }

  /** A finite prefix of the endless loop. */
  function Run(s: PollState, obs: seq<Observation>): PollState
    decreases |obs|
  {
    if obs == [] then s else Run(Apply(s, obs[0]), obs[1..])
  }

  /** The reference definition of change detection: each value of `vs`
      that differs from the one before it (the first compared with `prev`),
      in order. */
  function Changes(prev: Status, vs: seq<Status>): seq<Status>
    decreases |vs|
  {
    if vs == [] then []
    else (if vs[0] != prev then [vs[0]] else []) + Changes(vs[0], vs[1..])
  }

  ghost predicate AllSucceed(obs: seq<Observation>) {
    forall i :: 0 <= i < |obs| ==> obs[i].outcome.Ok?
  }

  function Statuses(obs: seq<Observation>): (vs: seq<Status>)
    requires AllSucceed(obs)
    ensures |vs| == |obs|
    ensures forall i :: 0 <= i < |obs| ==> vs[i] == obs[i].outcome.value
  {
    seq(|obs|, i requires 0 <= i < |obs| && AllSucceed(obs) => obs[i].outcome.value)
  }

  /** The reference definition of what the loop stores, read from the end:
      the value of the last successful cycle, or the start value. */
  function LastStatus(start: Status, obs: seq<Observation>): Status
    decreases |obs|
  {
    if obs == [] then start
    else if obs[|obs| - 1].outcome.Ok? then obs[|obs| - 1].outcome.value
    else LastStatus(start, obs[..|obs| - 1])
  }

  /** Likewise for the cursor: the clock reading of the last successful
      cycle, or the start value. */
  function LastCursor(start: int, obs: seq<Observation>): int
    decreases |obs|
  {
    if obs == [] then start
    else if obs[|obs| - 1].outcome.Ok? then obs[|obs| - 1].now
    else LastCursor(start, obs[..|obs| - 1])
  }

  /** Running cycles one after another is running their concatenation. */
  lemma {:induction false} RunAppend(s: PollState, a: seq<Observation>, b: seq<Observation>)
    ensures Run(s, a + b) == Run(Run(s, a), b)
    decreases |a|
  {
    if a == [] {
      assert a + b == b;
    } else {
      assert (a + b)[0] == a[0] && (a + b)[1..] == a[1..] + b;
      RunAppend(Apply(s, a[0]), a[1..], b);
    }
  }

  /** After any cycles the stored status and the cursor are those of the
      last successful cycle: a failing cycle never moves either, and a
      successful one always sets both. */
  lemma {:induction false} RunStoresLastSuccess(s: PollState, obs: seq<Observation>)
    ensures Run(s, obs).status == LastStatus(s.status, obs)
    ensures Run(s, obs).cursor == LastCursor(s.cursor, obs)
    decreases |obs|
  {
    if obs != [] {
      var init, last := obs[..|obs| - 1], obs[|obs| - 1];
      assert obs == init + [last];
      RunAppend(s, init, [last]);
      RunStoresLastSuccess(s, init);
      assert Run(Run(s, init), [last]) == Run(Apply(Run(s, init), last), []);
    }
  }

  /** Every cycle issues exactly one request, and it asks from the cursor
      the cycle started with. */
  lemma {:induction false} RunQueries(s: PollState, obs: seq<Observation>)
    ensures |Run(s, obs).queries| == |s.queries| + |obs|
    ensures Run(s, obs).queries[..|s.queries|] == s.queries
    ensures obs != [] ==> Run(s, obs).queries[|s.queries|] == s.cursor
    decreases |obs|
  {
    if obs != [] {
      var t := Apply(s, obs[0]);
      RunQueries(t, obs[1..]);
      assert Run(s, obs).queries[..|s.queries|] == Run(t, obs[1..]).queries[..|t.queries|][..|s.queries|];
    }
  }

  /** When every cycle succeeds, the messages sent are exactly the changes of
      the validated statuses against the stored one. */
  lemma {:induction false} RunOfSuccesses(s: PollState, obs: seq<Observation>)
    requires AllSucceed(obs)
    ensures Run(s, obs).outbox == s.outbox + Changes(s.status, Statuses(obs))
    decreases |obs|
  {
    if obs != [] {
      var t := Apply(s, obs[0]);
      var vs := Statuses(obs);
      var sent := if vs[0] != s.status then [vs[0]] else [];
      assert t.outbox == s.outbox + sent && t.status == vs[0];
      assert Statuses(obs[1..]) == vs[1..];
      RunOfSuccesses(t, obs[1..]);
      var rest := Changes(vs[0], vs[1..]);
      assert Changes(s.status, vs) == sent + rest;
      assert Run(s, obs).outbox == (s.outbox + sent) + rest;
      AppendAssociative(s.outbox, sent, rest);
    }
  }

  /** Associativity of concatenation, stated apart so that the induction
      step above sees it as one fact about three sequences rather than
      about the unfolded runs. */
  lemma AppendAssociative<T>(a: seq<T>, b: seq<T>, c: seq<T>)
    ensures (a + b) + c == a + (b + c)
  {
  }

  /** The changes never hold two equal neighbours, nor start with the
      stored value: a run of equal statuses is notified at most once. */
  lemma {:induction false} ChangesSeparated(prev: Status, vs: seq<Status>)
    ensures var d := Changes(prev, vs);
      && (|d| > 0 ==> d[0] != prev)
      && (forall i :: 0 <= i < |d| - 1 ==> d[i] != d[i + 1])
      && (forall x :: x in d ==> x in vs)
    decreases |vs|
  {
    if vs != [] {
      ChangesSeparated(vs[0], vs[1..]);
      var rest := Changes(vs[0], vs[1..]);
      var d := Changes(prev, vs);
      if vs[0] != prev {
        assert d == [vs[0]] + rest;
        forall i | 0 <= i < |d| - 1 ensures d[i] != d[i + 1] {
          if i > 0 { assert d[i] == rest[i - 1] && d[i + 1] == rest[i]; }
        }
      } else {
        assert d == rest;
      }
      forall x | x in d ensures x in vs {
        assert x == vs[0] || x in rest;
        if x in rest { assert x in vs[1..]; }
      }
    }
  }

  lemma {:induction false} ChangesOfConstant(prev: Status, vs: seq<Status>, v: Status)
    requires |vs| >= 1
    requires forall i :: 0 <= i < |vs| ==> vs[i] == v
    ensures Changes(prev, vs) == if v != prev then [v] else []
    decreases |vs|
  {
    if |vs| > 1 {
      ChangesOfConstant(v, vs[1..], v);
    } else {
      assert vs[1..] == [];
    }
  }

  /** N >= 1 consecutive cycles validating to the same status produce
      exactly one message when it differs from the stored status, and none
      when it equals it; either way that status is stored. */
  lemma RepeatedStatusSentOnce(s: PollState, cycles: seq<Cycle>, v: Status)
    requires |cycles| >= 1
    requires forall i :: 0 <= i < |cycles| ==> Poll(cycles[i].reply) == Ok(v)
    ensures Run(s, ObserveAll(cycles)).outbox == s.outbox + (if v != s.status then [v] else [])
    ensures Run(s, ObserveAll(cycles)).status == v
  {
    var obs := ObserveAll(cycles);
    RunOfSuccesses(s, obs);
    ChangesOfConstant(s.status, Statuses(obs), v);
    RunStoresLastSuccess(s, obs);
  }

  /** A 200 reply whose body lists one submission with the given status. */
  function ReplyWith(status: string, name: string): HttpReply {
    Reply(HTTP_OK, Decoded(Response("dict_keys(['homeworks', 'current_date'])",
      List([map["status" := status, "homework_name" := name]]))))
  }

  /** Four cycles reporting reviewing, reviewing, approved, approved after
      start-up send exactly two messages: the first reviewing sentence and
      the first approved sentence. */
  lemma ReviewingThenApproved(name: string, t0: int, t1: int, t2: int, t3: int, t4: int)
    ensures var cycles := [Cycle(ReplyWith("reviewing", name), t1), Cycle(ReplyWith("reviewing", name), t2),
                           Cycle(ReplyWith("approved", name), t3), Cycle(ReplyWith("approved", name), t4)];
      Run(Initial(t0), ObserveAll(cycles)).outbox ==
        [Text(CHANGED_PREFIX + "\"" + name + "\". " + REVIEWING_VERDICT),
         Text(CHANGED_PREFIX + "\"" + name + "\". " + APPROVED_VERDICT)]
  {
    var rv := Text(CHANGED_PREFIX + "\"" + name + "\". " + REVIEWING_VERDICT);
    var ap := Text(CHANGED_PREFIX + "\"" + name + "\". " + APPROVED_VERDICT);
    var cycles := [Cycle(ReplyWith("reviewing", name), t1), Cycle(ReplyWith("reviewing", name), t2),
                   Cycle(ReplyWith("approved", name), t3), Cycle(ReplyWith("approved", name), t4)];
    assert Poll(ReplyWith("reviewing", name)) == Ok(rv);
    assert Poll(ReplyWith("approved", name)) == Ok(ap);
    var obs := ObserveAll(cycles);
    RunOfSuccesses(Initial(t0), obs);
    assert Statuses(obs) == [rv, rv, ap, ap];
    NotInitialStatus(ReplyWith("reviewing", name));
    SentencesDiffer(name);
    ChangesOfTwoRuns(Text(INITIAL_STATUS), rv, ap);
  }

  lemma ChangesOfTwoRuns(prev: Status, x: Status, y: Status)
    requires prev != x && x != y
    ensures Changes(prev, [x, x, y, y]) == [x, y]
  {
    var vs := [x, x, y, y];
    assert vs[1..] == [x, y, y] && vs[1..][1..] == [y, y] && vs[1..][1..][1..] == [y];
    assert Changes(y, [y]) == [] by { assert [y][1..] == []; }
    assert Changes(x, [y, y]) == [y];
    assert Changes(x, [x, y, y]) == [y];
  }

  lemma SentencesDiffer(name: string)
    ensures CHANGED_PREFIX + "\"" + name + "\". " + REVIEWING_VERDICT
         != CHANGED_PREFIX + "\"" + name + "\". " + APPROVED_VERDICT
  {
    SentenceInjective(Verdict("reviewing", name), Verdict("approved", name));
    assert Sentence(Verdict("reviewing", name)) == CHANGED_PREFIX + "\"" + name + "\". " + REVIEWING_VERDICT;
    assert Sentence(Verdict("approved", name)) == CHANGED_PREFIX + "\"" + name + "\". " + APPROVED_VERDICT;
  }

  /** No validated status equals the initial one. The empty list is a
      different value from the initial text too. */
  lemma NotInitialStatus(reply: HttpReply)
    requires Poll(reply).Ok?
    ensures Poll(reply).value != Text(INITIAL_STATUS)
  {
    var response := GetApiAnswer(reply).value;
    if Poll(reply).value.Text? {
      ValidatedTextIsVerdict(response);
      var text := Poll(reply).value.text;
      assert text[..|OPENING|] == OPENING;
      assert text[0] == OPENING[0] == 'И' && INITIAL_STATUS[0] == 'П';
    }
  }

  /** So the first successful cycle after start-up always sends, even when
      it validates to the empty list. */
  lemma FirstSuccessNotifies(now: int, c: Cycle)
    requires Poll(c.reply).Ok?
    ensures Apply(Initial(now), Observe(c)).outbox == [Poll(c.reply).value]
  {
    NotInitialStatus(c.reply);
  }

  /** After an endpoint failure the loop goes on; a following empty list
      is sent (it differs from the initial text) and becomes the status.
      Both requests ask from the start-up cursor. */
  lemma UnreachableThenEmpty(keysShown: string, t0: int, t1: int, t2: int, body: Payload)
    ensures var cycles := [Cycle(Reply(503, body), t1),
                           Cycle(Reply(HTTP_OK, Decoded(Response(keysShown, List([])))), t2)];
      Run(Initial(t0), ObserveAll(cycles)) ==
        PollState(Empty, t2, [Text(FAILURE_PREFIX + UNREACHABLE_MESSAGE), Empty], [t0, t0])
  {
    var cycles := [Cycle(Reply(503, body), t1),
                   Cycle(Reply(HTTP_OK, Decoded(Response(keysShown, List([])))), t2)];
    var obs := ObserveAll(cycles);
    assert obs[0].outcome == Err(UnreachableEndpoint(503));
    assert FailureMessage(UnreachableEndpoint(503)) == FAILURE_PREFIX + UNREACHABLE_MESSAGE;
    var s1 := Apply(Initial(t0), obs[0]);
    assert s1 == PollState(Text(INITIAL_STATUS), t0, [Text(FAILURE_PREFIX + UNREACHABLE_MESSAGE)], [t0]);
    assert obs[1].outcome == Ok(Empty);
    var s2 := Apply(s1, obs[1]);
    assert s2 == PollState(Empty, t2, [Text(FAILURE_PREFIX + UNREACHABLE_MESSAGE), Empty], [t0, t0]);
    assert obs[1..] == [obs[1]] && obs[1..][1..] == [];
    assert Run(Initial(t0), obs) == Run(s1, obs[1..]) == Run(s2, []);
  }

  /** A failing cycle wherever it happens leaves the stored status and the
      cursor exactly as if it had not happened. */
  lemma ErrorCycleIsTransparent(s: PollState, before: seq<Observation>, o: Observation, after: seq<Observation>)
    requires o.outcome.Err?
    ensures Run(s, before + [o] + after).status == Run(s, before + after).status
    ensures Run(s, before + [o] + after).cursor == Run(s, before + after).cursor
  {
    RunAppend(s, before + [o], after);
    RunAppend(s, before, [o]);
    RunAppend(s, before, after);
    var m := Run(s, before);
    assert Run(m, [o]) == Run(Apply(m, o), []);
    RunIgnoresLogs(Apply(m, o), m, after);
  }

  /** Two states that agree on the status and the cursor stay in agreement
      on both whatever cycles follow: the outbox and the request log never
      feed back into the loop's decisions. */
  lemma {:induction false} RunIgnoresLogs(s1: PollState, s2: PollState, obs: seq<Observation>)
    requires s1.status == s2.status && s1.cursor == s2.cursor
    ensures Run(s1, obs).status == Run(s2, obs).status
    ensures Run(s1, obs).cursor == Run(s2, obs).cursor
    decreases |obs|
  {
    if obs != [] {
      RunIgnoresLogs(Apply(s1, obs[0]), Apply(s2, obs[0]), obs[1..]);
    }
  }

  /** In a successful cycle whose stored status is the sentence for a
      documented submission, a message goes out exactly when the list became
      empty or its first submission's (status, name) changed. */
  lemma NotifiesIffVerdictChanged(s: PollState, c: Cycle, previous: Homework)
    requires "status" in previous && previous["status"] in VERDICTS
    requires s.status == Text(ParseStatus(previous).value)
    requires Poll(c.reply).Ok?
    ensures |Apply(s, Observe(c)).outbox| == |s.outbox| + 1 <==>
      var response := GetApiAnswer(c.reply).value;
      response.homeworks == List([]) || ReadingOf(response.homeworks.items[0]) != ReadingOf(previous)
  {
    var response := GetApiAnswer(c.reply).value;
    ParseStatusWritesSentence(previous);
    if Poll(c.reply).value.Text? {
      ValidatedTextIsVerdict(response);
      var first := response.homeworks.items[0];
      ParseStatusWritesSentence(first);
      SentenceInjective(ReadingOf(first), ReadingOf(previous));
    }
  }

  /** The loop's own state, updated in place. */
  class Poller {
    var status: Status
    var currentTimestamp: int
    var outbox: seq<Status>
    var queries: seq<int>

    function State(): PollState
      reads this
    {
      PollState(status, currentTimestamp, outbox, queries)
    }

    /** Start-up: the cursor is the clock reading, and nothing has been
        sent or asked yet. */
    constructor (now: int)
      ensures State() == Initial(now)
    {
      status := Text(INITIAL_STATUS);
      currentTimestamp := now;
      outbox := [];
      queries := [];
    }

    /** `send_message`: hands the message to the messaging client. Every
        failure of the client is caught and logged, so the call always
        returns normally and changes nothing else. */
    method SendMessage(message: Status)
      modifies this
      ensures outbox == old(outbox) + [message]
      ensures status == old(status) && currentTimestamp == old(currentTimestamp) && queries == old(queries)
    {
      outbox := outbox + [message];
    }

    /** One pass of the `while True` body. */
    method Step(c: Cycle)
      modifies this
      ensures State() == Apply(old(State()), Observe(c))
    {
      queries := queries + [currentTimestamp];
      var response := GetApiAnswer(c.reply);
      var checked := if response.Ok? then CheckResponse(response.value) else Err(response.error);
      match checked
      case Ok(newStatus) =>
        if newStatus != status {
          SendMessage(newStatus);
          status := newStatus;
        }
        currentTimestamp := c.now;
      case Err(e) =>
        var message := FAILURE_PREFIX + ErrorText(e);
        SendMessage(Text(message));
    }

    /** The loop over a finite sequence of cycles. */
    method RunCycles(cycles: seq<Cycle>)
      modifies this
      ensures State() == Run(old(State()), ObserveAll(cycles))
    {
      ghost var obs := ObserveAll(cycles);
      var i := 0;
      while i < |cycles|
        invariant 0 <= i <= |cycles|
        invariant Run(State(), obs[i..]) == Run(old(State()), obs)
      {
        assert obs[i..][0] == Observe(cycles[i]) && obs[i..][1..] == obs[i + 1..];
        Step(cycles[i]);
        i := i + 1;
      }
    }
  }
}
