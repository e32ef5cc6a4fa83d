/**
 * The `main` loop of the bot: one poll cycle as a state transition over
 * `current_timestamp`, `previous_message` and `message`, with the fetched
 * reply, the wall clock and the outcome of the chat send as inputs.
 */
module Poller {
  import opened Wrappers
  import opened Json
  import opened Homework

  /**
   * The loop's local variables. `message` is `None` while it has never been
   * assigned: reading it then raises UnboundLocalError.
   */
  datatype PollState = PollState(timestamp: Json, previous: string, message: Option<string>)

  /** How a cycle ended: the text a send was attempted with, if any; or the crash. */
  datatype CycleResult = Completed(sent: Option<string>) | Crashed

  /** The state `main` enters the loop with, given the clock reading at startup. */
  function Initial(clock: int): (s: PollState)
    ensures s.timestamp == JInt(clock) && s.previous == "" && s.message.None?
  {
    PollState(JInt(clock), "", None)
  }

  /** `get_api_answer` followed by `check_response`: the answer and its homework list. */
  function FetchAndCheck(reply: Reply, req: Request): (r: Result<(Json, seq<Json>), Failure>)
    ensures r.Ok? ==> reply == Answered(HTTP_OK, Parsed(r.value.0)) && WellFormedAnswer(r.value.0)
                      && r.value.0.fields["homeworks"] == JArr(r.value.1)
    // the fetch and the check never raise KeyError, nor the ValueError of an unknown status
    ensures r.Err? ==> r.error.KindOf() != KeyErrorKind && !r.error.UnknownStatus?
  {
    match GetApiAnswer(reply, req)
    case Err(e) => Err(e)
    case Ok(answer) =>
      match CheckResponse(answer)
      case Err(e) => Err(e)
      case Ok(homeworks) => Ok((answer, homeworks))
  }

  /** `response.get('current_date', int(time.time()))` for a checked answer. */
  function NextTimestamp(answer: Json, clock: int): (t: Json)
    requires answer.JObj?
    ensures "current_date" in answer.fields ==> t == answer.fields["current_date"]
    ensures "current_date" !in answer.fields ==> t == JInt(clock)
  {
    if "current_date" in answer.fields then answer.fields["current_date"] else JInt(clock)
  }

  /**
   * The `try`/`except` part of a cycle. After a successful fetch and check,
   * `previous_message` is cleared and the timestamp advanced BEFORE the first
   * homework is translated, so a translation failure keeps both changes.
   * An empty homework list leaves `message` as it was.
   */
  function AfterTry(s: PollState, token: string, reply: Reply, clock: int): (r: PollState)
    // a failure is caught: only `message` changes, and it is assigned
    ensures FetchAndCheck(reply, Request(token, s.timestamp)).Err? ==>
      r.timestamp == s.timestamp && r.previous == s.previous && r.message.Some?
    // a success clears the remembered message and advances the timestamp
    ensures FetchAndCheck(reply, Request(token, s.timestamp)).Ok? ==>
      r.previous == "" && r.timestamp == NextTimestamp(FetchAndCheck(reply, Request(token, s.timestamp)).value.0, clock)
    // `message` stays unassigned only on an empty homework list
    ensures r.message.None? <==>
      (s.message.None? && FetchAndCheck(reply, Request(token, s.timestamp)).Ok?
       && |FetchAndCheck(reply, Request(token, s.timestamp)).value.1| == 0)
  {
    match FetchAndCheck(reply, Request(token, s.timestamp))
    case Err(e) => s.(message := Some(FailureMessage(e)))
    case Ok((answer, homeworks)) =>
      var cleared := s.(previous := "", timestamp := NextTimestamp(answer, clock));
      if |homeworks| == 0 then cleared
      else
        match ParseStatus(homeworks[0])
        case Ok(m) => cleared.(message := Some(m))
        case Err(e) => cleared.(message := Some(FailureMessage(e)))
  }

  /**
   * The `finally` part: with `message` unbound the cycle crashes; otherwise
   * a non-empty message that differs from `previous_message` is sent, and
   * becomes `previous_message` only when the send reports success.
   */
  function Deliver(s: PollState, sendOk: bool): (r: (PollState, CycleResult))
    ensures r.1.Crashed? <==> s.message.None?
    ensures r.0.timestamp == s.timestamp && r.0.message == s.message
    ensures r.1 == Completed(None) <==> s.message.Some? && (s.message.value == "" || s.message.value == s.previous)
    ensures r.1.Completed? && r.1.sent.Some? ==>
      s.message == Some(r.1.sent.value) && r.1.sent.value != "" && r.1.sent.value != s.previous
    // the remembered message changes only through a successful send
    ensures r.0.previous != s.previous <==> r.1.Completed? && r.1.sent.Some? && sendOk
    ensures r.0.previous != s.previous ==> r.0.previous == r.1.sent.value
  {
    match s.message
    case None => (s, Crashed)
    case Some(m) =>
      if m != "" && m != s.previous then
        (if sendOk then s.(previous := m) else s, Completed(Some(m)))
      else (s, Completed(None))
  }

  /** One iteration of `while True` in `main`, without the sleep. */
  function Cycle(s: PollState, token: string, reply: Reply, clock: int, sendOk: bool): (PollState, CycleResult)
  {
    Deliver(AfterTry(s, token, reply, clock), sendOk)
  }

  /**
   * A cycle crashes exactly when `message` was never assigned and the
   * homework list is empty, and the timestamp moves only after a successful
   * fetch and check.
   */
  lemma CycleCrashes(s: PollState, token: string, reply: Reply, clock: int, sendOk: bool)
    ensures var (next, r) := Cycle(s, token, reply, clock, sendOk);
      var f := FetchAndCheck(reply, Request(token, s.timestamp));
      (r.Crashed? <==> s.message.None? && f.Ok? && |f.value.1| == 0)
      && (next.timestamp != s.timestamp ==> f.Ok?)
  {
  }

  /** The inputs of one cycle: what the fetch returned, the clock, what the send would report. */
  datatype CycleInput = CycleInput(reply: Reply, clock: int, sendOk: bool)

  /** The results of running cycles over `inputs` from `s`, stopping at the first crash. */
  function Replay(s: PollState, token: string, inputs: seq<CycleInput>): (rs: seq<CycleResult>)
    ensures |rs| <= |inputs|
    decreases 2 * |inputs|
  {
    if inputs == [] then []
    else ReplayFrom(Cycle(s, token, inputs[0].reply, inputs[0].clock, inputs[0].sendOk), token, inputs[1..])
  }

  /** The results of a run whose first cycle ended in `first`, with `rest` still to come. */
  function ReplayFrom(first: (PollState, CycleResult), token: string, rest: seq<CycleInput>): (rs: seq<CycleResult>)
    ensures 0 < |rs| <= |rest| + 1
    decreases 2 * |rest| + 1
  {
    if first.1.Crashed? then [first.1] else [first.1] + Replay(first.0, token, rest)
  }

  /** The first cycle of a run, and the rest of the run from the state it leaves. */
  lemma ReplayFirst(s: PollState, token: string, inputs: seq<CycleInput>, next: PollState, r: CycleResult)
    requires inputs != []
    requires (next, r) == Cycle(s, token, inputs[0].reply, inputs[0].clock, inputs[0].sendOk)
    ensures Replay(s, token, inputs) == if r.Crashed? then [r] else [r] + Replay(next, token, inputs[1..])
  {
  }

  /** Every result but the last completed, and a run shorter than `n` inputs ended in a crash. */
  predicate StopsAtCrash(rs: seq<CycleResult>, n: nat) {
    (forall k :: 0 <= k < |rs| - 1 ==> rs[k].Completed?)
    && (|rs| < n ==> |rs| > 0 && rs[|rs| - 1].Crashed?)
  }

  lemma ConsStopsAtCrash(r: CycleResult, tail: seq<CycleResult>, n: nat)
    requires r.Completed? && StopsAtCrash(tail, n)
    ensures StopsAtCrash([r] + tail, n + 1)
  {
    var rs := [r] + tail;
    forall k | 0 <= k < |rs| - 1
      ensures rs[k].Completed?
    {
      if k > 0 {
        assert rs[k] == tail[k - 1];
      }
    }
    if |rs| < n + 1 {
      assert rs[|rs| - 1] == tail[|tail| - 1];
    }
  }

  /** A run stops only at a crash, and a crash is always its last result. */
  lemma {:induction false} ReplayStopsAtCrash(s: PollState, token: string, inputs: seq<CycleInput>)
    ensures StopsAtCrash(Replay(s, token, inputs), |inputs|)
    decreases 2 * |inputs|
  {
    if inputs != [] {
      ReplayFromStopsAtCrash(Cycle(s, token, inputs[0].reply, inputs[0].clock, inputs[0].sendOk), token, inputs[1..]);
    }
  }

  lemma {:induction false} ReplayFromStopsAtCrash(first: (PollState, CycleResult), token: string, rest: seq<CycleInput>)
    ensures StopsAtCrash(ReplayFrom(first, token, rest), |rest| + 1)
    decreases 2 * |rest| + 1
  {
    if first.1.Completed? {
      ReplayStopsAtCrash(first.0, token, rest);
      ConsStopsAtCrash(first.1, Replay(first.0, token, rest), |rest|);
    }
  }

  /** One more cycle of a run whose first `i` results are `results`: a crash ends it, a completion extends it. */
  lemma ReplayStep(start: PollState, token: string, inputs: seq<CycleInput>, i: nat, results: seq<CycleResult>,
                   s: PollState, next: PollState, r: CycleResult)
    requires i < |inputs|
    requires results + Replay(s, token, inputs[i..]) == Replay(start, token, inputs)
    requires (next, r) == Cycle(s, token, inputs[i].reply, inputs[i].clock, inputs[i].sendOk)
    ensures r.Crashed? ==> results + [r] == Replay(start, token, inputs)
    ensures r.Completed? ==> (results + [r]) + Replay(next, token, inputs[i + 1..]) == Replay(start, token, inputs)
  {
    var remaining := inputs[i..];
    assert remaining[0] == inputs[i] && remaining[1..] == inputs[i + 1..];
    ReplayFirst(s, token, remaining, next, r);
    if r.Completed? {
      var later := Replay(next, token, inputs[i + 1..]);
      assert (results + [r]) + later == results + ([r] + later);
    }
  }

  /** The poll loop's state, held in the fields `main` reassigns. */
  class PollLoop {
    const practicumToken: string
    var currentTimestamp: Json
    var previousMessage: string
    var message: Option<string>

    function State(): PollState
      reads this
    {
      PollState(currentTimestamp, previousMessage, message)
    }

    /** Entering the loop: the timestamp is the startup clock, nothing remembered, no message yet. */
    constructor (practicumToken: string, clock: int)
      ensures this.practicumToken == practicumToken
      ensures State() == Initial(clock)
    {
      this.practicumToken := practicumToken;
      currentTimestamp := JInt(clock);
      previousMessage := "";
      message := None;
    }

    /** One pass of the loop body: fetch, check, translate, then the `finally` delivery. */
    method Step(reply: Reply, clock: int, sendOk: bool) returns (result: CycleResult)
      modifies this
      ensures (State(), result) == Cycle(old(State()), practicumToken, reply, clock, sendOk)
    {
      var request := Request(practicumToken, currentTimestamp);
      var fetched := GetApiAnswer(reply, request);
      var checked: Result<seq<Json>, Failure> := if fetched.Ok? then CheckResponse(fetched.value) else Err(fetched.error);
      if checked.Err? {
        message := Some(FailureMessage(checked.error));
      } else {
        previousMessage := "";
        currentTimestamp := NextTimestamp(fetched.value, clock);
        var homeworks := checked.value;
        if |homeworks| > 0 {
          var parsed := ParseStatus(homeworks[0]);
          message := Some(if parsed.Ok? then parsed.value else FailureMessage(parsed.error));
        }
      }
      // finally
      if message.None? {
        result := Crashed;
      } else if message.value != "" && message.value != previousMessage {
        if sendOk {
          previousMessage := message.value;
        }
        result := Completed(Some(message.value));
      } else {
        result := Completed(None);
      }
    }
  }

  /** How `main` ended: refused at startup, or the results of the cycles it ran. */
  datatype RunOutcome = StartupRefused | Ran(results: seq<CycleResult>)

  /**
   * `main` over a finite run of cycles: with a credential missing it raises
   * before any request is made; otherwise it loops until the inputs run out
   * or a cycle crashes.
   */
  method Run(tokens: Tokens, startClock: int, inputs: seq<CycleInput>) returns (outcome: RunOutcome)
    ensures outcome.StartupRefused? <==> !CheckTokens(tokens)
    ensures outcome.Ran? ==> outcome.results == Replay(Initial(startClock), tokens.practicum.value, inputs)
  {
    if !CheckTokens(tokens) {
      return StartupRefused;
    }
    var loop := new PollLoop(tokens.practicum.value, startClock);
    var results: seq<CycleResult> := [];
    var i := 0;
    while i < |inputs|
      invariant 0 <= i <= |inputs|
      invariant loop.practicumToken == tokens.practicum.value
      invariant results + Replay(loop.State(), loop.practicumToken, inputs[i..])
             == Replay(Initial(startClock), tokens.practicum.value, inputs)
      decreases |inputs| - i
    {
      ghost var before := loop.State();
      var r := loop.Step(inputs[i].reply, inputs[i].clock, inputs[i].sendOk);
      ReplayStep(Initial(startClock), loop.practicumToken, inputs, i, results, before, loop.State(), r);
      if r.Crashed? {
        return Ran(results + [r]);
      }
      results := results + [r];
      i := i + 1;
    }
    assert inputs[i..] == [];
    return Ran(results);
  }

  // -----------------------------------------------------------------------
  // Properties of one cycle
  // -----------------------------------------------------------------------

  /** A fetch or check failure leaves the timestamp and the remembered message alone and sets the failure text. */
  lemma FetchFailureKeepsTimestamp(s: PollState, token: string, reply: Reply, clock: int, sendOk: bool)
    requires FetchAndCheck(reply, Request(token, s.timestamp)).Err?
    ensures var (next, r) := Cycle(s, token, reply, clock, sendOk);
      var m := FailureMessage(FetchAndCheck(reply, Request(token, s.timestamp)).error);
      next.timestamp == s.timestamp && next.message == Some(m)
      && r == (if m != s.previous then Completed(Some(m)) else Completed(None))
      && next.previous == (if m != s.previous && sendOk then m else s.previous)
  {
  }

  /**
   * A successful fetch and check: the timestamp becomes `current_date` or
   * the clock, and `previous_message` ends up either cleared or equal to a
   * message that was just sent.
   */
  lemma SuccessAdvancesTimestamp(s: PollState, token: string, reply: Reply, clock: int, sendOk: bool)
    requires FetchAndCheck(reply, Request(token, s.timestamp)).Ok?
    ensures var (answer, _) := FetchAndCheck(reply, Request(token, s.timestamp)).value;
      var (next, r) := Cycle(s, token, reply, clock, sendOk);
      next.timestamp == (if "current_date" in answer.fields then answer.fields["current_date"] else JInt(clock))
      && (next.previous == "" || (r.Completed? && r.sent == Some(next.previous) && sendOk))
  {
  }

  /** Only the first homework of the list is translated: the rest never affect the cycle. */
  lemma OnlyFirstHomework(s: PollState, token: string, fields: map<string, Json>, first: Json,
                          rest1: seq<Json>, rest2: seq<Json>, clock: int, sendOk: bool)
    requires "error" !in fields && "code" !in fields
    ensures var reply1 := Answered(HTTP_OK, Parsed(JObj(fields["homeworks" := JArr([first] + rest1)])));
      var reply2 := Answered(HTTP_OK, Parsed(JObj(fields["homeworks" := JArr([first] + rest2)])));
      Cycle(s, token, reply1, clock, sendOk) == Cycle(s, token, reply2, clock, sendOk)
  {
    var req := Request(token, s.timestamp);
    var body1 := JObj(fields["homeworks" := JArr([first] + rest1)]);
    var body2 := JObj(fields["homeworks" := JArr([first] + rest2)]);
    assert GetApiAnswer(Answered(HTTP_OK, Parsed(body1)), req) == Ok(body1);
    assert GetApiAnswer(Answered(HTTP_OK, Parsed(body2)), req) == Ok(body2);
    assert NextTimestamp(body1, clock) == NextTimestamp(body2, clock);
  }

  /**
   * Identical consecutive fetch failures are announced once: after the
   * failure text was sent successfully, the same reply (the request is the
   * same, since the timestamp did not move) sends nothing.
   */
  lemma RepeatedFetchFailureSuppressed(s: PollState, token: string, reply: Reply,
                                       clock1: int, clock2: int, sendOk2: bool)
    requires FetchAndCheck(reply, Request(token, s.timestamp)).Err?
    ensures var (s1, _) := Cycle(s, token, reply, clock1, true);
      Cycle(s1, token, reply, clock2, sendOk2).1 == Completed(None)
  {
  }

  /** Whether a fetch succeeds, and what it yields, does not depend on the request. */
  lemma FetchSuccessIgnoresRequest(reply: Reply, req1: Request, req2: Request)
    requires FetchAndCheck(reply, req1).Ok?
    ensures FetchAndCheck(reply, req2) == FetchAndCheck(reply, req1)
  {
    assert GetApiAnswer(reply, req1) == GetApiAnswer(reply, req2);
  }

  /** The reply, fetched with `req`, passes the check and its first homework reads as `m`. */
  predicate Announces(reply: Reply, req: Request, m: string) {
    var f := FetchAndCheck(reply, req);
    f.Ok? && |f.value.1| > 0 && ParseStatus(f.value.1[0]) == Ok(m)
  }

  /**
   * Identical consecutive status messages are NOT suppressed: two replies
   * whose first homework reads the same are both announced, whatever the
   * sends report and whatever the timestamp became, because each
   * successful check clears `previous_message`.
   */
  lemma RepeatedStatusResent(s: PollState, token: string, reply1: Reply, reply2: Reply, req2: Request,
                             m: string, clock1: int, clock2: int, sendOk1: bool, sendOk2: bool)
    requires Announces(reply1, Request(token, s.timestamp), m)
    requires Announces(reply2, req2, m)
    ensures var (s1, r1) := Cycle(s, token, reply1, clock1, sendOk1);
      r1 == Completed(Some(m)) && Cycle(s1, token, reply2, clock2, sendOk2).1 == Completed(Some(m))
  {
    var (s1, r1) := Cycle(s, token, reply1, clock1, sendOk1);
    FetchSuccessIgnoresRequest(reply2, req2, Request(token, s1.timestamp));
  }

  /**
   * A translation failure is not suppressed either: it happens after
   * `previous_message` was cleared, so an unknown status in consecutive
   * replies is announced in every cycle.
   */
  lemma RepeatedUnknownStatusResent(s: PollState, token: string, reply: Reply, clock: int)
    requires FetchAndCheck(reply, Request(token, s.timestamp)).Ok?
    requires var (_, homeworks) := FetchAndCheck(reply, Request(token, s.timestamp)).value;
      |homeworks| > 0 && ParseStatus(homeworks[0]).Err?
    ensures var (s1, r1) := Cycle(s, token, reply, clock, true);
      var f := ParseStatus(FetchAndCheck(reply, Request(token, s.timestamp)).value.1[0]).error;
      r1 == Completed(Some(FailureMessage(f))) && s1.previous == FailureMessage(f)
  {
  }

  // -----------------------------------------------------------------------
  // Findings: the loop as written, and as evidently intended
  // -----------------------------------------------------------------------

  /** A dict with no `error` or `code` key whose `homeworks` is the empty list. */
  predicate NoNews(reply: Reply) {
    reply.Answered? && reply.status == HTTP_OK && reply.body.Parsed? && reply.body.json.JObj?
    && "error" !in reply.body.json.fields && "code" !in reply.body.json.fields
    && "homeworks" in reply.body.json.fields && reply.body.json.fields["homeworks"] == JArr([])
  }

  /**
   * As written, the first cycle crashes when its reply has no homeworks:
   * `message` was never assigned and the `finally` block reads it.
   */
  lemma FirstQuietCycleCrashes(token: string, startClock: int, reply: Reply, clock: int, sendOk: bool)
    requires NoNews(reply)
    ensures Cycle(Initial(startClock), token, reply, clock, sendOk).1 == Crashed
  {
  }

  /**
   * As written, the last message is sent again in every later cycle whose
   * reply has no homeworks: `previous_message` is cleared while the stale
   * `message` is kept.
   */
  lemma QuietCycleResendsStaleMessage(s: PollState, token: string, reply: Reply, clock: int, sendOk: bool)
    requires NoNews(reply)
    requires s.message.Some? && s.message.value != ""
    ensures Cycle(s, token, reply, clock, sendOk).1 == Completed(s.message)
  {
  }

  /** A reply carrying one approved homework `proj1` and a `current_date`. */
  const APPROVED_REPLY: Reply :=
    Answered(HTTP_OK, Parsed(JObj(map[
      "homeworks" := JArr([JObj(map["homework_name" := JStr("proj1"), "status" := JStr("approved")])]),
      "current_date" := JInt(1700000100)])))

  /** A reply with an empty homework list. */
  const QUIET_REPLY: Reply := Answered(HTTP_OK, Parsed(JObj(map["homeworks" := JArr([])])))

  /** The message announcing that `proj1` was approved. */
  const APPROVED_MESSAGE: string := STATUS_HEAD + "proj1" + "\". " + APPROVED

  /** The approved reply announces `proj1` with the approval verdict, whatever the request. */
  lemma ApprovedAnnounces(req: Request)
    ensures Announces(APPROVED_REPLY, req, APPROVED_MESSAGE)
  {
    var hw := JObj(map["homework_name" := JStr("proj1"), "status" := JStr("approved")]);
    assert ParseStatus(hw) == Ok(APPROVED_MESSAGE);
    assert GetApiAnswer(APPROVED_REPLY, req) == Ok(APPROVED_REPLY.body.json);
    assert FetchAndCheck(APPROVED_REPLY, req) == Ok((APPROVED_REPLY.body.json, [hw]));
  }

  /**
   * From the start, the approved reply announces `proj1` with the approval
   * verdict, and the timestamp becomes the answer's `current_date`.
   */
  lemma ApprovedFirstCycle(token: string, startClock: int, clock: int)
    ensures Cycle(Initial(startClock), token, APPROVED_REPLY, clock, true)
         == (PollState(JInt(1700000100), APPROVED_MESSAGE, Some(APPROVED_MESSAGE)), Completed(Some(APPROVED_MESSAGE)))
  {
    ApprovedAnnounces(Request(token, JInt(startClock)));
  }

  /**
   * Both findings in one run: a status announcement followed by a reply
   * with no homeworks sends the announcement twice, whatever the sends report.
   */
  lemma AnnouncementSentTwice(s: PollState, token: string, reply1: Reply, reply2: Reply, m: string,
                              clock1: int, clock2: int, sendOk1: bool, sendOk2: bool)
    requires Announces(reply1, Request(token, s.timestamp), m)
    requires NoNews(reply2)
    ensures Replay(s, token, [CycleInput(reply1, clock1, sendOk1), CycleInput(reply2, clock2, sendOk2)])
         == [Completed(Some(m)), Completed(Some(m))]
  {
    var inputs := [CycleInput(reply1, clock1, sendOk1), CycleInput(reply2, clock2, sendOk2)];
    var (s1, r1) := Cycle(s, token, reply1, clock1, sendOk1);
    assert r1 == Completed(Some(m)) && s1.message == Some(m);
    QuietCycleResendsStaleMessage(s1, token, reply2, clock2, sendOk2);
    var (s2, r2) := Cycle(s1, token, reply2, clock2, sendOk2);
    ReplayFirst(s, token, inputs, s1, r1);
    assert inputs[1..] == [CycleInput(reply2, clock2, sendOk2)] && inputs[1..][1..] == [];
    ReplayFirst(s1, token, inputs[1..], s2, r2);
  }

  /** The two findings on a concrete run: the approval, then a quiet reply, sends the approval twice. */
  lemma ApprovalSentTwice(token: string, startClock: int)
    ensures Replay(Initial(startClock), token, [CycleInput(APPROVED_REPLY, 0, true), CycleInput(QUIET_REPLY, 0, true)])
         == [Completed(Some(APPROVED_MESSAGE)), Completed(Some(APPROVED_MESSAGE))]
  {
    ApprovedAnnounces(Request(token, JInt(startClock)));
    assert NoNews(QUIET_REPLY);
    AnnouncementSentTwice(Initial(startClock), token, APPROVED_REPLY, QUIET_REPLY, APPROVED_MESSAGE, 0, 0, true, true);
  }

  /** The try part as evidently intended: a reply with no homeworks leaves nothing to send. */
  function AfterTryIntended(s: PollState, token: string, reply: Reply, clock: int): PollState {
    match FetchAndCheck(reply, Request(token, s.timestamp))
    case Err(e) => s.(message := Some(FailureMessage(e)))
    case Ok((answer, homeworks)) =>
      var cleared := s.(previous := "", timestamp := NextTimestamp(answer, clock));
      if |homeworks| == 0 then cleared.(message := Some(""))
      else
        match ParseStatus(homeworks[0])
        case Ok(m) => cleared.(message := Some(m))
        case Err(e) => cleared.(message := Some(FailureMessage(e)))
  }

  /** A cycle as evidently intended. */
  function CycleIntended(s: PollState, token: string, reply: Reply, clock: int, sendOk: bool): (r: (PollState, CycleResult))
    // never crashes
    ensures r.1.Completed?
    // a quiet reply sends nothing
    ensures NoNews(reply) ==> r.1 == Completed(None)
  {
    Deliver(AfterTryIntended(s, token, reply, clock), sendOk)
  }

  /**
   * The intended cycle differs from the code as written only on a reply
   * with an empty homework list: in every other case it does exactly what
   * the code as written does.
   */
  lemma IntendedCycleCorrect(s: PollState, token: string, reply: Reply, clock: int, sendOk: bool)
    ensures var f := FetchAndCheck(reply, Request(token, s.timestamp));
      (f.Err? || |f.value.1| > 0) ==> CycleIntended(s, token, reply, clock, sendOk) == Cycle(s, token, reply, clock, sendOk)
  {
  }
}
