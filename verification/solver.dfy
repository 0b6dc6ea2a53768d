/** The solve/verify/fix orchestrator: one session asks the solver for a
    candidate, has the verifier judge it, and while the verdict is not "pass"
    and the iteration budget lasts, has the fixer revise the candidate from the
    verifier's bug report. The language model is an oracle: the i-th model call
    of a session returns `replies[i]`, what `call_llm` made of the i-th reply
    (CallLlm); a call past the end of `replies` is a transport failure. */
module Solver {
  import opened JsonValue
  import opened Extractor
  import opened Prompts

  /** The three roles a model call can play. */
  datatype Stage = Solve | Verify | Fix

  /** One model call as issued: its role and the records passed into it (the
      candidate to verify or revise, the bug report to revise it by; Null where
      the role takes none). The messages it sends are given by Messages. */
  datatype Call = Call(stage: Stage, candidate: Json, report: Json)

  /** Why one model call produced no record. */
  datatype CallError = GatewayError | MalformedOutput(cause: ExtractError)

  /** Why a session ended without a result: a task type outside the closed set
      (rejected before any call), a failed model call, or a verifier reply that
      is not an object (`.get` on it raises). */
  datatype SolveError = InvalidTaskType | CallFailed(err: CallError) | ReportNotObject

  /** The session's result record. */
  datatype SolveResult = SolveResult(ok: bool, finalAnswer: Json, iters: int)

  /** The model, system message and user message a call sends. */
  function Messages(problem: string, taskType: string, codec: Codec, call: Call): (string, string, string)
    requires taskType in SolverFewShot
  {
    match call.stage
    case Solve => (SolverModel, SolverSystem, SolverUser(taskType, SolverFewShot[taskType], problem))
    case Verify => (VerifierModel, VerifierSystem, VerifierUser(problem, codec.serialize(call.candidate)))
    case Fix => (FixerModel, FixerSystem,
                 FixerUser(problem, codec.serialize(call.candidate), codec.serialize(call.report)))
  }

  /** `call_llm` on the reply text the model service sent back (None when the
      transport failed): the record extracted from it, or why there is none. */
  function CallLlm(codec: Codec, reply: Option<string>): Result<Json, CallError>
  {
    match reply
    case None => Failure(GatewayError)
    case Some(text) =>
      match ExtractJson(text, codec.parse)
      case Success(v) => Success(v)
      case Failure(e) => Failure(MalformedOutput(e))
  }

  /** With a conforming parser every record a call returns is an object, and a
      call fails exactly when the transport failed or extraction failed. */
  lemma CallLlmObject(codec: Codec, reply: Option<string>)
    requires SaneParser(codec.parse)
    ensures CallLlm(codec, reply).Success? ==> CallLlm(codec, reply).value.Obj?
    ensures CallLlm(codec, reply).Success? <==> reply.Some? && ExtractJson(reply.value, codec.parse).Success?
  {
    if reply.Some? && ExtractJson(reply.value, codec.parse).Success? {
      ExtractYieldsObject(reply.value, codec.parse);
    }
  }

  /** What the i-th model call of the session returns: `replies[i]`, the result of
      CallLlm on the i-th reply; a call past the end of the replies fails. */
  function CallOutcome(replies: seq<Result<Json, CallError>>, i: nat): Result<Json, CallError>
  {
    if i < |replies| then replies[i] else Failure(GatewayError)
  }

  /** The record the i-th call returned (Null when it failed). */
  function Reply(replies: seq<Result<Json, CallError>>, i: nat): Json
  {
    match CallOutcome(replies, i)
    case Success(v) => v
    case Failure(_) => Null
  }

  /** ASCII lower-casing of one character. */
  function LowerChar(c: char): char
  {
    if 'A' <= c <= 'Z' then (c as int + 32) as char else c
  }

  /** ASCII lower-casing of a string, character by character. */
  function AsciiLower(s: string): (r: string)
    ensures |r| == |s|
    ensures forall i :: 0 <= i < |s| ==> r[i] == LowerChar(s[i])
  {
    if |s| == 0 then "" else [LowerChar(s[0])] + AsciiLower(s[1..])
  }

  /** The verdict as the loop compares it: the `verdict` field lower-cased, "fail"
      when the field is absent. A verdict that is not a string gives None: its
      Python `str()` ("True", "None", a number, a list, an object) is never "pass". */
  function NormalisedVerdict(report: map<string, Json>): Option<string>
  {
    if "verdict" !in report then Some("fail")  // the default, already lower case
    else match report["verdict"]
    case Str(s) => Some(AsciiLower(s))
    case _ => None
  }

  predicate Passes(report: map<string, Json>)
  {
    NormalisedVerdict(report) == Some("pass")
  }

  /** "pass" in any mix of upper and lower case. */
  predicate SpellsPass(s: string)
  {
    |s| == 4 && (s[0] == 'p' || s[0] == 'P') && (s[1] == 'a' || s[1] == 'A')
    && (s[2] == 's' || s[2] == 'S') && (s[3] == 's' || s[3] == 'S')
  }

  /** A report passes exactly when its verdict is present, is a string, and reads
      "pass" ignoring case; a missing verdict never passes. */
  lemma PassesIff(report: map<string, Json>)
    ensures Passes(report) <==>
              "verdict" in report && report["verdict"].Str? && SpellsPass(report["verdict"].s)
    ensures "verdict" !in report ==> !Passes(report)
  {
    if "verdict" in report && report["verdict"].Str? {
      var s := report["verdict"].s;
      var l := AsciiLower(s);
      if SpellsPass(s) {
        assert l == "pass";
      }
      if l == "pass" {
        assert l[0] == 'p' && l[1] == 'a' && l[2] == 's' && l[3] == 's';
      }
    } else if "verdict" !in report {
      assert AsciiLower("fail")[0] == 'f';
    }
  }

  /** A verifier record that ends the session successfully. */
  predicate Accepts(report: Json)
  {
    report.Obj? && Passes(report.fields)
  }

  /** A verifier record that sends the session on to the next iteration. */
  predicate Rejects(report: Json)
  {
    report.Obj? && !Passes(report.fields)
  }

  /** The iteration budget as a count: `range(1, max_iters + 1)` is empty below 1. */
  function Budget(maxIters: int): nat
  {
    if maxIters < 0 then 0 else maxIters
  }

  /** The i-th model call the session issues, given what the calls before it
      returned. Even calls produce a candidate: the solver while there is no
      candidate (the previous one is Null), otherwise the fixer, fed the previous
      candidate and report. Odd calls verify the candidate just produced. */
  function ExpectedCall(replies: seq<Result<Json, CallError>>, i: nat): Call
  {
    if i % 2 == 0 then
      var previous := if i == 0 then Null else Reply(replies, i - 2);
      if previous == Null then Call(Solve, Null, Null)
      else Call(Fix, previous, Reply(replies, i - 1))
    else
      Call(Verify, Reply(replies, i - 1), Null)
  }

  /** The answer a session that ran out of budget reports: the last candidate,
      or `{}` when it has none (or a falsy one). */
  function LastCandidate(replies: seq<Result<Json, CallError>>, callCount: nat): Json
  {
    if callCount < 2 then Obj(map[]) else OrEmpty(Reply(replies, callCount - 2))
  }

  /** The calls follow ExpectedCall, one by one. */
  ghost predicate FollowsProtocol(replies: seq<Result<Json, CallError>>, calls: seq<Call>)
  {
    forall i :: 0 <= i < |calls| ==> calls[i] == ExpectedCall(replies, i)
  }

  /** The first `n` calls all returned a record, and every verifier report among
      them rejected its candidate. */
  ghost predicate RejectedSoFar(replies: seq<Result<Json, CallError>>, n: int)
  {
    (forall i :: 0 <= i < n ==> CallOutcome(replies, i).Success?)
    && (forall i :: 0 <= i < n && i % 2 == 1 ==> Rejects(Reply(replies, i)))
  }

  /** How a session that made `n` calls ends; only the last call decides. */
  ghost predicate Ending(maxIters: int, replies: seq<Result<Json, CallError>>,
                         r: Result<SolveResult, SolveError>, n: nat)
  {
    match r
    case Failure(InvalidTaskType) => false
    case Failure(CallFailed(e)) => n > 0 && CallOutcome(replies, n - 1) == Failure(e)
    case Failure(ReportNotObject) =>
      n > 0 && n % 2 == 0 && CallOutcome(replies, n - 1).Success?
      && !Reply(replies, n - 1).Obj?
    case Success(res) =>
      n % 2 == 0 && (n > 0 ==> CallOutcome(replies, n - 1).Success?)
      && if res.ok then
           n > 0 && res.iters == n / 2 && Accepts(Reply(replies, n - 1))
           && res.finalAnswer == Reply(replies, n - 2)
         else
           n == 2 * Budget(maxIters) && res.iters == maxIters
           && (n > 0 ==> Rejects(Reply(replies, n - 1)))
           && res.finalAnswer == LastCandidate(replies, n)
  }

  /** How a session with these inputs may end, and which calls it made: the
      calls follow ExpectedCall, every call but the last returned a record,
      every verifier report but the last rejected, and the last call decides
      the end. */
  ghost predicate SessionOutcome(taskType: string, maxIters: int, replies: seq<Result<Json, CallError>>,
                                 r: Result<SolveResult, SolveError>, calls: seq<Call>)
  {
    if taskType !in TaskTypes then r == Failure(InvalidTaskType) && calls == []
    else
      |calls| <= 2 * Budget(maxIters)
      && FollowsProtocol(replies, calls)
      && RejectedSoFar(replies, |calls| - 1)
      && Ending(maxIters, replies, r, |calls|)
  }

  /** Proof step of `Iterate`: appending the call the protocol prescribes next
      keeps the calls on protocol. */
  lemma ExtendProtocol(replies: seq<Result<Json, CallError>>, calls: seq<Call>, next: Call)
    requires FollowsProtocol(replies, calls)
    requires next == ExpectedCall(replies, |calls|)
    ensures FollowsProtocol(replies, calls + [next])
  {
    var extended := calls + [next];
    forall i | 0 <= i < |extended|
      ensures extended[i] == ExpectedCall(replies, i)
    {
      if i < |calls| {
        assert extended[i] == calls[i];
      }
    }
  }

  /** Proof step of `Iterate`, unfolding ExpectedCall: the even call `n`
      solves while the previous candidate is Null and otherwise revises that
      candidate by its report. */
  lemma ProducerCallExpected(replies: seq<Result<Json, CallError>>, n: nat, candidate: Json, report: Json)
    requires n % 2 == 0
    requires candidate == if n == 0 then Null else Reply(replies, n - 2)
    requires n > 0 ==> report == Reply(replies, n - 1)
    ensures ExpectedCall(replies, n)
            == if candidate == Null then Call(Solve, Null, Null) else Call(Fix, candidate, report)
  {
  }

  /** Proof step of `Iterate`, unfolding ExpectedCall: the odd call `n + 1`
      verifies the candidate call `n` returned. */
  lemma VerifierCallExpected(replies: seq<Result<Json, CallError>>, n: nat, candidate: Json)
    requires n % 2 == 0
    requires CallOutcome(replies, n) == Success(candidate)
    ensures ExpectedCall(replies, n + 1) == Call(Verify, candidate, Null)
  {
  }

  /** Proof step of `Iterate` and `EarlyPass`, unfolding RejectedSoFar: one
      more returned call (and, for a verifier call, one more rejection). */
  lemma ExtendRejected(replies: seq<Result<Json, CallError>>, n: nat)
    requires RejectedSoFar(replies, n)
    requires CallOutcome(replies, n).Success?
    requires n % 2 == 1 ==> Rejects(Reply(replies, n))
    ensures RejectedSoFar(replies, n + 1)
  {
  }

  /** What one iteration leaves behind: the session goes on with a fresh
      candidate and its rejecting report, or it stops with a result. */
  datatype Step = Continue(candidate: Json, report: Json) | Stop(result: Result<SolveResult, SolveError>)

  /** Iteration `it` of the loop in `solve_one`, after the first `it - 1`
      iterations made the calls in `calls`: one producer call, then one verifier
      call on the candidate it returned, then the verdict. */
  method Iterate(maxIters: int, replies: seq<Result<Json, CallError>>,
                 it: int, candidate: Json, verifierOut: Json, ghost calls: seq<Call>)
    returns (step: Step, ghost after: seq<Call>)
    requires 1 <= it && |calls| == 2 * (it - 1)
    requires FollowsProtocol(replies, calls)
    requires RejectedSoFar(replies, |calls|)
    requires candidate == if |calls| == 0 then Null else Reply(replies, |calls| - 2)
    requires |calls| > 0 ==> verifierOut == Reply(replies, |calls| - 1)
    ensures FollowsProtocol(replies, after)
    ensures step.Continue? ==>
              |after| == |calls| + 2 && RejectedSoFar(replies, |after|)
    ensures step.Stop? ==>
              |calls| < |after| <= |calls| + 2 && RejectedSoFar(replies, |after| - 1)
              && Ending(maxIters, replies, step.result, |after|)
              && (step.result.Success? ==> step.result.value.ok && step.result.value.iters == it)
    ensures step.Continue? ==>
              step.candidate == Reply(replies, 2 * it - 2) && step.report == Reply(replies, 2 * it - 1)
              && Rejects(step.report)
    ensures step.Stop? && step.result.Success? ==>
              step.result.value == SolveResult(true, Reply(replies, 2 * it - 2), it)
              && Accepts(Reply(replies, 2 * it - 1))
  {
    var made := 2 * (it - 1);
    // Produce a candidate: the solver while there is none, the fixer afterwards.
    var producer := if candidate == Null then Call(Solve, Null, Null) else Call(Fix, candidate, verifierOut);
    ProducerCallExpected(replies, made, candidate, verifierOut);
    ExtendProtocol(replies, calls, producer);
    after := calls + [producer];
    var cand := CallOutcome(replies, made);
    if cand.Failure? {
      return Stop(Failure(CallFailed(cand.error))), after;
    }
    ExtendRejected(replies, made);

    // Verify the candidate just produced.
    var verifier := Call(Verify, cand.value, Null);
    VerifierCallExpected(replies, made, cand.value);
    ExtendProtocol(replies, after, verifier);
    after := after + [verifier];
    var report := CallOutcome(replies, made + 1);
    if report.Failure? {
      return Stop(Failure(CallFailed(report.error))), after;
    }
    var out := report.value;
    assert Reply(replies, made + 1) == out;
    if !out.Obj? {
      return Stop(Failure(ReportNotObject)), after;
    }
    if Passes(out.fields) {
      return Stop(Success(SolveResult(true, cand.value, it))), after;
    }
    ExtendRejected(replies, made + 1);
    step := Continue(cand.value, out);
  }

  /** `solve_one`: validate the task type, then run up to `maxIters` iterations
      of (solver or fixer) followed by the verifier, stopping at the first
      passing verdict. `calls` records every model call issued, in order. */
  method SolveOne(problem: string, taskType: string, maxIters: int, replies: seq<Result<Json, CallError>>)
    returns (r: Result<SolveResult, SolveError>, ghost calls: seq<Call>)
    ensures SessionOutcome(taskType, maxIters, replies, r, calls)
    ensures taskType !in TaskTypes <==> r == Failure(InvalidTaskType)
    ensures r.Success? && r.value.ok ==>
              1 <= r.value.iters <= Budget(maxIters) && Accepts(Reply(replies, 2 * r.value.iters - 1))
              && r.value.finalAnswer == Reply(replies, 2 * r.value.iters - 2)
    ensures r.Success? && !r.value.ok ==>
              r.value.iters == maxIters && r.value.finalAnswer == LastCandidate(replies, 2 * Budget(maxIters))
  {
    calls := [];
    if taskType !in TaskTypes {
      return Failure(InvalidTaskType), calls;
    }
    var candidate: Json := Null;
    var verifierOut: Json := Obj(map[]);
    var it := 1;
    while it <= maxIters
      invariant 1 <= it <= Budget(maxIters) + 1
      invariant |calls| == 2 * (it - 1)
      invariant FollowsProtocol(replies, calls)
      invariant RejectedSoFar(replies, |calls|)
      invariant candidate == if |calls| == 0 then Null else Reply(replies, |calls| - 2)
      invariant |calls| > 0 ==> verifierOut == Reply(replies, |calls| - 1)
    {
      var step;
      step, calls := Iterate(maxIters, replies, it, candidate, verifierOut, calls);
      if step.Stop? {
        return step.result, calls;
      }
      candidate, verifierOut := step.candidate, step.report;
      it := it + 1;
    }
    r := Success(SolveResult(false, OrEmpty(candidate), maxIters));
  }

  /** Successful records from a conforming parser: every record is an object. */
  ghost predicate ObjectReplies(replies: seq<Result<Json, CallError>>)
  {
    forall i :: 0 <= i < |replies| && replies[i].Success? ==> replies[i].value.Obj?
  }

  /** Replies produced by `call_llm` with a conforming parser are objects. */
  lemma CallLlmReplies(codec: Codec, texts: seq<Option<string>>, replies: seq<Result<Json, CallError>>)
    requires SaneParser(codec.parse)
    requires |replies| == |texts| && forall i :: 0 <= i < |texts| ==> replies[i] == CallLlm(codec, texts[i])
    ensures ObjectReplies(replies)
  {
    forall i | 0 <= i < |replies| && replies[i].Success?
      ensures replies[i].value.Obj?
    {
      CallLlmObject(codec, texts[i]);
    }
  }

  /** Fewer than all prescribed calls returned and were rejected, so the
      session goes past them: it cannot have stopped among them. */
  lemma ContinuesPast(taskType: string, maxIters: int, replies: seq<Result<Json, CallError>>,
                      r: Result<SolveResult, SolveError>, calls: seq<Call>, m: nat)
    requires taskType in TaskTypes
    requires SessionOutcome(taskType, maxIters, replies, r, calls)
    requires m < 2 * Budget(maxIters) && RejectedSoFar(replies, m)
    ensures |calls| > m
  {
  }

  /** The calls made and the result are determined by the inputs. */
  lemma SessionDeterministic(taskType: string, maxIters: int, replies: seq<Result<Json, CallError>>,
                             r1: Result<SolveResult, SolveError>, calls1: seq<Call>,
                             r2: Result<SolveResult, SolveError>, calls2: seq<Call>)
    requires SessionOutcome(taskType, maxIters, replies, r1, calls1)
    requires SessionOutcome(taskType, maxIters, replies, r2, calls2)
    ensures r1 == r2 && calls1 == calls2
  {
    if taskType in TaskTypes {
      if |calls1| < |calls2| {
        ContinuesPast(taskType, maxIters, replies, r1, calls1, |calls1|);
      } else if |calls2| < |calls1| {
        ContinuesPast(taskType, maxIters, replies, r2, calls2, |calls2|);
      }
      assert |calls1| == |calls2|;
      forall i | 0 <= i < |calls1|
        ensures calls1[i] == calls2[i]
      {
        assert calls1[i] == ExpectedCall(replies, i) == calls2[i];
      }
      var n := |calls1|;
      if n > 0 && CallOutcome(replies, n - 1).Success? {
        var last := Reply(replies, n - 1);
        assert Accepts(last) ==> !Rejects(last);
      }
    }
  }

  /** Iteration `k` is the first whose verdict passes: the session ends there
      with `ok`, that iteration's candidate and `iters == k`, after exactly `2k`
      calls. */
  lemma EarlyPass(taskType: string, maxIters: int, replies: seq<Result<Json, CallError>>,
                  r: Result<SolveResult, SolveError>, calls: seq<Call>, k: nat)
    requires taskType in TaskTypes
    requires SessionOutcome(taskType, maxIters, replies, r, calls)
    requires 1 <= k <= Budget(maxIters)
    requires RejectedSoFar(replies, 2 * k - 2)
    requires CallOutcome(replies, 2 * k - 2).Success? && CallOutcome(replies, 2 * k - 1).Success?
    requires Accepts(Reply(replies, 2 * k - 1))
    ensures |calls| == 2 * k
    ensures r == Success(SolveResult(true, Reply(replies, 2 * k - 2), k))
  {
    ExtendRejected(replies, 2 * k - 2);
    ContinuesPast(taskType, maxIters, replies, r, calls, 2 * k - 1);
  }

  /** No verdict passes: the session runs its whole budget, `2 * max(maxIters, 0)`
      calls, and reports failure with the last candidate (`{}` when there is
      none or it is falsy) and `iters == maxIters`. */
  lemma NeverPassing(taskType: string, maxIters: int, replies: seq<Result<Json, CallError>>,
                     r: Result<SolveResult, SolveError>, calls: seq<Call>)
    requires taskType in TaskTypes
    requires SessionOutcome(taskType, maxIters, replies, r, calls)
    requires RejectedSoFar(replies, 2 * Budget(maxIters))
    ensures |calls| == 2 * Budget(maxIters)
    ensures r == Success(SolveResult(false, LastCandidate(replies, 2 * Budget(maxIters)), maxIters))
  {
    var b := 2 * Budget(maxIters);
    if b > 0 {
      assert RejectedSoFar(replies, b - 1);
      ContinuesPast(taskType, maxIters, replies, r, calls, b - 1);
      assert Rejects(Reply(replies, b - 1));
    }
  }

  /** A budget below one makes no model call at all and answers `{}`. */
  lemma ZeroBudget(taskType: string, maxIters: int, replies: seq<Result<Json, CallError>>,
                   r: Result<SolveResult, SolveError>, calls: seq<Call>)
    requires taskType in TaskTypes && maxIters <= 0
    requires SessionOutcome(taskType, maxIters, replies, r, calls)
    ensures calls == []
    ensures r == Success(SolveResult(false, Obj(map[]), maxIters))
  {
    NeverPassing(taskType, maxIters, replies, r, calls);
  }

  /** The calls a session makes, by position: the solver first, afterwards the
      fixer fed the previous candidate and its bug report, and after every
      producer the verifier fed the candidate just produced. */
  lemma CallShape(taskType: string, maxIters: int, replies: seq<Result<Json, CallError>>,
                  r: Result<SolveResult, SolveError>, calls: seq<Call>)
    requires ObjectReplies(replies)
    requires SessionOutcome(taskType, maxIters, replies, r, calls)
    ensures |calls| > 0 ==> calls[0] == Call(Solve, Null, Null)
    ensures forall i :: 2 <= i < |calls| && i % 2 == 0 ==>
              calls[i] == Call(Fix, Reply(replies, i - 2), Reply(replies, i - 1))
    ensures forall i :: 0 <= i < |calls| && i % 2 == 1 ==> calls[i] == Call(Verify, Reply(replies, i - 1), Null)
  {
    forall i | 2 <= i < |calls| && i % 2 == 0
      ensures calls[i] == Call(Fix, Reply(replies, i - 2), Reply(replies, i - 1))
    {
      assert CallOutcome(replies, i - 2).Success?;
      assert Reply(replies, i - 2).Obj?;
    }
  }

  /** `solve_one(problem)` with its default arguments: the task type "mcq" is
      accepted, at most three iterations (six model calls) are made, and a
      session that never passes reports `iters == 3` after all six calls. */
  lemma DefaultSession(replies: seq<Result<Json, CallError>>, r: Result<SolveResult, SolveError>, calls: seq<Call>)
    requires SessionOutcome(DefaultTaskType, MaxIters, replies, r, calls)
    ensures r != Failure(InvalidTaskType)
    ensures |calls| <= 6
    ensures r.Success? && !r.value.ok ==> r.value.iters == 3 && |calls| == 6
  {
  }

  /** "What is 2+2?" as a numeric task with a budget of two: the solver's first
      answer is accepted, so the session ends after one iteration with that
      answer, and the fixer is never called. */
  lemma FirstAnswerAccepted(r: Result<SolveResult, SolveError>, calls: seq<Call>)
    requires
      var answer := Obj(map["answer_type" := Str("numeric"), "final_answer_value" := Str("4"),
                            "key_checks" := Arr([]), "confidence" := Num(0.9)]);
      var report := Obj(map["verdict" := Str("pass"), "bugs" := Arr([]), "bug_codes" := Arr([]), "advice" := Arr([])]);
      SessionOutcome("numeric", 2, [Success(answer), Success(report)], r, calls)
    ensures r.Success? && r.value.ok && r.value.iters == 1
    ensures r.value.finalAnswer.Obj? && r.value.finalAnswer.fields["final_answer_value"] == Str("4")
    ensures |calls| == 2 && calls[0].stage == Solve && calls[1].stage == Verify
  {
    var answer := Obj(map["answer_type" := Str("numeric"), "final_answer_value" := Str("4"),
                          "key_checks" := Arr([]), "confidence" := Num(0.9)]);
    var report := Obj(map["verdict" := Str("pass"), "bugs" := Arr([]), "bug_codes" := Arr([]), "advice" := Arr([])]);
    var replies := [Success(answer), Success(report)];
    assert Accepts(Reply(replies, 1)) by {
      assert report.fields["verdict"] == Str("pass");
      assert AsciiLower("pass") == "pass";
    }
    EarlyPass("numeric", 2, replies, r, calls, 1);
  }
}
