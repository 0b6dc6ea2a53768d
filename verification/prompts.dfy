/** The prompt builder: the fixed instructions for the three model roles, the
    worked example per task type, and the user messages that splice the task
    type, the problem and the serialised records into fixed text. */
module Prompts {

  /** The closed set of task types a session accepts. */
  const TaskTypes: set<string> := {"mcq", "numeric", "proof_outline", "short_answer"}

  /** The defaults of `solve_one`: the task type and the iteration budget a
      caller that names neither gets. */
  const DefaultTaskType: string := "mcq"
  const MaxIters: int := 3

  /** Every role runs on the same model. */
  const SolverModel: string := "deepseek-r1:1.5b"
  const VerifierModel: string := "deepseek-r1:1.5b"
  const FixerModel: string := "deepseek-r1:1.5b"

  const SolverSystem: string :=
    "You are a problem solver. Provide ONLY a single-line JSON object as output. Do not include chain-of-thought. Keep reasoning internal."

  const VerifierSystem: string :=
    "You are a strict solution verifier. Accept a problem and a candidate JSON answer. Check ONLY for structure, consistency, and obvious logical issues; do NOT provide chain-of-thought. Output a ONE-LINE JSON bug report: {\"verdict\":\"pass|fail\",\"bugs\":[...],\"bug_codes\":[...],\"advice\":[...]}."

  const FixerSystem: string :=
    "You are a fixer that revises the previous JSON answer using a bug report. Return ONLY ONE-LINE JSON with the same schema as the solver's type. No chain-of-thought."

  /** One worked answer per task type, shown to the solver as a demonstration.
      Each literal is written in two pieces, split after its `answer_type` field. */
  const SolverFewShot: map<string, string> := map[
    "mcq" := "{\"answer_type\":\"mcq\"," + "\"final_answer_letter\":\"B\",\"key_checks\":[\"letter in {A,B,C,D}\"],\"confidence\":0.78}",
    "numeric" := "{\"answer_type\":\"numeric\"," + "\"final_answer_value\":\"42\",\"key_checks\":[\"units consistent\"],\"confidence\":0.75}",
    "proof_outline" := "{\"answer_type\":\"proof_outline\"," + "\"final_claim\":\"g(n) is divisible by 3\",\"key_lemmas\":[\"mod arithmetic\"],\"key_checks\":[\"no gap\"],\"confidence\":0.70}",
    "short_answer" := "{\"answer_type\":\"short_answer\"," + "\"final_answer_text\":\"the graph is bipartite\",\"key_checks\":[\"no odd cycle\"],\"confidence\":0.72}"
  ]

  /** The opening of a serialised answer whose `answer_type` is `taskType`. */
  function AnswerTypeTag(taskType: string): string
  {
    "{\"answer_type\":\"" + taskType + "\","
  }

  /** The few-shot table covers exactly the task types. */
  lemma FewShotKeys()
    ensures SolverFewShot.Keys == TaskTypes
  {
  }

  /** Each worked example is tagged with the task type it demonstrates. */
  lemma FewShotTagged()
    ensures forall t :: t in SolverFewShot ==> AnswerTypeTag(t) <= SolverFewShot[t]
  {
    forall t | t in SolverFewShot
      ensures AnswerTypeTag(t) <= SolverFewShot[t]
    {
      var tag := AnswerTypeTag(t);
      if t == "mcq" {
        assert tag == "{\"answer_type\":\"mcq\",";
      } else if t == "numeric" {
        assert tag == "{\"answer_type\":\"numeric\",";
      } else if t == "proof_outline" {
        assert tag == "{\"answer_type\":\"proof_outline\",";
      } else {
        assert tag == "{\"answer_type\":\"short_answer\",";
      }
    }
  }

  /** Everything of the solver's user message that comes before the problem. */
  function SolverHead(taskType: string, fewShot: string): string
  {
    "Task type: " + taskType
    + "\nProvide your final answer in STRICT JSON (one line).\nConstraints:\n- Do NOT include any chain-of-thought.\n- Keep output to ONE line JSON.\nExample for "
    + taskType + ": " + fewShot + "\n\nProblem:\n"
  }

  /** The solver's user message: the task type, the worked example shown for it
      and the problem, spliced into fixed text. */
  function SolverUser(taskType: string, fewShot: string, problem: string): string
  {
    SolverHead(taskType, fewShot) + problem + "\n"
  }

  const VerifierRules: string :=
    "\n\nValidation rules (non-exhaustive):\n- mcq: final_answer_letter must be one of A,B,C,D.\n- numeric: final_answer_value simplified (no explanatory text).\n- proof_outline: final_claim present; key_lemmas/key_checks concise.\n- short_answer: final_answer_text concise; avoid hedging.\n- confidence in [0,1].\nReturn ONE-LINE JSON as specified."

  /** Everything of the verifier's user message that comes before the candidate. */
  function VerifierHead(problem: string): string
  {
    "Problem:\n" + problem + "\n\nCandidate JSON (one line):\n"
  }

  /** The verifier's user message: the problem and the serialised candidate. */
  function VerifierUser(problem: string, candidate: string): string
  {
    VerifierHead(problem) + candidate + VerifierRules
  }

  const FixerTail: string :=
    "\n\nRevise your answer to FIX the bugs. Keep format STRICT and concise."

  /** Everything of the fixer's user message that comes before the bug report. */
  function FixerHead(problem: string, candidate: string): string
  {
    "Problem:\n" + problem + "\n\nPrevious JSON answer:\n" + candidate + "\n\nBug report:\n"
  }

  /** The fixer's user message: the problem, the serialised previous candidate and
      the serialised bug report. */
  function FixerUser(problem: string, candidate: string, bugReport: string): string
  {
    FixerHead(problem, candidate) + bugReport + FixerTail
  }

  /** Text spliced between a fixed head and a fixed tail can be read back. */
  lemma SpliceInjective(head: string, x1: string, x2: string, tail: string)
    requires head + x1 + tail == head + x2 + tail
    ensures x1 == x2
  {
    var t1, t2 := head + x1 + tail, head + x2 + tail;
    assert |x1| == |x2|;
    assert x1 == t1[|head|..|head| + |x1|];
    assert x2 == t2[|head|..|head| + |x2|];
  }

  /** The problem text goes into the solver's message verbatim: two different
      problems never share a message. */
  lemma SolverUserInjective(taskType: string, fewShot: string, p1: string, p2: string)
    requires SolverUser(taskType, fewShot, p1) == SolverUser(taskType, fewShot, p2)
    ensures p1 == p2
  {
    SpliceInjective(SolverHead(taskType, fewShot), p1, p2, "\n");
  }

  /** The serialised candidate goes into the verifier's message verbatim. */
  lemma VerifierUserInjective(problem: string, c1: string, c2: string)
    requires VerifierUser(problem, c1) == VerifierUser(problem, c2)
    ensures c1 == c2
  {
    SpliceInjective(VerifierHead(problem), c1, c2, VerifierRules);
  }

  /** For one problem and one previous candidate, the bug report goes into the
      fixer's message verbatim. */
  lemma FixerUserInjective(problem: string, candidate: string, r1: string, r2: string)
    requires FixerUser(problem, candidate, r1) == FixerUser(problem, candidate, r2)
    ensures r1 == r2
  {
    SpliceInjective(FixerHead(problem, candidate), r1, r2, FixerTail);
  }
}
