# Self-verifying solver: extractor, prompts and the solve/verify/fix loop

This project models the core of `self_verify_solver/app.py`, a small service
that asks a language model to solve a problem, asks the model again to
check that answer, and asks it to fix the answer when the check fails.
The model is written in Dafny and its properties are proved.

The core has three pieces:

- **The structured-output extractor** (`extract_json`), in module `Extractor`,
  file `extractor.dfy`. First it parses the whole reply strictly and keeps the
  result if that result is an object. Otherwise it parses the span that the
  greedy pattern `\{.*\}` (with DOTALL) selects. That span runs from the first
  `{` to the last `}`. `BraceSpan` computes the span, and a lemma proves it is
  the leftmost-longest match of the pattern.
- **The prompt tables and templates**, in module `Prompts`, file
  `prompts.dfy`. These are the model names, the system instructions, the
  closed set of task types, the worked-example table and the three user
  message templates, with the exact text of the source. Each template is a
  function that splices its arguments into fixed text.
- **The orchestrator** (`solve_one`), in module `Solver`, file `solver.dfy`.
  It is a method with a loop. Each iteration makes one producer call: the
  solver while there is no candidate, the fixer afterwards. A verifier call
  on the fresh candidate follows. The loop then reads the verdict. A ghost
  trace records every model call as its role and the records passed into it.
  `Messages` maps each recorded call to the model, system text and user text
  it sends, up to the key order and number form of the records it serialises.

The JSON library is a parameter. `Codec` (module `JsonValue`, file
`json.dfy`) holds an uninterpreted strict parser and an uninterpreted
serialiser. The proofs need four facts about a real JSON library, each
stated where it is used:

- `SaneParser`: a text that starts with `{` parses only to an object.
- `ObjectsAreBraced` (module `Extractor`, where the brace match it uses is
  defined): the text of an object holds a `{` and, after it, a `}`.
- A requires of `ExtractTolerance`: a reply that parses as an object as a
  whole, around an embedded record, parses to that record. For a real parser
  that reply is the record with whitespace around it.
- A requires of `ExtractRoundTrip`: the library's own round trip, parsing a
  serialised object gives that object back.

The model service is an oracle. `replies[i]` is what `call_llm` returned for
the i-th call of a session, an extracted record or an error. `CallLlm` builds
one such entry from the reply text the service sent, and `CallLlmReplies`
proves that every record from a conforming parser is an object. A call past
the end of `replies` is a transport failure.

In these cases the model follows the code as written:

- `max_iters` may be zero or negative. The session then makes no call, and the
  result is `ok = false`, `final_answer = {}` and `iters = max_iters`.
- The span found by the pattern is parsed and returned as it is, without a
  second check that it is an object.
- A verdict that is present but is not a string (`null`, `true`, a number) is
  put through `str(...)`. The result never reads "pass".
- A verifier record that is not an object makes `.get` raise. This ends the
  session with `ReportNotObject`.

## Model

| member | source | states |
|---|---|---|
| JsonValue.OrEmpty | self_verify_solver/app.py:150 | `candidate or {}`: the value itself unless it is falsy in Python's sense, and `{}` exactly when it is falsy |
| Extractor.FirstIndexOf | self_verify_solver/app.py:105 | the index found holds the character, and no earlier index does; None only when the character is absent |
| Extractor.LastIndexOf | self_verify_solver/app.py:105 | the index found holds the character, and no later index does; None only when the character is absent |
| Extractor.BraceSpan | self_verify_solver/app.py:95-105 | `JSON_OBJ_RE.search`: the span from the first `{` to the last `}`; its contract is carried by `BraceSpanIsGreedy` |
| Extractor.ExtractJson | self_verify_solver/app.py:97-108 | `extract_json`: the strict whole-text parse if it is an object, else the parse of the span, else "no object found"; its contract is carried by `ExtractTiers`, `ExtractRoundTrip`, `ExtractTolerance`, `ExtractProseFails` and `ExtractYieldsObject` |
| Extractor.BraceSpanIsGreedy | self_verify_solver/app.py:95-107 | the span runs from the first `{` to the last `}`, it is the leftmost-longest match of `\{.*\}` with DOTALL, and it exists iff some `}` follows some `{` |
| Extractor.ExtractTiers | self_verify_solver/app.py:97-108 | a whole reply that parses as an object is returned unchanged; otherwise the result fails with "no object found" exactly when there is no match, and else is the parse of the greedy match or its parse error; there is no third attempt |
| Extractor.ExtractRoundTrip | self_verify_solver/app.py:99-102 | a serialised object that the parser reads back is returned unchanged |
| Extractor.ExtractTolerance | self_verify_solver/app.py:105-107 | a record with prose before it (no `{` in the prose) and after it (no `}` in the prose) is recovered |
| Extractor.ExtractProseFails | self_verify_solver/app.py:97-108 | a reply in which no `}` follows a `{` (plain prose, or prose with a stray `{`) fails with "no object found", given only that a parser finds objects only in text with braces |
| Extractor.ExtractYieldsObject | self_verify_solver/app.py:99-107 | with a conforming parser every extracted record is an object |
| Prompts.SolverUser | self_verify_solver/app.py:52-60 | the solver's user message; its contract is carried by `SolverUserInjective` |
| Prompts.VerifierUser | self_verify_solver/app.py:68-78 | the verifier's user message; its contract is carried by `VerifierUserInjective` |
| Prompts.FixerUser | self_verify_solver/app.py:85-90 | the fixer's user message; its contract is carried by `FixerUserInjective` |
| Prompts.FewShotKeys | self_verify_solver/app.py:35-50 | the keys of the worked-example table are exactly the task types |
| Prompts.FewShotTagged | self_verify_solver/app.py:45-50 | each worked example begins `{"answer_type":"<its key>",` |
| Prompts.SolverUserInjective | self_verify_solver/app.py:52-60 | the problem text is in the solver message verbatim: different problems give different messages |
| Prompts.VerifierUserInjective | self_verify_solver/app.py:68-78 | the serialised candidate is in the verifier message verbatim |
| Prompts.FixerUserInjective | self_verify_solver/app.py:85-90 | for a given problem and candidate, the serialised bug report is in the fixer message verbatim |
| Solver.Messages | self_verify_solver/app.py:135-144 | the model, system text and user text of each call: the solver's template with the worked example for the task type, the fixer's with the serialised candidate and report, the verifier's with the serialised fresh candidate; the templates' contracts are the three injectivity lemmas |
| Solver.CallLlm | self_verify_solver/app.py:110-116 | `call_llm` on the reply text: the extracted record, or a transport or extraction failure; its contract is carried by `CallLlmObject` |
| Solver.CallLlmObject | self_verify_solver/app.py:110-116 | a call fails exactly when the transport or the extraction failed, and with a conforming parser it returns an object |
| Solver.CallLlmReplies | self_verify_solver/app.py:110-116 | replies built by `call_llm` with a conforming parser hold only objects |
| Solver.AsciiLower | self_verify_solver/app.py:145 | lower-casing keeps the length and lower-cases each character |
| Solver.NormalisedVerdict | self_verify_solver/app.py:145 | `str(verifier_out.get("verdict", "fail")).lower()` as far as the comparison with "pass" needs it; its contract is carried by `PassesIff` |
| Solver.Passes | self_verify_solver/app.py:146 | the verdict test `verdict == "pass"`; its contract is carried by `PassesIff` |
| Solver.PassesIff | self_verify_solver/app.py:145-146 | a report passes iff its verdict is present, is a string and reads "pass" in any case; a missing verdict never passes |
| Solver.ExpectedCall | self_verify_solver/app.py:135-144 | the call the loop issues at each position, given what the earlier calls returned; `CallShape` states its shape by position, and `SolveOne` promises that every call follows it |
| Solver.LastCandidate | self_verify_solver/app.py:150 | `candidate or {}` after the budget ran out; `NeverPassing` and `ZeroBudget` state its value |
| Solver.SessionOutcome | self_verify_solver/app.py:128-150 | every way a session may end, with the calls it made; `SolveOne` ensures it, and `SessionDeterministic` shows it admits exactly one outcome |
| Solver.Iterate | self_verify_solver/app.py:134-148 | iteration `it` appends the producer and verifier calls the protocol prescribes; it continues only with that iteration's candidate and a rejecting report, and it stops either on a failed call or a report that is not an object (the cause comes from the last call) or with `ok`, the candidate and `iters = it` after an accepting report |
| Solver.SolveOne | self_verify_solver/app.py:128-150 | the task type is rejected, before any call, exactly when it is outside the closed set; otherwise the calls follow the protocol, at most `2 * max(max_iters, 0)` are made, every call but the last returned, every report but the last rejected, and the last call decides the result; an `ok` result names an accepting iteration within budget and its candidate; a result that is not ok has `iters = max_iters` and the last candidate or `{}` |
| Solver.ContinuesPast | self_verify_solver/app.py:134-148 | while calls return and reports reject within budget, the session does not stop |
| Solver.SessionDeterministic | self_verify_solver/app.py:128-150 | the replies fix the result and the calls made |
| Solver.EarlyPass | self_verify_solver/app.py:146-147 | if iteration k is the first to pass, the result is ok with that iteration's candidate and `iters = k`, after exactly `2k` calls |
| Solver.NeverPassing | self_verify_solver/app.py:134-150 | if no verdict passes, exactly `2 * max(max_iters, 0)` calls are made, and the result is not ok, with the last candidate (or `{}`) and `iters = max_iters` |
| Solver.ZeroBudget | self_verify_solver/app.py:134-150 | with `max_iters <= 0` no call is made, and the result is not ok with `{}` |
| Solver.CallShape | self_verify_solver/app.py:134-148 | the first call is the solver; every later even call is the fixer, fed the previous candidate and report; every odd call is the verifier, fed the candidate just produced |
| Solver.DefaultSession | self_verify_solver/app.py:128 | with the defaults `task_type="mcq"` and `max_iters=MAX_ITERS`, which is 3, the task type is accepted, at most six calls are made, and a session that never passes reports `iters = 3` after all six |
| Solver.FirstAnswerAccepted | self_verify_solver/app.py:128-147 | "What is 2+2?" (numeric, budget 2) whose first answer passes ends ok after one iteration, with answer "4", and the fixer is never called |

## Left out

- The FastAPI routes, the Jinja page and the coercion of the request payload (`self_verify_solver/app.py:152-174`) are HTTP and UI plumbing. They are not modelled.
- The `ollama` client, `await` and the request options (temperatures, `SEED`) are not modelled. Network I/O and asynchrony become the `replies` oracle. `Messages` gives the messages of each call, up to key order and number form, but the oracle does not depend on them.
- `json.loads` and `json.dumps` are left uninterpreted as `Codec`. Their grammar and escaping (RFC 8259) are not modelled. `ensure_ascii=False` is part of the serialiser.
- `Num` holds JSON numbers as reals. Floating point and the `confidence` values have no logic attached and are not modelled beyond that. Python keeps ints and floats apart: `1` and `1.0` decode to different values, and `json.dumps` writes them differently into the verifier and fixer messages. Here both are the one value `Num(1.0)`. `NaN`, `Infinity` and `-Infinity`, which `json.loads` accepts by default, cannot be represented at all.
- Solver.AsciiLower: lower-cases ASCII letters only, not the whole of Unicode. The test against "pass" does not depend on other characters.
- Solver.SolveOne: `problem` reaches only the prompt text (`Messages`), and the oracle's replies do not depend on it.
- The task-type check is an `assert`, which `python -O` removes. That mode is not modelled. In it, an unknown task type fails at the worked-example lookup instead, and only when at least one iteration runs.
- A JSON object is a `map`, which has no order and no duplicate keys. The order in which a Python dict keeps the model's keys, and so the order in which `json.dumps` writes them into the verifier and fixer messages, is lost. A reply with a repeated key is modelled only by the value the parser keeps. Two dicts with the same entries in different orders serialise to different texts but are one map here. So `Messages` gives the verifier and fixer text only up to key order and number form (see the `Num` line above).
- Dafny has no default arguments. `SolveOne` always takes the task type and the budget. The defaults of `solve_one` are the constants `Prompts.DefaultTaskType` ("mcq") and `Prompts.MaxIters` (3), and `DefaultSession` states what a session with them does. The `/solve` route that relies on the default budget is not modelled.
- Extractor.ExtractJson: the parser has two outcomes, a value or a decode error. In the source, `json.loads` can also raise something other than `json.JSONDecodeError`, for example `RecursionError` on text nested deeper than the interpreter allows. Tier 1 does not catch that, so it escapes `extract_json` and aborts `solve_one`. Here such text falls through to tier 2 instead. `ExtractTolerance` then reports a record recovered from, say, 100000 `[` characters, then an object, then 100000 `]` characters, where the source raises.
- Exceptions the service call raises (a missing `message` key in the service response, for example) are folded into `GatewayError`. Exceptions inside `json.loads` other than a decode error are not modelled (see the line above).
