# Code Agent: the review engine, modelled in Dafny

The Code Agent backend (`code_agent_pro/backend/agent_engine.py`) has a language model write a
program. It then runs that program on test cases and has the result reviewed. It asks for revisions
until a review of 95 or more of a passing run ends the loop, or until five rounds are spent. The first
round of user-supplied code is the exception: it is always sent back for polishing, whatever its review.

This project models:

- the text helpers that loop relies on:
  - `normalize_output`, which canonicalises program output before comparison
  - `extract_code_content`, `clean_json_text` and `detect_language`
  - `sanitize_json` together with the audit-score escalation
  - `validate_test_cases`
  - `enforce_architecture_lock`
  - `generate_mermaid_from_json`
- the round loop of `workflow_orchestrator` and the branch that follows it.

Python's own behaviour is written out, one module per concern:

- `PyText`: `strip`, `rstrip`, `replace`, `split`, `join`, slicing and `in`.
- `PyJson`: decoded JSON values, `dict.get`, truthiness, `str()`, `int()` and the exceptions these raise.

Further modelling choices:

- `json.loads` is a parameter of type `Parser`.
- What the language model answers in a round is an input, one `RoundInput` per round.
- Running a program is an `Executor` that returns how the run ended.
- The regular expressions of `extract_code_content` are token patterns (`Piece`s), matched at a position of the text.
- The leftmost-match search over them is proved to find the first match and only the first.

The places where code runs step by step are methods with loops, proved equal to the functions that specify them:

- the review loop: `Review.ReviewLoop`, `Review.Rounds`, `Review.Round`
- the test phase: `Review.RunCases`
- test-case validation: `TestCases.ValidateTestCases`
- the block scan: `Extraction.FirstBlockWith`
- the diagram builder: `Mermaid.CollectLines`

The properties of the process are lemmas about those functions.

Modules: `Wrappers`, `PyText`, `PyJson`, `Normalize`, `Extraction`, `Audit`, `TestCases`, `ArchLock`,
`Mermaid`, `Review`.

## Model

| member | source | states |
|---|---|---|
| PyText.RStrip | code_agent_pro/backend/agent_engine.py:422 | `rstrip` keeps the longest prefix not ending in whitespace; everything cut is whitespace |
| PyText.Strip | code_agent_pro/backend/agent_engine.py:325 | `strip` leaves no whitespace at either end |
| PyText.StripIsSlice | code_agent_pro/backend/agent_engine.py:325 | what `strip` keeps is one contiguous slice of the text |
| PyText.Contains | code_agent_pro/backend/agent_engine.py:329 | `w in s` holds exactly when `w` occurs at some position |
| PyText.ReplaceCharRemoves | code_agent_pro/backend/agent_engine.py:421 | replacing `\r` by `\n` leaves no `\r` |
| PyText.ReplaceWithoutOccurrence | code_agent_pro/backend/agent_engine.py:421 | a replacement whose pattern does not occur anywhere in the text changes nothing |
| PyText.ReplaceAbsent | code_agent_pro/backend/agent_engine.py:421 | a replacement whose pattern's first character does not occur in the text changes nothing |
| PyText.ReplaceKeepsPrefix | code_agent_pro/backend/agent_engine.py:324 | a prefix that does not contain the pattern's first character passes through `replace` untouched |
| PyText.Split | code_agent_pro/backend/agent_engine.py:422 | `split` gives at least one piece, and no piece contains the separator |
| PyText.JoinSplit | code_agent_pro/backend/agent_engine.py:422-423 | `'\n'.join(s.split('\n')) == s` |
| PyText.SplitChars | code_agent_pro/backend/agent_engine.py:422 | every piece of `split` is made of characters of the text |
| PyText.Take | code_agent_pro/backend/agent_engine.py:389 | `s[:n]` is the prefix of length `min(len(s), n)` |
| PyJson.DictGet | code_agent_pro/backend/agent_engine.py:390-395 | `d.get(k, default)` is the default exactly when `k` is absent, else a value stored under `k` |
| PyJson.Str | code_agent_pro/backend/agent_engine.py:390-392 | `str(x)` is empty exactly for the empty string |
| PyJson.Iterate | code_agent_pro/backend/agent_engine.py:367 | iterating a list yields its items; `None`, booleans and integers raise |
| PyJson.ToInt | code_agent_pro/backend/agent_engine.py:394 | `int(x)`: integers stay, booleans give 0/1, `None`/lists/dicts raise `TypeError`; a string converts exactly when it is an integer literal, to the value of that literal, and otherwise raises `ValueError` quoting it |
| PyJson.NatToStringValue | code_agent_pro/backend/agent_engine.py:622-626 | `str(n)` of a natural number is all decimal digits, and reading them back gives `n` |
| PyJson.SignedDigitsOf | code_agent_pro/backend/agent_engine.py:394 | digits with an optional minus sign are read as their value, negated after the sign |
| PyJson.IntToStringUnspaced | code_agent_pro/backend/agent_engine.py:394 | `str(i)` has no surrounding whitespace, so `strip()` keeps it whole |
| PyJson.IntLiteralOfIntToString | code_agent_pro/backend/agent_engine.py:394 | `int(str(i)) == i` for every integer |
| Normalize.NormalizeOutput | code_agent_pro/backend/agent_engine.py:419-423 | `normalize_output`; its contract is carried by `NormalizeOutputShape`, `NormalizeOutputLines`, `NormalizeOutputFixes` and `NormalizeOutputIdempotent` |
| Normalize.TrimmedIffRStripFixed | code_agent_pro/backend/agent_engine.py:422 | a line has no trailing whitespace exactly when `rstrip` leaves it unchanged |
| Normalize.JoinTrimmedClean | code_agent_pro/backend/agent_engine.py:423 | joining right-stripped single lines puts no newline after whitespace and adds no `\r` |
| Normalize.SplitLinesTrimmed | code_agent_pro/backend/agent_engine.py:422 | each line of a cleanly ended text is right-stripped |
| Normalize.NormalizeOutputShape | code_agent_pro/backend/agent_engine.py:419-423 | the result has no `\r`, no whitespace at either end, and no newline after trailing whitespace |
| Normalize.NormalizeOutputLines | code_agent_pro/backend/agent_engine.py:419-423 | every line of the result is already right-stripped |
| Normalize.NormalizeOutputFixes | code_agent_pro/backend/agent_engine.py:419-423 | a text already in normal form is returned unchanged |
| Normalize.NormalizeOutputIdempotent | code_agent_pro/backend/agent_engine.py:419-423 | normalizing twice is normalizing once |
| Extraction.DetectLanguage | code_agent_pro/backend/agent_engine.py:328-330 | Python exactly when the text contains "```python" or "def ", C++ otherwise |
| Extraction.CleanJsonText | code_agent_pro/backend/agent_engine.py:321-325 | an empty reply gives "{}"; any other result is stripped; a reply without backticks is only stripped |
| Extraction.CleanJsonTextUnfenced | code_agent_pro/backend/agent_engine.py:323-325 | the text handed to the decoder contains no "```" anywhere |
| Extraction.NoTicksUnchanged | code_agent_pro/backend/agent_engine.py:323-324 | text without backticks passes both fence removals unchanged |
| Extraction.CleanJsonTextFenced | code_agent_pro/backend/agent_engine.py:321-325 | a reply fenced as "```json ... ```" (in any letter case) with a backtick-free body gives the stripped body |
| Extraction.UnfenceLeadingTicks | code_agent_pro/backend/agent_engine.py:324 | removing "```" left to right shrinks a leading run of k backticks to k mod 3 |
| Extraction.UnfenceLeavesNone | code_agent_pro/backend/agent_engine.py:324 | after removing every "```" none is left, even where removals bring backticks together |
| Extraction.FencedBlocksFrom | code_agent_pro/backend/agent_engine.py:334 | the `re.findall` of fenced block bodies, scanning left to right; where a body starts is stated by `FenceBodyStart` and `FenceBodyStartAt`, where it ends by `BodyEnd` |
| Extraction.SkipWord | code_agent_pro/backend/agent_engine.py:334 | `\w+` takes the whole run of word characters |
| Extraction.SkipSpaceSpec | code_agent_pro/backend/agent_engine.py:339-347 | `\s+`/`\s*` take the whole run of whitespace, and no further |
| Extraction.BodyEnd | code_agent_pro/backend/agent_engine.py:334 | the lazy body ends at the first fence, at the end, or before a final newline, and not earlier |
| Extraction.FenceBodyStart | code_agent_pro/backend/agent_engine.py:334 | a body start is found only after "```" at the position, then word characters, then a newline; the body starts right after that newline |
| Extraction.FenceBodyStartAt | code_agent_pro/backend/agent_engine.py:334 | conversely, "```", a run of word characters and a newline always give the body start after the newline |
| Extraction.UsableBlocks | code_agent_pro/backend/agent_engine.py:337 | every block kept is a stripped block longer than 20 characters, and there are no more of them than blocks |
| Extraction.LongerMembers | code_agent_pro/backend/agent_engine.py:337 | the length filter keeps exactly the strings longer than 20 characters |
| Extraction.UsableBlocksMembers | code_agent_pro/backend/agent_engine.py:337 | a string is kept exactly when it is the stripped form of some block and longer than 20 characters |
| Extraction.UsableBlocksAppend | code_agent_pro/backend/agent_engine.py:337 | the kept blocks of two runs of blocks are those of the first, then those of the second, so the input order is kept |
| Extraction.SearchFromFound | code_agent_pro/backend/agent_engine.py:339-347 | a position found by the search is a match, and no earlier position is |
| Extraction.SearchFromNone | code_agent_pro/backend/agent_engine.py:339-347 | a search that finds nothing means no position matches |
| Extraction.SearchIsLeftmost | code_agent_pro/backend/agent_engine.py:344-349 | the search returns exactly the leftmost match |
| Extraction.SearchFindsNothing | code_agent_pro/backend/agent_engine.py:344-350 | the search finds nothing exactly when no position matches |
| Extraction.FirstFoundSpec | code_agent_pro/backend/agent_engine.py:338-341 | the block chosen is the first that matches; with none chosen, no block matches |
| Extraction.FirstBlockWith | code_agent_pro/backend/agent_engine.py:338-341 | the loop over the blocks returns the index of the first matching block |
| Extraction.FirstFoundAt | code_agent_pro/backend/agent_engine.py:338-341 | the first matching block is the one the specification names |
| Extraction.ExtractCode | code_agent_pro/backend/agent_engine.py:333-350 | `extract_code_content`; its contract is carried by `ExtractCodeFromBlocks`, `PickBlockChoice`, `PickBlockSingle` and the three `ExtractCodeAt…`/`ExtractCodeWithoutMarker` lemmas, and `ExtractCodeContent` computes it |
| Extraction.ExtractCodeContent | code_agent_pro/backend/agent_engine.py:333-350 | the method returns what the specification function `ExtractCode` gives |
| Extraction.ExtractCodeFromBlocks | code_agent_pro/backend/agent_engine.py:336-342 | with usable blocks, the result is one of them and longer than 20 characters |
| Extraction.PickBlockChoice | code_agent_pro/backend/agent_engine.py:338-342 | the first usable block with `int\s+main` is returned; failing any, the first with `if\s+__name__`; failing both, the last block |
| Extraction.PickBlockSingle | code_agent_pro/backend/agent_engine.py:336-342 | exactly one usable block is returned as it is, whatever it contains |
| Extraction.ExtractCodeAtCppMarker | code_agent_pro/backend/agent_engine.py:344-346 | without usable blocks, the result is the stripped text from the first C++ marker |
| Extraction.ExtractCodeAtPyMarker | code_agent_pro/backend/agent_engine.py:347-349 | without usable blocks or a C++ marker, the result is the stripped text from the first Python marker |
| Extraction.ExtractCodeWithoutMarker | code_agent_pro/backend/agent_engine.py:350 | without usable blocks and without markers, the result is "" |
| Audit.CritiqueOf | code_agent_pro/backend/agent_engine.py:390-392 | the critique is never empty; a critique of 5 or more characters is kept; otherwise a non-empty suggestion replaces it, and without one the default "代码符合规范。" does |
| Audit.SanitizeJson | code_agent_pro/backend/agent_engine.py:387-397 | a non-dict gives score 0, not passing, quoting 100 characters of the raw text; a dict converts exactly when `int()` of its score does, and yields that score, the truthiness of "pass" and the critique `CritiqueOf` chooses; otherwise the `int()` error is raised |
| Audit.Escalate | code_agent_pro/backend/agent_engine.py:683-685 | under either escalation rule (90 or more with a critique under 15 characters; 85 or more equal to the previous score) the score becomes exactly 95, otherwise it is kept; it reaches 95 exactly under those rules or when already there |
| Audit.EscalateRepeated | code_agent_pro/backend/agent_engine.py:685 | a repeated raw score of 85 or more becomes 95 |
| Audit.EscalateKeepsLow | code_agent_pro/backend/agent_engine.py:683-685 | below 85 the score is kept |
| Audit.EscalateCapsTersePerfect | code_agent_pro/backend/agent_engine.py:684 | a perfect 100 with a critique shorter than 15 characters is lowered to 95 |
| Audit.DebugVerdict | code_agent_pro/backend/agent_engine.py:640-688 | a failing run is never passed; it scores 40 exactly when the debugger's reply decodes to a dict, else 0 with a review-exception critique |
| Audit.AuditVerdict | code_agent_pro/backend/agent_engine.py:677-688 | the audit passes exactly when the reply decodes and sanitizes; then the score is escalated and the raw score becomes the previous score; otherwise the score is 0 and the previous score is kept |
| TestCases.FirstList | code_agent_pro/backend/agent_engine.py:402-406 | a dict gives way to the value of its first list-valued member, with no list before it; without one, no member is a list |
| TestCases.CaseList | code_agent_pro/backend/agent_engine.py:402-407 | a list is used as it is; a dict gives the first of its list-valued members, or no list; any other value gives no list |
| TestCases.FindCaseList | code_agent_pro/backend/agent_engine.py:402-407 | the loop over the dict's values finds the list `CaseList` names |
| TestCases.Reparse | code_agent_pro/backend/agent_engine.py:409-413 | a string item is decoded after turning `'` into `"` and becomes the decoded value; if decoding fails it stays the string, which is not a case; any other item is kept |
| TestCases.ReparseItem | code_agent_pro/backend/agent_engine.py:409-413 | the method decodes a string item again exactly as `Reparse` specifies |
| TestCases.ValidCases | code_agent_pro/backend/agent_engine.py:408-416 | the output is never longer than the input, and every case kept is a dict with "input" |
| TestCases.Validate | code_agent_pro/backend/agent_engine.py:400-416 | `validate_test_cases`: the usable cases of the list `CaseList` unwraps, or none; its contract is carried by `ValidCases`, `ValidCasesMembers`, `ValidCasesAppend` and `ValidateIdempotent`, and `ValidateTestCases` computes it |
| TestCases.ValidateTestCases | code_agent_pro/backend/agent_engine.py:400-416 | the loop returns `Validate(raw)`: the usable cases of the unwrapped list, in order |
| TestCases.ValidCasesAt | code_agent_pro/backend/agent_engine.py:408-415 | the cases from position i are the item at i, if usable, followed by those after it |
| TestCases.ValidCasesAppend | code_agent_pro/backend/agent_engine.py:408-416 | filtering distributes over concatenation, so the cases keep their input order |
| TestCases.ValidCasesKeepsCases | code_agent_pro/backend/agent_engine.py:414-415 | a list of usable cases is returned unchanged |
| TestCases.ValidateIdempotent | code_agent_pro/backend/agent_engine.py:400-416 | validating a validated list changes nothing |
| TestCases.ValidCasesMembers | code_agent_pro/backend/agent_engine.py:408-416 | a value is kept exactly when it is a usable case obtained from some item |
| ArchLock.EnforceArchitectureLock | code_agent_pro/backend/agent_engine.py:62-87 | accepted exactly when both programs parse and the original's names are a subset of the rewrite's; a violation reports exactly the names the rewrite lost; a parse failure reports the original's error first |
| ArchLock.Message | code_agent_pro/backend/agent_engine.py:80-87 | the message is "架构一致" exactly when the rewrite is accepted |
| ArchLock.LockReflexive | code_agent_pro/backend/agent_engine.py:62-85 | a parsable program is consistent with itself |
| ArchLock.LockTransitive | code_agent_pro/backend/agent_engine.py:62-85 | two accepted rewrites in a row make an accepted rewrite |
| ArchLock.LockCatchesRemoval | code_agent_pro/backend/agent_engine.py:78-80 | removing one declared name is reported as exactly that name |
| ArchLock.LockIgnoresBlueprint | code_agent_pro/backend/agent_engine.py:62-87 | the blueprint never changes the outcome |
| Mermaid.SafeText | code_agent_pro/backend/agent_engine.py:370-378 | only CJK ideographs and ASCII letters and digits remain |
| Mermaid.SafeTextAppend | code_agent_pro/backend/agent_engine.py:370 | filtering works piece by piece |
| Mermaid.SafeTextKeepsAllowed | code_agent_pro/backend/agent_engine.py:370 | text made only of admitted characters passes unchanged |
| Mermaid.SafeTextIdempotent | code_agent_pro/backend/agent_engine.py:370 | filtering twice is filtering once |
| Mermaid.SafeTextEmpty | code_agent_pro/backend/agent_engine.py:370-371 | filtering leaves nothing exactly when no character is admitted |
| Mermaid.NodeLabel | code_agent_pro/backend/agent_engine.py:369-371 | the label is the filtered text when some character is admitted, else "操作"; it is never empty and made of admitted characters |
| Mermaid.NoSpaces | code_agent_pro/backend/agent_engine.py:368-375 | ids have no spaces |
| Mermaid.NodeLine | code_agent_pro/backend/agent_engine.py:367-372 | a node line exists exactly when the node is a dict whose id and text are strings |
| Mermaid.EdgeLine | code_agent_pro/backend/agent_engine.py:373-381 | an edge line exists exactly when the edge is a dict whose "from" and "to" are strings and whose label, when truthy, is a string |
| Mermaid.NodeLineShape | code_agent_pro/backend/agent_engine.py:368-372 | a node line is the id without spaces, then `("`, the label of its text, then `")` |
| Mermaid.EdgeLineShape | code_agent_pro/backend/agent_engine.py:373-381 | an edge line is `from --> to` for a falsy label, and `from -- "label" --> to` with the filtered label otherwise, the ends without spaces |
| Mermaid.AllLines | code_agent_pro/backend/agent_engine.py:367-381 | the lines exist exactly when no item raises, one per item, in order |
| Mermaid.CollectLines | code_agent_pro/backend/agent_engine.py:367-381 | the appending loop gives the lines `AllLines` specifies, or stops at the first item that raises |
| Mermaid.AllLinesSnoc | code_agent_pro/backend/agent_engine.py:372 | appending one more item's line extends the lines by it |
| Mermaid.AllLinesFails | code_agent_pro/backend/agent_engine.py:383-384 | one item that raises makes the whole diagram fail |
| Mermaid.Lines | code_agent_pro/backend/agent_engine.py:362-382 | any list of lines built starts with the "graph TD" header |
| Mermaid.DiagramLines | code_agent_pro/backend/agent_engine.py:362-382 | the method builds the lines `Lines` specifies |
| Mermaid.Diagram | code_agent_pro/backend/agent_engine.py:360-384 | what `generate_mermaid_from_json` returns; its contract is carried by `DiagramIsFlowchart`, `DiagramWithoutNodes` and `LinesCount`, and `GenerateMermaid` computes it |
| Mermaid.GenerateMermaid | code_agent_pro/backend/agent_engine.py:360-384 | the method returns the diagram `Diagram` specifies, with the failure diagram wherever Python raises |
| Mermaid.DiagramIsFlowchart | code_agent_pro/backend/agent_engine.py:360-384 | whatever the reply, the output starts with "graph TD" |
| Mermaid.LinesCount | code_agent_pro/backend/agent_engine.py:366-382 | after the header come one line per node and then one line per edge, in input order |
| Mermaid.DiagramWithoutNodes | code_agent_pro/backend/agent_engine.py:363-365 | with no nodes the diagram is the fixed placeholder, whatever the edges |
| Review.RunCode | code_agent_pro/backend/agent_engine.py:426-459 | a finished run gives its normalized stdout and stderr; a compile error, timeout or harness error gives no output |
| Review.RunCodeErrors | code_agent_pro/backend/agent_engine.py:440-459 | a compile error or a timeout gives a non-empty error, so the case fails; any other failure gives `str(e)` as the error |
| Review.CaseReport | code_agent_pro/backend/agent_engine.py:621-630 | a case adds to the report exactly when it fails |
| Review.FailureLine | code_agent_pro/backend/agent_engine.py:621-627 | a failing case always writes a report line |
| Review.ReportsEmpty | code_agent_pro/backend/agent_engine.py:615-630 | the report of the cases is empty exactly when every case passes |
| Review.PassFromEach | code_agent_pro/backend/agent_engine.py:615-630 | the run passes exactly when each case passes |
| Review.TestRun | code_agent_pro/backend/agent_engine.py:615-635 | `run_passed` and `run_report` of a round; its contract is carried by `TestRunPasses`, `ReportsEmpty` and `PassFromEach`, and `RunTests` computes it |
| Review.TestRunPasses | code_agent_pro/backend/agent_engine.py:615-635 | a round passes exactly when nothing is tested or every case has no error and the expected output; a tested round's report is empty exactly when it passes |
| Review.RunTests | code_agent_pro/backend/agent_engine.py:615-635 | the test phase yields the `run_passed` and `run_report` that `TestRun` specifies |
| Review.RunCases | code_agent_pro/backend/agent_engine.py:618-630 | the loop over the cases, with any runner, gives the pass flag and the report of all runs in order |
| Review.CheckCase | code_agent_pro/backend/agent_engine.py:619-630 | a case passes when it has no error and prints the expected output; it reports an error before a mismatch |
| Review.Observe | code_agent_pro/backend/agent_engine.py:597-688 | what a round observes: no code, or the test result and the review; its contract is carried by `ObserveSound`, `ObserveWithoutCode`, `ObserveWithCode`, `ReviewOfHighScore` and `ReviewOfPrevious` |
| Review.ObserveRound | code_agent_pro/backend/agent_engine.py:597-688 | a round's extraction, tests and review give what `Observe` specifies |
| Review.Advance | code_agent_pro/backend/agent_engine.py:600-729 | how a round changes the loop state and whether it breaks; its contract is carried by `AdvanceAppends`, `AdvanceWithoutCode`, `AdvanceStopsIff`, `FirstRoundOfUserCodeContinues` and `AdvanceStopFacts` |
| Review.AdvanceRound | code_agent_pro/backend/agent_engine.py:600-729 | the rest of a round updates the state as `Advance` specifies |
| Review.Round | code_agent_pro/backend/agent_engine.py:595-729 | one round either leaves the loop with the whole loop's result, or leaves the remaining rounds to the new state |
| Review.RunWith | code_agent_pro/backend/agent_engine.py:595-729 | the rounds from `attempt` on, for an observer; its contract is carried by `RunIterationsBounded`, `RunHistoryBounded`, `RunFinalReview` and `RunEarlyExit`, and `Rounds` computes it |
| Review.Rounds | code_agent_pro/backend/agent_engine.py:595-729 | the `for attempt` loop with its `break` computes the rounds `RunWith` specifies |
| Review.Run | code_agent_pro/backend/agent_engine.py:592-729 | the orchestrator's five rounds; its contract is carried by `LoopEarlyExit` and `LoopFinalReview`, and `ReviewLoop` computes it |
| Review.ReviewLoop | code_agent_pro/backend/agent_engine.py:592-729 | the orchestrator's loop ends in the state, and with the `break`, that `Run` specifies |
| Review.Init | code_agent_pro/backend/agent_engine.py:487-593 | the loop starts from the code and history built before it, with previous score 0, no final review and no test result yet |
| Review.AdvanceAppends | code_agent_pro/backend/agent_engine.py:589-726 | a round only appends: at most two messages and one iteration event |
| Review.AdvanceWithoutCode | code_agent_pro/backend/agent_engine.py:600-611 | a round without code asks again and tests, reviews and records nothing |
| Review.AdvanceStopsIff | code_agent_pro/backend/agent_engine.py:696-701 | the loop is left exactly on a passing run with a score of 95 or more that is not the first round of user code |
| Review.FirstRoundOfUserCodeContinues | code_agent_pro/backend/agent_engine.py:696-698 | the first round of user code never leaves the loop |
| Review.ReviewOfHighScore | code_agent_pro/backend/agent_engine.py:640-688 | a score of 95 or more comes only from a passing audit of a passing run |
| Review.ReviewOfPrevious | code_agent_pro/backend/agent_engine.py:640-688 | the previous score moves only on a passing run with a decoded audit, and then to the raw score |
| Review.ObserveSound | code_agent_pro/backend/agent_engine.py:597-688 | every observed review of 95 or more is a passing review of a passing run |
| Review.ObserveWithoutCode | code_agent_pro/backend/agent_engine.py:598-611 | a reply without extractable code is observed as such, whatever the model answers |
| Review.ObserveWithCode | code_agent_pro/backend/agent_engine.py:597-688 | a reply with code is observed by testing it and reviewing the result |
| Review.AdvanceStopFacts | code_agent_pro/backend/agent_engine.py:690-701 | a round that leaves the loop leaves a passing run and a passing final review of 95 or more, the review of its own iteration event |
| Review.SteadyScoreStops | code_agent_pro/backend/agent_engine.py:683-701 | two passing audits in a row with the same score of 85 or more end the loop with a final score of 95 |
| Review.RunIterationsBounded | code_agent_pro/backend/agent_engine.py:592-729 | at most five iteration events are produced, and they are only appended |
| Review.RunHistoryBounded | code_agent_pro/backend/agent_engine.py:592-729 | the history only grows, by at most two messages per round |
| Review.ExtendsTransitive | code_agent_pro/backend/agent_engine.py:602-726 | appending twice is appending |
| Review.RunFinalReview | code_agent_pro/backend/agent_engine.py:698-729 | a final review is set only after some round was reviewed, and it is the review of the last iteration event |
| Review.LoopFinalReview | code_agent_pro/backend/agent_engine.py:592-729 | from the loop's entry state, a final review is set only after some round was reviewed, and it is the review of the last iteration event |
| Review.RunEarlyExit | code_agent_pro/backend/agent_engine.py:698-701 | for any sound observer, a loop left with `break` ends on a passing run and a passing review of 95 or more |
| Review.LoopEarlyExit | code_agent_pro/backend/agent_engine.py:592-729 | the orchestrator's loop, when left with `break`, ends on a passing run and a passing review of 95 or more |
| Review.FinishAsWritten | code_agent_pro/backend/agent_engine.py:731-737 | the post-loop branch as written; when it crashes is stated by `FinishAsWrittenCrashes` and `SilentCoderCrashes` |
| Review.FinishAsWrittenCrashes | code_agent_pro/backend/agent_engine.py:731-735 | the post-loop branch as written crashes exactly when no round was tested, or the last test failed and no final review was set |
| Review.SilentCoderCrashes | code_agent_pro/backend/agent_engine.py:595-735 | a first reply without code whose regenerations all break leaves `run_passed` unbound, and the branch as written crashes |
| Review.Finish | code_agent_pro/backend/agent_engine.py:731-737 | the corrected branch never crashes, gives up exactly when the run did not pass, and agrees with the original wherever that does not crash |

## Left out

- Language-model calls (`call_llm`, `call_llm_direct`, `call_llm_stream`), the log and `code_chunk` events, and the prompt texts are not modelled. Each round's answers are inputs. A stream that breaks is an absent reply (`None`).
- `run_code` is not modelled beyond its result. Temporary files, `g++`, subprocesses, the 5-second timeout and the file clean-up are OS input/output. An `Executor` returns how a run ended, and `Review.RunCode` turns that into the `(actual, error)` pair.
- `json.loads` and `json.dumps` are not modelled: decoding is the `Parser` parameter. JSON numbers are integers only, so floats and `int()` of a float are left out.
- The phases before the loop (intent, test-case extraction, design and first generation, lines 490-589) are not modelled. So are the improver call after the loop (739-749) and the concurrent report phase (754-786). Their results are the loop's `Context` and initial state.
- `approved_design` is taken to be `None` or a dict. `json.dumps` of it in the audit prompt is prompt text.
- The lock's violation message prints a Python set, whose element order is not defined. `ArchLock.Message` gives that message without the set; the verdict carries the set itself.
- The lock's Python parser (`ast.parse`, `ast.walk`) is not modelled. Each program is given as its set of function and class names, or as its syntax error.
- The engine only mentions the lock in a comment and never calls it. So the model keeps it separate from the loop, and no round's score depends on it.
- The test condition `current_lang != "unknown"` always holds, because `detect_language` only returns "python" or "cpp". `Review.Tested` leaves it out.
- `\w` is ASCII only, and whitespace is the character set of `str.isspace`. Full Unicode `\w` is not modelled.
- The case folding of `re.IGNORECASE` covers "json" only: both cases of each letter, plus U+017F, which matches `s`.
- Exception messages are modelled only as far as the engine passes them on. Decoding errors are the `Parser`'s own text. `Repr` quotes every string with single quotes, without Python's escaping or its choice of quote.
- PyJson.IntLiteral: `int()` of a string accepts ASCII digits only. Python also accepts other Unicode decimal digits (`int("٣") == 3`), and it refuses literals of more than 4300 digits. Neither is modelled.
- A decoded object is a list of key-value pairs, and `PyJson.DictGet` returns the value of the first pair with the key. `json.loads` never yields duplicate keys, because it keeps the last value for a repeated key. The `Parser` is assumed to do the same, so first and last agree.
- Extraction.SkipSpaceSpec: `\s+` and `\s*` take the whole run of whitespace instead of backtracking. Every literal after them starts with a character that is not whitespace, so this matches the same positions.

## Findings

| source | as written | input that shows it | evidently intended | confidence | as-written member | corrected member |
|---|---|---|---|---|---|---|
| code_agent_pro/backend/agent_engine.py:731-735 | after the loop, `run_passed` is read even when no round was tested, and `final_review.get` is called even when `final_review` is `None` | a first reply with no code block or marker, and the coder's stream breaking in every round: all five rounds take the `continue`, and `if not run_passed` raises `UnboundLocalError`; likewise a failing round followed by a last round without code reaches `None.get` | a loop that never reached a passing run ends with the failure report, quoting the final critique when there is one | not executed | Review.FinishAsWritten, Review.SilentCoderCrashes | Review.Finish |
