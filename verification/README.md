# Hiring-assistant interview wizard: a Dafny model

The repository is a Streamlit interview wizard for screening technical
candidates, and it comes in two variants.

`app.py` is a three-step wizard:
1. It collects a candidate profile.
2. It poses three fixed questions per technology in the candidate's
   comma-separated tech stack.
3. It scores how many questions were answered, grades the candidate,
   recommends a role, and shows a sentiment band for each answer.

`app_v2.py` differs in two ways. It asks a language model for questions in
a small Markdown format and parses them. It grades on a different scale and
gives one feedback line per answer.

This project models the logic of both variants:

- **`text.dfy` (`Text`):** the Python string operations the wizard relies
  on. These are `str.isspace`, `strip`, and `split` / `join` on one
  character.
- **`ordered_map.dfy` (`OrderedMap`):** a Python `dict` as an
  insertion-ordered association list. Assigning to a present key replaces
  its value in place; assigning to a new key appends it.
- **`completeness.dfy` (`Completeness`):** the answer sheet and the
  completeness score both evaluators compute. The score is the share of
  non-blank answers, as a percentage, or 0 when there are no questions.
- **`question_parser.dfy` (`QuestionParser`):** `parse_questions` from
  `app_v2.py`, in two forms:
  - the loop over blocks, written as a method;
  - the same computation as a function, plus the inverse renderer for the
    Markdown format the prompt asks for.
- **`parser_examples.dfy` (`ParserExamples`):** concrete and
  edge-case behaviours of the parser.
- **`app.py`'s logic, in `app.dfy` (`App`):**
  - the grade, recommendation and sentiment-band classifiers;
  - the tech-stack split;
  - the initial answer map;
  - the evaluation loop;
  - the translation and sentiment loops;
  - the session state as a class whose methods are the wizard's state
    changes.
- **`app_v2.py`'s logic, in `app_v2.dfy` (`AppV2`):**
  - the four-band grade;
  - `give_feedback`;
  - the nested evaluation loop;
  - the answer and feedback maps built from parsed questions;
  - its session state as a class.

Floats become exact `real`s, and integer counts are `nat`. A dict keyed by
technology name is a `seq<(string, V)>`. The source builds the answer and
feedback maps with dict comprehensions; they are modelled as maps over
those association lists, which is sound because every dict the wizard
builds has distinct keys (`OrderedMap.PutDistinct`). `App.Session.Valid`
states this for the answer map, and every method of `App.Session` keeps it.

## Model

| member | source | states |
|---|---|---|
| Text.Strip | app.py:249 | `strip()` gives a string that has no whitespace at either end and is empty exactly when the input is all whitespace. This is the "non-blank" test used everywhere. |
| Text.TrimLeft | app.py:249 | The left half of `strip()`: never longer than the input, and the result does not start with whitespace. |
| Text.TrimLeftParts | app.py:249 | What the left trim drops is all whitespace, and what it keeps is a suffix of the input. |
| Text.TrimRight | app.py:249 | The right half of `strip()`: never longer than the input, and the result does not end with whitespace. |
| Text.TrimRightParts | app.py:249 | What the right trim drops is all whitespace, and what it keeps is a prefix of the input. |
| Text.StripParts | app.py:249 | The input is a whitespace prefix, then the stripped text, then a whitespace suffix. |
| Text.SplitOn | app.py:249 | `split(",")` always gives at least one piece, and no piece contains the separator. |
| Text.SplitAppend | app.py:249 | Splitting `x + sep + y` gives the pieces of `x` followed by the pieces of `y`, so pieces come in text order. |
| Text.JoinSplit | app.py:249 | Joining the pieces of a one-character `split` with the separator gives back the text. |
| Text.SplitJoin | app.py:249 | Splitting a join of separator-free pieces gives back the pieces. |
| OrderedMap.Get | app.py:269 | `d.get(k)` is missing exactly when `k` is not a key. |
| OrderedMap.Put | app.py:271 | After `d[k] = v` the keys are unchanged if `k` was present; otherwise `k` is appended. |
| OrderedMap.GetPut | app.py:271 | After `d[k] = v`, `k` reads `v` and every other key reads as before. |
| OrderedMap.PutNew | app_v2.py:70 | Assigning an absent key appends one entry at the end. |
| OrderedMap.PutDistinct | app_v2.py:70 | Assignment never duplicates a key. |
| OrderedMap.GetAt | app.py:269 | In a map with distinct keys, the entry at each position is what a lookup of its key finds. |
| Completeness.CountAnswered | app.py:20 | The answered count is at most the number of pairs. It is 0 exactly when no answer is non-blank after `strip()`. |
| Completeness.IsAnswered | app.py:20 | An answer counts exactly when it is not all whitespace. |
| Completeness.CountAnsweredUpdate | app.py:271 | Overwriting one answer changes the count by the difference of the old and new answer's contributions. |
| Completeness.SumOverPut | app.py:17-20 | Replacing one technology's list changes a per-list sum by the difference of the old and new list's values. |
| Completeness.AnsweredAtMostTotal | app.py:15-20 | The answered pairs never outnumber the pairs. |
| Completeness.PercentBounds | app.py:21 | `answered / total * 100`, or 0 when `total` is 0, lies in [0, 100]. It is 100 exactly when every pair is answered and there is at least one. |
| Completeness.ScoreBounds | app.py:13-21 | The score of any sheet lies in [0, 100], with no division by zero: it is 0 when there are no pairs. It is 100 exactly when all pairs are answered. |
| Completeness.NothingAnsweredScoresZero | app.py:13-21 | A sheet with only blank answers scores 0, whatever its size. |
| Completeness.WithAnswer | app.py:271 | Writing `answers[tech][i]["answer"]` keeps the sheet's keys. |
| Completeness.FillingCounts | app.py:15-20 | Filling one blank answer keeps the total and adds one answered pair. |
| Completeness.FillingRaisesScore | app.py:13-21 | Filling one blank answer strictly raises the score and leaves the number of pairs unchanged. |
| Completeness.OneMoreAnswered | app.py:21 | At an equal total, one more answered pair is a strictly higher score. |
| Completeness.ClearingCounts | app.py:15-20 | Clearing one answered pair keeps the total and removes one answered pair. |
| Completeness.ClearingLowersScore | app.py:13-21 | Clearing one answered pair strictly lowers the score. |
| Completeness.PairsStep | app.py:17-20 | One more list adds its length to the total and its answered pairs to the count, as one round of the evaluation loop does. |
| QuestionParser.SplitBlocks | app_v2.py:63 | `re.split(r"\n(?=### )", text)` always gives at least one block. |
| QuestionParser.JoinSplitBlocks | app_v2.py:63 | The blocks joined with newlines give back the text: the split loses only the newlines it splits at. |
| QuestionParser.SplitBlocksCons | app_v2.py:63 | A newline followed by `"### "` after a block with no such break is exactly one split point. |
| QuestionParser.NoBreakJoin | app_v2.py:63 | A newline followed by anything other than `"### "` is not a split point. |
| QuestionParser.DropHashesNone | app_v2.py:68 | `replace('###', '')` leaves a string without `###` unchanged. |
| QuestionParser.DropHashes | app_v2.py:68 | `replace('###', '')` never lengthens the line. |
| QuestionParser.DropHashesHead | app_v2.py:68 | A line that does not begin with `#` keeps its first character. |
| QuestionParser.DropHashesLeavesNone | app_v2.py:68 | No `###` is left after the replacement, even where removed runs bring hashes together. |
| QuestionParser.DropHashesIdempotent | app_v2.py:68 | Replacing twice gives the same result as replacing once. |
| QuestionParser.TechName | app_v2.py:68 | The technology name is trimmed. |
| QuestionParser.DropBullet | app_v2.py:69 | `re.sub(r"^[*-]\s*", "", q)` never lengthens the line. |
| QuestionParser.DropBulletParts | app_v2.py:69 | On a line starting with `*` or `-`, exactly the marker and the whitespace after it are removed, and the rest does not start with whitespace. Any other line is kept whole. |
| QuestionParser.QuestionText | app_v2.py:69 | Each question is trimmed. |
| QuestionParser.Questions | app_v2.py:69 | Blank lines are skipped, and each question is trimmed. There are never more questions than lines. |
| QuestionParser.QuestionsAppend | app_v2.py:69 | Questions are taken line by line, in line order. |
| QuestionParser.ParseBlock | app_v2.py:66-70 | A block that yields an entry has at least one question. |
| QuestionParser.AddBlock | app_v2.py:66-70 | One round of the block loop: a block with questions adds its name at the end when the name is new and keeps the keys when it is not; a block without questions keeps the keys. |
| QuestionParser.ParseFrom | app_v2.py:65-70 | The rest of the loop never drops or reorders the keys already there; it adds at most one key per block. |
| QuestionParser.Parse | app_v2.py:62-71 | `parse_questions` has at most one entry per block. |
| QuestionParser.ParseQuestions | app_v2.py:62-71 | The loop over blocks, which inserts into the dict with overwrite, computes `Parse(text)`. |
| QuestionParser.PutWellShaped | app_v2.py:70 | Inserting a trimmed name with a non-empty list of trimmed questions keeps the dict well shaped. |
| QuestionParser.ParseWellShaped | app_v2.py:62-71 | Every parse result has distinct keys. Each key is trimmed and holds a non-empty list of trimmed questions. |
| QuestionParser.ParseLastWins | app_v2.py:65-70 | A technology's entry is the question list of the last block that names it and has questions; nothing is merged. |
| QuestionParser.SingleLineParsesEmpty | app_v2.py:63-71 | Text without a newline, the empty string included, parses to `{}`. |
| QuestionParser.TechNameOfHeading | app_v2.py:68 | The heading line `"### " + tech` yields `tech` as the name. |
| QuestionParser.QuestionsOfBullets | app_v2.py:69 | Lines `"* " + q` give back exactly the questions `q`, in order. |
| QuestionParser.ParseRenderBlock | app_v2.py:66-70 | One block in the prompt's format parses to its heading and its questions. |
| QuestionParser.SplitBlocksJoin | app_v2.py:63 | Blocks that start with `"### "` (after the first) and contain no break, joined with newlines, are split back into those blocks. |
| QuestionParser.ParseFromBlocks | app_v2.py:65-70 | Blocks whose entries have fresh, distinct names are appended in order. |
| QuestionParser.ParseRender | app_v2.py:46-54 | Any question map with distinct, well-formed names and non-empty lists, rendered in the prompt's format, parses back to itself, order included. |
| ParserExamples.TwoTechnologies | app_v2.py:62-71 | `"### Go\n* A\n* B\n### Rust\n* C"` parses to Go → [A, B], then Rust → [C]. |
| ParserExamples.NoHeading | app_v2.py:63-70 | Text before any heading is kept: its first line becomes a technology named by that line. |
| ParserExamples.HelloWorld | app_v2.py:62-71 | `"hello\nworld"` parses to `{"hello": ["world"]}`. |
| ParserExamples.TwoBlocks | app_v2.py:63 | A break between two break-free blocks splits the text into exactly those two. |
| ParserExamples.ParseTwo | app_v2.py:65-70 | Two blocks are added in order. |
| ParserExamples.RepeatedNameOverwrites | app_v2.py:70 | Two blocks with the same name keep only the later block's list. |
| ParserExamples.EmptySectionDropped | app_v2.py:70 | A heading with no questions adds nothing. |
| ParserExamples.HashesWithoutSpaceAreAQuestion | app_v2.py:63 | A line `"###Go"` with no space after the hashes does not start a block. It stays in the previous block as a question. |
| ParserExamples.BareBulletIsEmptyQuestion | app_v2.py:69 | A line that is just `*` gives an empty question. |
| App.GradeCandidate | app.py:23-28 | Always one of the five labels. Each label holds exactly on its band of strict thresholds: > 90, > 75, > 50, > 30, otherwise. |
| App.GradeMonotone | app.py:23-28 | A higher score never gets a worse grade. |
| App.GradeBoundaries | app.py:23-28 | The thresholds are strict: 90 is "A (Very Good)", 75 is "B", 50 is "C", 30 is "D (Needs Improvement)". |
| App.Recommend | app.py:30-37 | Senior exactly when the score is > 85, Mid-Level exactly when 60 < score ≤ 85, Junior otherwise. The result is fixed by the score alone, whatever `techs` is. |
| App.RoleAgreesWithGrade | app.py:23-37 | A Senior recommendation comes with an A or A+ grade, and a Junior one with B or lower. |
| App.SentimentBand | app.py:336-344 | Positive exactly when the polarity is > 0.3, Negative exactly when < -0.3, Neutral exactly between, inclusive. |
| App.Cleaned | app.py:249 | Every kept name is non-empty, trimmed, and the stripped form of some piece. |
| App.CleanedAppend | app.py:249 | Filtering and stripping the pieces distributes over concatenation, so no piece is reordered. |
| App.CleanedOne | app.py:249 | One piece is kept, stripped, exactly when it is not blank. |
| App.TechList | app.py:249 | The tech-stack split gives non-empty, trimmed names. |
| App.TechListAppend | app.py:249 | The technologies of `a + "," + b` are those of `a` followed by those of `b`, for any `a` and `b`. |
| App.TechListPiece | app.py:249 | A comma-free piece gives its stripped text, unless it is blank. With TechListAppend this fixes the list for every stack: every non-blank piece is kept, stripped, in stack order. |
| App.TechListNames | app.py:249 | Every name is the stripped form of some comma-separated piece of the stack. |
| App.TechListJoin | app.py:249 | Comma-joining trimmed, comma-free names and splitting again gives the same names in the same order. |
| App.CleanedBlank | app.py:249 | Blank pieces are all dropped. |
| App.EmptyStackNoTechs | app.py:249-250 | An empty stack gives no technologies. |
| App.TechListPair | app.py:249 | Two names separated by a comma and whitespace give those two names, in order. |
| App.GoRust | app.py:249 | `"Go, Rust"` gives `["Go", "Rust"]`. |
| App.QuestionsFor | app.py:259-263 | Each technology gets three question records, all with empty answers. |
| App.InitialAnswers | app.py:258-264 | The keys of the initial map are the technologies in first-occurrence order. A repeated name adds no key, as in a dict comprehension. |
| App.Dedup | app.py:258-264 | The first-occurrence list has no duplicates and the same elements. |
| App.InitialAnswersGet | app.py:258-264 | Every listed technology maps to its three blank questions. |
| App.InitialAnswersScoreZero | app.py:13-21 | The initial map has three pairs per distinct technology, none answered, so it scores 0. |
| App.EvaluateAnswers | app.py:13-21 | The accumulation loop returns the completeness score of the sheet. |
| App.TranslateList | app.py:280-287 | The inner loop records, for each pair, the stripped answer (translation is the identity) and its polarity. |
| App.Translated | app.py:280-287 | One translation per pair. |
| App.TranslateAll | app.py:275-289 | The outer loop builds the translation and sentiment maps of the whole sheet. |
| App.SameShape | app.py:275-289 | Both maps have the sheet's keys and list lengths. An entry is empty exactly when its answer is unanswered, and each sentiment is the polarity of the translated text. |
| App.LoadedAsWritten | app.py:256-264 | As written: an answer map that is already non-empty is kept unchanged. |
| App.AsWrittenMissesNewTech | app.py:256-271 | After answers exist for "Go", a stack of "Go, Rust" leaves "Rust" without questions, so the form's lookup fails. |
| App.LoadedCovers | app.py:256-271 | The corrected loading gives every listed technology its questions and keeps the existing entries, answers included. |
| App.LoadedFromEmpty | app.py:256-264 | From an empty map, the corrected loading builds exactly the source's initial map. |
| App.Loaded | app.py:256-264 | The corrected loading keeps every existing key in place and only appends. |
| App.LoadedDistinct | app.py:256-264 | The corrected loading never lists a technology twice. |
| App.Session.constructor | app.py:39-57 | A new session holds the defaults: step 1, no profile, empty maps, score 0, empty labels. |
| App.Session.ResetAll | app.py:59-68 | `reset_all` puts every field back to its default. |
| App.Session.GoToStep | app.py:196-205 | A navigation button sets the step and changes nothing else. |
| App.Session.SubmitInfo | app.py:226-238 | Step-1 submit stores the stripped fields and the experience, moves to step 2, and changes nothing else. |
| App.Session.Techs | app.py:249 | With no profile there are no technologies. |
| App.Session.LoadQuestions | app.py:256-264 | As written: entering step 2 builds the initial map from the listed technologies when the map is empty and keeps a non-empty map as it is. The keys stay distinct, and nothing else changes. |
| App.Session.LoadQuestionsCorrected | app.py:256-271 | Corrected: entering step 2 gives every listed technology its questions and keeps the existing lists. From an empty map it builds the source's initial map. The keys stay distinct, and nothing else changes. |
| App.Session.RecordAnswer | app.py:269-271 | Storing an answer succeeds exactly when the technology and index exist; otherwise it is the KeyError path and nothing changes. It never changes the keys. |
| App.Session.SubmitAnswers | app.py:273-300 | Submit stores the translation and sentiment maps, a score in [0, 100], the grade and recommendation for that score, and moves to step 3. The answer map keeps distinct keys. |
| AppV2.Grade | app_v2.py:80-83 | Each of the four labels holds exactly on its band of inclusive lower bounds: ≥ 80, ≥ 60, ≥ 40, otherwise. |
| AppV2.GradeMonotone | app_v2.py:80-83 | A higher score never gets a worse grade. |
| AppV2.GradeBoundaries | app_v2.py:80-83 | 80 is Excellent, 60 is Good, 40 is Average, below 40 is Poor. |
| AppV2.GiveFeedback | app_v2.py:86-88 | One of the two fixed messages; "No answer provided" exactly when the answer is blank. |
| AppV2.Evaluate | app_v2.py:73-84 | The nested counting loop returns the completeness score and the grade of that score. |
| AppV2.EvaluateExtremes | app_v2.py:79-83 | No pairs is score 0 and grade Poor; all answered is score 100 and grade Excellent. |
| AppV2.BlankPairs | app_v2.py:112 | One record per question. |
| AppV2.AnswersFromShape | app_v2.py:111-114 | The answer map has the parsed map's keys and list lengths. Each question field is the parsed question and each answer is empty. |
| AppV2.AnswersFromScore | app_v2.py:111-114 | The fresh answer map has as many pairs as there are parsed questions, none answered. |
| AppV2.FreshSheetScoresZero | app_v2.py:104-114 | Evaluating freshly parsed questions gives 0. There are pairs exactly when the parse is non-empty. |
| AppV2.FeedbackList | app_v2.py:133 | One feedback line per pair. |
| AppV2.FeedbackShape | app_v2.py:132-135 | The feedback map has the answers' keys and list lengths. Each line is `give_feedback` of its own answer, and it is "No answer provided" exactly when the answer is blank. |
| AppV2.FeedbackAgreesWithCount | app_v2.py:86-88 | The "No answer provided" lines plus the answered pairs make up every pair. |
| AppV2.Session.constructor | app_v2.py:32-42 | A new session holds the defaults: step 1, no candidate, empty text and maps, no score or grade. |
| AppV2.Session.ChooseStage | app_v2.py:92 | The sidebar sets the step and changes nothing else. |
| AppV2.Session.SubmitInfo | app_v2.py:104-114 | Submit stores the candidate and the generated text, the parsed questions, and a blank answer map of the same shape. |
| AppV2.Session.RecordAnswer | app_v2.py:126 | Storing an answer succeeds exactly when the technology and index exist, and changes only that answer. |
| AppV2.Session.Submit | app_v2.py:130-137 | Submit stores the score and grade of the current answers and the feedback map, and changes nothing else. |
| AppV2.Session.Restart | app_v2.py:154-157 | Deleting every session key and re-running the initialisation restores all defaults. |

## Left out

- The Streamlit UI is not modelled: page configuration, CSS, widgets, forms, the sidebar, the rendering of each step, and the rerun model. Each state change a widget causes is a method of the session classes.
- The step-3 display in both variants (app.py:330-335 and 345-352, app_v2.py:147-152) only formats stored values, so it is left out. The sentiment band it shows (app.py:336-344) is `App.SentimentBand`.
- `generate_questions` and the Cohere client (app_v2.py:14-15, 45-60) are a network call. Its result is the `generated` parameter of `AppV2.Session.SubmitInfo`. The error path, which returns `""`, is covered because any string is allowed.
- `sentiment_analysis` via TextBlob (app.py:9-11) is a foreign library. Polarity is the function parameter `polarity`.
- `translate_text` (app.py:5-7) is the identity and is modelled as such.
- `round(score, 2)` (app.py:292) and the float formatting in the display are left out. Scores are exact reals.
- App.Session.SubmitAnswers: stores the unrounded score, because `round` is left out.
- Every record is taken to carry an `"answer"` key. The `.get("answer", "")` default in app.py is never reached for records the wizard builds.
- The `if not lines: continue` branch of `parse_questions` (app_v2.py:67) cannot fire, because `split` always returns at least one piece (`Text.SplitOn`).
- The "Go Back to Step 1" button (app.py:252-254) is the same state change as `App.Session.GoToStep(1)`.
- The step-3 lookups `translated_answers.get(tech, ...)` and `sentiment_scores.get(tech, ...)` with their defaults are display code and are left out.
- list_hf_models.py is an HTTP request and a print, which is pure I/O.
- The resume upload (app_v2.py:100) and the dotenv configuration (app_v2.py:13-14) are I/O and environment.
- AppV2.Session.SubmitInfo: does not state the score of the new answer map, which `AppV2.FreshSheetScoresZero` proves separately.

## Findings

| source | as written | input that shows it | evidently intended | confidence | as-written member | corrected member |
|---|---|---|---|---|---|---|
| app.py:256-271 | Step 2 builds the answer map only when it is empty. After the candidate goes back and adds a technology, the new technology has no entry, and `st.session_state.answers[tech]` at line 269 raises `KeyError`. | Submit the stack "Go" and reach step 2. Press "Go to Step 1", submit the stack "Go, Rust", and reach step 2: `answers["Rust"]` is missing. | Every technology listed in the stack has its questions when the form is drawn, and answers already given are kept. | not executed | App.AsWrittenMissesNewTech | App.LoadedCovers |

`App.LoadedAsWritten` models line 256 as written, and
`App.Session.LoadQuestions` is the state change as written. `App.Loaded` is
the corrected loading, which adds only the missing technologies, and
`App.Session.LoadQuestionsCorrected` is the state change that uses it.
