# Pull-request webhook: diff analyzer and payload parser

A Dafny model of the two pieces of logic inside a GitHub pull-request webhook
service (the `ai-pr-reviewer` repository):

* **Diff pattern analyzer** (`analyze_diff`). The raw diff text is split with
  Python's `str.splitlines()`, and every line is checked against two ordered
  rules. An added line (one starting with `+`) containing `print(` gets the
  "avoid print" feedback. Otherwise, an added line longer than 120 characters
  gets the "line too long" feedback. The result is a summary
  `"Found N suggestions."` and the ordered list of `{line, feedback}` pairs.
  `+++` file-header lines are added lines like any other.
* **Event filter and payload parser** (`is_pull_request_event`,
  `parse_pull_request_payload`). An event is in scope only when the
  `X-GitHub-Event` header is exactly `pull_request`. A payload whose `action`
  is not `opened` or `synchronize` is ignored (`None`). Otherwise a
  seven-field record is built from tolerant `dict.get` lookups: a missing key
  gives `None`, and a missing sub-object defaults to `{}`.

Files:

* `wrappers.dfy` — `Option` and `Result`.
* `text.dfy` — `str.startswith`, the substring test `sub in s`, and decimal
  rendering of a count, with its inverse.
* `lines.dfy` — `str.splitlines()`, with the full set of line boundaries
  Python recognises (`\n`, `\r`, `\r\n` as one boundary, `\v`, `\f`,
  `\x1c`, `\x1d`, `\x1e`, `\x85`, `\u2028`, `\u2029`) and no empty last line
  after a trailing boundary.
* `review_engine.py` → `review_engine.dfy` — `AnalyzeDiff` is a method whose
  loop appends to the suggestion list, as the source does. It is proved
  against the specification function `Suggestions`, and the properties of the
  analysis are lemmas about that function.
* `json.dfy` — decoded JSON values and `dict.get`, plus `LookupPath`, a
  reference definition of "the value at this path of keys".
* `webhook_handler.py` → `webhook_handler.dfy` — the filter and parser as
  pure functions. The parser's result is `Ignored` (the source returns
  `None`), `Parsed(details)`, or `Failed(path)`.

Design choices:

* A present sub-record that is not an object makes Python's `.get` raise.
  Examples are `"pull_request": null` and `"user": "x"`. This is modelled as
  the error outcome `Failed(path)`, not as a precondition. The path named is
  the first such sub-record in the order the dict literal evaluates them:
  `pull_request`, then `pull_request.user`, then `repository`, then
  `pull_request.head`.
* Each field of the parsed record is an `Option<Json>`, and `None` means the
  key was missing. Python cannot tell a missing key from a JSON `null`, and
  `DetailsToJson` renders both as `null`.
* The feedback of a suggestion is the two-valued `Feedback`. Its `Text()` is
  the exact message string of the source.
* Headers are an exact-key `map<string, string>`, and the payload is a JSON
  object (`map<string, Json>`).
* The code accepts only the `pull_request` event type and only the
  actions `opened` and `synchronize`. It does not validate `diff_url`: an
  empty URL, or one not starting with `https://github.com/`, is copied
  through (`ExampleUncheckedDiffUrl`). It does not skip `+++` header lines.
* `AnalyzeDiff` is a method, but its postconditions fix both `details` and
  `summary` as functions of the input, so analysing the same input twice gives
  the same result. The parser is a function over values, so it cannot modify
  the payload.

## Model

| member | source | states |
|---|---|---|
| `ReviewEngine.AnalyzeDiff` | src/review_engine.py:3-31 | the details are the per-line suggestions of `diff_content.splitlines()`, in order; the summary is "Found N suggestions." for their number; there are no more suggestions than lines; each one names an added input line |
| `ReviewEngine.LineFeedback` | src/review_engine.py:17-26 | a line is flagged iff it is added and contains `print(` or is longer than 120 characters; it gets the print feedback iff it is added and contains `print(`, whatever its length; it gets the length feedback iff it is added, has no `print(` and is longer than 120 (`Feedback.Text` holds the two message strings of lines 20 and 25 verbatim) |
| `ReviewEngine.SuggestionsConcat` | src/review_engine.py:16-27 | no state carries across lines: analysing `a + b` gives the suggestions of `a` followed by those of `b` |
| `ReviewEngine.SuggestionsBound` | src/review_engine.py:16-27 | at most one suggestion per line |
| `ReviewEngine.SuggestionsComeFromAddedLines` | src/review_engine.py:16-26 | every suggestion's line is an input line, verbatim, that starts with `+`, and its feedback is the one the rules give that line |
| `ReviewEngine.SuggestionOfLineInPlace` | src/review_engine.py:16-27 | order is kept: line i's suggestion, if any, comes after those of all earlier lines and before those of all later lines |
| `ReviewEngine.IsAdded` | src/review_engine.py:17 | a line is added iff it is non-empty and its first character is `+` |
| `ReviewEngine.HeaderLinesAreChecked` | src/review_engine.py:17-22 | a `+++` header line gets the print feedback if it contains `print(`, else the length feedback if it is longer than 120, else none: exactly the rules for any added line |
| `ReviewEngine.ExampleHeaderLine` | src/review_engine.py:17-21 | the header line `+++ b/print(x)` gets the print feedback |
| `ReviewEngine.Summary` | src/review_engine.py:29 | the summary is `Found `, then the decimal count, then ` suggestions.` |
| `ReviewEngine.SummaryDeterminesCount` | src/review_engine.py:28-29 | the summary string determines the number of suggestions |
| `ReviewEngine.ExampleMixedDiff` | src/review_engine.py:16-27 | of `+print('x')`, `+short line` and `-removed`, only the print line is flagged |
| `ReviewEngine.ExampleSummary` | src/review_engine.py:29 | one suggestion is summarised as "Found 1 suggestions." |
| `ReviewEngine.ExampleEmptyDiff` | src/review_engine.py:16-29 | an empty diff has no lines and is summarised as "Found 0 suggestions." |
| `ReviewEngine.ExampleLongLine` | src/review_engine.py:22-26 | `+` followed by 130 `a` characters yields exactly one suggestion, with the length feedback |
| `ReviewEngine.ExampleLengthLimit` | src/review_engine.py:22 | an added line of exactly 120 characters is not flagged; one of 121 is |
| `Lines.SplitLines` | src/review_engine.py:16 | `splitlines()` yields lines free of line boundaries, no more lines than characters |
| `Lines.SplitLinesKeepsText` | src/review_engine.py:16 | the lines, glued back together, are exactly the input's non-boundary characters in order: splitting drops the boundaries and nothing else |
| `Lines.SplitAtBreak` | src/review_engine.py:16 | each of `\n`, `\r`, `\v`, `\f`, `\x1c`, `\x1d`, `\x1e`, `\x85`, `\u2028`, `\u2029` ends the boundary-free line before it and the rest is split on its own (a `\r` followed by `\n` excepted); a boundary at the very end starts no empty line |
| `Lines.SplitAtCrLf` | src/review_engine.py:16 | `\r\n` is a single boundary: it ends the line before it and starts no empty line |
| `Lines.SplitJoinRoundTrip` | src/review_engine.py:16 | splitting lines written out with a `\n` after each gives back exactly those lines, with no empty last line |
| `Lines.SplitFirstLine` | src/review_engine.py:16 | a boundary-free line followed by `\n` is split off as one line, and the rest is split on its own |
| `Text.StartsWith` | src/review_engine.py:17 | `s.startswith(p)` holds iff `p` is no longer than `s` and agrees with it character by character |
| `Text.Contains` | src/review_engine.py:17 | `sub in s` holds only when `sub` is no longer than `s`, and holds whenever `s` starts with `sub` (the full characterisation is `Text.ContainsIffOccurs`) |
| `Text.ContainsIffOccurs` | src/review_engine.py:17 | the substring test `"print(" in line` holds iff `print(` occurs at some index of the line |
| `Text.NatToString` | src/review_engine.py:29 | the rendered count is a non-empty run of decimal digits with no leading zero; zero is written `0` |
| `Text.DecimalRoundTrip` | src/review_engine.py:29 | reading the rendered count back as a decimal number gives the count |
| `JsonTree.Get` | src/webhook_handler.py:8 | `d.get(key)` is `Some` iff the key is present, and then holds its value |
| `WebhookHandler.SubRecord` | src/webhook_handler.py:18-28 | `d.get(key, {})` used with `.get`: a missing key gives `{}`; it succeeds iff the value at the key is absent or an object, and then yields that object; otherwise it fails with the value found there |
| `WebhookHandler.IsPullRequestEvent` | src/webhook_handler.py:4-8 | true iff the headers map `X-GitHub-Event` to exactly `pull_request`; a missing header gives false |
| `WebhookHandler.AcceptedAction` | src/webhook_handler.py:15 | true iff the action is present and is the string `opened` or `synchronize` |
| `WebhookHandler.ParsePullRequestPayload` | src/webhook_handler.py:10-31 | ignored iff `action` is absent or is not the string `opened` or `synchronize`; a parsed record's action is the payload's action |
| `WebhookHandler.ParsedIff` | src/webhook_handler.py:14-29 | a record is returned iff the action is accepted and every present sub-record that is used (`pull_request`, its `user` and `head`, `repository`) is an object |
| `WebhookHandler.FailedAtFirstUnusable` | src/webhook_handler.py:18-28 | a failure names the first sub-record, in evaluation order, that is present but not an object, after an accepted action |
| `WebhookHandler.ParsedFieldsFollowPaths` | src/webhook_handler.py:21-29 | each field is the value at its path: `pr_id` = `pull_request.id`, `title` = `pull_request.title`, `author` = `pull_request.user.login`, `diff_url` = `pull_request.diff_url` verbatim, `repo_name` = `repository.full_name`, `branch` = `pull_request.head.ref`; a missing key anywhere gives `None` |
| `WebhookHandler.MissingPullRequestGivesNone` | src/webhook_handler.py:18-28 | with no `pull_request` sub-record, parsing still succeeds and every field drawn from it is `None` |
| `WebhookHandler.ExampleUncheckedDiffUrl` | src/webhook_handler.py:23-26 | a non-GitHub `diff_url` is copied unchecked, and `number` does not stand in for a missing `id` |
| `WebhookHandler.ExampleNullPullRequest` | src/webhook_handler.py:18-23 | `"pull_request": null` fails at `pull_request` |
| `WebhookHandler.DetailsToJson` | src/webhook_handler.py:21-29 | the returned dict has exactly the keys `action`, `pr_id`, `title`, `author`, `diff_url`, `repo_name`, `branch`, each holding its field's value, with `None` rendered as `null` |

## Left out

- `fetch_pr_diff` (src/webhook_handler.py:33-46 and src/utils.py:36-70): an outbound HTTPS request through the `requests` library, whose only logic is "status 200 gives the body, anything else raises".
- The commented-out copy of `fetch_pr_diff` in src/utils.py:3-30: dead code.
- src/app.py (a Flask route returning a constant) and src/send_post_request.py (a script that posts a sample payload): HTTP plumbing and a test harness.
- Case-insensitive header lookup that Flask's header object may provide: headers are an exact-key map.
- A payload that is not a JSON object at the top level, and JSON numbers other than integers: the payload is a `map<string, Json>` and `Json` has no floats.
- Python strings holding lone surrogate code points: Dafny characters are Unicode scalar values.
- The key order of the returned dicts: Dafny maps are unordered, so `DetailsToJson` states the key set and each value, not their order.
- The JSON rendering of the analyzer's `{"summary", "details"}` dict: the model returns the `Review` datatype, and `Feedback.Text()` gives each message string.
