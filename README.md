# Twitter sentiment analysis with Repustate — a Dafny model

`LeonRepustate.py` searches Twitter for a query, sends every tweet text to
the Repustate sentiment endpoint (`score.json`) and entity endpoint
(`entities.json`), and summarises the results: how many tweets scored
positive or negative, how often each entity title occurred, and which
titles occurred most often.  Failed requests go to an error log.

This project models the logic of that script that does not depend on I/O:

- `twitter.dfy` (module `TwitterSearch`): the status object, `on_status`
  (which text a tweet or retweet reports), and the loop in `getTweetsText`
  that maps the search results to texts.
- `repustate.dfy` (module `Repustate`): the shapes of the two service
  replies and the `'Fail'` status test.
- `display.dfy` (module `Display`): `displayTool`.  It has a loop that counts
  positive and negative scores, a loop that builds the title -> count
  dictionary in place, `max` over the counts, and the list of titles
  that have the maximum count.
- `count_input.dfy` (module `CountInput`): the test that ends the
  tweet-count prompt (`isdigit()` and `int(count) < 100`).
- `orchestrator.dfy` (module `Orchestrator`): the `__main__` block after
  the prompts.  It writes the tweet texts, runs the per-tweet
  classification loop (failure counter, error log, `score` and `titles`
  lists), and runs the report only when `failCount < int(count)`.
- `wrappers.dfy` (module `Wrappers`): an `Option` type for absent attributes.

The loops of the script are Dafny methods with loop invariants.  Most are
proved against a specification function over their input, such as
`Texts`, `Positives`, `Occurrences`, `ScoredSentiments` or `ErrorLog`.
`TweetsFileRecords` and `MaxCount` are proved against element-wise and bound
statements.  Lemmas then
prove what the script promises about those functions.  The lists and the
dictionary that the script updates are local to one call, so they become
method locals. No class is needed.

Inputs from the outside world become parameters:
- the list of statuses that the search returned;
- for each tweet text, the two service replies (`Orchestrator.Reply`), aligned with the texts;
- the count string that the user accepted.

The console output, `tweets.txt`, `ErrorLog.txt` and `record.txt` become
values. These are the `Report` and `RunOutcome` datatypes, the error log as a
sequence of records (one per `write` call), and the tweet-file records.

Two facts about the code are worth stating:
- The test at line 181 accepts the count `"0"`. With that count, `failCount < int(count)` at line 219 never holds, so the report never runs, even when every request succeeds.
- The entities request is made even when the sentiment request failed. Its
  reply is then ignored (`SentimentFailureHidesEntities`).

The model also exposes a crash in the script. Suppose `failCount < int(count)`
but no entity record was collected. Then `displayTool` applies `max` to an
empty dictionary at line 155. This raises ValueError after the first four
report lines are printed. One input that leads there: every sentiment request
fails, and the search returns fewer tweets than were asked for.
`AllSentimentsFailedOutcome` proves that this input produces such a report.
The model keeps the script's behaviour: the crash is a report whose
most-frequent set is absent.

## Model

| member | source | states |
|---|---|---|
| `TwitterSearch.OnStatus` | LeonRepustate.py:38-56 | For a retweet the text comes from the original status, otherwise from the status itself. In both cases it is `full_text` when that is present and `text` otherwise. |
| `TwitterSearch.RetweetReadsOriginalOnly` | LeonRepustate.py:47-51 | A retweet's own `full_text`/`text` never affect the result. Only one level of `retweeted_status` is followed. |
| `TwitterSearch.Texts` | LeonRepustate.py:75-76 | The texts of the statuses: one per status, in the same order, each equal to `on_status` of that status. |
| `TwitterSearch.GetTweetsText` | LeonRepustate.py:73-77 | The append loop returns exactly `Texts` of the returned statuses. |
| `Display.PolarityPartition` | LeonRepustate.py:134-138 | Every score is exactly one of positive, negative or zero, so the three counts sum to the number of scored replies. |
| `Display.CountPolarity` | LeonRepustate.py:129-138 | `positive` counts scores > 0 and `negative` counts scores < 0. Zero raises neither, so `positive + negative` is the number of replies minus the zero scores. |
| `Display.OccursIffPresent` | LeonRepustate.py:139-144 | A title occurs at least once exactly when it is among the collected titles. |
| `Display.Frequencies` | LeonRepustate.py:131-144 | After the entity loop, the dictionary's keys are exactly the distinct titles, and each value is that title's number of occurrences. |
| `Display.TableTotal` | LeonRepustate.py:139-144 | The dictionary's values sum to the number of entity records. |
| `Display.TitleSetBound` | LeonRepustate.py:154 | The printed unique-entity count never exceeds the number of entity records. |
| `Display.MaximumAttained` | LeonRepustate.py:155 | A non-empty dictionary has a key whose count no other key exceeds. |
| `Display.MaxCount` | LeonRepustate.py:155 | `max(titles.values())` is one of the counts and is at least every count. It is absent (ValueError) exactly when the dictionary is empty. |
| `Display.MostFrequent` | LeonRepustate.py:155-156 | The most-frequent list holds exactly the titles whose count equals the maximum. It is non-empty, and absent exactly when the dictionary is empty. |
| `Display.DisplayTool` | LeonRepustate.py:122-156 | The report gives the number of scored tweets, the positive and negative counts, the title table, the number of distinct titles and the most frequent titles. The last is absent (the `max` failure) exactly when no entity was collected. |
| `Display.ReportConsistent` | LeonRepustate.py:134-156 | In any report, positive + negative is at most the total, the table's counts sum to the number of entity records, the unique count is the number of distinct titles and at most the number of records, and the most-frequent list is never empty. |
| `Display.ReportDetermined` | LeonRepustate.py:139-156 | The title table and the most-frequent set are uniquely determined by the entity records. |
| `Display.ThreeTweetExample` | LeonRepustate.py:134-156 | Scores 1, -1, 0 with titles X, X, Y give one positive, one negative, {X: 2, Y: 1}, two unique entities and most frequent {X}. |
| `CountInput.DigitsValue` | LeonRepustate.py:181 | `int(count)` of a digit string. An n-digit value is below 10^n, and at least 10^(n-1) when the first digit is not zero. |
| `CountInput.BelowHundredByLength` | LeonRepustate.py:181 | A digit string has a value below 100 exactly when at most two digits remain after its leading zeros are dropped. |
| `CountInput.CountAccepted` | LeonRepustate.py:180-182 | The prompt ends on `isdigit()` and `int(count) < 100`. That is exactly a non-empty all-digit string with at most two digits after its leading zeros, so `"0"` is accepted. |
| `CountInput.CountExamples` | LeonRepustate.py:180-182 | "0", "99" and "007" are accepted. "", "100", "-1" and "5 " are re-prompted. |
| `Orchestrator.VerdictOf` | LeonRepustate.py:206-216 | The sentiment status is tested first. A tweet is scored exactly when neither status is `'Fail'`. It counts as an entities failure only when the sentiment succeeded. |
| `Orchestrator.LogRecords` | LeonRepustate.py:206-212 | A scored tweet writes nothing to the error log. A failed tweet writes two records: the tweet text, then "Sentiment request error: " with the sentiment description when the sentiment failed, otherwise "Entities request error: " with the entities description. |
| `Orchestrator.ClassificationCounts` | LeonRepustate.py:203-216 | Scored tweets plus logged tweets equal all tweets. The log holds exactly two records per logged tweet. `failCount` never exceeds the number of logged tweets. |
| `Orchestrator.CollectedOnlyFromScored` | LeonRepustate.py:213-216 | An entity record is in `titles` exactly when it belongs to the entities reply of a tweet whose two requests both succeeded. |
| `Orchestrator.ScoredOnlyFromScored` | LeonRepustate.py:213-214 | A sentiment reply is in `score` exactly when it belongs to a tweet whose two requests both succeeded. |
| `Orchestrator.AllSentimentsFailed` | LeonRepustate.py:206-209 | When every sentiment request fails, `failCount` equals the number of tweets and nothing is aggregated. |
| `Orchestrator.SentimentFailureHidesEntities` | LeonRepustate.py:204-209 | On a sentiment failure the entities reply, failed or not, has no effect on what is logged, and the tweet writes exactly two records (two `write` calls). |
| `Orchestrator.AllSentimentsFailedOutcome` | LeonRepustate.py:155-222 | When every sentiment request fails, the report runs exactly when fewer tweets came back than were requested. Any such report has an empty table and no most-frequent set, which is the `max` ValueError at line 155. |
| `Orchestrator.ClassifyTweets` | LeonRepustate.py:201-217 | After the loop, `failCount` is the number of sentiment failures. `score` holds the sentiment replies of the fully successful tweets in order, and `titles` their entity lists concatenated in order. The error log holds each failed tweet's two records in order. |
| `Orchestrator.TweetsFileRecords` | LeonRepustate.py:196-198 | `tweets.txt` receives one write per fetched tweet, in order: that tweet's text followed by a space. |
| `Orchestrator.Run` | LeonRepustate.py:185-222 | No tweets gives the no-match message and nothing else. Otherwise the tweet file has one record per status, the log and `failCount` are as in the classification, the report is produced exactly when `failCount < int(count)`, and it summarises the scored replies and collected entities. |

## Left out

- The `TwitterAPI` constructor (OAuth set-up) and the `api.search` call are network I/O through a foreign library. The statuses they return are an input of `Run`.
- `RepustateAPI` (endpoint URLs, `requests.post`, `.json()`) is HTTP to an opaque service. Its replies are an input of `Run`, one `Reply` per tweet text. Two identical texts may receive different replies.
- The interactive prompts and their re-prompt loops are console I/O. Only the count test `CountAccepted` is modelled. The query, `until` and `result_type` answers only feed the search call.
- Writing the three files and printing to the console are output only. They are modelled as values: the tweet-file records, the error log as a sequence of records (each one `write` without its trailing newline), and the `Report` fields.
- TweetsFileRecords: counts writes, not lines of `tweets.txt`. A tweet text that contains a newline spans several lines of the file.
- ClassifyTweets: its error log, and the two-records-per-failure count of `ClassificationCounts`, count writes, not lines of `ErrorLog.txt`. A tweet text or service description that contains a newline spans several lines.
- The order of the `record.txt` lines and of the most-frequent list follows dictionary iteration order. It is not modelled: the table is a `map` and the list is a `set`.
- `.encode('utf8')`: texts and titles are opaque strings.
- Sentiment scores are integers rather than floats, since only their sign is used.
- A success reply without a `score` or `entities` field is not modelled (Python 2 would compare `None` with 0, or fail to iterate). Both fields are always present in the reply datatypes.
- A failed reply without a `description` would print `None`. The description is always a string here.
- DisplayTool: an entity record without a `title` makes `data.get('title').encode('utf8')` at line 140 raise AttributeError, so `displayTool` stops before it writes or prints anything. `Repustate.Entity` always has a title, so this error path is not modelled.
- LogRecords: the error record at lines 209 and 212 puts the reply's `description` (a unicode string from `.json()`) into a byte-string template. Under Python 2 a non-ASCII description raises UnicodeEncodeError and ends the run partway through the loop. The model treats descriptions as opaque strings and always produces the second record.
