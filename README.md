# QueryBridge dashboard: chat transcript, analysis payloads and charts

QueryBridge is a Streamlit dashboard. A user types a finance question and an
agent answers it. The agent picks a backend (SAP HANA, BigQuery or an
Excel/CSV file), runs SQL and replies with text or with an *analysis payload*.
A payload is a JSON object that has the keys `Insights`, `Chart_Type` and
`Columns`. The dashboard keeps a chat transcript in Streamlit's session state.
On every script run it draws each message: an analysis payload becomes
insight bullets plus Altair charts, built against the result table of the
*latest* query.

This project models the logic of `streamlit_app.py`:

- `json.dfy` (`Json`): JSON decoding as `json.loads` does it. It follows the
  acceptance rules of CPython's scanner. Objects are dicts, and a repeated
  key keeps its first position and its last value.
- `json_text.dfy` (`JsonText`): JSON text as any writer may lay it out. It
  allows any whitespace between tokens. Each string character may be spelt as
  itself, as a backslash escape, as a `\uXXXX` escape in either case, or as a
  surrogate pair. The decoder reads every such text back as the value it
  spells, and every value the decoder can produce has such a text. It is used
  to state which texts the classifier accepts.
- `analysis.dfy` (`Analysis`): the payload classifier `_parse_analysis_json`.
  It covers Python's `str.strip`, the brace check, decoding and the
  required-key check. It also models how a reader iterates the `Insights`
  entry.
- `tables.dfy` (`Tables`): the `{cols, rows}` result dict and its conversion
  to a data frame. This covers `_raw_table_to_df`, which falls back to
  positional labels. It also covers the direct construction used while
  drawing, which has no fallback.
- `pie.dfy` (`Pie`): the pie aggregation
  `df.groupby(dim, as_index=False)[measure].sum()`. It covers pandas' key
  order, the dropping of missing keys, and group sums that add up to the
  total.
- `charts.dfy` (`Charts`): the chart compiler `_build_chart_from_spec`. Its
  loop over directives and its `&` fold are kept as methods, proved against
  the function that specifies them.
- `screens.dfy` (`Screens`): what one script run shows for a sequence of
  chat bubbles. Everything drawn before an exception stays on screen, and the
  exception ends the run.
- `session.dfy` (`Session`): the session state, as a class with the agent
  state and the transcript. It covers bootstrap, the add helpers, "Clear
  chat", one question-and-answer turn, and the loop that redraws the
  transcript against the current table.

Where the code and its intended behaviour part ways, the model follows the code:

- **Payloads can raise.** `_build_chart_from_spec` and the `Insights` loop
  are not total. The model raises in these cases:
  - a directive that is not a dict (`AttributeError`);
  - a non-string `type` (`AttributeError`);
  - a `columns` dict with two or more keys (`KeyError`);
  - a numeric, boolean or null `columns` (`TypeError`);
  - a list or dict as a column name (`TypeError`);
  - an `Insights` value that is a number, a boolean or `null` (`TypeError`).

  These outcomes are modelled as `Result` faults. Each fault ends the script
  run after the bubbles already drawn.
- **Drawing uses no fallback.** The transcript loop (lines 168-169) and the
  turn (lines 212-213) build the table with `pd.DataFrame(rows, columns=cols)`
  directly, not through `_raw_table_to_df`. When the row width does not match
  the column list, this raises `ValueError`. In the transcript loop it raises
  before any bubble is drawn. `Tables.DirectTable` models this construction,
  and `Tables.RawToTable` models the adapter.
- **Clearing differs from a fresh start.** "Clear chat" sets the transcript to
  `[]`. It is not rebuilt from the new state's messages, because the
  bootstrap at lines 14-17 runs only when the key is missing.
  `Session.ClearThenRerun` shows the difference.
- **A transcript that raises blocks the chat box.** An exception while the
  transcript is drawn (lines 168-192) ends the script before `st.chat_input`
  (line 195). No question can then be asked until "Clear chat".
  `Session.ChatSession.RunScript` states this.
- **Old reports follow the newest table.** Every historical report is redrawn
  against the newest result table, not the table it was produced with.
  `Session.RerunShowsTurn` states this.

## Model

| member | source | states |
|---|---|---|
| Json.Lookup | streamlit_app.py:44-45 | `d.get(k)` finds a value exactly when the dict has the key, and with distinct keys it is the value stored under that key |
| Json.Put | streamlit_app.py:24-27 | storing a decoded member appends a new key at the end; a key already present keeps its first position and takes the new value, and every other member is unchanged; the key set gains exactly that key |
| Json.PutKeepsKeysDistinct | streamlit_app.py:24-27 | decoding builds a dict: keys stay distinct and the last value stored under a key is the one read back |
| JsonText.CharSpelled | streamlit_app.py:24-27 | each spelling of a character (itself, a short escape, a `\uXXXX` escape, a surrogate pair) is read back as that character |
| JsonText.CharsRoundTrip | streamlit_app.py:24-27 | a string body is read back as the characters it spells, stopping at its closing quote |
| JsonText.ScalarRoundTrip | streamlit_app.py:24-27 | `null`, `true`, `false`, numbers and the three named constants are read back as themselves, before whitespace or a delimiter |
| JsonText.TextRoundTrip | streamlit_app.py:24-27 | any valid text, with any whitespace between its tokens and any spelling of its characters, is read back as the value it spells, and the text after it is left |
| JsonText.ItemsRoundTrip | streamlit_app.py:24-27 | the elements of an array, with any whitespace around them, are read back in order up to the closing bracket |
| JsonText.FieldsRoundTrip | streamlit_app.py:24-27 | the members of an object are read back and stored into the dict one after the other, so a repeated key keeps its first position and its last value |
| JsonText.DecodeText | streamlit_app.py:24-27 | `json.loads` of any valid text, with any whitespace around it, gives the value the text spells |
| JsonText.CompactMeans | streamlit_app.py:24-27 | every value the decoder can produce is spelt by a valid text, the one a compact writer produces |
| Analysis.LeadingSpace | streamlit_app.py:21 | the white space at the start of the text is counted up to the first other character |
| Analysis.TrailingStart | streamlit_app.py:21 | the white space at the end of the text starts right after the last other character |
| Analysis.Strip | streamlit_app.py:21 | the stripped text is empty or neither starts nor ends with Python white space, and it is empty exactly when the text is all white space |
| Analysis.StripPadded | streamlit_app.py:21 | stripping text padded with white space on both sides gives exactly the text |
| Analysis.ParseAnalysis | streamlit_app.py:18-31 | non-strings and texts whose trimmed form is not braced give None; otherwise the result is the decoded object exactly when it decodes and has all three required keys |
| Analysis.DecodeBracedIsObject | streamlit_app.py:22-29 | braced text decodes, if at all, to an object, so the key check always sees a dict |
| Analysis.AcceptsWrittenPayload | streamlit_app.py:18-31 | any valid object text (any whitespace layout, any character spelling) padded with white space, whose value has the three keys, is recognised and that value returned, extra keys included |
| Analysis.RejectsIncompletePayload | streamlit_app.py:28-30 | any valid object text whose value lacks one required key is rejected |
| Analysis.AcceptsEveryPayload | streamlit_app.py:18-31 | every well-formed object with the three keys has a text the classifier accepts, and it is returned unchanged |
| Analysis.InsightItems | streamlit_app.py:176-180 | a string insight becomes a one-item list, a list is iterated as is, a dict by its keys, and anything else raises TypeError |
| Tables.Find | streamlit_app.py:49 | a label is found exactly when it is a column, at its first position |
| Tables.Width | streamlit_app.py:119-121 | the inferred width is the longest row's length (0 for no rows) |
| Tables.Pad | streamlit_app.py:119-121 | a short row keeps its cells and is filled out with missing values |
| Tables.FrameWithColumns | streamlit_app.py:119 | with column names given, a width mismatch raises ValueError; otherwise the names label a rectangular frame with one row per given row |
| Tables.FrameOfRows | streamlit_app.py:121 | rows alone get positional labels as wide as the widest row |
| Tables.RawToTable | streamlit_app.py:113-121 | a falsy dict gives the empty frame; otherwise the given names label it when the widths agree, and positional labels when they do not |
| Tables.DirectTable | streamlit_app.py:168-169 | the construction without fallback raises ValueError exactly on a width mismatch with rows present, and otherwise equals the adapter's frame |
| Tables.RawToTableKeepsRows | streamlit_app.py:113-121 | the adapter never raises, keeps one row per given row, and each given row starts its frame row |
| Tables.MatchingRowsUnchanged | streamlit_app.py:116-119 | rows that match the column list come through unchanged under the given names |
| Pie.StrLessIrreflexive | streamlit_app.py:64 | the key order on strings is irreflexive |
| Pie.StrLessTransitive | streamlit_app.py:64 | the key order on strings is transitive |
| Pie.StrLessTotal | streamlit_app.py:64 | any two distinct strings are ordered |
| Pie.CellLessIrreflexive | streamlit_app.py:64 | no group key comes before itself |
| Pie.CellLessTransitive | streamlit_app.py:64 | the group-key order is transitive |
| Pie.CellLessTotal | streamlit_app.py:64 | any two distinct non-missing keys are ordered |
| Pie.InsertKey | streamlit_app.py:64 | adding a key to the sorted distinct keys keeps them sorted and distinct and adds exactly that key |
| Pie.GroupKeys | streamlit_app.py:64 | the group keys are sorted, distinct, and exactly the non-missing dimension values present |
| Pie.RowShareDistinct | streamlit_app.py:64 | among distinct keys, a row is counted under one key at most |
| Pie.SumOverKeysIsTotal | streamlit_app.py:64 | the group sums over all keys add up to the measure total of the keyed rows |
| Pie.Aggregate | streamlit_app.py:64 | the aggregated table has the dimension and measure labels, and one row per group key, in key order, holding the key and its group's sum |
| Pie.AggregateTotal | streamlit_app.py:64 | no measure is lost or counted twice by the aggregation |
| Charts.Lower | streamlit_app.py:44 | lower-casing keeps the length and lowers each letter |
| Charts.KindIgnoresCase | streamlit_app.py:44 | types that differ only in letter case pick the same chart kind |
| Charts.ChartType | streamlit_app.py:44 | a missing type reads as "", a string type is lower-cased, and any other type raises AttributeError |
| Charts.FirstTwo | streamlit_app.py:45-48 | fewer than two columns skip the directive; a list gives its first two items, a string its first two characters; a larger dict raises KeyError and a scalar TypeError |
| Charts.InColumns | streamlit_app.py:49 | a column name is accepted exactly when it is a string naming a table column; a list or dict raises TypeError |
| Charts.MatchingMembers | streamlit_app.py:54 | the tooltip candidates are a subsequence of the table's columns, a column is among them exactly when the directive lists it, and it raises exactly when a membership test does |
| Charts.MatchingCons | streamlit_app.py:54 | the membership tests run in table order: the first column is kept exactly when it is listed and is followed by the candidates of the rest, and the first test that raises decides the exception |
| Charts.MatchingOne | streamlit_app.py:54 | a single column is a candidate exactly when it is listed, or the membership test's exception is raised |
| Charts.MatchingAppend | streamlit_app.py:54 | the candidates of a concatenation of columns are those of its parts, in order, so a repeated column appears once per occurrence; the earlier part's exception wins |
| Charts.Tooltip | streamlit_app.py:54 | the tooltip is at most ten labels, a prefix of the candidates, and all of them when there are at most ten |
| Charts.ChartOf | streamlit_app.py:51-72 | a pie gives an arc with theta the measure, color the dimension, tooltip both, over the aggregated table; any other kind plots the table with its mark, x the dimension, y the measure and the tooltip |
| Charts.CompileDirective | streamlit_app.py:43-73 | a directive that is not a dict raises AttributeError, and any chart it gives draws only from the table's columns |
| Charts.DirectiveAccepted | streamlit_app.py:44-73 | a directive whose first two columns are table columns gives the chart of its lower-cased type over them |
| Charts.DirectiveTooFewColumns | streamlit_app.py:46-47 | a directive listing fewer than two columns is skipped |
| Charts.DirectiveUnknownDimension | streamlit_app.py:49-50 | a directive whose first column is not a table column is skipped |
| Charts.DirectiveUnknownMeasure | streamlit_app.py:49-50 | a directive whose second column is not a table column is skipped |
| Charts.DirectiveNoColumns | streamlit_app.py:45-47 | a directive without a `columns` key reads it as the empty list and is skipped |
| Charts.DirectiveScalarDimension | streamlit_app.py:49-50 | a number, boolean or `null` as first column names no table column, so the directive is skipped |
| Charts.DirectiveScalarMeasure | streamlit_app.py:49-50 | the same for the second column once the first names a table column |
| Charts.CompileAll | streamlit_app.py:43-73 | at most one chart per directive, each drawn from the table |
| Charts.And | streamlit_app.py:81 | `&` stacks vertically, with the new chart at the bottom |
| Charts.Combine | streamlit_app.py:79-82 | the fold shows the charts in order, none dropped or repeated, and is a single chart only for one |
| Charts.Stack | streamlit_app.py:74-82 | no chart gives None, one gives that chart, several give a stack of all of them in order |
| Charts.Compile | streamlit_app.py:34-82 | a specification that is neither a dict nor a list gives None, and every chart shown draws from the table |
| Charts.CompileAllAppend | streamlit_app.py:43-73 | directives compile independently: the charts of a concatenation are those of its parts in order, and the earlier exception wins |
| Charts.CompileOne | streamlit_app.py:43-73 | a single directive gives its own chart, nothing, or its exception |
| Charts.SkippedDirectiveInvisible | streamlit_app.py:46-50 | a skipped directive does not change what its siblings compile to |
| Charts.PrefixFaultStops | streamlit_app.py:43-73 | once a directive raises, the whole compilation raises the same exception |
| Charts.CompileDirectives | streamlit_app.py:36-73 | the loop appending to `charts` computes the charts of all directives, or the first exception |
| Charts.StackCharts | streamlit_app.py:79-82 | the `&` fold computes the stacked display |
| Charts.BuildChart | streamlit_app.py:34-82 | the compiler as the script runs it equals the specification Compile |
| Screens.Run | streamlit_app.py:171-192 | a run shows at most one bubble per message, and all of them when nothing raises |
| Screens.RunShows | streamlit_app.py:171-192 | bubbles appear in order; a run ends cleanly exactly when no bubble raises, and otherwise with the first exception, after the bubble that raised |
| Screens.RunAppend | streamlit_app.py:171-192 | a longer transcript is drawn as its first part followed, unless that raised, by the second |
| Screens.ViewsOf | streamlit_app.py:171-192 | the views of the bubbles, in order |
| Screens.ExtendPrefix | streamlit_app.py:171-192 | one more bubble extends the views drawn so far, and keeps a clean prefix clean |
| Screens.RunClean | streamlit_app.py:171-192 | when no bubble raises, every bubble is shown and no exception ends the run |
| Screens.RunFirstFault | streamlit_app.py:171-192 | the first bubble that raises is the last one shown, and its exception ends the run |
| Screens.RunAfterCleanPrefix | streamlit_app.py:171-192 | a clean run followed by two clean bubbles shows that run's bubbles and then the two |
| Session.Transcript | streamlit_app.py:14-17 | the initial transcript is the state's messages without system ones, in order |
| Session.TranscriptAppend | streamlit_app.py:14-17 | filtering system messages commutes with concatenation |
| Session.ChartStep | streamlit_app.py:182-187 | no chart over an empty table; otherwise the compiled chart or the compiler's exception |
| Session.ViewOf | streamlit_app.py:171-192 | a message is shown as Markdown exactly when it is not an assistant payload, in a user bubble exactly for role user |
| Session.ReportDrawsCurrentTable | streamlit_app.py:168-187 | a redrawn report's charts draw from the current table, whatever table the report was first shown with |
| Session.Steps | streamlit_app.py:171-192 | each message is drawn against the same current table |
| Session.RenderPass | streamlit_app.py:168-192 | a width mismatch raises ValueError before any bubble; otherwise the transcript is drawn against the current table |
| Session.Followup | streamlit_app.py:221-222 | the follow-up is printed exactly when it is a non-empty string |
| Session.TurnStep | streamlit_app.py:204-220 | a non-payload reply is shown as Markdown; whenever the new table builds, the turn draws the reply exactly as the transcript loop will; otherwise a payload raises |
| Session.AfterTurn | streamlit_app.py:197-224 | a turn appends the question, then the reply, then the follow-up exactly when the reply drew without an exception and a follow-up exists |
| Session.TurnSteps | streamlit_app.py:195-225 | after a turn, the transcript's bubbles are the earlier ones, the question's and the reply's as the turn drew it |
| Session.RerunShowsTurn | streamlit_app.py:195-225 | the rerun after a clean turn redraws the earlier messages against the new table, then the question, then the very bubble the turn drew |
| Session.ShowChart | streamlit_app.py:183-187 | the chart part of a report, as specified by ChartStep |
| Session.ShowMessage | streamlit_app.py:172-192 | one pass of the transcript loop, as specified by ViewOf |
| Session.ShowTranscript | streamlit_app.py:171-192 | the transcript loop shows exactly what Replay specifies |
| Session.ChatSession.constructor | streamlit_app.py:12-14 | a new browser session holds no state and no transcript |
| Session.ChatSession.Bootstrap | streamlit_app.py:12-17 | a missing state is built and a missing transcript is taken from it without system messages; present ones are kept |
| Session.ChatSession.AddUserMessage | streamlit_app.py:164-165 | exactly one user message is appended, and the state is unchanged |
| Session.ChatSession.AddAssistantMessage | streamlit_app.py:161-162 | exactly one assistant message is appended, and the state is unchanged |
| Session.ChatSession.Clear | streamlit_app.py:97-100 | the state is rebuilt and the transcript emptied |
| Session.ChatSession.Render | streamlit_app.py:168-192 | the redraw of the transcript is RenderPass of the current state and transcript |
| Session.ChatSession.Turn | streamlit_app.py:195-225 | an empty question changes nothing; otherwise the new state is stored, the transcript becomes AfterTurn, and the turn shows TurnStep and the follow-up |
| Session.ChatSession.RunScript | streamlit_app.py:12-225 | one run: bootstrap; "Clear chat" resets and reruns; otherwise the transcript is drawn, and only when that did not raise is the question taken, so a transcript that raises leaves state and transcript unchanged and shows no turn |
| Session.ClearThenRerun | streamlit_app.py:12-17 | after "Clear chat" and the rerun the transcript is empty, whereas a fresh session starts from the initial non-system messages |

## Left out

- The manual "Quick Chart" in `render_table_and_chart` (lines 123-159) is not modelled. It is driven by widget selections and pandas dtype detection.
- The SQL download button and the executed-SQL display (lines 103-110, 231-233) are not modelled. They show a stored string unchanged.
- Page setup, the sidebar examples and all other `st.*` layout and widget calls are not modelled. A bubble is modelled as what it shows.
- Altair's rendering is not modelled. Charts are kept as encoding records.
- The "Raw analysis JSON" expander (lines 188-190) is not modelled, and neither is `json.dumps`.
- The follow-up's italics (line 223) are not modelled.
- `process_chat_turn` and `build_initial_state` live in `main`, which is not part of this model. Their results are parameters: `newState`, `reply` and `initial`.
- The agent's whole reasoning (NL-to-SQL, LLM calls, backend choice) is not part of this model.
- Only the `messages`, `raw_table` and `assistant_followup` entries of the agent state are modelled. A message without a `role` or `content` key, which would raise `KeyError`, is not modelled.
- Only the `cols` and `rows` entries of `raw_table` are modelled. Other keys count only toward truthiness, which the model approximates by the presence of `cols` or `rows`.
- JSON numbers are kept as their text, not converted to `int`/`float`. No modelled code computes with them.
- Floating-point measures are not modelled. Cells are `Null`, integers or strings.
- Lone surrogate escapes are not modelled. Dafny characters are scalar values, so `\uD800` alone decodes to U+FFFD where Python keeps the lone surrogate.
- The decoder's recursion-depth limit is not modelled.
- Charts.Lower: only ASCII letters are lower-cased. The chart kinds are ASCII words, so a non-ASCII type reaches the fallback kind either way.
- Charts.InColumns: a JSON number or boolean never names a positional column. In Python `0`, or `False`, equals the label `0` of a frame built from rows alone.
- Charts.Contains: the same applies to tooltip membership with positional labels.
- Duplicate column names and a directive whose dimension equals its measure are modelled by the first matching column. pandas would give a frame rather than a series there, which changes the error behaviour.
- Pie.Measure: a string measure counts as 0 in a sum. pandas would concatenate strings or raise.
- Altair charts are always truthy at `if chart:`, so the model treats every compiled chart as shown.
