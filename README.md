# Second-Chance: a verified model of the pause-before-send logic

Second-Chance is a browser extension for web mail. When the user sends a
message, it holds the message back for a few seconds, shows a dialog with
the risks it found, and sends when the countdown runs out unless the user
goes back to editing. This project models the logic behind that dialog in
Dafny, and proves what that logic promises:

- **Spelling analyzer** (`Spellcheck`, spellcheck.dfy). This covers:
  - the tokenizer, which is the global `[A-Za-z][A-Za-z'-]{1,}` expression run with `exec`;
  - the skip rules and the six confusion-phrase patterns;
  - the optimal-string-alignment (Damerau-Levenshtein) distance, filled as a table;
  - the candidate index by word length, and the suggestion search;
  - the `analyzeSpelling` pipeline, with its issue cap, its non-English bail-out and its unknown-token confidence gate. The pipeline takes the proper-noun window as a parameter: `AsWritten` computes `analyzeSpelling` as written, and `Intended` computes it with the corrected window of the Findings section.
- **Grammar-service result mapper** (`LanguageTool`, language_tool.dfy). This covers everything done with an already-parsed LanguageTool response:
  - category and severity mapping;
  - evidence extraction;
  - replacement choice and message building;
  - newline false-positive suppression;
  - the custom-dictionary filter and the 12-issue cap.
- **Body block model** (`ComposeContext`, compose_context.dfy). This covers:
  - the three text normalisers;
  - `pushBlock`, on a `BlockList` object whose `blocks` field the parsing methods append to;
  - `parseNode` and `parseListElement`, over an abstract node tree;
  - the trimming of boundary blank blocks and the `parseBodyBlocks` fallback;
  - the derivation of `bodyRaw` and `bodyText`.
- **Delay decision** (`SmartPause`, smart_pause.dfy). This covers `clampDelay` and the additive rules of `computePauseDecision`.
- **Settings normaliser** (`Storage`, storage.dfy). This covers `normalizeSettings` and the merge step of `setSettings`.
- **Pause dialog** (`Modal`, modal.dfy). This covers:
  - the display helpers;
  - the countdown;
  - the settle-once rule;
  - the module-level active-dialog slot, as the classes `ModalHost` and `PauseModal`.
- **Focus trap** (`FocusTrap`, focus_trap.dfy). This covers the Tab and Shift+Tab wrap-around, Escape, and deactivate-once, as the class `Trap`.
- **Outlook send interception** (`OutlookIntercept`, outlook_intercept.dfy). This covers the per-compose 120 ms dedupe map, as the class `Interceptor`.
- **Send shortcut** (`SendTrigger`, send_trigger.dfy). This covers `isSendShortcut` and `isBypassSend`.

Shared modules:

- `Wrappers` holds `Option`.
- `JsText` holds the JavaScript string operations the code relies on, over strings of Unicode code points (see "## Left out" for how this differs from JavaScript's UTF-16 indexing). It covers:
  - the `\s` class and `trim`;
  - `slice` with negative indices, and `charAt`;
  - `includes`, `split` and `join`;
  - ASCII case mapping;
  - decimal rendering.
- `Issues` holds the issue record.
- `Settings` holds the settings record and the constants of `defaults.ts`.

Where the source works step by step, the model does too:

- `collectTokens`, `damerauLevenshtein`, `candidateWords`, `suggestWord`, `addConfusionIssues`, `analyzeSpelling` (for either proper-noun window) and `trimBoundaryBlankBlocks` are methods with loops.
- `computePauseDecision` is a method that adds to the delay and the reasons one rule at a time, as the code does.
- The block walk consists of methods that append to a `BlockList` object.
- The dialog, the trap and the interceptor are classes.

Each of these is proved equal to a pure specification function, or to a stated new state. The properties are then proved about those functions.

Things outside the code become inputs:

- The page supplies the node tree, the focusable elements and the results of the page lookups.
- The clock (`now`) and timer callbacks (`Tick`, `Settle`) are method calls.
- The dictionary tables of `spellDictionary`, and the Unicode letter test `\p{L}`, are carried as parameters in a `SpellData` record.

## Model

| member | source | states |
|---|---|---|
| Spellcheck.LeadingQuotes | extension/content/settings/spellcheck.ts:45 | the count of leading apostrophes: all of them are apostrophes and the next character is not |
| Spellcheck.QuotesStart | extension/content/settings/spellcheck.ts:45 | where the trailing apostrophes start: everything after is an apostrophe, the character before is not |
| Spellcheck.NormalizeWord | extension/content/settings/spellcheck.ts:44-46 | the normalised word is no longer than the word, has no upper-case letter and neither starts nor ends with an apostrophe |
| Spellcheck.RunEnd | extension/content/settings/spellcheck.ts:50 | the greedy `[A-Za-z'-]*` run: every character up to the end is a token character and the one at the end is not |
| Spellcheck.TokenChars | extension/content/settings/spellcheck.ts:50 | a token is the text at its index, at least two characters long, a letter first and only `[A-Za-z'-]` after |
| Spellcheck.TokensFromWellFormed | extension/content/settings/spellcheck.ts:48-62 | every token found from position p on is a well-formed match lying at or after p |
| Spellcheck.TokensFromAfter | extension/content/settings/spellcheck.ts:48-62 | every token found from position p lies at or after p |
| Spellcheck.TokensFromOrdered | extension/content/settings/spellcheck.ts:48-62 | the tokens come in text order and none overlaps the next |
| Spellcheck.TokensShape | extension/content/settings/spellcheck.ts:48-62 | all tokens of a text are well formed, in text order and non-overlapping |
| Spellcheck.RunEndUnique | extension/content/settings/spellcheck.ts:50 | any end of a maximal run of token characters is the run end |
| Spellcheck.CollectTokens | extension/content/settings/spellcheck.ts:48-62 | the `regex.exec` loop returns exactly the leftmost-greedy matches of the token expression |
| Spellcheck.NonSpaceEnd | extension/content/settings/spellcheck.ts:78 | the `\S+` run from p: no whitespace before its end and whitespace at the end |
| Spellcheck.IsMostlyEnglish | extension/content/settings/spellcheck.ts:64-71 | `isMostlyEnglish`: fewer than 25 letters, or at least 75% of the letters are `[A-Za-z]`, compared in whole numbers; its properties are stated by `AnalyzeNotices` |
| Spellcheck.ProperNounAsWrittenIgnoresSentences | extension/content/settings/spellcheck.ts:85-91 | with the window as written, a token is a proper noun exactly when it starts with a capital and a small letter not at index 0 after a space or line break; a sentence start never stops it |
| Spellcheck.ProperNounAfterFullStop | extension/content/settings/spellcheck.ts:90 | "World" in "Hello. World" is a proper noun as written and not as intended |
| Spellcheck.ProperNounAfterSentenceMark | extension/content/settings/spellcheck.ts:89-91 | with the intended window, a word right after ". ", "! " or "? " is never a proper noun |
| Spellcheck.TokenTextNoUrl | extension/content/settings/spellcheck.ts:73-75 | a run of `[A-Za-z'-]` never starts with `http://`, `https://` or `www.` |
| Spellcheck.TokenIsNoUrlEmailOrNumber | extension/content/settings/spellcheck.ts:173-178 | a token is never URL-like, never e-mail-like and holds no digit, so those skip tests never fire |
| Spellcheck.AcronymExactly | extension/content/settings/spellcheck.ts:81-83 | `isLikelyAcronym` holds exactly for a word of at most six characters with no small letter |
| Spellcheck.ShouldSkipToken | extension/content/settings/spellcheck.ts:160-181 | `shouldSkipToken`, the six tests in order, with the proper-noun test of the chosen window; its properties are `AcronymSkipped`, `TokenIsNoUrlEmailOrNumber` and `ClassifySpec` |
| Spellcheck.AcronymSkipped | extension/content/settings/spellcheck.ts:167-169 | a capital-letter token of at most six characters is skipped, under either window |
| Spellcheck.IgnoreSet | extension/content/settings/spellcheck.ts:214-217 | the ignore set holds exactly the allowlist and the lower-cased custom terms |
| Spellcheck.Cell | extension/content/settings/spellcheck.ts:106-118 | a table cell is at most each of the delete, insert and substitute costs, and at most the swap cost where a swap is allowed |
| Spellcheck.CellChoice | extension/content/settings/spellcheck.ts:106-118 | a table cell is one of the costs it chooses from |
| Spellcheck.FillRowShape | extension/content/settings/spellcheck.ts:104-121 | filling a row gives one cell per prefix of `b` and keeps the cells already there |
| Spellcheck.FillRowCell | extension/content/settings/spellcheck.ts:104-120 | every filled cell follows the recurrence from the row above, the row above that and the cell to its left |
| Spellcheck.Rows | extension/content/settings/spellcheck.ts:95-121 | rows 0..i of the table, i + 1 of them |
| Spellcheck.Table | extension/content/settings/spellcheck.ts:94-123 | the table has one row per prefix of `a` |
| Spellcheck.TableEdges | extension/content/settings/spellcheck.ts:96-101 | `d[i][0] = i` and `d[0][j] = j` |
| Spellcheck.TableCell | extension/content/settings/spellcheck.ts:103-120 | every inner cell is the minimum of deletion, insertion, substitution and (when the two last characters are swapped) transposition |
| Spellcheck.DamerauLevenshtein | extension/content/settings/spellcheck.ts:94-123 | the nested-loop table fill on a 2-D array returns the distance `Dist(a, b)` |
| Spellcheck.TableUpper | extension/content/settings/spellcheck.ts:103-122 | the distance between prefixes is at most the longer length |
| Spellcheck.TableLower | extension/content/settings/spellcheck.ts:103-122 | the distance between prefixes is at least the difference of the lengths |
| Spellcheck.TableSymmetric | extension/content/settings/spellcheck.ts:103-122 | the table of a against b is the transpose of that of b against a |
| Spellcheck.TableZero | extension/content/settings/spellcheck.ts:103-122 | a table entry is zero exactly when the two prefixes are equal |
| Spellcheck.DistZero | extension/content/settings/spellcheck.ts:94-123 | the distance is zero exactly for equal strings |
| Spellcheck.DistSymmetric | extension/content/settings/spellcheck.ts:94-123 | the distance does not depend on the order of its arguments |
| Spellcheck.DistToEmpty | extension/content/settings/spellcheck.ts:96-101 | the distance to or from the empty string is the other length |
| Spellcheck.Transposition | extension/content/settings/spellcheck.ts:112-118 | swapping two adjacent different characters is distance 1 |
| Spellcheck.Bucket | extension/content/settings/spellcheck.ts:38-42 | a bucket holds exactly the dictionary words of its length |
| Spellcheck.BuildIndex | extension/content/settings/spellcheck.ts:36-42 | the loop builds a map holding exactly the non-empty buckets, each in dictionary order |
| Spellcheck.FilterStart | extension/content/settings/spellcheck.ts:133-137 | the filter keeps exactly the bucket words sharing the first character, or (both longer than 1) the second |
| Spellcheck.CandidateWords | extension/content/settings/spellcheck.ts:125-141 | the loop over the five lengths returns the candidate list |
| Spellcheck.CandidatesUpToMembers | extension/content/settings/spellcheck.ts:127-139 | after n lengths the candidates are exactly the words of those lengths passing the first-letter test |
| Spellcheck.CandidateListMembers | extension/content/settings/spellcheck.ts:125-141 | a candidate is exactly a dictionary word within two of the word's length sharing its first or second character |
| Spellcheck.FirstWithinSpec | extension/content/settings/spellcheck.ts:143-158 | the first candidate within distance k is a candidate within k; there is none exactly when no candidate is that close |
| Spellcheck.FirstWithinAt | extension/content/settings/spellcheck.ts:143-158 | a candidate within k with all earlier ones farther is the first within k |
| Spellcheck.SuggestionSpec | extension/content/settings/spellcheck.ts:143-158 | a suggestion is a candidate within two edits; there is none exactly when no candidate is within two; one within one edit is preferred |
| Spellcheck.TracksStep | extension/content/settings/spellcheck.ts:145-155 | one loop iteration keeps the best-so-far invariant, or stops on a candidate at distance one that is the first such |
| Spellcheck.StopsAtOne | extension/content/settings/spellcheck.ts:152-154 | breaking at distance one is right: that candidate is the suggestion whatever follows |
| Spellcheck.TracksDone | extension/content/settings/spellcheck.ts:157 | at the end of the scan `best` holds the suggestion |
| Spellcheck.SuggestWord | extension/content/settings/spellcheck.ts:143-158 | `suggestWord` returns the suggestion over the candidate list |
| Spellcheck.ScanCandidates | extension/content/settings/spellcheck.ts:145-157 | the loop with `continue` and `break` returns the first candidate within one edit, else the first within two |
| Spellcheck.SpaceRunEnd | extension/content/settings/spellcheck.ts:27-29 | the `\s+` separator run: whitespace up to its end and none at the end |
| Spellcheck.FirstFitSpec | extension/content/settings/spellcheck.ts:27-29 | the alternation picks an alternative that fits, and none exactly when none fits |
| Spellcheck.AlternativeEnd | extension/content/settings/spellcheck.ts:27-29 | the end of the chosen alternative lies inside the text |
| Spellcheck.AlternativeEndSpec | extension/content/settings/spellcheck.ts:27-29 | the chosen alternative matches and is followed by a word boundary; when none is chosen, none matches |
| Spellcheck.MatchEnd | extension/content/settings/spellcheck.ts:26-33 | a pattern match at s starts with its lead word (any case) and ends past it, inside the text |
| Spellcheck.FindFrom | extension/content/settings/spellcheck.ts:187 | the position found is a match start at or after s |
| Spellcheck.FindFromLeftmost | extension/content/settings/spellcheck.ts:187 | no match starts before the one found, and none at all when none is found |
| Spellcheck.MatchSpan | extension/content/settings/spellcheck.ts:187 | the match span is a non-empty range of the text |
| Spellcheck.MatchSpanLeftmost | extension/content/settings/spellcheck.ts:187 | `text.match(pattern)` gives the leftmost match, and none means the pattern matches nowhere |
| Spellcheck.FirstMatchStartsWithLead | extension/content/settings/spellcheck.ts:26-33 | the evidence of a confusion starts with the pattern's lead word, ignoring case |
| Spellcheck.MoreThenMatches | extension/content/settings/spellcheck.ts:30 | "more then" in any letter case, with a word boundary on each side, matches the fourth pattern from its first letter to its last, so the pattern has a leftmost match starting there or earlier |
| Spellcheck.Found | extension/content/settings/spellcheck.ts:183-195 | one optional issue per pattern, in pattern order |
| Spellcheck.AddConfusionIssues | extension/content/settings/spellcheck.ts:182-196 | the loop appends what the patterns found, stopping once the list holds `limit` issues |
| Spellcheck.AddFoundBounds | extension/content/settings/spellcheck.ts:183-195 | existing issues stay first, at most one issue per pattern is added, nothing at or past the limit, and never beyond it |
| Spellcheck.AddFoundUnderLimit | extension/content/settings/spellcheck.ts:183-195 | with room for everything, every issue found is added in pattern order |
| Spellcheck.AddFoundIssues | extension/content/settings/spellcheck.ts:189-193 | every added issue is one the patterns found |
| Spellcheck.AllFoundSound | extension/content/settings/spellcheck.ts:189-193 | everything found is a medium confusion issue carrying its pattern's first match |
| Spellcheck.ConfusionsSound | extension/content/settings/spellcheck.ts:182-196 | whatever `addConfusionIssues` adds to an empty list is a medium confusion issue with its pattern's message and first match |
| Spellcheck.ClassifySpec | extension/content/settings/spellcheck.ts:232-256 | both directions. An issue is raised only for an unskipped token not in the dictionary, with the raw token as evidence; a listed misspelling gets its listed fix at medium; otherwise a suggestion is a dictionary word within two edits and two of the length, at medium exactly when strict. Conversely, a skipped or dictionary token is skipped, an unskipped unknown token with a listed fix gives exactly the medium typo issue with that fix and the raw token as evidence, and an unlisted one gives the suggestion's issue when `suggestWord` finds one and no issue otherwise |
| Spellcheck.ScanKeeps | extension/content/settings/spellcheck.ts:228-258 | the token loop only appends to both lists and counts each token as unknown at most once; an issue is added only for an unknown token |
| Spellcheck.ScanBudget | extension/content/settings/spellcheck.ts:228-231 | the two lists together never exceed the budget |
| Spellcheck.ScanSound | extension/content/settings/spellcheck.ts:228-258 | every confident issue added is a listed misspelling of a token, every low-confidence one a suggestion for a token |
| Spellcheck.ScanAppend | extension/content/settings/spellcheck.ts:228-258 | the loop over `a + b` is the loop over `b` resumed where the loop over `a` stopped |
| Spellcheck.ScanReaches | extension/content/settings/spellcheck.ts:228-257 | a token reached while the two lists hold fewer than `maxIssues` issues is judged: its listed misspelling ends among the confident issues, its suggestion among the low ones |
| Spellcheck.Finish | extension/content/settings/spellcheck.ts:260-268 | the confident issues stay first. At 35% unknown or less (or with no tokens) the result is the confident issues followed by the low ones. Above 35% the suggestions are dropped: the result is the confident issues, or the many-unknown notice alone when there are none, and the notice appears in no other case |
| Spellcheck.SliceTo | extension/content/settings/spellcheck.ts:270 | `slice(0, end)` is a prefix, of length `min(end, length)` for a non-negative end |
| Spellcheck.Analyze | extension/content/settings/spellcheck.ts:198-271 | for either proper-noun window, never more than `maxIssues` issues (default 8), and for a budget of zero or less nothing but possibly the non-English notice |
| Spellcheck.CheckToken | extension/content/settings/spellcheck.ts:232-257 | one loop body gives the state of the token's verdict |
| Spellcheck.CheckUnknown | extension/content/settings/spellcheck.ts:239-257 | the unknown-token part of the loop body gives the state of the token's verdict |
| Spellcheck.AnalyzeSpelling | extension/content/settings/spellcheck.ts:198-271 | the imperative pipeline returns `Analyze` for the window it is given; with `AsWritten` that is `analyzeSpelling` as written |
| Spellcheck.AnalyzeEnglish | extension/content/settings/spellcheck.ts:219-270 | the confusion pass, the token loop, the unknown-ratio gate and the final slice return the English path of `Analyze` |
| Spellcheck.FromTokenIsTypo | extension/content/settings/spellcheck.ts:240-256 | an issue raised for a token is a possible-typo message quoting the raw token as evidence; a low one means strict is off |
| Spellcheck.FindingsSound | extension/content/settings/spellcheck.ts:219-270 | every finding on the English path comes from a pattern or a token, or is the lone many-unknown notice |
| Spellcheck.AnalyzeSound | extension/content/settings/spellcheck.ts:198-271 | every issue returned is a confusion issue with its pattern's first match or one raised for a token; a notice stands alone |
| Spellcheck.AnalyzeStrict | extension/content/settings/spellcheck.ts:253 | with strict on, the only low issues are the two notices |
| Spellcheck.AnalyzeNotices | extension/content/settings/spellcheck.ts:202-212 | blank text gives []. The non-English notice appears exactly for non-blank text that is not mostly Latin letters, and is then the whole result. The many-unknown notice is always alone |
| Spellcheck.AnalyzeUnknownGate | extension/content/settings/spellcheck.ts:260-268 | above 35% unknown tokens no suggestion is output: only confusions, listed misspellings or the many-unknown notice |
| Spellcheck.FinishReports | extension/content/settings/spellcheck.ts:228-270 | after the loop, the gate and the final slice, a reached token's listed misspelling is in the result, and so is its suggestion when at most 35% of the tokens are unknown |
| Spellcheck.AnalyzeReports | extension/content/settings/spellcheck.ts:198-270 | completeness: on non-blank, mostly English text, a token reached with fewer than `maxIssues` issues found, not skipped, not a dictionary word and with a listed fix is reported as a medium typo with the raw token and its fix; its suggestion is reported when at most 35% of the tokens are unknown |
| LanguageTool.MapCategory | extension/content/settings/languageTool.ts:22-30 | grammar exactly for a misspelling/TYPOS/GRAMMAR/grammar rule, formatting exactly for a non-grammar PUNCTUATION/TYPOGRAPHY one, tone exactly for a remaining STYLE/TONE_OF_VOICE one, never context |
| LanguageTool.MapSeverity | extension/content/settings/languageTool.ts:32-36 | medium exactly when the issue type is "misspelling" or "grammar", otherwise low; never high |
| LanguageTool.ExtractWord | extension/content/settings/languageTool.ts:38-41 | the evidence is the context slice at the context offset and length when that lies inside, and never longer than the context |
| LanguageTool.TrimmedReplacements | extension/content/settings/languageTool.ts:44-46 | no kept replacement is empty and there are no more than given |
| LanguageTool.TrimmedReplacementsMembers | extension/content/settings/languageTool.ts:44-46 | the kept replacements are exactly the non-empty trimmed values |
| LanguageTool.TrimmedReplacementsSound | extension/content/settings/languageTool.ts:44-46 | every kept replacement is the trimmed form of a given value |
| LanguageTool.TrimmedReplacementsComplete | extension/content/settings/languageTool.ts:44-46 | every value that trims to something non-empty is kept |
| LanguageTool.FirstWithSpace | extension/content/settings/languageTool.ts:54 | `find(v => v.includes(" "))`: the first value with a space, none before it |
| LanguageTool.PickPreferredReplacement | extension/content/settings/languageTool.ts:43-61 | none exactly when nothing is left after trimming. Otherwise a kept value: for a plain ASCII word, the first with a space if any; else the first |
| LanguageTool.PickNoneIffBlank | extension/content/settings/languageTool.ts:44-50 | no replacement exactly when every value trims to empty |
| LanguageTool.PickIsTrimmedValue | extension/content/settings/languageTool.ts:43-61 | a picked replacement is the trimmed form of one of the values |
| LanguageTool.BuildMessage | extension/content/settings/languageTool.ts:63-70 | the message starts with the rule's message, and is just that without a replacement |
| LanguageTool.BuildMessageQuotes | extension/content/settings/languageTool.ts:66-67 | with a replacement the message quotes the word and the replacement and is longer than the rule's message |
| LanguageTool.FalsePositiveOnlyPunctuation | extension/content/settings/languageTool.ts:73-76 | outside PUNCTUATION and TYPOGRAPHY nothing is suppressed |
| LanguageTool.FalsePositiveOnNewline | extension/content/settings/languageTool.ts:87-93 | a punctuation match whose evidence or context holds a line break is suppressed |
| LanguageTool.WindowSlice | extension/content/settings/languageTool.ts:95 | for an offset inside the text, the window is the text from the offset to `offset + max(length, 1)`, cut at the end of the text |
| LanguageTool.FalsePositiveAtLineBreak | extension/content/settings/languageTool.ts:95-96 | a punctuation match with a line break anywhere in `slice(offset, offset + max(length, 1))` of the source is suppressed |
| LanguageTool.FalsePositiveReasons | extension/content/settings/languageTool.ts:72-97 | and only then: a suppressed match is a punctuation one with the comma complaint, or a line break in its evidence, its context or its source window |
| LanguageTool.FalsePositiveCommaAtLineEnd | extension/content/settings/languageTool.ts:78-85 | "space after the comma", in any case, about a ',' followed by "\n" or "\r", is suppressed |
| LanguageTool.LeadingJunk | extension/content/settings/languageTool.ts:100 | the leading `[^a-z0-9]+` run: all non-alphanumeric, and the next character alphanumeric |
| LanguageTool.JunkStart | extension/content/settings/languageTool.ts:100 | the trailing `[^a-z0-9]+` run: all non-alphanumeric after it, an alphanumeric before it |
| LanguageTool.JunkBounds | extension/content/settings/languageTool.ts:100 | something is left between the two runs exactly when there is an alphanumeric character |
| LanguageTool.NormalizeDictionaryToken | extension/content/settings/languageTool.ts:99-101 | the token is empty or starts and ends alphanumeric, with no upper-case letter |
| LanguageTool.NormalizeDictionaryTokenIdempotent | extension/content/settings/languageTool.ts:99-101 | normalising twice is normalising once |
| LanguageTool.NormalizeDictionaryTokenEmpty | extension/content/settings/languageTool.ts:99-101 | the token is empty exactly when the input has no alphanumeric character |
| LanguageTool.IgnoreSet | extension/content/settings/languageTool.ts:110 | the set holds exactly the non-empty normalised dictionary words |
| LanguageTool.MapMatch | extension/content/settings/languageTool.ts:126-147 | an issue exactly for a kept match, with its category, evidence, location, offset and length |
| LanguageTool.Somes | extension/content/settings/languageTool.ts:148 | the null filter keeps no more than it is given |
| LanguageTool.SomesFrom | extension/content/settings/languageTool.ts:148 | the k-th kept value is the value of some entry |
| LanguageTool.MapSeq | extension/content/settings/languageTool.ts:126 | `map` keeps the length and applies the callback to each entry in place |
| LanguageTool.MapAll | extension/content/settings/languageTool.ts:125-148 | no more issues than matches |
| LanguageTool.MapAllAppend | extension/content/settings/languageTool.ts:125-148 | mapping keeps the order of the matches |
| LanguageTool.MapAllFrom | extension/content/settings/languageTool.ts:125-148 | the k-th issue is the issue of some kept match |
| LanguageTool.FetchedIssues | extension/content/settings/languageTool.ts:125-149 | at most 12 issues, a prefix of the mapped issues, and all of them when there are fewer than 12 |
| LanguageTool.FetchedIssuesShape | extension/content/settings/languageTool.ts:110-149 | every issue carries the given location and a match's offset and length, and its evidence is not a word of the custom dictionary |
| LanguageTool.NoMatchesNoIssues | extension/content/settings/languageTool.ts:126-128 | a response where no match has a category gives no issues |
| ComposeContext.CollapseWhitespace | extension/content/interceptor/composeContext.ts:46 | whitespace runs become one plain space: never longer, no two whitespace characters adjacent, the first character kept or made a space |
| ComposeContext.CleanText | extension/content/interceptor/composeContext.ts:45-47 | `cleanText`: a missing text is empty, then whitespace runs are collapsed and the ends trimmed; its properties are `CleanTextShape` and `CleanTextIdempotent` |
| ComposeContext.CollapseOfCollapsed | extension/content/interceptor/composeContext.ts:46 | collapsing collapsed text changes nothing |
| ComposeContext.CleanTextShape | extension/content/interceptor/composeContext.ts:45-47 | `cleanText` has no whitespace at either end and only single plain spaces inside |
| ComposeContext.CleanTextIdempotent | extension/content/interceptor/composeContext.ts:45-47 | cleaning cleaned text changes nothing |
| ComposeContext.ReplaceCrLf | extension/content/interceptor/composeContext.ts:50 | replacing CRLF never lengthens the text |
| ComposeContext.ReplaceCrLfWithoutCr | extension/content/interceptor/composeContext.ts:50 | a text without carriage returns is unchanged |
| ComposeContext.CleanRawTextShape | extension/content/interceptor/composeContext.ts:49-51 | no U+00A0 is left, the text is never longer, and a text with neither "\r" nor U+00A0 is unchanged |
| ComposeContext.StripTrailingBlanksShape | extension/content/interceptor/composeContext.ts:56 | stripping keeps a prefix of the line not ending in a space or tab and removes only spaces and tabs |
| ComposeContext.JoinOfCleanLines | extension/content/interceptor/composeContext.ts:55-57 | joining lines that end clean gives a text with no space or tab before a line break or at the end |
| ComposeContext.StripLinesClean | extension/content/interceptor/composeContext.ts:55-56 | stripped lines hold no line break and end in neither space nor tab |
| ComposeContext.TrimKeepsLineEnds | extension/content/interceptor/composeContext.ts:58 | trimming keeps every line end clean |
| ComposeContext.NormalizeBlockTextShape | extension/content/interceptor/composeContext.ts:53-59 | `normalizeBlockText` has no whitespace at either end and no line of it ends in a space or tab |
| ComposeContext.PushedShape | extension/content/interceptor/composeContext.ts:118-136 | a non-blank block with empty text leaves the list as it is. Anything else appends exactly one block of that kind, depth and tag, with the earlier blocks untouched; a blank after a blank is appended too |
| ComposeContext.PushedIsEmit | extension/content/interceptor/composeContext.ts:118-136 | with blanks carrying "", what a push appends does not depend on the earlier blocks |
| ComposeContext.BlockList.constructor | extension/content/interceptor/composeContext.ts:272 | the block list starts empty |
| ComposeContext.BlockList.PushBlock | extension/content/interceptor/composeContext.ts:118-136 | `pushBlock` on the shared array leaves `Pushed` of the old blocks |
| ComposeContext.BlockList.Append | extension/content/interceptor/composeContext.ts:280-285 | the fallback push appends the one block |
| ComposeContext.NodeShaped | extension/content/interceptor/composeContext.ts:174-250 | every block of a node is at least the given depth; inside a quote every block is a quote or blank; a blockquote's blocks are one level deeper and all quotes or blanks |
| ComposeContext.BlockElementShaped | extension/content/interceptor/composeContext.ts:222-244 | the same for a block element |
| ComposeContext.BlockquoteShaped | extension/content/interceptor/composeContext.ts:194-207 | a blockquote's blocks are all one level deeper and quotes or blanks |
| ComposeContext.ChildrenShaped | extension/content/interceptor/composeContext.ts:228-230 | the same for a sequence of child nodes |
| ComposeContext.ListShaped | extension/content/interceptor/composeContext.ts:138-172 | the same for a list element |
| ComposeContext.ItemsShaped | extension/content/interceptor/composeContext.ts:146-171 | the same for the children of a list |
| ComposeContext.ItemShaped | extension/content/interceptor/composeContext.ts:147-170 | the same for one list item |
| ComposeContext.SubListsShaped | extension/content/interceptor/composeContext.ts:162-170 | the same for the nested lists of an item, which go one level deeper |
| ComposeContext.ListItemKinds | extension/content/interceptor/composeContext.ts:144-160 | outside a quote the blocks of a list at its own depth are its items: number items for `ol`, bullet items for `ul`, tag "li" |
| ComposeContext.ItemsKinds | extension/content/interceptor/composeContext.ts:146-160 | the same for the children of that list |
| ComposeContext.BlockquoteShape | extension/content/interceptor/composeContext.ts:194-207 | everything inside a blockquote is a quote or a blank, one level deeper than the blockquote |
| ComposeContext.ParseNode | extension/content/interceptor/composeContext.ts:174-250 | `parseNode` appends exactly the node's blocks to the shared list |
| ComposeContext.ParseElement | extension/content/interceptor/composeContext.ts:187-249 | on an element it appends the element's blocks: line break, blockquote, list, list item, block element or other |
| ComposeContext.ParseBlockquote | extension/content/interceptor/composeContext.ts:194-207 | a blockquote appends its children one level deeper as quotes, or else its whole text as one quote |
| ComposeContext.ParseBlockElement | extension/content/interceptor/composeContext.ts:222-244 | a block element appends its children's blocks when one is structural; else its text; else a blank for an empty div or p |
| ComposeContext.ParseChildren | extension/content/interceptor/composeContext.ts:228-230 | the child loop appends the children's blocks in document order |
| ComposeContext.ParseListElement | extension/content/interceptor/composeContext.ts:138-172 | `parseListElement` appends exactly the list's blocks |
| ComposeContext.ParseListItem | extension/content/interceptor/composeContext.ts:147-170 | a non-li child adds nothing. An li adds its own text with nested lists removed, then its nested lists |
| ComposeContext.ParseSubLists | extension/content/interceptor/composeContext.ts:162-170 | the nested ul/ol children are parsed one level deeper |
| ComposeContext.FirstNonBlank | extension/content/interceptor/composeContext.ts:256-258 | the first loop stops at the first non-blank block: all blocks before it are blank |
| ComposeContext.EndOfNonBlank | extension/content/interceptor/composeContext.ts:260-262 | the second loop stops after the last non-blank block: all blocks after it are blank |
| ComposeContext.Trimmed | extension/content/interceptor/composeContext.ts:252-265 | a contiguous slice whose ends are non-blank; empty exactly when every block is blank; every non-blank block is kept |
| ComposeContext.TrimmedIdempotent | extension/content/interceptor/composeContext.ts:252-265 | trimming twice is trimming once |
| ComposeContext.TrimBoundaryBlankBlocks | extension/content/interceptor/composeContext.ts:252-265 | the two while-loops return `Trimmed` of the blocks |
| ComposeContext.BodyBlocks | extension/content/interceptor/composeContext.ts:267-290 | no body gives no blocks, and the result never starts or ends with a blank |
| ComposeContext.BodyFallbackParagraph | extension/content/interceptor/composeContext.ts:277-287 | when the walk gives nothing and the body has text, the result is that text as one paragraph at depth 0 with tag "body" |
| ComposeContext.ParseBodyBlocks | extension/content/interceptor/composeContext.ts:267-290 | the walk, the fallback and the trim return `BodyBlocks` |
| ComposeContext.Lines | extension/content/interceptor/composeContext.ts:352 | one line per block: its text, or "" for a blank |
| ComposeContext.BodyRawLines | extension/content/interceptor/composeContext.ts:350-353 | with blocks and newline-free texts, splitting `bodyRaw` at "\n" gives exactly the block lines, one per block |
| ComposeContext.BuildComposeContext | extension/content/interceptor/composeContext.ts:341-362 | the context holds the body blocks, `bodyRaw` derived from them, `bodyText == cleanText(bodyRaw)`, and the given recipients, attachment and subject |
| SmartPause.ClampDelay | extension/content/settings/smartPause.ts:9-11 | always in [0, 30], the identity in range, 0 below and 30 above |
| SmartPause.ClampMonotone | extension/content/settings/smartPause.ts:9-11 | the clamp is monotone |
| SmartPause.AnyKeywordInExists | extension/content/settings/smartPause.ts:35-37 | `some` holds exactly when some non-empty keyword, lower-cased, occurs in the haystack |
| SmartPause.SubjectPrefixMatches | extension/content/settings/smartPause.ts:34-37 | a non-empty keyword that starts the subject, in any case, matches |
| SmartPause.EmptyKeywordNeverMatches | extension/content/settings/smartPause.ts:36 | adding an empty keyword changes nothing |
| SmartPause.ReasonsOrder | extension/content/settings/smartPause.ts:24-41 | each reason is present exactly when its rule fires, in the fixed order, none twice |
| SmartPause.ReasonsWeight | extension/content/settings/smartPause.ts:24-41 | the reasons add 3 for recipients, 4 for an attachment and 4 for a keyword |
| SmartPause.DecisionFor | extension/content/settings/smartPause.ts:13-44 | the delay is in [0, 30]. With smart pause off it is the clamped base delay with no reasons; with it on, the clamp of the base plus the weights of the reasons |
| SmartPause.ComputePauseDecision | extension/content/settings/smartPause.ts:13-44 | the step-by-step accumulation gives the decision for the rules that fire on the compose |
| SmartPause.DecisionReasons | extension/content/settings/smartPause.ts:20-41 | a reason appears exactly when smart pause is on and its rule fires, in rule order, none twice |
| SmartPause.ComputeDelay | extension/content/settings/smartPause.ts:46-48 | the delay is in [0, 30] |
| SmartPause.DelayAtLeastBase | extension/content/settings/smartPause.ts:17-43 | the delay is never below the clamped base delay |
| SmartPause.WeightNonNegative | extension/content/settings/smartPause.ts:24-41 | the rules only add |
| SmartPause.DelayMonotone | extension/content/settings/smartPause.ts:24-43 | firing more rules never shortens the delay |
| SmartPause.DelayMonotoneInBase | extension/content/settings/smartPause.ts:17-43 | a larger base delay never shortens the delay |
| Storage.ClampSeconds | extension/content/settings/storage.ts:13 | always in [0, 30], the identity in range, 0 below and 30 above |
| Storage.SafeDelay | extension/content/settings/storage.ts:11-14 | in [0, 30]; an in-range number is kept; a missing or non-finite value gives 5 |
| Storage.CleanKeywordIsClean | extension/content/settings/storage.ts:17 | a non-empty cleaned keyword is trimmed and lower case |
| Storage.CleanKeywordOfClean | extension/content/settings/storage.ts:17 | cleaning a clean keyword changes nothing |
| Storage.CleanKeywords | extension/content/settings/storage.ts:17 | every kept keyword is clean, and there are no more than given |
| Storage.CleanKeywordsOfClean | extension/content/settings/storage.ts:17 | clean keywords are kept as they are |
| Storage.Dedupe | extension/content/settings/storage.ts:17 | `[...new Set(xs)]`: the same members, each once, in the order of first occurrence |
| Storage.DedupeOfDistinct | extension/content/settings/storage.ts:17 | a list without repeats is kept as it is |
| Storage.DefaultKeywordsClean | extension/content/settings/defaults.ts:16 | the default keywords are clean and pairwise different |
| Storage.DefaultKeywordsDistinct | extension/content/settings/defaults.ts:16 | the default keywords are pairwise different |
| Storage.NormalizeKeywordsShape | extension/content/settings/storage.ts:16-23 | the stored keywords are at least one, clean and pairwise different |
| Storage.NormalizeKeywordsOfArray | extension/content/settings/storage.ts:16-23 | the stored keywords are the deduplicated cleaned entries: exactly the non-empty cleaned entries |
| Storage.CleanKeywordsMembers | extension/content/settings/storage.ts:17 | the cleaned list holds exactly the non-empty cleaned entries |
| Storage.CleanKeywordsSound | extension/content/settings/storage.ts:17 | every kept keyword is the cleaned form of an entry |
| Storage.CleanKeywordsComplete | extension/content/settings/storage.ts:17 | every entry whose cleaned form is non-empty is kept |
| Storage.NormalizeSettings | extension/content/settings/storage.ts:9-25 | the delay is in range and comes from the stored value, or 5 for a non-object; enabled and smartPause are kept when present, else default |
| Storage.NormalizeNonObject | extension/content/settings/storage.ts:10-24 | a non-object normalises to the defaults |
| Storage.NormalizeKeywordsDefault | extension/content/settings/storage.ts:16-23 | no array, or one that cleans to nothing, gives the default keywords |
| Storage.CleanKeywordsOfBlank | extension/content/settings/storage.ts:17 | entries that all clean to "" leave nothing |
| Storage.NormalizeSettingsIsNormal | extension/content/settings/storage.ts:9-25 | the result is a normal record: delay in range, keywords non-empty, clean and distinct |
| Storage.NormalizeNormal | extension/content/settings/storage.ts:9-25 | a normal record is a fixed point |
| Storage.NormalizeKeywordsOfNormal | extension/content/settings/storage.ts:16-23 | a non-empty list of clean distinct keywords is kept |
| Storage.NormalizeIdempotent | extension/content/settings/storage.ts:9-25 | normalising a normalised record changes nothing |
| Storage.Merge | extension/content/settings/storage.ts:46 | each field of the patch overrides the current one; each field it lacks keeps the current value |
| Storage.SetSettings | extension/content/settings/storage.ts:43-52 | what `setSettings` stores and returns is normal |
| Storage.SetSettingsEmptyPatch | extension/content/settings/storage.ts:45-46 | an empty patch leaves normal settings unchanged |
| Storage.SetSettingsDelay | extension/content/settings/storage.ts:45-46 | patching an in-range delay changes only the delay |
| Modal.LabelForCount | extension/content/ui/modal.ts:17-19 | "1 issue" for one; otherwise the decimal digits of the count followed by " issues" |
| Modal.IssueLine | extension/content/ui/modal.ts:21-24 | the message, after "[Subject] " or "[Body] " when located, and alone otherwise |
| Modal.WorstSeverity | extension/content/ui/modal.ts:26-31 | none exactly for no issues; otherwise a severity present and at least every severity |
| Modal.WorstSeverityMonotone | extension/content/ui/modal.ts:26-31 | more issues never lower the worst severity |
| Modal.UrgencyOf | extension/content/ui/modal.ts:179 | high exactly at 3 or less, low exactly above 6 |
| Modal.UrgencyRises | extension/content/ui/modal.ts:224 | urgency never falls as the countdown runs down |
| Modal.StartRemaining | extension/content/ui/modal.ts:154 | the countdown starts at `max(1, delay)` |
| Modal.ModalHost.constructor | extension/content/ui/modal.ts:15 | no dialog is active at first |
| Modal.ModalHost.OpenPauseModal | extension/content/ui/modal.ts:146-154 | a delay of 0 or less confirms at once and leaves the slot and every field of the active dialog unchanged. Otherwise the previous dialog is settled with cancel, keeping its countdown and section, and a fresh one that counts down from `max(1, delay)` becomes active |
| Modal.PauseModal.constructor | extension/content/ui/modal.ts:153-155 | a new dialog is open, counting down from `max(1, delay)`, and shows the skeleton |
| Modal.PauseModal.Settle | extension/content/ui/modal.ts:228-241 | the first call fixes the result, stops the timer and the trap, and clears the host slot only if it points at this dialog; later calls change nothing |
| Modal.PauseModal.Tick | extension/content/ui/modal.ts:218-226 | an open dialog counts down by one and confirms exactly on reaching 0; a settled one is unchanged |
| Modal.PauseModal.AnalysisArrived | extension/content/ui/modal.ts:201-215 | the analysis or the error is shown only while the dialog is open |
| Modal.PauseModal.KeyDown | extension/content/ui/modal.ts:243-248 | the countdown and section never change. Enter outside a text area settles with confirm, unless already settled, and clears the host's slot as `settle` does; other keys leave the result, the settled flag and the slot as they were |
| Modal.RunCountdown | extension/content/ui/modal.ts:218-226 | from an open dialog, `remaining` ticks confirm, and fewer leave it open with `remaining - ticks` left |
| FocusTrap.IndexOf | extension/content/ui/focusTrap.ts:44 | `indexOf`: the first position of the focused element, -1 exactly when nothing is focused or it is not in the list |
| FocusTrap.NextIndex | extension/content/ui/focusTrap.ts:47-52 | the next index is always inside the list |
| FocusTrap.NextIndexForward | extension/content/ui/focusTrap.ts:51 | Tab moves one place forward cyclically; outside the list counts as just before the first |
| FocusTrap.NextIndexBackward | extension/content/ui/focusTrap.ts:49 | Shift+Tab moves one place back cyclically, and from outside the list to the last |
| FocusTrap.NextIndexRoundTrip | extension/content/ui/focusTrap.ts:47-52 | Tab then Shift+Tab, and Shift+Tab then Tab, come back |
| FocusTrap.KeyStep | extension/content/ui/focusTrap.ts:22-56 | an inactive trap does nothing. Escape is handled exactly when active. Tab with nothing focusable is prevented without moving; otherwise Tab moves to an index in the list |
| FocusTrap.IndexOfDistinct | extension/content/ui/focusTrap.ts:44 | without repeats an element's index is its position |
| FocusTrap.TabWrapsToFirst | extension/content/ui/focusTrap.ts:51 | Tab from the last element or from outside the list goes to the first |
| FocusTrap.ShiftTabWrapsToLast | extension/content/ui/focusTrap.ts:49 | Shift+Tab from the first element or from outside goes to the last |
| FocusTrap.TabMovesOn | extension/content/ui/focusTrap.ts:47-52 | away from the ends Tab goes to the next element and Shift+Tab to the previous |
| FocusTrap.Trap.constructor | extension/content/ui/focusTrap.ts:18-20 | a new trap is active and listening, remembers the earlier focus, and focuses the first focusable element if there is one |
| FocusTrap.Trap.OnKeyDown | extension/content/ui/focusTrap.ts:22-56 | the handler does `KeyStep` on the `document.activeElement` given at the key press: Escape calls the close callback once, and Tab focuses the chosen element, otherwise the focus stays where it was found; nothing else changes |
| FocusTrap.Trap.Deactivate | extension/content/ui/focusTrap.ts:62-71 | the first call deactivates, detaches and restores the earlier focus if it is still in the document; later calls do nothing, so the effects run once |
| OutlookIntercept.Record | extension/content/interceptor/outlookIntercept.ts:47-50 | an accepted attempt records `now` for its compose window; a dropped one changes nothing |
| OutlookIntercept.RootsIndependent | extension/content/interceptor/outlookIntercept.ts:48-50 | an attempt on one window neither changes another's record nor whether that one is accepted |
| OutlookIntercept.FirstAttemptAccepted | extension/content/interceptor/outlookIntercept.ts:48-49 | a window with no record is accepted exactly from time 120 on |
| OutlookIntercept.SecondAttemptWithinWindow | extension/content/interceptor/outlookIntercept.ts:47-50 | after an accepted attempt, another is accepted exactly when it is 120 ms or more later |
| OutlookIntercept.PointerTarget | extension/content/interceptor/outlookIntercept.ts:69-77 | a pointer event is intercepted exactly when it is not from the overlay, hits a send button without the bypass, and has a compose window |
| OutlookIntercept.KeyTarget | extension/content/interceptor/outlookIntercept.ts:82-89 | a keydown is intercepted exactly when it is not from the overlay, is the send shortcut, has a compose window, and that window's send button has no bypass |
| OutlookIntercept.Interceptor.constructor | extension/content/interceptor/outlookIntercept.ts:39 | no record and nothing reported at first |
| OutlookIntercept.Interceptor.DispatchAttempt | extension/content/interceptor/outlookIntercept.ts:41-54 | the record becomes `Record(old, root, now)`, and the attempt is reported exactly when accepted |
| OutlookIntercept.Interceptor.OnPointer | extension/content/interceptor/outlookIntercept.ts:56-80 | the event is blocked exactly when intercepted, and then dispatched as a click; otherwise nothing changes |
| OutlookIntercept.Interceptor.OnKeyDown | extension/content/interceptor/outlookIntercept.ts:82-93 | the event is blocked exactly when intercepted, and then dispatched as a shortcut; otherwise nothing changes |
| OutlookIntercept.PressReportedOnce | extension/content/interceptor/outlookIntercept.ts:47-50 | a pointerdown and its click within 120 ms are reported at most once, and exactly once for a new window at time 120 or later |
| SendTrigger.IsSendShortcut | extension/content/interceptor/sendTrigger.ts:15-20 | `isSendShortcut`: Enter, with Ctrl or Meta and with neither Alt nor Shift; its properties are the four lemmas below |
| SendTrigger.OnlyEnterSends | extension/content/interceptor/sendTrigger.ts:16-18 | no key other than Enter is a send shortcut |
| SendTrigger.EnterNeedsCtrlOrMeta | extension/content/interceptor/sendTrigger.ts:19 | Enter without Ctrl or Meta does not send |
| SendTrigger.AltOrShiftCancels | extension/content/interceptor/sendTrigger.ts:19 | Alt or Shift held means no send |
| SendTrigger.CtrlOrMetaEnterSends | extension/content/interceptor/sendTrigger.ts:15-20 | Ctrl+Enter or Meta+Enter, without Alt or Shift, sends |
| SendTrigger.BypassOnlyTrue | extension/content/interceptor/sendTrigger.ts:39-41 | a missing attribute is no bypass, and a present one is a bypass exactly when it is "true" |

## Left out

- DOM querying is not modelled: compose-root discovery, recipient counting, attachment detection, subject parsing, quoted-content stripping, and the send-button lookups and native re-send. Their results are inputs: the node tree, `toCount`, `hasAttachment`, `subject`, and the per-event lookup records.
- `parseSubject`'s `cleanText` runs on the input field, so the subject is taken as given.
- `innerText || textContent` is an input function of the node, as is the node's parent tag. The `bodyRaw` fallback uses `innerText` only; its `?? textContent` branch is not modelled.
- The network request to LanguageTool (fetch, abort timer, JSON parsing, error paths) is not modelled. Only the mapping of a parsed match list is.
- Chrome storage access is not modelled: `getSettings`, the write in `setSettings`, and `onSettingsChange`. `SetSettings` takes the current settings as an input.
- The orchestration entry points, the popup, `toneRules.ts` and the severity-weighted pause analysis are not modelled. The modules that would define that analysis are not part of this model.
- The dialog's DOM construction, its CSS classes, the 190 ms overlay removal and the rendering of the analysis are not modelled. `Section` records only what the dialog shows.
- Timers are method calls: `Tick` for the interval, and `Settle` for buttons and Escape.
- The tables of `spellDictionary` (common words, misspellings, allowlist) and `\p{L}` are parameters. A misspelling lookup is a map lookup, so object-prototype keys are not modelled.
- Case mapping is ASCII only. `toLowerCase` and `toUpperCase` of non-ASCII letters are not modelled. This is exact for tokens, regular expressions without the `u` flag and the LanguageTool message test, and approximate for keywords and dictionary words with non-ASCII letters.
- JsText.Slice, JsText.CharAt, LanguageTool.ExtractWord and LanguageTool.IsNewlinePunctuationFalsePositive: strings are sequences of Unicode code points, so lengths, LanguageTool's `offset` and `length`, and `slice`/`charAt` indices count code points, where JavaScript and the service count UTF-16 code units. A text with a character outside the Basic Multilingual Plane (an emoji, say) before an offset is read at a different position than by the code. The evidence word and the comma and line-break tests can then differ: on U+1F600 followed by ",\rx", at offset 2, the code sees the comma and suppresses the match, and the model does not.
- Storage.RawSettings and Storage.NormalizeSettings: the stored fields are taken as well typed. `enabled` and `smartPause` are booleans when present, and `keywords` items are strings. The code passes any other non-nullish `enabled` or `smartPause` value through unchanged, and turns non-string keyword items into strings with `String(k)`; neither is modelled.
- Floating point is not modelled. The ratios 0.75 and 0.35 become `4 * latin >= 3 * letters` and `20 * unknown <= 7 * tokens`.
- Delays are whole numbers, so `Math.round` is the identity. A non-integer `maxIssues` is not modelled.
- Spellcheck.AddConfusionIssues: returns the new list instead of pushing into the caller's array. Aliasing of that array is not modelled.
- Spellcheck.AnalyzeSpelling: the budget test that ends the token loop with `break` is the loop's guard. In `Spellcheck.ScanCandidates`, the `break` becomes an early return. Neither changes the result.
- ComposeContext.BlockList.PushBlock: both branches of `pushBlock` append, as the code does, so consecutive blank blocks are kept.
- SmartPause.ComputeDelay: states only the range of the delay. Equality with the decision's delay would restate its one-line body.
- Spellcheck.IsLikelyProperNoun: this is the intended sentence-start window, as recorded under Findings. `Spellcheck.IsLikelyProperNounAsWritten` is the window as written. `Spellcheck.ShouldSkipToken`, `Spellcheck.Analyze` and `Spellcheck.AnalyzeSpelling` take the window as a parameter and their contracts hold for both. With `Intended`, a capitalised word right after a sentence mark is checked rather than skipped ("Wrold" in "Hello. Wrold" can be flagged), so only `AsWritten` gives the output of the code as written.

## Findings

| source | as written | input that shows it | evidently intended | confidence | as-written member | corrected member |
|---|---|---|---|---|---|---|
| extension/content/settings/spellcheck.ts:90 | `sourceText.slice(Math.max(0, token.index - 3), token.index + 1)` ends with the token's own capital letter, so `/[.!?\n]\s*$/` can never match and only `token.index === 0` counts as a sentence start | the token "World" at index 7 in "Hello. World" is taken for a proper noun and skipped | the window is the characters before the token, `slice(Math.max(0, token.index - 3), token.index)`, so a capital after ". " is checked for typos | not executed | Spellcheck.ProperNounAfterFullStop | Spellcheck.ProperNounAfterSentenceMark |

One more observation comes from the same proofs, but it is not a defect. Every token matches `[A-Za-z][A-Za-z'-]+`, so the URL, e-mail and digit tests in `shouldSkipToken` can never skip a token (`Spellcheck.TokenIsNoUrlEmailOrNumber`).
