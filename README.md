# MyGuard contract analyser — a Dafny model

MyGuard is a contract-clause classifier that runs as an Internet Computer
canister, with a React front end. A user pastes contract text. The backend
splits the text into clauses and labels each clause "Allowed", "Not Allowed",
"Unclassified" or "Neutral". It asks a language model first and falls back to
rule-based scoring and nearest-record similarity. The front end shows the
breakdown, offers a "Why?" explanation for every risky clause, and runs a chat
with the assistant. Replies are revealed one character at a time. Users sign
in with a wallet, and the session is kept in `localStorage`.

This project models the logic around that classifier and proves properties of it:

- `wrappers.dfy`, `strings.dfy`: `Option`/`Result`, and the string primitives
  both sides use: `trim`, `split`, `split_whitespace`, `lines`, `contains`,
  `join` and ASCII lower-casing.
- `llm_text.dfy`: `clean_llm_response` and the bullet stripping of key points.
- `classifier.dfy`: the dataset (`load_contract_dataset` with its five fallback
  records), `text_similarity`, `classify_clause`, clause splitting and the rule
  scoring of `enhanced_analyze`. The rule score is counted in integer tenths.
  Similarities, confidences and percentages are exact rationals (`real`).
- `analyzer.dfy`: `llm_analyze`, the label read off a model reply, the counting
  in `analyze_contract` and `fallback_analyze_contract`, and the order in which
  `analyze_contract` falls back.
- `endpoints.dfy`: the guards of `chat_with_llm`, `quick_contract_prompt`,
  `analyze_clause` and `explain_contract`.
- `typewriter.dfy`: `TypewriterText` as a class whose `Tick` is one animation step.
- `session.dfy`: the `App` component as a class. It holds the analyze flow,
  the chat log with its placeholder, the "Why?" explanation cache, the
  readiness flag and `getStatusText`. Each remote call is a begin method plus a
  `Complete…` method that receives the call's outcome.
- `auth.dfy`: `services/auth.js`. This covers the whitelist, provider dispatch,
  principal validation, and `localStorage` as a class over a map.
- `auth_context.dfy`: the `AuthProvider` context state machine.
- `profile_menu.dfy`: `formatPrincipal`, the avatar letter and the menu toggle.

The language model is a parameter. `replies(k)` is the reply to the k-th prompt
an analysis sends. The endpoints also return the requests they sent, so "no
model call" is a checkable statement. Wallet logins are a function from the
wallet request to a success or an error. Environment variables are plain
strings, and an unset variable is the empty string.

Where the code and the application's design description differ, the model
follows the code:

- A failed explanation is stored as a settled entry that carries the fallback
  text. It cannot be told apart from a reply, and it can never be requested again.
- The chat placeholder is filtered out and the bot turn is appended at the end.
  The placeholder is not swapped in place. Because the placeholder is always
  the last message, the resulting order is the same (`Session.ExchangeAppendsTwoTurns`).
- One global `isExplaining` flag disables every "Why?" button while any
  explanation is loading. The flag is not kept per clause.
- Short clauses get the fourth label "Neutral", which `getStatusText` does not
  recognise, so it shows an empty status for them.

## Model

| member | source | states |
|---|---|---|
| `Strings.Trim` | src/myGuard_backend/src/lib.rs:191 | The result has no white space at either end, occurs in the input, and is empty exactly when the input is all white space. |
| `Strings.TrimRemovesOnlyEnds` | src/myGuard_backend/src/lib.rs:191 | The input is the trimmed text with blank text before it and blank text after it, so only white space at the two ends is removed. |
| `Strings.BlankIsTrimmedAway` | src/myGuard_backend/src/lib.rs:486 | "is blank" and "trims to empty" agree, so `trim().is_empty()` and `!s.trim()` are the same test. |
| `Strings.Split` | src/myGuard_backend/src/lib.rs:182 | Splitting gives at least one piece, and no piece contains a separator. |
| `Strings.SplitRejoins` | src/myGuard_backend/src/lib.rs:182 | For any separator set, such as '.' and '\n', there is one more piece than the text has separators. Putting each separator back between its two pieces gives the text again. |
| `Strings.JoinSplit` | src/myGuard_frontend/src/services/auth.js:18 | Splitting on one character and joining the pieces back with it gives the original text. |
| `Strings.SplitPiecesOccur` | src/myGuard_backend/src/lib.rs:181-184 | Every split piece occurs in the text, and the first piece is a prefix of it. |
| `Strings.Words` | src/myGuard_backend/src/lib.rs:138-139 | `split_whitespace` gives non-empty words with no white space inside. |
| `Strings.WordsAreVisibleCharacters` | src/myGuard_backend/src/lib.rs:138-139 | The words, written one after the other, are exactly the text's non-white-space characters, in order. A text has no words exactly when it is blank. |
| `Strings.NonEmptyAppend` | src/myGuard_backend/src/lib.rs:576 | Dropping empty lines works piece by piece, so the kept lines stay in their order. |
| `Strings.Lines` | src/myGuard_backend/src/lib.rs:596 | `lines` gives lines that contain no newline. |
| `Strings.LinesRejoin` | src/myGuard_backend/src/lib.rs:596 | For a text without '\r', joining its lines with "\n" gives back the text, less one final newline. |
| `Strings.ToLower` | src/myGuard_backend/src/lib.rs:135-136 | Lower-casing keeps the length and maps each character separately. |
| `Strings.ContainsTail` | src/myGuard_backend/src/lib.rs:310-312 | A text that contains `p + q` also contains `q`. |
| `LlmText.PreambleLength` | src/myGuard_backend/src/lib.rs:597-604 | The skipped prefix consists only of preamble lines (empty, "Here's", "Below is", a code fence, "**", a leading '#'), and the first line after it is not preamble. |
| `LlmText.IsPreambleLine` | src/myGuard_backend/src/lib.rs:597-604 | A line is preamble iff it is empty, contains "Here's", "Below is", a code fence or "**", or starts with '#'. |
| `LlmText.CleanLlmResponse` | src/myGuard_backend/src/lib.rs:595-609 | The cleaned reply has no surrounding white space, and it is empty when every line is preamble. |
| `LlmText.CleanKeepsFromFirstContentLine` | src/myGuard_backend/src/lib.rs:595-609 | For any split into a preamble and a remainder that starts with a content line, the result is the trimmed newline-join of the whole remainder, later preamble-like lines included. |
| `LlmText.StripBullet` | src/myGuard_backend/src/lib.rs:577 | A stripped key point is trimmed and no longer than its line. |
| `LlmText.StripBulletOfMarkedItem` | src/myGuard_backend/src/lib.rs:577 | Any run of '-', '*', '•' and spaces in front of a trimmed item is removed, leaving exactly the item. |
| `LlmText.KeyPoints` | src/myGuard_backend/src/lib.rs:574-578 | There is one key point per non-empty line. Point i is line i with its bullet marks and surrounding white space removed, so the points are trimmed and in line order. |
| `Classifier.KeptRecords` | src/myGuard_backend/src/lib.rs:76-88 | Only parsed rows with non-empty text and non-empty label are kept, and every kept row was parsed. Every parsed row with non-empty text and label is kept. |
| `Classifier.KeptRecordsInOrder` | src/myGuard_backend/src/lib.rs:76-88 | A single row is kept exactly when it parsed and is usable. The rows kept from two stretches of the file are those of the first followed by those of the second, so kept rows keep the file's order. |
| `Classifier.DatasetCell.LoadContractDataset` | src/myGuard_backend/src/lib.rs:61-101 | The loop installs exactly the kept records, or the fallback records when none are kept. |
| `Classifier.DatasetCell.Init` | src/myGuard_backend/src/lib.rs:54-58 | `init` leaves the loaded dataset in the cell. |
| `Classifier.LoadedDatasetIsUsable` | src/myGuard_backend/src/lib.rs:92-130 | After loading, the dataset is never empty and holds only usable records. With no usable row it is exactly the 5 fallback records. |
| `Classifier.Similarity` | src/myGuard_backend/src/lib.rs:134-154 | The similarity lies between 0 and 1. |
| `Classifier.TextSimilarity` | src/myGuard_backend/src/lib.rs:141-153 | The counting loop computes common words over the larger word count, or 0 when both texts have no words. |
| `Classifier.SimilarityToItself` | src/myGuard_backend/src/lib.rs:141-153 | A text is fully similar (1) to itself unless it has no words, in which case the similarity is 0. |
| `Classifier.ClassifyClause` | src/myGuard_backend/src/lib.rs:157-177 | The loop over the dataset computes the first-strict-maximum fold `Classify`. |
| `Classifier.Classify` | src/myGuard_backend/src/lib.rs:157-177 | The fold over the dataset: a record replaces the best so far only with a strictly higher similarity, and it brings its label only at similarity 0.5 or more. Otherwise the label is "Unclassified". An empty dataset gives "Unclassified" at 0. |
| `Classifier.ClassifyIsMaximum` | src/myGuard_backend/src/lib.rs:158-174 | The reported similarity is in [0,1], at least every record's similarity, and attained by some record when positive. At 0 the label is "Unclassified". |
| `Classifier.ClassifyFirstMaximum` | src/myGuard_backend/src/lib.rs:165-172 | The label is that of the first record reaching the maximum, or "Unclassified" when the maximum is below 0.5. |
| `Classifier.ClassifiedOnlyAtHalfOrMore` | src/myGuard_backend/src/lib.rs:165-172 | Any label other than "Unclassified" is some record's label, reached with similarity at least 0.5. |
| `Classifier.SplitClauses` | src/myGuard_backend/src/lib.rs:181-184 | There is one clause per non-blank segment of the split on '.' and '\n'. Each clause is non-empty, trimmed and free of both separators. |
| `Classifier.NonBlankAppend` | src/myGuard_backend/src/lib.rs:183 | Blank segments are filtered one at a time, so the kept segments stay in text order. |
| `Classifier.ClauseIsTrimmedSegment` | src/myGuard_backend/src/lib.rs:181-191 | Clause i is the trim of the i-th non-blank segment: that segment is the clause with blank text before and after it. |
| `Classifier.ClausesAreNonEmpty` | src/myGuard_backend/src/lib.rs:190-194 | A clause is its own trim and is non-empty, so the "skip empty clause" branch never fires. |
| `Classifier.ClausesOccurInText` | src/myGuard_backend/src/lib.rs:181-191 | Every analysed clause occurs in the contract text. |
| `Classifier.NoClausesInPunctuation` | src/myGuard_backend/src/lib.rs:181-184 | A text made only of white space, '.' and '\n' has no clause. |
| `Classifier.RuleScore` | src/myGuard_backend/src/lib.rs:196-233 | The score in tenths lies in [-6, 3]. It is at most -5 exactly when the unfair and penalty groups both match and the fair group does not. |
| `Classifier.EnhancedVerdict` | src/myGuard_backend/src/lib.rs:238-256 | A score of at most -0.5 gives "Not Allowed" at 0.85, and at least 0.5 gives "Allowed" at 0.85. Otherwise, below similarity 0.6, under -0.2 gives "Not Allowed" at 0.7 and over 0.2 gives "Allowed" at 0.7. Any other case keeps the nearest-record result. Scores are in tenths. |
| `Classifier.EnhancedDecisionTable` | src/myGuard_backend/src/lib.rs:240-256 | This is the complete verdict by which rule groups match and whether the base similarity is below 0.6. The strong "Allowed" branch never applies. |
| `Classifier.WithoutNoticeIsAlsoFair` | src/myGuard_backend/src/lib.rs:200-231 | "without notice" and "without consent" also match the fair group, so on their own they score 0. |
| `Classifier.EnhancedAnalyze` | src/myGuard_backend/src/lib.rs:180-270 | There is one rule-adjusted analysis per clause, in order, or the "No clauses…" error when the text has no clause. |
| `Analyzer.ReplyLabel` | src/myGuard_backend/src/lib.rs:306-317 | The label is "Not Allowed" iff the lower-cased cleaned reply contains "not allowed". It is "Unclassified" iff that reply has no "allowed". Otherwise it is "Allowed". |
| `Analyzer.LlmVerdict` | src/myGuard_backend/src/lib.rs:289-323 | A clause under three words is "Neutral" at 0.5 with no reply used. Any other clause gets the reply's label at 0.9. |
| `Analyzer.NotAllowedMentionsAllowed` | src/myGuard_backend/src/lib.rs:310-312 | Every reply containing "not allowed" contains "allowed", so the order of the two tests matters. |
| `Analyzer.ShortClausesMakeNoCall` | src/myGuard_backend/src/lib.rs:289-298 | Clauses of fewer than three words cause no model prompt. |
| `Analyzer.LlmAnalyze` | src/myGuard_backend/src/lib.rs:273-331 | There is one breakdown entry per clause, in order: "Neutral"/0.5 for short clauses, and the reply's label/0.9 otherwise. One prompt is sent per long clause, in order. The "No clauses…" error is returned when there is no clause. |
| `Analyzer.ModelBreakdownAt` | src/myGuard_backend/src/lib.rs:283-324 | Entry i of the model breakdown is clause i, judged on the reply to the prompt sent for it. That prompt's number is the count of long clauses before it. |
| `Analyzer.ModelLabels` | src/myGuard_backend/src/lib.rs:289-317 | Each entry keeps its clause, and its label is one of the four. "Neutral" appears exactly for clauses of fewer than three words. |
| `Analyzer.CountsWithinBreakdown` | src/myGuard_backend/src/lib.rs:347-352 | "Allowed" entries plus "Not Allowed" entries are at most the breakdown length. |
| `Analyzer.CountLabel` | src/myGuard_backend/src/lib.rs:347-352 | The number of breakdown entries whose label is exactly the wanted one, at most the breakdown length. |
| `Analyzer.PercentageBounds` | src/myGuard_backend/src/lib.rs:355-365 | A count at most the total gives a percentage in [0, 100]. |
| `Analyzer.Percentage` | src/myGuard_backend/src/lib.rs:355-365 | count / total * 100 when there are clauses, and 0 otherwise. |
| `Analyzer.Summarize` | src/myGuard_backend/src/lib.rs:345-374 | The result carries the given total and breakdown. The counts are those of the exact labels "Allowed" and "Not Allowed", and the percentages are those counts over the total (0 for no clauses). allowed + not allowed ≤ total, and both percentages lie in [0, 100]. |
| `Analyzer.FallbackAnalyzeContract` | src/myGuard_backend/src/lib.rs:420-473 | There is one nearest-record analysis per clause, in order. The counts are the exact-label counts of the breakdown, and the percentages are taken of the clause total. |
| `Analyzer.NearestRecordAnalysis` | src/myGuard_backend/src/lib.rs:436-449 | A clause's fallback entry: the clause with the label and similarity of its nearest record. |
| `Analyzer.AnalyzeContract` | src/myGuard_backend/src/lib.rs:335-417 | total == number of clauses == breakdown length, and allowed + not allowed ≤ total. Counts are by exact label, and the percentages are those counts over the total. A text with no clause gives all zeros and an empty breakdown. Any other text is decided by the model path. |
| `Endpoints.ChatWithLlm` | src/myGuard_backend/src/lib.rs:485-509 | A blank prompt gets the fixed request for a topic and no model call. Otherwise there is one chat call, and a blank reply becomes the fixed apology. The answer is never blank. |
| `Endpoints.QuickContractPrompt` | src/myGuard_backend/src/lib.rs:513-530 | A blank prompt gives `Err` with no call. Otherwise there is one prompt, and the reply is returned iff it is not blank. |
| `Endpoints.CleanedAnswer` | src/myGuard_backend/src/lib.rs:547-551 | A cleaned reply is an answer iff it is non-empty. |
| `Endpoints.AnalyzeClause` | src/myGuard_backend/src/lib.rs:534-552 | A blank clause gives `Err` with no call. Otherwise there is one prompt, and the answer is the cleaned reply iff that is non-empty; it is then trimmed. |
| `Endpoints.ExplainContract` | src/myGuard_backend/src/lib.rs:556-592 | A blank text gives `Err` with no call. Otherwise there are three prompts in order, each part is the cleaned reply, and the key points are trimmed. |
| `Typewriter.TypewriterText.constructor` | src/myGuard_frontend/src/App.jsx:5-8 | The animation starts with nothing shown, index 0, and not complete. |
| `Typewriter.TypewriterText.Tick` | src/myGuard_frontend/src/App.jsx:10-22 | `displayedText` is always the first `currentIndex` characters. A tick with characters left appends `text[currentIndex]` and advances the index by exactly 1. After the end, `onComplete` fires on the first tick only and never again. |
| `Typewriter.TypewriterText.SetText` | src/myGuard_frontend/src/App.jsx:24-29 | A new text resets the reveal to empty, index 0, not complete. The same text changes nothing. |
| `Session.App.constructor` | src/myGuard_frontend/src/App.jsx:35-51 | The app starts with the greeting as the only message, empty cache, no flags set, not ready, and the probe in flight. |
| `Session.App.CompleteProbe` | src/myGuard_frontend/src/App.jsx:53-62 | `systemReady` is true exactly when the probe succeeded. There is no re-probe. |
| `Session.App.SubmitAnalysis` | src/myGuard_frontend/src/App.jsx:78-88 | A blank text, or a submit while analysing or not ready, sends nothing and changes nothing. Otherwise the text is sent and `isAnalyzing` is set. |
| `Session.App.CanSubmitAnalysis` | src/myGuard_frontend/src/App.jsx:306 | The analyse button is enabled iff no analysis is running and the system is ready. |
| `Session.App.CompleteAnalysis` | src/myGuard_frontend/src/App.jsx:88-104 | Success replaces the result wholesale, and failure keeps it. `isAnalyzing` is false afterwards, and nothing else changes. |
| `Session.App.SendMessage` | src/myGuard_frontend/src/App.jsx:107-127 | A blank input, or a send while the bot is typing, is a no-op. Otherwise the user turn and a fresh-id placeholder are appended, the input is cleared, `isBotTyping` is set, and the prompt is "As MyGuard, " + question. |
| `Session.App.CompleteChat` | src/myGuard_frontend/src/App.jsx:129-159 | Every message with the placeholder id is removed and exactly one bot turn is appended: an animated reply with a fresh id, or the static error text. `isBotTyping` becomes false and no placeholder is left. |
| `Session.App.FinishTyping` | src/myGuard_frontend/src/App.jsx:428-435 | `onComplete` changes only the `typing` flag of the messages with that id, and clears `animatedMessage`. |
| `Session.App.RequestExplanation` | src/myGuard_frontend/src/App.jsx:177-190 | A request is sent iff the clause has a "Why?" button, the button is enabled, and the clause has no entry. The entry then becomes loading and no other entry changes. |
| `Session.App.HasWhyButton` | src/myGuard_frontend/src/App.jsx:357 | A clause has a "Why?" button iff the current result has a breakdown entry for it labelled "Not Allowed". |
| `Session.App.CompleteExplanation` | src/myGuard_frontend/src/App.jsx:190-206 | The pending entry settles with the reply or the fixed fallback. No other entry changes and `isExplaining` ends. |
| `Session.ChatErrorText` | src/myGuard_frontend/src/App.jsx:150-154 | The error turn embeds the message, or "Unknown error" when the message is empty. |
| `Session.StatusText` | src/myGuard_frontend/src/App.jsx:162-169 | Each of the three known labels maps to its status line. Any other label gives the empty text. |
| `Session.NeutralHasNoStatus` | src/myGuard_frontend/src/App.jsx:162-169 | The backend's "Neutral" label shows no status, while "Unclassified" shows "Neutral". |
| `Session.WithoutId` | src/myGuard_frontend/src/App.jsx:132 | After filtering, no message has the placeholder id and the log is not longer. |
| `Session.WithoutIdKeepsTheRest` | src/myGuard_frontend/src/App.jsx:147 | The filter keeps every other message, adds none, and leaves a log without that id unchanged. |
| `Session.ExchangeAppendsTwoTurns` | src/myGuard_frontend/src/App.jsx:111-155 | A send followed by its completion leaves the earlier log followed by the user turn and the one bot turn. |
| `Session.MarkTyped` | src/myGuard_frontend/src/App.jsx:429-433 | The map keeps length, ids, kinds and texts. `typing` stays true only for messages without that id. |
| `Session.SendKeepsChatValid` | src/myGuard_frontend/src/App.jsx:107-127 | A send keeps ids fresh and makes the placeholder the last message and the only one. |
| `Session.AnswerKeepsChatValid` | src/myGuard_frontend/src/App.jsx:129-159 | A completion keeps ids fresh and leaves no placeholder. |
| `Session.MarkTypedKeepsChatValid` | src/myGuard_frontend/src/App.jsx:428-434 | Ending an animation keeps the chat invariant. |
| `Session.WithoutIdKeepsIdsFresh` | src/myGuard_frontend/src/App.jsx:119-136 | Removing messages keeps message ids distinct and below the counter. |
| `Session.CachedClauseIsDisabled` | src/myGuard_frontend/src/App.jsx:361 | A clause with any entry, loading or settled, has its "Why?" button disabled. |
| `Session.WhyEnabled` | src/myGuard_frontend/src/App.jsx:361 | The "Why?" button is enabled iff no explanation is running and the clause has no settled entry. |
| `Session.BeginKeepsCacheValid` | src/myGuard_frontend/src/App.jsx:177-186 | Starting an explanation leaves exactly one loading entry, the pending clause. |
| `Session.SettleKeepsCacheValid` | src/myGuard_frontend/src/App.jsx:190-206 | Settling leaves no loading entry and no call in flight. |
| `Auth.GetWhitelistedCanisters` | src/myGuard_frontend/src/services/auth.js:4-23 | The pushes build the whitelist: frontend id if set, backend id if set, then the comma-split additional ids. |
| `Auth.WhitelistLayout` | src/myGuard_frontend/src/services/auth.js:8-20 | The set ids come first in order, and the rest, joined with ',', is exactly `ADDITIONAL_WHITELIST`. |
| `Auth.ParseProvider` | src/myGuard_frontend/src/services/auth.js:37-52 | A name is recognised iff it is exactly "Plug", "Stoic", "NFID" or "Identity". |
| `Auth.ParseProviderName` | src/myGuard_frontend/src/services/auth.js:37-49 | Every provider's name parses back to that provider. |
| `Auth.WalletCall` | src/myGuard_frontend/src/services/auth.js:38-49 | Only Plug is called, and it is given the whitelist. |
| `Auth.AuthenticateUser` | src/myGuard_frontend/src/services/auth.js:26-67 | An unknown provider fails with "Unsupported provider". A wallet error is passed on. A falsy principal or "Not Connected." fails with "Authentication failed". Storage is written only on success, with both keys. |
| `Auth.LogoutUser` | src/myGuard_frontend/src/services/auth.js:70-73 | Logout removes exactly the two session keys. |
| `Auth.GetCurrentUser` | src/myGuard_frontend/src/services/auth.js:82-87 | The result is exactly the two stored values, each missing when its key is missing. |
| `Auth.IsValidPrincipal` | src/myGuard_frontend/src/services/auth.js:54 | A principal is valid iff it is non-empty and not "Not Connected.". |
| `Auth.IsAuthenticated` | src/myGuard_frontend/src/services/auth.js:76-79 | The session is authenticated iff a principal is stored and it is valid. |
| `Auth.SignInIsRemembered` | src/myGuard_frontend/src/services/auth.js:59-62 | What a sign-in stores is read back by `getCurrentUser`, and `isAuthenticated` then holds. |
| `Auth.SignOutForgets` | src/myGuard_frontend/src/services/auth.js:70-79 | After logout both values are missing, `isAuthenticated` is false, and all other keys are unchanged. |
| `AuthContext.AuthProvider.constructor` | src/myGuard_frontend/src/context/AuthContext.jsx:7-9 | The context starts with no user, loading, and no error. |
| `AuthContext.AuthProvider.Mount` | src/myGuard_frontend/src/context/AuthContext.jsx:11-17 | The user is taken from storage iff `isAuthenticated()`, and loading then ends. |
| `AuthContext.AuthProvider.BeginLogin` | src/myGuard_frontend/src/context/AuthContext.jsx:19-23 | Login start clears the error and sets loading. The user is unchanged. |
| `AuthContext.AuthProvider.CompleteLogin` | src/myGuard_frontend/src/context/AuthContext.jsx:23-34 | On success the user is the returned principal with the requested provider. On failure the error message is kept, the user is unchanged, and the error is passed on. Loading is false either way. |
| `AuthContext.AuthProvider.Logout` | src/myGuard_frontend/src/context/AuthContext.jsx:37-40 | Logout clears storage's two keys and the user. |
| `AuthContext.ContextAgreesWithStorage` | src/myGuard_frontend/src/context/AuthContext.jsx:49 | Once mounted, the context's `isAuthenticated` (`!!user`) equals the service's `isAuthenticated()`. |
| `AuthContext.AuthProvider.IsAuthenticated` | src/myGuard_frontend/src/context/AuthContext.jsx:49 | The context's `isAuthenticated` is `!!user`: a user is present. |
| `ProfileMenu.FormatPrincipal` | src/myGuard_frontend/src/components/UserProfileMenu.jsx:9-14 | A missing or empty principal gives ''. A principal over 12 characters gives first 6 + "..." + last 6 (length 15). Anything else is returned unchanged. |
| `ProfileMenu.FormatKeepsPrefix` | src/myGuard_frontend/src/components/UserProfileMenu.jsx:11-13 | The output starts with the principal's first min(6, len) characters. |
| `ProfileMenu.ShortFormCanBeLonger` | src/myGuard_frontend/src/components/UserProfileMenu.jsx:11-12 | Principals of 13 or 14 characters come out longer than they went in. |
| `ProfileMenu.AvatarInitial` | src/myGuard_frontend/src/components/UserProfileMenu.jsx:23 | The avatar shows the provider's first character, or '?' when the provider is missing or empty. |
| `ProfileMenu.UserProfileMenu.Toggle` | src/myGuard_frontend/src/components/UserProfileMenu.jsx:20 | A click negates `isMenuOpen`, so two clicks restore it. |

## Left out

- Rendering, styling and DOM effects are not modelled: JSX, CSS, `scrollIntoView`, `alert`, `console` and canister logging. This includes the risk notice and its `.toString` display slip (App.jsx:341-343).
- The welcome modal and `termsAccepted` flag (App.jsx:45-46, 70-76, 171-175) and the `isChatOpen` toggle are not modelled. They are presentation state with no effect on the flows.
- Timers and promise scheduling are not modelled. A typewriter `Tick` is one run of the animation effect plus its timer firing, and `speed` is not modelled. `SetText` applies the reset effect directly, so the order of the two effects within one React commit is not modelled. Remote calls are begin/complete pairs. Flows are sequential: a `Complete…` method requires its flow's in-flight flag, and stale responses are applied just as the code applies them.
- `Date.now()` message ids are replaced by a counter, so ids are fresh by construction.
- `Auth.AuthenticateUser`: the `userObject` default and the wallet's `agent` field are not modelled. Wallet SDK calls (`PlugLogin`, `StoicLogin`, `NFIDLogin`, `IdentityLogin`) are a function parameter.
- `AuthContext.AuthProvider.BeginLogin`: overlapping logins are excluded (`requires` no login in flight). Storage is assumed to change only through the context.
- `ic_llm::prompt` and `ic_llm::chat` are not modelled: their replies are arbitrary strings given as parameters. The CSV parsing of the embedded dataset is not modelled either: its output is the parameter of `LoadContractDataset`.
- Floating point is not modelled. Similarities, confidences and percentages are exact rationals, and the rule score is in integer tenths. The rule-score sums (0, ±0.3, -0.6 and -0.3) are compared with the thresholds as their tenths are. The f64 rounding that remains is in the similarity division (lib.rs:153) and in `(count / total) * 100.0` (lib.rs:355-365), which the model computes exactly.
- `Typewriter.TypewriterText.Tick`: the text is a sequence of code points, while JavaScript indexes UTF-16 code units. A character outside the Basic Multilingual Plane (an emoji in a model reply) takes two ticks in App.jsx:10-22 and briefly shows a lone surrogate; the model reveals it in one tick.
- `Strings.LinesRejoin`: the rejoin is stated for texts without '\r'. A "\r\n" line ending loses its '\r' in `lines`, so the join does not give the text back there.
- Unicode case mapping is not modelled: `to_lowercase` is ASCII lower-casing. The model uses one white-space set for Rust and JavaScript, so it omits U+0085 (white space to Rust only) and U+FEFF (white space to JavaScript `trim` only).
- `greet`, `get_contract_tips`, the value of `get_dataset_size` (only used as a readiness probe), Candid export, `LoginModal.jsx` and `ContractChat.jsx` are not modelled.
