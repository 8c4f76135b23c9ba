# signal_bot_DC decision core in Dafny

signal_bot_DC is a Discord bot paired with a small HTTP service. Trading
events arrive as JSON payloads of five kinds: copy signal, trade summary,
scalp update, holding report and weekly report. Each handler validates the
payload, then asks the social API which Discord channels follow the
trader. It renders a per-channel message (with or without the trader's
detail link) and fans the sends out. The bot also keeps two SQL tables
(joined groups, verified users), answers a `!verify` command, and polls
for unpublished articles once a minute.

This project models that decision logic:

- **Locale** (`locale.dfy`): locale normalisation and its alias table.
- **I18nLoader** (`i18n.dfy`): the JSON catalog lookup with locale fallback, and `str.format` rendering of plain keyword fields over a given catalog.
- **MarkdownV2** (`markdown.dfy`): MarkdownV2 escaping.
- **Multilingual** (`multilingual.dfy`): the translation fallback chain with the AI-translation notice.
- **NumberFormat** (`numformat.dfy`): `format_float` over fixed-point hundredths.
- **Timestamp** (`timestamp.dfy`): epoch milliseconds to a UTC civil date, by integer arithmetic following the "Seconds Since the Epoch" definition in section 4.16 of POSIX.1-2017.
- **PushTargets** (`targets.dfy`): the filter-and-normalise loop of `get_push_targets`.
- **Validation** (`validation.dfy`): shared validation pieces (falsy-field sets, the millisecond threshold, first failure of an ordered list of checks).
- **Delivery** (`delivery.dfy`): the per-channel send decision, success counting, and the media-type check that every handler runs first.
- **CopySignal**, **TradeSummary**, **ScalpUpdate**, **HoldingReport**, **WeeklyReport**: one module per event kind, covering its validator, formatter, fan-out and request handler.
- **GroupStore** (`store.dfy`): the `groups` and `verified_users` tables as in-memory maps.
- **VerifyCommand** (`verifycommand.dfy`): the `!verify` command.
- **ArticleFeed** (`articlefeed.dfy`): the polling task (topic map, then send-and-mark per article).

JSON values are the datatype `Values.Value`. A float carries its Python
`repr` text, because binary float printing is not modelled. Python's
`float(s)` and `int(s)` on strings are an abstract parameter
`NumberSyntax`: it says which texts parse and to what. Whatever the bot
receives from outside becomes an input, never an effect:

- HTTP responses;
- the bot's channel map and permissions;
- file existence;
- the clock;
- whether a given send reached Discord.

Where the source updates state in place, the model does too:

- **`I18nLoader.I18n`**: a class over the loaded catalog.
- **`GroupStore.Store`**: a class with `groups`/`users` map fields that its methods reassign.
- **`VerifyCommand.Verifier`**: a class holding the in-memory `verified_users` dictionary.
- **Loops**: the source's loops are methods with `while` loops, proved equal to recursive specification functions. These are the target filter, the check sequences, the fan-out loops, the escape loop and the topic-map build.

## Model

| member | source | states |
|---|---|---|
| Locale.NormalizeLocale | src/i18n_loader.py:6-31 | every input, of any JSON type, is normalised to one of "en", "zh-CN", "zh-TW" |
| Locale.FalsyOrContainerIsDefault | src/i18n_loader.py:19-24 | a falsy value, a dict or a list normalises to "en" |
| Locale.TwoStepLookup | src/i18n_loader.py:25-31 | an exact alias of the stripped text wins; otherwise the spaces-removed, '_'→'-', lower-cased key is looked up; otherwise "en" |
| Locale.AliasesWithDashAreLower | src/i18n_loader.py:7-14 | every five-letter dashed alias has a lower-case region, so upper-case spellings only match through the loose key |
| Locale.AliasesStartWithLetter | src/i18n_loader.py:7-14 | every alias is non-empty and starts with a letter, so digit strings never match exactly |
| Locale.NormalizeUpperRegion | src/i18n_loader.py:25-31 | an "xx-YY" tag whose lower-cased form is an alias normalises to that alias's value through the loose step |
| Locale.NormalizeCanonical | src/i18n_loader.py:6-31 | each canonical tag normalises to itself ("zh-CN" misses the exact table and hits via "zh-cn") |
| Locale.NormalizeIdempotent | src/i18n_loader.py:19-31 | normalising a normalised tag gives it back |
| Locale.IntegerTagIsDefault | src/i18n_loader.py:19-31 | any integer locale normalises to "en" |
| Locale.ExactAliasSample | src/i18n_loader.py:11-28 | "zh_cn" gives "zh-CN" by the exact table |
| Locale.LooseAliasSample | src/i18n_loader.py:11-31 | "ZH_CN" gives "zh-CN" by the loose key |
| Locale.UnknownTagSample | src/i18n_loader.py:25-31 | "klingon" gives "en" |
| Locale.UpperHansSample | src/i18n_loader.py:7-31 | "ZH-HANS" gives "en": only the exact spelling "zh-Hans" is aliased |
| I18nLoader.LocaleRoot | src/i18n_loader.py:62-63 | the lookup starts at the locale's catalog, or at an empty dict when the locale is unknown |
| I18nLoader.ResolveAppend | src/i18n_loader.py:62-71 | walking `p + q` is walking `p`, then `q` from where it stopped, with None absorbing |
| I18nLoader.ResolveNest | src/i18n_loader.py:62-71 | walking a key path through dicts nested along that path yields the leaf |
| I18nLoader.LookupNested | src/i18n_loader.py:62-71 | a dotted key whose segments have no dots finds the leaf stored under the nested path |
| I18nLoader.I18n.constructor | src/i18n_loader.py:42-46 | the instance holds the given catalog and default locale |
| I18nLoader.I18n.GetAny | src/i18n_loader.py:62-71 | the segment loop returns exactly the path walk: None as soon as a segment is absent or an intermediate value is not a dict |
| I18nLoader.I18n.T | src/i18n_loader.py:73-79 | never None: the locale's value, else the default locale's value, else the key itself |
| I18nLoader.FallbackToDefault | src/i18n_loader.py:73-79 | a key missing in the locale is answered from the default locale, or by the key |
| I18nLoader.I18n.Render | src/i18n_loader.py:81-88 | total: the template with its plain keyword fields filled in when every name is bound, the unformatted template text otherwise |
| I18nLoader.RenderPlain | src/i18n_loader.py:81-88 | a template without braces renders to itself |
| I18nLoader.FormatBraceFree | src/i18n_loader.py:81-88 | `str.format` leaves brace-free text unchanged |
| I18nLoader.FormatEscapeBraces | src/i18n_loader.py:81-88 | doubling every brace makes `str.format` give back the original text |
| I18nLoader.FormatOneField | src/i18n_loader.py:81-88 | one `{name}` field with `name` bound is replaced by `str` of its value and nothing else changes |
| I18nLoader.MissingVariableFails | src/i18n_loader.py:81-88 | a field whose name is not bound makes formatting fail (so `render` falls back to the template) |
| MarkdownV2.EscapeMarkdownV2 | src/multilingual_utils.py:46-50 | the loop of 18 sequential replaces equals the one-pass per-character escape |
| MarkdownV2.ReplaceExtendsEscape | src/multilingual_utils.py:46-50 | one more replace of a fresh non-backslash character extends the per-character escape by that character |
| MarkdownV2.EscapeLength | src/handlers/common.py:37-42 | the output is as long as the input plus the number of reserved characters in it |
| MarkdownV2.EscapeConcat | src/handlers/common.py:37-42 | escaping distributes over concatenation |
| MarkdownV2.UnescapeEscape | src/multilingual_utils.py:46-50 | dropping each escaping backslash recovers the input, so escaping is injective |
| Multilingual.Hint | src/multilingual_utils.py:1-21 | every notice starts with a newline; an unknown language gets the English one |
| Multilingual.GetMultilingualContent | src/multilingual_utils.py:52-84 | a result exists iff the chosen content is a string, and unescaping it gives back content + "\n" + notice |
| Multilingual.NoTranslations | src/multilingual_utils.py:64-70 | with no translations the result is escape(content + "\n" + notice), content defaulting to "" |
| Multilingual.UnknownLanguage | src/multilingual_utils.py:68-83 | an unmapped language behaves as English: API code "en_US" and the English notice |
| Multilingual.FallbackChain | src/multilingual_utils.py:73-80 | the mapped API code's translation, else "en_US", else the raw post content |
| Multilingual.BlankLineBeforeNotice | src/multilingual_utils.py:83-84 | the unescaped output is content, a blank line, then the notice text |
| NumberFormat.RoundHalfEven | src/handlers/common.py:46-53 | rounding to hundredths is within half a unit of the exact value |
| NumberFormat.ReadFormatHundredths | src/handlers/common.py:46-53 | the printed text reads back as the same hundredths value |
| NumberFormat.FormatHundredthsTrimmed | src/handlers/common.py:46-53 | the printed text has no trailing zero decimal and no trailing point |
| NumberFormat.Examples | src/handlers/common.py:44-55 | 2.0 prints "2", 2.50 prints "2.5", 2.567 prints "2.57" |
| NumberFormat.FormatFloatReadsBack | src/handlers/common.py:44-55 | a numeric value prints as its rounded hundredths, trimmed; a non-numeric value prints as `str(val)` |
| Timestamp.ToCivil | src/handlers/common.py:57-62 | every second count maps to a valid calendar date and time, in 1970 or later for non-negative input |
| Timestamp.PosixRoundTrip | src/handlers/common.py:57-62 | the POSIX seconds-since-the-epoch formula applied to the date gives back the seconds |
| Timestamp.CivilOfPosix | src/handlers/common.py:57-62 | every valid date from 1970 on is the image of its POSIX seconds, so the conversion is a bijection |
| Timestamp.EpochIsNewYear1970 | src/handlers/common.py:57-62 | second 0 is 1970-01-01 00:00:00 |
| Timestamp.TrillionMs | src/handlers/common.py:57-62 | 10^12 ms is 2001-09-09 01:46:40 |
| Timestamp.FormatTimestampMsPrintsDate | src/handlers/common.py:57-62 | a parseable ms value prints the date whose POSIX seconds are ms div 1000 |
| Timestamp.FormatTimestampMsFallback | src/handlers/common.py:63-64 | an unparseable value prints as `str(ms)` |
| PushTargets.NormalizeJump | src/handlers/common.py:218-222 | None, "" and "null" become "0"; any other text is kept; the result is never empty or "null" |
| PushTargets.GetPushTargets | src/handlers/common.py:187-237 | the nested group/chat loop returns exactly the specification's target list, [] on failure |
| PushTargets.TakenChat | src/handlers/common.py:210-228 | a chat yields a target iff it is a selected copy chat whose chatId parses, with topicId defaulted and jump normalised |
| PushTargets.ChatsSucceed | src/handlers/common.py:207-232 | a group's chat walk succeeds iff no chat raises |
| PushTargets.ChatsMember | src/handlers/common.py:207-232 | a target is in a group's list iff some chat yields it |
| PushTargets.ChatsAppend | src/handlers/common.py:207-232 | walking two chat lists concatenates their targets, keeping chat order |
| PushTargets.GroupsSucceed | src/handlers/common.py:205-232 | the walk over groups succeeds iff every group succeeds |
| PushTargets.GroupsMember | src/handlers/common.py:205-232 | a target is in the result iff some group yields it |
| PushTargets.GroupsAppend | src/handlers/common.py:205-232 | targets keep group-then-chat order: walking two group lists concatenates their results |
| PushTargets.TargetsNormalized | src/handlers/common.py:205-232 | every returned target has a normalised jump and comes from one of the response's groups |
| PushTargets.BadChatIdEmptiesAll | src/handlers/common.py:224-237 | one selected chat whose chatId does not parse empties the whole result |
| PushTargets.FailedRequestIsEmpty | src/handlers/common.py:198-200 | a missing or non-200 response gives [] |
| Validation.MissingMeansFalsy | src/handlers/copy_signal_handler.py:21-30 | 0, "", None and absence all count as missing; a truthy value does not |
| Validation.NoneMissingIffAllTruthy | src/handlers/weekly_report_handler.py:42-50 | nothing is missing iff every required field is present and truthy |
| Validation.MillisCheckReasons | src/handlers/copy_signal_handler.py:56-63 | the time check passes iff int(float(time)) >= 10^12, with the not-a-number message exactly when parsing fails and the too-short message exactly when below |
| Validation.MillisThreshold | src/handlers/copy_signal_handler.py:56-63 | 999999999999 fails and 1000000000000 passes: the bound is inclusive at 10^12 |
| Validation.RewrapHidesReason | src/handlers/trade_summary_handler.py:49-54 | when the raise is inside the try, a too-short time reports the not-a-number message, and the too-short message can never appear |
| Validation.RewrapSameVerdict | src/handlers/scalp_update_handler.py:54-59 | the re-wrapping changes only the message, never whether the time is accepted |
| Validation.FirstFailureSpec | src/handlers/holding_report_handler.py:17-48 | checks run in order: all pass, or the result is the first failing check |
| Validation.FirstFailureStops | src/handlers/holding_report_handler.py:17-48 | once a prefix of the checks fails, later checks do not change the verdict |
| CopySignal.ValidateCopySignal | src/handlers/copy_signal_handler.py:19-63 | for a dict, the error is a missing-field error iff some required field is absent or falsy, and it names exactly those fields; every other rejection uses one of the source's messages; it raises outside the checks exactly for a non-dict payload or an unhashable pair_type |
| CopySignal.CopySignalAccepted | src/handlers/copy_signal_handler.py:19-63 | accepted iff all required fields truthy, numbers parse, signs agree, codes are allowed and time >= 10^12 |
| CopySignal.SignMismatchRejected | src/handlers/copy_signal_handler.py:41-42 | pnl >= 0 disagreeing with pnl% >= 0 is rejected with the sign message, zero counting as non-negative |
| CopySignal.CaptionLinkIffJump | src/handlers/copy_signal_handler.py:116-128 | the caption ends with the "About …" link line iff jump == "1" |
| CopySignal.CaptionsDifferByLink | src/handlers/copy_signal_handler.py:116-128 | the linked caption is the unlinked caption followed by the link line |
| CopySignal.BuildSends | src/handlers/copy_signal_handler.py:107-138 | the loop builds one send per target in target order, and fails exactly when some caption cannot be built |
| CopySignal.ProcessCopySignal | src/handlers/copy_signal_handler.py:65-158 | the sends are those of the specification and success_count equals the number of tasks |
| CopySignal.CopySignalFanOut | src/handlers/copy_signal_handler.py:107-153 | one text-only send per target, posted iff the channel exists with send permission, with the link iff jump == "1" |
| CopySignal.HandleCopySignal | src/handlers/copy_signal_handler.py:207-245 | scheduled iff JSON content type, a dict body that validates, and a working scheduler; a rejection carries the validator's message |
| Delivery.SendWithImage | src/handlers/copy_signal_handler.py:160-205 | posts iff the channel exists and may be written; attaches iff an existing image path and attach permission are present; otherwise text only |
| Delivery.SendText | src/handlers/holding_report_handler.py:145-175 | posts the text iff the channel exists and may be written; never attaches |
| Delivery.NoImageIsText | src/handlers/trade_summary_handler.py:119-163 | sending with no image is a plain text send |
| Delivery.CountSuccesses | src/handlers/copy_signal_handler.py:145-153 | the counting loop counts the results that are not exceptions |
| Delivery.ReturnedCountBound | src/handlers/copy_signal_handler.py:145-153 | the count is at most the number of tasks, and equal iff no task raised |
| Delivery.TrueCountBound | src/handlers/weekly_report_handler.py:119-121 | counting exact True results gives at most the non-exception count, and all tasks iff every result is True |
| Delivery.GuardedResults | src/handlers/copy_signal_handler.py:198-205 | a send that catches every exception returns None for every task |
| Delivery.GuardedAllSucceed | src/handlers/copy_signal_handler.py:145-153 | so the copy-signal success count equals the number of tasks |
| Delivery.OwsRefused | src/handlers/copy_signal_handler.py:216-220 | "application/json" followed by whitespace before ';' is refused, because the media type is not trimmed |
| Delivery.OwsAccepted | src/handlers/copy_signal_handler.py:216-220 | a comparison that trims trailing whitespace, as section 8.3 of RFC 9110 allows, accepts it |
| Delivery.OwsAgrees | src/handlers/copy_signal_handler.py:216-220 | the two comparisons agree on every header without whitespace before the parameters |
| Delivery.Handle | src/handlers/copy_signal_handler.py:207-245 | content type, then JSON parse, then validate, then schedule, then acknowledge: each failure stops the chain with its own reply |
| TradeSummary.ValidateTradeSummary | src/handlers/trade_summary_handler.py:18-28 | for a dict, the error is a missing-field error iff some required field is absent or falsy, and it names exactly those fields |
| TradeSummary.ValidateTradeSummaryIntended | src/handlers/trade_summary_handler.py:18-28 | the corrected validator reports the same exact missing-field set |
| TradeSummary.TradeSummaryAccepted | src/handlers/trade_summary_handler.py:18-54 | accepted iff required fields truthy, codes allowed, five numbers parse and close_time >= 10^12; the corrected validator accepts the same payloads |
| TradeSummary.SecondsCloseTimeMessage | src/handlers/trade_summary_handler.py:49-54 | a close_time in seconds is rejected with the not-a-number message as written, the too-short message as intended |
| TradeSummary.SummaryLinkAppended | src/handlers/trade_summary_handler.py:166-201 | the linked text is the unlinked text, a blank line, then the detail link |
| TradeSummary.BuildSummarySends | src/handlers/trade_summary_handler.py:84-97 | the loop builds one send per target, in order, linked iff jump == "1" |
| TradeSummary.ProcessTradeSummary | src/handlers/trade_summary_handler.py:56-117 | no targets or no image means no sends; otherwise the specified fan-out, counted in full |
| TradeSummary.TradeSummaryFanOut | src/handlers/trade_summary_handler.py:84-109 | one send per target, posted iff writable, attached iff permitted and the file exists, linked iff jump == "1" |
| TradeSummary.HandleTradeSummary | src/handlers/trade_summary_handler.py:307-346 | scheduled iff JSON content type, a valid dict body and a working scheduler; a rejection carries the validator's message |
| ScalpUpdate.ValidateScalpUpdate | src/handlers/scalp_update_handler.py:17-26 | for a dict, the error is a missing-field error iff some required field is absent or falsy, and it names exactly those fields |
| ScalpUpdate.ValidateScalpUpdateIntended | src/handlers/scalp_update_handler.py:17-26 | the corrected validator reports the same exact missing-field set |
| ScalpUpdate.ScalpUpdateAccepted | src/handlers/scalp_update_handler.py:17-59 | accepted iff required fields truthy, side allowed, a TP or SL given, given prices numeric and time >= 10^12; the corrected validator agrees |
| ScalpUpdate.SecondsTimeMessage | src/handlers/scalp_update_handler.py:54-59 | a time in seconds is rejected with the not-a-number message as written, the too-short message as intended |
| ScalpUpdate.EmptyPriceIsNotNumber | src/handlers/scalp_update_handler.py:33-51 | an empty tp_price counts as given and then fails the numeric check |
| ScalpUpdate.PriceText | src/handlers/scalp_update_handler.py:165-168 | a price text is non-empty only for a truthy price |
| ScalpUpdate.PriceLinesByPrice | src/handlers/scalp_update_handler.py:170-199 | TP line before SL line, each an update line when its previous price is set, one line per set price |
| ScalpUpdate.ScalpLinkAppended | src/handlers/scalp_update_handler.py:201-204 | the linked text is the unlinked text, a blank line, then the rendered detail line |
| ScalpUpdate.ScalpTextLocale | src/handlers/scalp_update_handler.py:156-157 | the text depends on the language only through normalize_locale |
| ScalpUpdate.UnpackFour | src/handlers/scalp_update_handler.py:85 | four-name unpacking succeeds iff the row has exactly four items |
| ScalpUpdate.ScalpAsWrittenNeverPosts | src/handlers/scalp_update_handler.py:85-119 | as written, the loop raises on the first three-item target and no update is ever sent |
| ScalpUpdate.ScalpUnpackDiscrepancy | src/handlers/scalp_update_handler.py:85-99 | for a writable target the corrected loop posts while the as-written loop sends nothing |
| ScalpUpdate.BuildScalpSends | src/handlers/scalp_update_handler.py:85-99 | the corrected loop builds one text send per target, in order, with the detail line iff jump == "1" |
| ScalpUpdate.ProcessScalpUpdate | src/handlers/scalp_update_handler.py:61-119 | the sends are the specified fan-out, counted in full |
| ScalpUpdate.ScalpUpdateFanOut | src/handlers/scalp_update_handler.py:85-111 | one text send per target, posted iff writable, with the detail line iff jump == "1" |
| ScalpUpdate.HandleScalpUpdate | src/handlers/scalp_update_handler.py:208-246 | scheduled iff JSON content type, a valid dict body and a working scheduler; a rejection carries the validator's message |
| HoldingReport.InfoCheck | src/handlers/holding_report_handler.py:50-92 | with a prefix, every error message starts with "<prefix> - "; a missing-field error names exactly the absent or falsy position fields |
| HoldingReport.InfoAccepted | src/handlers/holding_report_handler.py:50-92 | an info passes iff it is a dict with its seven fields truthy, codes allowed and given prices numeric |
| HoldingReport.CheckInfos | src/handlers/holding_report_handler.py:34-35 | the info loop returns the first failing info check, in order |
| HoldingReport.FirstBadInfo | src/handlers/holding_report_handler.py:34-35 | a failure is the check of some info j after which all earlier infos passed |
| HoldingReport.CheckTrader | src/handlers/holding_report_handler.py:26-46 | the trader check runs fields, the infos list shape, then each info |
| HoldingReport.TraderAccepted | src/handlers/holding_report_handler.py:26-46 | a trader passes iff its three fields are truthy and infos is a non-empty list of valid infos |
| HoldingReport.CheckEntries | src/handlers/holding_report_handler.py:19-24 | the list loop returns the first failing entry, a non-dict entry failing with its index |
| HoldingReport.ValidateHoldingReport | src/handlers/holding_report_handler.py:17-48 | a dict is one trader; a list must be non-empty with every entry a valid trader; anything else is rejected |
| HoldingReport.HoldingReportAccepted | src/handlers/holding_report_handler.py:17-48 | accepted iff the payload is a valid trader or a non-empty list of valid traders |
| HoldingReport.FormatHoldingReportList | src/handlers/holding_report_handler.py:227-265 | the block loop builds the specified text, and fails exactly when some block cannot be built |
| HoldingReport.BlocksNumbered | src/handlers/holding_report_handler.py:244-250 | block k starts with its title numbered k+1 in input order |
| HoldingReport.ShownLinesIff | src/handlers/holding_report_handler.py:242-243 | a TP or SL line appears iff its value is not None, "None", "null" or "" |
| HoldingReport.HoldingListLink | src/handlers/holding_report_handler.py:261-264 | trailing newlines are stripped, and the link follows a blank line iff include_link |
| HoldingReport.WellFormedBlocksBuild | src/handlers/holding_report_handler.py:227-265 | every validated info list formats |
| HoldingReport.HoldingRoiPercent | src/handlers/holding_report_handler.py:190 | ROI is printed as format_float(roi × 100); None and dicts make the formatter raise |
| HoldingReport.SendToTargets | src/handlers/holding_report_handler.py:121-143 | the loop makes one text send per target, linked iff jump == "1" |
| HoldingReport.SendHoldingToAllTargets | src/handlers/holding_report_handler.py:121-143 | every target of a trader receives one merged message; no targets means no sends |
| HoldingReport.ProcessHoldingReport | src/handlers/holding_report_handler.py:94-119 | the trader loop produces the specified run's sends |
| HoldingReport.StoppedStays | src/handlers/holding_report_handler.py:94-119 | after a trader raises, the remaining traders add nothing |
| HoldingReport.TraderFanOut | src/handlers/holding_report_handler.py:121-143 | per target: posted iff writable, linked text iff jump == "1" |
| HoldingReport.NoTargetsSkipped | src/handlers/holding_report_handler.py:99-114 | a trader without targets is skipped and leaves the run unchanged |
| HoldingReport.WellFormedRunsToEnd | src/handlers/holding_report_handler.py:99-114 | valid traders never stop the run |
| HoldingReport.AcceptedRunsToEnd | src/handlers/holding_report_handler.py:94-119 | an accepted payload is processed for every trader |
| HoldingReport.WellFormedTraderSends | src/handlers/holding_report_handler.py:121-143 | a valid trader's messages always build |
| HoldingReport.HandleHoldingReport | src/handlers/holding_report_handler.py:267-311 | scheduled iff JSON content type, a valid body and a working scheduler; a rejection carries the validator's message |
| WeeklyReport.ValidateWeeklyReport | src/handlers/weekly_report_handler.py:40-50 | the error is a missing-field error iff some required field is absent or falsy, and it names exactly those fields |
| WeeklyReport.WeeklyAccepted | src/handlers/weekly_report_handler.py:40-66 | accepted iff the ten fields are truthy, counts pass int(), figures pass float() and the win rate is within [0, 100] |
| WeeklyReport.ZeroCountsAsMissing | src/handlers/weekly_report_handler.py:42-50 | a required field equal to 0 or "" is reported as missing |
| WeeklyReport.WinRateBounds | src/handlers/weekly_report_handler.py:64-66 | a win rate outside [0, 100] (inclusive) is rejected with its message, and one inside passes |
| WeeklyReport.LossesIgnored | src/handlers/weekly_report_handler.py:151-153 | the text does not depend on loss_trades: losses are total minus wins |
| WeeklyReport.EmojiFollowsSign | src/handlers/weekly_report_handler.py:160-161 | 🔥 iff total_roi >= 0, 📉 iff negative |
| WeeklyReport.WeeklyLinkAppended | src/handlers/weekly_report_handler.py:172-176 | the linked text is the unlinked text, a blank line, then the link |
| WeeklyReport.WellFormedFormats | src/handlers/weekly_report_handler.py:148-178 | a validated report always formats |
| WeeklyReport.TaskSourcesOrdered | src/handlers/weekly_report_handler.py:90-117 | the targets that get a task are listed by strictly increasing index, and every target with a known, postable channel is among them when the text built |
| WeeklyReport.WeeklyTasksPost | src/handlers/weekly_report_handler.py:90-117 | task j posts to the channel of its source target j, which the bot sees and may post in, with that target's text and the link iff its jump == "1"; a failed format makes none |
| WeeklyReport.AllUsableAllTasks | src/handlers/weekly_report_handler.py:90-117 | when every channel is writable there is one task per target, in order |
| WeeklyReport.PrepareWeeklyTasks | src/handlers/weekly_report_handler.py:90-117 | the target loop builds exactly the specified tasks |
| WeeklyReport.WeeklyResults | src/handlers/weekly_report_handler.py:129-146 | one boolean result per task |
| WeeklyReport.TrueCountIsDelivered | src/handlers/weekly_report_handler.py:119-121 | counting exact True results counts the delivered tasks |
| WeeklyReport.ProcessWeeklyReport | src/handlers/weekly_report_handler.py:68-127 | the tasks are the specified ones and the success count is the number delivered, at most the task count |
| WeeklyReport.HandleWeeklyReport | src/handlers/weekly_report_handler.py:15-38 | "success" iff a valid dict is scheduled; a rejection carries the validator's message; a non-dict body is an internal error |
| GroupStore.UpsertActivates | src/db_handler_aio.py:77-116 | an upsert makes the group active with the new info, keeps the other rows, and adds it to the active set |
| GroupStore.DeactivateRemoves | src/db_handler_aio.py:118-138 | deactivation marks the row inactive with a leave date, removes it from the active set, and changes nothing else |
| GroupStore.WritesKeepValid | src/db_handler_aio.py:26-38 | both writes keep the table invariant (active rows have no leave date) |
| GroupStore.RejoinReactivates | src/db_handler_aio.py:89-98 | a group that left and rejoins is active again with a fresh join date and no leave date |
| GroupStore.StatusTwoOutcomes | src/db_handler_aio.py:187-209 | is_user_verified only ever answers "warning" or "not_verified" |
| GroupStore.HolderNotWarned | src/db_handler_aio.py:187-209 | the holder of a code, or anyone when nobody holds it, is not warned |
| GroupStore.OthersWarnedAfterAdd | src/db_handler_aio.py:153-209 | after a user is added, only that user holds the code and every other caller is warned |
| GroupStore.NumericCallerWarned | src/db_handler_aio.py:200-203 | a numeric caller id never equals the stored text id, so the holder itself is warned |
| GroupStore.DuplicateHoldersNotWarned | src/db_handler_aio.py:187-209 | with two active holders of a code the single-row fetch raises and nobody is warned |
| GroupStore.AddedUserVerified | src/db_handler_aio.py:211-227 | after adding, the intended lookup finds the user in that group and not in another |
| GroupStore.Store.constructor | src/db_handler_aio.py:26-64 | both tables start empty |
| GroupStore.Store.InsertOrUpdateGroup | src/db_handler_aio.py:77-116 | on success the groups table becomes the upsert; a database error rolls back and returns False |
| GroupStore.Store.DeactivateGroup | src/db_handler_aio.py:118-138 | on success the groups table becomes the deactivation; a database error rolls back and returns False |
| GroupStore.Store.GetActiveGroups | src/db_handler_aio.py:140-151 | the ids of the active groups, or none after a database error; under the table invariant none of them has a leave date |
| GroupStore.Store.AddVerifiedUser | src/db_handler_aio.py:153-185 | inserts the user and reports whether it was new; an error leaves the table unchanged |
| GroupStore.Store.IsUserVerified | src/db_handler_aio.py:187-209 | "warning" iff exactly one user holds the code and the caller is not that user |
| GroupStore.Store.GetVerifiedUser | src/db_handler_aio.py:211-227 | as written, the answer is always False (the filtered column does not exist) |
| GroupStore.Store.GetVerifiedUserIntended | src/db_handler_aio.py:211-227 | the corrected lookup answers whether the user is actively verified in that group |
| VerifyCommand.RepliesAddressAuthor | src/main.py:279-347 | every reply starts with the author's mention and ", "; a relayed reply carries the service message verbatim |
| VerifyCommand.WrongChannelRefused | src/main.py:283-285 | outside the verification channel the command refuses without calling the service or recording anything |
| VerifyCommand.MissingCodePrompts | src/main.py:288-290 | without a code the command asks for one and does nothing else |
| VerifyCommand.ApiCalledIff | src/main.py:283-314 | the service is called iff right channel, a code and no warning; a warning answers "already verified" |
| VerifyCommand.SuccessRecorded | src/main.py:314-344 | a confirmed answer is remembered, stored only when the role exists and is added, and relayed; a refusal is relayed; an unreadable answer sends nothing |
| VerifyCommand.ServiceAnswerSource | src/main.py:300-326 | the message is the rewritten "data" text or the default message; success needs status 200 and "verification successful" |
| VerifyCommand.PlainMessageUnchanged | src/main.py:316-324 | text without the admin placeholder or anchor tags is relayed unchanged |
| VerifyCommand.NoAdminFallback | src/main.py:316-324 | without an admin, "@{admin}" becomes "the admin team" |
| VerifyCommand.OwnerWarnedAsWritten | src/main.py:293 | as written, the user who just verified is warned on a second attempt because the id is passed as an integer: the plan replies "already verified" without calling the service |
| VerifyCommand.OwnerMayReverify | src/main.py:293 | with the id passed as text (StatusForIntended), the holder reaches the service again and only other users are told "already verified" |
| VerifyCommand.Verifier.constructor | src/main.py:205 | the in-memory verified-user map starts empty |
| VerifyCommand.Verifier.Verify | src/main.py:279-347 | as written (the author id looked up as an integer): the reply, the service call, the remembered code and the stored row are exactly those of the decision plan |
| VerifyCommand.Verifier.Confirm | src/main.py:326-340 | a confirmed answer remembers the code and stores the row iff the role exists and was added |
| ArticleFeed.ChatsFoldStops | src/main.py:382-386 | once a chat raises, the topic-map build fails |
| ArticleFeed.GroupsFoldStops | src/main.py:382-386 | once a group raises, the topic-map build fails |
| ArticleFeed.ChatsFoldAppend | src/main.py:382-386 | building over two chat lists is building over the first, then the second |
| ArticleFeed.GroupsFoldFlattens | src/main.py:382-386 | the group loop is one fold over all chats in group order |
| ArticleFeed.ChatsFoldWellFormed | src/main.py:382-386 | a successful build means every chat is a dict and every enabled chat has a parseable chatId |
| ArticleFeed.ChatsFoldKeys | src/main.py:382-386 | the map's topics are exactly the names of the enabled chats |
| ArticleFeed.ChatsFoldLastWins | src/main.py:382-386 | a topic maps to the chatId of the last enabled chat with that name |
| ArticleFeed.TopicMapContents | src/main.py:373-386 | the map is the fold over the chats of the social API's groups |
| ArticleFeed.BuildTopicMap | src/main.py:382-386 | the nested loop computes the specified fold |
| ArticleFeed.ArticleStepCases | src/main.py:389-427 | an article raises iff it is not a dict or its topic is not text; it posts and then marks iff its stripped topic maps to a visible non-zero channel and the send succeeds |
| ArticleFeed.TopicStripped | src/main.py:396 | topics are stripped before lookup |
| ArticleFeed.PostThenMark | src/main.py:408-427 | actions alternate: each post is followed by marking that article published |
| ArticleFeed.NothingSentNothingMarked | src/main.py:408-427 | nothing is marked published unless its send succeeded |
| ArticleFeed.PublishArticles | src/main.py:389-427 | the article loop produces the specified actions |
| ArticleFeed.ArticlesRaisedStays | src/main.py:389-430 | after an article raises, the rest of the tick adds nothing |
| ArticleFeed.QuietTicks | src/main.py:355-379 | a failed fetch or an empty item list does nothing |
| ArticleFeed.FetchUnpublishedMessages | src/main.py:349-430 | one poll does exactly the specified tick |

## Left out

- The Discord client, its channel objects and permissions, and the HTTP service (FastAPI requests, `create_async_response`, asyncio scheduling, `tasks.loop`) are not modelled. Channels, permissions, responses, file existence, whether a send reached Discord, and the scheduler's availability are inputs.
- `send_discord_message` (src/handlers/common.py:239-249) posts through aiohttp. That network effect is not modelled.
- The image generators (`generate_trader_summary_image`, `generate_trade_summary_image`, `generate_weekly_report_image`) use PIL and the network. An image is an optional path given as input.
- `os.path.exists` is the `fileExists` parameter; logging is not modelled.
- I18nLoader.I18n.Render: only plain keyword fields `{name}` and doubled braces are formatted. A conversion (`{x!r}`), a format spec (`{x:.2f}`) or an index or attribute field (`{x[0]}`, `{x.y}`) makes the model's Format fail, so Render returns the raw template where Python's `str.format` would format it.
- `I18n._load_all` (src/i18n_loader.py:48-60) reads JSON files from disk. The catalog is given as data.
- Python's `float()`/`int()` on strings are the abstract `NumberSyntax`. Binary float arithmetic is not modelled: `format_float` works on exact reals rounded half-even to hundredths.
- `str()` of lists and dicts is a placeholder text; container repr is not modelled.
- Timestamp.Render pads the year to four digits. The platform's `strftime` may leave years below 1000 unpadded.
- Python dict key equality between `True`, `1` and `1.0` is not modelled: keys are compared as distinct values.
- Iterating a non-empty string or dict where the source expects a list is modelled as raising.
- A missing trader uid is the empty string.
- Validation: the order of field names inside a missing-field message comes from Python set iteration and is not fixed. The model reports the set of missing names.
- GroupStore: row ids and autoincrement are not modelled. Time is an integer parameter, and the UTC versus UTC+8 distinction is not drawn. The user_id, verify_group_id and chat_id columns are text (String(50)). An integer parameter compared with one of them in SQL is modelled as its decimal text; what the database driver really does with it is driver-dependent.
- `create_tables`, `on_ready`, `on_member_join` and the commented-out code in src/main.py are outside this model.
- VerifyCommand: the "other status" branch (src/main.py:342-344) is unreachable because is_user_verified has two outcomes (GroupStore.StatusTwoOutcomes). It is not modelled as a separate path.
- CopySignal: the caption texts are computed once per target list, not inside the loop. Text and order are unchanged.
- ArticleFeed: src/main.py posts the raw article content (not get_multilingual_content), and a topic maps to a single channel.

## Findings

| source | as written | input that shows it | evidently intended | confidence | as-written member | corrected member |
|---|---|---|---|---|---|---|
| src/handlers/trade_summary_handler.py:49-54 | the too-short raise sits inside the `try` whose `except` re-raises with the not-a-number message | close_time = 1700000000 (seconds) | the "(13 位)" too-short message | not executed | Validation.RewrapHidesReason | Validation.MillisCheckReasons |
| src/handlers/scalp_update_handler.py:54-59 | same re-wrap of the time check | time = 1700000000 | the "(13 位)" too-short message | not executed | ScalpUpdate.SecondsTimeMessage | Validation.MillisCheckReasons |
| src/handlers/scalp_update_handler.py:85 | unpacks four names from the three-item targets of get_push_targets, raising ValueError before any send | any payload with one writable target | unpack three names and use the default locale | not executed | ScalpUpdate.ScalpUnpackDiscrepancy | ScalpUpdate.ProcessScalpUpdate |
| src/db_handler_aio.py:211-227 | the query filters on an `info_group_id` column that `VerifyUser` does not define (src/db_handler_aio.py:55-64); the AttributeError is caught and False returned | a user added with add_verified_user in that group | True for an active verified user of the group | not executed | GroupStore.Store.GetVerifiedUser | GroupStore.Store.GetVerifiedUserIntended |
| src/main.py:293 | passes the integer author id to is_user_verified, whose Python test `record.user_id != user_id` compares it with the stored text id (src/db_handler_aio.py:200-203); that test fails whatever the driver, while matching the integer group id against the text column is driver-dependent and modelled as decimal text | the user who verified runs `!verify` again with the same code | pass str(author.id), so only other users are warned | not executed | VerifyCommand.OwnerWarnedAsWritten | VerifyCommand.OwnerMayReverify |
