# A Discord bot's award ledger, award list, downloads and voice sessions in Dafny

This project models the decision logic of a Discord bot. The model covers four parts of it:

- **Weekly award-token ledger.** The `user_tokens` table maps a (user, guild) key to a row of
  `award_tokens`, `discord_minutes` and `last_reset`. `getUserTokens` creates a missing row with
  three tokens or resets a stale row to three. `updateUserTokens` checks the balance and then runs
  a guarded increment. The `/award give` command spends tokens through the ledger, inserts the
  award and then replies or posts in the announce channel. The award catalogue has four entries.
- **Award list.** This part covers the anchored Discord message-link pattern, `parseDesc`, the
  title, colour, description and image choices of `buildAwardEmbed`, and the cap of five awards
  in `/award list`.
- **YouTube download.** This part covers the three ffmpeg profiles and their stdio plans, the
  output path built from a sanitised title, the shared argument lists that every request
  lengthens, the 1080-line video filter and the processing-reminder counter with its three tiers.
- **Voice session.** This part covers `/youtube play` and `/youtube stop`: the channel choice,
  get-or-create of the guild's voice connection, the Ready listeners, and the teardown of the
  connection and of the `client.audio` registry entry.

Each module matches one part of the program:

| module | models |
|---|---|
| `JsText` (`js_text.dfy`) | JavaScript's `trim`, `trimStart`, `trimEnd`, `indexOf`, `replace`, `replaceAll` and `parseInt` on strings |
| `FfmpegPlan` (`ffmpeg_plan.dfy`) | `pipe:N` arguments and stdio plans shared by download and play |
| `AwardCatalogue` (`award_catalogue.dfy`) | `awardTypes` and `awardTypes.find` |
| `TokenLedger` (`token_ledger.dfy`) | the SQL of the ledger on a map-valued table; class `Ledger` |
| `AwardGive` (`award_give.dfy`) | `/award give` as a method over a `Ledger` and an `AwardStore` |
| `AwardList` (`award_list.dfy`) | the link pattern, `parseDesc`, `buildAwardEmbed` and `/award list` |
| `YoutubeDownload` (`youtube_download.dfy`) | `ffmpegConfigs`, `execute`, the video filter and `processingReminder` |
| `VoiceSession` (`voice_session.dfy`) | `/youtube play`, the Ready handlers and `/youtube stop` on class `VoiceState` |

Calls to the network, Discord and ffmpeg are not modelled as code. Their answers become
parameters, and the calls themselves become entries in an ordered log of events. These
parameters are:

- the HEAD request's content type (`HeadAnswer`);
- the linked message fetch (`LinkedMessage`);
- whether the announce channel resolves and is sendable (`Announce`);
- the video title (`title`);
- the user's current voice channel (`userChannel`);
- the wall clock (`nowMs`).

The `\p{L}\p{N}` character class is a predicate parameter (`isLetterOrNumber`).

Three behaviours of the code are modelled as written:

- **Weekly reset.** PostgreSQL runs the sub-statements of a `WITH` query and the main query on one
  snapshot. When the get query resets a stale row, its final `SELECT` still sees the pre-reset
  row, and the `UNION` keeps both rows because their `last_reset` differs. `getUserTokens` then
  throws, but the reset stays in the table. `TokenLedger.ThrowsIffReset` states this.
- **Refused give.** `give.js` has no `return` after the "not enough tokens" reply. So the award is
  still inserted and the announcement still follows, and the balance is left as it was.
  `AwardGive.GaveOutcome` states this.
- **Empty embed description.** `buildAwardEmbed` passes the `trimEnd`-ed description to
  `setDescription`, which rejects an empty string. A reason of blanks, or a reason that is only an
  image URL, therefore makes the embed, and so `/award list`, throw.
  `AwardList.ImageOnlyReasonThrows` states this.

## Model

| member | source | states |
|---|---|---|
| AwardCatalogue.FindAward | commands/award/award.js:4-9 | the lookup yields a catalogue entry with the asked value, and yields nothing exactly when no entry has that value |
| AwardCatalogue.FindAwardFrom | commands/award/award.js:4-9 | a search from position `from` finds an entry with the value at or after `from`, or proves none exists there |
| AwardCatalogue.ValuesDistinct | commands/award/award.js:4-9 | there are four entries and their values are pairwise distinct |
| AwardCatalogue.FindAwardIsUnique | commands/award/award.js:4-9 | looking up the value of entry `i` yields entry `i` itself, so the lookups in give and list are unambiguous |
| AwardCatalogue.CostsPositive | commands/award/award.js:5-8 | every cost is positive, so `-cost` is always a deduction |
| AwardCatalogue.GigaCostsTwo | commands/award/award.js:5-8 | GIGA entries cost 2 and the others cost 1 |
| AwardCatalogue.ColorsBounded | commands/award/award.js:5-8 | every colour is at most 0xFFFFFF, the fallback colour of the list embed |
| TokenLedger.ColumnName | src/data/user-token-accessor.js:1-4 | each column's name maps back to that column |
| TokenLedger.ColumnOf | src/data/user-token-accessor.js:6-13 | an update query exists exactly for `award_tokens` and `discord_minutes` |
| TokenLedger.Set | src/data/user-token-accessor.js:8-11 | the `SET` writes the named column and leaves the other column and `last_reset` alone |
| TokenLedger.CurrentWeek | src/data/user-token-accessor.js:82-84 | the week is the floor of (now + 345600000) / 604800000 |
| TokenLedger.CurrentWeekMonotone | src/data/user-token-accessor.js:82-84 | a later clock reading never gives an earlier week |
| TokenLedger.CurrentWeekStep | src/data/user-token-accessor.js:82-84 | adding 604800000 ms advances the week by exactly one |
| TokenLedger.DedupIsUnion | src/data/user-token-accessor.js:27-31 | `UNION` keeps exactly the rows of its operands, without duplicates |
| TokenLedger.DedupDistinct | src/data/user-token-accessor.js:27-31 | `UNION` of distinct rows returns them unchanged |
| TokenLedger.GetQuery | src/data/user-token-accessor.js:15-31 | the get query adds at most the asked key and leaves every other row as it was |
| TokenLedger.GetQueryRows | src/data/user-token-accessor.js:15-31 | the query yields one row (the stored one) exactly when no reset happened; a reset yields the new row and the pre-reset row |
| TokenLedger.ResetRows | src/data/user-token-accessor.js:15-31 | a reset yields two distinct rows, the reset row and the pre-reset row |
| TokenLedger.CurrentRows | src/data/user-token-accessor.js:27-31 | a row in the current week is read as stored and the table is unchanged |
| TokenLedger.MissingRows | src/data/user-token-accessor.js:21-26 | a missing row is read back as the inserted one |
| TokenLedger.GetQueryTable | src/data/user-token-accessor.js:15-26 | a missing row is created with 3 tokens in the current week; a stale row is reset to 3 tokens and this week; a current row is left alone |
| TokenLedger.UpdateQuery | src/data/user-token-accessor.js:8-11 | the guarded `UPDATE` never adds or removes keys |
| TokenLedger.ReturnedOneRow | src/data/user-token-accessor.js:44-48 | whatever `updateUserTokens` returns holds exactly one row |
| TokenLedger.UnknownTokenTouchesNothing | src/data/user-token-accessor.js:62-66 | a token name other than the two column names returns undefined and the table is untouched |
| TokenLedger.ThrowsIffReset | src/data/user-token-accessor.js:40-46 | the call throws exactly when a weekly reset happens, and the reset is kept |
| TokenLedger.RefusedDeduction | src/data/user-token-accessor.js:61-73 | a deduction beyond the balance returns the stored row with `validTokens` false, and the table only carries what the get query did |
| TokenLedger.AcceptedUpdate | src/data/user-token-accessor.js:61-77 | an accepted call changes only the named column of the keyed row, by exactly `amount`, returns that row with `validTokens` true, and a deduction leaves it non-negative |
| TokenLedger.OtherRowsUntouched | src/data/user-token-accessor.js:8-31 | no key disappears, only the asked key can appear, and other rows are untouched |
| TokenLedger.GetQueryKeepsNonNegative | src/data/user-token-accessor.js:15-26 | the get query keeps every balance non-negative |
| TokenLedger.UpdateQueryKeepsNonNegative | src/data/user-token-accessor.js:8-10 | the guarded increment keeps every balance non-negative |
| TokenLedger.UpdateKeepsNonNegative | src/data/user-token-accessor.js:60-78 | `updateUserTokens` keeps every balance non-negative |
| TokenLedger.Ledger.constructor | src/data/user-token-accessor.js:15-31 | a new ledger starts with an empty table |
| TokenLedger.Ledger.GetUserTokens | src/data/user-token-accessor.js:40-49 | the table becomes the get query's table, and the rows are returned only when there is exactly one |
| TokenLedger.Ledger.UpdateUserTokens | src/data/user-token-accessor.js:60-78 | outcome and new table are those of the functional specification of `updateUserTokens` |
| AwardGive.AwardStore.constructor | commands/award/subcommands/give.js:7-9 | the awards table starts empty |
| AwardGive.AwardStore.Insert | commands/award/subcommands/give.js:39 | the insert appends exactly one row |
| AwardGive.GiveAsksForDeduction | commands/award/subcommands/give.js:32 | give asks the ledger for the `award_tokens` column and a negative amount |
| AwardGive.GaveAnnouncement | commands/award/subcommands/give.js:39-56 | once the ledger answered, one award is stored; a sendable announce channel gets exactly one post of that stored award and the reply ends with the confirmation; without an announce channel the reply ends with the stored award's embed; an unusable channel or a missing guild configuration leaves only the refusal, if any; the call throws exactly when the configuration is missing |
| AwardGive.GiveAward | commands/award/subcommands/give.js:32-56 | the table changes as `updateUserTokens` says; a throw stops everything; otherwise the award is inserted and the refusal and announcement replies follow |
| AwardGive.Give | commands/award/subcommands/give.js:16-57 | no guild or an unknown type replies with an error and touches neither table; otherwise it spends `cost` tokens of the found type as in GiveAward |
| AwardGive.GaveOutcome | commands/award/subcommands/give.js:32-39 | the ledger never returns undefined here; a throw inserts nothing and sends no reply; a return always inserts one award, by the giver for the recipient, even when refused; the refusal reply is sent exactly when `validTokens` is false |
| AwardList.SplitPrefix | commands/award/subcommands/list.js:5 | the optional `canary.`/`ptb.` prefix and the rest put back together give the input |
| AwardList.SplitDigits | commands/award/subcommands/list.js:5 | a leading digit run followed by `/` splits the text losslessly |
| AwardList.DigitRunOf | commands/award/subcommands/list.js:5 | the digit run of digits followed by `/` ends at the `/` |
| AwardList.MatchIds | commands/award/subcommands/list.js:5 | a match of the three id runs consists of digits only and rebuilds the matched text |
| AwardList.MatchLink | commands/award/subcommands/list.js:5 | every match is a valid message link whose formatting is exactly the input, so nothing follows the ids |
| AwardList.LinkParts | commands/award/subcommands/list.js:5 | scheme, prefix, `discord.com/channels/` and ids put back together give the link |
| AwardList.MatchFormatLink | commands/award/subcommands/list.js:5 | formatting a valid link and matching it gives back the same link |
| AwardList.SplitPrefixOf | commands/award/subcommands/list.js:5 | splitting a formatted prefix recovers it |
| AwardList.MatchIdsOf | commands/award/subcommands/list.js:5 | matching formatted digit ids recovers them |
| AwardList.MatchedIds | commands/award/subcommands/list.js:5-54 | a formatted link yields its channel and message ids as captures 1 and 2 |
| AwardList.NonSpaceRun | commands/award/subcommands/list.js:124 | `\S+` takes the longest run of non-whitespace |
| AwardList.SchemeLength | commands/award/subcommands/list.js:124 | `https?://` followed by a non-space is 7 or 8 characters |
| AwardList.UrlEndAt | commands/award/subcommands/list.js:124 | a URL starting at a position ends after it and within the text |
| AwardList.FindUrl | commands/award/subcommands/list.js:124 | the search finds the leftmost position where a URL starts, or reports there is none |
| AwardList.UrlIsMaximal | commands/award/subcommands/list.js:124 | the found URL starts with `http://` or `https://`, holds no whitespace and ends at whitespace or at the end |
| AwardList.MatchIsMaximal | commands/award/subcommands/list.js:124 | any URL match is a scheme followed by a maximal non-whitespace run |
| AwardList.NonSpaceRunIn | commands/award/subcommands/list.js:124 | the non-whitespace run inside the text stops at whitespace or the end |
| AwardList.FirstOccurrenceIsMatch | commands/award/subcommands/list.js:124-129 | the first occurrence of the matched URL is the match itself, so `replace` removes that one |
| AwardList.EarlierCopyMatches | commands/award/subcommands/list.js:124-129 | an earlier copy of a URL match would itself be a match |
| AwardList.RemoveFoundUrl | commands/award/subcommands/list.js:129 | `replace(url, '')` cuts exactly the matched URL out of the text |
| AwardList.ParseDescWithoutUrl | commands/award/subcommands/list.js:119-141 | undefined or '' gives both fields undefined; text with no URL is kept as the description with no image |
| AwardList.ParseDescWithUrl | commands/award/subcommands/list.js:124-131 | an image URL becomes the image and is cut out of the trimmed description; a non-image URL leaves both undefined; a failed HEAD request throws |
| AwardList.ParseDescThrows | commands/award/subcommands/list.js:123-131 | `parseDesc` throws exactly when there is a URL and its HEAD request fails |
| AwardList.LinkedDescriptionCases | commands/award/subcommands/list.js:51-89 | error 10008 gives the not-found text and no image; a channel without messages, any other fetch error or a failed HEAD request inside gives '*Original Message: *' + link + two newlines and no image; a parsed message gives that prefix followed by its parsed description (or nothing), and its parsed image, else the first attachment's URL when its content type starts with 'image' |
| AwardList.ReasonThrows | commands/award/subcommands/list.js:51-95 | the reason throws exactly when it is not a message link and `parseDesc` throws |
| AwardList.BuildAwardEmbedSpec | commands/award/subcommands/list.js:44-112 | the embed fails exactly when its reason does or when the description is only whitespace, because `setDescription('')` is rejected; an unknown type gives 'Unknown Award' and 0xFFFFFF, a known type its name and colour; the description is the `trimEnd` of the reason's description, or none when the reason gave none, and is never empty; the image is the one the reason gave |
| AwardList.BlankReasonThrows | commands/award/subcommands/list.js:104 | every non-empty reason made only of whitespace makes the embed throw |
| AwardList.ImageOnlyReasonThrows | commands/award/subcommands/list.js:104-129 | a reason that is one image URL and nothing else leaves an empty description, so the embed throws instead of showing the image |
| AwardList.TrimEndIdempotent | commands/award/subcommands/list.js:104 | trimming an already trimmed description changes nothing |
| AwardList.MissingMessageText | commands/award/subcommands/list.js:83-87 | a link to a missing message gives '*Linked message not found.*' and no image |
| AwardList.Builds | commands/award/subcommands/list.js:30-32 | one embed attempt per listed row |
| AwardList.ShownThrows | commands/award/subcommands/list.js:30-32 | building the first `n` embeds fails exactly when one of them fails |
| AwardList.ShownBuilt | commands/award/subcommands/list.js:30-32 | a successful build yields `n` embeds, each the one built from its row, in order |
| AwardList.ShownStaysNone | commands/award/subcommands/list.js:30-32 | after a failure, building further rows still fails |
| AwardList.ListAwards | commands/award/subcommands/list.js:18-35 | no rows gives the no-awards reply; otherwise the reply holds the embeds of the first min(5, rows) rows, or the command throws |
| AwardList.ListAwardsReply | commands/award/subcommands/list.js:23-34 | no-awards exactly for zero rows; a throw exactly when one of the shown rows fails; otherwise between 1 and 5 embeds, min(5, rows) of them, each built from its row |
| JsText.TrimStart | commands/award/subcommands/list.js:129 | the result is a suffix of the input, everything cut off is whitespace, and it does not start with whitespace |
| JsText.TrimEnd | commands/award/subcommands/list.js:104 | the result is a prefix of the input, everything cut off is whitespace, and it does not end with whitespace |
| JsText.Trim | commands/award/subcommands/list.js:129 | the result is a slice of the input, everything cut off on either side is whitespace, and it neither starts nor ends with whitespace |
| JsText.IndexOfFrom | commands/award/subcommands/list.js:129 | finds the first occurrence at or after `from`, or shows there is none |
| JsText.ReplaceFirst | commands/award/subcommands/list.js:129 | with no occurrence the input comes back; otherwise the occurrence at the least position where the pattern occurs is replaced and the rest is kept |
| JsText.DigitValue | commands/youtube/subcommands/download.js:160 | '0'-'9' are worth 0-9, 'a'-'f' and 'A'-'F' 10-15; a digit is below 10 exactly when it is decimal |
| JsText.DigitRun | commands/youtube/subcommands/download.js:160 | the longest run of digits of the radix at the start |
| JsText.RemoveAll | commands/youtube/subcommands/download.js:160 | `replaceAll(c, '')` leaves no `c` and never lengthens the text |
| JsText.RemoveAllKeepsOthers | commands/youtube/subcommands/download.js:160 | every other character is kept as often as it occurs, in its original order |
| FfmpegPlan.PipeIndex | commands/youtube/subcommands/download.js:10-12 | an argument names pipe N exactly when it reads `pipe:N` for the digit N |
| FfmpegPlan.PipesNamedAt | commands/youtube/subcommands/download.js:6-56 | the pipes named by an argument list are those of its `pipe:N` positions |
| YoutubeDownload.HighestPipes | commands/youtube/subcommands/download.js:7-24 | 'highest' names pipes 1, 3 and 4 |
| YoutubeDownload.AudioPipes | commands/youtube/subcommands/download.js:25-39 | 'highestaudio' names pipes 0 and 1 |
| YoutubeDownload.VideoPipes | commands/youtube/subcommands/download.js:40-55 | 'highestvideo' names pipes 0 and 1 |
| YoutubeDownload.InitialPipes | commands/youtube/subcommands/download.js:6-56 | every named pipe of every profile has "pipe" at that stdio index |
| YoutubeDownload.PushKeepsWired | commands/youtube/subcommands/download.js:79-80 | pushing an argument that names no pipe keeps the stdio plan consistent |
| YoutubeDownload.PushKeepsGrown | commands/youtube/subcommands/download.js:79-80 | pushing an output path onto one shared profile keeps every profile's value, format and stdio plan, keeps its initial arguments as a prefix, and keeps its pipes wired |
| YoutubeDownload.FindProfile | commands/youtube/subcommands/download.js:78 | yields the first profile with the value, or proves none has it |
| YoutubeDownload.ChoicesFindProfiles | commands/youtube/youtube.js:4-8 | each offered download type, and only those, finds its own profile |
| YoutubeDownload.Sanitize | commands/youtube/subcommands/download.js:80 | the stem holds letters and numbers only and is an order-preserving subsequence of the title |
| YoutubeDownload.SanitizeKeepsLettersAndNumbers | commands/youtube/subcommands/download.js:80 | every letter or number of the title is kept, as often as it occurs |
| YoutubeDownload.SanitizeIdempotent | commands/youtube/subcommands/download.js:80 | sanitising twice is sanitising once |
| YoutubeDownload.OutputPath | commands/youtube/subcommands/download.js:80 | the path is './downloads/' + sanitised title + '.' + format, and it names no pipe |
| YoutubeDownload.NoLettersPath | commands/youtube/subcommands/download.js:80 | a title with no letters or numbers gives './downloads/.' + format |
| JsText.SubsequenceMember | commands/youtube/subcommands/download.js:80 | every character of an order-preserving subsequence, such as the stem, occurs in the original |
| YoutubeDownload.DigitLabelAccepted | commands/youtube/subcommands/download.js:157-161 | a label of digits followed by 'p' reads as the value of those digits, and its format is accepted exactly when it has no audio, its MIME type starts with 'video' and that value is at most 1080 |
| YoutubeDownload.RemoveTrailingP | commands/youtube/subcommands/download.js:160 | removing every 'p' from digits followed by 'p' leaves the digits |
| YoutubeDownload.ParseDecimal | commands/youtube/subcommands/download.js:160 | `parseInt` of any non-empty run of decimal digits is their value |
| YoutubeDownload.DecimalPrefixes | commands/youtube/subcommands/download.js:160 | the digit strings of '1080p' and '1080p60' are worth 1080 and 108060 |
| YoutubeDownload.Label1080 | commands/youtube/subcommands/download.js:160 | '1080p' reads as 1080, so it is accepted |
| YoutubeDownload.Label1080p60 | commands/youtube/subcommands/download.js:160 | '1080p60' reads as 108060, so it is rejected |
| YoutubeDownload.RemovesP60 | commands/youtube/subcommands/download.js:160 | removing every 'p' from '1080p60' gives '108060' |
| YoutubeDownload.LabelWithoutDigits | commands/youtube/subcommands/download.js:160 | every label without decimal digits reads as NaN, so it is rejected |
| YoutubeDownload.ParseWithoutDigits | commands/youtube/subcommands/download.js:160 | `parseInt` of any text without decimal digits is NaN |
| YoutubeDownload.ParseNoDigit | commands/youtube/subcommands/download.js:160 | text starting with neither space, sign nor digit parses to NaN |
| YoutubeDownload.ReminderStep | commands/youtube/subcommands/download.js:202-210 | one reminder raises the counter by one or two |
| YoutubeDownload.ReminderTiers | commands/youtube/subcommands/download.js:198-213 | after n reminders the counter is 2n for n ≤ 10 and n + 10 after; calls 1-5 are initial, 6-10 extended and 11 on eons |
| YoutubeDownload.DownloadInteraction.constructor | commands/youtube/subcommands/download.js:68-69 | counter 0 and not complete |
| YoutubeDownload.DownloadInteraction.OnClose | commands/youtube/subcommands/download.js:88-91 | marks the download complete and sends the completion edit |
| YoutubeDownload.DownloadInteraction.ProcessingReminder | commands/youtube/subcommands/download.js:197-214 | once complete it neither edits nor re-arms; before that it steps the counter, edits with the tier's message and re-arms |
| YoutubeDownload.InputsArePiped | commands/youtube/subcommands/download.js:94-125 | every stream the switch pipes in goes to a stdio slot that is "pipe" and that the arguments read |
| YoutubeDownload.ProfileTable.constructor | commands/youtube/subcommands/download.js:6-56 | the shared table starts as the three profiles |
| YoutubeDownload.ProfileTable.Execute | commands/youtube/subcommands/download.js:63-132 | an unauthorised user is only told so; an unknown type throws with the table unchanged; a known type pushes the output path onto that shared profile only and spawns with its arguments, stdio plan and piped inputs |
| VoiceSession.PlayArgsWired | commands/youtube/subcommands/play.js:42-52 | the play arguments name pipes 0 and 1, and both are "pipe" in the stdio plan |
| VoiceSession.ChooseChannel | commands/youtube/subcommands/play.js:24-32 | a supplied option of a type other than voice or stage throws; a supplied voice option is joined; without an option the user's channel is joined; there is no channel exactly when neither is given |
| VoiceSession.ChooseChannelFallsBack | commands/youtube/subcommands/play.js:24-32 | without the option the user's channel is joined; with an option the user's channel makes no difference |
| VoiceSession.ReadyEventsShape | commands/youtube/subcommands/play.js:74-79 | a Ready event has three events per listener, in registration order: its reply, the subscription to its player, then its play |
| VoiceSession.SubscribedIsLastSubscribe | commands/youtube/subcommands/play.js:74-79 | the player left subscribed is the one of the last Subscribed event of the Ready event, and the earlier one when there is none |
| VoiceSession.ReleaseEvents | commands/youtube/subcommands/stop.js:35-36 | releasing an entry only stops players and closes timers |
| VoiceSession.StopEventsWithEntry | commands/youtube/subcommands/stop.js:26-36 | with an entry: destroy, delete, then release |
| VoiceSession.StopDestroysOnce | commands/youtube/subcommands/stop.js:26-31 | the connection is destroyed first and only once; with no entry nothing follows |
| VoiceSession.StopDeletesEntryFirst | commands/youtube/subcommands/stop.js:33-36 | the entry is deleted once, before the player stop and the timer close |
| VoiceSession.StopReleasesHandles | commands/youtube/subcommands/stop.js:35-36 | exactly the entry's present player is stopped and its present timer closed |
| VoiceSession.RunReadyHandlers | commands/youtube/subcommands/play.js:74-79 | running the listeners in order logs their events and leaves the last player subscribed |
| VoiceSession.VoiceState.constructor | commands/youtube/subcommands/play.js:65 | no connections, nothing stopped or closed, an empty log |
| VoiceSession.VoiceState.Play | commands/youtube/subcommands/play.js:12-80 | no guild or no channel: one error reply and no change; an option of the wrong channel type: a throw with no reply and no change; otherwise stream, reply and spawn, a join only when the guild has no connection, one more Ready listener; `client.audio` never changes |
| VoiceSession.VoiceState.OnReady | commands/youtube/subcommands/play.js:74-79 | runs every listener of the guild's connection and records the subscribed player |
| VoiceSession.VoiceState.Stop | commands/youtube/subcommands/stop.js:10-38 | no guild or no connection: one reply and no change; otherwise the connection, which was joined earlier in the log, and the entry are removed for this guild only, and the entry's player and timer are released |
| VoiceSession.PlayTwice | commands/youtube/subcommands/play.js:65-74 | two requests in a new guild share one connection with two listeners and join once |

## Left out

- Network, Discord and ffmpeg calls: `ytdl`, `fetch`, the channel, user and message fetches, `spawn` and stream piping. Their answers are parameters, and the calls are entries in an event log.
- The content of replies, posts and embeds: the message texts, the quirky reminder lines and their random choice, and the embed footer, avatar and timestamp. Replies are tagged by kind.
- `\p{L}` and `\p{N}`: Unicode classification is the parameter `isLetterOrNumber`.
- The `discord_minutes` default of a new row comes from the database schema, which is not part of this model. It is the `minutesDefault` parameter of `Ledger`.
- SQL concurrency and transactions: each query runs alone, in the order the code issues them.
- `buildAwardEmbed` inside give: give's announcement carries the award record, not a built embed, so a failure while building that embed is not modelled.
- Exceptions from `members.fetch`, from `channels.fetch` in the embed builder, and any other fetch error besides code 10008.
- TokenLedger.ColumnOf: `tokenUpdateQueries[token]` is a plain object lookup, so names inherited from `Object.prototype` (`toString`, `constructor`, `__proto__`, ...) are also truthy and would get past the check. The model treats every name but the two column names as unknown. The only caller passes the constant `award_tokens`.
- TokenLedger.UnknownTokenTouchesNothing: holds for names that are not inherited from `Object.prototype`. For such an inherited name the code would run the get query before failing; this is not modelled, for the reason given under ColumnOf.
- `EmbedBuilder` validation other than the empty description: the 4096-character limit on descriptions and the URL check of `setImage`.
- YoutubeDownload.AcceptsVideo: a missing `qualityLabel` is not modelled; the label is always a string.
- The Ready listeners run when the voice library fires Ready. `OnReady` is called explicitly and fires every listener registered so far.
- The voice library's `destroy` removes its own connection tracking. The model drops the guild's connection in `Stop`.
- The command dispatchers in `award.js` and `youtube.js`, the slash-command builders, `index.js` and `deploy-commands.js` are startup and registration code and are not part of this model.
- `setTimeout`: each reminder tick is an explicit call to `ProcessingReminder`.
