# tft bot core in Dafny

A model of the bookkeeping at the heart of the Discord bot for The Funded
Trader, with proofs of what it promises.

**The per-guild "one live message" registry and its reconciler** live in
`bot/competition.py` and `bot/leaderboard.py`.

- `config_settings` maps a guild id to where the bot's live message for that
  guild was posted. The value is a `MessageInfo(channel_id, message_id)`, or
  the plain list JSON gives back after a reload.
- `_new_message` replaces a guild's message.
- `_update_guild_message` edits a guild's message in place, or forgets it
  when the message is gone.
- `update_task` pushes one cached embed to every registered guild, walking a
  snapshot of the keys.

**The model of the registry and reconciler:**

- Discord is an abstract `Platform`. It holds the cache (each known guild
  with its known channels) and what a delete or an edit of a message answers:
  done, Forbidden, NotFound or another HTTP error.
- The embed is opaque.
- `save_settings` is a `Save` event carrying the registry as it was
  persisted.
- Each cog is a class with the source's fields: `configSettings`, `embed`
  and a ghost `trace` of the platform calls and saves in order.
- Every registry method is proved to follow a specification function in
  `reconciler.dfy`: `NewMessage`, `UpdateGuild`, `Turn` and `Cycle`. The
  embed refresh `update` follows a function of its own cog module:
  `AfterPoll` for the competition cog and `Refreshed` for the leaderboard
  cog.
- A post in the invoking channel answers a `SendResult`: the new message's
  id, or the HTTP error it raised. A post that raises escapes before the
  registry is touched.
- The two cogs differ in one place: what an edit that reports NotFound does.
  The `EditPolicy` parameter captures it. `CatchNotFound` is the competition
  cog, `PropagateAll` the leaderboard cog. Lemmas compare the two.
- The registry is an insertion-ordered dict (`ordered_dict.dfy`), because
  `update_task` iterates over a snapshot of its key list.

**Smaller cores sit beside it:**

- `tft/services.py`, modelled in `tft_services.dfy`:
  - `parse_leaderboard` and `parse_competition`, over the text of the `td`
    cells;
  - `friendly_time_delta`, on a whole number of seconds;
  - `markdown_syntax`, including `str.strip` and `textwrap.dedent` as far as
    they act on its text.
- `tft/schema.py`, modelled in `tft_schema.dfy`: `flatten` and the row
  records.
- `bot/cronannouncements/cog.py`, modelled in `cron_announcements.dfy`:
  - the job registry, a map from guild to a set of `Cron` objects, each with
    a `running` flag;
  - selecting announcements per guild;
  - starting, stopping and restarting jobs.
- `bot/faq/cog.py`, modelled in `faq.dfy`: the registry of posted FAQ
  messages, a map from channel to a list of message ids, with its save,
  delete-all and rebuild operations.

**Known quirks of the source, modelled as written:**

- In `bot/faq/cog.py:49-55` the `except discord.NotFound` branch can never
  run, because `NotFound` is a subclass of `HTTPException`, which the clause
  before it already catches. Every failed delete is swallowed, and the model
  has a single swallowing path.
- In `bot/leaderboard.py:46-50` a failed request is retried, but the
  retry's page is dropped (see "## Findings"). The cog is modelled as
  written: its `update` renders only a page the first request got, and
  raises otherwise. The corrected fetch is modelled and proved beside it.
- `start_all_jobs` (`bot/cronannouncements/cog.py:38-41`) starts one job
  per announcement on every call, so a second call leaves two running jobs
  per announcement. `CronAnnouncements.Cog.StartAllJobs` does the same.
- `reload` in `bot/cronannouncements/cog.py:47-50` reloads the announcements
  of every guild, but restarts only the jobs of the guild it was issued in.
  `CronAnnouncements.Cog.Reload` states exactly that.

## Model

| member | source | states |
|---|---|---|
| GuildRegistry.GetSavedMessageInfo | bot/competition.py:132-141 | A missing guild gives None, and None comes only from a missing guild. A stored `MessageInfo` comes back unchanged. A stored list `[c, m, ...]` comes back as `MessageInfo(c, m)`. A list shorter than two raises IndexError, and nothing else raises. The same function is bot/leaderboard.py:100-109. |
| GuildRegistry.Reloaded | bot/competition.py:133-140 | Writing the registry to JSON and reading it back keeps the key order and the key set, and turns every value into a list. |
| GuildRegistry.ReloadKeepsLookups | bot/competition.py:137-141 | After that JSON round trip, every guild's lookup answers exactly what it answered before. |
| GuildRegistry.FetchSavedMessage | bot/competition.py:39-47 | A reference comes back exactly when the guild is cached and the saved channel is in it. The reference is the saved location, and the message itself is never checked. Same as bot/leaderboard.py:52-60. |
| OrderedDict.Get | bot/competition.py:137 | `d.get(k)` gives a value exactly when the key is present, and then it is the stored value. |
| OrderedDict.Put | bot/competition.py:66 | `d[k] = v` maps `k` to `v`. A new key goes to the end of the key order, and an existing key keeps its place. |
| OrderedDict.Remove | bot/competition.py:73 | `del d[k]` removes `k` from the map and from the key order, and keeps the other keys in order. |
| Reconciler.NewMessage | bot/competition.py:58-67 | The specification of `_new_message`: the registry, the calls and the outcome. What it promises is stated by `NewMessageEffect` and the lemmas beside it. |
| Reconciler.Forget | bot/competition.py:73-80 | `del config_settings[guild]` and then `save_settings`. A missing key raises KeyError with nothing saved. |
| Reconciler.Cycle | bot/competition.py:148-151 | The specification of the `update_task` loop: one turn per guild of the snapshot, stopping at the first turn that raises. What it promises is stated by `CycleOnlyForgets`, `CycleIdempotent` and `SnapshotIsNeverDisturbed`. |
| Reconciler.DeleteOutcome | bot/competition.py:50-56 | A delete ends normally exactly when its result is not an HTTP error other than Forbidden or NotFound. Otherwise that error escapes. |
| Reconciler.UpdateGuild | bot/competition.py:69-80 | The registry is left as it was, or loses that guild's entry and nothing else. When an exception escapes, the registry is unchanged. |
| Reconciler.Turn | bot/competition.py:149-151 | One iteration of the `update_task` loop: the registry is unchanged, or loses only the visited guild. A raising turn leaves it unchanged. |
| Reconciler.NewMessageKeepsValid | bot/competition.py:66 | Storing the new location keeps the registry a well-formed ordered dict: distinct keys, exactly the domain. |
| Reconciler.CycleKeepsValid | bot/competition.py:148-151 | A whole cycle of `update_task` keeps the registry a well-formed ordered dict. |
| Reconciler.NewMessageWithoutPriorEntry | bot/competition.py:58-67 | With no prior entry, no delete is attempted. The location is added as the last key, and the only call is the save. |
| Reconciler.NewMessageReplacesResolvedPrior | bot/competition.py:61-67 | A prior entry that resolves is deleted first. The operation ends normally exactly when the delete's error is not an HTTP error other than Forbidden or NotFound. Otherwise the exception escapes after the delete alone, with the registry unwritten and nothing saved. |
| Reconciler.NewMessageEffect | bot/competition.py:58-67 | On success, the guild maps to exactly the new location, every other entry is unchanged, and the last call saves that registry. On failure, the registry is untouched, nothing is saved, and the exception is IndexError or a non-swallowed HTTP error. Only the guild's own saved message is ever deleted. |
| Reconciler.UnresolvableGuildIsForgotten | bot/competition.py:71-75 | A saved message that cannot be resolved: the guild's entry is removed and saved, and no edit is made. |
| Reconciler.ResolvedGuildIsEdited | bot/competition.py:76-77 | A message that resolves is edited with the embed first. A successful edit leaves the registry unchanged, with that edit the only call. |
| Reconciler.EditNotFoundByPolicy | bot/competition.py:76-80 | An edit that reports NotFound. The competition cog removes the entry and saves. The leaderboard cog (bot/leaderboard.py:89) lets NotFound escape and keeps the entry. |
| Reconciler.CycleOnlyForgets | bot/competition.py:148-151 | A cycle only removes entries: every surviving entry is unchanged, and a guild outside the snapshot is never removed. |
| Reconciler.CycleUsesOneEmbed | bot/competition.py:147-151 | Every edit of a cycle carries the one embed cached for the cycle. |
| Reconciler.SnapshotIsNeverDisturbed | bot/competition.py:148-151 | Over a snapshot of distinct registered guilds, removing an entry mid-cycle never makes a later lookup miss. The cycle can raise only an HTTP error or IndexError, never KeyError or AttributeError. |
| Reconciler.UpdateTaskNeverMissesAnEntry | bot/competition.py:148 | Iterating over a copy of the registry's own key list is such a snapshot. |
| Reconciler.CycleIdempotent | bot/competition.py:143-151 | When every guild's message resolves and its edit succeeds, a cycle makes one edit per guild in snapshot order and leaves the registry unchanged. A second cycle then does exactly the same. |
| Reconciler.PoliciesAgreeWithoutNotFound | bot/leaderboard.py:82-89 | Unless some guild's edit reports NotFound, the leaderboard and competition cycles make the same calls, leave the same registry and end the same way. |
| Reconciler.CatchNotFoundNeverRaisesIt | bot/competition.py:76-80 | NotFound from an edit never escapes a competition cycle. |
| Reconciler.NotFoundStopsOnlyTheLeaderboardCycle | bot/leaderboard.py:116-119 | When the first guild's edit reports NotFound, the leaderboard cycle raises right there, keeps the entry and visits no later guild. The competition cycle removes the entry, saves, and goes on with the rest. |
| CompetitionCog.AfterPoll | bot/competition.py:114-130 | A rendered embed replaces the cached one. With no active competition, or a failed render, the previous embed is kept. |
| CompetitionCog.FetchCompetitionRankings | bot/competition.py:82-110 | The records are converted in order and ranked from 1. A record missing a key ends the list there. An unreachable endpoint, or a reply without `data`, gives the empty list. |
| CompetitionCog.Cog.constructor | bot/competition.py:26-33 | No embed is cached, and the registry is the loaded one. |
| CompetitionCog.Cog.SaveSettings | bot/competition.py:67 | Records a save of the registry as it is now, and changes nothing. |
| CompetitionCog.Cog.DeleteMessage | bot/competition.py:50-56 | Records the delete, and ends as `DeleteOutcome` says. |
| CompetitionCog.Cog.NewMessage | bot/competition.py:58-67 | The new registry, the calls made and the outcome are those of `Reconciler.NewMessage`. |
| CompetitionCog.Cog.ForgetGuild | bot/competition.py:73-74 | `del` then `save_settings`. A missing key raises KeyError with nothing saved. |
| CompetitionCog.Cog.UpdateGuildMessage | bot/competition.py:69-80 | Follows `Reconciler.UpdateGuild` with the NotFound-catching policy. |
| CompetitionCog.Cog.Update | bot/competition.py:114-130 | The embed becomes `AfterPoll` of the old one. A failed render raises. The registry is untouched. |
| CompetitionCog.Cog.UpdateTask | bot/competition.py:143-151 | After the refresh, the registry, calls and outcome are those of `Cycle` over the registry's key list with the refreshed embed. A failed refresh changes nothing. The registry stays well formed. |
| CompetitionCog.Cog.VisitGuild | bot/competition.py:149-151 | Turn `i` of the cycle: it ends the cycle with that cycle's result, or leaves it resumable at `i + 1`. |
| CompetitionCog.Cog.UpdateGuilds | bot/competition.py:148-151 | The loop over the snapshot carries out exactly the cycle it was given. |
| CompetitionCog.Cog.CompetitionCmd | bot/competition.py:164-177 | With still no embed after the refresh, it replies "No Competitions found." and leaves the registry untouched; a reply that raises lets its error escape. Otherwise it posts the embed. A post that raises lets its error escape with the registry unchanged. A post that goes through registers (channel, new id) through `NewMessage`. |
| CompetitionCog.Converted | bot/competition.py:83-90 | `convert`: the row takes the given rank and the record's `nickname`, `returnPct`, `backPct` and `prize`. Its use is stated by `FetchCompetitionRankings`. |
| LeaderboardCog.FetchAsWritten | bot/leaderboard.py:39-50 | As written, a page comes back only when the first request succeeds, because the retry's result is dropped. |
| LeaderboardCog.FetchLeaderboardHtml | bot/leaderboard.py:39-50 | The corrected fetch returns only a page some request actually answered. |
| LeaderboardCog.FetchReturnsFirstAnswer | bot/leaderboard.py:39-50 | The corrected fetch returns a page exactly when some request is answered, and it is the first answer. |
| LeaderboardCog.RetriedPageIsDropped | bot/leaderboard.py:46-50 | One failed request followed by a good one: as written the page is lost, and the corrected fetch returns it. |
| LeaderboardCog.Refreshed | bot/leaderboard.py:91-98 | Over the fetch as written: an embed is built exactly when the first request is answered and its page renders, and it is that page's rendering. A fetch that got no page leaves nothing to render, because `parse_leaderboard(None)` raises. |
| LeaderboardCog.RetriedPageIsNotRendered | bot/leaderboard.py:46-50 | A page that only the retry got is never rendered, whatever it renders to. |
| LeaderboardCog.Cog.constructor | bot/leaderboard.py:25-33 | No embed is cached, and the registry is the loaded one. |
| LeaderboardCog.Cog.SaveSettings | bot/leaderboard.py:80 | Records a save of the registry as it is now, and changes nothing. |
| LeaderboardCog.Cog.DeleteMessage | bot/leaderboard.py:63-69 | Records the delete, and ends as `DeleteOutcome` says. |
| LeaderboardCog.Cog.NewMessage | bot/leaderboard.py:71-80 | The new registry, calls and outcome are those of `Reconciler.NewMessage`. |
| LeaderboardCog.Cog.ForgetGuild | bot/leaderboard.py:86-87 | `del` then `save_settings`. A missing key raises KeyError. |
| LeaderboardCog.Cog.UpdateGuildMessage | bot/leaderboard.py:82-89 | Follows `Reconciler.UpdateGuild` with the policy that lets every edit error escape. |
| LeaderboardCog.Cog.Update | bot/leaderboard.py:91-98 | The fetch as written is rendered. A refreshed embed replaces the cached one. When nothing was rendered, including after a failed first request, the exception escapes and the cached embed stays. |
| LeaderboardCog.Cog.UpdateTask | bot/leaderboard.py:111-119 | After a refresh, the registry, calls and outcome are those of `Cycle` with the propagate-all policy. A failed refresh, such as one whose first request failed, changes nothing and visits no guild. |
| LeaderboardCog.Cog.VisitGuild | bot/leaderboard.py:117-119 | Turn `i` of the cycle: it ends the cycle with that cycle's result, or leaves it resumable at `i + 1`. |
| LeaderboardCog.Cog.UpdateGuilds | bot/leaderboard.py:116-119 | The loop over the snapshot carries out exactly the cycle it was given. |
| LeaderboardCog.Cog.LeaderboardCmd | bot/leaderboard.py:132-142 | With no embed and a failed refresh, the exception escapes and nothing changes. Otherwise it posts the embed, with no other guard. A post that raises lets its error escape with the registry unchanged. A post that goes through registers (channel, new id) through `NewMessage`. |
| TftSchema.LeaderboardAttribute | tft/schema.py:16-21 | `getattr` finds exactly the four fields of the row. |
| TftSchema.LeaderboardFields | tft/schema.py:16-21 | The attribute table holds exactly what `getattr` finds. |
| TftSchema.CompetitionAttribute | tft/schema.py:33-39 | `getattr` finds exactly the five fields of a competition row. |
| TftSchema.CompetitionFields | tft/schema.py:33-39 | The attribute table of a competition row holds exactly what `getattr` finds, with the same values. |
| TftSchema.FlattenCompetitionEntry | tft/schema.py:7-13 | `CompetitionEntry.flatten` is the inherited `Flatten.flatten` on the row's attributes. It succeeds exactly when every name is a field, and then returns `Kept`. Otherwise it fails with the first unknown name. |
| TftSchema.Kept | tft/schema.py:8-13 | The kept values are never `None`, and there are at most as many as names asked for. |
| TftSchema.Flatten | tft/schema.py:7-13 | The loop succeeds exactly when every name is an attribute, and then returns `Kept`. Otherwise it fails with the first unknown name. |
| TftSchema.FlattenLeaderboardEntry | tft/schema.py:24-30 | The override computes exactly what `Flatten.flatten` computes on the row's attributes, failure included. |
| TftSchema.KeptConcat | tft/schema.py:9-12 | Order is kept: flattening two runs of names is flattening each and concatenating. |
| TftSchema.KeptMembers | tft/schema.py:11-12 | A value appears exactly when it is not `None` and is the value of a requested attribute. |
| TftSchema.KeptAllWhenNoNone | tft/schema.py:8-13 | With no `None` among the requested values, the length equals the number of names, and item `i` is the value of name `i`. |
| TftServices.Strip | tft/services.py:29 | `str.strip`: the left strip, then the right strip. What it cuts is stated by `StripCutsOnlySpace`. |
| TftServices.StripLeftCutsSpace | tft/services.py:29 | The left strip cuts a run of whitespace off the front, and what is left does not start with whitespace. |
| TftServices.StripRightCutsSpace | tft/services.py:29 | The right strip cuts a run of whitespace off the end, and what is left does not end with whitespace. |
| TftServices.StripCutsOnlySpace | tft/services.py:29 | `strip` keeps a contiguous part of the string that neither begins nor ends with whitespace. Everything cut on either side is whitespace. |
| TftServices.StripIdempotent | tft/services.py:29 | Stripping twice is stripping once. |
| TftServices.StripKeepsTrimmed | tft/services.py:185 | A string that neither begins nor ends with whitespace is its own strip. |
| TftServices.LeaderboardRows | tft/services.py:25-37 | `n` cells give `n / 4` rows, and row `k` is built from cells `4k..4k+3`. |
| TftServices.ParseLeaderboard | tft/services.py:21-38 | The appending loop returns exactly `LeaderboardRows` of the cells. |
| TftServices.LeaderboardRowsMeaning | tft/services.py:25-37 | One row per complete group of 4. Row `k` is ranked `k + 1` whatever the cells say, and holds the stripped text of cells 1, 2 and 3 of its group. |
| TftServices.LeaderboardDropsIncompleteGroup | tft/services.py:25 | A trailing incomplete group of up to three cells is dropped silently. |
| TftServices.CompetitionRows | tft/services.py:63-76 | `n` cells give `n / 5` rows, and row `k` is built from cells `5k..5k+4`. |
| TftServices.ParseCompetition | tft/services.py:60-77 | Only the first `leaderboardBody` element is read. With none, the result is None. |
| TftServices.CompetitionRowsMeaning | tft/services.py:63-76 | Complete groups of 5, ranked 1..k in order, each with the stripped text of cells 1 to 4. |
| TftServices.NatToString | tft/services.py:174 | `%s` of a count is a non-empty string of decimal digits. |
| TftServices.NatToStringRoundTrip | tft/services.py:174 | That text reads back as the count, and has no leading zero. |
| TftServices.FriendlyTimeDelta | tft/services.py:147-176 | The divmod loop over the units returns the labels of `Parts(seconds)` joined by ", ". |
| TftServices.PartsFrom | tft/services.py:170-174 | The pieces the loop produces from unit `i` on. What they mean is stated by `PartsFromUnits`, `PartsFromOrdered`, `PartsFromEmpty` and `PartsFromTotal`. |
| TftServices.Parts | tft/services.py:160-174 | The pieces for the six units of `friendly_time_delta`, from years down to seconds. |
| TftServices.PartsFromTakes | tft/services.py:171-172 | A unit strictly shorter than what is left takes the whole units that fit, at least one, and passes the remainder on. |
| TftServices.PeriodsDescend | tft/services.py:160-167 | The units are strictly decreasing, down to the single second. |
| TftServices.PartsFromUnits | tft/services.py:170-174 | Every piece is of one of the units, taken at least once. |
| TftServices.PartsFromOrdered | tft/services.py:170-174 | The pieces come largest unit first, each unit at most once. |
| TftServices.PartsFromEmpty | tft/services.py:170-174 | No piece comes out exactly when at most one second is left. |
| TftServices.PartsFromTotal | tft/services.py:170-174 | For a count that is not negative, the pieces add up to it, or to one less when a lone last second is dropped. |
| TftServices.JoinEmpty | tft/services.py:176 | A join of non-empty pieces is empty only when there are no pieces. |
| TftServices.FriendlyTimeDeltaMeaning | tft/services.py:159-176 | The answer lists each unit at most once, largest first, each taken at least once. It is "" exactly when at most one second is left, negative counts included. The pieces account for the seconds, or for one less. |
| TftServices.LabelPlural | tft/services.py:173-174 | A piece reads "<count> <unit>", with "s" added exactly when the count is more than one. |
| TftServices.AnHourReadsAsMinutes | tft/services.py:171-172 | 3600 seconds reads as sixty minutes: a unit is used only when strictly more than one of it is left. |
| TftServices.LoneSecondIsDropped | tft/services.py:171-176 | 61 seconds reads as "1 minute". |
| TftServices.Lines | tft/services.py:184 | Splitting at newlines always gives at least one line. |
| TftServices.UnlinesLines | tft/services.py:184 | Joining the lines of a text with newlines gives the text back. |
| TftServices.LinesUnlines | tft/services.py:184 | Splitting a join of newline-free lines gives the lines back. |
| TftServices.DedentClearsBlankLines | tft/services.py:184 | With an empty common margin, dedent empties exactly the lines of spaces and tabs and keeps every other line. |
| TftServices.FencedLines | tft/services.py:184-185 | The f-string's lines are the opening fence with the syntax name, then the lines of the text, with the closing fence glued onto the last. |
| TftServices.FencedEnds | tft/services.py:184-185 | Neither the first nor the last line of the fenced text is blank. |
| TftServices.Dedent | tft/services.py:184 | `textwrap.dedent` with an empty common margin: each line of spaces and tabs is emptied. Stated by `DedentClearsBlankLines`. |
| TftServices.MarkdownSyntax | tft/services.py:183-185 | `markdown_syntax`: the fenced f-string, dedented, then stripped. Stated by `MarkdownSyntaxFences` and `MarkdownSyntaxKeepsText`. |
| TftServices.MarkdownSyntaxFences | tft/services.py:183-185 | For a one-line syntax name, the result starts with the fence, the name and a newline, and ends with the fence. `strip` removes nothing. |
| TftServices.MarkdownSyntaxKeepsText | tft/services.py:183-185 | When no line of the text except its last is all spaces and tabs, the result is exactly the text the f-string built. |
| CronAnnouncements.Cron.constructor | bot/cronannouncements/cog.py:84 | A new `aiocron.Cron` with `start=True` is running, and holds its announcement. |
| CronAnnouncements.Cron.Stop | bot/cronannouncements/cog.py:80 | A stopped job is no longer running. |
| CronAnnouncements.Added | bot/cronannouncements/cog.py:68-71 | The guild gets a key if it lacked one, and its set gains the job. Every other guild's set is unchanged. |
| CronAnnouncements.AddedAll | bot/cronannouncements/cog.py:92-94 | Each started job is registered in turn under its announcement's guild. What that amounts to is stated by `AddedAllMeaning`. |
| CronAnnouncements.AddedAllMeaning | bot/cronannouncements/cog.py:92-94 | After registering the started jobs, a guild holds exactly its old jobs plus the started jobs of its announcements. A guild has a key exactly when it had one before or one of those jobs is for it. |
| CronAnnouncements.Removed | bot/cronannouncements/cog.py:73-75 | The job leaves the guild's set if it is there, and nothing else changes. No key is ever created. |
| CronAnnouncements.RemoveUndoesAdd | bot/cronannouncements/cog.py:68-75 | Removing a job just added to a guild that did not hold it restores that guild's set. |
| CronAnnouncements.ForGuild | bot/cronannouncements/cog.py:97 | Only stored announcements of the guild are selected. |
| CronAnnouncements.ForGuildConcat | bot/cronannouncements/cog.py:97 | The selection keeps the stored order. |
| CronAnnouncements.ForGuildSelects | bot/cronannouncements/cog.py:97 | Every announcement of the guild is selected, as many times as it is stored. |
| CronAnnouncements.MakeAnnouncement | bot/cronannouncements/cog.py:106-117 | The content goes to the announcement's channel exactly when the bot finds the guild and the channel in it. Otherwise nothing is sent. |
| CronAnnouncements.Cog.constructor | bot/cronannouncements/cog.py:23-29 | No jobs and no announcements. |
| CronAnnouncements.Cog.AddJob | bot/cronannouncements/cog.py:68-71 | The registry becomes `Added`. |
| CronAnnouncements.Cog.RemoveJob | bot/cronannouncements/cog.py:73-75 | The registry becomes `Removed`. |
| CronAnnouncements.Cog.StopJobs | bot/cronannouncements/cog.py:77-81 | Every job of the guild is stopped. The registry is not changed, and an unknown guild is a no-op. |
| CronAnnouncements.Cog.StartJob | bot/cronannouncements/cog.py:83-90 | A new running job for the announcement, registered under its guild. |
| CronAnnouncements.Cog.StartJobs | bot/cronannouncements/cog.py:92-94 | One new running job per announcement, in order, each registered under its guild. The jobs are pairwise distinct, so an announcement listed twice gets two jobs. |
| CronAnnouncements.Cog.RestartJobs | bot/cronannouncements/cog.py:100-104 | The guild's old jobs are stopped and stay in its set. One new running job per announcement of the guild is started and registered, all of them distinct. |
| CronAnnouncements.Cog.StartAllJobs | bot/cronannouncements/cog.py:38-41 | The file is read only when there are no announcements yet, and then one job is started per announcement, all of them distinct. A file that is not valid JSON changes nothing. |
| CronAnnouncements.Cog.Reload | bot/cronannouncements/cog.py:47-50 | The announcements are replaced by the file's, and only the invoking guild's jobs are restarted, each with a distinct new job. |
| CronAnnouncements.Cog.CogUnload | bot/cronannouncements/cog.py:34-36 | Every job of every guild in the registry is stopped. |
| CronAnnouncements.Cog.GetGuildAnnouncements | bot/cronannouncements/cog.py:96-98 | Exactly the stored announcements of the guild, each as many times as it is stored. |
| FaqCog.Items | bot/faq/cog.py:42 | `items()` lists the entries in insertion order. |
| FaqCog.DeletesIn | bot/faq/cog.py:47-55 | One delete is tried per stored id of the channel. |
| FaqCog.DeletesInMeaning | bot/faq/cog.py:47-55 | The delete of a message is tried in a channel exactly when it is one of that channel's ids, whatever earlier deletes answered. |
| FaqCog.DeletesMeaning | bot/faq/cog.py:42-55 | A delete is tried exactly for the ids stored under a channel the bot can find. The messages of a channel it cannot find are never deleted. |
| FaqCog.Appended | bot/faq/cog.py:33-38 | The registry and the channel's list are created on demand, and the id goes at the end of the list. Every other channel keeps its list, and a new channel goes last. |
| FaqCog.Posts | bot/faq/cog.py:64-69 | The messages are posted in order in the invoking channel. |
| FaqCog.Cog.constructor | bot/faq/cog.py:15-16 | The registry is the `faq_messages` loaded from the settings file, or no key at all, and nothing has been done yet. |
| FaqCog.Cog.SaveMessage | bot/faq/cog.py:30-38 | The registry becomes `Appended`, and it stays a well-formed ordered dict. |
| FaqCog.Cog.DeleteOldMessages | bot/faq/cog.py:41-57 | After the deletes `Deletes` lists, the registry is `{}` and is saved, whichever deletes failed. The messages of channels the bot cannot find are forgotten too. |
| FaqCog.Cog.DeleteChannelMessages | bot/faq/cog.py:47-55 | A delete for each id in turn, every error swallowed. |
| FaqCog.Cog.FaqCmd | bot/faq/cog.py:59-70 | After the run, the registry holds exactly the ids sent in this run, in send order, under the invoking channel. It is saved when every post went through. A post that raises lets its error escape, and the closing save never happens. |
| FaqCog.Deletes | bot/faq/cog.py:42-55 | The deletes `_delete_old_messages` tries, entry by entry in insertion order. What they mean is stated by `DeletesMeaning`. |

## Left out

- Network I/O is not modelled: HTTP fetches, `fetch_page_source` and
  `get_html`.
  - A fetch is a finite list of the site's answers to successive requests.
  - `fetch_page_source` (tft/services.py:80-92) has the same dropped-retry
    shape as `_fetch_leaderboard_html`. It is not modelled separately.
  - A competition poll is the `Poll` input, whatever the site says.
- HTML scraping with BeautifulSoup is not modelled: `find_active_competition`,
  `get_competition_label`, `parse_with_soup` and bot/faq/services.py.
  - The parsers take the text of the `td` cells as input.
- Embed rendering is not modelled: `make_leaderboard_embed`,
  `make_competition_embed` and `discord.Embed`.
  - An embed is an opaque token.
  - A render that raises is the `RenderError` outcome.
- The clock and float conversion are left out: `datetime.now`,
  `last_day_of_month`, and `timedelta.total_seconds` with its `int()`
  truncation. `friendly_time_delta` takes a whole number of seconds.
- The async task lifecycle is left out: `tasks.loop`, `cog_load`,
  `_task_callback`, `wait_until_ready` and the interval.
  - Each cog method runs to completion with no interleaving.
  - A cycle that raises is simply reported.
- aiocron's scheduling and the crontab format are left out. A `Cron` is a
  handle with a `running` flag. The firing of `make_announcement` on a
  schedule is not modelled.
- JSON files and `ConfigMixin` are left out.
  - `_load_announcements_from_file` is an optional input, where None means
    invalid JSON.
  - `save_settings` is a `Save` event.
  - The JSON round trip of the registry is `Reloaded`. The fact that JSON
    turns integer keys into strings is not modelled: guild and channel ids
    are integers throughout.
- CronAnnouncements.Cog.CogUnload: visits the guilds in an arbitrary order,
  because the order of set and dict iteration is not modelled.
- FaqCog.Cog.DeleteOldMessages: swallows every failed delete. A non-HTTP
  exception from a delete is not modelled, because deletes only answer
  done, Forbidden, NotFound or another HTTP error.
- FaqCog.Cog.FaqCmd: takes as input the ids of the posts that went through
  and the error of a post that raised, if any. Fetching
  the categories and articles, and building their embeds, is scraping and
  rendering.
- FaqCog.Cog.constructor: takes the loaded `faq_messages` with integer
  channel ids. After a restart the JSON file gives the channel keys back as
  strings, so `get_channel` at bot/faq/cog.py:43 misses and the posts of
  the earlier run are never deleted. That is not modelled, because ids are
  integers throughout; the model tries those deletes.
- `textwrap.dedent` is modelled only where `markdown_syntax` uses it. There
  the first line starts with a backtick, so the common margin is empty, and
  lines of spaces and tabs are emptied. Some Python versions treat other
  whitespace-only lines the same way; that variation is not modelled.
- `getattr` reaches only the data fields of a row. Methods and dunder
  attributes count as missing attributes.
- Framework glue is not modelled: command decorators, role checks, error
  handlers, `setup`, logging, and the poller cogs' `cog_unload`.

## Findings

| source | as written | input that shows it | evidently intended | confidence | as-written member | corrected member |
|---|---|---|---|---|---|---|
| bot/leaderboard.py:46-50 | After a failed request, `_fetch_leaderboard_html` retries with `await self._fetch_leaderboard_html()` but does not return the result. The caller gets None, and `update` then fails on it. | A first request that raises, then a second that returns `"<table>"`: as written the result is None. | `return await self._fetch_leaderboard_html()`: the page of the first request that gets an answer. | not executed | LeaderboardCog.RetriedPageIsDropped | LeaderboardCog.FetchReturnsFirstAnswer |
