# Trickster, modelled in Dafny

Trickster is a Telegram bot that invites each of its group chats to a
Friday get-together. A member can ask for a proposal in any week with the
propose button; the bot proposes on its own at most every other week,
because a proposal for last week's Friday still counts as recent. It posts a proposal (a question, an
animation and three buttons: accept, reject, will bring a guest). Votes
stay secret until the acceptors, guests included, reach a quorum; after
that the caption lists who voted. A heartbeat runs three sweeps over all
chats:

- it pins proposals that are not pinned yet, by day only;
- it closes proposals whose date's 22:00 has passed;
- inside a weekly window it sends each chat a new proposal. Each chat gets
  its own trigger time, derived from a hash of the chat's salt and the
  week's date.

Every chat's state is a *context*. Contexts live in an insertion-ordered
map in memory and are mirrored by one `<chatId>.json` file per chat.

This project models:

- the context store (`src/storage.js`);
- the salted, hash-ordered shuffling and picking (`src/helpers.js`);
- the handlers of `src/server.js`: the vote and propose callbacks,
  `getUserTitle`, `getProposalMessage`, `sendProposal`,
  `maybeCloseProposal` and the three heartbeat sweeps.

It proves what these promise.

Modules, one per file:

| file | module | what |
|---|---|---|
| `wrappers.dfy` | `Wrappers` | `Option` |
| `decimal.dfy` | `Decimal` | `${n}` and `Number()` on decimal integers |
| `ordered_map.dfy` | `OrderedMaps` | a JavaScript `Map`: keys in insertion order plus a key-value map |
| `helpers.dfy` | `Helpers` | `nowIsNight`, `shuffleItems` as a stable sort by salted digest, `pickShuffledItem` |
| `contexts.dfy` | `Contexts` | ballots, proposals, records and contexts |
| `storage.dfy` | `Storage` | the `ContextStore` class: the map, the storage directory and the mutex counter |
| `proposals.dfy` | `Proposals` | a vote's effect on a ballot, voter titles, the proposal message |
| `schedule.dfy` | `Schedule` | local days, hours and weekdays, week starts, obsolescence and trigger times |
| `server.dfy` | `Server` | the handlers and the sweeps over the store, and the Telegram requests they issue |

How the model represents the system:

- **Effects.** Telegram calls are not made. Each operation returns the
  requests it issues, in order. The message id that `sendAnimation`
  answers with, or `None` when the call fails, is a parameter.
- **Hashing.** SHA-256 is a parameter `sha: string -> Digest`, where a
  digest is 64 hexadecimal digits, so the properties hold for any hash.
  For digests, `localeCompare` orders keys of the same length made of the
  lower-case digits `0-9a-f`. On such keys it agrees with the numeric
  order of their values, which is the order used here.
- **Time.** Time is whole minutes since 1970-01-01 00:00 in the
  configured zone. A date is whole days. `YYYY-MM-DD` formatting and the
  question template's `{{format}}` substitution are parameters (`Env`).
- **Storage.** The storage directory is a map from file name to content.
  The directory listing `loadContexts` reads is a parameter. A mutex is
  identified by a number taken from the store's counter.
- **Persisting.** Every in-place change the handlers make to a context is
  followed by `pushContext` before any `await`. A context is therefore a
  value: each handler computes the new context and pushes it.
- **Weeks.** The sweeps and the propose button use ISO weeks, which begin
  on Monday. `startOf('week')` is locale dependent. The configuration's
  suggested `ru` locale begins weeks on Monday; moment's default locale
  begins them on Sunday, and that case is under Findings.

Some behaviours of the code are easy to miss; the model follows the code:

- The quorum counts acceptors plus the acceptors' guests, not acceptors
  alone.
- Whether the voter lists are shown is recomputed at every render. It is
  not a one-way switch. Once quorum is reached, a later withdrawal below
  the quorum hides the lists again.
- The pin sweep also pins closed proposals that are not pinned yet.
- A vote on a closed proposal is not ignored. It changes the ballot and
  re-renders the caption, which has no buttons.
- The propose button is refused when the chat's proposal is for the same
  date, whether that proposal is open or closed.
- A proposal's obsolescence counts 22 hours from local midnight of its
  date, which is a `YYYY-MM-DD` string.

## Model

| member | source | states |
|---|---|---|
| Helpers.NowIsNight | src/helpers.js:9-12 | it is night exactly outside the hours 9 to 20 |
| Helpers.Tag | src/helpers.js:33 | each item is paired, in order, with its salted digest of `${item}` and the salt |
| Helpers.SortByKeyIsStableSort | src/helpers.js:34 | the sort used is a stable sort by digest: ascending keys, and items with equal keys keep their order |
| Helpers.StableSortUnique | src/helpers.js:34 | two stable sorts of the same pairs are equal, so the order does not depend on the sort algorithm |
| Helpers.ShuffleItems | src/helpers.js:32-36 | the shuffled list is a permutation of the items (same length, same multiset) |
| Helpers.ShuffleItemsIsStableSort | src/helpers.js:32-36 | the shuffle is the items of any stable sort, by salted digest, of the tagged items |
| Helpers.PickShuffledItem | src/helpers.js:38-41 | an item is picked exactly when the list is non-empty, and it is one of the items |
| Helpers.PickRoundCoversItems | src/helpers.js:38-41 | within each round of `n` consecutive indices, every item is picked at some index |
| Helpers.PickRoundDistinct | src/helpers.js:38-41 | within a round, distinct indices pick distinct items when the items are distinct |
| Decimal.IntToStringRoundTrip | src/storage.js:18 | `Number()` of the text `${chatId}` gives back the chat id |
| Decimal.ParseIntegerPattern | src/storage.js:12 | a chat id is read from exactly the texts that match `-?[0-9]+` |
| OrderedMaps.MapRep.Set | src/storage.js:33 | `Map.set` updates the value and appends the key only when it is new |
| OrderedMaps.MapRep.Delete | src/storage.js:52 | `Map.delete` removes the key and its value, and keeps the other keys in their order |
| OrderedMaps.MapRep.Entries | src/server.js:139-141 | `Array.from(map)` lists the key-value pairs in insertion order |
| Contexts.EmptyBallot | src/server.js:237-238 | a new proposal's ballot has no acceptors, no rejecters and no guests, and is consistent |
| Contexts.Context.Stripped | src/storage.js:30 | the stored record is the context without its mutex, all other fields equal |
| Storage.FileNameRoundTrip | src/storage.js:12-18 | the name `pushContext` writes matches the file-name pattern, and announces the same chat id |
| Storage.FileNameInjective | src/storage.js:31 | distinct chats are written to distinct files |
| Storage.ParseFileName | src/storage.js:12-16 | a name announces a chat id exactly when it matches `^-?[0-9]+\.json$` |
| Storage.Admit | src/storage.js:14-20 | an entry is loaded exactly when its name matches, its file holds a record, and the record's chat id equals the name's |
| Storage.PushedRecordReloads | src/storage.js:28-35 | a record written by `pushContext` is loaded back unchanged from its file |
| Storage.Admitted | src/storage.js:13-24 | every loaded record is keyed by its own chat id |
| Storage.AdmittedChats | src/storage.js:13-24 | a chat is loaded exactly when some entry of the listing admits a record for it |
| Storage.LoadedKeysExtend | src/storage.js:13-20 | loading keeps the chats already in memory first and in order, and lists every loaded chat after them, once each |
| Storage.Loaded | src/storage.js:17-19 | a loaded context is the record with a new mutex |
| Storage.Select | src/storage.js:41-48 | the selection holds exactly the contexts meeting the condition, in order, with distinct chat ids kept distinct |
| Storage.StoredValues | src/storage.js:44 | the stored contexts, listed in order, are each stored under their own chat id, without repeats |
| Storage.MirroredAfterPush | src/storage.js:28-35 | pushing a changed context rewrites that chat's file, and the directory keeps mirroring memory |
| Storage.PersistAgain | src/storage.js:31 | when a chat's context is pushed twice, only the second record remains on disk |
| Storage.ContextStore.constructor | src/storage.js:5 | the store starts empty, over the given directory, with no mutexes made |
| Storage.ContextStore.LoadContexts | src/storage.js:9-26 | exactly the admitted records are added, each with its own new mutex; a newly seen chat is appended in listing order and a known one keeps its place; other contexts and the files are unchanged |
| Storage.ContextStore.PushContext | src/storage.js:28-35 | writes the stripped record and gives the context a new mutex only if it has none |
| Storage.ContextStore.PullContext | src/storage.js:37-39 | the stored context of the chat, when there is one |
| Storage.ContextStore.FindContexts | src/storage.js:41-48 | the stored contexts meeting the condition, in insertion order; none without a condition; every match included |
| Storage.ContextStore.DeleteContext | src/storage.js:50-53 | the chat's file and entry are removed, and nothing else |
| Proposals.CastVote | src/server.js:102-141 | a press changes only the voter's entries and the voter's place in each list (a new voter comes last, others keep their order); a vote puts the voter where the button says and reports a change exactly when the voter was elsewhere; other data change nothing |
| Proposals.AcceptCasts | src/server.js:110-118 | accept, by a non-acceptor or an acceptor with a guest, makes the voter a plain acceptor under the current title |
| Proposals.RejectCasts | src/server.js:119-127 | reject, by a non-rejecter, makes the voter a rejecter under the current title |
| Proposals.GuestCasts | src/server.js:128-136 | with-guest, by a voter without a guest, makes the voter an acceptor with a guest |
| Proposals.IgnoredPress | src/server.js:109-137 | a press for the standing the voter already has, or with other data, leaves the ballot unchanged |
| Proposals.RepeatedVoteIsIgnored | src/server.js:109-137 | pressing the same button twice: the second press changes nothing |
| Proposals.GetUserTitle | src/server.js:156-171 | first and last name joined by a space; otherwise the one present; otherwise `@username`; otherwise the fallback |
| Proposals.UserLines | src/server.js:177-181 | one line per entry, marked `+1` exactly for voters with a guest |
| Proposals.PermutedVoterLines | src/server.js:174-181 | the lines of any reordering of the entries list each voter once, under their recorded title |
| Proposals.GetProposalMessage | src/server.js:173-216 | the accepted total counts guests; the lists show exactly when it reaches the quorum; buttons exactly while open |
| Proposals.ProposalMessageListsVoters | src/server.js:173-196 | at quorum the caption lists every acceptor and rejecter once, with their title and guest mark |
| Proposals.UserList | src/server.js:177-181 | one `• [title +1](tg://user?id=…)` line per voter, in order |
| Proposals.MessageLinesHead | src/server.js:182-203 | the caption starts with the question and a blank line; below quorum it has exactly two count lines |
| Proposals.MessageLinesLists | src/server.js:184-196 | at quorum the acceptors follow their heading; the rejecters' block appears only when somebody rejected |
| Proposals.MessageTextHead | src/server.js:182-205 | the caption text is the question, an empty line, then the tally's lines, joined by newlines |
| Schedule.HourOf | src/helpers.js:10 | the local hour is between 0 and 23 |
| Schedule.IsoWeekday | src/server.js:309 | the ISO weekday is between 1 and 7 |
| Schedule.WeekStart | src/server.js:312 | the week start is the latest day on or before today that has the locale's first weekday |
| Schedule.IsoWeekStart | src/server.js:312 | the ISO week starts on the Monday on or before today |
| Schedule.ManualProposalDay | src/server.js:78-83 | the propose button targets the first Friday from today on |
| Schedule.AutoProposalDay | src/server.js:323 | four days after a Monday is a Friday |
| Schedule.ObsoleteAfterTenPm | src/server.js:292-295 | a proposal is obsolete exactly after 22:00 on its date, or on a later date |
| Schedule.TriggerOffset | src/server.js:317-320 | the trigger is on day 0 to 2 of the week, between 12:00 and 16:59 |
| Schedule.TriggerInWindow | src/server.js:311-321 | a chat that has become due, before 19:00 on its trigger day, is inside the propose window |
| Schedule.LastWeeksProposalBlocks | src/server.js:314-316 | a proposal for last week's Friday blocks this week's automatic proposal |
| Schedule.WindowIsEarlyInTheWeek | src/server.js:309-312 | inside the window, today is Monday, Tuesday or Wednesday of the ISO week |
| Schedule.WindowPrecedesFriday | src/server.js:311-323 | a proposal sent inside the window is not yet obsolete |
| Server.Closed | src/server.js:256-260 | closing sets only the proposal's closed flag, and changes the context exactly when an open proposal exists |
| Server.CloseRequests | src/server.js:261-265 | closing issues an unpin of the proposal's message, then an edit of that message's caption in the same chat, same question and no buttons; nothing when there is nothing to close |
| Server.CloseRequestsCaption | src/server.js:259-265 | the edited caption is the proposal's message re-rendered after `closed = true`, with the ballot unchanged |
| Server.CloseIdempotent | src/server.js:258 | closing twice is closing once, and the second close issues nothing |
| Server.MaybeCloseProposal | src/server.js:256-269 | the stored context becomes the closed one, and is persisted only when it changed |
| Server.NewProposal | src/server.js:231-239 | a proposal for the date with an empty open ballot and a question from a configured template (which one, `SendAsks` states); none without templates |
| Server.SendAsks | src/server.js:231-233 | a successful send steps the sequence number and asks the template picked with the new number |
| Server.SendAnimates | src/server.js:240-241 | the animation sent is the one picked with the old sequence number |
| Server.AfterSendsPicks | src/server.js:231-250 | the `i`-th of successive successful sends carries sequence number `c.sequence + i + 1` and asks the template picked with it |
| Server.SendRoundAsksEveryQuestion | src/server.js:231-232 | among the successive sends whose sequence numbers fill one round of `n` templates, every configured question is asked |
| Server.SendRoundAsksOnce | src/server.js:231-232 | when the templates are distinct, no two sends of one round ask the same template |
| Server.SendResult | src/server.js:228-254 | on success the sequence steps and the sent proposal replaces the old one; otherwise the old one is only closed |
| Server.SendChangesContext | src/server.js:247-250 | a successful send always changes the stored context |
| Server.SendRequestsShape | src/server.js:240-246 | closing requests first, then one animation with the new question, no votes and the buttons |
| Server.SendProposal | src/server.js:228-254 | the stored context becomes the send result and is persisted only if it changed; the requests are the close and send requests |
| Server.HandleVote | src/server.js:92-146 | only a press on the chat's current proposal message can change anything; the ballot, voter order included, changes as a vote casts it, then is persisted and the caption re-rendered |
| Server.HandlePropose | src/server.js:77-91 | unknown chat and same-date proposal are refused with no change; otherwise a proposal for the coming Friday is sent |
| Server.Pinned | src/server.js:279 | pinning sets only the pinned flag, and changes the context exactly when a proposal needs pinning |
| Server.PinEach | src/server.js:276-287 | each found context is pinned, persisted, and gets one pin request, in order |
| Server.PinUnpinnedProposals | src/server.js:271-288 | by day every unpinned proposal, open or closed, is pinned and persisted; at night nothing happens; the directory keeps mirroring memory |
| Server.CloseEach | src/server.js:296-303 | each found context is closed and persisted as needed, with its close requests in order |
| Server.CloseObsoleteProposals | src/server.js:290-304 | exactly the obsolete proposals are closed; the directory keeps mirroring memory |
| Server.SendEach | src/server.js:324-332 | each found context is sent a proposal for the date, with its requests in order |
| Server.MaybeSendProposals | src/server.js:306-336 | outside the window nothing happens; inside, exactly the due chats are sent a proposal for this week's Friday; the directory keeps mirroring memory |

## Left out

- Telegram I/O: `answerCbQuery` and its randomly picked confirmations (`pickRandomItem`) are not modelled. Only the answer of `sendAnimation` is a parameter. Every other request is assumed to succeed; in the source a failed unpin skips the caption edit that follows it.
- `randomHex256` and the `/start`, `/stop` and chat-migration handlers (src/server.js:13-61) create and remove contexts with random salts. They are left out; `PushContext` and `DeleteContext` model their effect on the store.
- Heartbeat timers (`execHeartbeat` and its random delay) and process start-up are not modelled. The sweeps are modelled as separate operations at a given time.
- The mutex acquire and release around each handler are not modelled. The model is sequential; mutexes are only the identities `pushContext` and `loadContexts` hand out.
- File-system failures are not modelled: no write fails, and no missing `STORAGE_DIR` throws. A file that cannot be read or parsed is `Malformed` and skipped, as the source's `catch` does.
- Storage.Admit: a file whose JSON parses but lacks some of a context's fields (for example `{"chatId":5}` in `5.json`) is loaded by the source when its `chatId` matches the name. The model cannot represent such a record; it is `Malformed` here and skipped.
- `Number()` precision is not modelled: chat ids are unbounded integers, so ids beyond 2^53 and the `-0` spelling are outside the model.
- moment's formatting and parsing are parameters. The model assumes that parsing a `YYYY-MM-DD` string in the machine's zone gives the configured zone's midnight, that is, that the two zones agree.
- `sendIntroduction` (src/server.js:218-226) only sends a message and is left out.
- Ballot `withGuests` is a set. The source persists it as an array in insertion order; nothing the bot shows depends on that order, which the model drops.
- Server.MaybeSendProposals: the sweep is modelled with ISO weeks only; the Sunday-first reading is stated separately under Findings.

## Findings

| source | as written | input that shows it | evidently intended | confidence | as-written member | corrected member |
|---|---|---|---|---|---|---|
| src/server.js:78-83 | the date is 4 days after `startOf('week')` on ISO weekdays 1-5, which depends on the locale's first weekday | moment's default Sunday-first locale, button pressed on Friday 1970-01-02 10:00: `when` is Thursday 1970-01-01, the day before | the coming Friday (the code's own comment says "Next friday") | medium, not executed | Schedule.SundayFirstFridayProposal | Schedule.ManualProposalDay |
| src/server.js:312-323 | the automatic proposal is for 4 days after `startOf('week')`, which depends on the locale's first weekday | moment's default Sunday-first locale, sweep on Monday 1970-01-05 12:00: `when` is Thursday 1970-01-08 | this week's Friday (the code's own comment says "Next friday") | medium, not executed | Schedule.SundayFirstAutoProposal | Schedule.AutoProposalDay |

The as-written dates are `Schedule.ManualProposalDayAsWritten` and
`Schedule.AutoProposalDayAsWritten`, which take the locale's first weekday
as a parameter. The rest of the model uses the ISO-week (Monday-first)
definitions.
