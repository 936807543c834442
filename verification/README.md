# Trello reminders bot — a verified model of its core

The bot joins a Slack team to a Trello account. This project models three
of its actions in Dafny and proves properties about them:

- **Late tasks** (`actions/late-tasks.js`). The run fetches every board the
  bot's Trello member can see, then each board's lists, and builds an index
  of board id to board name and list names. It resolves the users: one
  requester, or everyone in the store, optionally narrowed to a debug
  allow-list. It fetches each user's cards and sorts the late ones into one
  bucket of lines per board. It then pushes one job per user onto a
  single-worker queue. The worker turns a job into a direct message: one
  attachment per board with late cards, or the all-clear when the user asked.
- **Username check** (`actions/check-user-trello.js`). The action picks the
  teammates who have no Trello username stored. For each one it runs a
  conversation: ask, ignore filler replies, look the answer up on Trello,
  then save it or ask again.
- **Comment alerts** (`actions/alert-user-trello.js`). The webhook handler
  decides whether a Trello comment is forwarded and to whom, and builds the
  message. The "notifications on" and "notifications off" commands create
  or delete the Trello webhook and update the stored user record.

Modules, one per file:

- `Wrappers`: `Option`.
- `Seqs`: an order-preserving `Filter` and its lemmas.
- `Strings`: ASCII lower-casing, substring search, one-character split and join, decimal rendering.
- `Directory`: the user store as a class over a map. `ids` records the listing order.
- `BoardIndex`: the board index and how it is built.
- `LateTasks`: card classification and message rendering.
- `DeliveryQueue`: the job queue as a class.
- `LateTasksRun`: one late-task run from start to finish.
- `CheckUserTrello`: the username check.
- `AlertUserTrello`: webhook dispatch and the notification commands.

Whatever Trello or Slack would answer is an input of the model: a value, or
`None` for a request that fails. Time is an integer timestamp. The date
formatter is a function parameter.

The model follows what the code does, including where one might expect
otherwise:

- A failed list request for any board rejects the whole `bluebird.map` at
  lines 66-69, so the run stops; it does not merely skip that board.
- A rejected storage read at lines 78-81 also ends the run, after the index
  is built and before any job is pushed.
- The per-user step at lines 102-123 is a serial `.each`. The first user
  that fails stops every later user, while earlier jobs stay queued. A user
  fails when they have no Trello username (`data` is `undefined`), when
  their card request fails, or when a card sits on an indexed board in a
  list the index lacks (the `TypeError` at line 110). Such users and cards
  are not skipped.
- A job is pushed for every user, even one with no late cards. The worker
  then says nothing unless the run was requested by a single user.
- A webhook whose action is not a comment gets no HTTP response at all
  (lines 16-17 and 22-23 return before `res.send`); only comments are
  answered "ok".
- "notifications on" and "notifications off" for a user with no record
  throw inside the storage callback (`data` is `null` at lines 91 and 119):
  no request is made and nothing is replied.
- "notifications off" leaves the stored record untouched, so `trelloWebhook`
  keeps the id of the deleted webhook.
- The username check saves `{id, trello}` as a whole record. A stored
  `trelloWebhook` is dropped by that save.
- The teammate filter of `check-user-trello.js` reads `user.ultra_restricted`
  (line 65), while Slack's roster calls that flag `is_ultra_restricted`; as
  written, the filter never excludes anyone for it. The model keeps the
  property the code reads.

## Model

| member | source | states |
|---|---|---|
| Directory.UserDirectory.Get | actions/check-user-trello.js:78-83 | a record comes back exactly when one is stored under the id, and it is that record |
| Directory.UserDirectory.Save | actions/alert-user-trello.js:102-106 | the whole record under `rec.id` is replaced, and no other record changes; a new id joins the end of the listing order |
| Directory.UserDirectory.All | actions/late-tasks.js:81 | every stored record exactly once, in listing order, and nothing else |
| Strings.Lower | actions/late-tasks.js:110 | the lower-cased name has the same length, every upper-case ASCII letter becomes its lower-case letter (32 code points on), no upper-case ASCII letter is left, and every other character is unchanged |
| Strings.Split | actions/check-user-trello.js:73 | at least one piece, and no piece contains the separator |
| Strings.JoinSplit | actions/late-tasks.js:86 | joining the pieces of a split with the separator gives back the original string |
| Strings.SplitJoin | actions/late-tasks.js:86 | splitting a join of separator-free pieces gives the pieces back |
| Strings.NatToString | actions/late-tasks.js:35 | a task count renders as one or more decimal digits with no leading zero ("0" only for zero) |
| Strings.DecimalRoundTrip | actions/late-tasks.js:35 | reading the rendered digits of a count back gives the count |
| Strings.ContainsLower | actions/late-tasks.js:110-114 | a match of a pattern without capitals is still a match after lower-casing |
| Strings.ContainsWithin | actions/late-tasks.js:114 | a match inside a name is a match inside any text around that name |
| BoardIndex.Registered | actions/late-tasks.js:58-64 | every fetched board's id is a key, and every key is some fetched board's id |
| BoardIndex.RecordGroup | actions/late-tasks.js:72 | recording a group of lists keeps the keys, their order and every board name |
| BoardIndex.Recorded | actions/late-tasks.js:71-73 | recording all list groups keeps the keys, their order and every board name |
| BoardIndex.BuildIndex | actions/late-tasks.js:58-75 | the two nested loops build exactly the index `Built` describes |
| BoardIndex.RegisterBoards | actions/late-tasks.js:58-64 | the first loop builds exactly `Registered(boards)` |
| BoardIndex.RecordLists | actions/late-tasks.js:71-73 | the second loop builds exactly `Recorded(...)` |
| BoardIndex.RecordListGroup | actions/late-tasks.js:72 | the inner loop builds exactly `RecordGroup(...)` |
| BoardIndex.RegisteredWellFormed | actions/late-tasks.js:58-64 | after the first loop each board id is listed once and the listing is exactly the keys |
| BoardIndex.RegisteredEmptyLists | actions/late-tasks.js:60-63 | after the first loop no board has any list yet |
| BoardIndex.RegisteredNames | actions/late-tasks.js:59-63 | a board id carries the name of the last fetched board with that id |
| BoardIndex.RecordGroupLookup | actions/late-tasks.js:72 | after recording a group, a lookup finds the group's last list with that id on that board, and is unchanged elsewhere |
| BoardIndex.RecordedLookup | actions/late-tasks.js:71-73 | after all groups, a lookup finds the list from the last group recorded for that board that has it |
| BoardIndex.BuiltLookup | actions/late-tasks.js:58-73 | looking a list name up in the built index agrees with the reference reading over the fetched boards and groups |
| BoardIndex.LastInGroupFinds | actions/late-tasks.js:72 | every list of a group can be found by its id |
| BoardIndex.ListNameRefFinds | actions/late-tasks.js:71-73 | every list of the i-th group has a name under the i-th board's id |
| BoardIndex.BuiltIndexShape | actions/late-tasks.js:58-73 | one entry per fetched board id, each listed once, named after the last board with that id; every list of the i-th group is recorded under the i-th board's id |
| LateTasks.Excluded | actions/late-tasks.js:114 | a name the exclusion pattern matches is at least as long as "done", its shortest alternative |
| LateTasks.ExcludedAround | actions/late-tasks.js:114 | the pattern is unanchored: a list name that contains an excluded name is excluded ("QA done", "Done (week 12)") |
| LateTasks.ExcludedLower | actions/late-tasks.js:110-114 | lower-casing never removes a match, because the excluded names have no capitals |
| LateTasks.IsLate | actions/late-tasks.js:110-114 | a late card has a due time strictly before now, and a list name that matches the pattern before lower-casing still matches after it, so its cards are never late |
| LateTasks.EmptyBuckets | actions/late-tasks.js:105 | one empty bucket for every indexed board, and no other bucket |
| LateTasks.ResetBuckets | actions/late-tasks.js:105 | the loop over the index's keys leaves exactly one empty bucket per indexed board |
| LateTasks.ClassifyOne | actions/late-tasks.js:107-119 | one card fails exactly when its board is indexed but its list is not; otherwise the buckets keep their boards, a late card on an indexed list adds its line to its board's bucket and one to the counter, and any other card changes nothing |
| LateTasks.ClassifyCard | actions/late-tasks.js:106-120 | the callback for one card throws exactly when `ClassifyOne` fails, and otherwise leaves the buckets and counter `ClassifyOne` gives |
| LateTasks.Classified | actions/late-tasks.js:103-120 | a successful classification has exactly one bucket per indexed board |
| LateTasks.ClassifyCards | actions/late-tasks.js:102-120 | the loop over the cards computes exactly `Classified`: the same buckets and counter, or the same failure |
| LateTasks.ClassifiedStaysFailed | actions/late-tasks.js:110 | once a card has thrown, the classification of the whole list fails |
| LateTasks.ClassifiedFailsIff | actions/late-tasks.js:110 | classification fails exactly when some card is on an indexed board in a list the index does not know |
| LateTasks.ClassifiedMatchesReference | actions/late-tasks.js:106-119 | each board's bucket holds exactly the lines of its late cards, in card order, and the counter is the number of late cards |
| LateTasks.UnknownBoardIgnored | actions/late-tasks.js:107-108 | removing a card whose board is not indexed, wherever it stands, changes nothing |
| LateTasks.TotalLinesEmpty | actions/late-tasks.js:104-105 | freshly emptied buckets hold no lines in total |
| LateTasks.TotalLinesAppend | actions/late-tasks.js:115-116 | pushing one line into an indexed board's bucket adds exactly one to the total |
| LateTasks.LateCardsIsTotalLines | actions/late-tasks.js:104-116 | `lateCards` equals the number of lines across all buckets |
| LateTasks.AttachmentsFor | actions/late-tasks.js:30-40 | one attachment per listed board, in the same order: titled with the board's name, its text the board's lines joined by newlines, its fallback `<name>: <n> tasks` with the number of lines, in the accent colour |
| LateTasks.NonEmptyBoardsIndexed | actions/late-tasks.js:30-32 | every board kept for an attachment is indexed and has a bucket |
| LateTasks.Attachments | actions/late-tasks.js:29-40 | one attachment per board of the index that has lines, in index order, never more than the boards; none exactly when every bucket is empty; the k-th is titled with the name of the k-th board that has lines |
| LateTasks.BuildAttachments | actions/late-tasks.js:29-40 | the `forEach` builds exactly one attachment per non-empty bucket, in index order, with the board's name, `<name>: <n> tasks` and the lines joined by newlines |
| LateTasks.NonEmptyTotal | actions/late-tasks.js:31-32 | leaving out the empty buckets loses no line |
| LateTasks.Rendered | actions/late-tasks.js:28-50 | nothing is said exactly when no card is late and no single user asked; with late cards the late-task text, otherwise the all-clear with no attachments |
| LateTasks.RenderJob | actions/late-tasks.js:28-50 | the worker's message is exactly `Rendered`: the late-task summary when a card is late, the all-clear when the user asked, otherwise nothing |
| LateTasks.RenderedReport | actions/late-tasks.js:28-50 | a message is sent exactly when a card is late or the user asked; with late cards, one attachment per non-empty board (at least one) together carrying every late card; with none, the all-clear |
| LateTasks.TwoBoardsExample | actions/late-tasks.js:102-120 | two boards: of a card due before now in "Doing", one due after it, and an overdue one in "Done", only the first is late; it is the only line and the summary has one attachment, titled with its board's name |
| DeliveryQueue.Said | actions/late-tasks.js:18-51 | one attempt says at most one message, always to the job's user, and nothing when the conversation does not open |
| DeliveryQueue.SaidWhen | actions/late-tasks.js:21-50 | an attempt says something exactly when the conversation opened and the user has a late card or asked; what it says is the rendered message |
| DeliveryQueue.SaidAllAppend | actions/late-tasks.js:17-54 | working through two batches of jobs says the first batch's messages and then the second's |
| DeliveryQueue.Queue.constructor | actions/late-tasks.js:17 | the queue starts empty, with nothing said |
| DeliveryQueue.Queue.Publish | actions/late-tasks.js:75 | the index is published before any job is pushed, and nothing else changes |
| DeliveryQueue.Queue.Push | actions/late-tasks.js:122 | the job joins the back of the queue, and nothing else changes |
| DeliveryQueue.Queue.Work | actions/late-tasks.js:18-53 | the job at the front is taken off and attempted; nothing is said when its conversation fails to open, otherwise its rendered message |
| DeliveryQueue.Queue.Drain | actions/late-tasks.js:17-54 | jobs are attempted one at a time in the order they were pushed, and what is said is each job's messages in that order |
| LateTasksRun.ListGroups | actions/late-tasks.js:66-70 | one list group per board in board order, and a failure exactly when some board's request fails |
| LateTasksRun.Resolve | actions/late-tasks.js:85-88 | the users resolve exactly when every one was found; never more users than listed; with debug off all of them, in order |
| LateTasksRun.ResolveKeeps | actions/late-tasks.js:85-88 | with every user found, a user is kept exactly when they were listed and, in debug mode, their id is in the allow-list |
| LateTasksRun.EntryOf | actions/late-tasks.js:90-100 | no entry exactly when the user has no username; otherwise the entry carries the user, and their cards exactly when the card request for that username succeeds |
| LateTasksRun.JobOf | actions/late-tasks.js:102-122 | every job produced fits the index: one bucket per indexed board |
| LateTasksRun.JobOfCauses | actions/late-tasks.js:90-122 | a user yields no job exactly when they have no Trello username, their card request fails, or one of their cards is on an indexed board in a list the index lacks; otherwise the job carries their classified cards |
| LateTasksRun.Planned | actions/late-tasks.js:90-123 | every job planned fits the index |
| LateTasksRun.PlannedLength | actions/late-tasks.js:102-123 | at most one job per user, and one for every user when the loop gets through |
| LateTasksRun.RunSpec | actions/late-tasks.js:56-124 | no job and no completion when the board, list or storage read fails; never more jobs than users looked at, at most one for a single requester, and one per user when the run completes without the debug filter |
| LateTasksRun.Run | actions/late-tasks.js:56-124 | a fresh queue for this run: it holds the published index, and exactly the jobs `RunSpec` plans (none when the board, list or storage read fails), with nothing attempted or said yet |
| LateTasksRun.FetchUsers | actions/late-tasks.js:77-81 | the single requester's record (or its absence) when a user asked, otherwise every stored record in listing order |
| LateTasksRun.PushJobs | actions/late-tasks.js:102-123 | the serial loop pushes exactly the jobs `Planned` describes, and says whether it got through every user |
| LateTasksRun.PlannedPrefix | actions/late-tasks.js:102-123 | the k-th job is the k-th user's classified cards; the run completes exactly when every user gets a job; otherwise the next user is the one that failed |
| LateTasksRun.NoTrelloStops | actions/late-tasks.js:91-103 | a user without a Trello username stops the run there: no job for them or anyone after |
| LateTasksRun.UnknownRequesterPushesNothing | actions/late-tasks.js:77-79 | a request from an id that is not stored pushes no job |
| CheckUserTrello.IsFiller | actions/check-user-trello.js:17-20 | the pattern is anchored and case-sensitive: filler is at least two characters, has no leading or trailing space, and has no upper-case letter |
| CheckUserTrello.UpperCaseIsNotFiller | actions/check-user-trello.js:17-20 | a reply with an upper-case letter is never filler |
| CheckUserTrello.ExtraWordsAreNotFiller | actions/check-user-trello.js:17-20 | filler followed by more words is not filler |
| CheckUserTrello.Start | actions/check-user-trello.js:12-14 | the conversation opens by asking the given question when it is a non-empty string, and the default question otherwise (none given, or empty) |
| CheckUserTrello.Next | actions/check-user-trello.js:21-48 | one reply ends the conversation exactly when it is not filler and Trello knows it; filler, and any reply after the end, changes nothing; a non-filler reply first says "Hold on…" and looks its own text up; a conversation that goes on asks the same question or the retry question |
| CheckUserTrello.Run | actions/check-user-trello.js:21-48 | replies in order end the conversation exactly when it had ended already or some reply is a non-filler username Trello knows |
| CheckUserTrello.RunFront | actions/check-user-trello.js:21-48 | a run of replies is the first reply's step followed by the run of the rest |
| CheckUserTrello.RunAppend | actions/check-user-trello.js:21-48 | two batches of replies act like one after the other |
| CheckUserTrello.FillersAreSilent | actions/check-user-trello.js:21-23 | filler replies leave the question standing and cause no lookup, no save and no message |
| CheckUserTrello.NextEffects | actions/check-user-trello.js:21-48 | one reply: filler or a finished conversation does nothing; otherwise one lookup of the reply, then either one save of `{id, trello: reply}` and one thanks, or one retry question and no save |
| CheckUserTrello.FillersThenFound | actions/check-user-trello.js:27-37 | filler then a known username gives one lookup of that name, one save of exactly `{id, trello: name}`, one thanks, and the conversation ends |
| CheckUserTrello.OnlyUnknownNames | actions/check-user-trello.js:39-47 | unknown usernames never save, and each one gets one lookup and one retry question, with no cap |
| CheckUserTrello.AtMostOneSave | actions/check-user-trello.js:30-47 | replies handled one at a time save at most once, and save exactly when the conversation ends; a finished conversation does nothing |
| CheckUserTrello.IsTeammate | actions/check-user-trello.js:63-67 | no bot is a teammate, and neither is slackbot, whose `is_bot` is false |
| CheckUserTrello.CollectTeammates | actions/check-user-trello.js:61-70 | the teammates are exactly the human, full, active members other than slackbot, in roster order |
| CheckUserTrello.Narrowed | actions/check-user-trello.js:72-75 | with debug on, a teammate stays exactly when their name is in the comma-separated list; with debug off all teammates stay; never more than before |
| CheckUserTrello.SelectUnverified | actions/check-user-trello.js:77-83 | exactly the teammates with no stored Trello username are asked, in order |
| CheckUserTrello.CheckUserTrello | actions/check-user-trello.js:61-83 | a member is asked exactly when they are a teammate, on the debug list when debug is on, and have no stored Trello username |
| AlertUserTrello.MessageFor | actions/alert-user-trello.js:44-69 | the headline reads back as the commenter and the card's short link; one attachment carrying the comment text, the card and board names as short fields, and the colour `#838C91` |
| AlertUserTrello.ParseLinkRoundTrip | actions/alert-user-trello.js:47 | the card link in the headline gives back the short link |
| AlertUserTrello.HeadlineRoundTrip | actions/alert-user-trello.js:44-47 | the headline `*<commenter>* <https://trello.com/c/<shortLink>\|commented>` gives back both commenter and short link |
| AlertUserTrello.Recipient | actions/alert-user-trello.js:29-31 | no one exactly when the commenter is the watched member or no stored user watches them; otherwise a stored user who watches them |
| AlertUserTrello.RecipientIsFirstMatch | actions/alert-user-trello.js:29-31 | the recipient is the first stored user whose username is the watched member's, and no one for a self-comment |
| AlertUserTrello.NoMatchNoRecipient | actions/alert-user-trello.js:29-31 | when no stored user watches the member, no one is told |
| AlertUserTrello.Dispatch | actions/alert-user-trello.js:15-73 | a message goes out exactly when the payload is a comment, the listing succeeded and there is a recipient; it carries the comment's message to that recipient |
| AlertUserTrello.DispatchGate | actions/alert-user-trello.js:16-73 | only a comment action is answered, always with "ok"; a message is only sent about that comment, with its headline, and never when the listing fails |
| AlertUserTrello.DispatchRecipient | actions/alert-user-trello.js:29-69 | a comment by someone else reaches exactly the first watching user with the comment's message; a self-comment reaches no one |
| AlertUserTrello.HandleWebhook | actions/alert-user-trello.js:15-73 | against the store: answered exactly for comments, and then with "ok"; a delivery carries the comment's message and goes to the first user in listing order whose username matches, never for a self-comment, and always when such a user exists and the listing works |
| AlertUserTrello.NotifyListed | actions/alert-user-trello.js:25-73 | once the store lists its records, a comment is answered "ok" and its message goes to the first watching user in listing order unless they wrote it |
| AlertUserTrello.FirstMatch | actions/alert-user-trello.js:29 | the index of the first user whose username matches |
| AlertUserTrello.NotificationsOn | actions/alert-user-trello.js:85-111 | with no record the storage callback throws on `data.trello`: no request, no reply, no save; otherwise the member lookup, then the webhook creation; only when both succeed is `{id, trelloWebhook: new id, trello: stored username}` saved and "on" confirmed |
| AlertUserTrello.NotificationsOff | actions/alert-user-trello.js:113-123 | with no record the storage callback throws on `data.trelloWebhook`: no request and no reply; otherwise one deletion of `/1/webhooks/<stored webhook>`, confirmed only when it succeeds; the store is not written |
| AlertUserTrello.OnThenOff | actions/alert-user-trello.js:102-121 | after "on" then "off" the username is kept, "off" deletes exactly the webhook "on" created, and the record still names it |

## Left out

- Slack and Trello traffic is not modelled: RTM, `startPrivateConversation`, `convo.ask` and the HTTP requests. Their results are inputs.
- The Express server is not modelled: its setup and `listen`, the `GET /trello/webhook` health check, and the callback URL's host, which is taken as a parameter.
- `index.js` is not part of this model. It only checks the environment, connects Botkit and Redis, and loads the actions.
- Redis is a map with a listing order. Real `all` lists records in insertion order only for small hashes. A failed storage read is an input where its outcome differs from that of a missing record: the late-task run's read (`readFails`) and the webhook's listing (`listingFails`).
- The `node-schedule` jobs and the `controller.hears` routes are not modelled; they only decide when an action starts.
- `moment` parsing and formatting are not modelled. Due times are integers and the formatter is a parameter. A card without a due date is taken as not late, although `moment(undefined)` is "now".
- The 1.1 s wait between jobs is not modelled, and neither is the concurrency of `bluebird.map` and the card requests. The queue models only one job at a time in push order.
- LateTasks.IsLate: `toLowerCase` is modelled for ASCII letters only.
- `Object.keys` is taken to list board ids in insertion order. JavaScript puts integer-like keys first, and Trello ids are not integer-like.
- Prototype keys (`_boards["constructor"]`) are not modelled.
- Conversation-open failures in `check-user-trello.js` and `alert-user-trello.js` are not modelled. They only log; the queue worker's own failure path is modelled.
- Inner webhook payloads that lack `model`, `memberCreator`, `data.card` or `data.board` are not modelled. `res.send('ok')` at line 73 runs before any of them is read, so the comment is answered "ok" in every case, and the only effect of a missing part is that no direct message is sent:
  - a missing `model` throws at line 29 when the store holds at least one record; with no records, line 30 returns first;
  - a missing `memberCreator` throws at line 30 only when some stored user watches `model.username`, because `||` skips the right side when no user matches;
  - a missing `data.card` or `data.board` throws at line 47 or 62, inside the `startPrivateConversation` callback (lines 35-70), after the watcher's conversation has opened.
- Logging and `console.trace` are not modelled.
- NotificationsOn: a failed storage read is not a separate input. The code logs it and goes on with `data` undefined, which throws as for a missing record; the no-record case is that outcome.
- NotificationsOff: a failed storage read is not a separate input, for the same reason as in NotificationsOn.
- CheckUserTrello.CheckUserTrello: a failed or not-ok `users.list` is not modelled. The code logs it and then reads `res.members`, which throws, so no one is asked; the model takes the roster as given. A failed per-teammate `get` leaves `data` undefined and the teammate is asked, which is the model's no-record case.
- CheckUserTrello.AtMostOneSave: holds for replies handled one at a time, each Trello lookup finishing before the next reply is taken. Nothing in lines 21-48 stops a second reply from starting a second lookup while the first is pending, and two found names could then both be saved.
- CheckUserTrello.Next: a reply is classified once, and the lookup outcome is part of the reply. The order of botkit's queued `say` and `ask` messages is taken as the order of the calls.
