# Anonymous relay bot — a verified Dafny model

The bot relays messages between anonymous users and one owner on a chat
platform. Users write to the bot. Their text and media reach the owner under a
sender line, with inline "Reply" and "Block" buttons. The owner answers
through a small multi-turn conversation:
- pick a user (by id or "@username") or press Reply;
- write the message;
- confirm or cancel it;
- or broadcast a text to every unblocked user.

The owner can also list users, list blocked users, view statistics, and block
or unblock users.

This project models that core in Dafny and proves properties about it:

| file | module | models |
|---|---|---|
| `messages.dfy` | `Messages` | the owner's dispatcher over the five conversation entries, confirmation and sending, the broadcast loop, and the relay of users' text (`handlers/messages.py`) |
| `states.dfy` | `States` | the explicit state machine and its per-user store (`states.py`) |
| `database.dfy` | `Database` | the users table and message log as in-memory maps (`database.py`) |
| `callbacks.dfy` | `Callbacks` | the inline-button handler and its parsing of `"block_<id>"`-style data (`handlers/callbacks.py`) |
| `media.dfy` | `Media` | the sender line, caption building, and first-match media selection (`handlers/media.py`) |
| `routing.dfy` | `Routing` | the owner / non-owner / media routing of every message (`main.py`) |
| `keyboards.dfy` | `Keyboards` | the button labels and callback-data encoders (`handlers/keyboards.py`) |
| `strings.dfy` | `Strings` | the Python string and integer behaviour relied on: `isdigit`, `int(...)`, `f"{n}"`, `startswith`, `split` |
| `transport.dfy` | `Transport` | incoming messages and senders, and outgoing calls as values |
| `wrappers.dfy`, `sets.dfy` | `Wrappers`, `Sets` | `Option`, and small facts about finite sets |

How the model is shaped:
- **Owner entries.** The owner's `context.user_data` entries (`pending_message`, `replying_to`, `sending_to_user`, `waiting_for_user_id`, `broadcast_mode`) are the fields of the class `Messages.OwnerSession`.
- **Pure specification, then methods.** Each handler decision is first a pure function on a snapshot of those fields: `Dispatch` → `ComposeStep` → `ModeStep`, plus `SendPendingStep`, `ConfirmStep`, `TargetStep`, `MenuStep` and `BroadcastStep`. The session's methods are proved to follow these functions exactly, and the lemmas state the properties of the functions.
- **Database.** `Database.DatabaseManager` holds the two tables. Its writes are methods tied to pure functions (`Upsert`, `SetBlockFlag`); its reads are functions over the `users` map.
- **Outside world.** Every remote call's success is a boolean the caller passes in. So is every database error, the clock and the channel-membership answer. Outgoing calls are returned as `Transport.Outbound` values. The owner's id (`OWNER_USER_ID`) is a parameter.

## Behaviour worth knowing

These follow from the code and are proved about the model:
- The owner's conversation is five independent entries in `user_data`, not one state per user. The handlers never use the `states.py` state machine, which is modelled on its own. Its table also allows `Idle` to `BlockingUser` and `UnblockingUser`.
- A broadcast text is sent as soon as it is typed, with no confirmation step (`Messages.BroadcastReachesAudience`).
- With a message held, any text other than the two confirmation buttons goes through the later branches as if nothing were held (`Messages.OtherTextKeepsPending`).
- Cancelling a reply drops only `replying_to`. A reply already held and then confirmed goes out without the admin header (`Messages.StaleReplyLosesHeader`).
- "📩 Send to specific user" does not end broadcast mode, and a finished send does not clear it either. After a broadcast prompt, then a send to one user, the owner's next ordinary text is broadcast to everybody (`Messages.BroadcastModeOutlivesSend`).
- A numeric target is accepted without a lookup, so the "user not found" answer is never given (`Messages.UnknownIdAccepted`).
- Block on a sender who has no row in the users table writes nothing, yet the owner is told the user is blocked, and the sender's messages are still relayed (`Callbacks.BlockMissesUnregisteredSender`). Only `/start` registers users; the message handler relays text from anyone.
- The message handler does not check channel membership, and the media forwarder does not check the blocked flag (`Routing.HandleMessage`).

## Model

| member | source | states |
|---|---|---|
| Strings.NatToString | handlers/keyboards.py:23-24 | the decimal rendering is a non-empty run of digits with no leading zero |
| Strings.IntToString | handlers/keyboards.py:23-24 | `f"{id}"` is non-empty and holds only digits and '-' (never '_') |
| Strings.NatToStringRoundTrip | handlers/callbacks.py:47 | reading the rendered digits back gives the number |
| Strings.IsDigits | handlers/messages.py:189 | `str.isdigit()`: non-empty and all ASCII digits; the target prompt takes such text as an id (`Messages.ParseTarget`) |
| Strings.DigitsValue | handlers/messages.py:190 | the decimal value of a digit string; it inverts the rendering (`Strings.NatToStringRoundTrip`) |
| Strings.ParseInt | handlers/callbacks.py:47 | `int(s)` for an optional '-' followed by digits, nothing otherwise; it inverts `f"{i}"` (`Strings.IntToStringRoundTrip`) |
| Strings.IntToStringRoundTrip | handlers/callbacks.py:47 | `int(f"{i}")` gives back `i`, for negative ids too |
| Strings.Split | handlers/callbacks.py:47 | `split('_')` returns pieces without the separator that join back to the input |
| Strings.SplitTwoFields | handlers/callbacks.py:47 | splitting `a + "_" + b` with no '_' in a or b gives exactly `[a, b]` |
| Keyboards.JoinUrl | handlers/keyboards.py:12-18 | the join link is the t.me prefix followed by the channel name without its first character |
| Keyboards.ReplyData | handlers/keyboards.py:23 | the Reply button's data is "reply_" followed by the rendered id |
| Keyboards.BlockData | handlers/keyboards.py:24 | the Block button's data is "block_" followed by the rendered id |
| Keyboards.UnblockData | handlers/messages.py:139 | the block list's Unblock buttons carry "unblock_" followed by the rendered id |
| Keyboards.ReplyBlockButtons | handlers/keyboards.py:20-26 | a relayed message carries exactly the Reply then the Block button for its sender |
| Keyboards.LabelsDistinct | handlers/keyboards.py:3-41 | the five menu labels, the two cancel labels and the two confirmation labels are pairwise different |
| States.AllowedTargets | states.py:75-108 | the transition table, matching the source row for row and in its order; `States.IdleRowExact`, `States.TwoEntryRowsExact` and `States.TerminalStatesOnlyGoToIdle` pin every row's contents exactly |
| States.CanTransition | states.py:110 | a move is allowed exactly when the target is in the current state's row |
| States.NoSelfLoops | states.py:75-108 | no state may transition to itself |
| States.EveryStateCanReturnToIdle | states.py:75-108 | every state but Idle may go back to Idle |
| States.IdleRowExact | states.py:76-82 | from Idle every state may follow except Idle, SendingToUser and WaitingForConfirmation |
| States.TwoEntryRowsExact | states.py:83-98 | the broadcast, target, send and reply rows hold exactly Idle and their one forward move |
| States.TerminalStatesOnlyGoToIdle | states.py:99-107 | confirmation, blocking and unblocking lead to Idle and nowhere else |
| States.ConfirmationOnlyAfterComposing | states.py:83-101 | confirmation is reachable exactly from the broadcast, send and reply states |
| States.EveryStateReachableFromIdle | states.py:75-108 | every state lies on a legal run starting in Idle |
| States.EveryRunCanEndInIdle | states.py:75-108 | every legal run extends by at most one step to a legal run ending in Idle |
| States.StateManager.constructor | states.py:21-23 | both dictionaries start empty |
| States.StateManager.GetState | states.py:25-27 | a user never set is Idle, otherwise the stored state |
| States.StateManager.SetState | states.py:29-37 | stores the state; non-empty data is merged into the payload (a missing payload starts empty), empty data leaves it alone |
| States.StateManager.ClearState | states.py:41-46 | drops both entries; afterwards the state reads Idle and the payload reads empty |
| States.StateManager.GetStateData | states.py:48-53 | an empty key returns the whole payload (empty for an unknown user); a key returns its value or nothing |
| States.StateManager.SetStateData | states.py:55-59 | writes one key of the payload, creating the payload if missing; states untouched |
| States.StateManager.RemoveStateData | states.py:61-64 | removes the key when present, otherwise changes nothing |
| States.StateManager.IsInState | states.py:66-68 | an unknown user is only in Idle; any other state is a stored one |
| States.StateManager.CanTransitionTo | states.py:70-110 | an unknown user may move exactly to Idle's five successors; no move stays in place |
| States.StateManager.TransitionTo | states.py:112-120 | succeeds exactly on an allowed pair and then acts as SetState; on a refused pair both maps are unchanged |
| States.StateManager.ResetToIdle | states.py:122-125 | stores Idle explicitly (the key stays) and drops the payload |
| States.StateManager.GetAllUsersInState | states.py:127-129 | exactly the stored users whose state is the one asked for; never-set users are absent |
| States.StateManager.CleanupInactiveStates | states.py:131-135 | removes both entries of every stored user outside the active set; active users keep their state; payload-only users are kept |
| Database.Upsert | database.py:78-84 | a returning user keeps the blocked flag and gets new names and join date; a new user starts unblocked; other rows unchanged |
| Database.SetBlockFlag | database.py:309 | changes only the flag of that one row, and nothing when the id is unknown |
| Database.SetBlockFlagIdempotent | database.py:304-328 | blocking or unblocking twice is the same as once |
| Database.WritesKeepFlagsBinary | database.py:78-84 | every write keeps each blocked flag at 0 or 1 |
| Database.IsUserBlocked | database.py:330-340 | true exactly for a known user with a non-zero flag; false for an unknown user and on a database error |
| Database.GetUserInfo | database.py:91-103 | the three name columns, or three Nones for an unknown user or an error; never absent |
| Database.GetUserByUsername | database.py:117-127 | nothing exactly when no row has that username; otherwise a matching id (the smallest) |
| Database.Listing | database.py:144-158 | the rows in `ORDER BY join_date DESC` order; the three lemmas below state that they are the stored rows, all of them, sorted |
| Database.ListingRowsAreStored | database.py:144-158 | the listing has one row per table row, each as stored |
| Database.ListingCoversTable | database.py:144-158 | every table row is listed |
| Database.ListingIsSorted | database.py:151 | the listing is strictly ordered by join date, newest first |
| Database.GetAllUsers | database.py:144-158 | every non-owner user exactly, as stored, newest first; the owner never appears |
| Database.BlockedListingFacts | database.py:236-250 | the blocked listing holds exactly the non-owner users with flag 1, with their stored names, once each, newest first |
| Database.GetBlockedUsers | database.py:236-250 | exactly the non-owner users with flag 1, each with its stored names, without repeats, newest first |
| Database.GetStats | database.py:252-279 | the user count is the table without the owner; active and blocked counts never exceed it; the message count is the length of the log |
| Database.BlockedCountIsListed | database.py:259-272 | the blocked count equals the number of rows `get_blocked_users` returns |
| Database.UserCountIsListed | database.py:259-272 | the user count equals the number of rows `get_all_users` returns |
| Database.StatsAddUp | database.py:259-268 | while flags are 0 or 1, active plus blocked users equals all non-owner users |
| Database.OwnerNeverListed | database.py:151 | the owner is in no listing, and the user count is one less than the table |
| Database.DatabaseManager.constructor | database.py:20-53 | both tables start empty |
| Database.DatabaseManager.AddUser | database.py:72-89 | applies Upsert and returns true, or on an error changes nothing and returns false |
| Database.DatabaseManager.BlockUser | database.py:304-315 | sets the flag to 1 and returns true even for an unknown id; an error changes nothing |
| Database.DatabaseManager.UnblockUser | database.py:317-328 | sets the flag to 0 likewise |
| Database.DatabaseManager.SaveMessage | database.py:129-142 | appends exactly one row to the log and leaves the users table alone; an error changes nothing |
| Media.IdentityLine | handlers/media.py:17-23 | starts with the prefix and id; then " \| @username" when present, else " \| first name" when present; with both, " \| @username \| first name"; ends with " last name", else " \| first name", else " \| @username", whichever is last present; its length adds exactly the present segments |
| Media.IdentityLineReadsBackId | handlers/media.py:17-23 | the id is read back as the first space-separated field after the prefix, whatever names follow |
| Media.SenderInfo | handlers/media.py:17-23 | the sender line starts with "👤 Sender: ID " and the sender's id |
| Media.TargetInfo | handlers/messages.py:21-27 | the target line starts with "🆔 " and the target's id |
| Media.WithHeader | handlers/media.py:30-31 | header + "\n\n" + body for a non-empty body, the header alone otherwise |
| Media.BodyAfterWithHeader | handlers/media.py:31 | the body can be read back from a headed text unchanged |
| Media.SelectMedia | handlers/media.py:28-91 | the first attachment kind present, in the order photo, video, document, audio, voice, sticker; stated by `Media.SelectMediaIsFirstPresent` |
| Media.SelectMediaIsFirstPresent | handlers/media.py:28-91 | the chosen attachment is the first kind present in the order photo, video, document, audio, voice, sticker; a photo is taken in its last size |
| Media.OwnerCaption | handlers/media.py:28-91 | photo, video, document and audio are captioned with the sender line and the user's caption; voice with the sender line only; sticker with none |
| Media.ForwardMediaToOwner | handlers/media.py:14-97 | at most one call, to the owner, with the chosen attachment, its caption and the Reply/Block buttons; the success acknowledgement unless an attachment's call fails |
| Media.ForwardMediaFromOwner | handlers/media.py:99-135 | returns true exactly when the call succeeds or there is no attachment; one call exactly when there is an attachment and the call succeeds, carrying the chosen kind and file to the target; captions pass through ("" when missing), none for voice and sticker |
| Messages.PendingSends | handlers/messages.py:309-393 | the calls for a held message: its text, else its first attachment, with the admin header on replies; stated by `Messages.PendingSendsDeliverContent` |
| Messages.ReplyCaption | handlers/messages.py:322-328 | a reply's caption is the admin header over the caption (the header alone without one); a plain send passes the caption through |
| Messages.PendingSendsDeliverContent | handlers/messages.py:311-393 | every call goes to the target; a text is sent alone, with the admin header and Markdown exactly on a reply, and the owner's text is recoverable; an attachment goes last with its kind and file, photo/video/document/audio alone with `ReplyCaption` and Markdown on replies, voice/sticker behind a separate header text on replies, without Markdown, with the caption only for a voice note with one |
| Messages.SendPendingStep | handlers/messages.py:301-410 | one delivery attempt: success clears the three send entries and reports the calls, failure keeps all entries; stated by `Messages.ConfirmSendsOnce` |
| Messages.CancelPending | handlers/messages.py:412-416 | drops the held message, `replying_to` and `sending_to_user`; keeps the two mode flags |
| Messages.ConfirmStep | handlers/messages.py:17-48 | holds the message for the target with its type, replacing any held one, and shows the target line; stated by `Messages.ComposingHoldsMessage` |
| Messages.ParseTarget | handlers/messages.py:186-196 | digits give their value; "@name" gives a user with that username exactly when one exists and the lookup does not fail; any other text gives nothing |
| Messages.TargetStep | handlers/messages.py:179-231 | the target prompt: Cancel leaves it; a parsed id other than 0 moves to composing for it; anything else is an invalid format; stated by `Messages.TargetAccepted` |
| Messages.MenuStep | handlers/messages.py:94-176 | the five menu buttons: two set their flag, three show a listing or the statistics; stated by `Messages.MenuButtonsPreempt` |
| Messages.ParseTargetReadsRenderedId | handlers/messages.py:189-190 | a decimal id typed by the owner reads back as that id |
| Messages.UnblockedIds | handlers/messages.py:242 | keeps exactly the listed ids whose blocked flag is 0 |
| Messages.UnblockedIdsDistinct | handlers/messages.py:242 | filtering a listing without repeated ids gives no repeated ids |
| Messages.Recipients | handlers/messages.py:241-242 | the broadcast audience: the user listing's unblocked ids, in listing order; stated by `Messages.RecipientsAreUnblockedUsers` |
| Messages.RecipientsAreUnblockedUsers | handlers/messages.py:241-242 | the broadcast audience is every unblocked non-owner user, each once |
| Messages.StatsMatchListings | database.py:252-272 | the statistics' blocked count is the block list's length, the active count the broadcast audience's size, and the user count the user list's length |
| Messages.Delivered | handlers/messages.py:249-255 | the reached recipients are exactly those in the audience that can be reached, never more than the audience |
| Messages.DeliveredKeepsDistinct | handlers/messages.py:249-255 | an audience without repeats is reached without repeats |
| Messages.BroadcastStep | handlers/messages.py:240-263 | sends to the delivered part of the audience, reports success and failure counts, and ends broadcast mode; stated by `Messages.BroadcastReachesAudience` |
| Messages.BroadcastText | handlers/messages.py:244-255 | one attempt per recipient: the texts sent are the delivered ones, successes count them, successes plus failures equal the audience |
| Messages.Dispatch | handlers/messages.py:59-70 | the owner's update: no text does nothing; with a message held, the two confirmation buttons first; everything else goes to `ComposeStep` |
| Messages.ComposeStep | handlers/messages.py:72-176 | a reply being composed, then a send being composed, then the menu buttons; everything else goes to `ModeStep` |
| Messages.ModeStep | handlers/messages.py:178-266 | the target prompt, then broadcast mode; otherwise the text is ignored |
| Messages.NoTextDoesNothing | handlers/messages.py:60 | an owner update without text changes no entry and sends nothing |
| Messages.DispatchKeepsWellFormed | handlers/messages.py:59-266 | a held message always has text, and target entry and composing for a target never coexist |
| Messages.ConfirmedSendIsOneText | handlers/messages.py:313-320 | under that invariant a confirmed message is one text call; the media branches are never reached |
| Messages.OtherTextKeepsPending | handlers/messages.py:64-70 | with a message held, text other than the two confirmation buttons is handled as if nothing were held, and the held message survives unless replaced |
| Messages.ConfirmSendsOnce | handlers/messages.py:64-67 | "Yes, send it" sends exactly the calls for the held message to the held target (as a reply while `replying_to` is set); success clears the three send entries, failure changes nothing |
| Messages.CancelReplyKeepsHeldMessage | handlers/messages.py:74-76 | both cancel labels end a reply by dropping only `replying_to`; a held message stays |
| Messages.StaleReplyLosesHeader | handlers/messages.py:75 | a reply held, then cancelled, then confirmed is delivered as a plain message without the admin header |
| Messages.ComposingHoldsMessage | handlers/messages.py:73-92 | while replying or sending, any other text becomes the held message for that target, replacing an earlier one |
| Messages.CancelReplyIsContentWhenSending | handlers/messages.py:84-92 | while sending to a chosen user, "❌ Cancel reply" is held as the message rather than cancelling |
| Messages.MenuButtonsPreempt | handlers/messages.py:94-176 | a menu button never answers the target prompt nor is broadcast; only its own flag is set |
| Messages.TargetAccepted | handlers/messages.py:186-231 | the owner moves to composing exactly when the text gives an id other than 0; otherwise "Invalid format" and nothing changes |
| Messages.ZeroIsNotATarget | handlers/messages.py:198 | "0" is refused although it is all digits |
| Messages.TargetByUsername | handlers/messages.py:192-201 | "@name" of a known user (id not 0) selects the smallest id with that username; an unknown name gives "Invalid format" and changes nothing |
| Messages.UnknownIdAccepted | handlers/messages.py:198-226 | a numeric id is accepted without a lookup, so the "user not found" answer is never given |
| Messages.BroadcastReachesAudience | handlers/messages.py:241-263 | a broadcast text goes out at once: every reachable unblocked non-owner user gets it exactly once, nobody else does, the counts add up, and broadcast mode ends |
| Messages.BroadcastModeOutlivesSend | handlers/messages.py:105 | after the broadcast button, a send to one user and its confirmation leave broadcast mode on, so the next ordinary text is broadcast |
| Messages.RelayUserMessage | handlers/messages.py:268-299 | a blocked sender gets the notice only; an unblocked sender's text is logged once and relayed to the owner under the sender line, with the Reply/Block buttons |
| Messages.BlockedSenderIsSilenced | handlers/messages.py:273-276 | a blocked user's text is neither logged nor relayed |
| Messages.OwnerSession.constructor | handlers/messages.py:64-234 | all five entries start absent |
| Messages.OwnerSession.AskConfirmation | handlers/messages.py:17-48 | holds the message for the target and type, and shows the target line |
| Messages.OwnerSession.SendPendingMessage | handlers/messages.py:301-410 | one delivery attempt; the entries afterwards are as SendPendingStep says |
| Messages.OwnerSession.CancelPendingMessage | handlers/messages.py:412-421 | drops the three send entries and says the send was cancelled |
| Messages.OwnerSession.HandleOwnerMessage | handlers/messages.py:50-70 | the owner's updates follow Dispatch and leave the store unchanged; other senders' updates leave the owner's entries unchanged and follow RelayUserMessage |
| Messages.OwnerSession.HandleComposeOrMenu | handlers/messages.py:72-176 | the reply and send entries, then the menu buttons, as ComposeStep says |
| Messages.OwnerSession.HandleModes | handlers/messages.py:178-266 | target entry, then broadcast mode, as ModeStep says |
| Messages.HandleUserMessage | handlers/messages.py:268-299 | the store's log grows by what RelayUserMessage logs; the users table is untouched |
| Callbacks.CallbackId | handlers/callbacks.py:47 | `int(data.split('_')[1])`, nothing when there is no second field or it is not a number; stated by `Callbacks.IdFieldReadsBack` |
| Callbacks.ParseCallback | handlers/callbacks.py:17-43 | "check_membership" is recognised exactly by itself; data without a known prefix is exactly what is ignored |
| Callbacks.IdFieldReadsBack | handlers/callbacks.py:47 | the second '_'-separated field of word + "_" + rendered id reads back as the id |
| Callbacks.ReplyDataRoundTrip | handlers/callbacks.py:85-87 | the Reply button's data parses back to a reply to the same user |
| Callbacks.BlockDataRoundTrip | handlers/callbacks.py:45-47 | the Block button's data parses back to blocking the same user |
| Callbacks.UnblockDataRoundTrip | handlers/callbacks.py:70-72 | the Unblock button's data parses back to unblocking the same user, not as "block_" |
| Callbacks.ButtonDataRoundTrip | handlers/keyboards.py:20-26 | all three encoders round-trip through the handler's parsing |
| Callbacks.CallbackEffect | handlers/callbacks.py:11-105 | the effect of a button press on the users table and the owner's entries, with the outcome shown; stated by the lemmas below |
| Callbacks.MembershipCheckChangesNothing | handlers/callbacks.py:17-29 | the membership re-check is answered for any sender and changes no table or entry |
| Callbacks.ReplyButtonSetsOnlyReplyingTo | handlers/callbacks.py:85-88 | Reply sets (or replaces) `replying_to` and changes nothing else |
| Callbacks.OnlyOwnerActs | handlers/callbacks.py:31-36 | a non-owner's press changes nothing and, except for the membership check, is denied |
| Callbacks.MalformedChangesNothing | handlers/callbacks.py:38-47 | data without a known prefix, or with an unreadable id, changes nothing |
| Callbacks.BlockButtonSilencesSender | handlers/callbacks.py:45-68 | for a sender with a row in the users table: after Block the sender is blocked, whether or not the notice reached them, and their next message gets only the blocked notice |
| Callbacks.BlockMissesUnregisteredSender | handlers/callbacks.py:45-68 | for a sender without a row: Block still reports the user blocked, the table is unchanged, and the sender's next text is relayed |
| Callbacks.UnblockUndoesBlock | handlers/callbacks.py:70-81 | unblocking right after blocking restores the table of a user who was not blocked |
| Callbacks.ReplyButtonThenTextHoldsReply | handlers/callbacks.py:85-88 | after Reply, the owner's next text is held as a "reply" to that sender |
| Callbacks.CallbackKeepsWellFormed | handlers/callbacks.py:88 | button presses keep the owner's entries consistent |
| Callbacks.HandleCallback | handlers/callbacks.py:11-105 | the store and the owner's entries change exactly as CallbackEffect says; the log is untouched |
| Routing.IsMedia | main.py:27-29 | any of the six attachment kinds is present; stated by `Routing.IsMediaIffSelectable` |
| Routing.IsMediaIffSelectable | main.py:27-29 | the routing's media test holds exactly when the forwarders find an attachment |
| Routing.HandleMessage | main.py:22-37 | non-owner media goes straight to the owner with no blocked check; everything else goes to the message handler |

## Left out

- Telegram transport: message texts shown to the owner or the user (prompts, lists, statistics, welcome texts) are not modelled beyond which outcome is shown. Owner-facing replies and edits are assumed to succeed. Keyboard layout and markup flags are presentation.
- The 10-row limit on unblock buttons and the 20-row limit on the shown user list are not modelled; the outcome carries the whole listing.
- `handlers/commands.py` (the `/start` command) is not part of this model. Its only state effect is `add_user`, which `Database.DatabaseManager.AddUser` models.
- Channel membership (`handlers/channel.py`) is not part of this model: its answer is a boolean the caller passes in.
- The database getters' error fallbacks (an empty listing, zero counts) are not modelled. Only `is_user_blocked`, `get_user_info` and the username lookup take an error flag.
- Not modelled because no handler calls them: `get_system_stats`, `get_active_users`, `get_user_count`, both `get_all_users_detailed`, and `find_user_by_username`, which behaves like the username lookup modelled.
- Join dates and message timestamps are an integer time supplied by the caller. ISO-8601 text sorts in the same order.
- Database.GetUserByUsername: the smallest matching id stands for the row SQLite meets first.
- Database.GetAllUsers: ties in join date are ordered by ascending id. SQL leaves that order unspecified.
- Strings.ParseInt: models `int(...)` on ASCII digits with an optional sign only. Surrounding whitespace, underscores between digits and non-ASCII digits are not modelled.
- Strings.IsDigits: models `str.isdigit` on ASCII digits only.
- Messages.PendingSends: a voice or sticker reply is two calls (header, then media). The model treats the pair as one delivery that succeeds or fails whole; it does not model the header arriving alone.
- States.StateManager.GetAllUsersInState: returns a set; the order of the Python list is not modelled.
- Logging, configuration loading and the async runtime are not modelled. Updates are handled one at a time.
