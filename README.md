# Chat client core in Dafny

This project models the sequential logic inside a React chat web client whose
networking, sessions and event delivery belong to an external chat SDK. Five
pieces are modelled:

- **Message grouping** (`message_list.dfy`, module `MessageGrouping`). The
  transcript renderer decides for each message whether it is a group head,
  shown with author name and avatar, or a tail that continues the group above
  it. It also decides where date separators go. The reference definition
  `Grouped` reads the messages oldest first. Message k contributes a separator
  carrying its day when that day differs from message k-1's, then its own entry.
  The entry is a tail exactly when all of these hold:
  - the author is the same as message k-1's;
  - the gap is under 7 minutes (420000 ms);
  - the masquerades match;
  - neither message is a system message;
  - message k has no replies.
  The method `MessageList` computes this the way the component does: it walks
  the reversed, newest-first list, compares each message with its older
  neighbour, pushes the entry and then any separator, and reverses the result.
  Its postcondition says the two agree.
- **Typing lists and timelines** of the server channel view (`channel_view.dfy`)
  and of the direct-message view (`chat.dfy`). The updater functions they share
  are in `typing_users.dfy`. The direct-message screen also filters and sorts
  the conversation list and resolves the selected conversation from the route.
- **The typing-notification throttle** of the compose box (`server_compose.dfy`).
  Typing is announced at most once per 4000 ms. It is withdrawn 3000 ms after
  the last keystroke, when the text becomes blank, and before a send.
- **The presence-to-badge mapping** (`presence.dfy`).
- The JavaScript built-ins these rely on (`strings.dfy`, `sequences.dfy`):
  `trim`, the decimal rendering of a count, truthiness of an optional string,
  and `reverse`.

How the model stands in for the environment:
- The clock (`Date.now()`) is a `now` parameter.
- A pending `setTimeout` is a deadline. Its callback firing is the
  `TimerFires(now)` event.
- The outcome of `sendMessage` is a boolean input.
- The outcome of the initial fetch is an `Option` (`None` is a failed fetch).
- Calls into the SDK (`startTyping`, `stopTyping`, `sendMessage`) are entries
  of a command log.
- A channel's collection is passed as a sequence (for `syncDMs`) or as a map
  from id (for the route lookup).

On these points the model follows the code exactly:
- Masquerade matching uses `===` or optional-chained field equality. So a
  message without a masquerade also matches one whose name and avatar are both
  missing (`MasqueradeMatchCases`).
- There is no order tag: the input is always oldest first.
- The direct-message view renders two typists as "A and 1 others are
  typing...". The server channel view names both (`TypingTextsDifferOnlyForTwo`).
- The server check on channel events uses truthiness. A channel whose
  `serverId` is absent or empty skips it.

## Model

| member | source | states |
|---|---|---|
| `MessageGrouping.MessageList` | apps/web/src/components/message.tsx:165-232 | the newest-first loop with its mutable `tail`/`date` locals and the final reversal yields exactly `Grouped(messages)`, the oldest-first reference definition |
| `MessageGrouping.GroupedEntryAt` | apps/web/src/components/message.tsx:168-227 | message k's entry sits at `EntryPos(k)` and is a tail iff k > 0, same author, gap < 420000 ms, masquerades match, neither is a system message and it has no replies; a separator with message k's day sits immediately before it iff its day differs from message k-1's, otherwise the entry before it is message k-1's |
| `MessageGrouping.OldestIsHead` | apps/web/src/components/message.tsx:172-207 | the first output entry is the oldest message's, as a head |
| `MessageGrouping.GroupedMessageEntries` | apps/web/src/components/message.tsx:209-211 | dropping separators leaves exactly one entry per input message, in the input's oldest-to-newest order, each with its tail flag |
| `MessageGrouping.GroupedLength` | apps/web/src/components/message.tsx:174-227 | output length is message count plus separator count; separators count the day changes and are at most n-1 |
| `MessageGrouping.GroupedSmall` | apps/web/src/components/message.tsx:168-207 | empty input gives empty output; one message gives a single head and no separator |
| `MessageGrouping.MasqueradeMatchCases` | apps/web/src/components/message.tsx:190-193 | two absent masquerades match; two present ones match iff names and avatars are equal; absent matches present only when that one has neither name nor avatar |
| `MessageGrouping.DaysDoNotAffectGrouping` | apps/web/src/components/message.tsx:178-204 | changing only calendar days leaves every head/tail decision unchanged |
| `MessageGrouping.ExampleSixMinuteGaps` | apps/web/src/components/message.tsx:186-204 | 10:00, 10:03, 10:09 by one author give head, tail, tail |
| `MessageGrouping.ExampleSevenMinuteBreak` | apps/web/src/components/message.tsx:186-204 | a 7-minute gap makes the newer message a head |
| `MessageGrouping.ExampleReplyBreaks` | apps/web/src/components/message.tsx:201 | a reply is a head even within the same minute |
| `MessageGrouping.ExampleMidnight` | apps/web/src/components/message.tsx:178-184 | crossing midnight inserts a separator but the 4-minute continuation is still a tail |
| `Sequences.ReverseAt` | apps/web/src/components/message.tsx:165 | element k of the reversed copy is element n-1-k of the input |
| `Sequences.ReverseAppend` | apps/web/src/components/message.tsx:232 | reversing a concatenation reverses and swaps the parts |
| `Sequences.ReverseInvolution` | apps/web/src/components/channel-view.tsx:166 | reversing twice gives the original order back |
| `TypingUsers.WithUser` | apps/web/src/components/channel-view.tsx:215-218 | a known id leaves the list unchanged; a new user is appended after the unchanged existing entries; ids present afterwards are the old ones plus the user's; distinct ids stay distinct |
| `TypingUsers.WithoutUser` | apps/web/src/components/channel-view.tsx:225 | no entry with the id remains; the result is a subsequence of the old list; the list is unchanged if the id was absent; distinct ids stay distinct |
| `TypingUsers.WithoutUserCounts` | apps/web/src/components/channel-view.tsx:225 | every entry with another id is kept exactly as often as in the old list, and none with the id is kept. Together with the subsequence clause this fixes the result to the one `filter` gives. Membership holds in both directions |
| `TypingUsers.PresentUsers` | apps/web/src/components/channel-view.tsx:203-206 | the initial typing list holds exactly the present users of the channel's typing list, in order, each as often as it occurs there (the lifted result's multiset is the input's with `None` removed) |
| `TypingUsers.AfterStopTyping` | apps/web/src/components/channel-view.tsx:222-229 | another channel changes nothing; no user clears the list; a user is removed, and every other entry is kept in order as often as it occurred; no server is compared; distinct ids stay distinct (the same handler is apps/web/src/routes/chat.tsx:267-274) |
| `ChannelView.AfterMessageCreate` | apps/web/src/components/channel-view.tsx:180-185 | the message is appended iff its channel matches and, for a channel with a server, its server matches; otherwise the timeline is unchanged |
| `ChannelView.AfterStartTyping` | apps/web/src/components/channel-view.tsx:210-220 | the list grows by the user iff the channel matches, the server matches when the channel has one, a user is given and its id is not listed; otherwise it is unchanged; distinct ids stay distinct |
| `ChannelView.TypingText` | apps/web/src/components/channel-view.tsx:87-94 | nothing for 0 users; "A is typing..." for 1; "A and B are typing..." for 2; "A and n-1 others are typing..." for 3 or more |
| `ChannelView.ServerChannelView.constructor` | apps/web/src/components/channel-view.tsx:136-137 | a mounted view starts with no messages and the channel's present typists |
| `ChannelView.ServerChannelView.FetchSettled` | apps/web/src/components/channel-view.tsx:162-170 | a successful fetch stores the fetched page reversed; a failed one leaves the timeline unchanged |
| `ChannelView.ServerChannelView.MessageCreated` | apps/web/src/components/channel-view.tsx:180-185 | the timeline becomes `AfterMessageCreate` of the old one |
| `ChannelView.ServerChannelView.ChannelStartTyping` | apps/web/src/components/channel-view.tsx:210-220 | the typing list becomes `AfterStartTyping` of the old one and keeps distinct ids |
| `ChannelView.ServerChannelView.ChannelStopTyping` | apps/web/src/components/channel-view.tsx:222-229 | the typing list becomes `AfterStopTyping` of the old one and keeps distinct ids |
| `Chat.AfterMessageCreate` | apps/web/src/routes/chat.tsx:228-232 | the message is appended iff its channel id is the open channel's |
| `Chat.AfterStartTyping` | apps/web/src/routes/chat.tsx:257-265 | the list grows by the user iff the channel matches, a user is given and its id is not listed; otherwise it is unchanged |
| `Chat.TypingText` | apps/web/src/routes/chat.tsx:328-333 | nothing for 0 users; "A is typing..." for 1; "A and n-1 others are typing..." for 2 or more |
| `Chat.TypingTextsDifferOnlyForTwo` | apps/web/src/routes/chat.tsx:331-333 | both views' sentences agree except for two users, where the conversation says "A and 1 others" and the server channel names both |
| `Chat.DMChannelView.constructor` | apps/web/src/routes/chat.tsx:250-255 | a mounted conversation view starts with no messages and the channel's present typists |
| `Chat.DMChannelView.FetchSettled` | apps/web/src/routes/chat.tsx:210-218 | a successful fetch stores the page reversed; a failed one changes nothing |
| `Chat.DMChannelView.MessageCreated` | apps/web/src/routes/chat.tsx:228-232 | the timeline becomes `Chat.AfterMessageCreate` of the old one |
| `Chat.DMChannelView.ChannelStartTyping` | apps/web/src/routes/chat.tsx:257-265 | the typing list becomes `Chat.AfterStartTyping` of the old one and keeps distinct ids |
| `Chat.DMChannelView.ChannelStopTyping` | apps/web/src/routes/chat.tsx:267-274 | the typing list becomes `AfterStopTyping` of the old one and keeps distinct ids |
| `Chat.FilterDMs` | apps/web/src/routes/chat.tsx:354-360 | keeps exactly the active direct messages with a recipient, in their original order, each as often as it occurs in the input |
| `Chat.InsertByRecency` | apps/web/src/routes/chat.tsx:361 | inserting into a recency-sorted list keeps it sorted and adds exactly the one channel |
| `Chat.SortByRecency` | apps/web/src/routes/chat.tsx:361 | the result is sorted most recently updated first and is a permutation of the input |
| `Chat.SortIsStable` | apps/web/src/routes/chat.tsx:361 | channels updated at the same time keep their relative order |
| `Chat.ListedDMsCorrect` | apps/web/src/routes/chat.tsx:353-362 | the conversation list holds exactly the listed channels, each as often as it occurs in the collection, most recent first, ties in collection order |
| `Chat.SelectionFor` | apps/web/src/routes/chat.tsx:385-394 | a truthy route id naming a direct message selects it; a missing or empty id selects nothing; otherwise the selection is unchanged |
| `Chat.SelectionStaysDirect` | apps/web/src/routes/chat.tsx:388 | route changes never select anything but a direct message |
| `Chat.ChatView.constructor` | apps/web/src/routes/chat.tsx:347-350 | no conversations and no selection at first |
| `Chat.ChatView.SyncDMs` | apps/web/src/routes/chat.tsx:353-363 | the conversation list becomes `ListedDMs` of the client's channels |
| `Chat.ChatView.RouteChanged` | apps/web/src/routes/chat.tsx:385-394 | the selection becomes `SelectionFor` of the route id and the old selection |
| `Compose.AfterStopTyping` | apps/web/src/components/server-compose.tsx:59-68 | the timer is dropped; a stop is logged and typing cleared only when typing on a channel; content and last-sent time are untouched |
| `Compose.AfterTyping` | apps/web/src/components/server-compose.tsx:70-88 | no channel does nothing; otherwise a start is logged, last-sent set to now and typing set iff now - last-sent > 4000, else none of them changes; the timer always becomes now + 3000 |
| `Compose.AfterChange` | apps/web/src/components/server-compose.tsx:107-117 | content becomes the value; non-blank text acts as typing, blank text as stop-typing |
| `Compose.AfterSend` | apps/web/src/components/server-compose.tsx:90-99 | no channel or blank content changes nothing; otherwise typing stops, then the content is sent, and it is cleared iff the send succeeded |
| `Compose.AfterTimer` | apps/web/src/components/server-compose.tsx:85-87 | a due timer stops typing; otherwise nothing changes |
| `Compose.InitialConsistent` | apps/web/src/components/server-compose.tsx:42-45 | the initial state satisfies the state invariant |
| `Compose.StopTypingStep` | apps/web/src/components/server-compose.tsx:59-68 | stopping keeps the invariant, adds no announcement, and a second stop changes nothing |
| `Compose.TypingStep` | apps/web/src/components/server-compose.tsx:70-88 | typing keeps the invariant and adds one announcement exactly when the interval has passed |
| `Compose.SendStep` | apps/web/src/components/server-compose.tsx:90-99 | sending keeps the invariant and announces nothing |
| `Compose.SpacedExtend` | apps/web/src/components/server-compose.tsx:75-79 | an announcement more than 4000 ms after the last keeps all announcements spaced |
| `Compose.ServerCompose.constructor` | apps/web/src/components/server-compose.tsx:42-45 | empty content, last-sent 0, not typing, no timer, nothing sent |
| `Compose.ServerCompose.StopTyping` | apps/web/src/components/server-compose.tsx:59-68 | the refs become `AfterStopTyping` of the old ones; the invariant holds |
| `Compose.ServerCompose.HandleTyping` | apps/web/src/components/server-compose.tsx:70-88 | the refs become `AfterTyping` of the old ones; the send time is recorded when a start is sent; consecutive starts stay more than 4000 ms apart |
| `Compose.ServerCompose.HandleSend` | apps/web/src/components/server-compose.tsx:90-99 | the state becomes `AfterSend` of the old one; the invariant holds |
| `Compose.ServerCompose.SendContent` | apps/web/src/components/server-compose.tsx:93-98 | once typing is stopped, the content is sent as it is and cleared only on success; nothing else changes and the invariant holds |
| `Compose.ServerCompose.HandleChange` | apps/web/src/components/server-compose.tsx:107-117 | the state becomes `AfterChange` of the old one; the invariant holds; the announcement history gains `now` exactly when non-blank text on a channel arrives more than 4000 ms after the last announcement, and is unchanged otherwise |
| `Compose.ServerCompose.SetContent` | apps/web/src/components/server-compose.tsx:111 | only the content changes; the invariant and the history are kept |
| `Compose.ServerCompose.TimerFires` | apps/web/src/components/server-compose.tsx:85-87 | the state becomes `AfterTimer` of the old one; the invariant holds |
| `Strings.Trim` | apps/web/src/components/server-compose.tsx:112 | the trimmed text neither starts nor ends with whitespace |
| `Strings.TrimSlice` | apps/web/src/components/server-compose.tsx:112 | the trimmed text is the part of the input between a blank prefix and a blank suffix. With `Trim`'s own clauses, these are the longest such prefix and suffix |
| `Strings.TrimEmptyIffBlank` | apps/web/src/components/server-compose.tsx:91 | `trim()` is empty exactly when the text is all whitespace |
| `Strings.DecimalString` | apps/web/src/components/channel-view.tsx:93 | the rendering of a count is a non-empty string of digits without a leading zero |
| `Strings.DecimalRoundTrip` | apps/web/src/components/channel-view.tsx:93 | reading the rendered count back gives the count |
| `Presence.ConvertPresence` | apps/web/src/utils/convert-presence.ts:6-22 | no user or an unrecognised presence gives `"unknown"`; Online, Idle, Busy, Focus and Invisible give `"available"`, `"away"`, `"do-not-disturb"`, `"busy"` and `"offline"` (the badge status's `Name`) |
| `Presence.NamesDistinct` | apps/web/src/utils/convert-presence.ts:6-22 | distinct badge statuses have distinct names, so the datatype stands for the returned strings |
| `Presence.PresenceFor` | apps/web/src/utils/convert-presence.ts:8-18 | each known badge comes from a recognised presence |
| `Presence.PresenceRoundTrip` | apps/web/src/utils/convert-presence.ts:8-20 | apart from unknown, the mapping is one-to-one and `PresenceFor` inverts it |

The state invariant of the compose box (`Compose.Consistent`, part of
`ServerCompose.Valid`) says:
- typing and a pending timer exist only with a channel;
- every command names that channel;
- `isTyping` records whether the last typing command was an announcement;
- no stop is sent without a standing announcement.

`Valid` adds the ghost record of announcement times. Each announcement comes
more than 4000 ms after the previous one, and the first comes after time 0.

## Left out

- Rendering: JSX, Fluent UI components, styling, avatars, the `MessageComponent` layout and the locale date and time formatting. These are presentation only.
- The calendar breakdown of a timestamp in the local time zone. Each message carries its day as data.
- The floating-point minute division. The model compares integer milliseconds against 420000, which gives the same decisions for integer inputs.
- SDK plumbing: event subscription and unsubscription, the async fetch and send, login and connection. These are foreign calls. Their outcomes are inputs and their commands a log.
- Real timers and the clock. They are replaced by the `now` parameter and the timer deadline.
- The unmount clean-up of the compose box (apps/web/src/components/server-compose.tsx:47-57). It mirrors `stopTyping` except that it does not clear the timer reference.
- Interleavings of the async send with later keystrokes. `HandleSend` runs to completion in one step, so content typed while a send is in flight is not modelled.
- A change of the channel prop. Each view object models one channel. The source re-runs its effects and keeps the old timeline until the next fetch settles.
- Scroll measurement and auto-scroll, which read and write DOM geometry.
- The Enter-key handler, which only calls `handleSend`.
- The `recipient` memo and the empty-view branch of the conversation view. These only decide what is rendered.
- `servers.tsx`, routing, login form handling, navigation and icon wiring. These are UI glue outside the core.
- Sequences.Reverse: its own contract states only the length; element positions are stated by `Sequences.ReverseAt`.
