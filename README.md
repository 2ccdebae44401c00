# LiveTok core, modelled in Dafny

LiveTok connects a TikTok live stream to Minecraft and to browser overlay
screens. This project models its core and proves properties of that model.

The backend (`tiktokConnection/tiktokConnector.go`) keeps three pieces of state:
- the shared media queue `dataQueue`, which every overlay screen polls through `GET /data/:screen`;
- the text-to-speech queue `commentQueue`;
- the last heartbeat of every screen, `activeScreens`.

Gift events are routed to actions. Each action sends device commands and
enqueues a media item for its screen, but only while that screen is live.
When no gift entry matched, coin ranges run their actions' commands instead.
Chat messages from fan-club members are queued to be read aloud.

The dashboard contributes two parts:
- the config editor (`UI/src/app/config/page.tsx`): dotted-path action updates, adding and removing actions, command lists, the gift and coin-range lists, comma-separated action ids, and the media upload;
- the home page (`UI/src/app/page.tsx`), which shows the sorted distinct screens of all actions.

How the model is laid out:
- `Connector.Backend` is a class. Each HTTP or event handler is one method that changes its fields. Each such method is proved against the functions of `MediaQueue`, `GiftRouting` and `Comments`.
- Every handler is one atomic step. The current time is a parameter, in nanoseconds.
- Go strings that the backend measures in bytes are `seq<byte>`.
- The dashboard's JSON state is a `Json` value.
- The gift and coin-range entries are `EventsEditor`/`EventEntry` objects. Their row handlers assign into the shared entry objects in place.

Modules: `Wrappers`, `Text` (JavaScript `split`/`join`/`trim`, substring search, ASCII case folding), `Decimal` (decimal text and `parseInt`), `Lists`, `Json`, `GoConfig` (the structs of `config/config.go`), `MediaQueue`, `GiftRouting`, `Comments`, `Connector`, `ConfigPage`, `EventLists`, `HomePage`.

Two behaviours of the backend shape the model:
- The media queue is capped at `max_media_que_length` items per screen (tiktokConnection/tiktokConnector.go:285).
- A gift or coin action whose screen has not polled within ten seconds is skipped entirely, commands included (tiktokConnection/tiktokConnector.go:266-269).

## Model

| member | source | states |
|---|---|---|
| `Connector.Backend.constructor` | tiktokConnection/tiktokConnector.go:41-50 | the state after route setup: both queues empty, no screen seen |
| `Connector.Backend.ServeData` | tiktokConnection/tiktokConnector.go:78-106 | records `activeScreens[screen] := now` on every call. It succeeds iff some queued item names the screen. On success it returns the earliest such item and the queue becomes the other screens' items followed by the rest of this screen's. The length drops by exactly one, the multiset loses exactly the returned item, and every screen's subsequence keeps its order: screen's loses its head, others unchanged. Otherwise it returns "No data in queue" and the queue is unchanged |
| `Connector.Backend.OnChat` | tiktokConnection/tiktokConnector.go:234-250 | appends "<comment> dedi <username>", cut to `max_chars_tts` bytes, exactly when TTS is enabled in "fanClub" mode, the author is a fan and the queue is shorter than `max_comment_que_length`; otherwise the queue is unchanged; the length bound is preserved |
| `Connector.Backend.NextComment` | tiktokConnection/tiktokConnector.go:206-222 | FIFO pop: the head of the comment queue is returned and removed; an empty queue gives the empty line and stays empty |
| `Connector.Backend.OnGift` | tiktokConnection/tiktokConnector.go:253-337 | the nested gift, action and coin loops compute exactly `RouteGift`'s queue and sent commands; the old queue is a prefix of the new one; a queue within the per-screen cap stays within it |
| `GoConfig.ActionOf` | tiktokConnection/tiktokConnector.go:259 | a configured id gives its action; an unknown id gives Go's zero action (empty screen, no commands, empty media path) |
| `MediaQueue.OnScreen` | tiktokConnection/tiktokConnector.go:88-94 | the queue's items for screen s in queue order (the loop's `screenDatas`); its laws are the lemmas below |
| `MediaQueue.OffScreen` | tiktokConnection/tiktokConnector.go:88-94 | the queue's items for every other screen in queue order (the loop's `otherDatas`) |
| `MediaQueue.Dequeued` | tiktokConnection/tiktokConnector.go:97-100 | the queue after serving s: the other screens' items followed by s's items without the first; `DequeuedContents` and `DequeuedPerScreen` state what that means |
| `MediaQueue.Partition` | tiktokConnection/tiktokConnector.go:86-94 | the loop's two lists are exactly the screen's items and the other items, each in queue order |
| `MediaQueue.OnScreenAppend` | tiktokConnection/tiktokConnector.go:88-94 | selecting by screen distributes over concatenation, for both the screen's part and the rest |
| `MediaQueue.SplitByScreen` | tiktokConnection/tiktokConnector.go:88-94 | the two parts together hold exactly the queue's items (multiset and length) |
| `MediaQueue.ScreensOfParts` | tiktokConnection/tiktokConnector.go:89-93 | the screen's part holds only items of that screen, the other part none |
| `MediaQueue.OnScreenEmpty` | tiktokConnection/tiktokConnector.go:97 | the screen's part is empty iff no item names the screen, and then the other part is the whole queue |
| `MediaQueue.OnScreenOfOneScreen` | tiktokConnection/tiktokConnector.go:99-100 | selecting screen t from items all of screen s gives everything or nothing |
| `MediaQueue.OnScreenOfOffScreen` | tiktokConnection/tiktokConnector.go:100 | removing screen s's items leaves every other screen's subsequence as it was |
| `MediaQueue.FirstOnScreenIsEarliest` | tiktokConnection/tiktokConnector.go:98 | the head of the screen's part is the earliest queued item for that screen |
| `MediaQueue.DequeuedContents` | tiktokConnection/tiktokConnector.go:98-100 | serving a screen shortens the queue by one and removes exactly its earliest item |
| `MediaQueue.DequeuedPerScreen` | tiktokConnection/tiktokConnector.go:99-100 | after serving s, s's subsequence loses its head and every other screen's subsequence is unchanged |
| `MediaQueue.DequeuePreservesCap` | tiktokConnection/tiktokConnector.go:99-100 | serving never pushes a screen over the cap |
| `GiftRouting.IsLive` | tiktokConnection/tiktokConnector.go:263-266 | a screen is live iff it has a heartbeat and at most ten seconds (in nanoseconds) have passed since it |
| `GiftRouting.ItemFor` | tiktokConnection/tiktokConnector.go:287-297 | the queued item copies the action's type, media path, duration, volume, screen, the action id, both flags and the display text |
| `GiftRouting.Enqueue` | tiktokConnection/tiktokConnector.go:279-300 | the item is appended iff the screen has fewer than `max_media_que_length` queued items and the media path is non-empty; otherwise the queue is unchanged |
| `GiftRouting.RunAction` | tiktokConnection/tiktokConnector.go:259-302 | one action id: a screen that is not live skips it; otherwise its commands are sent in order and then `Enqueue` runs |
| `GiftRouting.RunActions` | tiktokConnection/tiktokConnector.go:258-303 | a gift entry's action ids run one after another, each on the state the previous left |
| `GiftRouting.GiftMatches` | tiktokConnection/tiktokConnector.go:256-257 | an entry matches iff it is enabled and its name equals the event's up to case |
| `GiftRouting.RunGifts` | tiktokConnection/tiktokConnector.go:254-308 | every gift entry in order; `found` is set by the first match and stays set |
| `GiftRouting.InRange` | tiktokConnection/tiktokConnector.go:311-312 | a coin range applies iff it is enabled and min <= diamonds <= max |
| `GiftRouting.CoinAction` | tiktokConnection/tiktokConnector.go:314-331 | one coin-range action id: a live screen's commands are sent; nothing is queued |
| `GiftRouting.CoinActions` | tiktokConnection/tiktokConnector.go:313-332 | a range's action ids run one after another |
| `GiftRouting.RunCoins` | tiktokConnection/tiktokConnector.go:310-336 | every applicable coin range in order |
| `GiftRouting.RouteGift` | tiktokConnection/tiktokConnector.go:253-337 | the gift loop, then the coin loop only when no gift entry matched; its laws are the lemmas below |
| `GiftRouting.RunActionsAppends` | tiktokConnection/tiktokConnector.go:258-303 | running a gift's action ids only appends; each new item is built from a listed action that is live and has a media path, and copies its fields and id; no screen grows past max(old count, cap) |
| `GiftRouting.RunGiftsAppends` | tiktokConnection/tiktokConnector.go:255-308 | the same over all gift entries; the found flag is set iff some enabled entry matches the name ignoring case; with no match nothing changes |
| `GiftRouting.RouteGiftAppends` | tiktokConnection/tiktokConnector.go:253-337 | a gift event keeps every existing item in place and only appends items admitted by a matching gift entry |
| `GiftRouting.RouteGiftRespectsCap` | tiktokConnection/tiktokConnector.go:279-287 | a screen at or below the cap stays at or below it; a screen already at or over the cap gets no new item |
| `GiftRouting.RouteGiftKeepsCap` | tiktokConnection/tiktokConnector.go:285 | a queue within the per-screen cap stays within it |
| `GiftRouting.RouteGiftCoinFallback` | tiktokConnection/tiktokConnector.go:309-337 | when a gift entry matched, the coin ranges are not consulted; otherwise the queue is unchanged and only coin-range commands are sent |
| `GiftRouting.CoinsOutsideRanges` | tiktokConnection/tiktokConnector.go:311-312 | coin ranges that are disabled or exclude the diamond count (bounds inclusive) send nothing |
| `GiftRouting.EqualFoldMatches` | tiktokConnection/tiktokConnector.go:256-257 | whether a gift entry matches depends on the name only up to case |
| `GiftRouting.RunGiftsFoldsCase` | tiktokConnection/tiktokConnector.go:255-308 | the gift loop gives the same result for two spellings of a name that differ only in case |
| `GiftRouting.RouteGiftIgnoresCase` | tiktokConnection/tiktokConnector.go:253-337 | a whole gift event routes identically for names equal up to case |
| `GiftRouting.SentFor` | tiktokConnection/tiktokConnector.go:263-276 | a command may be sent only as one of the commands of a listed action whose screen is live |
| `GiftRouting.RunActionsSendsLive` | tiktokConnection/tiktokConnector.go:258-303 | a gift entry's actions only append commands, each a command of a listed action whose screen is live |
| `GiftRouting.CoinActionsSendsLive` | tiktokConnection/tiktokConnector.go:313-332 | a coin range's actions only append commands, each a command of a listed action whose screen is live |
| `GiftRouting.RunActionsIdle` | tiktokConnection/tiktokConnector.go:263-269 | with no live screen a gift's actions change nothing |
| `GiftRouting.RunGiftsIdle` | tiktokConnection/tiktokConnector.go:255-308 | with no live screen the gift loop changes neither queue nor commands |
| `GiftRouting.CoinActionsIdle` | tiktokConnection/tiktokConnector.go:318-324 | with no live screen a coin range's actions send nothing |
| `GiftRouting.RunCoinsIdle` | tiktokConnection/tiktokConnector.go:310-336 | with no live screen the coin loop sends nothing |
| `GiftRouting.RouteGiftWithoutLiveScreen` | tiktokConnection/tiktokConnector.go:266 | when no screen has polled within ten seconds a gift event queues nothing and sends no command |
| `Comments.IsFanBadge` | tiktokConnection/tiktokConnector.go:345 | a badge counts iff its name contains "fans_badge_icon_lv" and not "_gray_" |
| `Comments.IsFanUser` | tiktokConnection/tiktokConnector.go:342-351 | the reference `IsFan` is proved against: the author and badge list exist and some badge counts |
| `Connector.SpeaksComment` | tiktokConnection/tiktokConnector.go:235-240 | a chat message is queued iff TTS is enabled, the mode is "fanClub", the author is a fan and the queue is below `max_comment_que_length` |
| `Comments.IsFan` | tiktokConnection/tiktokConnector.go:342-351 | true iff the author and badge list exist and some badge name contains "fans_badge_icon_lv" and not "_gray_" |
| `Text.ContainsAt` | tiktokConnection/tiktokConnector.go:345 | substring containment holds iff the pattern occurs at some position |
| `Comments.Truncate` | tiktokConnection/tiktokConnector.go:242-244 | the result has at most n bytes and is a prefix of the input; it is the input when that has at most n bytes, and exactly its first n bytes otherwise |
| `Comments.CommentLine` | tiktokConnection/tiktokConnector.go:241-244 | the queued line has at most `max_chars_tts` bytes and is a prefix of "<comment> dedi <username>"; it is all of it when that fits, and exactly its first `max_chars_tts` bytes otherwise |
| `ConfigPage.ActionIn` | UI/src/app/config/page.tsx:125 | the action under the id, or the empty object that spreading `undefined` gives |
| `ConfigPage.Head` | UI/src/app/config/page.tsx:128 | `parent`: the text before the first dot |
| `ConfigPage.Child` | UI/src/app/config/page.tsx:128 | `child`: the text between the first and the second dot |
| `ConfigPage.ParentFields` | UI/src/app/config/page.tsx:129-130 | `action[parent] || {}`, spread: the fields the nested update starts from |
| `ConfigPage.SetPath` | UI/src/app/config/page.tsx:124-133 | a dotted path replaces the parent by a spread copy with `child` set; a plain path sets the field; its laws are the lemmas below |
| `ConfigPage.UpdateAction` | UI/src/app/config/page.tsx:122-137 | nothing without a config; otherwise `SetPath` on the action under the id, which is then stored back |
| `ConfigPage.Field` | UI/src/app/config/page.tsx:127-133 | the value at a plain or dotted path of an action, or none; the update lemmas are stated with it |
| `ConfigPage.Indexed` | UI/src/app/config/page.tsx:129-130 | the spread of an array's or a string's elements: element i under the key `i.toString()` and no other key |
| `ConfigPage.Spread` | UI/src/app/config/page.tsx:129-130 | an object spreads to exactly its fields; an array or a string to its elements under their decimal indices and no other key; anything else to nothing; a field whose name is not a decimal index comes only from an object |
| `ConfigPage.SetPathThenField` | UI/src/app/config/page.tsx:127-133 | after the update, reading the same path gives the value written |
| `ConfigPage.SetPathKeepsOtherFields` | UI/src/app/config/page.tsx:125-133 | the action's field set grows by at most the path's first segment, and every other top-level field is kept |
| `ConfigPage.SetPathOtherField` | UI/src/app/config/page.tsx:127-133 | a path under a different top-level field reads the same before and after |
| `ConfigPage.SetPathSibling` | UI/src/app/config/page.tsx:128-130 | another key of the same parent reads the same before and after; when the parent is an array or a string, keys that are decimal indices are excepted |
| `Json.Falsy` | UI/src/app/config/page.tsx:312 | the values `||` replaces: `null`, `false`, `0` and the empty string |
| `ConfigPage.UpdateActionFrame` | UI/src/app/config/page.tsx:122-137 | with no config loaded nothing happens; otherwise only the action under the id changes, it is created if missing, the path reads the new value, and other actions and other config fields are kept |
| `ConfigPage.NewActionId` | UI/src/app/config/page.tsx:141 | `(number of actions + 1).toString()` |
| `ConfigPage.AddAction` | UI/src/app/config/page.tsx:139-154 | as written: the default action under `NewActionId`, with no check that the id is free |
| `ConfigPage.RemoveAction` | UI/src/app/config/page.tsx:156-161 | nothing without a config; otherwise `delete` of the key |
| `ConfigPage.AddActionWrites` | UI/src/app/config/page.tsx:139-154 | with no config nothing happens; otherwise the key `(count + 1)` gets the default action (screen "1", no commands, video, empty path, "10s", volume 0.5, both flags true, empty text) and every other action is kept |
| `ConfigPage.AddActionOverwritesAfterRemoval` | UI/src/app/config/page.tsx:141 | with only action "2" left, adding an action picks "2" and replaces it instead of adding one |
| `ConfigPage.AddActionCollides` | UI/src/app/config/page.tsx:139-154 | for every config whose count-based id is taken, adding replaces that action by the default one, the number of actions stays the same and the rest of the config is kept |
| `ConfigPage.TakenShrinks` | UI/src/app/config/page.tsx:141 | the set of numeric keys at or above n shrinks strictly once n itself is passed |
| `ConfigPage.FreshFrom` | UI/src/app/config/page.tsx:141 | the least number from n up whose decimal text is not a key |
| `ConfigPage.FreshActionId` | UI/src/app/config/page.tsx:141 | the corrected id is never an existing key |
| `ConfigPage.AddActionFresh` | UI/src/app/config/page.tsx:139-154 | as intended: the default action under `FreshActionId` |
| `ConfigPage.AddActionFreshAdds` | UI/src/app/config/page.tsx:139-154 | the corrected add creates exactly one new action with the defaults and keeps all others; removing the new id gives the old config back |
| `ConfigPage.AddActionFreshAgrees` | UI/src/app/config/page.tsx:141 | where the count-based id is free the corrected and the written add agree |
| `ConfigPage.RemoveActionDrops` | UI/src/app/config/page.tsx:156-161 | with no config nothing happens; otherwise exactly the key `id` is deleted and every other action and config field is kept |
| `ConfigPage.CommandsOf` | UI/src/app/config/page.tsx:312 | `action.commands || []` for an array, a false value or an absent field |
| `ConfigPage.AddCommand` | UI/src/app/config/page.tsx:311-313 | the command list with "" appended, written through `updateAction` |
| `ConfigPage.EditCommand` | UI/src/app/config/page.tsx:327-330 | the command list with element i replaced, written through `updateAction` |
| `ConfigPage.RemoveCommand` | UI/src/app/config/page.tsx:335-337 | the command list without element i, written through `updateAction` |
| `ConfigPage.SetCommands` | UI/src/app/config/page.tsx:313 | writing the command list stores it and keeps the action's other fields |
| `ConfigPage.AddCommandAppends` | UI/src/app/config/page.tsx:311-313 | adding a command appends "" and keeps the other fields |
| `ConfigPage.EditCommandReplaces` | UI/src/app/config/page.tsx:327-330 | editing command i replaces element i only |
| `ConfigPage.RemoveCommandDrops` | UI/src/app/config/page.tsx:335-337 | deleting command i removes exactly that element and keeps the order of the rest |
| `ConfigPage.DetectType` | UI/src/app/config/page.tsx:98 | "image" iff the MIME type starts with "image/", "video" iff it starts with "video/", "none" iff neither |
| `ConfigPage.PlayMediaField` | UI/src/app/config/page.tsx:108-110 | the dotted path of a field of `play_media` |
| `ConfigPage.UploadAsWritten` | UI/src/app/config/page.tsx:106-111 | as written: both updates start from the same captured config and the later one wins |
| `ConfigPage.Upload` | UI/src/app/config/page.tsx:106-111 | as intended: the type update starts from the config with the new path |
| `ConfigPage.UploadAsWrittenLosesUrl` | UI/src/app/config/page.tsx:106-111 | as written, a successful upload of an image or a video leaves `media_path` as it was, so an action without one does not get the uploaded URL |
| `ConfigPage.UploadStores` | UI/src/app/config/page.tsx:106-111 | as intended, a successful upload stores the URL as `media_path`, stores the detected type unless it is "none" (then the type is left as it was), keeps the action's other fields, every other key of `play_media` (decimal-index keys excepted when `play_media` is an array or a string), every other action and the rest of the config; a failed upload changes nothing |
| `ConfigPage.UploadKeepsKey` | UI/src/app/config/page.tsx:106-111 | a successful upload reads the same as before at every other `play_media` key (decimal-index keys excepted when `play_media` is an array or a string) |
| `ConfigPage.SpreadsBySequence` | UI/src/app/config/page.tsx:129-130 | the action's `play_media` is an array or a string, so its spread makes decimal-index keys |
| `ConfigPage.UploadKeepsOtherActions` | UI/src/app/config/page.tsx:106-111 | a successful upload changes only the action under the id (creating it if missing) and keeps every other action and the rest of the config |
| `ConfigPage.UploadKeepsPlaybackSettings` | UI/src/app/config/page.tsx:106-111 | in particular `play_media.max_duration` and `play_media.volume` survive an upload |
| `Lists.DropIndex` | UI/src/app/config/page.tsx:336 | `filter((_, i) => i !== idx)` |
| `Lists.DropIndexRemovesOne` | UI/src/app/config/page.tsx:336 | `filter((_, i) => i !== idx)` removes exactly element idx and keeps the order; an index outside the list removes nothing |
| `Text.Contains` | tiktokConnection/tiktokConnector.go:345 | `strings.Contains`: the pattern occurs somewhere in the text |
| `Text.StartsWith` | UI/src/app/config/page.tsx:98 | `startsWith`: the pattern is a prefix |
| `Text.Join` | UI/src/app/config/page.tsx:428 | `join`: the pieces with the separator between each two |
| `Text.Trim` | UI/src/app/config/page.tsx:432 | `trim`: white space removed at both ends |
| `Text.EqualFold` | tiktokConnection/tiktokConnector.go:257 | `strings.EqualFold`, with ASCII case folding |
| `Text.Split` | UI/src/app/config/page.tsx:432 | splitting gives at least one piece, and at least two when the separator occurs |
| `Text.SplitPiecesAreSeparatorFree` | UI/src/app/config/page.tsx:432 | no piece of a split contains the separator |
| `Text.JoinSplit` | UI/src/app/config/page.tsx:428 | joining the pieces of a split with the separator gives the text back |
| `Text.TrimPadded` | UI/src/app/config/page.tsx:432 | trimming strips exactly the surrounding white space of a trimmed core |
| `Text.TrimShape` | UI/src/app/config/page.tsx:432 | a trimmed result is the input minus a white-space prefix and suffix, with no white space at either end |
| `EventLists.Clean` | UI/src/app/config/page.tsx:432 | `.map(i => i.trim()).filter(i => i)`: every piece trimmed, empty ones dropped, order kept |
| `EventLists.ParseActionIds` | UI/src/app/config/page.tsx:432 | split on ",", then `Clean` |
| `EventLists.CleanShape` | UI/src/app/config/page.tsx:432 | the pieces kept after trimming and dropping empties are non-empty, trimmed and comma-free |
| `EventLists.ParsedIdsAreIds` | UI/src/app/config/page.tsx:508 | every parsed action id is non-empty, trimmed and comma-free |
| `EventLists.ParseJoinedAfter` | UI/src/app/config/page.tsx:504-508 | ids joined by a comma plus white space, after any white-space prefix, parse back to the same ids in order |
| `EventLists.ParseShownIds` | UI/src/app/config/page.tsx:428-432 | the id list shown as `join(",")` (gifts) or `join(", ")` (coin ranges) parses back to itself |
| `EventLists.ParseAcrossComma` | UI/src/app/config/page.tsx:432 | parsing keeps order: the ids of "a,b" are the ids of a followed by those of b |
| `EventLists.EventEntry.GiftDefault` | UI/src/app/config/page.tsx:396 | a new gift entry is rose, id 1, no actions, enabled |
| `EventLists.EventEntry.CoinDefault` | UI/src/app/config/page.tsx:470 | a new coin range is 1 to 10, no actions, enabled |
| `EventLists.EventsEditor.AddGift` | UI/src/app/config/page.tsx:395-397 | appends a fresh gift entry (rose, id 1, no actions, enabled, no coin bounds) and keeps the others |
| `EventLists.EventsEditor.AddCoin` | UI/src/app/config/page.tsx:469-471 | appends a fresh coin range (1 to 10, no actions, enabled, no gift name or id) and keeps the others |
| `EventLists.EventsEditor.RemoveGift` | UI/src/app/config/page.tsx:449-451 | removes exactly gift row idx, the others keep their order |
| `EventLists.EventsEditor.RemoveCoin` | UI/src/app/config/page.tsx:519-521 | removes exactly coin row idx, the others keep their order |
| `EventLists.EventsEditor.SetGiftName` | UI/src/app/config/page.tsx:417-420 | the entry object at idx gets the name, in place; both lists and all five other fields of the entry are kept |
| `EventLists.EventsEditor.SetGiftActionIds` | UI/src/app/config/page.tsx:430-433 | the entry at idx gets the parsed ids, in place; both lists and all five other fields of the entry are kept |
| `EventLists.EventsEditor.SetGiftEnabled` | UI/src/app/config/page.tsx:442-445 | the entry at idx gets the checkbox state, in place; both lists and all five other fields of the entry are kept |
| `EventLists.EventsEditor.SetMinCoin` | UI/src/app/config/page.tsx:484-487 | the range at idx gets `parseInt` of the text as its lower bound, in place; both lists and all five other fields of the range are kept |
| `EventLists.EventsEditor.SetMaxCoin` | UI/src/app/config/page.tsx:493-496 | the range at idx gets `parseInt` of the text as its upper bound, in place; both lists and all five other fields of the range are kept |
| `EventLists.EventsEditor.SetCoinActionIds` | UI/src/app/config/page.tsx:506-509 | the range at idx gets the parsed ids, in place; both lists and all five other fields of the range are kept |
| `EventLists.EventsEditor.SetCoinEnabled` | UI/src/app/config/page.tsx:514-517 | the range at idx gets the checkbox state, in place; both lists and all five other fields of the range are kept |
| `Decimal.NatToString` | UI/src/app/config/page.tsx:141 | `toString` of a count is a non-empty digit string without a leading zero |
| `Decimal.NatToStringRoundTrip` | UI/src/app/config/page.tsx:141 | the value of a number's decimal text is the number |
| `Decimal.NatToStringInjective` | UI/src/app/config/page.tsx:141 | distinct numbers have distinct decimal texts |
| `Decimal.ParseInt` | UI/src/app/config/page.tsx:486 | `parseInt`: optional white space and sign, then the leading digits; `None` (for `NaN`) when there are none |
| `Decimal.IntToString` | UI/src/app/config/page.tsx:484 | the text a number input shows for an integer: an optional minus sign, then digits, never starting with white space |
| `Decimal.ParseIntRoundTrip` | UI/src/app/config/page.tsx:486 | `parseInt` of an integer's decimal text gives the integer back |
| `HomePage.LessEq` | UI/src/app/page.tsx:22 | the default `sort` order on strings |
| `HomePage.Dedup` | UI/src/app/page.tsx:16-18 | `[...new Set(xs)]`: each element at its first occurrence |
| `HomePage.Insert` | UI/src/app/page.tsx:22 | inserting into a sorted list at the first place the order allows |
| `HomePage.Sort` | UI/src/app/page.tsx:22 | `sort()`, as insertion sort; `SortSorts` states what it gives |
| `HomePage.NextScreens` | UI/src/app/page.tsx:15-23 | the screen list after `fetchScreens`; `NextScreensSpec` states what it gives |
| `HomePage.LessEqTotal` | UI/src/app/page.tsx:22 | the default string order compares any two strings |
| `HomePage.LessEqTransitive` | UI/src/app/page.tsx:22 | the default string order is transitive |
| `HomePage.DedupElements` | UI/src/app/page.tsx:16-18 | `new Set` keeps every screen, adds none, and has no repeats |
| `HomePage.InsertPermutes` | UI/src/app/page.tsx:22 | inserting adds exactly the one element |
| `HomePage.InsertSorted` | UI/src/app/page.tsx:22 | inserting into a sorted list keeps it sorted |
| `HomePage.SortSorts` | UI/src/app/page.tsx:22 | `sort()` orders the list and is a permutation of it |
| `HomePage.SortKeepsNoDup` | UI/src/app/page.tsx:22 | sorting a list without repeats gives a list without repeats |
| `HomePage.NextScreensSpec` | UI/src/app/page.tsx:15-23 | with no actions or no screens the previous list stays; otherwise the list is sorted, has no repeats, and holds a string iff some action names it as its screen |
| `HomePage.InitialScreensSorted` | UI/src/app/page.tsx:9 | the initial list ["1", "2"] is sorted without repeats and is kept by a config whose actions name no screen |

## Left out

- The overlay playback scheduler (UI/src/app/screen/[id]/page.tsx): it is not part of this model.
- Go concurrency: the mutexes, the goroutines `readCommentsQue` and `listen`, and the 200 ms sleep are left out. Each handler is modelled as one atomic step, so the unlocked read of `dataQueue` before the lock in `/data/:screen` is not modelled.
- I/O is left out: the HTTP routes, CORS and static files, reading and writing `data.json` (`/config`, `/updateData`, `LoadConfig`), saving uploads, and starting the TikTok tracker (`/start`). The dashboard's `fetch` calls and rendering are left out too. The config is a parameter; the clock is a parameter `now` in nanoseconds.
- External calls are left out: `speak` (the TTS service), `minecraftCommandManager.SendCommand` and the `gotiktoklive` event source. The commands a gift sends are returned as a list instead of being sent. A command that fails to send changes nothing in the source, so the model loses nothing there.
- `Connector.Backend.NextComment`: the speaking loop skips an empty line; the model returns it and leaves speaking out.
- `Text.EqualFold`, `GiftRouting.EqualFoldMatches`, `GiftRouting.GiftMatches`, `GiftRouting.RunGiftsFoldsCase`, `GiftRouting.RouteGiftIgnoresCase`: `strings.EqualFold` is modelled as ASCII case folding, not full Unicode simple folding.
- `Connector.Backend.OnChat`: it requires a non-negative `max_chars_tts` whenever a comment would be queued, because the Go slice panics for a negative bound.
- `Decimal.ParseIntRoundTrip`: `parseInt` is modelled for optional white space, a sign and decimal digits. The `0x` prefix and radix handling are left out, and `NaN` is `None`. Numbers are exact integers, not doubles, so the round trip is claimed for every integer; in JavaScript it fails from 10^21 up, where `toString` switches to exponent form ("1e+21" parses back as 1).
- `Decimal.ParseInt`: the result is the exact value of the digits; JavaScript rounds it to the nearest double, which differs beyond 2^53.
- `Decimal.IntToString`: it writes every integer in plain decimal; JavaScript writes magnitudes from 10^21 up in exponent form.
- Volumes are floating-point and are carried as opaque `real` values; nothing is proved about them.
- `HomePage.SortSorts`: strings are compared by Unicode code point, while JavaScript compares UTF-16 code units. The two orders differ only above U+FFFF.
- `ConfigPage.Spread`: a spread string gives one field per Unicode code point, while JavaScript gives one per UTF-16 code unit.
- `ConfigPage.UploadStores`, `ConfigPage.UploadKeepsKey`: when `play_media` is an array or a string, the other `play_media` keys are stated kept only when they are not decimal indices, for the reason given for `SetPathSibling` below.
- `ConfigPage.SetPathSibling`: when the parent field holds an array or a string, the spread turns its elements into decimal-index keys. For such a parent the frame is stated only for sibling keys that are not decimal indices.
- `ConfigPage.RemoveCommandDrops`, `ConfigPage.AddCommandAppends`, `ConfigPage.EditCommandReplaces`: a `commands` field that is neither an array, a false value nor absent is out of scope (`HasCommandList`). JavaScript would spread a non-empty string's characters there.
- The home page's screens are taken as strings; an action without a `screen` field (its `undefined` in the set) is not modelled.
- `config/config.go` is mirrored as datatypes only. JSON decoding into zero values is not modelled.
- The follow event, `gift_id`, `key`, `server_url`, `port` and the TTS voice are carried in the datatypes; no handler in the modelled core reads them.

## Findings

| source | as written | input that shows it | evidently intended | confidence | as-written member | corrected member |
|---|---|---|---|---|---|---|
| UI/src/app/config/page.tsx:106-111 | Both `updateAction` calls build their new config from the same `config` captured when the handler was created, and the later `setConfig` wins. | Action "1" is `{}`; upload a file of type "image/png" (any "image/" or "video/" type) with reply `{status: "success", url: U}`; afterwards `play_media.media_path` is not U. | Store the URL and the detected type together. | not executed | `ConfigPage.UploadAsWrittenLosesUrl` (about `ConfigPage.UploadAsWritten`) | `ConfigPage.UploadStores` (about `ConfigPage.Upload`) |
| UI/src/app/config/page.tsx:141 | The new action id is `(number of actions + 1).toString()` and is written without checking whether it is taken. | Actions `{"2": X}` (after "1" was removed); `addAction` writes key "2", replacing X, and the count stays 1. | Give the new action an id that is not in use. | not executed | `ConfigPage.AddActionOverwritesAfterRemoval` (about `ConfigPage.AddAction`) | `ConfigPage.AddActionFreshAdds` (about `ConfigPage.AddActionFresh`) |
