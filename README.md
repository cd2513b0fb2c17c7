# Multi-Lives YouTube dashboard — a Dafny model

Multi-Lives is a single-page dashboard for watching several YouTube live
streams side by side. The user keeps a list of curated channels in a sidebar.
Each channel is a video id plus a title, a thumbnail and the text the user
pasted. Channels are placed on a grid of at most nine player slots, by button
or by drag and drop, and each slot has play, mute and volume controls.

This project models the core of `app.js`:

- **`YouTubeId`** (`youtube_id.dfy`): `extractYouTubeId`. The input is
  trimmed as JavaScript's `trim` does. Then five regular expressions are
  tried in order: a bare id, a `?v=`/`&v=` query key, a `youtu.be/` short
  link, an `/embed/` path, and an id at the end of the string. Each
  expression is written as a fixed sequence of character classes, searched
  leftmost-first as `String.prototype.match` does.
- **`GridLayout`** (`grid_layout.dfy`): `decideGridClass`, the CSS layout
  class for a slot count.
- **`Players`** (`players.dfy`): the embedded player, as an abstract record.
  It holds a handle, the video, whether it is playing, whether it is muted,
  and the volume. This module has the three slot controls and the
  reconciliation step of `initPlayersForGrid`, as a recursive function over
  the slot indices.
- **`Dashboard`** (`dashboard.dfy`): the application state as a class
  `AppState`. Its fields are `channelData`, `gridSlots`, `players` and
  `nextHandle`, the handle the next constructed player gets. Its methods
  are the event handlers: add channel, remove channel with its cascade to
  the grid, `addToGrid`, remove slot, the drop handler, `cleanupPlayers`,
  `initPlayersForGrid` and the slot controls.
  - `Valid()` is kept by every handler. It says the grid has at most
    `MaxSlots` slots and shows no video twice. It also says every player
    sits at a slot index, plays that slot's video, and is shared with no
    other slot.
  - `InitPlayersForGrid` is a loop proved against `Players.Reconcile`.
  - A short session (`DuplicateThenCascade`) calls several handlers in
    turn, and each asserted outcome is proved.
- **`Wrappers`** (`wrappers.dfy`): the `Option` type. `None` models
  JavaScript's `null` and a dismissed prompt.

The browser dialogs become inputs and outcomes:

- A `prompt` result is an `Option<string>`.
- Confirming a deletion is a `bool`.
- Each `alert` is an outcome value, such as `AlreadyInGrid` or `GridFull`.
- The set of player containers present in the page is an input to
  `InitPlayersForGrid`.

## Model

| member | source | states |
|---|---|---|
| YouTubeId.IsJsWhitespace | app.js:40 | the characters `trim` removes: the ECMAScript WhiteSpace and LineTerminator code points |
| YouTubeId.IsIdChar | app.js:41 | the character class `[a-zA-Z0-9_-]`: ASCII letters of both cases, digits, `_` and `-` |
| YouTubeId.IdRunAt | app.js:41-45 | `[a-zA-Z0-9_-]{11}` matches from a position: 11 characters of the class follow it within the string |
| YouTubeId.IsId | app.js:41 | `/^[a-zA-Z0-9_-]{11}$/.test(s)`: the whole string is exactly 11 characters of the class |
| YouTubeId.QueryKey | app.js:42 | the literal part `[?&]v=`: one of `?` or `&`, then `v`, then `=` |
| YouTubeId.ShortLink | app.js:43 | the literal part `youtu\.be\/`: the nine characters `youtu.be/` |
| YouTubeId.EmbedPath | app.js:44 | the literal part `\/embed\/`: the seven characters `/embed/` |
| YouTubeId.LeadingSpace | app.js:40 | the number of whitespace characters `trim` removes from the front: all of them are whitespace, and the next character is not |
| YouTubeId.TrailingSpace | app.js:40 | the same count for the end of the string |
| YouTubeId.Trim | app.js:40 | the result is the slice of the input after the leading whitespace; everything after it is whitespace; it neither starts nor ends with whitespace |
| YouTubeId.TrimUnchanged | app.js:40 | a string with no whitespace at either end is returned unchanged by trim |
| YouTubeId.MatchAt | app.js:42-44 | an expression made of a literal prefix followed by `([a-zA-Z0-9_-]{11})` matches at a position: each prefix character lies in its class and 11 id characters follow |
| YouTubeId.EndsWithId | app.js:45 | `([a-zA-Z0-9_-]{11})$` matches: the string has at least 11 characters and the last 11 are id characters |
| YouTubeId.FindFrom | app.js:42-45 | the leftmost search of `match`: a returned position matches and no earlier position does; `None` means no position matches |
| YouTubeId.FirstCapture | app.js:42-44 | a capture group, when found, is an 11-character id that occurs in the searched string |
| YouTubeId.FirstCaptureIsLeftmost | app.js:42-44 | when the pattern first matches at `i`, the capture is the 11 characters after the pattern's literal part |
| YouTubeId.ExtractFromTrimmed | app.js:41-46 | any result of the five rules is an id that occurs in the trimmed text |
| YouTubeId.ExtractYouTubeId | app.js:38-47 | `null` or empty input gives `None`; any result is a canonical 11-character id that occurs in the trimmed input |
| YouTubeId.BareIdRule | app.js:41 | rule 1: a trimmed input that is exactly an id is returned as it is |
| YouTubeId.QueryRule | app.js:42 | rule 2: if the input is not a bare id, the first `?v=` or `&v=` followed by an id decides the result |
| YouTubeId.ShortLinkRule | app.js:43 | rule 3: if rule 2 finds nothing, the first `youtu.be/` followed by an id decides the result |
| YouTubeId.EmbedRule | app.js:44 | rule 4: if rules 2 and 3 find nothing, the first `/embed/` followed by an id decides the result |
| YouTubeId.TrailingRule | app.js:45 | rule 5: if rules 2 to 4 find nothing, the last 11 characters, when they are id characters, are the result |
| YouTubeId.ExtractFailsIff | app.js:41-46 | the extractor returns `None` exactly when none of rules 2 to 5 applies to the trimmed input |
| YouTubeId.BareIdRuleRedundant | app.js:41-45 | an id is too short for rules 2 to 4, and rule 5 returns the id itself, so rule 1 never changes the outcome |
| YouTubeId.ExtractIsCanonical | app.js:38-47 | an extracted id extracts to itself (idempotence) |
| YouTubeId.ExtractedFromInput | app.js:38-47 | an extracted id is a contiguous piece of the raw, untrimmed input |
| YouTubeId.BareIdShape | app.js:41 | a bare id extracts to itself |
| YouTubeId.WatchUrlShape | app.js:42 | `https://www.youtube.com/watch?v=<id>` extracts to `<id>` |
| YouTubeId.ShortUrlShape | app.js:43 | `https://youtu.be/<id>` extracts to `<id>` |
| YouTubeId.EmbedUrlShape | app.js:44 | `https://www.youtube.com/embed/<id>` extracts to `<id>` |
| YouTubeId.TrailingIdShape | app.js:45 | `https://www.youtube.com/live/<id>` extracts to `<id>` through the end-of-string rule |
| YouTubeId.ShortUrlExample | app.js:43 | `https://youtu.be/dQw4w9WgXcQ` extracts to `dQw4w9WgXcQ` |
| GridLayout.DecideGridClass | app.js:84-90 | the result is one of the five layout classes |
| GridLayout.GridClassByCount | app.js:84-90 | each class is chosen exactly for its counts: 1, 2, 3–4, 5–6, and 0 or 7 and more for `cols-6` |
| GridLayout.GridClassMonotone | app.js:84-90 | for one or more slots, more slots never give a class with fewer columns |
| GridLayout.GridClassExamples | app.js:84-90 | the class for 1, 2, 3, 5 and 7 slots |
| Players.Created | app.js:146-152 | a newly constructed player once `onReady` has run: it has the given handle and video, is playing, is muted by `mute: 1`, and has volume 100 |
| Players.LoadVideo | app.js:144 | `loadVideoById`: the same player switches to the video and plays; handle, mute state and volume are kept |
| Players.Rebind | app.js:141-144 | a kept player keeps its handle, mute state and volume and ends on the slot's video; it is untouched when that video is already loaded |
| Players.TogglePlay | app.js:165-170 | the playing state flips and nothing else changes |
| Players.ToggleMute | app.js:172-176 | the mute state flips and nothing else changes |
| Players.SetVolume | app.js:178-183 | the volume becomes `v`; the player is muted exactly when `v` is not positive; nothing else changes |
| Players.TogglePlayTwice | app.js:165-170 | two play toggles restore the player |
| Players.ToggleMuteTwice | app.js:172-176 | two mute toggles restore the player |
| Players.SetVolumeLastWins | app.js:178-183 | two volume settings leave the player as the last one alone would |
| Players.VolumeZeroThenPositive | app.js:182 | volume 0 mutes; a positive volume afterwards unmutes |
| Players.ReconcileSlot | app.js:141-154 | one slot index with a container: the index gets a player on the slot's video, the other entries are kept; an existing player is rebound and the handle counter stays; otherwise a new player takes the next handle and the counter advances |
| Players.Reconcile | app.js:137-156 | the `forEach` over the slots from an index on: the handle counter never decreases, and afterwards the map's indices are the old ones plus every visited slot index with a container |
| Players.BoundPlayerNeedsNoReload | app.js:141-144 | when every player plays its own slot's video, rebinding a player leaves it unchanged |
| Players.ReconcileAt | app.js:137-156 | after reconciliation, every visited slot index with a container has a player on its slot's video; a player that was there is kept and rebound; otherwise a new player with a fresh handle playing muted at volume 100; every other index keeps what it had |
| Players.ReconcileKeepsBound | app.js:137-156 | reconciliation keeps every player on its slot's video and keeps handles distinct |
| Dashboard.MaxSlots | app.js:2 | `MAX_SLOTS`: the grid holds at most 9 slots |
| Dashboard.ThumbUrl | app.js:192 | the thumbnail URL is `https://i.ytimg.com/vi/`, then the video id, then `/hqdefault.jpg`, so the id can be read back and distinct ids give distinct URLs |
| Dashboard.NewChannel | app.js:192-197 | the added record: the id, the title `Live <id>` (never empty), the thumbnail URL of the id, and the raw prompt text |
| Dashboard.HasChannel | app.js:191 | `channelData.some(c => c.id === id)` |
| Dashboard.InGrid | app.js:124 | `gridSlots.some(g => g.vid === vid)` |
| Dashboard.FindChannel | app.js:126 | `find`: the index of the first channel with the id, `None` exactly when there is none |
| Dashboard.SlotTitle | app.js:126-127 | the new slot's label is the title of the first channel with the id when that title is non-empty, and the video id when there is no such channel or its title is empty |
| Dashboard.Splice | app.js:70 | `splice(i, 1)`: entry `i` is deleted, earlier entries stay and later ones move down by one; an index past the end changes nothing |
| Dashboard.WithoutVideo | app.js:71 | `filter`: no remaining slot shows the video, every remaining slot was in the grid, and every slot with another video remains |
| Dashboard.WithoutAbsentVideo | app.js:71 | filtering a video the grid does not show leaves the grid as it is |
| Dashboard.WithoutPresentVideo | app.js:71 | on a grid without repeated videos, filtering deletes exactly the one slot showing that video |
| Dashboard.SpliceKeepsVidsUnique | app.js:111 | deleting a slot keeps the grid's videos distinct |
| Dashboard.SpliceKeepsIdsUnique | app.js:70 | deleting a channel keeps the registry's ids distinct |
| Dashboard.WithoutVideoKeepsVidsUnique | app.js:71 | filtering keeps the grid's videos distinct |
| Dashboard.AppState.constructor | app.js:9-11 | start-up: the saved channel list, an empty grid and no players |
| Dashboard.AppState.AddChannel | app.js:188-199 | a dismissed or empty prompt: cancelled; no id: invalid; a known id: already added; otherwise the record `Live <id>` with its thumbnail URL and the raw input is appended; grid and players untouched; distinct ids stay distinct |
| Dashboard.AppState.RemoveChannel | app.js:66-73 | unless confirmed, nothing changes; after confirmation, entry `i` is deleted, every slot showing the clicked channel's id is dropped, and all players are torn down |
| Dashboard.AppState.RemoveSlot | app.js:110-111 | slot `idx` is deleted and all players are torn down |
| Dashboard.AppState.AddToGrid | app.js:123-129 | the duplicate check comes first, then the nine-slot cap; only when both pass is a slot with the channel's title appended |
| Dashboard.AppState.Drop | app.js:210-216 | an index that is not a channel does nothing; otherwise the outcome and new grid are those of `addToGrid` for that channel's id |
| Dashboard.AppState.CleanupPlayers | app.js:185 | the player map is emptied and the rest of the state is untouched |
| Dashboard.AppState.InitPlayersForGrid | app.js:137-156 | the new map and handle counter are the reconciliation of the old ones; every slot with a container has a player on its video; old players keep their handles; new players get fresh handles |
| Dashboard.AppState.TogglePlay | app.js:165-170 | the player at `idx` toggles its playing state; with no player, nothing changes |
| Dashboard.AppState.ToggleMute | app.js:172-176 | the player at `idx` toggles its mute state; with no player, nothing changes |
| Dashboard.AppState.SetVolume | app.js:178-183 | the player at `idx` takes the volume and the matching mute state; with no player, nothing changes |

## Left out

- Loading the channel list from the `list` query parameter, and the cookie that stores the list (app.js:13-35), are I/O. The saved list is the constructor's input instead.
- The share link (app.js:202-206) is clipboard and URL I/O.
- Rendering is not modelled: the sidebar, the grid slots and labels, the button glyphs and `updatePlayButton` (app.js:50-81, 92-120, 158-163). `renderGrid` calls `initPlayersForGrid` once the API is ready. That call is the separate method `InitPlayersForGrid`, whose input is the set of slot indices that have a player container. DOM nodes that a shorter grid leaves behind appear only through that set.
- The YouTube API readiness promise (app.js:132-135) and the asynchronous `onReady` and `onStateChange` callbacks (app.js:149-152) are left out. A newly created player is modelled as already playing, muted, at volume 100, which is the state `onReady` and `mute: 1` give it.
- Players.SetVolume: the player's own clamping of out-of-range volumes is not modelled, because it belongs to the external player. The slider only produces 0 to 100.
- Players.TogglePlay: the player state is reduced to playing or not. Buffering, cued and ended count as not playing, as the `PLAYING` comparison in app.js:168 treats them.
- Players.ToggleMute: the page reads the live player through `getPlayerState()` and `isMuted()` (app.js:167, 175), and the viewer can also pause, mute or change the volume through the embed's own controls (`controls: 1`, app.js:148). In the model, playback, mute state and volume change only through the dashboard's handlers, so `TogglePlay` and `ToggleMute` flip the record's own flag.
- Dashboard.AppState.CleanupPlayers: the `destroy()` call on each player is a foreign call and is not modelled. Only the emptied map is.
- Dashboard.AppState.Drop: the `Number()` conversion of the drag payload is not modelled. The handler takes the converted number; a NaN or a fraction behaves like any other index that is not a channel. `Number("")` is 0, so a drop whose text payload is empty or only whitespace (a drag that did not start at a sidebar row) offers channel 0 to the grid (app.js:212-213). In the model that is the call `Drop(0)`.
- Distinct channel ids are proved to be preserved by the handlers, not assumed. A list loaded from the query parameter or the cookie is not checked for repeated ids, and neither is the model's constructor.
- `loadVideoById` is modelled as switching the video and starting playback, keeping the mute state and volume. The external player's other internal state is not modelled.
- Dashboard.AppState.InitPlayersForGrid: in the model a player's video changes only through the dashboard's own handlers. Every handler that moves videos between slot indices (app.js:70-72, 111) empties the player map right after changing the grid, before any player is reconciled again, so on every state `Valid()` admits the `loadVideoById` branch (app.js:143-144) is never taken (`Players.BoundPlayerNeedsNoReload`). In the page that test succeeds only when the viewer changed the video inside the embed, through the player's own controls (`controls: 1`, app.js:148). Such outside changes are not modelled, so the reload is proved only for arbitrary maps, in `Players.ReconcileAt` and `Players.ReconcileSlot`.
