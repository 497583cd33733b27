# Reading helper: verified model of its state and text rules

The reading helper is a browser application. A child reads a story. A tap on
a word speaks it and counts it as a "tricky word". A long press shows the word
split into syllables. A dashboard lists the most-tapped words. A peer-to-peer
link lets two devices chat and exchange data. This project models the parts of
the application that hold decisions and state. It proves what they promise.

- `peer_service.dfy` (`PeerService`) is the transport adapter over the
  peer-to-peer library. It holds the peer handle and the list of data
  connections, and it reports every change of the connection count. It builds
  host ids, fans data out to the open connections, and tears a session down.
- `peer_connection_modal.dfy` (`PeerConnectionModal`) is the connection dialog.
  It covers the local identity, the directory of recent peers, the filtered
  peer list, the identity handshake and message dispatch, and the guards that
  start hosting or joining.
- `story_manager.dfy` (`StoryManager`) is the store of user-written stories: a
  list keyed by `id` with upsert, delete and lookup.
- `reader_syllables.dfy` (`Syllables`) is the syllable heuristic
  `getSyllables`.
- `reader_story.dfy` (`StoryText`) is the tokenisation in `renderStory`. It
  models the regular-expression split with a capturing group, and the
  classification of each piece as an image, a word or plain text.
- `reader_stats.dfy` (`WordStats`) holds the tricky-word counter and the
  dashboard's descending, stable sort.
- `reader.dfy` (`ReaderApp`) is the reading screen. It holds the syllable
  pop-up and the tap-versus-long-press state machine over `pressTimer`,
  `isLongPress`, `popupWasShown` and the active word, and it keeps the
  statistics in storage.
- `chat_manager.dfy` (`Chat`) is the chat panel: send gating, the unread
  counter and its badge.
- Shared helpers:
  - `js_string.dfy` holds the JavaScript string operations used (`trim`,
    ASCII `toLowerCase`, `includes`, `indexOf`, `replace` with a string
    pattern, decimal text).
  - `js_object.dfy` models a plain object as its entries in insertion order,
    together with the members every plain object inherits from `Object.prototype`.
  - `messages.dfy` holds the payload shapes.
  - `wrappers.dfy` holds `Option`.

Library events, timers firing, user input and storage contents arrive as
method calls or parameters. Random draws, fresh UUIDs and clock readings are
parameters too.

## Model

| member | source | states |
|---|---|---|
| PeerService.RandomHostNumber | js/peer-service.js:30 | a random draw in [0, 1) gives a host number in [100000, 999999] |
| PeerService.HostId | js/peer-service.js:30 | with a custom id the host id is prefix + custom id; otherwise it is the prefix followed by exactly six decimal digits of a number in [100000, 999999] |
| PeerService.HostIdShownWithoutPrefix | js/peer-service.js:35 | replacing the prefix in the host id gives back the custom id, or the six-digit number |
| PeerService.OpenConnections | js/peer-service.js:112-116 | the selection is no longer than the list and holds only open connections |
| PeerService.OpenConnectionsMembers | js/peer-service.js:113 | a connection is selected iff it is in the list and open |
| PeerService.OpenConnectionsAppend | js/peer-service.js:112-116 | selecting the open connections distributes over concatenation |
| PeerService.WithoutConnection | js/peer-service.js:100 | the result holds exactly the connections whose id differs from the closing one |
| PeerService.WithoutConnectionAppend | js/peer-service.js:100 | the filter distributes over concatenation, so the survivors keep their relative order |
| PeerService.WithoutAbsentConnection | js/peer-service.js:100 | filtering by an id no connection has leaves the list unchanged |
| PeerService.MarkOpen | js/peer-service.js:88-91 | an open event flips only the matching connections' flag; length and ids are unchanged |
| PeerService.ConnectionIds | js/peer-service.js:127 | one id per connection, and every connection's id is among them |
| PeerService.Deliveries | js/peer-service.js:114 | one send per given connection; every send carries the data, and every given connection receives one |
| PeerService.DeliveriesAppend | js/peer-service.js:112-116 | the sends for two lists, one after the other, are the sends for their concatenation |
| PeerService.BroadcastIsDeliveries | js/peer-service.js:112-116 | the forEach loop's sends are exactly one per open connection, in list order |
| PeerService.Service.constructor | js/peer-service.js:1-6 | the module starts with prefix `app-`, empty config, no peer, no connections |
| PeerService.Service.Initialize | js/peer-service.js:13-16 | the prefix is replaced only by a non-empty one; the config is always replaced |
| PeerService.Service.DestroyPeer | js/peer-service.js:125-136 | every connection is closed, the list is empty, the peer is gone; a count of 0 is reported iff the list was non-empty |
| PeerService.Service.DestroyPeerTwice | js/peer-service.js:125-136 | a second destroy reports nothing more: the count log gains at most one 0 |
| PeerService.Service.CreateHost | js/peer-service.js:27-31 | the old session is torn down first; the new host peer is registered under the host id and no connection survives |
| PeerService.Service.JoinHost | js/peer-service.js:59-62 | the old session is torn down first; the joiner peer targets the host id and no connection survives |
| PeerService.Service.HostOpen | js/peer-service.js:33-36 | the id shown is the peer id with the prefix replaced; for prefix + x it is x |
| PeerService.Service.IncomingConnection | js/peer-service.js:38-43 | the connection is appended and the new count (old + 1) is reported |
| PeerService.Service.JoinerOpen | js/peer-service.js:64-71 | the joiner dials prefix + host id; the connection is appended and the count old + 1 is reported |
| PeerService.Service.ConnectionOpened | js/peer-service.js:88-91 | the connection becomes open |
| PeerService.Service.ConnectionClosed | js/peer-service.js:98-102 | connections with the closing id are removed and the new length is reported |
| PeerService.Service.SendData | js/peer-service.js:110-120 | data goes to exactly the open connections, in order; the result is always false |
| PeerConnectionModal.IdentityFor | js/modals/peer_connection_modal.js:19-27 | the identity's guid is the stored one, or the fresh one when none is stored; the name is never empty |
| PeerConnectionModal.MatchingPeers | js/modals/peer_connection_modal.js:131 | a peer is kept iff its lowered name includes the lowered search text |
| PeerConnectionModal.EmptySearchKeepsAll | js/modals/peer_connection_modal.js:131 | an empty search keeps every peer, in order |
| PeerConnectionModal.PeerListing | js/modals/peer_connection_modal.js:126-158 | "no recent" iff the directory is empty; "no match" iff it is non-empty and nothing matches; otherwise the rows are the matches, labelled Connected iff connected, else Host iff the role is host |
| PeerConnectionModal.Modal.constructor | js/modals/peer_connection_modal.js:15-16 | default prefixes `pwa` and `pwa-`; the role starts as host; the service is initialised with the peer prefix |
| PeerConnectionModal.Modal.GetIdentity | js/modals/peer_connection_modal.js:19-27 | a guid is generated and stored only when none is stored; afterwards the stored guid is returned |
| PeerConnectionModal.Modal.GetIdentityTwice | js/modals/peer_connection_modal.js:19-27 | two calls return the same identity |
| PeerConnectionModal.Modal.SavePeer | js/modals/peer_connection_modal.js:33-38 | the local guid leaves the directory unchanged; any other guid's entry is set, overwriting, and every other key is unchanged |
| PeerConnectionModal.Modal.RemovePeer | js/modals/peer_connection_modal.js:40-44 | only that key is deleted; an absent key leaves the directory unchanged |
| PeerConnectionModal.Modal.RenderPeerList | js/modals/peer_connection_modal.js:126-158 | the list shows the listing of the current directory and search |
| PeerConnectionModal.Modal.SelectRole | js/modals/peer_connection_modal.js:160-169 | the role is set and the list is redrawn for it |
| PeerConnectionModal.Modal.SearchInput | js/modals/peer_connection_modal.js:227 | the search text is set and the list is redrawn |
| PeerConnectionModal.Modal.UpdateConnectionStatus | js/modals/peer_connection_modal.js:171-175 | connected iff count > 0; the flag is reported; the list is redrawn only when a role is set |
| PeerConnectionModal.Modal.HandleDataReceived | js/modals/peer_connection_modal.js:177-186 | an identity message sets the remote name and the directory and is not forwarded; any other message is forwarded with the current remote name |
| PeerConnectionModal.Modal.HandleConnectionEstablished | js/modals/peer_connection_modal.js:188-195 | connected; the local identity message goes to every open connection |
| PeerConnectionModal.Modal.StartHostingProcess | js/modals/peer_connection_modal.js:197-208 | the service hosts under the host id built from the custom id, after a full teardown of the old session (every connection closed and gone, a 0 logged iff there was one, the old peer destroyed). If there were live connections the dialog becomes disconnected and its list is redrawn; otherwise its status and list are unchanged |
| PeerConnectionModal.Modal.StartJoiningProcess | js/modals/peer_connection_modal.js:210-217 | an empty host id changes nothing. Any other one starts a join after the same teardown and status update as hosting |
| PeerConnectionModal.Modal.JoinerInput | js/modals/peer_connection_modal.js:229-231 | typed input starts a join, with its teardown and status update, iff its length is exactly 6 |
| PeerConnectionModal.Modal.RecentPeerClick | js/modals/peer_connection_modal.js:232-245 | a click without a guid does nothing. A confirmed remove deletes the peer and drops its row from the shown list; an unconfirmed one changes nothing. Host hosts under the local guid, and join joins the peer's guid. Both tear the old session down; the dialog becomes disconnected and its list is redrawn iff it had connections. Nothing else in the dialog changes |
| PeerConnectionModal.Modal.HostOpened | js/modals/peer_connection_modal.js:199-203 | the shown id is the host id without its prefix |
| PeerConnectionModal.Modal.IncomingConnection | js/peer-service.js:38-43 | the connection is appended and the new count logged; the dialog becomes connected, and its list is redrawn with the Connected labels when a role is set |
| PeerConnectionModal.Modal.JoinerOpened | js/peer-service.js:64-71 | the joiner dials prefix + host id; the connection is appended and the new count logged; the dialog becomes connected, and its list is redrawn when a role is set |
| PeerConnectionModal.Modal.ConnectionOpened | js/peer-service.js:88-91 | once the connection opens, the dialog is connected, shows "Connected to peer!", logs the change, keeps the local guid, and sends the local identity over the open connections |
| PeerConnectionModal.Modal.ConnectionClosed | js/peer-service.js:98-102 | the closing connection is removed and the new count logged; connected iff any connection remains, and the list is redrawn for that status when a role is set |
| PeerConnectionModal.Modal.PeerError | js/modals/peer_connection_modal.js:205 | the error kind is shown as a toast |
| StoryManager.Merge | story-manager.js:28 | `{...old, ...new, updatedAt}`: the new fields win, old fields survive, updatedAt is set |
| StoryManager.FindIndex | story-manager.js:25 | the first index with the id, or -1 when none has it |
| StoryManager.FindStory | story-manager.js:54-57 | the entry at the first matching index, or none |
| StoryManager.Upsert | story-manager.js:25-31 | merge in place at the first matching index, or append at the end |
| StoryManager.RemoveStory | story-manager.js:44 | exactly the stories with another id remain |
| StoryManager.UpsertKeepsUnique | story-manager.js:25-31 | unique ids stay unique after a save |
| StoryManager.FindAfterUpsert | story-manager.js:25-31 | after a save, lookup by its id gives the merged or appended record |
| StoryManager.FindOtherAfterUpsert | story-manager.js:25-31 | a save leaves lookup of every other id unchanged |
| StoryManager.FindIndexSameIds | story-manager.js:25 | the lookup depends only on the ids, position by position |
| StoryManager.FindIndexAppendOther | story-manager.js:30 | appending a story with another id does not change the lookup |
| StoryManager.DeleteRemovesId | story-manager.js:42-47 | after a delete the id is not found |
| StoryManager.DeleteAbsentId | story-manager.js:42-47 | deleting an absent id leaves the list unchanged |
| StoryManager.RemoveStoryAppend | story-manager.js:44 | the filter distributes over concatenation, so the survivors keep their order |
| StoryManager.FindStoryCons | story-manager.js:56 | lookup checks the first story, then the rest |
| StoryManager.FindOtherAfterDelete | story-manager.js:42-47 | a delete leaves lookup of every other id unchanged |
| StoryManager.StoryStore.constructor | story-manager.js:7-10 | the store starts with what storage holds |
| StoryManager.StoryStore.GetUserStories | story-manager.js:7-10 | the empty list when nothing is stored, else the stored list |
| StoryManager.StoryStore.GetUserStoryById | story-manager.js:54-57 | a found story is the first one in the list with that id; none found means no story has it |
| StoryManager.StoryStore.SaveUserStory | story-manager.js:18-35 | a story without an id gets `user-story-<uuid>` and createdAt; the list is upserted, saved and returned; unique ids stay unique; lookup then gives the saved record |
| StoryManager.StoryStore.DeleteUserStory | story-manager.js:42-47 | the filtered list is saved and returned; the id is gone; an absent id changes nothing |
| JsString.TrimStartIndex | js/main.js:330 | the index of the first non-whitespace character |
| JsString.TrimEndIndex | js/main.js:330 | the index after the last non-whitespace character |
| JsString.Trim | js/ChatManager.js:40 | `trim()` is a slice of the text with only whitespace before and after it; empty iff the text is all whitespace; otherwise it starts and ends with non-whitespace |
| JsString.LowerChar | js/main.js:157 | upper-case ASCII letters are lowered; every other character is kept |
| JsString.ToLower | js/main.js:157 | the same length; no ASCII upper-case letter is left; each upper-case letter becomes its lower-case counterpart at the same position, and every other character is kept |
| JsString.ToLowerIdempotent | js/main.js:164 | lowering twice is lowering once |
| JsString.IncludesEmpty | js/modals/peer_connection_modal.js:131 | every string includes the empty string, so an empty filter matches all |
| JsString.IncludesAt | js/modals/peer_connection_modal.js:131 | an occurrence at any index makes `includes` true |
| JsString.IncludesOccurs | js/modals/peer_connection_modal.js:131 | conversely, when `includes` is true the search text occurs at some index |
| JsString.IndexFrom | js/peer-service.js:35 | the first occurrence at or after the start, or -1 when there is none |
| JsString.IndexOf | js/peer-service.js:35 | the first occurrence, or -1 when there is none |
| JsString.ReplaceFirst | js/peer-service.js:35 | `replace` with a string pattern: with no occurrence the text is unchanged; otherwise the first occurrence alone is replaced, and the text before and after it is kept |
| JsString.StripLeadingPrefix | js/peer-service.js:35 | `(prefix + x).replace(prefix, '')` is x |
| JsString.DigitChar | js/ChatManager.js:68 | a digit below 10 becomes a digit character |
| JsString.DigitValue | js/ChatManager.js:68 | a digit character's value is below 10 |
| JsString.Decimal | js/ChatManager.js:68 | the decimal text of a number is non-empty and all digits |
| JsString.DecimalRoundTrip | js/ChatManager.js:68 | reading the decimal text back gives the number |
| JsString.DecimalLength | js/peer-service.js:30 | a number in [10^(d-1), 10^d) has d digits |
| JsString.Pow10 | js/peer-service.js:30 | powers of ten are positive |
| JsString.Pow10AtLeastTen | js/peer-service.js:30 | a positive power of ten is at least 10 |
| JsString.DivPow10 | js/peer-service.js:30 | dropping the last digit drops one decimal place |
| JsObject.Get | js/modals/peer_connection_modal.js:36 | a value is found iff the key is an own key |
| JsObject.Put | js/modals/peer_connection_modal.js:36 | assignment keeps the length for a present key and appends for a new one |
| JsObject.Delete | js/modals/peer_connection_modal.js:42 | deletion never lengthens the entries |
| JsObject.GetPutSame | js/modals/peer_connection_modal.js:36 | reading back an assigned key gives the value |
| JsObject.GetPutOther | js/modals/peer_connection_modal.js:36 | assignment leaves every other key's value unchanged |
| JsObject.HasKeyPut | js/modals/peer_connection_modal.js:36 | after assignment the keys are the old keys plus the assigned one |
| JsObject.PutInPlace | js/main.js:228 | assigning a present key keeps every key's position and every other entry |
| JsObject.PutKeepsUnique | js/modals/peer_connection_modal.js:36 | assignment keeps keys unique |
| JsObject.HasKeyDelete | js/modals/peer_connection_modal.js:42 | after `delete` the keys are the old keys without the deleted one |
| JsObject.DeleteRemovesKey | js/modals/peer_connection_modal.js:42 | the deleted key reads as absent |
| JsObject.GetDeleteOther | js/modals/peer_connection_modal.js:42 | `delete` leaves every other key's value unchanged |
| JsObject.DeleteAbsent | js/modals/peer_connection_modal.js:42 | deleting an absent key changes nothing |
| JsObject.DeleteIdempotent | js/modals/peer_connection_modal.js:42 | deleting twice is deleting once |
| JsObject.DeleteAppend | js/modals/peer_connection_modal.js:42 | `delete` distributes over concatenation, keeping the order of the rest |
| JsObject.DeleteKeepsUnique | js/modals/peer_connection_modal.js:42 | `delete` keeps keys unique |
| JsObject.InheritedMember | js/main.js:159 | a key that is not an own property reads the member inherited from `Object.prototype`: `constructor` gives the `Object` function, `__proto__` the prototype object, the other method names their built-ins, and every other key `undefined` |
| JsObject.LoweredKeysInherit | js/main.js:157-159 | of the lowered keys the application looks up, only `constructor` and `__proto__` reach an inherited member |
| Syllables.VowelGroupCount | js/main.js:169-170 | the greedy, non-overlapping matches of `[aeiouy]{1,2}` are no more than the characters |
| Syllables.NoVowelGroup | js/main.js:169-172 | there is no match iff the word has no vowel |
| Syllables.HyphenatePass | js/main.js:195-196 | a global replace never shortens the word and keeps its first character |
| Syllables.Erase | js/main.js:195-196 | removing hyphens never lengthens a string |
| Syllables.EraseAppend | js/main.js:195-196 | removing hyphens distributes over concatenation |
| Syllables.EraseHyphenFree | js/main.js:195-196 | a hyphen-free string is its own erasure |
| Syllables.EraseCons | js/main.js:195-196 | erasure of one character followed by the rest |
| Syllables.EraseInserted | js/main.js:195 | the `$1-$2$3` rewrite adds one hyphen and nothing else |
| Syllables.PassOnlyInsertsHyphens | js/main.js:195-196 | each pass only inserts hyphens: erasing them gives back the input |
| Syllables.PassPlacesHyphens | js/main.js:195-196 | every hyphen a pass inserts stands right before a consonant followed by a vowel; existing ones stay so placed |
| Syllables.DictionaryAndEarlyExits | js/main.js:156-174 | a dictionary entry is returned as is; a word of at most 3 characters, or with at most one vowel group, is returned lowered and unchanged |
| Syllables.HeuristicOnlyInsertsHyphens | js/main.js:156-197 | without a dictionary entry the result erases to the lowered word; for a hyphen-free word every hyphen sits before a consonant followed by a vowel |
| Syllables.ConstructorYieldsFunctionAsWritten | js/main.js:159-160 | as written, `getSyllables('Constructor')` returns the inherited `Object` function |
| Syllables.ConstructorIsSplit | js/main.js:159-160 | with own-key lookup, `constructor` goes through the heuristic, whose result erases to the word |
| Syllables.LowerConstructor | js/main.js:157 | `constructor` is lower-case and hyphen-free |
| StoryText.CloseBracket | js/main.js:125 | the lazy `.*?\]` stops at the first `]`, with no line terminator before it |
| StoryText.MatchLength | js/main.js:125 | a match at a position stays within the text |
| StoryText.ConcatAppend | js/main.js:145 | `join('')` distributes over concatenation |
| StoryText.MatchIsSeparator | js/main.js:125 | what the capturing group captures is an image tag or one separator character |
| StoryText.SplitFromKeepsText | js/main.js:125 | joining the pieces of the split gives back the text |
| StoryText.ConcatSingle | js/main.js:145 | joining one piece gives that piece |
| StoryText.MatchKeepsText | js/main.js:125 | one match step rejoins to the rest of the text |
| StoryText.SplitFromStep | js/main.js:125 | at a match the split closes the piece before it, adds the captured text and goes on after the match |
| StoryText.ConcatPair | js/main.js:145 | joining two pieces before the rest |
| StoryText.SplitFromSeparators | js/main.js:125 | every odd-numbered piece is a captured separator |
| StoryText.Classify | js/main.js:127-145 | a whole `[IMAGE:…]` piece becomes an image at story path + trimmed body; otherwise a piece with an ASCII letter becomes a word, and anything else is kept as is |
| StoryText.Tokens | js/main.js:127-128 | empty pieces are skipped; no token is empty |
| StoryText.TokensKeepText | js/main.js:127-145 | the tokens' text joins to the pieces' text |
| StoryText.RenderStory | js/main.js:116-148 | the prompt is shown iff the text is all whitespace |
| StoryText.RenderedStoryKeepsText | js/main.js:116-148 | the rendered tokens spell out the whole text |
| StoryText.SeparatorsAreNotWords | js/main.js:125-144 | a captured separator is never empty and never a word |
| WordStats.Tracked | js/main.js:226-229 | the word's count rises by one from 0 when absent; every other word is unchanged; a new word is appended |
| WordStats.TrackedKeepsUnique | js/main.js:228 | counting keeps keys unique |
| WordStats.TrackedAddsOneTap | js/main.js:228 | each tap adds one to the total of all counts |
| WordStats.InsertByCount | js/main.js:247 | insertion adds one row |
| WordStats.InsertAddsEntry | js/main.js:247 | insertion adds exactly that row |
| WordStats.InsertCountsAtMost | js/main.js:247 | insertion keeps every count under a bound |
| WordStats.ConsSorted | js/main.js:247 | a row no smaller than the next keeps a sorted list sorted |
| WordStats.InsertKeepsSorted | js/main.js:247 | insertion keeps the rows in non-increasing order of count |
| WordStats.SortByCount | js/main.js:247 | sorting keeps the number of rows |
| WordStats.DashboardSorted | js/main.js:247 | the dashboard lists words in non-increasing order of count |
| WordStats.DashboardIsPermutation | js/main.js:247 | the dashboard lists exactly the stored words and counts |
| WordStats.WithCountInsert | js/main.js:247 | insertion places the row after the rows with its count |
| WordStats.DashboardIsStable | js/main.js:247 | the sort is stable: words with equal counts keep their insertion order |
| WordStats.AsJs | js/main.js:228 | the same words in the same order, each count as a JavaScript number |
| WordStats.AsJsGet | js/main.js:228 | reading a count as a JavaScript value |
| WordStats.AsJsPut | js/main.js:228 | assignment commutes with the conversion |
| WordStats.AsWrittenAgreesElsewhere | js/main.js:228 | for every word that names no member of `Object.prototype`, the counter as written agrees with the intended one |
| WordStats.AsWrittenAgreesOnLowered | js/main.js:228 | for every lowered word except `constructor` and `__proto__`, the counter as written agrees with the intended one |
| WordStats.ProtoAsWritten | js/main.js:228 | as written, a tap on `__proto__` records nothing, because the assignment goes to the prototype setter; the intended counter stores 1 |
| WordStats.ConstructorAsWritten | js/main.js:228 | as written, the first tap on `constructor` stores the text of the `Object` function (as V8 prints it) followed by "1" |
| WordStats.ConstructorCountedOnce | js/main.js:228 | the intended counter stores 1 for the first tap on `constructor` |
| ReaderApp.PopupOnlyForSplitWords | js/main.js:330-335 | with the corrected comparison (see Findings), for a word without a dictionary entry the pop-up shows iff the split inserted a hyphen, and its text erases to the lowered, trimmed word |
| ReaderApp.PopupAgreesOnTrimmedWords | js/main.js:330-333 | on word text without surrounding whitespace, the comparison as written and the corrected one decide the same |
| ReaderApp.TrailingWhitespaceAsWritten | js/main.js:330-333 | as written, word text with trailing whitespace such as "cat\r" gets a pop-up with "cat"; the corrected comparison gives none |
| ReaderApp.SplitDiffersByHyphen | js/main.js:333 | a split of a hyphen-free word differs from it iff it holds a hyphen |
| ReaderApp.TrimmedHyphenFree | js/main.js:330 | trimming keeps a word hyphen-free |
| ReaderApp.TabbedWordAsWritten | js/main.js:330-333 | as written, a tab-prefixed word that cannot be split still gets a pop-up |
| ReaderApp.TabbedWordCorrected | js/main.js:330-333 | compared with the trimmed word, it gets none |
| ReaderApp.TrimTabbedCat | js/main.js:330-333 | the example's trim, split and lowering |
| ReaderApp.Reader.constructor | js/main.js:19-27 | no press, no timers, no pop-up, an empty story |
| ReaderApp.Reader.LoadWordStats | js/main.js:237-240 | the stored dictionary when there is one, an empty one otherwise |
| ReaderApp.Reader.DashboardRows | js/main.js:245-255 | the dashboard rows are the stored words, sorted by descending count |
| ReaderApp.Reader.TrackWord | js/main.js:226-231 | the statistics stored, and read back by the next load, are the old ones with the word counted once more |
| ReaderApp.Reader.ClearAllStats | js/main.js:269-274 | on confirmation the statistics and the dashboard are empty; otherwise nothing changes |
| ReaderApp.Reader.RenderStoryText | js/main.js:116-148 | the display is the rendering of the text and spells it out |
| ReaderApp.Reader.StoryLoaded | js/main.js:299-315 | the folder and dictionary are set and the story is rendered with them |
| ReaderApp.Reader.PressStart | js/main.js:367-381 | a press on a word resets both flags and arms a fresh timer; a press elsewhere only forgets the word |
| ReaderApp.Reader.ShowSyllablePopup | js/main.js:327-351 | the pop-up is shown, with the split text, iff the split of the trimmed word differs from the trimmed, lowered word |
| ReaderApp.Reader.TimerFires | js/main.js:376-380 | the press becomes long; the pop-up shows iff the active word's split differs; `pressTimer` keeps its value |
| ReaderApp.Reader.SpeakAndTrack | js/main.js:400-402 | a tap speaks the word and counts it once more |
| ReaderApp.Reader.PressEnd | js/main.js:387-407 | the word is spoken and counted iff the press set a timer, began on a word and did not show a pop-up during a long press; a fade-out is scheduled iff it did; afterwards no press is under way |
| ReaderApp.Reader.HideFires | js/main.js:356-361 | the pop-up fades out |
| ReaderApp.Reader.HoldPastDelay | js/main.js:367-381 | a press held past the delay is long and shows the pop-up iff the split differs |
| ReaderApp.Reader.LongPressOnUnsplitWord | js/main.js:376-407 | a long press on a word the pop-up does not split still speaks and counts it |
| ReaderApp.Reader.LongPressOnSplitWord | js/main.js:376-407 | a long press that shows the pop-up speaks and counts nothing and schedules the fade-out |
| Chat.BadgeFor | js/ChatManager.js:66-71 | the badge is hidden iff the count is 0; its text is the count's decimal digits |
| Chat.Outgoing | js/ChatManager.js:38-41 | when enabled the content is exactly the trimmed input; it is empty iff the chat is disabled or the input is blank; non-empty content starts and ends with non-whitespace |
| Chat.ChatManager.constructor | js/ChatManager.js:2-18 | disabled, nothing unread |
| Chat.ChatManager.InputEdited | js/ChatManager.js:10 | the input holds what the user typed |
| Chat.ChatManager.Enable | js/ChatManager.js:31-36 | enabled iff the state; the open-chat button is disabled iff not |
| Chat.ChatManager.SendMessage | js/ChatManager.js:38-51 | a disabled chat or blank input sends nothing and keeps the input; otherwise exactly one chat message with the trimmed input is sent and the input cleared |
| Chat.ChatManager.HandleIncomingMessage | js/ChatManager.js:53-59 | the message is shown; while the modal is hidden the unread count rises by one and the badge shows the new count; while it is open neither the count nor the badge changes |
| Chat.ChatManager.ResetUnread | js/ChatManager.js:61-64 | no unread messages and the badge hidden |
| Chat.ChatManager.UpdateBadge | js/ChatManager.js:66-71 | the badge text is the count and it is hidden iff the count is 0 |

## Left out

- The peer-to-peer library itself (signalling, the `Peer` object, reliable channels) is not part of this model. Connections are `(connectionId, open)` records, and library events are method calls. A library that emits `close` from inside `conn.close()` during `destroyPeer` would interleave with the list reset. The model treats every close event as a later, separate call.
- The success and failure callbacks that `createHost` and `joinHost` register are not stored as values. Their effects are the dialog's methods (`HostOpened`, `IncomingConnection`, `ConnectionOpened`, and so on). A missing callback is not modelled.
- Page rendering is not modelled: HTML strings, CSS injection, `destroyModal`, `toLocaleString` dates, the info modal, the chat transcript's DOM and scrolling, the pop-up's pixel position and the fade animation. The peer list is modelled as its content, and the transcript as a sequence of lines.
- Toasts are kept as a list of texts. `js/ToastManager.js` and `sw.js` are not part of this model.
- `speakText` is not modelled beyond the word it is handed. The pronunciation override and the Web Speech API are left out.
- `resetApplication`, `toggleDashboard` and the story-list modal are left out. Only the completion of `handleStorySelection` (`Reader.StoryLoaded`) is modelled: the network fetches and the failure alert are not.
- The `Date.now()`, `Math.random()` and `crypto.randomUUID()` values are parameters.
- localStorage holds the parsed values directly. The model assumes the JSON round-trip is faithful.
- `toLowerCase` is modelled on ASCII letters only. Other scripts and locale rules are not.
- The recent-peer directory, the phonetic dictionary and the statistics are own-key dictionaries in the intended model, where a key naming an inherited member is an ordinary key. Only the as-written lookups (`WordStats.TrackedAsWritten`, `Syllables.PhoneticLookupAsWritten`) see the members inherited from `Object.prototype` and the `__proto__` setter.
- JsObject.Put: JavaScript lists integer-like keys, such as an all-digit peer guid, first and in ascending order, before the other keys in insertion order. The model keeps insertion order for every key, so the order of the recent-peer list can differ for such guids.
- PeerConnectionModal.Modal.JoinerInput: the length tested is the number of characters. JavaScript's `.length` counts UTF-16 code units, so an input with a character outside the Basic Multilingual Plane has a different length there.
- Syllables.DictionaryAndEarlyExits: the `word.length <= 3` test counts characters, not UTF-16 code units, for the same reason.
- Syllables.HeuristicOnlyInsertsHyphens: where the hyphens go is stated only for words without hyphens of their own. For a word such as "well-known" it states only that erasing all hyphens gives the lowered word with its hyphens erased.
- PeerConnectionModal.Modal.StartHostingProcess: tearing down a session with live connections reports a count of 0. That report goes to the status callback the previous `createHost` or `joinHost` registered. The model gives it to this dialog, which is right when this dialog started that session. When an earlier dialog registered it, because this dialog was opened over live connections, the source updates the earlier dialog's closure. This dialog's connection status, status log and peer list then stay as they were.
- PeerConnectionModal.Modal.StartJoiningProcess: the same as for `StartHostingProcess`.
- PeerConnectionModal.Modal.RecentPeerClick: its host and join branches have the same difference, through `StartHostingProcess` and `StartJoiningProcess`.
- PeerConnectionModal.Modal.JoinerInput: it has the same difference, through `StartJoiningProcess`.
- PeerService.Service.JoinerOpen: `peer.connect` always yields a connection here. The library can return `undefined` (for example, on a destroyed peer), and the source would then push `undefined` into the list. That case is not modelled.
- ReaderApp.Reader.ShowSyllablePopup: it uses the corrected comparison of the Findings table, the split of the trimmed word against the trimmed, lowered word. For word text with surrounding whitespace, such as "\tcat" from a tab-indented line of the story, the source shows an unsplit pop-up where the model shows none. The two agree on all other word text (`ReaderApp.PopupAgreesOnTrimmedWords`).
- ReaderApp.Reader.TimerFires: it shows the pop-up through `ShowSyllablePopup`, so it has the same difference for word text with surrounding whitespace.
- ReaderApp.Reader.HoldPastDelay: same difference, through `TimerFires`.
- ReaderApp.Reader.LongPressOnUnsplitWord: with the source's comparison, a long press on "\tcat" shows a pop-up, so the press end neither speaks nor counts the word. The model, with the corrected comparison, speaks and counts it.
- ReaderApp.PopupOnlyForSplitWords: it is stated for the corrected comparison. The source's comparison agrees with it only on word text without surrounding whitespace.
- The `result` array built at js/main.js:179-190 is never read, so it is not modelled.
- ReaderApp.Reader.TimerFires: with no active word the source callback stops at a null dereference after setting `isLongPress`. The model stops there too and does not model the thrown error.
- ReaderApp.Reader.DashboardRows: the dashboard is a function of the stored statistics rather than a field. Every statistics change redraws it in the source, so the two agree.
- PeerConnectionModal.Modal.RecentPeerClick: after a confirmed remove the page only drops the clicked row. The model drops that row from the shown list; it does not model the DOM node.

## Findings

| source | as written | input that shows it | evidently intended | confidence | as-written member | corrected member |
|---|---|---|---|---|---|---|
| js/main.js:228 | `stats[word] = (stats[word] \|\| 0) + 1` reads inherited properties of the plain stats object | the first tap on the word "constructor" stores V8's text `function Object() { [native code] }1` | count the word from 0 when it has no own entry | not executed | WordStats.ConstructorAsWritten | WordStats.ConstructorCountedOnce |
| js/main.js:159-160 | `currentPhonetics[lowerCaseWord]` is truthy for the inherited `constructor` | `getSyllables('Constructor')` with no dictionary entry for it returns the `Object` function instead of a string | only own dictionary keys override the heuristic | not executed | Syllables.ConstructorYieldsFunctionAsWritten | Syllables.ConstructorIsSplit |
| js/main.js:330-333 | the split of `word.trim()` is compared with the untrimmed `word.toLowerCase()` | a long press on the word text "\tcat", from a tab-indented line of the story, shows a pop-up with "cat", which has no syllable split; the press then neither speaks nor counts the word | compare with the trimmed, lowered word, so unsplit words get no pop-up | not executed | ReaderApp.TabbedWordAsWritten | ReaderApp.PopupOnlyForSplitWords |
