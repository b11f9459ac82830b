# iptv-org playlist fetcher for Enigma2, modelled in Dafny

The iptv-org plugin for Enigma2 receivers downloads one of three M3U
playlists from iptv-org (channels grouped by country, by genre or by
language), groups the channels by their `group-title`, lets the user pick
groups on a set-up screen and writes one bouquet per picked group into the
receiver's channel list. Parsed playlists are cached in a single file for a
day.

This project models the plugin's `Fetcher` class:

- **`Fetcher`** (`fetcher.dfy`): the class itself, with its two fields
  `playlistsProcessed` (per category, the groups parsed so far) and
  `cacheUpdated`. The constructor loads the cache file when it is at most
  a day old. `GetPlaylist` parses a downloaded playlist into an empty
  category, with its reading loop written out as `ReadGroups` and
  `ReadLine`. `CreateBouquet` builds the bouquet line lists, and `Cleanup`
  writes the cache file back when something was parsed. `Session` runs one
  set-up screen on one category, from start to close.
- **`M3u`** (`m3u.dfy`): the reading loop as a specification. It defines
  the state carried between lines (`ParseState`), the step on one line
  (`Step`) and `Parse`. It then proves what the finished state holds:
  - no URL is stored twice;
  - every stored channel has a name, a group and an `http` URL;
  - no group is empty;
  - `known_urls` matches the stored URLs;
  - groups and channels are only ever appended;
  - one `#EXTINF` block stores at most one channel.
- **`M3uExample`** (`m3u_example.dfy`): small playlists of the usual shape
  and the groups they produce. The lemmas cover a duplicate URL and a
  missing `#EXTINF` line.
- **`Cache`** (`cache.dfy`): the cache file as a value. It defines the
  86400-second freshness rule, what a session starts from, and what it
  leaves behind.
- **`Bouquet`** (`bouquet.dfy`): `createBouquet`'s output as functions.
  It covers the choice and order of groups, the sorting of channels, the
  marker and service lines and the `:` → `%3a` escape. The lemmas show that
  a service line reads back as its channel, and that every present, enabled
  group that has channels gets exactly one bouquet.
- **`Selection`** (`selection.dfy`): how the set-up screen saves the
  enabled groups as one `|`-joined string and restores them.
- **`Text`** and **`Sorting`** (`text.dfy`, `sorting.dfy`): the Python
  string methods and the stable `sorted` that the code above relies on.

The download, the cache file's bytes, the clock, the group-label table and
Unicode lower-casing all come from outside the model. Downloaded lines,
the `CacheFile` value, `now`/`closed` times, and `labelOf`/`lower` functions
are passed in as parameters.

## Model

| member | source | states |
|---|---|---|
| Fetcher.Fetcher.constructor | src/plugin.py:38-49 | every category starts empty and `cacheUpdated` is false; the store is then exactly `Load(disk, now)`, the cached store when the file is at most 86400 s old and readable, and the store invariant holds |
| Fetcher.Fetcher.GetPlaylist | src/plugin.py:62-90 | a category that already holds groups is left alone with the flag unchanged; an empty category becomes `Parse(lines).groups`, every other category is unchanged, `cacheUpdated` becomes true and the new groups satisfy `GroupsOk` |
| Fetcher.Fetcher.ReadPlaylist | src/plugin.py:63-89 | on an empty category, the store afterwards is the old one with that category replaced by the parsed groups, and the flag is untouched |
| Fetcher.ReadGroups | src/plugin.py:66-89 | the reading loop, run over every line from the empty map, ends with exactly the groups `Parse(lines)` defines |
| Fetcher.ReadLine | src/plugin.py:71-89 | one pass of the loop body turns the state (groups, known URLs, three pending fields) into `Step` of that state on the line |
| Fetcher.ReadExtinf | src/plugin.py:72-79 | on an `#EXTINF` line the pending group, name and URL become `ExtinfFields(line)` |
| Fetcher.ReadGroupTitle | src/plugin.py:78-79 | the group title is `GroupTitle(head)`: the trimmed text after the first `group-title="` up to the next `"`, or "" |
| Fetcher.Fetcher.CreateBouquet | src/plugin.py:92-101 | the bouquets are `Bouquets(...)` of the category's groups, sorted by `SortKey(labelOf, lower)`, the lower-cased marker label: one per present, enabled group with lines; nothing is changed |
| Fetcher.BouquetsFor | src/plugin.py:94-101 | the loop over the sorted titles yields `BouquetsOf(order, ...)`, skipping groups whose line list is empty |
| Fetcher.ServiceList | src/plugin.py:95-99 | one group's `bouquet_list` equals `GroupLines`: empty for no channels, else the marker line and one service line per channel in sorted order |
| Fetcher.Fetcher.Cleanup | src/plugin.py:103-107 | the file afterwards is the whole store stamped with the closing time when `cacheUpdated`, otherwise the file as it was |
| Fetcher.Session | src/plugin.py:140-145 | for a screen that reads one category: a category found in the cache is not read again and the file is unchanged; otherwise the file afterwards holds the loaded store with the category parsed, and every session starting within 86400 s of closing finds those groups |
| Fetcher.GroupOrderKeys | src/plugin.py:93-96 | every title `createBouquet` visits is a key of the category's map |
| M3u.AddEntry | src/plugin.py:83-85 | defines storing a channel: a title not yet a key gets an empty list at the end of the key order, then the channel is appended to its title's list; `AddEntryAppends`, `AddEntryUrls`, `AddEntryWellFormed` and `AddEntryEntriesOk` state its properties |
| M3u.GroupTitle | src/plugin.py:78-79 | defines the group read from the text before the last comma: the text after the first `group-title="` up to the next `"`, trimmed, or "" without the attribute; `GroupTitleAtFirstAttribute` and `GroupTitleWithoutAttribute` state it |
| M3u.ExtinfFields | src/plugin.py:73-79 | the pending fields after an `#EXTINF` line never hold a URL; the group and the name come from the cut at the last comma (`ExtinfSplitsAtLastComma`), all empty without a comma (`ExtinfWithoutComma`) |
| M3u.NextPending | src/plugin.py:72-81 | defines the three pending fields after one line: an `#EXTINF` line sets them from `ExtinfFields`, an `http` line replaces only the URL with the stripped line, any other line keeps them |
| M3u.Step | src/plugin.py:72-89 | defines one pass of the loop: the pending fields from `NextPending`, then, when name, group and a new URL are all set, the channel is stored, its URL recorded and the fields cleared; `StepReachable`, `StepStoresAtMostOne`, `NewUrlStores`, `KnownUrlKeepsPending` and `OtherLineIgnored` state its cases |
| M3u.Run | src/plugin.py:71-89 | defines the loop over a list of lines as `Step` applied line after line; `RunAppend`, `RunReachable` and `RunExtends` state its properties |
| M3u.Parse | src/plugin.py:71-89 | defines `getPlaylist`'s result as `Run` from the empty map, no known URL and empty fields; `ParseOk` and `ParseExtends` state what it holds |
| M3u.ParseOk | src/plugin.py:80-89 | after any file, the loop invariant holds: the groups are well formed; no URL is stored twice, in one group or across two; every group is non-empty with a non-empty title; every channel has a name and an `http` URL; the number of stored channels equals the number of known URLs and both hold the same URLs |
| M3u.NoUrlInTwoPlaces | src/plugin.py:82-86 | in groups satisfying `GroupsOk`, two stored channels with the same URL are the same channel of the same group |
| M3u.StepReachable | src/plugin.py:71-89 | every step of the loop keeps the invariant `Reachable` |
| M3u.RunReachable | src/plugin.py:71-89 | any number of lines keeps the invariant |
| M3u.StoreReachable | src/plugin.py:82-89 | storing a complete new entry keeps the invariant |
| M3u.AddEntryUrls | src/plugin.py:83-86 | storing a channel adds exactly its URL to the multiset of stored URLs |
| M3u.AddEntryWellFormed | src/plugin.py:83-85 | storing a channel keeps title order and key set in agreement |
| M3u.AddEntryEntriesOk | src/plugin.py:83-85 | storing a named channel with an `http` URL under a non-empty title keeps every channel valid and no group empty |
| M3u.AddEntryAppends | src/plugin.py:83-85 | storing appends the channel at the end of its group and a new group at the end of the order |
| M3u.ParseExtends | src/plugin.py:71-89 | reading more lines never removes or reorders: group order and every group of the shorter file are prefixes of the longer file's |
| M3u.StepExtends | src/plugin.py:83-85 | one step only appends |
| M3u.RunAppend | src/plugin.py:71 | reading `a + b` is reading `a` then `b` |
| M3u.NoKeysNoGroups | src/plugin.py:64 | a well-formed map without keys has no titles: `not current` means the category is `NoGroups` |
| M3u.ExtinfSplitsAtLastComma | src/plugin.py:76-77 | an `#EXTINF` line is cut at its last comma: the name is the trimmed text after it, the group is looked for before it |
| M3u.ExtinfWithoutComma | src/plugin.py:73-76 | an `#EXTINF` line without a comma leaves all three fields empty |
| M3u.GroupTitleAtFirstAttribute | src/plugin.py:78-79 | the group is taken from the first occurrence of `group-title="`, up to the next `"` or the end, trimmed |
| M3u.GroupTitleWithoutAttribute | src/plugin.py:78 | without `group-title="` the group is empty |
| M3u.ExtinfLineRestarts | src/plugin.py:72-79 | an `#EXTINF` line replaces all three pending fields and never stores by itself |
| M3u.OtherLineIgnored | src/plugin.py:72-82 | a line starting with neither `#EXTINF:` nor `http` leaves the whole state unchanged |
| M3u.HttpSurvivesStrip | src/plugin.py:80-81 | a stripped `http` line still starts with `http` |
| M3u.KnownUrlKeepsPending | src/plugin.py:80-82 | an `http` line with a known URL only replaces the pending URL; name and group stay |
| M3u.NewUrlStores | src/plugin.py:80-89 | a new `http` URL with name and group pending stores the channel at the end of its group, records the URL and clears the fields |
| M3u.StepStoresAtMostOne | src/plugin.py:82-89 | a step either leaves the groups alone or stores exactly one channel and clears the fields |
| M3u.BlockInvariant | src/plugin.py:82-89 | within one `#EXTINF` block, the groups are unchanged or have exactly one more channel with the name cleared |
| M3u.IncompleteBlockStoresNothing | src/plugin.py:76-89 | an `#EXTINF` block whose line yields no name or no group stores nothing: groups and known URLs are unchanged through the block, and the missing field stays empty |
| M3u.BlockStoresAtMostOne | src/plugin.py:82-89 | one `#EXTINF` block stores at most one channel; a second `http` line in it is dropped |
| M3uExample.InfoLineFields | src/plugin.py:76-79 | `#EXTINF:-1 group-title="g",n` with a newline yields group `g` and name `n` |
| M3uExample.BlockStores | src/plugin.py:71-89 | an `#EXTINF` line and a new URL line store one channel after any state |
| M3uExample.FirstBlock | src/plugin.py:71-89 | the first block of a file leaves one group holding its channel, one known URL, cleared fields, and the loop invariant |
| M3uExample.TwoChannels | src/plugin.py:71-89 | two blocks of one group give that group with both channels in file order |
| M3uExample.SecondUrlDropped | src/plugin.py:82-89 | a second URL line with no `#EXTINF` before it is dropped |
| M3uExample.DuplicateBlock | src/plugin.py:82-89 | a block whose first URL is known keeps its fields and is stored under its next new URL |
| M3uExample.DuplicateThenNewUrl | src/plugin.py:82-89 | a file whose second block repeats the first URL still stores the second channel under its next new URL |
| Cache.Fresh | src/plugin.py:43 | defines the freshness test: the file's time is not more than 86400 s before now; `FreshIffAtMostOneDay` and `ReadAtExactlyMaxAge` state it |
| Cache.Persist | src/plugin.py:105-107 | defines the file after closing: the whole store stamped with the closing time when something was parsed, else the file as it was; `PersistThenLoad` and `UnchangedWithoutUpdate` state what the next session reads |
| Cache.Load | src/plugin.py:38-49 | the starting store is the empty store or the file's store, and it satisfies the store invariant whenever the file's store does |
| Cache.EmptyStoreOk | src/plugin.py:38 | the initial store has every category, each empty and well formed |
| Cache.NoFileStartsEmpty | src/plugin.py:38-40 | without a cache file every category starts empty |
| Cache.UnreadableIgnored | src/plugin.py:41-49 | a file that cannot be read back is ignored |
| Cache.ReadAtExactlyMaxAge | src/plugin.py:43-47 | a file exactly 86400 s old is still read |
| Cache.FreshIffAtMostOneDay | src/plugin.py:43 | the file is read exactly when its age is at most 86400 s |
| Cache.StaleIgnored | src/plugin.py:43-44 | an older file is ignored, whatever it holds |
| Cache.PersistThenLoad | src/plugin.py:105-107 | what a session writes is what a session starting within 86400 s reads |
| Cache.UnchangedWithoutUpdate | src/plugin.py:105 | without an update the file is not written, so the next session reads what this one read |
| Bouquet.Escape | src/plugin.py:99 | the escaped URL holds no `:` |
| Bouquet.UnescapeEscape | src/plugin.py:99 | unescaping an escaped URL without `%3a` gives the URL back |
| Bouquet.ServiceLineRoundTrip | src/plugin.py:99 | a service line reads back as its channel, whatever the name holds |
| Bouquet.ServiceLinesRead | src/plugin.py:98-99 | every service line of a list of channels whose URLs hold no literal `%3a` reads back as its channel |
| Bouquet.MarkerIsNotService | src/plugin.py:97-99 | a marker line never reads as a channel |
| Bouquet.MarkerLine | src/plugin.py:97 | defines the marker line: the fixed marker prefix and the group's label; `MarkerIsNotService` shows it never reads as a channel |
| Bouquet.ServiceLine | src/plugin.py:99 | defines a channel's line: the fixed stream prefix, the escaped URL, `:`, the name; `ServiceLineRoundTrip` reads it back |
| Bouquet.EntryLe | src/plugin.py:98 | defines Python's tuple order on `(name, url)`: by name, then by URL on equal names; `EntryLeTotalOrder` states it is a total order |
| Bouquet.EntryLeTotalOrder | src/plugin.py:98 | `(name, url)` order is total and transitive, and antisymmetric on channels |
| Bouquet.SortKey | src/plugin.py:94 | defines the sort key of a title as `lower` of the same label `labelOf` gives the marker line |
| Bouquet.KeyLe | src/plugin.py:94 | defines the order `sorted` uses: two titles compare as their keys compare as strings; `KeyLeTotalPreorder` states it is a total preorder |
| Bouquet.KeyLeTotalPreorder | src/plugin.py:94 | ordering titles by key is a total preorder |
| Bouquet.GroupOrder | src/plugin.py:94 | the visited titles are exactly the titles also enabled, with the same multiplicities, none repeated |
| Bouquet.GroupOrderSorted | src/plugin.py:94 | the titles come in ascending key order |
| Bouquet.GroupOrderStable | src/plugin.py:94 | the visited titles tied with any key are the enabled titles of that tie class in the order of the map's keys, as the filter then the stable sort leave them |
| Bouquet.ServiceLines | src/plugin.py:98-99 | one service line per channel, the `i`-th line for the `i`-th channel |
| Bouquet.GroupLines | src/plugin.py:95-99 | defines one group's `bouquet_list`: empty without channels, else the marker line and the service lines of the channels in `(name, url)` order; `GroupLinesShape` and `RenderNonEmpty` state it |
| Bouquet.GroupLinesShape | src/plugin.py:96-99 | a group with channels gives its marker line and then one service line per channel, the channels being a sorted permutation of the group's |
| Bouquet.SortedEntries | src/plugin.py:98 | the sorted channels are a permutation of the group's, in `(name, url)` order |
| Bouquet.RenderNonEmpty | src/plugin.py:96-100 | a group with channels always has lines, so it gets a bouquet |
| Bouquet.BouquetsOf | src/plugin.py:94-101 | no more bouquets than visited titles |
| Bouquet.LinedPositions | src/plugin.py:94-100 | the positions of the visited titles whose group has lines, each a valid position |
| Bouquet.LinedPositionsIncrease | src/plugin.py:94-101 | those positions strictly increase, so bouquets keep the visiting order |
| Bouquet.BouquetsAtLinedPositions | src/plugin.py:94-101 | for any map, the `k`-th bouquet is the title at the `k`-th lined position with that group's non-empty lines, and there is one bouquet per lined position |
| Bouquet.UnlinedPositionsSkipped | src/plugin.py:96-100 | a visited title without a bouquet is one whose group has no lines: nothing else is skipped |
| Bouquet.BouquetsOfMembers | src/plugin.py:94-101 | every bouquet belongs to a visited title and holds that group's non-empty lines, and every visited title whose group has lines has its bouquet |
| Bouquet.BouquetsOfAll | src/plugin.py:94-101 | when every visited group has lines, there is one bouquet per title, in order |
| Bouquet.BouquetsOfListed | src/plugin.py:94-101 | for parsed groups, any list of their titles gives one bouquet per title in that order, holding that group's lines |
| Bouquet.Bouquets | src/plugin.py:92-101 | defines `createBouquet`'s result for one category: `BouquetsOf` over the enabled titles in `GroupOrder`, rendered by `GroupLines`; `BouquetsOfParsedGroups`, `BouquetsOfMembers` and `GroupOrderSorted` state what it holds |
| Bouquet.BouquetsOfParsedGroups | src/plugin.py:92-101 | for parsed groups, a group gets a bouquet exactly when it is present and enabled; the bouquets come in key order, one per group, each holding that group's marker and service lines |
| Bouquet.ParsedGroupsHaveChannels | src/plugin.py:96 | every title of parsed groups names a group with channels |
| Selection.Join | src/plugin.py:154 | defines `"|".join(...)`: the pieces with one bar between each two; `SplitJoin` and `JoinSplit` tie it to `Split` |
| Selection.Split | src/plugin.py:147 | splitting on `|` gives at least one piece, none holding a bar, and a bar-free string is its own single piece |
| Selection.JoinSplit | src/plugin.py:147-154 | joining the pieces of a split gives the string back |
| Selection.SplitJoin | src/plugin.py:147-154 | splitting a join of bar-free pieces gives the pieces back |
| Selection.Restore | src/plugin.py:147 | the restored selection holds exactly the saved titles that are on offer |
| Selection.RestoreSave | src/plugin.py:147-154 | saving a selection and restoring it against options that hold every enabled title and not the empty one gives the selection back |
| Text.Strip | src/plugin.py:77-81 | the stripped string is the slice of the input after its leading whitespace, with only whitespace after it, and starts and ends with non-whitespace |
| Text.LStrip | src/plugin.py:77 | a suffix of the input, only whitespace dropped, not starting with whitespace |
| Text.RStrip | src/plugin.py:77 | a prefix of the input, only whitespace dropped, not ending with whitespace |
| Text.StripKeepsPrefix | src/plugin.py:80-81 | stripping keeps a prefix that starts and ends with non-whitespace |
| Text.LastIndexOf | src/plugin.py:76 | the last occurrence of the separator, or none at all |
| Text.Find | src/plugin.py:78 | the first occurrence of `group-title="`, or none at all |
| Text.UpTo | src/plugin.py:79 | the text before the first `"`: a prefix without `"`, followed by `"` or the end |
| Text.StrLeTotal | src/plugin.py:98 | Python string order is total |
| Text.StrLeTransitive | src/plugin.py:98 | Python string order is transitive |
| Text.StrLeAntisymmetric | src/plugin.py:98 | strings ordered both ways are equal |
| Sorting.Keep | src/plugin.py:147 | the filtered list holds exactly the elements also allowed, repeats none when the input repeats none, and is no longer; `KeepAppend` states that it keeps input order |
| Sorting.KeepAppend | src/plugin.py:94 | filtering `a + b` is filtering `a` then `b`: the kept elements stay in input order |
| Sorting.KeepTies | src/plugin.py:94 | filtering and then taking the elements tied with `k` is taking them and then filtering |
| Sorting.KeepAll | src/plugin.py:147 | filtering a list whose elements are all allowed leaves it unchanged |
| Sorting.SortBy | src/plugin.py:94-98 | sorting gives a permutation of the input |
| Sorting.SortBySorted | src/plugin.py:94-98 | under a total preorder the result is sorted |
| Sorting.SortByStable | src/plugin.py:94-98 | elements that tie keep their input order |
| Sorting.SortKept | src/plugin.py:94 | sorting the filtered titles keeps exactly the allowed ones, with no repeats |
| Sorting.InsertSorted | src/plugin.py:94-98 | inserting into a sorted list keeps it sorted |

## Left out

- The download (`downloadPage`, HTTP with a 2.5 s timeout, writing a
  temporary file), the temporary directory and its removal, and opening the
  downloaded file are not modelled. The playlist arrives as its lines,
  already decoded. The UTF-8 decoding that ignores bad bytes is not
  modelled.
- Missing or unreadable downloads are not modelled. The error raised when
  the temporary file is missing is an I/O failure, so the model always has
  lines to read.
- Pickling is not modelled: the cache file is a value (`CacheFile`) holding
  its modification time and, when it unpickles, the store. Times are whole
  seconds, not floats.
- A cache file whose contents unpickle to something that is not a well-formed
  store is excluded by the `requires` of `Fetcher.Fetcher.constructor` and
  `Fetcher.Session`.
- The stale cache file is never deleted. The delete at line 44 calls a name
  that is never imported, and the resulting error is caught at line 48.
  The model follows the code: a stale file stays on disk and is only
  ignored, although the comment on line 43 says the file is deleted.
- There is one cache file holding every category, as in the code.
- Fetcher.Session: covers a set-up screen that reads one category. A
  screen can switch category (lines 197-203 restart the timer, so
  `buildList` calls `getPlaylist` on the new category). It can therefore
  parse several categories before the single `cleanup` at line 141. That
  sequence is not stated as one method. Each `GetPlaylist` call in it is
  covered by `Fetcher.Fetcher.GetPlaylist`'s contract, and the final
  write by `Fetcher.Fetcher.Cleanup`'s.
- The group-label table `group_titles` and Unicode `str.lower()` are
  parameters: `labelOf` gives the marker line's label and `lower` the case
  folding; the sort key is `lower` of the same label.
- `eDVBDB.addOrUpdateBouquet`, `sanitizeFilename`, the bouquet name and the
  bouquet file name (line 101) are not modelled. `createBouquet` returns
  the `(group, lines)` pairs it would hand to the database, in order.
- The screens (`PluginSetup`, `PluginSummary`, `PluginMain`), the timers,
  the configuration entries and their persistence are not modelled. Neither
  are the sorting of the offered titles in `buildList` (line 146) and the
  gettext glue in `src/__init__.py`. Only the `|` join and split of the saved
  selection and the filter against the offered titles are modelled.
- In the source, `current` aliases the stored map and the loop appends to it
  in place. In the model, `ReadGroups` builds the groups in a local value
  and `ReadPlaylist` stores them once the loop ends. Nothing else can
  observe the map while the loop runs, so the final store is the same.
- Bouquet.ServiceLineRoundTrip: holds only for URLs that contain no `%3a` of
  their own, since `%3a` in the URL cannot be told from an escaped `:`.
- Selection.RestoreSave: does not cover titles that contain `|` or an empty
  title on offer. Such titles are split apart or restored by mistake, as in
  the code.
