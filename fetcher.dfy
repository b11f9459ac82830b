/** The plugin's fetcher: it keeps, per category, the groups parsed from that
    category's playlist, reads them from the cache file when a session starts,
    parses a downloaded playlist when a category has nothing yet, builds the
    bouquets for the enabled groups, and writes the cache back when the
    session ends if anything was parsed. The downloaded file arrives as its
    lines; the cache file, the clock, the label table and the case folding
    arrive as parameters. */
module Fetcher {
  import opened Text
  import opened Sorting
  import opened M3u
  import opened Cache
  import opened Bouquet

  /** The titles `createBouquet` visits are keys of the category's map. */
  lemma GroupOrderKeys(g: Groups, enabled: seq<string>, key: string -> string)
    requires WellFormed(g)
    ensures forall t :: t in GroupOrder(g.titles, enabled, key) ==> t in g.entries
  {
    forall t | t in GroupOrder(g.titles, enabled, key) ensures t in g.entries {
      var k :| 0 <= k < |g.titles| && g.titles[k] == t;
    }
  }

  /** The loop of `createBouquet` over the sorted group titles: a bouquet
      for each group with channels. */
  method BouquetsFor(order: seq<string>, m: map<string, seq<Entry>>, labelOf: string -> string)
    returns (bouquets: seq<Bouquet>)
    requires forall t :: t in order ==> t in m
    ensures bouquets == BouquetsOf(order, m, Render(labelOf))
  {
    bouquets := [];
    var i := 0;
    while i < |order|
      invariant 0 <= i <= |order|
      invariant bouquets == BouquetsOf(order[..i], m, Render(labelOf))
    {
      var groupTitle := order[i];
      var bouquetList := ServiceList(labelOf(groupTitle), m[groupTitle]);
      if bouquetList != [] {
        bouquets := bouquets + [Bouquet(groupTitle, bouquetList)];
      }
      assert order[..i + 1][..i] == order[..i];
      i := i + 1;
    }
    assert order[..|order|] == order;
  }

  /** One group's `bouquet_list`: for a group with channels, the marker line
      and a service line per channel in sorted order. */
  method ServiceList(caption: string, entries: seq<Entry>) returns (bouquetList: seq<string>)
    ensures bouquetList == GroupLines(caption, entries)
  {
    bouquetList := [];
    if entries != [] {
      bouquetList := [MarkerLine(caption)];
      var sorted := SortBy(entries, EntryLe);
      var j := 0;
      while j < |sorted|
        invariant 0 <= j <= |sorted|
        invariant bouquetList == [MarkerLine(caption)] + ServiceLines(sorted[..j])
      {
        bouquetList := bouquetList + [ServiceLine(sorted[j])];
        j := j + 1;
      }
      assert sorted[..|sorted|] == sorted;
    }
  }

  /** Lines 73-79 of the loop: the group title and channel name an
      `#EXTINF` line sets, both "" unless the line has a comma. */
  method ReadExtinf(line: string) returns (groupTitle: string, channelName: string)
    ensures Pending(groupTitle, channelName, "") == ExtinfFields(line)
  {
    groupTitle, channelName := "", "";
    var comma := LastIndexOf(line, ',');
    if comma.Some? {
      var k := comma.value;
      channelName := Strip(line[k + 1..]);
      groupTitle := ReadGroupTitle(line[..k]);
    }
  }

  /** Lines 76-79: the text of the first `group-title="` attribute before the
      last comma, up to its closing quote and trimmed; "" without one. */
  method ReadGroupTitle(head: string) returns (groupTitle: string)
    ensures groupTitle == GroupTitle(head)
  {
    groupTitle := "";
    var at := Find(head, GroupTitleAttr);
    if at.Some? {
      groupTitle := Strip(UpTo(head[at.value + |GroupTitleAttr|..], '"'));
    }
  }

  /** One pass of the loop of `getPlaylist` (lines 71-89) over one line of
      the playlist: the `#EXTINF` and URL lines set the pending fields, and
      once group, name and a new URL are all set the channel is appended to
      its group (created at the end of the order if absent), its URL is
      remembered and the fields are cleared. */
  method ReadLine(current: Groups, knownUrls: seq<string>,
                  groupTitle: string, channelName: string, url: string, line: string)
    returns (current': Groups, knownUrls': seq<string>,
             groupTitle': string, channelName': string, url': string)
    ensures ParseState(current', knownUrls', Pending(groupTitle', channelName', url')) ==
      Step(ParseState(current, knownUrls, Pending(groupTitle, channelName, url)), line)
  {
    ghost var before := ParseState(current, knownUrls, Pending(groupTitle, channelName, url));
    current', knownUrls' := current, knownUrls;
    groupTitle', channelName', url' := groupTitle, channelName, url;
    if StartsWith(line, ExtinfTag) {
      groupTitle', channelName' := ReadExtinf(line);
      url' := "";
    } else if StartsWith(line, HttpTag) {
      url' := Strip(line);
    }
    assert Pending(groupTitle', channelName', url') == NextPending(before, line);
    if channelName' != "" && groupTitle' != "" && url' != "" && url' !in knownUrls' {
      if groupTitle' !in current'.entries {
        current' := Groups(current'.titles + [groupTitle'], current'.entries[groupTitle' := []]);
      }
      current' := Groups(current'.titles, current'.entries[groupTitle' := current'.entries[groupTitle'] + [Entry(channelName', url')]]);
      knownUrls' := knownUrls' + [url'];
      groupTitle', channelName', url' := "", "", "";
    }
  }

  /** Reading one more line steps the state reached so far. */
  lemma RunOneMore(lines: seq<string>, i: nat)
    requires i < |lines|
    ensures Run(Start, lines[..i + 1]) == Step(Run(Start, lines[..i]), lines[i])
  {
    assert lines[..i + 1][..i] == lines[..i];
  }

  /** The reading loop of `getPlaylist` (lines 66-89): starting from the
      empty `current` map, every line goes through `ReadLine`, and the groups
      end as `Parse(lines)` builds them. */
  method ReadGroups(lines: seq<string>) returns (current: Groups)
    ensures current == Parse(lines).groups
  {
    current := NoGroups;
    var knownUrls: seq<string> := [];
    var groupTitle, channelName, url := "", "", "";
    ghost var st := Start;
    var i := 0;
    while i < |lines|
      invariant 0 <= i <= |lines|
      invariant st == Run(Start, lines[..i])
      invariant ParseState(current, knownUrls, Pending(groupTitle, channelName, url)) == st
    {
      current, knownUrls, groupTitle, channelName, url :=
        ReadLine(current, knownUrls, groupTitle, channelName, url, lines[i]);
      RunOneMore(lines, i);
      st := Step(st, lines[i]);
      i := i + 1;
    }
    assert lines[..|lines|] == lines;
  }

  class Fetcher {
    /** `playlists_processed`: per category, the groups parsed so far. */
    var playlistsProcessed: Store
    /** `cache_updated`: something was parsed during this session. */
    var cacheUpdated: bool

    ghost predicate Valid()
      reads this
    {
      StoreOk(playlistsProcessed)
    }

    /** Starts a session: every category empty, then the cache file's store
        if the file is at most a day old and can be read. A stale file stays
        on disk: nothing here changes `disk`. */
    constructor (disk: CacheFile, now: int)
      requires disk.Saved? && disk.contents.Some? ==> StoreOk(disk.contents.value)
      ensures Valid()
      ensures playlistsProcessed == Load(disk, now)
      ensures !cacheUpdated
    {
      playlistsProcessed := EmptyStore;
      cacheUpdated := false;
      EmptyStoreOk();
      if disk.Saved? && !(disk.mtime < now - MaxAge) {
        match disk.contents {
          case Some(store) => playlistsProcessed := store;
          case None =>
        }
      }
    }

    /** Fills `category` from its playlist's lines when it holds no group yet,
        and marks the cache as needing a write; a category that already holds
        groups is left alone. */
    method GetPlaylist(category: Category, lines: seq<string>)
      requires Valid()
      modifies this
      ensures Valid()
      ensures old(playlistsProcessed[category].entries) != map[] ==>
        playlistsProcessed == old(playlistsProcessed) && cacheUpdated == old(cacheUpdated)
      ensures old(playlistsProcessed[category].entries) == map[] ==>
        playlistsProcessed == old(playlistsProcessed)[category := Parse(lines).groups] && cacheUpdated
      ensures old(playlistsProcessed[category].entries) == map[] ==>
        GroupsOk(playlistsProcessed[category])
    {
      var current := playlistsProcessed[category];
      if current.entries == map[] {
        NoKeysNoGroups(current);
        ReadPlaylist(category, lines);
        ParseOk(lines);
        cacheUpdated := true;
      }
    }

    /** Lines 66-89 of `getPlaylist` on an empty category: the category's
        groups become those the reading loop builds. */
    method ReadPlaylist(category: Category, lines: seq<string>)
      requires category in playlistsProcessed && playlistsProcessed[category] == NoGroups
      modifies this
      ensures playlistsProcessed == old(playlistsProcessed)[category := Parse(lines).groups]
      ensures cacheUpdated == old(cacheUpdated)
    {
      var current := ReadGroups(lines);
      playlistsProcessed := playlistsProcessed[category := current];
    }

    /** The bouquets for the enabled groups of `category`: one per group that
        is present, enabled and has channels, in ascending order of the
        lower-cased label; each a marker line with the group's label and one
        service line per channel in `(name, url)` order. Nothing is changed. */
    method CreateBouquet(category: Category, enabled: seq<string>,
                         labelOf: string -> string, lower: string -> string)
      returns (bouquets: seq<Bouquet>)
      requires Valid()
      ensures bouquets == Bouquets(playlistsProcessed[category], enabled, labelOf, SortKey(labelOf, lower))
    {
      var current := playlistsProcessed[category];
      var key := SortKey(labelOf, lower);
      var order := GroupOrder(current.titles, enabled, key);
      GroupOrderKeys(current, enabled, key);
      bouquets := BouquetsFor(order, current.entries, labelOf);
    }

    /** Ends a session: the cache file afterwards. It holds the whole store,
        stamped `now`, when something was parsed in this session, and is left
        as it was otherwise. */
    method Cleanup(disk: CacheFile, now: int) returns (saved: CacheFile)
      ensures saved == Persist(cacheUpdated, playlistsProcessed, disk, now)
    {
      saved := disk;
      if cacheUpdated {
        saved := Saved(now, Some(playlistsProcessed));
      }
    }
  }

  /** One session of the setup screen on one category: the fetcher starts
      from the cache file at `now`, reads the category's playlist if the
      category holds nothing, and writes the cache back on closing at
      `closed`. A category found in the cache is not read again and the file
      stays as it was; otherwise the file afterwards holds the parsed groups,
      and any session starting within a day of `closed` finds them. */
  method Session(disk: CacheFile, now: int, category: Category, lines: seq<string>, closed: int)
    returns (saved: CacheFile)
    requires disk.Saved? && disk.contents.Some? ==> StoreOk(disk.contents.value)
    ensures Load(disk, now)[category].entries != map[] ==> saved == disk
    ensures Load(disk, now)[category].entries == map[] ==>
      saved == Saved(closed, Some(Load(disk, now)[category := Parse(lines).groups]))
    ensures Load(disk, now)[category].entries == map[] ==>
      forall later :: later - closed <= MaxAge ==> Load(saved, later)[category] == Parse(lines).groups
  {
    var fetcher := new Fetcher(disk, now);
    fetcher.GetPlaylist(category, lines);
    saved := fetcher.Cleanup(disk, closed);
  }
}
