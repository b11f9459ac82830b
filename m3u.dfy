/** The `#EXTINF` playlist reader of `Fetcher.getPlaylist`, as a specification:
    the state the reading loop carries from one line to the next, the step it
    takes on each line, and what the finished state holds.

    An `#EXTINF:` line names a channel (the text after its last comma) and its
    group (the quoted value of its first `group-title="` attribute); the next
    line starting with `http` gives the stream URL. A complete triple whose URL
    has not been stored yet is appended to its group, and the three pending
    fields are cleared. */
module M3u {
  import opened Text
  import opened Sorting

  /** One channel of a group: `(channelname, url)`. */
  datatype Entry = Entry(name: string, url: string)

  /** An insertion-ordered dictionary from group title to its channels, as a
      Python `dict` is: `titles` lists the keys in the order they were added. */
  datatype Groups = Groups(titles: seq<string>, entries: map<string, seq<Entry>>)

  const NoGroups := Groups([], map[])

  /** The key order and the key set agree, and no key is listed twice. */
  predicate WellFormed(g: Groups)
  {
    Distinct(g.titles) &&
    (forall t :: t in g.entries ==> t in g.titles) &&
    (forall i :: 0 <= i < |g.titles| ==> g.titles[i] in g.entries)
  }

  /** What the reader promises about every stored channel. */
  predicate EntryOk(e: Entry)
  {
    e.name != "" && StartsWith(e.url, HttpTag)
  }

  /** Every group has a non-empty title and at least one channel, and every
      channel has a name and an `http` URL. */
  predicate EntriesOk(g: Groups)
  {
    forall t :: t in g.entries ==>
      t != "" && g.entries[t] != [] &&
      forall i :: 0 <= i < |g.entries[t]| ==> EntryOk(g.entries[t][i])
  }

  function Urls(es: seq<Entry>): (r: seq<string>)
    ensures |r| == |es| && forall i :: 0 <= i < |es| ==> r[i] == es[i].url
  {
    seq(|es|, i requires 0 <= i < |es| => es[i].url)
  }

  /** The URLs of the groups `ts`, group after group. */
  function UrlsOf(ts: seq<string>, m: map<string, seq<Entry>>): seq<string>
  {
    if ts == [] then []
    else (if ts[0] in m then Urls(m[ts[0]]) else []) + UrlsOf(ts[1..], m)
  }

  /** Every stored URL, group after group. */
  function AllUrls(g: Groups): seq<string>
  {
    UrlsOf(g.titles, g.entries)
  }

  /** What a finished (or cached) dictionary of groups satisfies: no URL is
      stored twice, in one group or across two. */
  predicate GroupsOk(g: Groups)
  {
    WellFormed(g) && EntriesOk(g) && Distinct(AllUrls(g))
  }

  /** A well-formed map without keys has no titles either: it is empty. */
  lemma NoKeysNoGroups(g: Groups)
    requires WellFormed(g) && g.entries == map[]
    ensures g == NoGroups
  {
    DistinctWithin(g.titles, g.entries.Keys);
  }

  /** `if t not in current: current[t] = []` then `current[t].append(e)`. */
  function AddEntry(g: Groups, t: string, e: Entry): Groups
  {
    var g1 := if t in g.entries then g else Groups(g.titles + [t], g.entries[t := []]);
    Groups(g1.titles, g1.entries[t := g1.entries[t] + [e]])
  }

  // ---------------------------------------------------------------------------
  // The reading loop

  const ExtinfTag := "#EXTINF:"
  const HttpTag := "http"
  const GroupTitleAttr := "group-title=\""

  /** The loop's three pending fields: `group_title`, `channelname`, `url`. */
  datatype Pending = Pending(group: string, name: string, url: string)

  const Cleared := Pending("", "", "")

  /** Everything the loop carries between lines. */
  datatype ParseState = ParseState(groups: Groups, known: seq<string>, pending: Pending)

  const Start := ParseState(NoGroups, [], Cleared)

  /** The group title in the part of an `#EXTINF` line before its last comma:
      the trimmed text between the first `group-title="` and the next `"`, or
      "" when there is no such attribute. */
  function GroupTitle(head: string): string
  {
    match Find(head, GroupTitleAttr)
    case None => ""
    case Some(j) => Strip(UpTo(head[j + |GroupTitleAttr|..], '"'))
  }

  /** The pending fields right after an `#EXTINF` line: the name is the trimmed
      text after the last comma, the group as `GroupTitle` finds it before
      that comma; both stay empty when the line has no comma. */
  function ExtinfFields(line: string): (p: Pending)
    ensures p.url == ""
  {
    match LastIndexOf(line, ',')
    case None => Cleared
    case Some(k) => Pending(GroupTitle(line[..k]), Strip(line[k + 1..]), "")
  }

  /** All three fields are set and the URL is new: the loop stores an entry. */
  predicate Ready(p: Pending, known: seq<string>)
  {
    p.name != "" && p.group != "" && p.url != "" && p.url !in known
  }

  /** The pending fields the loop holds once it has read `line`, before the
      check that may store them. */
  function NextPending(st: ParseState, line: string): Pending
  {
    if StartsWith(line, ExtinfTag) then ExtinfFields(line)
    else if StartsWith(line, HttpTag) then st.pending.(url := Strip(line))
    else st.pending
  }

  /** One iteration of the loop on one line: the pending fields as the line
      sets them, then the check that may store them. */
  function Step(st: ParseState, line: string): ParseState
  {
    var p := NextPending(st, line);
    if Ready(p, st.known) then
      ParseState(AddEntry(st.groups, p.group, Entry(p.name, p.url)), st.known + [p.url], Cleared)
    else
      st.(pending := p)
  }

  /** The loop run over `lines` from `st`. */
  function Run(st: ParseState, lines: seq<string>): ParseState
  {
    if lines == [] then st
    else Step(Run(st, lines[..|lines| - 1]), lines[|lines| - 1])
  }

  /** What `getPlaylist` builds from a downloaded file, for a category that
      had nothing stored. */
  function Parse(lines: seq<string>): ParseState
  {
    Run(Start, lines)
  }

  // ---------------------------------------------------------------------------
  // The loop invariant

  /** What holds of the state after every line: the groups are well formed
      and their channels valid, `known` lists every stored URL exactly once,
      a pending URL is an `http` one, and no complete new entry is waiting. */
  ghost predicate Reachable(st: ParseState)
  {
    WellFormed(st.groups) && EntriesOk(st.groups) &&
    Distinct(st.known) && multiset(AllUrls(st.groups)) == multiset(st.known) &&
    (st.pending.url == "" || StartsWith(st.pending.url, HttpTag)) &&
    !Ready(st.pending, st.known)
  }

  lemma {:induction false} UrlsAppend(es: seq<Entry>, e: Entry)
    ensures Urls(es + [e]) == Urls(es) + [e.url]
  {
  }

  lemma {:induction false} UrlsOfFrame(ts: seq<string>, m: map<string, seq<Entry>>, t: string, v: seq<Entry>)
    requires t !in ts
    ensures UrlsOf(ts, m[t := v]) == UrlsOf(ts, m)
  {
    if ts != [] {
      UrlsOfFrame(ts[1..], m, t, v);
    }
  }

  lemma {:induction false} UrlsOfAppend(ts: seq<string>, t: string, m: map<string, seq<Entry>>)
    ensures UrlsOf(ts + [t], m) == UrlsOf(ts, m) + (if t in m then Urls(m[t]) else [])
  {
    if ts == [] {
      assert ts + [t] == [t];
    } else {
      assert (ts + [t])[1..] == ts[1..] + [t];
      UrlsOfAppend(ts[1..], t, m);
    }
  }

  lemma {:induction false} UrlsOfGrow(ts: seq<string>, m: map<string, seq<Entry>>, t: string, e: Entry)
    requires Distinct(ts) && t in ts && t in m
    ensures multiset(UrlsOf(ts, m[t := m[t] + [e]])) == multiset(UrlsOf(ts, m)) + multiset{e.url}
  {
    var m' := m[t := m[t] + [e]];
    UrlsAppend(m[t], e);
    if ts[0] == t {
      assert t !in ts[1..] by {
        forall i | 1 <= i < |ts| ensures ts[i] != t { assert ts[0] != ts[i]; }
      }
      UrlsOfFrame(ts[1..], m, t, m[t] + [e]);
    } else {
      assert Distinct(ts[1..]) by {
        forall i, j | 0 <= i < j < |ts[1..]| ensures ts[1..][i] != ts[1..][j] {
          assert ts[i + 1] != ts[j + 1];
        }
      }
      UrlsOfGrow(ts[1..], m, t, e);
    }
  }

  lemma AddEntryWellFormed(g: Groups, t: string, e: Entry)
    requires WellFormed(g)
    ensures WellFormed(AddEntry(g, t, e))
  {
  }

  lemma AddEntryUrls(g: Groups, t: string, e: Entry)
    requires WellFormed(g)
    ensures multiset(AllUrls(AddEntry(g, t, e))) == multiset(AllUrls(g)) + multiset{e.url}
  {
    if t in g.entries {
      UrlsOfGrow(g.titles, g.entries, t, e);
    } else {
      var m := g.entries[t := [e]];
      assert g.entries[t := []][t := [] + [e]] == m by {
        assert [] + [e] == [e];
      }
      assert AddEntry(g, t, e) == Groups(g.titles + [t], m);
      UrlsOfAppend(g.titles, t, m);
      UrlsOfFrame(g.titles, g.entries, t, [e]);
      assert Urls([e]) == [e.url];
    }
  }

  lemma AddEntryEntriesOk(g: Groups, t: string, e: Entry)
    requires EntriesOk(g) && t != "" && EntryOk(e)
    ensures EntriesOk(AddEntry(g, t, e))
  {
  }

  lemma HttpSurvivesStrip(line: string)
    requires StartsWith(line, HttpTag)
    ensures StartsWith(Strip(line), HttpTag)
  {
    assert !IsSpace('h') && !IsSpace('p');
    StripKeepsPrefix(line, HttpTag);
  }

  lemma NextPendingUrl(st: ParseState, line: string)
    requires st.pending.url == "" || StartsWith(st.pending.url, HttpTag)
    ensures var p := NextPending(st, line); p.url == "" || StartsWith(p.url, HttpTag)
  {
    if !StartsWith(line, ExtinfTag) && StartsWith(line, HttpTag) {
      HttpSurvivesStrip(line);
    }
  }

  /** Storing a complete new entry keeps the invariant. */
  lemma StoreReachable(st: ParseState, p: Pending)
    requires Reachable(st) && Ready(p, st.known) && StartsWith(p.url, HttpTag)
    ensures Reachable(ParseState(AddEntry(st.groups, p.group, Entry(p.name, p.url)), st.known + [p.url], Cleared))
  {
    var e := Entry(p.name, p.url);
    AddEntryWellFormed(st.groups, p.group, e);
    AddEntryEntriesOk(st.groups, p.group, e);
    AddEntryUrls(st.groups, p.group, e);
    assert multiset(st.known + [p.url]) == multiset(st.known) + multiset{p.url};
    assert Distinct(st.known + [p.url]);
  }

  /** Every step keeps the invariant. */
  lemma StepReachable(st: ParseState, line: string)
    requires Reachable(st)
    ensures Reachable(Step(st, line))
  {
    var p := NextPending(st, line);
    NextPendingUrl(st, line);
    if Ready(p, st.known) {
      StoreReachable(st, p);
    }
  }

  lemma {:induction false} RunReachable(st: ParseState, lines: seq<string>)
    requires Reachable(st)
    ensures Reachable(Run(st, lines))
  {
    if lines != [] {
      RunReachable(st, lines[..|lines| - 1]);
      StepReachable(Run(st, lines[..|lines| - 1]), lines[|lines| - 1]);
    }
  }

  // ---------------------------------------------------------------------------
  // What a finished read holds

  /** Number of channels stored in `g`, over all groups. */
  function Count(g: Groups): nat
  {
    |AllUrls(g)|
  }

  /** After any file, the groups satisfy `GroupsOk` (no URL twice, no empty
      group, every channel named and with an `http` URL), and `known_urls`
      lists exactly the stored URLs, one per stored channel. */
  lemma ParseOk(lines: seq<string>)
    ensures Reachable(Parse(lines))
    ensures GroupsOk(Parse(lines).groups)
    ensures Count(Parse(lines).groups) == |Parse(lines).known|
    ensures forall u :: u in AllUrls(Parse(lines).groups) <==> u in Parse(lines).known
  {
    RunReachable(Start, lines);
    var st := Parse(lines);
    DistinctPermutation(st.known, AllUrls(st.groups));
    assert |multiset(AllUrls(st.groups))| == |multiset(st.known)|;
    forall u ensures u in AllUrls(st.groups) <==> u in st.known {
      assert u in AllUrls(st.groups) <==> u in multiset(AllUrls(st.groups));
      assert u in st.known <==> u in multiset(st.known);
    }
  }

  lemma {:induction false} UrlsOfConcat(a: seq<string>, b: seq<string>, m: map<string, seq<Entry>>)
    ensures UrlsOf(a + b, m) == UrlsOf(a, m) + UrlsOf(b, m)
  {
    if a == [] {
      assert a + b == b;
    } else {
      assert (a + b)[0] == a[0];
      assert (a + b)[1..] == a[1..] + b;
      UrlsOfConcat(a[1..], b, m);
    }
  }

  /** Where the `i`-th channel of the `k`-th group sits in `UrlsOf`. */
  lemma UrlAt(ts: seq<string>, m: map<string, seq<Entry>>, k: nat, i: nat)
    requires k < |ts| && ts[k] in m && i < |m[ts[k]]|
    ensures |UrlsOf(ts[..k], m)| + |m[ts[k]]| <= |UrlsOf(ts[..k + 1], m)| <= |UrlsOf(ts, m)|
    ensures UrlsOf(ts, m)[|UrlsOf(ts[..k], m)| + i] == m[ts[k]][i].url
  {
    assert ts == ts[..k] + [ts[k]] + ts[k + 1..];
    assert ts[..k + 1] == ts[..k] + [ts[k]];
    assert UrlsOf([ts[k]], m) == Urls(m[ts[k]]) by {
      assert [ts[k]][1..] == [];
    }
    UrlsOfConcat(ts[..k], [ts[k]], m);
    UrlsOfConcat(ts[..k] + [ts[k]], ts[k + 1..], m);
  }

  lemma UrlsOfPrefixGrows(ts: seq<string>, m: map<string, seq<Entry>>, k1: nat, k2: nat)
    requires k1 <= |ts| && k2 <= |ts|
    ensures k1 < k2 ==> |UrlsOf(ts[..k1 + 1], m)| <= |UrlsOf(ts[..k2], m)|
  {
    if k1 < k2 {
      assert ts[..k2] == ts[..k1 + 1] + ts[k1 + 1..k2];
      UrlsOfConcat(ts[..k1 + 1], ts[k1 + 1..k2], m);
    }
  }

  lemma DistinctUrlPositions(ts: seq<string>, m: map<string, seq<Entry>>, k1: nat, i: nat, k2: nat, j: nat)
    requires Distinct(UrlsOf(ts, m))
    requires k1 < |ts| && ts[k1] in m && i < |m[ts[k1]]|
    requires k2 < |ts| && ts[k2] in m && j < |m[ts[k2]]|
    requires m[ts[k1]][i].url == m[ts[k2]][j].url
    ensures k1 == k2 && i == j
  {
    UrlAt(ts, m, k1, i);
    UrlAt(ts, m, k2, j);
    UrlsOfPrefixGrows(ts, m, k1, k2);
    UrlsOfPrefixGrows(ts, m, k2, k1);
    var p1 := |UrlsOf(ts[..k1], m)| + i;
    var p2 := |UrlsOf(ts[..k2], m)| + j;
    var all := UrlsOf(ts, m);
    assert all[p1] == all[p2];
    assert p1 == p2;
  }

  /** No URL is stored twice: two stored channels with the same URL are the
      same channel of the same group. */
  lemma NoUrlInTwoPlaces(g: Groups, t1: string, i: nat, t2: string, j: nat)
    requires GroupsOk(g)
    requires t1 in g.entries && i < |g.entries[t1]|
    requires t2 in g.entries && j < |g.entries[t2]|
    requires g.entries[t1][i].url == g.entries[t2][j].url
    ensures t1 == t2 && i == j
  {
    assert WellFormed(g) && Distinct(AllUrls(g));
    var k1 :| 0 <= k1 < |g.titles| && g.titles[k1] == t1;
    var k2 :| 0 <= k2 < |g.titles| && g.titles[k2] == t2;
    DistinctUrlPositions(g.titles, g.entries, k1, i, k2, j);
  }

  // ---------------------------------------------------------------------------
  // Order: groups and channels are only ever appended

  /** `g2` grows `g1`: the group order of `g1` is a prefix of that of `g2`,
      and each group of `g1` is a prefix of the same group in `g2`. */
  ghost predicate Extends(g1: Groups, g2: Groups)
  {
    g1.titles <= g2.titles &&
    forall t :: t in g1.entries ==> t in g2.entries && g1.entries[t] <= g2.entries[t]
  }

  lemma ExtendsTransitive(g1: Groups, g2: Groups, g3: Groups)
    requires Extends(g1, g2) && Extends(g2, g3)
    ensures Extends(g1, g3)
  {
  }

  /** Storing a channel appends it at the end of its group, and a new group
      at the end of the group order. */
  lemma AddEntryAppends(g: Groups, t: string, e: Entry)
    requires WellFormed(g)
    ensures Extends(g, AddEntry(g, t, e))
    ensures AddEntry(g, t, e).entries[t] == (if t in g.entries then g.entries[t] else []) + [e]
    ensures AddEntry(g, t, e).titles == if t in g.entries then g.titles else g.titles + [t]
  {
  }

  lemma StepExtends(st: ParseState, line: string)
    requires WellFormed(st.groups)
    ensures Extends(st.groups, Step(st, line).groups)
  {
    var p := NextPending(st, line);
    if Ready(p, st.known) {
      AddEntryAppends(st.groups, p.group, Entry(p.name, p.url));
    }
  }

  lemma {:induction false} RunAppend(st: ParseState, a: seq<string>, b: seq<string>)
    ensures Run(st, a + b) == Run(Run(st, a), b)
  {
    if b == [] {
      assert a + b == a;
    } else {
      assert (a + b)[..|a + b| - 1] == a + b[..|b| - 1];
      RunAppend(st, a, b[..|b| - 1]);
    }
  }

  lemma {:induction false} RunExtends(st: ParseState, lines: seq<string>)
    requires Reachable(st)
    ensures Extends(st.groups, Run(st, lines).groups)
  {
    if lines != [] {
      var prev := Run(st, lines[..|lines| - 1]);
      RunExtends(st, lines[..|lines| - 1]);
      RunReachable(st, lines[..|lines| - 1]);
      StepExtends(prev, lines[|lines| - 1]);
      ExtendsTransitive(st.groups, prev.groups, Run(st, lines).groups);
    }
  }

  /** Reading more lines never reorders or removes anything: groups keep the
      order of their first channel, channels keep file order. */
  lemma ParseExtends(a: seq<string>, b: seq<string>)
    ensures Extends(Parse(a).groups, Parse(a + b).groups)
  {
    ParseOk(a);
    RunAppend(Start, a, b);
    RunExtends(Parse(a), b);
  }

  // ---------------------------------------------------------------------------
  // Single lines

  /** An `#EXTINF` line splits at its last comma: the name is the trimmed text
      after it, the group is looked for in the text before it. */
  lemma ExtinfSplitsAtLastComma(line: string, k: nat)
    requires k < |line| && line[k] == ','
    requires forall j :: k < j < |line| ==> line[j] != ','
    ensures ExtinfFields(line) == Pending(GroupTitle(line[..k]), Strip(line[k + 1..]), "")
  {
    LastCommaAt(line, k);
  }

  lemma LastCommaAt(line: string, k: nat)
    requires k < |line| && line[k] == ','
    requires forall j :: k < j < |line| ==> line[j] != ','
    ensures LastIndexOf(line, ',') == Some(k)
  {
    var r := LastIndexOf(line, ',');
    assert r.Some?;
    assert r.value == k by {
      assert !(r.value > k);
      assert !(r.value < k);
    }
  }

  /** An `#EXTINF` line without a comma leaves name and group empty. */
  lemma ExtinfWithoutComma(line: string)
    requires ',' !in line
    ensures ExtinfFields(line) == Cleared
  {
  }

  /** The group is the trimmed text from the first `group-title="` up to the
      next `"` (or the end). */
  lemma GroupTitleAtFirstAttribute(head: string, j: nat)
    requires OccursAt(head, GroupTitleAttr, j)
    requires forall i :: 0 <= i < j ==> !OccursAt(head, GroupTitleAttr, i)
    ensures GroupTitle(head) == Strip(UpTo(head[j + |GroupTitleAttr|..], '"'))
  {
    var r := Find(head, GroupTitleAttr);
    assert r.Some?;
    assert r.value == j by {
      assert !(r.value < j);
      assert !(r.value > j);
    }
  }

  lemma GroupTitleWithoutAttribute(head: string)
    requires forall i :: !OccursAt(head, GroupTitleAttr, i)
    ensures GroupTitle(head) == ""
  {
  }

  /** An `#EXTINF` line replaces all three pending fields and never stores an
      entry by itself. */
  lemma ExtinfLineRestarts(st: ParseState, line: string)
    requires StartsWith(line, ExtinfTag)
    ensures Step(st, line) == st.(pending := ExtinfFields(line))
  {
  }

  /** A line that starts with neither `#EXTINF:` nor `http` changes nothing. */
  lemma OtherLineIgnored(st: ParseState, line: string)
    requires Reachable(st)
    requires !StartsWith(line, ExtinfTag) && !StartsWith(line, HttpTag)
    ensures Step(st, line) == st
  {
  }

  lemma HttpIsNotExtinf(line: string)
    requires StartsWith(line, HttpTag)
    ensures !StartsWith(line, ExtinfTag)
  {
    assert line[0] == HttpTag[0];
  }

  /** An `http` line whose URL is already stored only replaces the pending URL:
      name and group stay, so a later new URL in the same block still
      completes the entry. */
  lemma KnownUrlKeepsPending(st: ParseState, line: string)
    requires Reachable(st) && StartsWith(line, HttpTag) && Strip(line) in st.known
    ensures Step(st, line) == st.(pending := st.pending.(url := Strip(line)))
  {
    HttpIsNotExtinf(line);
  }

  /** An `http` line with a new URL, while name and group are pending, stores
      the channel at the end of its group and clears the pending fields. */
  lemma NewUrlStores(st: ParseState, line: string)
    requires StartsWith(line, HttpTag) && Strip(line) !in st.known
    requires st.pending.name != "" && st.pending.group != ""
    ensures Step(st, line) ==
      ParseState(AddEntry(st.groups, st.pending.group, Entry(st.pending.name, Strip(line))),
                 st.known + [Strip(line)], Cleared)
  {
    HttpIsNotExtinf(line);
    HttpSurvivesStrip(line);
  }

  /** A step either stores nothing, or stores one channel and clears the
      pending fields. */
  lemma StepStoresAtMostOne(st: ParseState, line: string)
    requires Reachable(st)
    ensures var next := Step(st, line);
      (next.groups == st.groups && next.pending == NextPending(st, line)) ||
      (Count(next.groups) == Count(st.groups) + 1 && next.pending == Cleared)
  {
    var p := NextPending(st, line);
    if Ready(p, st.known) {
      AddEntryUrls(st.groups, p.group, Entry(p.name, p.url));
      assert |multiset(AllUrls(Step(st, line).groups))| == |multiset(AllUrls(st.groups))| + 1;
    }
  }

  lemma {:induction false} BlockInvariant(st: ParseState, line: string, rest: seq<string>)
    requires Reachable(st) && StartsWith(line, ExtinfTag)
    requires forall i :: 0 <= i < |rest| ==> !StartsWith(rest[i], ExtinfTag)
    ensures var r := Run(st, [line] + rest);
      Reachable(r) &&
      (r.groups == st.groups || (Count(r.groups) == Count(st.groups) + 1 && r.pending.name == ""))
  {
    RunReachable(st, [line] + rest);
    if rest == [] {
      assert Run(st, [line]) == Step(Run(st, []), line);
    } else {
      var rest' := rest[..|rest| - 1];
      assert ([line] + rest)[..|[line] + rest| - 1] == [line] + rest';
      BlockInvariant(st, line, rest');
      var prev := Run(st, [line] + rest');
      StepStoresAtMostOne(prev, rest[|rest| - 1]);
    }
  }

  /** One `#EXTINF` block (the `#EXTINF` line and the lines up to the next
      one) stores at most one channel: a second `http` line in the block is
      dropped. */
  lemma BlockStoresAtMostOne(st: ParseState, line: string, rest: seq<string>)
    requires Reachable(st) && StartsWith(line, ExtinfTag)
    requires forall i :: 0 <= i < |rest| ==> !StartsWith(rest[i], ExtinfTag)
    ensures Count(Run(st, [line] + rest).groups) <= Count(st.groups) + 1
  {
    BlockInvariant(st, line, rest);
  }

  /** An `#EXTINF` block whose line yields no name or no group (no comma, or
      no `group-title="` attribute, or only whitespace there) stores nothing:
      the missing field stays empty through the block, so no URL completes an
      entry, and the groups and the known URLs are as before the block. */
  lemma {:induction false} IncompleteBlockStoresNothing(st: ParseState, line: string, rest: seq<string>)
    requires StartsWith(line, ExtinfTag)
    requires ExtinfFields(line).name == "" || ExtinfFields(line).group == ""
    requires forall i :: 0 <= i < |rest| ==> !StartsWith(rest[i], ExtinfTag)
    ensures var r := Run(st, [line] + rest);
      r.groups == st.groups && r.known == st.known &&
      r.pending.name == ExtinfFields(line).name && r.pending.group == ExtinfFields(line).group
  {
    if rest == [] {
      assert Run(st, [line]) == Step(Run(st, []), line);
    } else {
      var rest' := rest[..|rest| - 1];
      assert ([line] + rest)[..|[line] + rest| - 1] == [line] + rest';
      IncompleteBlockStoresNothing(st, line, rest');
      assert !StartsWith(rest[|rest| - 1], ExtinfTag);
    }
  }
}
