/** The line lists `createBouquet` hands to the receiver's bouquet database:
    one bouquet per selected group, in the order of the groups' display
    labels; each starts with a marker line naming the group and holds one
    service line per channel, channels sorted by name and then URL. */
module Bouquet {
  import opened Text
  import opened Sorting
  import opened M3u

  /** Prefix of the marker line that titles a bouquet. */
  const MarkerPrefix := "1:64:0:0:0:0:0:0:0:0:"
  /** Prefix of a service line: an IPTV stream reference. */
  const ServicePrefix := "4097:0:1:1:1:1:CCCC0000:0:0:0:"
  /** What a `:` in a URL becomes inside a service line. */
  const EscapedColon := "%3a"

  // ---------------------------------------------------------------------------
  // Escaping a URL for a service line

  /** The URL with every `:` replaced by `%3a`. */
  function Escape(url: string): (r: string)
    ensures ':' !in r
    ensures |r| >= |url|
  {
    if url == [] then []
    else (if url[0] == ':' then EscapedColon else [url[0]]) + Escape(url[1..])
  }

  /** Reads a URL back from a service line: every `%3a` becomes `:` again,
      scanning from the left. */
  function Unescape(s: string): string
  {
    if s == [] then []
    else if StartsWith(s, EscapedColon) then [':'] + Unescape(s[|EscapedColon|..])
    else [s[0]] + Unescape(s[1..])
  }

  /** The URL does not itself contain `%3a`; otherwise the escaped text could
      not tell that `%3a` from an escaped `:`. */
  predicate NoEscapedColon(url: string)
  {
    forall i :: 0 <= i < |url| ==> !StartsWith(url[i..], EscapedColon)
  }

  lemma NoEscapedColonTail(url: string)
    requires url != [] && NoEscapedColon(url)
    ensures NoEscapedColon(url[1..])
  {
    forall i | 0 <= i < |url[1..]| ensures !StartsWith(url[1..][i..], EscapedColon) {
      assert url[1..][i..] == url[i + 1..];
    }
  }

  /** The first two characters of an escaped URL, when they come from
      characters that are not `:`. */
  lemma EscapeStart(url: string)
    requires url != [] && url[0] != ':'
    ensures Escape(url) == [url[0]] + Escape(url[1..])
    ensures |url| > 1 && url[1] != ':' ==> Escape(url[1..])[0] == url[1]
    ensures |url| > 1 && url[1] == ':' ==> Escape(url[1..])[0] == '%'
  {
  }

  /** Escaping loses nothing: reading a service line's URL field back gives
      the URL, provided the URL has no `%3a` of its own. */
  lemma {:induction false} UnescapeEscape(url: string)
    requires NoEscapedColon(url)
    ensures Unescape(Escape(url)) == url
  {
    if url != [] {
      NoEscapedColonTail(url);
      UnescapeEscape(url[1..]);
      var e := Escape(url[1..]);
      if url[0] == ':' {
        assert Escape(url) == EscapedColon + e;
        assert (EscapedColon + e)[|EscapedColon|..] == e;
      } else {
        EscapeStart(url);
        assert url[0..] == url;
        assert !StartsWith(url, EscapedColon);
        assert !StartsWith([url[0]] + e, EscapedColon) by {
          if url[0] == '%' && |e| >= 2 {
            if |url| > 2 && url[1] == '3' {
              EscapeStart(url[1..]);
              assert url[1..][1..] == url[2..];
            }
          }
        }
        assert ([url[0]] + e)[1..] == e;
      }
    }
  }

  // ---------------------------------------------------------------------------
  // Lines

  /** The line that titles a bouquet with the group's display label. */
  function MarkerLine(caption: string): string
  {
    MarkerPrefix + caption
  }

  /** The service line of one channel: the stream reference with the escaped
      URL as its URL field, then the channel name. */
  function ServiceLine(e: Entry): string
  {
    ServicePrefix + Escape(e.url) + ":" + e.name
  }

  /** Reads a channel back from a service line: the URL field runs to the
      next `:` after the prefix, the name is the rest of the line. */
  function ReadService(line: string): Option<Entry>
  {
    if !StartsWith(line, ServicePrefix) then None
    else
      var rest := line[|ServicePrefix|..];
      match IndexOf(rest, ':')
      case None => None
      case Some(k) => Some(Entry(rest[k + 1..], Unescape(rest[..k])))
  }

  /** A service line holds its channel: name and URL read back unchanged,
      whatever the name contains, since the escaped URL field has no `:`. */
  lemma ServiceLineRoundTrip(e: Entry)
    requires NoEscapedColon(e.url)
    ensures ReadService(ServiceLine(e)) == Some(e)
  {
    var line := ServiceLine(e);
    var u := Escape(e.url);
    assert line[..|ServicePrefix|] == ServicePrefix;
    var rest := line[|ServicePrefix|..];
    assert rest == u + ":" + e.name;
    assert rest[|u|] == ':';
    assert forall j :: 0 <= j < |u| ==> rest[j] == u[j];
    assert IndexOf(rest, ':') == Some(|u|);
    assert rest[..|u|] == u;
    assert rest[|u| + 1..] == e.name;
    UnescapeEscape(e.url);
  }

  /** A marker line is never read as a channel. */
  lemma MarkerIsNotService(caption: string)
    ensures ReadService(MarkerLine(caption)) == None
  {
    assert MarkerLine(caption)[0] == '1' != ServicePrefix[0];
  }

  // ---------------------------------------------------------------------------
  // Orders

  /** Python's order on `(name, url)` pairs: by name, then by URL. */
  predicate EntryLe(a: Entry, b: Entry)
  {
    if a.name != b.name then StrLe(a.name, b.name) else StrLe(a.url, b.url)
  }

  /** Channels are totally ordered: any two compare, the order is transitive,
      and two channels that compare both ways are the same channel. */
  lemma EntryLeTotalOrder()
    ensures TotalPreorder(EntryLe)
    ensures forall a, b :: EntryLe(a, b) && EntryLe(b, a) ==> a == b
  {
    forall a, b ensures EntryLe(a, b) || EntryLe(b, a) {
      StrLeTotal(a.name, b.name);
      StrLeTotal(a.url, b.url);
    }
    forall a, b, c | EntryLe(a, b) && EntryLe(b, c) ensures EntryLe(a, c) {
      EntryLeTransitive(a, b, c);
    }
    forall a, b | EntryLe(a, b) && EntryLe(b, a) ensures a == b {
      if a.name != b.name {
        StrLeAntisymmetric(a.name, b.name);
      } else {
        StrLeAntisymmetric(a.url, b.url);
      }
    }
  }

  lemma EntryLeTransitive(a: Entry, b: Entry, c: Entry)
    requires EntryLe(a, b) && EntryLe(b, c)
    ensures EntryLe(a, c)
  {
    if a.name == b.name && b.name == c.name {
      StrLeTransitive(a.url, b.url, c.url);
    } else if a.name == b.name {
      assert StrLe(b.name, c.name);
    } else if b.name == c.name {
      assert StrLe(a.name, b.name);
    } else {
      StrLeTransitive(a.name, b.name, c.name);
      if a.name == c.name {
        StrLeAntisymmetric(a.name, b.name);
      }
    }
  }

  /** The sort key of a group: its display label, lower-cased. The label is
      the translation table's entry for the title (the title itself when it
      has none), the same `labelOf` that names the marker line. Both the table
      and the case folding come from outside this model, so they are
      parameters. */
  function SortKey(labelOf: string -> string, lower: string -> string): string -> string
  {
    t => lower(labelOf(t))
  }

  /** The order `sorted` puts groups in: by key, compared as strings. */
  function KeyLe(key: string -> string): (string, string) -> bool
  {
    (a: string, b: string) => StrLe(key(a), key(b))
  }

  lemma KeyLeTotalPreorder(key: string -> string)
    ensures TotalPreorder(KeyLe(key))
  {
    var le := KeyLe(key);
    forall a, b ensures le(a, b) || le(b, a) {
      StrLeTotal(key(a), key(b));
    }
    forall a, b, c | le(a, b) && le(b, c) ensures le(a, c) {
      StrLeTransitive(key(a), key(b), key(c));
    }
  }

  // ---------------------------------------------------------------------------
  // Bouquets

  /** The groups to turn into bouquets: the titles that are also enabled,
      sorted by lower-cased label. Titles whose labels tie keep their
      first-appearance order. */
  function GroupOrder(titles: seq<string>, enabled: seq<string>, key: string -> string): (r: seq<string>)
    ensures forall t :: t in r <==> t in titles && t in enabled
    ensures multiset(r) == multiset(Keep(titles, enabled))
    ensures Distinct(titles) ==> Distinct(r)
  {
    SortKept(titles, enabled, KeyLe(key));
    SortBy(Keep(titles, enabled), KeyLe(key))
  }

  /** The groups come in ascending order of lower-cased label. */
  lemma GroupOrderSorted(titles: seq<string>, enabled: seq<string>, key: string -> string)
    ensures SortedBy(GroupOrder(titles, enabled, key), KeyLe(key))
  {
    KeyLeTotalPreorder(key);
    SortBySorted(Keep(titles, enabled), KeyLe(key));
  }

  /** Groups whose labels tie keep the order in which they first appeared:
      the enabled titles tied with `k` come in the order of `titles`. */
  lemma GroupOrderStable(titles: seq<string>, enabled: seq<string>, key: string -> string, k: string)
    ensures Ties(GroupOrder(titles, enabled, key), KeyLe(key), k) == Ties(Keep(titles, enabled), KeyLe(key), k)
    ensures Ties(GroupOrder(titles, enabled, key), KeyLe(key), k) == Keep(Ties(titles, KeyLe(key), k), enabled)
  {
    KeyLeTotalPreorder(key);
    SortByStable(Keep(titles, enabled), KeyLe(key), k);
    KeepTies(titles, enabled, KeyLe(key), k);
  }

  /** One bouquet: the group's title and its lines. */
  datatype Bouquet = Bouquet(group: string, lines: seq<string>)

  function ServiceLines(es: seq<Entry>): (r: seq<string>)
    ensures |r| == |es| && forall i :: 0 <= i < |es| ==> r[i] == ServiceLine(es[i])
  {
    if es == [] then []
    else ServiceLines(es[..|es| - 1]) + [ServiceLine(es[|es| - 1])]
  }

  /** A group's lines: nothing for a group without channels, else the
      marker line and the channels' service lines in `(name, url)` order. */
  function GroupLines(caption: string, es: seq<Entry>): seq<string>
  {
    if es == [] then [] else [MarkerLine(caption)] + ServiceLines(SortBy(es, EntryLe))
  }

  /** The lines of a non-empty group list its channels exactly once each, in
      ascending `(name, url)` order, after the marker line. */
  lemma GroupLinesShape(caption: string, es: seq<Entry>)
    requires es != []
    ensures var r, s := GroupLines(caption, es), SortBy(es, EntryLe);
      |r| == |es| + 1 && r[0] == MarkerLine(caption) &&
      multiset(s) == multiset(es) && SortedBy(s, EntryLe) &&
      forall i :: 0 <= i < |s| ==> r[i + 1] == ServiceLine(s[i])
  {
    var s := SortedEntries(es);
    var r := GroupLines(caption, es);
    assert r == [MarkerLine(caption)] + ServiceLines(s);
  }

  /** The channels of a group in `(name, url)` order: the same channels,
      sorted. */
  lemma SortedEntries(es: seq<Entry>) returns (s: seq<Entry>)
    ensures s == SortBy(es, EntryLe)
    ensures |s| == |es| && multiset(s) == multiset(es) && SortedBy(s, EntryLe)
  {
    EntryLeTotalOrder();
    SortBySorted(es, EntryLe);
    s := SortBy(es, EntryLe);
    assert |multiset(s)| == |multiset(es)|;
  }

  /** Every service line of channels whose URLs hold no `%3a` reads back as
      its channel. */
  lemma ServiceLinesRead(s: seq<Entry>)
    requires forall i :: 0 <= i < |s| ==> NoEscapedColon(s[i].url)
    ensures forall i :: 0 <= i < |s| ==> ReadService(ServiceLines(s)[i]) == Some(s[i])
  {
    forall i | 0 <= i < |s| ensures ReadService(ServiceLines(s)[i]) == Some(s[i]) {
      ServiceLineRoundTrip(s[i]);
    }
  }

  /** How a group's lines are made from its title and channels: `GroupLines`
      under the group's label. Passed to `BouquetsOf` as a value, so that
      facts about the order of bouquets are proved for any way of making lines. */
  function Render(labelOf: string -> string): (string, seq<Entry>) -> seq<string>
  {
    (t: string, es: seq<Entry>) => GroupLines(labelOf(t), es)
  }

  /** A group with channels has lines. */
  lemma RenderNonEmpty(labelOf: string -> string)
    ensures forall t, es :: es != [] ==> Render(labelOf)(t, es) != []
  {
    forall t, es | es != [] ensures Render(labelOf)(t, es) != [] {
      assert GroupLines(labelOf(t), es)[0] == MarkerLine(labelOf(t));
    }
  }

  /** The bouquets of the groups in `order`, skipping groups without lines. */
  function BouquetsOf(order: seq<string>, m: map<string, seq<Entry>>,
                      render: (string, seq<Entry>) -> seq<string>): (r: seq<Bouquet>)
    requires forall t :: t in order ==> t in m
    ensures |r| <= |order|
  {
    if order == [] then []
    else
      var init, t := order[..|order| - 1], order[|order| - 1];
      assert forall u :: u in init ==> u in order;
      var lines := render(t, m[t]);
      BouquetsOf(init, m, render) + (if lines != [] then [Bouquet(t, lines)] else [])
  }

  /** The positions in `order` whose group has lines, in increasing order:
      the titles `createBouquet` makes a bouquet for. */
  function LinedPositions(order: seq<string>, m: map<string, seq<Entry>>,
                          render: (string, seq<Entry>) -> seq<string>): (idx: seq<nat>)
    requires forall t :: t in order ==> t in m
    ensures forall k :: 0 <= k < |idx| ==> idx[k] < |order|
  {
    if order == [] then []
    else
      var n := |order| - 1;
      assert forall u :: u in order[..n] ==> u in order;
      LinedPositions(order[..n], m, render) + (if render(order[n], m[order[n]]) != [] then [n] else [])
  }

  /** The positions strictly increase: bouquets keep the order of `order`. */
  lemma {:induction false} LinedPositionsIncrease(order: seq<string>, m: map<string, seq<Entry>>,
                                                  render: (string, seq<Entry>) -> seq<string>)
    requires forall t :: t in order ==> t in m
    ensures forall k, l :: 0 <= k < l < |LinedPositions(order, m, render)| ==>
      LinedPositions(order, m, render)[k] < LinedPositions(order, m, render)[l]
  {
    if order != [] {
      var n := |order| - 1;
      assert forall u :: u in order[..n] ==> u in order;
      var idx0 := LinedPositions(order[..n], m, render);
      LinedPositionsIncrease(order[..n], m, render);
      var idx := LinedPositions(order, m, render);
      assert idx == idx0 + (if render(order[n], m[order[n]]) != [] then [n] else []);
      forall k, l | 0 <= k < l < |idx| ensures idx[k] < idx[l] {
        assert k < |idx0|;
        assert idx[k] == idx0[k] < |order[..n]|;
        if l < |idx0| {
          assert idx[l] == idx0[l];
        } else {
          assert idx[l] == n;
        }
      }
    }
  }

  /** The `k`-th bouquet is the title at the `k`-th lined position, with its
      lines, which are not empty. */
  lemma {:induction false} BouquetsAtLinedPositions(order: seq<string>, m: map<string, seq<Entry>>,
                                                    render: (string, seq<Entry>) -> seq<string>)
    requires forall t :: t in order ==> t in m
    ensures var r, idx := BouquetsOf(order, m, render), LinedPositions(order, m, render);
      |idx| == |r| &&
      forall k :: 0 <= k < |idx| ==>
        r[k] == Bouquet(order[idx[k]], render(order[idx[k]], m[order[idx[k]]])) && r[k].lines != []
  {
    if order != [] {
      var n := |order| - 1;
      var init := order[..n];
      assert forall u :: u in init ==> u in order;
      BouquetsAtLinedPositions(init, m, render);
      var idx0, front := LinedPositions(init, m, render), BouquetsOf(init, m, render);
      var r, idx := BouquetsOf(order, m, render), LinedPositions(order, m, render);
      forall k | 0 <= k < |idx|
        ensures r[k] == Bouquet(order[idx[k]], render(order[idx[k]], m[order[idx[k]]])) && r[k].lines != []
      {
        if k < |idx0| {
          assert idx[k] == idx0[k] && r[k] == front[k] && init[idx0[k]] == order[idx0[k]];
        }
      }
    }
  }

  /** A position left out is a group without lines: nothing else is skipped. */
  lemma {:induction false} UnlinedPositionsSkipped(order: seq<string>, m: map<string, seq<Entry>>,
                                                   render: (string, seq<Entry>) -> seq<string>)
    requires forall t :: t in order ==> t in m
    ensures var idx := LinedPositions(order, m, render);
      forall p :: 0 <= p < |order| && p !in idx ==> render(order[p], m[order[p]]) == []
  {
    if order != [] {
      var n := |order| - 1;
      var init := order[..n];
      assert forall u :: u in init ==> u in order;
      UnlinedPositionsSkipped(init, m, render);
      var idx0, idx := LinedPositions(init, m, render), LinedPositions(order, m, render);
      forall p | 0 <= p < |order| && p !in idx ensures render(order[p], m[order[p]]) == [] {
        if p < n {
          assert p !in idx0 && init[p] == order[p];
        }
      }
    }
  }

  /** Every bouquet is that of a title in `order` with lines, and every such
      title has its bouquet: only groups without lines are skipped. */
  lemma BouquetsOfMembers(order: seq<string>, m: map<string, seq<Entry>>,
                          render: (string, seq<Entry>) -> seq<string>)
    requires forall t :: t in order ==> t in m
    ensures var r := BouquetsOf(order, m, render);
      (forall b :: b in r ==> b.group in order && b.lines != [] && b.lines == render(b.group, m[b.group])) &&
      (forall t :: t in order && render(t, m[t]) != [] ==> Bouquet(t, render(t, m[t])) in r)
  {
    var r, idx := BouquetsOf(order, m, render), LinedPositions(order, m, render);
    BouquetsAtLinedPositions(order, m, render);
    UnlinedPositionsSkipped(order, m, render);
    forall b | b in r ensures b.group in order && b.lines != [] && b.lines == render(b.group, m[b.group]) {
      var k :| 0 <= k < |r| && r[k] == b;
    }
    forall t | t in order && render(t, m[t]) != [] ensures Bouquet(t, render(t, m[t])) in r {
      var p :| 0 <= p < |order| && order[p] == t;
      assert p in idx;
      var k :| 0 <= k < |idx| && idx[k] == p;
      assert r[k] == Bouquet(t, render(t, m[t]));
    }
  }

  /** When every group in `order` has lines, there is one bouquet per group,
      in that order. */
  lemma {:induction false} BouquetsOfAll(order: seq<string>, m: map<string, seq<Entry>>,
                                         render: (string, seq<Entry>) -> seq<string>)
    requires forall t :: t in order ==> t in m && m[t] != []
    requires forall t, es :: es != [] ==> render(t, es) != []
    ensures var r := BouquetsOf(order, m, render);
      |r| == |order| && forall i :: 0 <= i < |r| ==> r[i] == Bouquet(order[i], render(order[i], m[order[i]]))
  {
    if order != [] {
      var init, t := order[..|order| - 1], order[|order| - 1];
      assert forall u :: u in init ==> u in order;
      BouquetsOfAll(init, m, render);
      var front := BouquetsOf(init, m, render);
      var r := front + [Bouquet(t, render(t, m[t]))];
      forall i | 0 <= i < |r| ensures r[i] == Bouquet(order[i], render(order[i], m[order[i]])) {
        if i < |front| {
          assert r[i] == front[i];
          assert init[i] == order[i];
        }
      }
    }
  }

  /** `createBouquet`'s result for one category's groups. */
  function Bouquets(g: Groups, enabled: seq<string>, labelOf: string -> string, key: string -> string): seq<Bouquet>
    requires WellFormed(g)
  {
    BouquetsOf(GroupOrder(g.titles, enabled, key), g.entries, Render(labelOf))
  }

  /** For groups the reader built, every group that is present and enabled
      gets exactly one bouquet, in label order, holding its channels. */
  lemma BouquetsOfParsedGroups(g: Groups, enabled: seq<string>, labelOf: string -> string, key: string -> string)
    requires WellFormed(g) && EntriesOk(g)
    ensures var r, order := Bouquets(g, enabled, labelOf, key), GroupOrder(g.titles, enabled, key);
      |r| == |order| &&
      (forall t :: t in order <==> t in g.entries && t in enabled) &&
      forall i :: 0 <= i < |r| ==>
        r[i].group == order[i] && r[i].lines == GroupLines(labelOf(order[i]), g.entries[order[i]])
  {
    var order := GroupOrder(g.titles, enabled, key);
    BouquetsOfListed(g, order, labelOf);
  }

  /** For groups the reader built, listing titles of groups gives one bouquet
      per title, in that order, holding the group's lines. */
  lemma BouquetsOfListed(g: Groups, order: seq<string>, labelOf: string -> string)
    requires WellFormed(g) && EntriesOk(g)
    requires forall t :: t in order ==> t in g.titles
    ensures forall t :: t in order ==> t in g.entries
    ensures var r := BouquetsOf(order, g.entries, Render(labelOf));
      |r| == |order| &&
      forall i :: 0 <= i < |r| ==>
        r[i].group == order[i] && r[i].lines == GroupLines(labelOf(order[i]), g.entries[order[i]])
  {
    ParsedGroupsHaveChannels(g, order);
    RenderNonEmpty(labelOf);
    BouquetsOfAll(order, g.entries, Render(labelOf));
  }

  /** Every title of groups the reader built names a group with channels. */
  lemma ParsedGroupsHaveChannels(g: Groups, order: seq<string>)
    requires WellFormed(g) && EntriesOk(g)
    requires forall t :: t in order ==> t in g.titles
    ensures forall t :: t in order ==> t in g.entries && g.entries[t] != []
  {
    forall t | t in order ensures t in g.entries && g.entries[t] != [] {
      var k :| 0 <= k < |g.titles| && g.titles[k] == t;
    }
  }
}
