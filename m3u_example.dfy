/** Worked examples of the reader, for any group title, channel names and
    URLs of the usual shape: two `#EXTINF` blocks of one group; the same file
    with the second `#EXTINF` line missing; and a block whose first URL is a
    duplicate. Lines carry the newline that reading a file leaves on them. */
module M3uExample {
  import opened Text
  import opened M3u

  /** `#EXTINF:-1 `: the tag and the duration, before the attributes. */
  const ExtinfHead := "#EXTINF:-1 "
  const InfoPrefix := ExtinfHead + GroupTitleAttr

  /** `#EXTINF:-1 group-title="<group>",<name>` and a newline. */
  function InfoLine(group: string, name: string): string
  {
    InfoPrefix + group + "\"," + name + "\n"
  }

  /** Non-empty, with no whitespace at either end. */
  predicate Trimmed(s: string)
  {
    s != [] && !IsSpace(s[0]) && !IsSpace(s[|s| - 1])
  }

  /** A group title, a channel name and a URL as the examples use them. */
  predicate GoodGroup(g: string) { Trimmed(g) && '"' !in g }
  predicate GoodName(n: string) { Trimmed(n) && ',' !in n }
  predicate GoodUrl(u: string) { Trimmed(u) && StartsWith(u, HttpTag) }

  lemma StripTrimmed(s: string)
    requires Trimmed(s)
    ensures Strip(s) == s
  {
    assert LStrip(s) == s;
    assert RStrip(s) == s;
  }

  lemma StripNewline(s: string)
    requires Trimmed(s)
    ensures Strip(s + "\n") == s
  {
    var t := s + "\n";
    assert LStrip(t) == t;
    assert t[..|t| - 1] == s;
    assert RStrip(s) == s;
  }

  /** Text before the attribute that holds no `g` cannot hold the attribute. */
  lemma AttributeAfter(a: string, rest: string)
    requires 'g' !in a
    ensures GroupTitle(a + GroupTitleAttr + rest) == Strip(UpTo(rest, '"'))
  {
    var head := a + GroupTitleAttr + rest;
    var n := |GroupTitleAttr|;
    assert head[|a|..|a| + n] == GroupTitleAttr;
    forall i | 0 <= i < |a| ensures !OccursAt(head, GroupTitleAttr, i) {
      assert head[i] == a[i] != GroupTitleAttr[0];
      assert i + n <= |head| ==> head[i..i + n][0] == head[i];
    }
    GroupTitleAtFirstAttribute(head, |a|);
    assert head[|a| + n..] == rest;
  }

  lemma HeadTitle(head: string, g: string)
    requires GoodGroup(g) && head == InfoPrefix + g + "\""
    ensures GroupTitle(head) == g
  {
    var q := g + "\"";
    assert head == ExtinfHead + GroupTitleAttr + q;
    assert 'g' !in ExtinfHead;
    AttributeAfter(ExtinfHead, q);
    assert IndexOf(q, '"') == Some(|g|) by {
      assert q[|g|] == '"';
      assert forall j :: 0 <= j < |g| ==> q[j] == g[j];
    }
    assert UpTo(q, '"') == g;
    StripTrimmed(g);
  }

  lemma InfoLineFields(g: string, n: string)
    requires GoodGroup(g) && GoodName(n)
    ensures ExtinfFields(InfoLine(g, n)) == Pending(g, n, "")
  {
    var line := InfoLine(g, n);
    var k := |InfoPrefix| + |g| + 1;
    assert line[k] == ',';
    assert line[..k] == InfoPrefix + g + "\"";
    assert line[k + 1..] == n + "\n";
    assert forall j :: k < j < |line| ==> line[j] != ',' by {
      forall j | k < j < |line| ensures line[j] != ',' {
        if j < |line| - 1 { assert line[j] == n[j - k - 1]; }
      }
    }
    ExtinfSplitsAtLastComma(line, k);
    HeadTitle(line[..k], g);
    StripNewline(n);
  }

  lemma InfoLineIsExtinf(g: string, n: string)
    ensures StartsWith(InfoLine(g, n), ExtinfTag)
  {
    assert InfoLine(g, n)[..8] == ExtinfTag;
  }

  lemma UrlLine(u: string)
    requires GoodUrl(u)
    ensures StartsWith(u + "\n", HttpTag) && Strip(u + "\n") == u
  {
    assert (u + "\n")[..4] == u[..4];
    StripNewline(u);
  }

  /** The `#EXTINF` line of a block sets name and group and stores nothing. */
  lemma InfoStep(st: ParseState, g: string, n: string)
    requires GoodGroup(g) && GoodName(n)
    ensures Step(st, InfoLine(g, n)) == st.(pending := Pending(g, n, ""))
  {
    InfoLineIsExtinf(g, n);
    InfoLineFields(g, n);
    ExtinfLineRestarts(st, InfoLine(g, n));
  }

  /** A new URL after name and group stores the channel. */
  lemma UrlStep(st: ParseState, u: string)
    requires GoodUrl(u) && u !in st.known
    requires st.pending.name != "" && st.pending.group != ""
    ensures Step(st, u + "\n") ==
      ParseState(AddEntry(st.groups, st.pending.group, Entry(st.pending.name, u)), st.known + [u], Cleared)
  {
    UrlLine(u);
    NewUrlStores(st, u + "\n");
  }

  /** A block of an `#EXTINF` line and a new URL line stores one channel,
      whatever came before it. */
  lemma BlockStores(st: ParseState, g: string, n: string, u: string)
    requires GoodGroup(g) && GoodName(n) && GoodUrl(u) && u !in st.known
    ensures Run(st, [InfoLine(g, n), u + "\n"]) ==
      ParseState(AddEntry(st.groups, g, Entry(n, u)), st.known + [u], Cleared)
  {
    var lines := [InfoLine(g, n), u + "\n"];
    assert lines[..1] == [InfoLine(g, n)];
    assert Run(st, lines[..1]) == Step(st, InfoLine(g, n)) by {
      assert lines[..1][..0] == [];
    }
    InfoStep(st, g, n);
    UrlStep(st.(pending := Pending(g, n, "")), u);
  }

  lemma FirstEntry(g: string, e: Entry)
    ensures AddEntry(NoGroups, g, e) == Groups([g], map[g := [e]])
  {
    AddEntryAppends(NoGroups, g, e);
    var r := AddEntry(NoGroups, g, e);
    assert r.entries.Keys == {g};
    assert r.entries[g] == [e];
  }

  lemma SecondEntry(g: string, e1: Entry, e2: Entry)
    ensures AddEntry(Groups([g], map[g := [e1]]), g, e2) == Groups([g], map[g := [e1, e2]])
  {
    assert [e1] + [e2] == [e1, e2];
  }

  /** The first block of a file stores its channel as the only one, and the
      state after it meets the loop invariant. */
  lemma FirstBlock(g: string, n: string, u: string)
    requires GoodGroup(g) && GoodName(n) && GoodUrl(u)
    ensures Run(Start, [InfoLine(g, n), u + "\n"]) ==
      ParseState(Groups([g], map[g := [Entry(n, u)]]), [u], Cleared)
    ensures Reachable(Run(Start, [InfoLine(g, n), u + "\n"]))
  {
    BlockStores(Start, g, n, u);
    FirstEntry(g, Entry(n, u));
    RunReachable(Start, [InfoLine(g, n), u + "\n"]);
  }

  /** Two blocks of one group give that group with both channels, in file
      order. */
  lemma TwoChannels(g: string, n1: string, u1: string, n2: string, u2: string)
    requires GoodGroup(g) && GoodName(n1) && GoodName(n2) && GoodUrl(u1) && GoodUrl(u2)
    requires u1 != u2
    ensures Parse([InfoLine(g, n1), u1 + "\n", InfoLine(g, n2), u2 + "\n"]).groups ==
      Groups([g], map[g := [Entry(n1, u1), Entry(n2, u2)]])
  {
    var b1, b2 := [InfoLine(g, n1), u1 + "\n"], [InfoLine(g, n2), u2 + "\n"];
    assert [InfoLine(g, n1), u1 + "\n", InfoLine(g, n2), u2 + "\n"] == b1 + b2;
    RunAppend(Start, b1, b2);
    FirstBlock(g, n1, u1);
    BlockStores(Run(Start, b1), g, n2, u2);
    SecondEntry(g, Entry(n1, u1), Entry(n2, u2));
  }

  /** With the second `#EXTINF` line missing, the second URL line finds the
      pending fields cleared and is dropped: only the first channel is stored. */
  lemma SecondUrlDropped(g: string, n: string, u1: string, u2: string)
    requires GoodGroup(g) && GoodName(n) && GoodUrl(u1) && GoodUrl(u2)
    ensures Parse([InfoLine(g, n), u1 + "\n", u2 + "\n"]).groups ==
      Groups([g], map[g := [Entry(n, u1)]])
  {
    var b1 := [InfoLine(g, n), u1 + "\n"];
    assert [InfoLine(g, n), u1 + "\n", u2 + "\n"] == b1 + [u2 + "\n"];
    FirstBlock(g, n, u1);
    var st2 := Run(Start, b1);
    assert Run(Start, b1 + [u2 + "\n"]) == Step(st2, u2 + "\n") by {
      assert (b1 + [u2 + "\n"])[..2] == b1;
    }
    UrlLine(u2);
    HttpIsNotExtinf(u2 + "\n");
  }

  /** A block whose first URL was already stored keeps its name and group
      through that URL, and its next new URL completes it. */
  lemma DuplicateBlock(st: ParseState, g: string, n: string, u1: string, u2: string)
    requires Reachable(st) && u1 in st.known && u2 !in st.known
    requires GoodGroup(g) && GoodName(n) && GoodUrl(u1) && GoodUrl(u2)
    ensures Run(st, [InfoLine(g, n), u1 + "\n", u2 + "\n"]) ==
      ParseState(AddEntry(st.groups, g, Entry(n, u2)), st.known + [u2], Cleared)
  {
    var b := [InfoLine(g, n), u1 + "\n", u2 + "\n"];
    assert b[..2][..1][..0] == [];
    assert b[..2][..1] == [b[0]];
    assert b[..2] == [b[0], b[1]];
    InfoStep(st, g, n);
    var st1 := st.(pending := Pending(g, n, ""));
    assert Run(st, b[..1]) == st1;
    assert Reachable(st1);
    UrlLine(u1);
    KnownUrlKeepsPending(st1, u1 + "\n");
    var st2 := st1.(pending := Pending(g, n, u1));
    assert Run(st, b[..2]) == st2;
    UrlStep(st2, u2);
  }

  /** A file where a block's first URL repeats an earlier channel's still
      stores that block's channel under its next new URL. */
  lemma DuplicateThenNewUrl(g: string, n1: string, u1: string, n2: string, u2: string)
    requires GoodGroup(g) && GoodName(n1) && GoodName(n2) && GoodUrl(u1) && GoodUrl(u2)
    requires u1 != u2
    ensures Parse([InfoLine(g, n1), u1 + "\n", InfoLine(g, n2), u1 + "\n", u2 + "\n"]).groups ==
      Groups([g], map[g := [Entry(n1, u1), Entry(n2, u2)]])
  {
    var b1, b2 := [InfoLine(g, n1), u1 + "\n"], [InfoLine(g, n2), u1 + "\n", u2 + "\n"];
    assert [InfoLine(g, n1), u1 + "\n", InfoLine(g, n2), u1 + "\n", u2 + "\n"] == b1 + b2;
    RunAppend(Start, b1, b2);
    FirstBlock(g, n1, u1);
    DuplicateBlock(Run(Start, b1), g, n2, u1, u2);
    SecondEntry(g, Entry(n1, u1), Entry(n2, u2));
  }
}
