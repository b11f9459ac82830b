/** The set-up screen remembers, per category, which groups were enabled:
    their titles joined with `|` into one configuration string, split again
    and filtered against the groups on offer when the screen is built. */
module Selection {
  import opened Text
  import opened Sorting

  const Bar := '|'

  /** `"|".join(xs)` */
  function Join(xs: seq<string>): string
  {
    if xs == [] then []
    else if |xs| == 1 then xs[0]
    else xs[0] + [Bar] + Join(xs[1..])
  }

  /** `s.split("|")`: the pieces between bars, at least one, none holding a bar. */
  function Split(s: string): (r: seq<string>)
    ensures r != []
    ensures forall i :: 0 <= i < |r| ==> Bar !in r[i]
    ensures Bar !in s ==> r == [s]
    decreases |s|
  {
    match IndexOf(s, Bar)
    case None => [s]
    case Some(i) =>
      assert Bar !in s[..i];
      [s[..i]] + Split(s[i + 1..])
  }

  lemma JoinCons(x: string, rest: seq<string>)
    requires rest != []
    ensures Join([x] + rest) == x + [Bar] + Join(rest)
  {
    assert ([x] + rest)[1..] == rest;
  }

  /** Joining the pieces gives back the string: nothing is lost by splitting. */
  lemma {:induction false} JoinSplit(s: string)
    ensures Join(Split(s)) == s
    decreases |s|
  {
    match IndexOf(s, Bar)
    case None =>
    case Some(i) =>
      JoinSplit(s[i + 1..]);
      JoinSplitAt(s, i);
  }

  lemma JoinSplitAt(s: string, i: nat)
    requires IndexOf(s, Bar) == Some(i)
    requires Join(Split(s[i + 1..])) == s[i + 1..]
    ensures Join(Split(s)) == s
  {
    SplitAt(s, i);
    JoinAround(s, i, Split(s[i + 1..]));
  }

  lemma SplitAt(s: string, i: nat)
    requires IndexOf(s, Bar) == Some(i)
    ensures Split(s) == [s[..i]] + Split(s[i + 1..])
  {
    assert Bar !in s[..i];
    assert s == s[..i] + [Bar] + s[i + 1..];
    SplitAround(s[..i], s[i + 1..]);
  }

  lemma JoinAround(s: string, i: nat, rest: seq<string>)
    requires i < |s| && s[i] == Bar
    requires rest != [] && Join(rest) == s[i + 1..]
    ensures Join([s[..i]] + rest) == s
  {
    JoinCons(s[..i], rest);
    assert s == s[..i] + [Bar] + s[i + 1..];
  }

  /** Splitting a join gives back the pieces, when there is at least one and
      no piece holds a bar. */
  lemma {:induction false} SplitJoin(xs: seq<string>)
    requires xs != []
    requires forall i :: 0 <= i < |xs| ==> Bar !in xs[i]
    ensures Split(Join(xs)) == xs
  {
    if |xs| > 1 {
      SplitJoin(xs[1..]);
      SplitAround(xs[0], Join(xs[1..]));
      assert xs == [xs[0]] + xs[1..];
    }
  }

  /** A string cut at its first bar splits into the text before the bar and
      the pieces after it. */
  lemma SplitAround(x: string, rest: string)
    requires Bar !in x
    ensures Split(x + [Bar] + rest) == [x] + Split(rest)
  {
    var s := x + [Bar] + rest;
    assert IndexOf(s, Bar) == Some(|x|) by {
      assert s[|x|] == Bar;
      assert forall j :: 0 <= j < |x| ==> s[j] == x[j];
    }
    assert s[..|x|] == x;
    assert s[|x| + 1..] == rest;
  }

  /** `buildList`: the saved titles that are still on offer, in saved order. */
  function Restore(saved: string, options: seq<string>): (r: seq<string>)
    ensures forall x :: x in r <==> x in Split(saved) && x in options
  {
    Keep(Split(saved), options)
  }

  /** `readList` saves the enabled groups as `Join(enabled)`. Saving a
      selection and restoring it against the same options gives the
      selection back, when every enabled title is on offer and free of bars
      and no option is the empty title; the empty selection is saved as the
      empty string, which restores to nothing. */
  lemma RestoreSave(enabled: seq<string>, options: seq<string>)
    requires forall i :: 0 <= i < |enabled| ==> enabled[i] in options && Bar !in enabled[i]
    requires "" !in options
    ensures Restore(Join(enabled), options) == enabled
  {
    if enabled == [] {
      assert Split("") == [""];
    } else {
      SplitJoin(enabled);
      KeepAll(enabled, options);
    }
  }
}
