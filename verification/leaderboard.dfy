/** The highscore list and the leaderboard view of the main menu: sort by
    points ascending, reverse, and show the first ten entries in two columns. */
module Leaderboard {
  import opened Numeric

  /** One saved result. */
  datatype Score = Score(name: string, points: int)

  /** How many entries the leaderboard shows. */
  const ViewSize: nat := 10

  predicate Ascending(s: seq<Score>) {
    forall i, j :: 0 <= i < j < |s| ==> s[i].points <= s[j].points
  }

  predicate Descending(s: seq<Score>) {
    forall i, j :: 0 <= i < j < |s| ==> s[i].points >= s[j].points
  }

  /** One step of the sort by points: `x` goes before the first entry that
      does not score below it. */
  function Insert(x: Score, s: seq<Score>): (r: seq<Score>)
    requires Ascending(s)
    ensures Ascending(r)
    ensures multiset(r) == multiset(s) + multiset{x}
  {
    if s == [] then [x]
    else if x.points <= s[0].points then
      ConsAscending(x, s);
      [x] + s
    else
      var rest := Insert(x, s[1..]);
      assert s == [s[0]] + s[1..];
      forall k | 0 <= k < |rest|
        ensures s[0].points <= rest[k].points
      {
        assert rest[k] in multiset(rest);
      }
      ConsAscending(s[0], rest);
      [s[0]] + rest
  }

  /** An entry scoring at most the first of an ascending list can go in front. */
  lemma ConsAscending(x: Score, s: seq<Score>)
    requires Ascending(s) && (s == [] || x.points <= s[0].points)
    ensures Ascending([x] + s)
  {
    var r := [x] + s;
    forall i, j | 0 <= i < j < |r|
      ensures r[i].points <= r[j].points
    {
      if i == 0 {
        assert r[j] == s[j - 1];
      } else {
        assert r[i] == s[i - 1] && r[j] == s[j - 1];
      }
    }
  }

  /** `Highscores.Sort((a, b) => a.points.CompareTo(b.points))`: the same
      entries, ascending by points. */
  function SortByPoints(s: seq<Score>): (r: seq<Score>)
    ensures Ascending(r)
    ensures multiset(r) == multiset(s)
  {
    if s == [] then []
    else
      assert s == [s[0]] + s[1..];
      Insert(s[0], SortByPoints(s[1..]))
  }

  /** `Highscores.Reverse()`: position `i` of the result holds position
      `|s| - 1 - i` of the input. */
  function Reverse(s: seq<Score>): (r: seq<Score>)
    ensures |r| == |s|
    ensures forall i :: 0 <= i < |s| ==> r[i] == s[|s| - 1 - i]
  {
    if s == [] then [] else Reverse(s[1..]) + [s[0]]
  }

  /** Reversing keeps the entries and turns an ascending list into a
      descending one. */
  lemma ReverseOfAscending(s: seq<Score>)
    requires Ascending(s)
    ensures Descending(Reverse(s))
    ensures multiset(Reverse(s)) == multiset(s)
  {
    ReverseKeepsEntries(s);
  }

  lemma {:induction false} ReverseKeepsEntries(s: seq<Score>)
    ensures multiset(Reverse(s)) == multiset(s)
  {
    if s != [] {
      ReverseKeepsEntries(s[1..]);
      assert s == [s[0]] + s[1..];
    }
  }

  /** The entries the leaderboard shows, in display order: the best
      `min(10, n)` scores, best first. Nothing left off scores above anything
      shown. */
  function HighscoreView(scores: seq<Score>): (view: seq<Score>)
    ensures |view| == Min(ViewSize, |scores|)
    ensures Descending(view)
    ensures multiset(view) <= multiset(scores)
    ensures forall x, y :: x in view && y in multiset(scores) - multiset(view) ==> y.points <= x.points
  {
    var sorted := SortByPoints(scores);
    ReverseOfAscending(sorted);
    var all := Reverse(sorted);
    var k := Min(ViewSize, |all|);
    PrefixOfDescending(all, k);
    all[..k]
  }

  /** A prefix of a descending list is descending, and nothing after it
      scores above anything in it. */
  lemma PrefixOfDescending(all: seq<Score>, k: nat)
    requires Descending(all) && k <= |all|
    ensures Descending(all[..k])
    ensures multiset(all[..k]) <= multiset(all)
    ensures forall x, y :: x in all[..k] && y in multiset(all) - multiset(all[..k]) ==> y.points <= x.points
  {
    assert all == all[..k] + all[k..];
    assert multiset(all) == multiset(all[..k]) + multiset(all[k..]);
    forall x, y | x in all[..k] && y in multiset(all) - multiset(all[..k])
      ensures y.points <= x.points
    {
      assert y in multiset(all[k..]);
      var i :| 0 <= i < k && all[i] == x;
      var j :| 0 <= j < |all| - k && all[k..][j] == y;
      assert all[k + j] == y;
    }
  }

  /** Every shown entry is a saved score. */
  lemma ViewFromSaved(scores: seq<Score>)
    ensures forall x :: x in HighscoreView(scores) ==> x in scores
  {
    var view := HighscoreView(scores);
    forall x | x in view
      ensures x in scores
    {
      assert x in multiset(view);
      assert x in multiset(scores);
    }
  }

  /** The two text columns of the leaderboard, one line per shown entry. */
  datatype Columns = Columns(names: seq<string>, points: seq<int>)

  /** `HighscoreButton`: both columns are taken from the same shown prefix,
      so line `i` of the names and line `i` of the points belong to the same
      saved score, best first. */
  function HighscoreButton(scores: seq<Score>): (c: Columns)
    ensures |c.names| == |c.points| == Min(ViewSize, |scores|)
    ensures forall i :: 0 <= i < |c.points| ==> Score(c.names[i], c.points[i]) in scores
    ensures forall i, j :: 0 <= i < j < |c.points| ==> c.points[i] >= c.points[j]
    ensures forall i :: 0 <= i < |c.points| ==> Score(c.names[i], c.points[i]) == HighscoreView(scores)[i]
  {
    var view := HighscoreView(scores);
    ViewFromSaved(scores);
    var names := seq(|view|, i requires 0 <= i < |view| => view[i].name);
    var points := seq(|view|, i requires 0 <= i < |view| => view[i].points);
    assert forall i :: 0 <= i < |view| ==> Score(names[i], points[i]) == view[i];
    Columns(names, points)
  }

  /** The best saved score heads the leaderboard. */
  lemma BestScoreShownFirst(scores: seq<Score>)
    requires scores != []
    ensures forall s :: s in scores ==> s.points <= HighscoreView(scores)[0].points
  {
    var view := HighscoreView(scores);
    HeadOfView(scores, view);
  }

  /** The head of a descending selection that nothing left out beats is
      beaten by nothing saved. */
  lemma HeadOfView(scores: seq<Score>, view: seq<Score>)
    requires view != [] && Descending(view)
    requires forall x, y :: x in view && y in multiset(scores) - multiset(view) ==> y.points <= x.points
    ensures forall s :: s in scores ==> s.points <= view[0].points
  {
    var top := view[0];
    assert top in view;
    forall s | s in scores
      ensures s.points <= top.points
    {
      if s in view {
        var i :| 0 <= i < |view| && view[i] == s;
      } else {
        assert multiset(view)[s] == 0;
        assert s in multiset(scores) - multiset(view);
      }
    }
  }
}
