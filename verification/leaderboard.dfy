/** The leaderboard kept in browser local storage: one record mapping team
    ids to their best (lowest) score. The stored text is modelled by what
    reading it yields: nothing, something that does not parse, or a map. */
module Leaderboard {

  /** The value under the leaderboard key. */
  datatype Storage =
    | Missing              // no item, or the empty string
    | Unreadable           // the item does not parse, or storage throws
    | Stored(scores: map<string, real>)

  type Entry = (string, real)

  /** The whole leaderboard; nothing stored or a corrupt record reads as
      empty. */
  function GetLeaderboard(st: Storage): (lb: map<string, real>)
    ensures st.Stored? ==> lb == st.scores
    ensures !st.Stored? ==> lb == map[]
  {
    match st
    case Stored(scores) => scores
    case _ => map[]
  }

  /** The test `!leaderboard[teamId] || score < leaderboard[teamId]`: an
      absent team and a stored 0 are both falsy. */
  predicate Replaces(lb: map<string, real>, team: string, score: real) {
    team !in lb || lb[team] == 0.0 || score < lb[team]
  }

  /** Record `score` for `team` when it is the team's first score or better
      than the stored one; otherwise storage is left as it was (not even
      rewritten). */
  function SaveScore(st: Storage, team: string, score: real): (r: Storage)
    ensures var lb, lb' := GetLeaderboard(st), GetLeaderboard(r);
      && (team !in lb ==> lb' == lb[team := score])
      && (team in lb && lb[team] != 0.0 && score < lb[team] ==> lb' == lb[team := score])
      && (team in lb && lb[team] != 0.0 && score >= lb[team] ==> r == st)
      && (team in lb && lb[team] == 0.0 ==> lb' == lb[team := score])
  {
    var lb := GetLeaderboard(st);
    if Replaces(lb, team, score) then Stored(lb[team := score]) else st
  }

  /** Remove the record; every later read is empty. */
  function ClearLeaderboard(st: Storage): (r: Storage)
    ensures GetLeaderboard(r) == map[]
    ensures forall team, score :: GetLeaderboard(SaveScore(r, team, score)) == map[team := score]
  {
    Missing
  }

  /** `es` is non-decreasing by score. */
  ghost predicate SortedByScore(es: seq<Entry>) {
    forall i, j :: 0 <= i < j < |es| ==> es[i].1 <= es[j].1
  }

  /** `es` lists every entry of `m` exactly once and nothing else. */
  ghost predicate ListsEntries(es: seq<Entry>, m: map<string, real>) {
    && |es| == |m|
    && forall e :: e in es <==> e.0 in m && m[e.0] == e.1
  }

  /** A lower bound on the scores of `xs` and on `e` bounds every score of
      a permutation of `xs` plus `e`. */
  lemma LowerBoundKept(xs: seq<Entry>, e: Entry, ys: seq<Entry>, b: real)
    requires forall i :: 0 <= i < |xs| ==> b <= xs[i].1
    requires b <= e.1
    requires multiset(ys) == multiset(xs) + multiset{e}
    ensures forall j :: 0 <= j < |ys| ==> b <= ys[j].1
  {
    forall j | 0 <= j < |ys| ensures b <= ys[j].1 {
      assert ys[j] in multiset(ys);
      if ys[j] != e {
        assert ys[j] in multiset(xs);
        var i :| 0 <= i < |xs| && xs[i] == ys[j];
      }
    }
  }

  /** An entry scoring no more than any of a sorted list may go in front. */
  lemma SortedCons(x: Entry, es: seq<Entry>)
    requires SortedByScore(es)
    requires forall j :: 0 <= j < |es| ==> x.1 <= es[j].1
    ensures SortedByScore([x] + es)
  {
    var r := [x] + es;
    forall i, j | 0 <= i < j < |r| ensures r[i].1 <= r[j].1 {
      assert r[j] == es[j - 1];
      if i > 0 {
        assert r[i] == es[i - 1];
      }
    }
  }

  /** Insert `e` in front of the first entry that does not score lower. */
  function Insert(es: seq<Entry>, e: Entry): (r: seq<Entry>)
    requires SortedByScore(es)
    ensures SortedByScore(r)
    ensures multiset(r) == multiset(es) + multiset{e}
    decreases |es|
  {
    if |es| == 0 || e.1 <= es[0].1 then [e] + es
    else
      var tail := Insert(es[1..], e);
      LowerBoundKept(es[1..], e, tail, es[0].1);
      SortedCons(es[0], tail);
      assert es == [es[0]] + es[1..];
      [es[0]] + tail
  }

  /** Inserting adds exactly `e` to the members and one to the length. */
  lemma InsertMembers(es: seq<Entry>, e: Entry)
    requires SortedByScore(es)
    ensures |Insert(es, e)| == |es| + 1
    ensures forall x :: x in Insert(es, e) <==> x in es || x == e
  {
    var r := Insert(es, e);
    assert |r| == |multiset(r)|;
    forall x ensures x in r <==> x in es || x == e {
      assert x in r <==> x in multiset(r);
      assert x in es <==> x in multiset(es);
    }
  }

  /** Loop state of the sorted view: `es` lists, in order, the entries of
      `lb` whose keys are no longer in `rest`. */
  ghost predicate Sorting(lb: map<string, real>, rest: set<string>, es: seq<Entry>) {
    && rest <= lb.Keys
    && SortedByScore(es)
    && |es| == |lb.Keys - rest|
    && forall e :: e in es <==> e.0 in lb.Keys - rest && lb[e.0] == e.1
  }

  /** Moving one key from `rest` into the list keeps the loop state. */
  lemma SortingStep(lb: map<string, real>, rest: set<string>, es: seq<Entry>, k: string)
    requires Sorting(lb, rest, es) && k in rest
    ensures SortedByScore(es)
    ensures Sorting(lb, rest - {k}, Insert(es, (k, lb[k])))
  {
    InsertMembers(es, (k, lb[k]));
    var done, done' := lb.Keys - rest, lb.Keys - (rest - {k});
    assert done' == done + {k} && k !in done;
  }

  /** The entries ordered by ascending score, lower being better. Ties come
      out in some order. */
  method GetSortedLeaderboard(st: Storage) returns (es: seq<Entry>)
    ensures SortedByScore(es)
    ensures ListsEntries(es, GetLeaderboard(st))
  {
    var lb := GetLeaderboard(st);
    var rest := lb.Keys;
    es := [];
    while rest != {}
      invariant Sorting(lb, rest, es)
      decreases rest
    {
      var k :| k in rest;
      SortingStep(lb, rest, es, k);
      es, rest := Insert(es, (k, lb[k])), rest - {k};
    }
    assert lb.Keys - rest == lb.Keys;
  }

  /** Save every score of `scores` in order. */
  function SaveAll(st: Storage, team: string, scores: seq<real>): Storage
    decreases |scores|
  {
    if |scores| == 0 then st else SaveAll(SaveScore(st, team, scores[0]), team, scores[1..])
  }

  function Min(a: real, b: real): real {
    if a <= b then a else b
  }

  function MinOf(scores: seq<real>): real
    requires |scores| > 0
    decreases |scores|
  {
    if |scores| == 1 then scores[0] else Min(scores[0], MinOf(scores[1..]))
  }

  /** With positive scores, repeated saves keep the team's minimum and do
      not touch the other teams. */
  lemma {:induction false} SaveAllKeepsMinimum(st: Storage, team: string, scores: seq<real>)
    requires |scores| > 0
    requires forall i :: 0 <= i < |scores| ==> scores[i] > 0.0
    requires team in GetLeaderboard(st) ==> GetLeaderboard(st)[team] > 0.0
    ensures var lb, lb' := GetLeaderboard(st), GetLeaderboard(SaveAll(st, team, scores));
      && team in lb'
      && lb'[team] == (if team in lb then Min(lb[team], MinOf(scores)) else MinOf(scores))
      && forall other :: other != team ==> (other in lb' <==> other in lb) && (other in lb ==> lb'[other] == lb[other])
    decreases |scores|
  {
    var st1 := SaveScore(st, team, scores[0]);
    if |scores| > 1 {
      SaveAllKeepsMinimum(st1, team, scores[1..]);
      assert SaveAll(st, team, scores) == SaveAll(st1, team, scores[1..]);
    }
  }

  /** The ordering of the example leaderboard {A: 5, B: 2, C: 8}. */
  lemma SortedExample(es: seq<Entry>)
    requires SortedByScore(es) && ListsEntries(es, map["A" := 5.0, "B" := 2.0, "C" := 8.0])
    ensures es == [("B", 2.0), ("A", 5.0), ("C", 8.0)]
  {
    var m := map["A" := 5.0, "B" := 2.0, "C" := 8.0];
    assert |m| == 3 by {
      assert m.Keys == {"A", "B", "C"};
    }
    assert ("A", 5.0) in es && ("B", 2.0) in es && ("C", 8.0) in es;
    assert forall i :: 0 <= i < |es| ==> es[i] in es;
    assert es[0] == ("B", 2.0);
    assert es[2] == ("C", 8.0);
  }

  /** Saving 5, then 3, then 7 for one team keeps 3. */
  lemma SaveSequenceExample()
    ensures GetLeaderboard(SaveAll(Missing, "T", [5.0, 3.0, 7.0]))["T"] == 3.0
  {
    SaveAllKeepsMinimum(Missing, "T", [5.0, 3.0, 7.0]);
  }
}
