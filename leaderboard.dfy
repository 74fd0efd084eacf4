/** The `/leaderboard` query over the two tables. Each result is joined to
    the user who owns it; the joined rows are grouped by owner and test
    date; each group carries its highest raw score and its highest band;
    the groups are ordered by highest score, larger first, and at equal
    score by date, earlier first; the first ten are kept. Each step is a
    function over rows. */
module Leaderboard {
  import opened Common
  import opened Database
  import opened Rows
  import Scoring

  /** A row of the join. */
  datatype Row = Row(userId: int, username: string, score: int, band: int, testDate: int)

  /** The GROUP BY columns. */
  datatype GroupKey = GroupKey(userId: int, username: string, testDate: int)

  function KeyOf(row: Row): GroupKey
  {
    GroupKey(row.userId, row.username, row.testDate)
  }

  /** A result joined with its owner; none when no user has its user_id. */
  function Joined(r: Result, users: seq<User>): Option<Row>
  {
    match FindUserById(users, r.userId)
    case None => None
    case Some(u) => Some(Row(u.id, u.username, r.score, r.band, r.testDate))
  }

  /** `results JOIN users`: one row per result that has an owner, in table order. */
  function JoinUsers(results: seq<Result>, users: seq<User>): (rows: seq<Row>)
    ensures forall row :: row in rows ==> exists r :: r in results && Joined(r, users) == Some(row)
    ensures forall r :: r in results && Joined(r, users).Some? ==> Joined(r, users).value in rows
  {
    if results == [] then []
    else
      var rest := JoinUsers(results[1..], users);
      assert forall r :: r in results[1..] ==> r in results;
      assert forall r :: r in results ==> r == results[0] || r in results[1..];
      match Joined(results[0], users)
      case None => rest
      case Some(row) => [row] + rest
  }

  // ---------------------------------------------------------------------
  // GROUP BY with MAX

  datatype Column = ScoreColumn | BandColumn

  function Value(row: Row, c: Column): int
  {
    match c
    case ScoreColumn => row.score
    case BandColumn => row.band
  }

  function Max(a: int, b: int): int
  {
    if a >= b then a else b
  }

  /** MAX(column) over the rows of group k; None when the group has no rows. */
  function Best(rows: seq<Row>, k: GroupKey, c: Column): (best: Option<int>)
    ensures best.None? <==> forall row :: row in rows ==> KeyOf(row) != k
  {
    if rows == [] then None
    else
      var prev := Best(rows[..|rows| - 1], k, c);
      var last := rows[|rows| - 1];
      assert rows == rows[..|rows| - 1] + [last];
      if KeyOf(last) != k then prev
      else if prev.None? then Some(Value(last, c))
      else Some(Max(prev.value, Value(last, c)))
  }

  /** Best is the maximum: it is attained by a row of the group and bounds every row of it. */
  lemma {:induction false} BestIsMaximum(rows: seq<Row>, k: GroupKey, c: Column)
    ensures Best(rows, k, c).Some? ==>
      (exists row :: row in rows && KeyOf(row) == k && Value(row, c) == Best(rows, k, c).value)
    ensures Best(rows, k, c).Some? ==>
      forall row :: row in rows && KeyOf(row) == k ==> Value(row, c) <= Best(rows, k, c).value
  {
    if rows != [] {
      var init := rows[..|rows| - 1];
      BestIsMaximum(init, k, c);
      assert rows == init + [rows[|rows| - 1]];
    }
  }

  /** One output row of the grouping. */
  datatype Group = Group(key: GroupKey, highestScore: int, highestBand: int)

  /** No two groups share a key. */
  ghost predicate DistinctKeys(groups: seq<Group>)
  {
    forall i, j :: 0 <= i < j < |groups| ==> groups[i].key != groups[j].key
  }

  /** `groups` is the grouping of `rows`: one group per key that occurs, each
      carrying the maxima of its rows. */
  ghost predicate GroupsOf(groups: seq<Group>, rows: seq<Row>)
  {
    && DistinctKeys(groups)
    && (forall g :: g in groups ==>
          Best(rows, g.key, ScoreColumn) == Some(g.highestScore)
          && Best(rows, g.key, BandColumn) == Some(g.highestBand))
    && (forall row :: row in rows ==> exists g :: g in groups && g.key == KeyOf(row))
  }

  /** Folds one row into the groups: raise the maxima of its group, or open a new group. */
  function AddRow(groups: seq<Group>, row: Row): seq<Group>
  {
    if groups == [] then [Group(KeyOf(row), row.score, row.band)]
    else if groups[0].key == KeyOf(row) then
      [Group(groups[0].key, Max(groups[0].highestScore, row.score), Max(groups[0].highestBand, row.band))] + groups[1..]
    else [groups[0]] + AddRow(groups[1..], row)
  }

  /** The merged group of a row into an existing group. */
  function Merge(g: Group, row: Row): Group
  {
    Group(g.key, Max(g.highestScore, row.score), Max(g.highestBand, row.band))
  }

  /** AddRow either updates the one group with the row's key in place or appends a new group. */
  lemma {:induction false} AddRowShape(groups: seq<Group>, row: Row)
    requires DistinctKeys(groups)
    ensures (forall g :: g in groups ==> g.key != KeyOf(row)) ==>
      AddRow(groups, row) == groups + [Group(KeyOf(row), row.score, row.band)]
    ensures forall i :: 0 <= i < |groups| && groups[i].key == KeyOf(row) ==>
      AddRow(groups, row) == groups[i := Merge(groups[i], row)]
  {
    if groups != [] {
      AddRowShape(groups[1..], row);
      assert forall g :: g in groups[1..] ==> g in groups;
      forall i | 0 <= i < |groups| && groups[i].key == KeyOf(row)
        ensures AddRow(groups, row) == groups[i := Merge(groups[i], row)]
      {
        if i > 0 {
          assert groups[1..][i - 1] == groups[i];
          assert groups[0].key != KeyOf(row);
          assert groups[i := Merge(groups[i], row)] == [groups[0]] + groups[1..][i - 1 := Merge(groups[i], row)];
        }
      }
    }
  }

  /** The maxima of a group after one more row arrives. */
  lemma BestAppend(rows: seq<Row>, row: Row, k: GroupKey, c: Column)
    ensures Best(rows + [row], k, c) ==
      if KeyOf(row) != k then Best(rows, k, c)
      else if Best(rows, k, c).None? then Some(Value(row, c))
      else Some(Max(Best(rows, k, c).value, Value(row, c)))
  {
    assert (rows + [row])[..|rows|] == rows;
  }

  /** Every key's maxima after one more row arrives. */
  lemma BestAppendAll(rows: seq<Row>, row: Row)
    ensures forall k, c :: (Best(rows + [row], k, c) ==
      if KeyOf(row) != k then Best(rows, k, c)
      else if Best(rows, k, c).None? then Some(Value(row, c))
      else Some(Max(Best(rows, k, c).value, Value(row, c))))
  {
    forall k, c ensures Best(rows + [row], k, c) == (if KeyOf(row) != k then Best(rows, k, c)
        else if Best(rows, k, c).None? then Some(Value(row, c))
        else Some(Max(Best(rows, k, c).value, Value(row, c)))) {
      BestAppend(rows, row, k, c);
    }
  }

  /** A row whose key has a group raises that group's maxima. */
  lemma AddRowToGroup(groups: seq<Group>, rows: seq<Row>, row: Row, i: int)
    requires GroupsOf(groups, rows)
    requires 0 <= i < |groups| && groups[i].key == KeyOf(row)
    ensures GroupsOf(AddRow(groups, row), rows + [row])
  {
    AddRowShape(groups, row);
    var next := AddRow(groups, row);
    var all := rows + [row];
    BestAppendAll(rows, row);
    assert next == groups[i := Merge(groups[i], row)];
    forall g | g in next
      ensures Best(all, g.key, ScoreColumn) == Some(g.highestScore)
      ensures Best(all, g.key, BandColumn) == Some(g.highestBand)
    {
      var j :| 0 <= j < |next| && next[j] == g;
      if j != i {
        assert g == groups[j] && g.key != KeyOf(row);
      }
    }
    forall r | r in all ensures exists g :: g in next && g.key == KeyOf(r) {
      if r == row {
        assert next[i] in next;
      } else {
        assert r in rows;
        var g :| g in groups && g.key == KeyOf(r);
        var j :| 0 <= j < |groups| && groups[j] == g;
        assert next[j] in next && next[j].key == g.key;
      }
    }
  }

  /** A row with a new key opens a group of its own. */
  lemma AddRowNewGroup(groups: seq<Group>, rows: seq<Row>, row: Row)
    requires GroupsOf(groups, rows)
    requires forall g :: g in groups ==> g.key != KeyOf(row)
    ensures GroupsOf(AddRow(groups, row), rows + [row])
  {
    AddRowShape(groups, row);
    var next := AddRow(groups, row);
    var all := rows + [row];
    BestAppendAll(rows, row);
    assert next == groups + [Group(KeyOf(row), row.score, row.band)];
    assert forall r :: r in rows ==> KeyOf(r) != KeyOf(row);
    forall g | g in next
      ensures Best(all, g.key, ScoreColumn) == Some(g.highestScore)
      ensures Best(all, g.key, BandColumn) == Some(g.highestBand)
    {
      if g !in groups {
        assert g == next[|groups|];
      }
    }
    forall r | r in all ensures exists g :: g in next && g.key == KeyOf(r) {
      if r == row {
        assert next[|groups|] in next;
      } else {
        assert r in rows;
        var g :| g in groups && g.key == KeyOf(r);
        assert g in next;
      }
    }
  }

  /** Folding a row into a grouping of `rows` gives the grouping of `rows + [row]`. */
  lemma AddRowGroups(groups: seq<Group>, rows: seq<Row>, row: Row)
    requires GroupsOf(groups, rows)
    ensures GroupsOf(AddRow(groups, row), rows + [row])
  {
    if i :| 0 <= i < |groups| && groups[i].key == KeyOf(row) {
      AddRowToGroup(groups, rows, row, i);
    } else {
      assert forall g :: g in groups ==> g.key != KeyOf(row);
      AddRowNewGroup(groups, rows, row);
    }
  }

  /** GROUP BY over the joined rows, in order of first appearance. */
  function GroupRows(rows: seq<Row>): (groups: seq<Group>)
    ensures GroupsOf(groups, rows)
  {
    if rows == [] then []
    else
      var init := rows[..|rows| - 1];
      var prev := GroupRows(init);
      assert rows == init + [rows[|rows| - 1]];
      AddRowGroups(prev, init, rows[|rows| - 1]);
      AddRow(prev, rows[|rows| - 1])
  }

  // ---------------------------------------------------------------------
  // ORDER BY and LIMIT

  /** `ORDER BY highest_score DESC, test_date ASC`: a may precede b. */
  predicate RanksAbove(a: Group, b: Group)
  {
    a.highestScore > b.highestScore || (a.highestScore == b.highestScore && a.key.testDate <= b.key.testDate)
  }

  lemma RanksAboveIsTotalPreorder()
    ensures TotalPreorder(RanksAbove)
  {
  }

  /** `LIMIT 10`. */
  const Limit: nat := 10

  /** All groups of the join, in their first-appearance order. */
  function Candidates(results: seq<Result>, users: seq<User>): (groups: seq<Group>)
    ensures GroupsOf(groups, JoinUsers(results, users))
  {
    GroupRows(JoinUsers(results, users))
  }

  /** The groups in ranking order. */
  function Ranked(results: seq<Result>, users: seq<User>): (ranked: seq<Group>)
    ensures Sorted(ranked, RanksAbove)
    ensures multiset(ranked) == multiset(Candidates(results, users))
  {
    RanksAboveIsTotalPreorder();
    Sort(Candidates(results, users), RanksAbove)
  }

  /** The groups the leaderboard shows: the first ten of the ranking,
      or all of them when there are fewer. Every group left out ranks no
      higher than every group shown. */
  function Top(results: seq<Result>, users: seq<User>): (top: seq<Group>)
    ensures |top| == if |Candidates(results, users)| < Limit then |Candidates(results, users)| else Limit
    ensures Sorted(top, RanksAbove)
    ensures forall g :: multiset(top)[g] <= multiset(Candidates(results, users))[g]
  {
    var ranked := Ranked(results, users);
    PermutationLength(ranked, Candidates(results, users));
    var n := if |ranked| < Limit then |ranked| else Limit;
    PrefixMultiset(ranked, n);
    ranked[..n]
  }

  /** A group is left off the board only when the board is full and every
      group on it ranks at least as high. */
  lemma LeftOutRanksLower(results: seq<Result>, users: seq<User>, g: Group)
    requires g in Candidates(results, users) && g !in Top(results, users)
    ensures |Top(results, users)| == Limit
    ensures forall h :: h in Top(results, users) ==> RanksAbove(h, g)
  {
    var ranked := Ranked(results, users);
    var top := Top(results, users);
    PermutationLength(ranked, Candidates(results, users));
    var n := |top|;
    assert top == ranked[..n];
    assert g in multiset(Candidates(results, users));
    assert g in ranked;
    SortedPrefixPrecedes(ranked, RanksAbove, n, g);
  }

  /** A row of the `/leaderboard` reply. */
  datatype Entry = Entry(username: string, highestScore: int, highestBand: int, testDate: int)

  function View(g: Group): Entry
  {
    Entry(g.key.username, g.highestScore, g.highestBand, g.key.testDate)
  }

  /** `/leaderboard`: at most ten rows, by highest score descending, then by
      test date ascending. */
  function Board(results: seq<Result>, users: seq<User>): (board: seq<Entry>)
    ensures |board| <= Limit
    ensures |board| == |Top(results, users)|
    ensures forall i :: 0 <= i < |board| ==> board[i] == View(Top(results, users)[i])
    ensures forall i, j :: 0 <= i < j < |board| ==>
      board[i].highestScore > board[j].highestScore
      || (board[i].highestScore == board[j].highestScore && board[i].testDate <= board[j].testDate)
  {
    var top := Top(results, users);
    seq(|top|, i requires 0 <= i < |top| => View(top[i]))
  }

  /** Every row of the board is one (user, test date) group of the join,
      each group appears at most once, and its two maxima are the largest raw
      score and the largest band among that user's results of that date. */
  lemma BoardRowsAreGroups(results: seq<Result>, users: seq<User>, i: nat)
    requires i < |Board(results, users)|
    ensures exists g :: (g in Candidates(results, users) && Board(results, users)[i] == View(g)
      && Best(JoinUsers(results, users), g.key, ScoreColumn) == Some(g.highestScore)
      && Best(JoinUsers(results, users), g.key, BandColumn) == Some(g.highestBand))
  {
    var top := Top(results, users);
    var g := top[i];
    assert g in multiset(top);
    assert g in Candidates(results, users);
  }

  /** Groups of the grouping are told apart by their key: no key is shown twice. */
  lemma TopKeysDistinct(results: seq<Result>, users: seq<User>)
    ensures forall g, h :: g in Top(results, users) && h in Top(results, users) && g.key == h.key ==> g == h
    ensures forall g :: multiset(Top(results, users))[g] <= 1
  {
    var cands := Candidates(results, users);
    DistinctKeysOnce(cands);
    forall g, h | g in Top(results, users) && h in Top(results, users) && g.key == h.key ensures g == h {
      assert g in multiset(Top(results, users)) && h in multiset(Top(results, users));
      var i :| 0 <= i < |cands| && cands[i] == g;
      var j :| 0 <= j < |cands| && cands[j] == h;
    }
  }

  /** With distinct keys, no group occurs twice. */
  lemma {:induction false} DistinctKeysOnce(groups: seq<Group>)
    requires DistinctKeys(groups)
    ensures forall g :: multiset(groups)[g] <= 1
  {
    if groups != [] {
      var tail := groups[1..];
      assert DistinctKeys(tail) by {
        forall i, j | 0 <= i < j < |tail| ensures tail[i].key != tail[j].key {
          assert tail[i] == groups[i + 1] && tail[j] == groups[j + 1];
        }
      }
      DistinctKeysOnce(tail);
      assert groups == [groups[0]] + tail;
      assert forall j :: 0 <= j < |tail| ==> tail[j] == groups[j + 1] && tail[j].key != groups[0].key;
      assert groups[0] !in tail;
    }
  }

  /** Since every stored band is the band of its stored raw score and the
      mapping is monotone, a group's highest band is the band of its highest
      score. */
  lemma {:induction false} BestBandIsBandOfBestScore(rows: seq<Row>, k: GroupKey)
    requires forall row :: row in rows ==> row.band == Scoring.BandScore(row.score)
    ensures Best(rows, k, BandColumn).Some? == Best(rows, k, ScoreColumn).Some?
    ensures Best(rows, k, ScoreColumn).Some? ==>
      Best(rows, k, BandColumn).value == Scoring.BandScore(Best(rows, k, ScoreColumn).value)
  {
    if rows != [] {
      var init := rows[..|rows| - 1];
      var last := rows[|rows| - 1];
      assert last in rows;
      assert forall row :: row in init ==> row in rows;
      BestBandIsBandOfBestScore(init, k);
      if KeyOf(last) == k && Best(init, k, ScoreColumn).Some? {
        Scoring.BandOfMax(Best(init, k, ScoreColumn).value, last.score);
      }
    }
  }

  /** With bands derived from scores (as every submission stores them), the
      highest band shown is the band of the highest score shown. */
  lemma BoardBandsMatchScores(results: seq<Result>, users: seq<User>)
    requires BandsDerived(results)
    ensures forall e :: e in Board(results, users) ==> e.highestBand == Scoring.BandScore(e.highestScore)
  {
    var rows := JoinUsers(results, users);
    forall row | row in rows ensures row.band == Scoring.BandScore(row.score) {
      var r :| r in results && Joined(r, users) == Some(row);
    }
    forall e | e in Board(results, users) ensures e.highestBand == Scoring.BandScore(e.highestScore) {
      var i :| 0 <= i < |Board(results, users)| && Board(results, users)[i] == e;
      BoardRowsAreGroups(results, users, i);
      var g :| g in Candidates(results, users) && e == View(g)
        && Best(rows, g.key, ScoreColumn) == Some(g.highestScore)
        && Best(rows, g.key, BandColumn) == Some(g.highestBand);
      BestBandIsBandOfBestScore(rows, g.key);
    }
  }
}
