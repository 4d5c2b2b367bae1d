/**
 * The review history as the scheduler sees it once the CSV log has been read:
 * a table whose fixed columns are Timestamp, Set, Score, Total and Accuracy
 * and whose other columns are card words, holding 0 or 1 where the card was
 * reviewed in that session and nothing otherwise.
 */
module ReviewLog {
  import opened Wrappers

  /** The columns that are not card words (smart_review.py:87). */
  const FixedColumns: seq<string> := ["Timestamp", "Set", "Score", "Total", "Accuracy"]

  /** One session. `outcomes` holds the non-blank card cells of the row. */
  datatype Row = Row(timestamp: int, setName: string, score: int, total: int, outcomes: map<string, int>)

  /** The loaded table: its header, in file order, and its rows, in file order. */
  datatype Log = Log(columns: seq<string>, rows: seq<Row>)

  /** pandas' `DataFrame.empty`: no rows or no columns (a missing file loads as a table with neither). */
  predicate IsEmpty(log: Log) {
    |log.rows| == 0 || |log.columns| == 0
  }

  /** `notna()` of the cell in column `c`: the fixed columns are filled in every row. */
  predicate Present(row: Row, c: string) {
    c in FixedColumns || c in row.outcomes
  }

  /** The card's cell holds 1: the card was answered correctly in that session. */
  predicate AnsweredCorrectly(row: Row, card: string) {
    card in row.outcomes && row.outcomes[card] == 1
  }

  /** `history_df[history_df[card].notna()]`: the rows that mention `card`, in file order. */
  function CardHistory(rows: seq<Row>, card: string): (r: seq<Row>)
    ensures |r| <= |rows|
    ensures forall i :: 0 <= i < |r| ==> Present(r[i], card) && r[i] in rows
    ensures forall row :: row in rows && Present(row, card) ==> row in r
    ensures (forall row :: row in rows ==> Present(row, card)) ==> r == rows
  {
    if rows == [] then []
    else
      var prev := CardHistory(rows[..|rows| - 1], card);
      var last := rows[|rows| - 1];
      assert rows == rows[..|rows| - 1] + [last];
      if Present(last, card) then prev + [last] else prev
  }

  /**
   * The mask keeps every mentioning row as often as the log holds it and
   * drops every other row, so `Mentions` counts sessions, repeats included.
   */
  lemma {:induction false} CardHistoryCounts(rows: seq<Row>, card: string)
    ensures forall row :: multiset(CardHistory(rows, card))[row]
                       == if Present(row, card) then multiset(rows)[row] else 0
  {
    if rows != [] {
      var init, last := rows[..|rows| - 1], rows[|rows| - 1];
      CardHistoryCounts(init, card);
      assert rows == init + [last];
      assert multiset(rows) == multiset(init) + multiset{last};
    }
  }

  /**
   * The mask keeps file order: filtering a prefix of the log gives a prefix
   * of the card's history.
   */
  lemma {:induction false} CardHistoryPrefix(rows: seq<Row>, card: string, k: nat)
    requires k <= |rows|
    ensures CardHistory(rows[..k], card) <= CardHistory(rows, card)
  {
    if k < |rows| {
      assert rows[..|rows| - 1][..k] == rows[..k];
      CardHistoryPrefix(rows[..|rows| - 1], card, k);
    } else {
      assert rows[..k] == rows;
    }
  }

  /** How many rows mention the card. */
  function Mentions(rows: seq<Row>, card: string): nat {
    |CardHistory(rows, card)|
  }

  /** The card columns of the header, in header order (smart_review.py:86-87). */
  function CardColumns(columns: seq<string>): (r: seq<string>)
    ensures forall c :: c in r <==> c in columns && c !in FixedColumns
  {
    if columns == [] then []
    else
      var prev := CardColumns(columns[..|columns| - 1]);
      var last := columns[|columns| - 1];
      assert columns == columns[..|columns| - 1] + [last];
      if last in FixedColumns then prev else prev + [last]
  }

  /** pandas' `unique()`: each value once, in order of first appearance. */
  function Distinct(xs: seq<string>): (r: seq<string>)
    ensures forall x :: x in r <==> x in xs
    ensures NoDuplicates(r)
    ensures |r| <= |xs|
  {
    if xs == [] then []
    else
      var prev := Distinct(xs[..|xs| - 1]);
      var last := xs[|xs| - 1];
      assert xs == xs[..|xs| - 1] + [last];
      if last in prev then prev else prev + [last]
  }

  /** The Set column, row by row. */
  function SetColumn(rows: seq<Row>): (r: seq<string>)
    ensures |r| == |rows|
    ensures forall i :: 0 <= i < |rows| ==> r[i] == rows[i].setName
  {
    seq(|rows|, i requires 0 <= i < |rows| => rows[i].setName)
  }

  /** `history_df['Set'].unique()` (smart_review.py:85). */
  function UniqueSets(rows: seq<Row>): (r: seq<string>)
    ensures NoDuplicates(r)
    ensures forall s :: s in r <==> exists i :: 0 <= i < |rows| && rows[i].setName == s
  {
    var col := SetColumn(rows);
    assert forall s :: s in col <==> exists i :: 0 <= i < |rows| && rows[i].setName == s by {
      forall s ensures s in col <==> exists i :: 0 <= i < |rows| && rows[i].setName == s {
        if s in col {
          var i :| 0 <= i < |col| && col[i] == s;
          assert rows[i].setName == s;
        }
      }
    }
    Distinct(col)
  }

  /** Appending a row that mentions the card adds exactly that row to its history. */
  lemma CardHistoryAppend(rows: seq<Row>, row: Row, card: string)
    ensures CardHistory(rows + [row], card)
         == if Present(row, card) then CardHistory(rows, card) + [row] else CardHistory(rows, card)
  {
    assert (rows + [row])[..|rows|] == rows;
  }
}
