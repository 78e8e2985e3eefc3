/** The CSV download: a byte-order mark, the fixed Japanese header, one row per match in id order. */
module Export {
  import opened Wrappers
  import opened MatchRecord
  import Decimal
  import Csv

  /** U+FEFF, written first so that spreadsheet tools detect UTF-8. */
  const Bom: char := '\U{FEFF}'

  /**
    Column labels in their fixed order: date, shop, player 1, score 1, aces 1, cue 1, player 2,
    score 2, aces 2, cue 2, point difference, games, discipline, winner, comment.
  */
  const Header: Csv.Record := ["日付", "店舗名", "プレイヤー1", "得点1", "エース1", "キュー1",
                               "プレイヤー2", "得点2", "エース2", "キュー2",
                               "得点差", "ゲーム数", "種目", "勝者", "コメント"]

  const ColumnCount: nat := 15

  /**
    The cells of one match in header order; integers are written as `str` writes them. The row
    carries every column: reading it back rebuilds the same match.
  */
  function MatchRow(m: Match): (row: Csv.Record)
    ensures |row| == ColumnCount
    ensures RowToMatch(row) == Some(m)
  {
    [m.date, m.shop, m.player1, Decimal.IntToDecimal(m.score1), Decimal.IntToDecimal(m.ace1), m.cue1,
     m.player2, Decimal.IntToDecimal(m.score2), Decimal.IntToDecimal(m.ace2), m.cue2,
     Decimal.IntToDecimal(m.pointDiff), Decimal.IntToDecimal(m.games), m.gameType, m.winner, m.comment]
  }

  /** One row per match, in the store's (ascending id) order. */
  function MatchRows(matches: seq<Match>): (rows: seq<Csv.Record>)
    ensures |rows| == |matches|
    ensures forall i :: 0 <= i < |matches| ==> rows[i] == MatchRow(matches[i])
    ensures forall i :: 0 <= i < |rows| ==> |rows[i]| == ColumnCount
  {
    if matches == [] then [] else [MatchRow(matches[0])] + MatchRows(matches[1..])
  }

  /** Header first, then one row per match of the store, which is kept in ascending id order. */
  function Rows(matches: seq<Match>): (rows: seq<Csv.Record>)
    ensures |rows| == |matches| + 1
    ensures rows[0] == Header
    ensures rows[1..] == MatchRows(matches)
    ensures forall i :: 0 <= i < |rows| ==> |rows[i]| == ColumnCount
  {
    var body := MatchRows(matches);
    HeaderWidth();
    var rows := [Header] + body;
    assert rows[1..] == body;
    rows
  }

  lemma HeaderWidth()
    ensures |Header| == ColumnCount
  {
  }

  function ExportText(matches: seq<Match>): (text: string)
    ensures |text| >= 1 && text[0] == Bom
  {
    [Bom] + Csv.RenderTable(Rows(matches))
  }

  // ---------------------------------------------------------------------------------------------
  // Reading an export back

  function RowToMatch(row: Csv.Record): Option<Match>
  {
    if |row| != ColumnCount then None
    else
      match (Decimal.ParseDecimal(row[3]), Decimal.ParseDecimal(row[4]), Decimal.ParseDecimal(row[7]),
             Decimal.ParseDecimal(row[8]), Decimal.ParseDecimal(row[10]), Decimal.ParseDecimal(row[11]))
      case (Some(score1), Some(ace1), Some(score2), Some(ace2), Some(pointDiff), Some(games)) =>
        Some(Match(date := row[0], shop := row[1], games := games, player1 := row[2], player2 := row[6],
                   score1 := score1, score2 := score2, ace1 := ace1, ace2 := ace2,
                   cue1 := row[5], cue2 := row[9], gameType := row[12], winner := row[13],
                   pointDiff := pointDiff, comment := row[14]))
      case _ => None
  }

  function RowsToMatches(rows: seq<Csv.Record>): Option<seq<Match>>
  {
    if rows == [] then Some([])
    else
      match (RowToMatch(rows[0]), RowsToMatches(rows[1..]))
      case (Some(m), Some(ms)) => Some([m] + ms)
      case _ => None
  }

  lemma RowsCons(row: Csv.Record, rows: seq<Csv.Record>, m: Match, ms: seq<Match>)
    requires RowToMatch(row) == Some(m) && RowsToMatches(rows) == Some(ms)
    ensures RowsToMatches([row] + rows) == Some([m] + ms)
  {
    assert ([row] + rows)[1..] == rows;
  }

  function ImportText(text: string): Option<seq<Match>>
  {
    if text == [] || text[0] != Bom then None
    else
      match Csv.ParseTable(text[1..])
      case None => None
      case Some(rows) => ImportRows(rows)
  }

  /** The matches behind a parsed table whose first row is the header. */
  function ImportRows(rows: seq<Csv.Record>): Option<seq<Match>>
  {
    if rows == [] || rows[0] != Header then None else RowsToMatches(rows[1..])
  }

  /** The rows of the matches read back as the same matches, in the same order. */
  lemma {:induction false} RowsRoundTrip(matches: seq<Match>)
    ensures RowsToMatches(MatchRows(matches)) == Some(matches)
  {
    if matches != [] {
      RowsRoundTrip(matches[1..]);
      RowsCons(MatchRow(matches[0]), MatchRows(matches[1..]), matches[0], matches[1..]);
      assert [matches[0]] + matches[1..] == matches;
    }
  }

  /**
    Reading the exported text back gives every match with every column, in the order exported:
    the BOM, the header and the quoting lose nothing.
  */
  lemma ExportRoundTrip(matches: seq<Match>)
    ensures ImportText(ExportText(matches)) == Some(matches)
  {
    TableOfExport(matches);
    HeaderThenRows(matches);
  }

  /** After the BOM, the download parses as the header and the match rows. */
  lemma TableOfExport(matches: seq<Match>)
    ensures Csv.ParseTable(ExportText(matches)[1..]) == Some(Rows(matches))
  {
    var rows := Rows(matches);
    assert ExportText(matches)[1..] == Csv.RenderTable(rows);
    assert Csv.NoEmptyRecord(rows);
  }

  /** The parsed table, header first, gives back the matches. */
  lemma HeaderThenRows(matches: seq<Match>)
    ensures ImportRows(Rows(matches)) == Some(matches)
  {
    RowsRoundTrip(matches);
  }

  /** With no matches the download is the BOM and the header line alone. */
  lemma EmptyExport()
    ensures ExportText([]) == [Bom] + Csv.RenderRecord(Header)
  {
    var rows := Rows([]);
    assert rows == [Header];
    assert rows[1..] == [];
    assert Csv.RenderTable(rows) == Csv.RenderRecord(rows[0]) + Csv.RenderTable(rows[1..]);
  }
}
