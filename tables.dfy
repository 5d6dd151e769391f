/**
 * The record table of the dataset utilities (backend/utils.py): a CSV file
 * read into a data frame with at least a `name` column. The helpers rewrite
 * that column and write the whole table back; `image_exists` looks up the
 * image file a row names. Parsing and writing the CSV text are outside the
 * model: a file holds a `Table` value.
 */
module Tables {
  import opened Common
  import opened Filenames

  /** One record: column name to cell text. */
  type Row = map<string, string>

  /** A data frame: its column names and its rows in file order. */
  datatype Table = Table(columns: seq<string>, rows: seq<Row>)

  /** The column every helper works on. */
  const NameColumn: string := "name"

  /** Every row has a cell for exactly the table's columns. */
  ghost predicate WellFormed(t: Table) {
    forall i, c :: 0 <= i < |t.rows| ==> (c in t.rows[i] <==> c in t.columns)
  }

  /**
   * How a helper ends: it rewrote the file with `table`; it reported the
   * missing `name` column and returned; or it raised `KeyError` for `key`.
   * The last two leave the file as it was.
   */
  datatype CsvOutcome = Rewritten(table: Table) | NameColumnMissing | KeyErrorRaised(key: string)

  /** The table the file holds after a helper returned `r` on a file holding `t`. */
  function FileAfter(t: Table, r: CsvOutcome): (after: Table)
    ensures r.NameColumnMissing? ==> after == t
  {
    if r.Rewritten? then r.table else t
  }

  /** `t2` has the columns, rows and cells of `t` except possibly the `name` cells. */
  ghost predicate OnlyNameCellsDiffer(t: Table, t2: Table) {
    && t2.columns == t.columns
    && |t2.rows| == |t.rows|
    && (forall i :: 0 <= i < |t.rows| ==> t2.rows[i].Keys == t.rows[i].Keys)
    && (forall i, c :: 0 <= i < |t.rows| && c in t.rows[i] && c != NameColumn ==> t2.rows[i][c] == t.rows[i][c])
  }

  /** `df["name"] = df["name"].apply(f)`: every `name` cell replaced by its image under `f`. */
  function MapNameColumn(t: Table, f: string -> string): (t2: Table)
    ensures OnlyNameCellsDiffer(t, t2)
    ensures forall i :: 0 <= i < |t.rows| && NameColumn in t.rows[i] ==>
      t2.rows[i][NameColumn] == f(t.rows[i][NameColumn])
  {
    var rows := seq(|t.rows|, i requires 0 <= i < |t.rows| =>
      var row := t.rows[i];
      if NameColumn in row then row[NameColumn := f(row[NameColumn])] else row);
    Table(t.columns, rows)
  }

  /**
   * `rename_to_ascii_csv`: every `name` entry, ASCII or not, becomes its
   * transliteration with spaces replaced by underscores; a table without a
   * `name` column raises `KeyError` before anything is written.
   */
  function RenameToAsciiCsv(t: Table, transliterate: string -> string): (r: CsvOutcome)
    ensures r.KeyErrorRaised? <==> NameColumn !in t.columns
    ensures r.KeyErrorRaised? ==> r.key == NameColumn
    ensures !r.NameColumnMissing?
    ensures r.Rewritten? ==> OnlyNameCellsDiffer(t, r.table)
    ensures r.Rewritten? ==> forall i :: 0 <= i < |t.rows| && NameColumn in t.rows[i] ==>
      r.table.rows[i][NameColumn] == AsciiTarget(t.rows[i][NameColumn], transliterate)
    ensures r.Rewritten? && WellFormed(t) ==> forall i :: 0 <= i < |t.rows| ==>
      NameColumn in r.table.rows[i] && !HasSpace(r.table.rows[i][NameColumn])
  {
    if NameColumn !in t.columns then KeyErrorRaised(NameColumn)
    else Rewritten(MapNameColumn(t, name => AsciiTarget(name, transliterate)))
  }

  /**
   * `replace_space_with_underscore_csv`: with a `name` column, its spaces
   * become underscores and nothing else changes; without one, a message is
   * printed and the file is left as it was.
   */
  function ReplaceSpaceCsv(t: Table): (r: CsvOutcome)
    ensures r.NameColumnMissing? <==> NameColumn !in t.columns
    ensures !r.KeyErrorRaised?
    ensures r.Rewritten? ==> OnlyNameCellsDiffer(t, r.table)
    ensures r.Rewritten? ==> forall i :: 0 <= i < |t.rows| && NameColumn in t.rows[i] ==>
      r.table.rows[i][NameColumn] == ReplaceSpaces(t.rows[i][NameColumn])
  {
    if NameColumn !in t.columns then NameColumnMissing
    else Rewritten(MapNameColumn(t, ReplaceSpaces))
  }

  /**
   * Without a `name` column the ASCII rewrite raises while the space rewrite
   * reports and returns; neither touches the file.
   */
  lemma MissingNameColumn(t: Table, transliterate: string -> string)
    requires NameColumn !in t.columns
    ensures RenameToAsciiCsv(t, transliterate) == KeyErrorRaised(NameColumn)
    ensures ReplaceSpaceCsv(t) == NameColumnMissing
    ensures FileAfter(t, RenameToAsciiCsv(t, transliterate)) == t && FileAfter(t, ReplaceSpaceCsv(t)) == t
  {
  }

  /** Both helpers keep a well-formed table well-formed. */
  lemma RewritesKeepWellFormed(t: Table, transliterate: string -> string)
    requires WellFormed(t)
    ensures WellFormed(FileAfter(t, RenameToAsciiCsv(t, transliterate)))
    ensures WellFormed(FileAfter(t, ReplaceSpaceCsv(t)))
  {
  }

  /** A table whose `name` cells have no spaces is left exactly as it was. */
  lemma ReplaceSpaceCsvNoSpaces(t: Table)
    requires forall i :: 0 <= i < |t.rows| && NameColumn in t.rows[i] ==> !HasSpace(t.rows[i][NameColumn])
    ensures FileAfter(t, ReplaceSpaceCsv(t)) == t
  {
    var after := FileAfter(t, ReplaceSpaceCsv(t));
    forall i | 0 <= i < |t.rows| ensures after.rows[i] == t.rows[i] {
      assert after.rows[i].Keys == t.rows[i].Keys;
    }
  }

  /** Running the space rewrite on its own output changes nothing. */
  lemma ReplaceSpaceCsvIdempotent(t: Table)
    ensures var once := FileAfter(t, ReplaceSpaceCsv(t));
            FileAfter(once, ReplaceSpaceCsv(once)) == once
  {
    var once := FileAfter(t, ReplaceSpaceCsv(t));
    if NameColumn in t.columns {
      forall i | 0 <= i < |once.rows| && NameColumn in once.rows[i]
        ensures !HasSpace(once.rows[i][NameColumn])
      {
        assert once.rows[i][NameColumn] == ReplaceSpaces(t.rows[i][NameColumn]);
      }
      ReplaceSpaceCsvNoSpaces(once);
    }
  }

  /**
   * When the transliteration yields ASCII text and keeps ASCII text as it is,
   * as unidecode does, rewriting the names of the rewritten file again
   * changes nothing.
   */
  lemma RenameToAsciiCsvIdempotent(t: Table, transliterate: string -> string)
    requires forall s :: IsAscii(transliterate(s))
    requires forall s :: IsAscii(s) ==> transliterate(s) == s
    ensures var once := FileAfter(t, RenameToAsciiCsv(t, transliterate));
            FileAfter(once, RenameToAsciiCsv(once, transliterate)) == once
  {
    var once := FileAfter(t, RenameToAsciiCsv(t, transliterate));
    if NameColumn in t.columns {
      var twice := FileAfter(once, RenameToAsciiCsv(once, transliterate));
      forall i | 0 <= i < |once.rows| ensures twice.rows[i] == once.rows[i] {
        if NameColumn in once.rows[i] {
          var n := once.rows[i][NameColumn];
          assert n == AsciiTarget(t.rows[i][NameColumn], transliterate);
          assert IsAscii(n) && !HasSpace(n);
          assert AsciiTarget(n, transliterate) == n;
        }
        assert twice.rows[i].Keys == once.rows[i].Keys;
      }
    }
  }

  /** The file `image_exists` looks for: `os.path.join(directory, name + ".jpg")`. */
  function ImagePath(directory: string, name: string): (p: string)
    ensures EndsWith(p, name + ".jpg")
    ensures !IsAbsolute(name) ==> |directory| <= |p| && p[..|directory|] == directory
  {
    PathJoin(directory, name + ".jpg")
  }

  /**
   * `image_exists`: whether the row's `.jpg` file is among the regular files
   * `files`; a row without a `name` cell raises.
   */
  function ImageExists(row: Row, directory: string, files: set<string>): (r: Result<bool, string>)
    ensures r.Err? <==> NameColumn !in row
    ensures r.Err? ==> r.error == NameColumn
    ensures r.Ok? ==> (r.value <==> ImagePath(directory, row[NameColumn]) in files)
  {
    if NameColumn !in row then Err(NameColumn)
    else Ok(ImagePath(directory, row[NameColumn]) in files)
  }

  /** Creating the row's file makes the check true; deleting it makes it false. */
  lemma ImageExistsCreateDelete(row: Row, directory: string, files: set<string>)
    requires NameColumn in row
    ensures var p := ImagePath(directory, row[NameColumn]);
            ImageExists(row, directory, files + {p}) == Ok(true) &&
            ImageExists(row, directory, files - {p}) == Ok(false)
  {
  }

  /** In a plain directory, the path is the directory, a slash, the name and ".jpg". */
  lemma ImagePathInDirectory(directory: string, name: string)
    requires directory != "" && directory[|directory| - 1] != '/' && !IsAbsolute(name)
    ensures ImagePath(directory, name) == directory + "/" + name + ".jpg"
  {
    assert !IsAbsolute(name + ".jpg");
  }
}
