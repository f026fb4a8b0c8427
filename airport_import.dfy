/** The airport import command (`load_airports`): each CSV row is validated,
    invalid rows are counted as skipped, and valid rows become airports in
    the order the file lists them. */
module AirportImport {
  import opened Sequences
  import opened Routes

  /** The columns of one airport CSV row that the import reads; an empty
      string is an empty cell. */
  datatype CsvRow = CsvRow(ident: string, icaoCode: string, name: string,
                           latitudeDeg: string, longitudeDeg: string,
                           municipality: string, isoCountry: string)

  /** Name, both coordinates, municipality and country are all present. */
  predicate FieldsPresent(row: CsvRow) {
    row.name != [] && row.latitudeDeg != [] && row.longitudeDeg != []
    && row.municipality != [] && row.isoCountry != []
  }

  /** `_validate_airport`: a row is rejected when it has neither an ICAO code
      nor an ident, or when its ident is longer than four characters (even if
      it has an ICAO code), or when a required field is empty. */
  function ValidateAirport(row: CsvRow): (ok: bool)
    ensures row.icaoCode == [] && row.ident == [] ==> !ok
    ensures |row.ident| > 4 ==> !ok
    ensures !FieldsPresent(row) ==> !ok
    ensures (row.icaoCode != [] || row.ident != []) && |row.ident| <= 4 && FieldsPresent(row) ==> ok
  {
    !(((row.icaoCode == [] && row.ident == []) || |row.ident| > 4)
      || row.name == []
      || row.latitudeDeg == []
      || row.longitudeDeg == []
      || row.municipality == []
      || row.isoCountry == [])
  }

  /** The stored code: the ICAO code when the row has one, else the ident. */
  function CodeOf(row: CsvRow): (code: string)
    ensures code == row.icaoCode || code == row.ident
    ensures row.icaoCode != [] ==> code == row.icaoCode
    ensures row.icaoCode == [] ==> code == row.ident
  {
    if row.icaoCode != [] then row.icaoCode else row.ident
  }

  /** The airport a valid row becomes; `parse` stands for Python's `float`. */
  function ToAirport(row: CsvRow, parse: string -> real): Airport {
    Airport(CodeOf(row), row.name, parse(row.latitudeDeg), parse(row.longitudeDeg),
            row.isoCountry, row.municipality)
  }

  /** The airports the command creates: the valid rows, converted, in file order. */
  function Imported(rows: seq<CsvRow>, parse: string -> real): seq<Airport> {
    var valid := Filter(rows, ValidateAirport);
    seq(|valid|, i requires 0 <= i < |valid| => ToAirport(valid[i], parse))
  }

  /** The number of rows the command reports as skipped. */
  function Rejected(rows: seq<CsvRow>): nat {
    if rows == [] then 0
    else Rejected(rows[..|rows| - 1]) + (if ValidateAirport(rows[|rows| - 1]) then 0 else 1)
  }

  /** The import loop of `Command.handle`. */
  method LoadAirports(rows: seq<CsvRow>, parse: string -> real)
    returns (airports: seq<Airport>, skipped: nat)
    ensures airports == Imported(rows, parse)
    ensures skipped == Rejected(rows)
    ensures skipped + |airports| == |rows|
  {
    airports, skipped := [], 0;
    var i := 0;
    while i < |rows|
      invariant i <= |rows|
      invariant airports == Imported(rows[..i], parse)
      invariant skipped == Rejected(rows[..i])
      invariant skipped + |airports| == i
    {
      var row := rows[i];
      assert rows[..i + 1][..i] == rows[..i];
      if !ValidateAirport(row) {
        skipped := skipped + 1;
        i := i + 1;
        continue;
      }
      var code := if row.icaoCode != [] then row.icaoCode else row.ident;
      airports := airports + [Airport(code, row.name, parse(row.latitudeDeg),
                                      parse(row.longitudeDeg), row.isoCountry,
                                      row.municipality)];
      i := i + 1;
    }
    assert rows[..i] == rows;
  }

  /** An accepted row always yields a non-empty code, and a code taken from
      the ident has at most four characters. */
  lemma AcceptedCode(row: CsvRow)
    requires ValidateAirport(row)
    ensures CodeOf(row) != []
    ensures row.icaoCode == [] ==> CodeOf(row) == row.ident && |CodeOf(row)| <= 4
  {
  }

  /** Skipped and imported rows together account for every row. */
  lemma {:induction false} ImportedPlusRejected(rows: seq<CsvRow>, parse: string -> real)
    ensures Rejected(rows) + |Imported(rows, parse)| == |rows|
  {
    if rows != [] {
      ImportedPlusRejected(rows[..|rows| - 1], parse);
    }
  }

  /** Every imported airport comes from a valid row of the file, so its code,
      name, country and municipality are non-empty. */
  lemma ImportedFromValidRows(rows: seq<CsvRow>, parse: string -> real, a: Airport)
    requires a in Imported(rows, parse)
    ensures exists row | row in rows :: ValidateAirport(row) && a == ToAirport(row, parse)
    ensures a.code != [] && a.name != [] && a.country != [] && a.municipality != []
  {
    FilterMembers(rows, ValidateAirport);
    var valid := Filter(rows, ValidateAirport);
    var i :| 0 <= i < |valid| && Imported(rows, parse)[i] == a;
    assert valid[i] in valid;
    AcceptedCode(valid[i]);
  }

  /** Every valid row of the file is imported. */
  lemma ValidRowImported(rows: seq<CsvRow>, parse: string -> real, row: CsvRow)
    requires row in rows && ValidateAirport(row)
    ensures ToAirport(row, parse) in Imported(rows, parse)
  {
    FilterMembers(rows, ValidateAirport);
    var valid := Filter(rows, ValidateAirport);
    var i :| 0 <= i < |valid| && valid[i] == row;
    assert Imported(rows, parse)[i] == ToAirport(row, parse);
  }

  /** File order is kept: airports from earlier rows come first. */
  lemma {:induction false} ImportedAppend(a: seq<CsvRow>, b: seq<CsvRow>, parse: string -> real)
    ensures Imported(a + b, parse) == Imported(a, parse) + Imported(b, parse)
  {
    FilterAppend(a, b, ValidateAirport);
  }
}
