/** The part of CSV import that the students, faculty and classes sections
    share: after the parser has produced a grid of strings, the first row is
    the header, and each later row becomes a dictionary from normalised header
    to cell, filled by a `headers.forEach` loop. */
module CsvRows {
  import opened Lists
  import opened Text

  /** `row[headerIndex]`: `None` (undefined) when the row is shorter than the header. */
  type Cell = Option<string>

  /** The dictionary built for one row. */
  type RowData = map<string, Cell>

  /** `header.toLowerCase().replace(' ', '')`: lower-cased, FIRST space removed. */
  function NormalizeHeader(h: string): string
  {
    RemoveFirstSpace(Lower(h))
  }

  function CellAt(row: seq<string>, i: nat): Cell
  {
    if i < |row| then Some(row[i]) else None
  }

  /** The dictionary after the loop has visited every header: a later header
      with the same normalised name overwrites an earlier one. */
  function RowDataOf(headers: seq<string>, row: seq<string>): RowData
    decreases |headers|
  {
    if headers == [] then map[]
    else
      var n := |headers| - 1;
      RowDataOf(headers[..n], row)[NormalizeHeader(headers[n]) := CellAt(row, n)]
  }

  /** The `headers.forEach` loop that fills one row's dictionary. */
  method BuildRowData(headers: seq<string>, row: seq<string>) returns (d: RowData)
    ensures d == RowDataOf(headers, row)
  {
    d := map[];
    var i := 0;
    while i < |headers|
      invariant 0 <= i <= |headers|
      invariant d == RowDataOf(headers[..i], row)
    {
      assert headers[..i + 1][..i] == headers[..i];
      d := d[NormalizeHeader(headers[i]) := CellAt(row, i)];
      i := i + 1;
    }
    assert headers[..|headers|] == headers;
  }

  /** The value of a dictionary key as JavaScript reads `data.key`: `None` when
      no header normalises to it. */
  function Get(d: RowData, key: string): Cell
  {
    if key in d then d[key] else None
  }

  /** A key is present exactly when some header normalises to it. */
  lemma {:induction false} RowDataKeys(headers: seq<string>, row: seq<string>, key: string)
    ensures key in RowDataOf(headers, row) <==> exists i :: 0 <= i < |headers| && NormalizeHeader(headers[i]) == key
    decreases |headers|
  {
    if headers != [] {
      var n := |headers| - 1;
      var prefix := headers[..n];
      RowDataKeys(prefix, row, key);
      if key in RowDataOf(prefix, row) {
        var i :| 0 <= i < |prefix| && NormalizeHeader(prefix[i]) == key;
        assert headers[i] == prefix[i];
      }
      if exists i :: 0 <= i < |headers| && NormalizeHeader(headers[i]) == key {
        var i :| 0 <= i < |headers| && NormalizeHeader(headers[i]) == key;
        if i < n {
          assert prefix[i] == headers[i];
        }
      }
    }
  }

  /** A key holds the cell under the LAST header that normalises to it. */
  lemma {:induction false} RowDataLast(headers: seq<string>, row: seq<string>, key: string, i: nat)
    requires i < |headers| && NormalizeHeader(headers[i]) == key
    requires forall j :: i < j < |headers| ==> NormalizeHeader(headers[j]) != key
    ensures key in RowDataOf(headers, row) && RowDataOf(headers, row)[key] == CellAt(row, i)
    decreases |headers|
  {
    var n := |headers| - 1;
    if i < n {
      var prefix := headers[..n];
      assert prefix[i] == headers[i];
      forall j | i < j < |prefix| ensures NormalizeHeader(prefix[j]) != key {
        assert prefix[j] == headers[j];
      }
      RowDataLast(prefix, row, key, i);
    }
  }
}
