/** The destination lookup over the address catalogue `adress.csv`: rows of
    `(district, street_type, street_name)` after one header line, searched
    in order for the first street whose name equals the requested one up to
    case. */
module Catalog {
  import opened Text

  /** One line of a CSV file as the reader yields it: its list of fields. */
  type Row = seq<string>

  /** The outcome of the scan: the first matching row, no match, or the error
      raised when the header is missing or a row is not three fields wide. */
  datatype Lookup =
    | Found(district: string, streetType: string, streetName: string)
    | NotFound
    | Malformed

  /** The row names the requested street, compared after lower-casing both. */
  predicate Matches(row: Row, street: string)
  {
    |row| == 3 && Lower(street) == Lower(row[2])
  }

  /** The scan leaves the loop at this row: it fails to unpack, or it matches. */
  predicate Stops(row: Row, street: string)
  {
    |row| != 3 || Matches(row, street)
  }

  /** The scan gets past the first `k` data rows. */
  predicate PassesFirst(data: seq<Row>, street: string, k: nat)
    requires k <= |data|
  {
    forall j :: 0 <= j < k ==> !Stops(data[j], street)
  }

  /** Row `i` is the first row at which the scan leaves the loop. */
  predicate FirstStopAt(data: seq<Row>, street: string, i: int)
  {
    0 <= i < |data| && PassesFirst(data, street, i) && Stops(data[i], street)
  }

  /** The `for row in csv_reader` loop over the data rows. */
  function Scan(data: seq<Row>, street: string): (r: Lookup)
    ensures r.Found? ==> [r.district, r.streetType, r.streetName] in data
    ensures r.Found? ==> Lower(r.streetName) == Lower(street)
  {
    if data == [] then NotFound
    else if |data[0]| != 3 then Malformed
    else if Lower(street) == Lower(data[0][2]) then
      assert data[0] == [data[0][0], data[0][1], data[0][2]];
      Found(data[0][0], data[0][1], data[0][2])
    else Scan(data[1..], street)
  }

  /** The whole lookup: skip the header (an empty file has none, and `next`
      raises), then scan. */
  function FindDistrict(rows: seq<Row>, street: string): (r: Lookup)
    ensures rows == [] ==> r == Malformed
    ensures r.Found? ==> [r.district, r.streetType, r.streetName] in rows[1..]
    ensures r.Found? ==> Lower(r.streetName) == Lower(street)
  {
    if rows == [] then Malformed else Scan(rows[1..], street)
  }

  /** What the scan returns, in terms of the first row that stops it: the
      fields of that row when it matches, the error when it cannot be
      unpacked, and "not found" exactly when no row stops it. */
  lemma {:induction false} ScanFirstStop(data: seq<Row>, street: string)
    ensures Scan(data, street).Found? ==>
      exists i :: FirstStopAt(data, street, i) && Matches(data[i], street) &&
        data[i] == [Scan(data, street).district, Scan(data, street).streetType, Scan(data, street).streetName]
    ensures Scan(data, street) == Malformed <==>
      exists i :: FirstStopAt(data, street, i) && |data[i]| != 3
    ensures Scan(data, street) == NotFound <==> PassesFirst(data, street, |data|)
  {
    if data == [] {
    } else if Stops(data[0], street) {
      assert FirstStopAt(data, street, 0);
      if |data[0]| == 3 {
        assert data[0] == [data[0][0], data[0][1], data[0][2]];
        forall i | FirstStopAt(data, street, i) ensures i == 0 { }
      }
    } else {
      var rest := data[1..];
      ScanFirstStop(rest, street);
      forall i | FirstStopAt(rest, street, i) ensures FirstStopAt(data, street, i + 1) {
        forall j | 0 <= j < i + 1 ensures !Stops(data[j], street) {
          if j > 0 { assert data[j] == rest[j - 1]; }
        }
      }
      forall i | FirstStopAt(data, street, i) ensures i > 0 && FirstStopAt(rest, street, i - 1) {
        assert i > 0;
        forall j | 0 <= j < i - 1 ensures !Stops(rest[j], street) {
          assert rest[j] == data[j + 1];
        }
      }
      if PassesFirst(rest, street, |rest|) {
        forall j | 0 <= j < |data| ensures !Stops(data[j], street) {
          if j > 0 { assert data[j] == rest[j - 1]; }
        }
      }
      if PassesFirst(data, street, |data|) {
        forall j | 0 <= j < |rest| ensures !Stops(rest[j], street) {
          assert rest[j] == data[j + 1];
        }
      }
    }
  }

  /** The header row never takes part in the match: a found row is a data row
      (index 1 or later) that matches, and every data row before it unpacked
      and did not match. A file without a header is an error. */
  lemma FindDistrictFound(rows: seq<Row>, street: string)
    requires FindDistrict(rows, street).Found?
    ensures exists i ::
      && 1 <= i < |rows| && Matches(rows[i], street)
      && rows[i] == [FindDistrict(rows, street).district, FindDistrict(rows, street).streetType,
                     FindDistrict(rows, street).streetName]
      && (forall j :: 1 <= j < i ==> |rows[j]| == 3 && !Matches(rows[j], street))
  {
    var data := rows[1..];
    ScanFirstStop(data, street);
    var i :| FirstStopAt(data, street, i) && Matches(data[i], street) &&
      data[i] == [Scan(data, street).district, Scan(data, street).streetType, Scan(data, street).streetName];
    assert rows[i + 1] == data[i];
    forall j | 1 <= j < i + 1 ensures |rows[j]| == 3 && !Matches(rows[j], street) {
      assert rows[j] == data[j - 1];
    }
  }

  /** Rows behind the point where the scan stops are never consulted: once a
      prefix of the data produces a match or an error, appending rows changes
      nothing; when it finds nothing, the scan simply continues. */
  lemma {:induction false} ScanAppend(data: seq<Row>, more: seq<Row>, street: string)
    ensures Scan(data + more, street) ==
      if Scan(data, street) == NotFound then Scan(more, street) else Scan(data, street)
  {
    if data == [] {
      assert data + more == more;
    } else {
      assert (data + more)[0] == data[0];
      assert (data + more)[1..] == data[1..] + more;
      ScanAppend(data[1..], more, street);
    }
  }

  /** The scan reads the requested street only through its lower-cased form. */
  lemma {:induction false} ScanIgnoresCase(data: seq<Row>, s1: string, s2: string)
    requires Lower(s1) == Lower(s2)
    ensures Scan(data, s1) == Scan(data, s2)
  {
    if data != [] {
      ScanIgnoresCase(data[1..], s1, s2);
    }
  }

  /** Any casing of a street resolves to the same outcome, in particular its
      lower-cased form, and any casing of the street name of a found row
      resolves to that same row. */
  lemma FindDistrictIgnoresCase(rows: seq<Row>, street: string, other: string)
    ensures Lower(other) == Lower(street) ==> FindDistrict(rows, other) == FindDistrict(rows, street)
    ensures FindDistrict(rows, Lower(street)) == FindDistrict(rows, street)
    ensures (FindDistrict(rows, street).Found? &&
             Lower(other) == Lower(FindDistrict(rows, street).streetName)) ==>
      FindDistrict(rows, other) == FindDistrict(rows, street)
  {
    if rows != [] {
      var data := rows[1..];
      if Lower(other) == Lower(street) {
        ScanIgnoresCase(data, other, street);
      }
      LowerIdempotent(street);
      ScanIgnoresCase(data, Lower(street), street);
      if FindDistrict(rows, street).Found? {
        FindDistrictFound(rows, street);
        if Lower(other) == Lower(FindDistrict(rows, street).streetName) {
          ScanIgnoresCase(data, other, street);
        }
      }
    }
  }
}
