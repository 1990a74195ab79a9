/** Reading the NUL-separated records of git's name-status output. */
module NameStatus {

  type Byte = b: int | 0 <= b < 256

  type Bytes = seq<Byte>

  datatype ParseError = NotTerminated | InvalidRecord | IncompleteRecord

  datatype Result<+T> = Ok(value: T) | Err(error: ParseError)

  /** A status and the paths it is about: two for a rename or a copy, else one. */
  datatype Record = Record(status: Bytes, paths: seq<Bytes>)

  // ----- the format

  /** One of A, C, D, M, R, T, then digits. */
  predicate ValidStatus(status: Bytes) {
    status != [] && status[0] in {65, 67, 68, 77, 82, 84} && forall k :: 1 <= k < |status| ==> 48 <= status[k] <= 57
  }

  function PathCount(status: Bytes): (n: nat)
    ensures 1 <= n <= 2
  {
    if status != [] && status[0] in {82, 67} then 2 else 1
  }

  predicate NulFree(field: Bytes) {
    forall k :: 0 <= k < |field| ==> field[k] != 0
  }

  predicate ValidRecord(r: Record) {
    && ValidStatus(r.status) && |r.paths| == PathCount(r.status)
    && forall k :: 0 <= k < |r.paths| ==> NulFree(r.paths[k])
  }

  predicate AllValid(records: seq<Record>) {
    forall k :: 0 <= k < |records| ==> ValidRecord(records[k])
  }

  predicate AllNulFree(fields: seq<Bytes>) {
    forall k :: 0 <= k < |fields| ==> NulFree(fields[k])
  }

  function Fields(records: seq<Record>): seq<Bytes> {
    if records == [] then [] else [records[0].status] + records[0].paths + Fields(records[1..])
  }

  /** Every field followed by a NUL. */
  function Terminated(fields: seq<Bytes>): Bytes {
    if fields == [] then [] else fields[0] + [0] + Terminated(fields[1..])
  }

  function Encode(records: seq<Record>): Bytes {
    Terminated(Fields(records))
  }

  function Paths(records: seq<Record>): seq<Bytes> {
    if records == [] then [] else records[0].paths + Paths(records[1..])
  }

  // ----- parsing

  /** The parts between NULs; always at least one. */
  function Split(data: Bytes): (fields: seq<Bytes>)
    ensures fields != []
  {
    if data == [] then [[]]
    else
      var rest := Split(data[1..]);
      if data[0] == 0 then [[]] + rest else [[data[0]] + rest[0]] + rest[1..]
  }

  function Records(fields: seq<Bytes>): Result<seq<Record>> {
    if fields == [] then Ok([])
    else
      var n := PathCount(fields[0]);
      if !ValidStatus(fields[0]) then Err(InvalidRecord)
      else if 1 + n > |fields| then Err(IncompleteRecord)
      else
        var rest := Records(fields[1 + n..]);
        if rest.Err? then rest else Ok([Record(fields[0], fields[1..1 + n])] + rest.value)
  }

  function Parse(data: Bytes): Result<seq<Record>> {
    if data == [] then Ok([])
    else if data[|data| - 1] != 0 then Err(NotTerminated)
    else Records(Split(data[..|data| - 1]))
  }

  function PathsOf(r: Result<seq<Record>>): Result<seq<Bytes>> {
    if r.Err? then Err(r.error) else Ok(Paths(r.value))
  }

  /** The result with paths put before it. */
  function After(paths: seq<Bytes>, r: Result<seq<Bytes>>): Result<seq<Bytes>> {
    if r.Err? then r else Ok(paths + r.value)
  }

  lemma AfterJoins(a: seq<Bytes>, b: seq<Bytes>, r: Result<seq<Bytes>>)
    ensures After(a, After(b, r)) == After(a + b, r) && After([], r) == r
  {
    if r.Ok? {
      assert a + (b + r.value) == (a + b) + r.value && [] + r.value == r.value;
    }
  }

  /** The record at an index, if it is valid and complete, and what follows it. */
  lemma RecordAt(fields: seq<Bytes>, index: nat)
    requires index < |fields|
    ensures var n := PathCount(fields[index]);
      var here, next := Records(fields[index..]), index + 1 + n;
      if !ValidStatus(fields[index]) then here == Err(InvalidRecord)
      else if next > |fields| then here == Err(IncompleteRecord)
      else PathsOf(here) == After(fields[index + 1..next], PathsOf(Records(fields[next..])))
  {
    var n := PathCount(fields[index]);
    if ValidStatus(fields[index]) && index + 1 + n <= |fields| {
      assert fields[index..][1..1 + n] == fields[index + 1..index + 1 + n];
      assert fields[index..][1 + n..] == fields[index + 1 + n..];
      var rest := Records(fields[index + 1 + n..]);
      assert rest.Ok? ==> ([Record(fields[index], fields[index + 1..index + 1 + n])] + rest.value)[1..] == rest.value;
    }
  }

  method ChangedPathsFromNameStatus(data: Bytes) returns (r: Result<seq<Bytes>>)
    ensures r == PathsOf(Parse(data))
  {
    if |data| == 0 {
      return Ok([]);
    }
    if data[|data| - 1] != 0 {
      return Err(NotTerminated);
    }
    var fields := Split(data[..|data| - 1]);
    var paths: seq<Bytes> := [];
    var index := 0;
    assert fields[0..] == fields;
    AfterJoins([], [], PathsOf(Records(fields)));
    while index < |fields|
      invariant 0 <= index <= |fields|
      invariant PathsOf(Records(fields)) == After(paths, PathsOf(Records(fields[index..])))
      decreases |fields| - index
    {
      RecordAt(fields, index);
      var status := fields[index];
      index := index + 1;
      if !ValidStatus(status) {
        return Err(InvalidRecord);
      }
      var pathCount := if status[0] == 82 || status[0] == 67 then 2 else 1;
      if index + pathCount > |fields| {
        return Err(IncompleteRecord);
      }
      AfterJoins(paths, fields[index..index + pathCount], PathsOf(Records(fields[index + pathCount..])));
      paths := paths + fields[index..index + pathCount];
      index := index + pathCount;
    }
    assert fields[index..] == [] && paths + [] == paths;
    return Ok(paths);
  }

  // ----- fields and bytes

  lemma {:induction false} SplitTerminates(data: Bytes)
    ensures Terminated(Split(data)) == data + [0] && AllNulFree(Split(data))
  {
    if data != [] {
      var rest := Split(data[1..]);
      SplitTerminates(data[1..]);
      assert Terminated(rest) == rest[0] + [0] + Terminated(rest[1..]);
      assert rest[0] + [0] + Terminated(rest[1..]) == data[1..] + [0];
      assert data == [data[0]] + data[1..];
      if data[0] == 0 {
        assert ([[]] + rest)[1..] == rest;
      } else {
        var first := [[data[0]] + rest[0]];
        assert (first + rest[1..])[1..] == rest[1..];
        assert ([data[0]] + rest[0]) + [0] + Terminated(rest[1..])
               == [data[0]] + (rest[0] + [0] + Terminated(rest[1..]));
      }
    }
  }

  /** Where the first field ends. */
  lemma FirstField(field: Bytes, rest: Bytes, field': Bytes, rest': Bytes)
    requires NulFree(field) && NulFree(field') && field + [0] + rest <= field' + [0] + rest'
    ensures field == field' && rest <= rest'
  {
    var a, b := field + [0] + rest, field' + [0] + rest';
    assert a[|field|] == 0 && b[|field|] == 0;
    assert b[|field'|] == 0;
    assert forall k :: 0 <= k < |field| ==> a[k] == field[k];
    assert forall k :: 0 <= k < |field'| ==> b[k] == field'[k];
    assert |field| == |field'|;
    assert field == a[..|field|] == b[..|field|] == field';
    assert rest == a[|field| + 1..] && rest' == b[|field| + 1..];
  }

  /** Terminated fields can be told apart as they are read. */
  lemma {:induction false} FieldsArePrefixFree(fields: seq<Bytes>, fields': seq<Bytes>)
    requires AllNulFree(fields) && AllNulFree(fields') && Terminated(fields) <= Terminated(fields')
    ensures fields <= fields'
  {
    if fields != [] {
      assert fields' != [];
      FirstField(fields[0], Terminated(fields[1..]), fields'[0], Terminated(fields'[1..]));
      FieldsArePrefixFree(fields[1..], fields'[1..]);
      assert fields == [fields[0]] + fields[1..] && fields' == [fields'[0]] + fields'[1..];
    }
  }

  lemma TerminatedEndsWithNul(fields: seq<Bytes>)
    requires fields != []
    ensures var t := Terminated(fields); t != [] && t[|t| - 1] == 0
    decreases |fields|
  {
    if |fields| > 1 {
      TerminatedEndsWithNul(fields[1..]);
    }
  }

  lemma SplitUndoesTerminated(fields: seq<Bytes>)
    requires fields != [] && AllNulFree(fields)
    ensures var t := Terminated(fields); t != [] && t[|t| - 1] == 0 && Split(t[..|t| - 1]) == fields
  {
    var t := Terminated(fields);
    TerminatedEndsWithNul(fields);
    SplitTerminates(t[..|t| - 1]);
    assert t[..|t| - 1] + [0] == t;
    FieldsArePrefixFree(fields, Split(t[..|t| - 1]));
    FieldsArePrefixFree(Split(t[..|t| - 1]), fields);
  }

  // ----- records and fields

  lemma {:induction false} FieldsNulFree(records: seq<Record>)
    requires AllValid(records)
    ensures AllNulFree(Fields(records)) && (records != [] ==> Fields(records) != [])
  {
    if records != [] {
      FieldsNulFree(records[1..]);
      assert NulFree(records[0].status) && AllNulFree(records[0].paths) by { assert ValidRecord(records[0]); }
    }
  }

  lemma {:induction false} RecordsOfFields(records: seq<Record>)
    requires AllValid(records)
    ensures Records(Fields(records)) == Ok(records)
  {
    if records != [] {
      var r := records[0];
      assert ValidRecord(r);
      RecordsOfFields(records[1..]);
      var fields := Fields(records);
      var n := PathCount(r.status);
      assert fields[1..1 + n] == r.paths && fields[1 + n..] == Fields(records[1..]);
      assert records == [r] + records[1..];
    }
  }

  lemma {:induction false} FieldsOfRecords(fields: seq<Bytes>)
    requires AllNulFree(fields) && Records(fields).Ok?
    ensures AllValid(Records(fields).value) && Fields(Records(fields).value) == fields
  {
    if fields != [] {
      var n := PathCount(fields[0]);
      FieldsOfRecords(fields[1 + n..]);
      var records := Records(fields).value;
      assert records[1..] == Records(fields[1 + n..]).value;
      assert fields == [fields[0]] + fields[1..1 + n] + fields[1 + n..];
      assert ValidRecord(records[0]);
    }
  }

  // ----- the main results

  /** Parsing what git writes gives back the records, and so their paths, two for renames and copies. */
  lemma RoundTrip(records: seq<Record>)
    requires AllValid(records)
    ensures Parse(Encode(records)) == Ok(records) && PathsOf(Parse(Encode(records))) == Ok(Paths(records))
  {
    if records != [] {
      FieldsNulFree(records);
      SplitUndoesTerminated(Fields(records));
      RecordsOfFields(records);
    }
  }

  /** What is accepted is the encoding of valid records, namely those parsed; everything else is rejected. */
  lemma AcceptedIffEncoded(data: Bytes)
    ensures Parse(data).Ok? ==> AllValid(Parse(data).value) && Encode(Parse(data).value) == data
    ensures Parse(data).Ok? <==> exists records :: AllValid(records) && Encode(records) == data
  {
    if Parse(data).Ok? && data != [] {
      SplitTerminates(data[..|data| - 1]);
      assert data[..|data| - 1] + [0] == data;
      FieldsOfRecords(Split(data[..|data| - 1]));
    }
    if records :| AllValid(records) && Encode(records) == data {
      RoundTrip(records);
    }
  }

  lemma {:induction false} RecordsArePrefixFree(records: seq<Record>, records': seq<Record>)
    requires AllValid(records) && AllValid(records') && Fields(records) <= Fields(records')
    ensures records <= records'
  {
    if records != [] {
      assert records' != [];
      var r, r' := records[0], records'[0];
      assert ValidRecord(r) && ValidRecord(r');
      assert r.status == Fields(records)[0] == Fields(records')[0] == r'.status;
      var n := PathCount(r.status);
      assert r.paths == Fields(records)[1..1 + n] == Fields(records')[1..1 + n] == r'.paths;
      assert Fields(records[1..]) == Fields(records)[1 + n..] && Fields(records'[1..]) == Fields(records')[1 + n..];
      RecordsArePrefixFree(records[1..], records'[1..]);
      assert records == [r] + records[1..] && records' == [r'] + records'[1..];
    }
  }

  /** The first fields of valid records are never an invalid record. */
  lemma {:induction false} FirstFieldsOfRecords(records: seq<Record>, fields: seq<Bytes>)
    requires AllValid(records) && fields <= Fields(records)
    ensures Records(fields).Err? ==> Records(fields).error == IncompleteRecord
  {
    if fields != [] {
      var r := records[0];
      var n := PathCount(r.status);
      assert ValidRecord(r) && fields[0] == r.status;
      if 1 + n <= |fields| {
        assert Fields(records)[1 + n..] == Fields(records[1..]);
        assert fields[1 + n..] <= Fields(records)[1 + n..];
        FirstFieldsOfRecords(records[1..], fields[1 + n..]);
      }
    }
  }

  lemma CutOutput(records: seq<Record>, data: Bytes)
    requires AllValid(records) && data <= Encode(records)
    ensures Parse(data).Err? ==>
              data != [] && Parse(data).error == if data[|data| - 1] != 0 then NotTerminated else IncompleteRecord
  {
    if data != [] && data[|data| - 1] == 0 {
      var init := data[..|data| - 1];
      SplitTerminates(init);
      assert init + [0] == data;
      FieldsNulFree(records);
      FieldsArePrefixFree(Split(init), Fields(records));
      FirstFieldsOfRecords(records, Split(init));
    }
  }

  lemma CutInRecords(records: seq<Record>, data: Bytes)
    requires AllValid(records) && data <= Encode(records) && Parse(data).Ok?
    ensures Encode(Parse(data).value) == data && Parse(data).value <= records
  {
    var parsed := Parse(data).value;
    AcceptedIffEncoded(data);
    FieldsNulFree(parsed);
    FieldsNulFree(records);
    FieldsArePrefixFree(Fields(parsed), Fields(records));
    RecordsArePrefixFree(parsed, records);
  }

  /** Output cut short is rejected, unless the cut is between two records; then exactly the records before it are
      read. A cut inside a field is told as a missing NUL, one between the fields of a record as an incomplete record.
      */
  lemma TruncatedOutput(records: seq<Record>, k: nat)
    requires AllValid(records) && k <= |Encode(records)|
    ensures Parse(Encode(records)[..k]).Ok? <==>
      exists m :: 0 <= m <= |records| && Encode(records[..m]) == Encode(records)[..k]
    ensures forall m :: 0 <= m <= |records| && Encode(records[..m]) == Encode(records)[..k] ==>
              Parse(Encode(records)[..k]) == Ok(records[..m])
    ensures Parse(Encode(records)[..k]).Err? ==>
              && k > 0
              && Parse(Encode(records)[..k]).error
                 == if Encode(records)[k - 1] != 0 then NotTerminated else IncompleteRecord
  {
    var data := Encode(records)[..k];
    CutOutput(records, data);
    forall m | 0 <= m <= |records| && Encode(records[..m]) == data
      ensures Parse(data) == Ok(records[..m])
    {
      RoundTrip(records[..m]);
    }
    if Parse(data).Ok? {
      CutInRecords(records, data);
      assert records[..|Parse(data).value|] == Parse(data).value;
    }
  }

  // ----- the letters, one by one

  predicate Digits(digits: Bytes) {
    forall k :: 0 <= k < |digits| ==> 48 <= digits[k] <= 57
  }

  lemma EncodeFirst(r: Record, more: seq<Record>)
    ensures Fields([r] + more) == [r.status] + r.paths + Fields(more) && Paths([r] + more) == r.paths + Paths(more)
  {
    assert ([r] + more)[1..] == more;
  }

  lemma TerminatedTwo(a: Bytes, b: Bytes, rest: seq<Bytes>)
    ensures Terminated([a] + [b] + rest) == a + [0] + b + [0] + Terminated(rest)
  {
    assert ([a] + [b] + rest)[1..] == [b] + rest && ([b] + rest)[1..] == rest;
    assert Terminated([b] + rest) == b + [0] + Terminated(rest);
    assert a + [0] + (b + [0] + Terminated(rest)) == a + [0] + b + [0] + Terminated(rest);
  }

  lemma TerminatedThree(a: Bytes, b: Bytes, c: Bytes, rest: seq<Bytes>)
    ensures Terminated([a] + [b, c] + rest) == a + [0] + b + [0] + c + [0] + Terminated(rest)
  {
    assert [a] + [b, c] + rest == [a] + [b] + ([c] + rest) && ([c] + rest)[1..] == rest;
    TerminatedTwo(a, b, [c] + rest);
    assert Terminated([c] + rest) == c + [0] + Terminated(rest);
    assert a + [0] + b + [0] + (c + [0] + Terminated(rest)) == a + [0] + b + [0] + c + [0] + Terminated(rest);
  }

  lemma ValidFirst(r: Record, more: seq<Record>)
    requires ValidRecord(r) && AllValid(more)
    ensures AllValid([r] + more)
  {
  }

  /** R (82) or C (67), any digits, two paths, and any further records: both paths are read, and then the others. */
  lemma RenameHasTwoPaths(letter: Byte, digits: Bytes, p: Bytes, q: Bytes, more: seq<Record>)
    requires letter == 82 || letter == 67
    requires Digits(digits) && NulFree(p) && NulFree(q) && AllValid(more)
    ensures PathsOf(Parse([letter] + digits + [0] + p + [0] + q + [0] + Encode(more))) == Ok([p, q] + Paths(more))
  {
    var r := Record([letter] + digits, [p, q]);
    assert ValidRecord(r);
    ValidFirst(r, more);
    EncodeFirst(r, more);
    TerminatedThree(r.status, p, q, Fields(more));
    RoundTrip([r] + more);
  }

  /** A (65), D (68), M (77) or T (84), any digits, one path, and any further records. */
  lemma ChangeHasOnePath(letter: Byte, digits: Bytes, p: Bytes, more: seq<Record>)
    requires letter == 65 || letter == 68 || letter == 77 || letter == 84
    requires Digits(digits) && NulFree(p) && AllValid(more)
    ensures PathsOf(Parse([letter] + digits + [0] + p + [0] + Encode(more))) == Ok([p] + Paths(more))
  {
    var r := Record([letter] + digits, [p]);
    assert ValidRecord(r);
    ValidFirst(r, more);
    EncodeFirst(r, more);
    TerminatedTwo(r.status, p, Fields(more));
    RoundTrip([r] + more);
  }

  /** A first field of any other form, and whatever terminated fields follow, is refused as an invalid record. */
  lemma OtherStatusIsRefused(status: Bytes, rest: seq<Bytes>)
    requires NulFree(status) && AllNulFree(rest)
    requires || status == [] || status[0] !in {65, 67, 68, 77, 82, 84}
             || !Digits(status[1..])
    ensures Parse(Terminated([status] + rest)) == Err(InvalidRecord)
  {
    SplitUndoesTerminated([status] + rest);
    if status != [] && !Digits(status[1..]) {
      var k :| 0 <= k < |status[1..]| && !(48 <= status[1..][k] <= 57);
      assert status[k + 1] == status[1..][k];
    }
  }
}
