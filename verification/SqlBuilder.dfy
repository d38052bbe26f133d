/** The insert statements as the program builds them, one value at a time. */
module SqlBuilder {
  import opened Structures
  import opened SqlText
  import opened SqlDatabase
  import opened SqlStatements

  function TransFields(lot: ParkingLot): (r: seq<string>)
    ensures |r| == |Columns(LotTrans)|
  {
    [lot.locationCode, lot.lotNo, lot.lpn, lot.lotInImagePath, lot.lotOutImagePath, lot.lotInDt, lot.lotOutDt,
     lot.addDt, lot.updateDt, lot.lotInCentralSentDt, lot.lotOutCentralSentDt]
  }

  // Every value but the last is followed by a comma and a blank.
  function Item(field: string): string {
    Literal(field) + ", "
  }

  function Items(fields: seq<string>): string {
    if fields == [] then "" else Items(fields[..|fields| - 1]) + Item(fields[|fields| - 1])
  }

  lemma ItemsAppend(fields: seq<string>, field: string)
    ensures Items(fields + [field]) == Items(fields) + Item(field)
  {
    assert (fields + [field])[..|fields|] == fields;
  }

  lemma {:induction false} ItemsPrepend(field: string, fields: seq<string>)
    ensures Items([field] + fields) == Item(field) + Items(fields)
    decreases |fields|
  {
    if fields == [] {
      assert [field] + fields == [] + [field];
      ItemsAppend([], field);
    } else {
      var n := |fields| - 1;
      var rest, last := fields[..n], fields[n];
      assert fields == rest + [last];
      calc {
        Items([field] + fields);
        { assert [field] + fields == ([field] + rest) + [last]; }
        Items(([field] + rest) + [last]);
        { ItemsAppend([field] + rest, last); }
        Items([field] + rest) + Item(last);
        { ItemsPrepend(field, rest); }
        (Item(field) + Items(rest)) + Item(last);
        { Assoc(Item(field), Items(rest), Item(last)); }
        Item(field) + (Items(rest) + Item(last));
        { ItemsAppend(rest, last); }
        Item(field) + Items(fields);
      }
    }
  }

  // The text read from the front is the text built from the back.
  lemma {:induction false} ItemsThenLast(fields: seq<string>, last: string)
    ensures ValuesText(fields + [last]) == Items(fields) + (Literal(last) + ")")
    decreases |fields|
  {
    var end := Literal(last) + ")";
    if fields == [] {
      assert fields + [last] == [last];
      assert "" + end == end;
    } else {
      var first, rest := fields[0], fields[1..];
      assert fields == [first] + rest;
      calc {
        ValuesText(fields + [last]);
        { assert (fields + [last])[1..] == rest + [last]; }
        Literal(first) + (", " + ValuesText(rest + [last]));
        { Assoc(Literal(first), ", ", ValuesText(rest + [last])); }
        Item(first) + ValuesText(rest + [last]);
        { ItemsThenLast(rest, last); }
        Item(first) + (Items(rest) + end);
        { Assoc(Item(first), Items(rest), end); }
        (Item(first) + Items(rest)) + end;
        { ItemsPrepend(first, rest); }
        Items(fields) + end;
      }
    }
  }

  method AppendValue(query: string, field: string, separator: string) returns (r: string)
    ensures r == query + (Literal(field) + separator)
  {
    if field == "" {
      r := query + ("NULL" + separator);
    } else {
      r := query + ("'" + field + "'" + separator);
    }
  }

  // The query holds the values of the first k columns.
  ghost predicate Holds(query: string, head: string, fields: seq<string>, k: nat) {
    k <= |fields| && query == head + Items(fields[..k])
  }

  lemma HoldsNone(head: string, fields: seq<string>)
    ensures Holds(head, head, fields, 0)
  {
    assert fields[..0] == [];
    assert head + "" == head;
  }

  lemma HoldsOneMore(query: string, head: string, fields: seq<string>, k: nat)
    requires Holds(query, head, fields, k) && k < |fields|
    ensures Holds(query + Item(fields[k]), head, fields, k + 1)
  {
    assert fields[..k + 1] == fields[..k] + [fields[k]];
    ItemsAppend(fields[..k], fields[k]);
    Assoc(head, Items(fields[..k]), Item(fields[k]));
  }

  lemma HoldsAll(query: string, head: string, fields: seq<string>, last: string)
    requires Holds(query, head, fields + [last], |fields|)
    ensures query + (Literal(last) + ")") == head + ValuesText(fields + [last])
  {
    assert (fields + [last])[..|fields|] == fields;
    Assoc(head, Items(fields), Literal(last) + ")");
    ItemsThenLast(fields, last);
  }

  method AppendItem(query: string, field: string, ghost head: string, ghost fields: seq<string>, ghost k: nat)
    returns (r: string)
    requires Holds(query, head, fields, k) && k < |fields| && fields[k] == field
    ensures Holds(r, head, fields, k + 1)
  {
    r := AppendValue(query, field, ", ");
    HoldsOneMore(query, head, fields, k);
  }

  // The value of the last column and the closing parenthesis.
  method AppendLast(query: string, field: string, ghost head: string, ghost fields: seq<string>) returns (r: string)
    requires fields != [] && fields[|fields| - 1] == field
    requires Holds(query, head, fields, |fields| - 1)
    ensures r == head + ValuesText(fields)
  {
    r := AppendValue(query, field, ")");
    ghost var rest := fields[..|fields| - 1];
    assert fields == rest + [field];
    HoldsAll(query, head, rest, field);
  }

  method BuildStatusInsert(carparkCode: string, deviceIp: string, errorCode: string) returns (query: string)
    ensures query == InsertText(LotStatus, [carparkCode, deviceIp, errorCode])
    ensures Plain(carparkCode) && Plain(deviceIp) && Plain(errorCode) ==>
              StoresStatus(Understand(query), carparkCode, deviceIp, errorCode)
  {
    var head := InsertHead(LotStatus);
    ghost var fields := [carparkCode, deviceIp, errorCode];
    HoldsNone(head, fields);
    query := AppendItem(head, carparkCode, head, fields, 0);
    query := AppendItem(query, deviceIp, head, fields, 1);
    query := AppendLast(query, errorCode, head, fields);
    if Plain(carparkCode) && Plain(deviceIp) && Plain(errorCode) {
      StatusRecordIsStored(carparkCode, deviceIp, errorCode);
    }
  }

  method BuildTransInsert(lot: ParkingLot) returns (query: string)
    ensures query == InsertText(LotTrans, TransFields(lot))
    ensures PlainLot(lot) ==> StoresLot(Understand(query), lot)
  {
    query := AppendLot(InsertHead(LotTrans), lot);
    if PlainLot(lot) {
      TransRecordIsStored(lot);
    }
  }

  method AppendLot(head: string, lot: ParkingLot) returns (query: string)
    ensures query == head + ValuesText(TransFields(lot))
  {
    ghost var fields := TransFields(lot);
    HoldsNone(head, fields);
    query := AppendItem(head, lot.locationCode, head, fields, 0);
    query := AppendItem(query, lot.lotNo, head, fields, 1);
    query := AppendItem(query, lot.lpn, head, fields, 2);
    query := AppendImages(query, lot, head);
  }

  // The two image paths, and then the dates.
  method AppendImages(started: string, lot: ParkingLot, ghost head: string) returns (query: string)
    requires Holds(started, head, TransFields(lot), 3)
    ensures query == head + ValuesText(TransFields(lot))
  {
    ghost var fields := TransFields(lot);
    query := AppendItem(started, lot.lotInImagePath, head, fields, 3);
    query := AppendItem(query, lot.lotOutImagePath, head, fields, 4);
    query := AppendTimes(query, lot, head);
  }

  // The six date columns.
  method AppendTimes(started: string, lot: ParkingLot, ghost head: string) returns (query: string)
    requires Holds(started, head, TransFields(lot), 5)
    ensures query == head + ValuesText(TransFields(lot))
  {
    ghost var fields := TransFields(lot);
    query := AppendItem(started, lot.lotInDt, head, fields, 5);
    query := AppendItem(query, lot.lotOutDt, head, fields, 6);
    query := AppendItem(query, lot.addDt, head, fields, 7);
    query := AppendItem(query, lot.updateDt, head, fields, 8);
    query := AppendSent(query, lot, head);
  }

  // The times at which the central server was told.
  method AppendSent(started: string, lot: ParkingLot, ghost head: string) returns (query: string)
    requires Holds(started, head, TransFields(lot), 9)
    ensures query == head + ValuesText(TransFields(lot))
  {
    ghost var fields := TransFields(lot);
    query := AppendItem(started, lot.lotInCentralSentDt, head, fields, 9);
    query := AppendLast(query, lot.lotOutCentralSentDt, head, fields);
  }

  // The column has the field, or NULL if that is empty.
  predicate Gets(row: Row, column: string, field: string) {
    column in row && row[column] == Stored(field)
  }

  // The statement inserts the lot, each field into the column of its own name.
  predicate StoresLot(statement: Statement, lot: ParkingLot) {
    && statement.Insert? && statement.table == LotTrans
    && Gets(statement.row, "location_code", lot.locationCode)
    && Gets(statement.row, "lot_no", lot.lotNo)
    && Gets(statement.row, "lpn", lot.lpn)
    && Gets(statement.row, "lot_in_image", lot.lotInImagePath)
    && Gets(statement.row, "lot_out_image", lot.lotOutImagePath)
    && Gets(statement.row, "lot_in_dt", lot.lotInDt)
    && Gets(statement.row, "lot_out_dt", lot.lotOutDt)
    && Gets(statement.row, "add_dt", lot.addDt)
    && Gets(statement.row, "update_dt", lot.updateDt)
    && Gets(statement.row, "lot_in_central_sent_dt", lot.lotInCentralSentDt)
    && Gets(statement.row, "lot_out_central_sent_dt", lot.lotOutCentralSentDt)
  }

  // A status record leaves the time at which the central server was told open.
  predicate StoresStatus(statement: Statement, carparkCode: string, deviceIp: string, errorCode: string) {
    && statement.Insert? && statement.table == LotStatus
    && Gets(statement.row, "location_code", carparkCode)
    && Gets(statement.row, "device_ip", deviceIp)
    && Gets(statement.row, "error_code", errorCode)
    && Gets(statement.row, "central_sent_dt", "")
  }

  predicate PlainLot(lot: ParkingLot) {
    forall i :: 0 <= i < 11 ==> Plain(TransFields(lot)[i])
  }

  lemma LotColumns(lot: ParkingLot, i: nat)
    requires i < 11
    ensures Gets(RowFor(LotTrans, TransFields(lot)), Columns(LotTrans)[i], TransFields(lot)[i])
  {
    NamedValue(LotTrans, TransFields(lot), i);
  }

  // A lot whose fields are plain is stored as it is, each field in its own column, the empty ones as NULL.
  lemma TransRecordIsStored(lot: ParkingLot)
    requires PlainLot(lot)
    ensures Understand(InsertText(LotTrans, TransFields(lot))) == Insert(LotTrans, RowFor(LotTrans, TransFields(lot)))
    ensures StoresLot(Understand(InsertText(LotTrans, TransFields(lot))), lot)
  {
    UnderstoodInsert(LotTrans, TransFields(lot));
    LotColumns(lot, 0);
    LotColumns(lot, 1);
    LotColumns(lot, 2);
    LotColumns(lot, 3);
    LotColumns(lot, 4);
    LotColumns(lot, 5);
    LotColumns(lot, 6);
    LotColumns(lot, 7);
    LotColumns(lot, 8);
    LotColumns(lot, 9);
    LotColumns(lot, 10);
  }

  lemma StatusRecordIsStored(carparkCode: string, deviceIp: string, errorCode: string)
    requires Plain(carparkCode) && Plain(deviceIp) && Plain(errorCode)
    ensures var fields := [carparkCode, deviceIp, errorCode];
            && Understand(InsertText(LotStatus, fields)) == Insert(LotStatus, RowFor(LotStatus, fields))
            && StoresStatus(Understand(InsertText(LotStatus, fields)), carparkCode, deviceIp, errorCode)
  {
    var fields := [carparkCode, deviceIp, errorCode];
    UnderstoodInsert(LotStatus, fields);
    NamedValue(LotStatus, fields, 0);
    NamedValue(LotStatus, fields, 1);
    NamedValue(LotStatus, fields, 2);
    SentIsOpen(fields);
  }

  lemma SentIsOpen(fields: seq<string>)
    requires |fields| == 3
    ensures Gets(RowFor(LotStatus, fields), "central_sent_dt", "")
  {
    assert Schema(LotStatus)[3] == "central_sent_dt";
    assert |"central_sent_dt"| == 15;
    ValueOfNone(Columns(LotStatus), StoredAll(fields), "central_sent_dt");
  }

  // Different lots give different statements, as long as their fields are plain.
  lemma TransInsertIsInjective(a: ParkingLot, b: ParkingLot)
    requires PlainLot(a) && PlainLot(b)
    requires InsertText(LotTrans, TransFields(a)) == InsertText(LotTrans, TransFields(b))
    ensures a == b
  {
    var head := InsertHead(LotTrans);
    assert InsertText(LotTrans, TransFields(a))[|head|..] == ValuesText(TransFields(a));
    assert InsertText(LotTrans, TransFields(b))[|head|..] == ValuesText(TransFields(b));
    PrintingIsInjective(TransFields(a), TransFields(b));
    SameFields(a, b);
  }

  lemma SameFields(a: ParkingLot, b: ParkingLot)
    requires TransFields(a) == TransFields(b)
    ensures a == b
  {
    var x, y := TransFields(a), TransFields(b);
    assert x[0] == y[0] && x[1] == y[1] && x[2] == y[2] && x[3] == y[3] && x[4] == y[4] && x[5] == y[5];
    assert x[6] == y[6] && x[7] == y[7] && x[8] == y[8] && x[9] == y[9] && x[10] == y[10];
  }

  // The lot's field for a column, by name.
  function FieldFor(lot: ParkingLot, column: string): string {
    if column == "location_code" then lot.locationCode
    else if column == "lot_no" then lot.lotNo
    else if column == "lpn" then lot.lpn
    else if column == "lot_in_image" then lot.lotInImagePath
    else if column == "lot_out_image" then lot.lotOutImagePath
    else if column == "lot_in_dt" then lot.lotInDt
    else if column == "lot_out_dt" then lot.lotOutDt
    else if column == "add_dt" then lot.addDt
    else if column == "update_dt" then lot.updateDt
    else if column == "lot_in_central_sent_dt" then lot.lotInCentralSentDt
    else lot.lotOutCentralSentDt
  }

  // Each value stands at the place of its own column.
  lemma ValuesMatchColumns(lot: ParkingLot, i: nat)
    requires i < 11
    ensures TransFields(lot)[i] == FieldFor(lot, Columns(LotTrans)[i])
  {
    var column := Columns(LotTrans)[i];
    assert "location_code"[2] == 'c' && "lot_out_image"[2] == 't';
    assert "lot_no"[0] == 'l' && "add_dt"[0] == 'a' && "lot_in_dt"[0] == 'l' && "update_dt"[0] == 'u';
  }
}
