/** The texts of the statements that the program sends, and that the database reads them as they are meant. */
module SqlStatements {
  import opened Structures
  import opened SqlText
  import opened SqlDatabase

  function Name(table: Table): string {
    match table
    case LotTrans => "tbl_ev_lot_trans"
    case LotStatus => "tbl_ev_lot_status"
  }

  // The columns an INSERT names, in the order in which it gives their values.
  function Columns(table: Table): (r: seq<string>)
    ensures |r| == if table == LotTrans then 11 else 3
  {
    match table
    case LotTrans =>
      ["location_code", "lot_no", "lpn", "lot_in_image", "lot_out_image", "lot_in_dt", "lot_out_dt", "add_dt",
       "update_dt", "lot_in_central_sent_dt", "lot_out_central_sent_dt"]
    case LotStatus => ["location_code", "device_ip", "error_code"]
  }

  function Listed(names: seq<string>): string {
    if names == [] then "" else if |names| == 1 then names[0] else names[0] + (", " + Listed(names[1..]))
  }

  function InsertHead(table: Table): string {
    "INSERT INTO " + (Name(table) + (" (" + Listed(Columns(table)) + ") VALUES ("))
  }

  function InsertText(table: Table, fields: seq<string>): string
    requires fields != []
  {
    InsertHead(table) + ValuesText(fields)
  }

  function DeleteText(table: Table): string {
    "DELETE FROM " + Name(table)
  }

  function CountText(table: Table): string {
    "SELECT COUNT(*) FROM " + Name(table)
  }

  function LastIdText(table: Table): string {
    "SELECT LAST_INSERT_ID() FROM " + Name(table)
  }

  // The row an insert is meant to store.
  function RowFor(table: Table, fields: seq<string>): Row
    requires |fields| == |Columns(table)|
  {
    RowOf(table, Columns(table), StoredAll(fields))
  }

  // The words

  lemma NameIsRead(table: Table)
    ensures TableNamed(Name(table)) == Some(table)
  {
    assert |"tbl_ev_lot_trans"| != |"tbl_ev_lot_status"|;
  }

  lemma NameIsWord(table: Table)
    ensures IsWord(Name(table))
  {
  }

  lemma ColumnIsWord(table: Table, i: nat)
    requires i < |Columns(table)|
    ensures IsWord(Columns(table)[i])
  {
    if table == LotStatus {
    } else if i < 5 {
      LotWords();
    } else {
      TimeWords();
    }
  }

  lemma LotWords()
    ensures forall i :: 0 <= i < 5 ==> IsWord(Columns(LotTrans)[i])
  {
    assert IsWord("location_code") && IsWord("lot_no") && IsWord("lpn");
    assert IsWord("lot_in_image") && IsWord("lot_out_image");
  }

  lemma TimeWords()
    ensures forall i :: 5 <= i < 11 ==> IsWord(Columns(LotTrans)[i])
  {
    assert IsWord("lot_in_dt") && IsWord("lot_out_dt") && IsWord("add_dt") && IsWord("update_dt");
    assert IsWord("lot_in_central_sent_dt") && IsWord("lot_out_central_sent_dt");
  }

  lemma ColumnIsKnown(table: Table, i: nat)
    requires i < |Columns(table)|
    ensures Columns(table)[i] in Schema(table)
  {
    assert Columns(table)[i] == Schema(table)[i];
  }

  // Length and third letter tell the columns of a table apart.
  function Print(name: string): (int, char)
    requires |name| > 2
  {
    (|name|, name[2])
  }

  lemma TransPrints()
    ensures var c := Columns(LotTrans);
            && (forall i :: 0 <= i < 11 ==> |c[i]| > 2)
            && Print(c[0]) == (13, 'c') && Print(c[1]) == (6, 't') && Print(c[2]) == (3, 'n')
            && Print(c[3]) == (12, 't') && Print(c[4]) == (13, 't') && Print(c[5]) == (9, 't')
            && Print(c[6]) == (10, 't') && Print(c[7]) == (6, 'd') && Print(c[8]) == (9, 'd')
            && Print(c[9]) == (22, 't') && Print(c[10]) == (23, 't')
  {
  }

  lemma ColumnsAreDistinct(table: Table)
    ensures Distinct(Columns(table))
  {
    if table == LotTrans {
      TransPrints();
    }
  }

  // The lists

  lemma {:induction false} NamesReadBack(names: seq<string>, rest: string)
    requires names != [] && forall i :: 0 <= i < |names| ==> IsWord(names[i])
    ensures ReadNames(Listed(names) + (")" + rest)) == Some((names, rest))
  {
    if |names| == 1 {
      WordReadsBack(names[0], ")" + rest);
      assert (")" + rest)[1..] == rest && [names[0]] == names;
    } else {
      var after := ", " + (Listed(names[1..]) + (")" + rest));
      NamesReadBack(names[1..], rest);
      WordReadsBack(names[0], after);
      assert after[2..] == Listed(names[1..]) + (")" + rest);
      Assoc(names[0], ", " + Listed(names[1..]), ")" + rest);
      Assoc(", ", Listed(names[1..]), ")" + rest);
      assert [names[0]] + names[1..] == names;
      assert Listed(names) + (")" + rest) == names[0] + after;
      assert after[0] == ',' && after[1] == ' ';
    }
  }

  // The parts of an insert as they follow each other.
  lemma InsertParts(name: string, list: string, values: string)
    ensures ("INSERT INTO " + (name + (" (" + list + ") VALUES ("))) + values
            == "INSERT INTO " + (name + (" (" + (list + (")" + (" VALUES (" + values)))))
  {
  }

  lemma InsertIsRead(table: Table, fields: seq<string>)
    requires |fields| == |Columns(table)| && forall i :: 0 <= i < |fields| ==> Plain(fields[i])
    ensures "INSERT INTO " <= InsertText(table, fields)
    ensures ReadInsert(InsertText(table, fields)[12..]) == Some((Name(table), Columns(table), StoredAll(fields)))
  {
    var name, list, values := Name(table), Listed(Columns(table)), ValuesText(fields);
    InsertParts(name, list, values);
    forall i | 0 <= i < |Columns(table)|
      ensures IsWord(Columns(table)[i])
    {
      ColumnIsWord(table, i);
    }
    NameIsWord(table);
    PartsAreRead(name, Columns(table), fields);
  }

  lemma PartsAreRead(name: string, names: seq<string>, fields: seq<string>)
    requires IsWord(name) && names != [] && forall i :: 0 <= i < |names| ==> IsWord(names[i])
    requires fields != [] && forall i :: 0 <= i < |fields| ==> Plain(fields[i])
    ensures var text := name + (" (" + (Listed(names) + (")" + (" VALUES (" + ValuesText(fields)))));
            ReadInsert(text) == Some((name, names, StoredAll(fields)))
  {
    var afterNames := " VALUES (" + ValuesText(fields);
    var inner := Listed(names) + (")" + afterNames);
    WordReadsBack(name, " (" + inner);
    NamesReadBack(names, afterNames);
    PlainRowReadsBack(fields);
    assert (" (" + inner)[2..] == inner && afterNames[9..] == ValuesText(fields);
  }

  // What the database understands

  lemma ColumnsFit(table: Table, values: seq<Option<string>>)
    requires |values| == |Columns(table)|
    ensures Fits(table, Columns(table), values)
  {
    ColumnsAreDistinct(table);
    forall i | 0 <= i < |Columns(table)|
      ensures Columns(table)[i] in Schema(table)
    {
      ColumnIsKnown(table, i);
    }
  }

  lemma InsertOfParts(word: string, table: Table, names: seq<string>, values: seq<Option<string>>)
    requires TableNamed(word) == Some(table) && Fits(table, names, values)
    ensures InsertOf(Some((word, names, values))) == Insert(table, RowOf(table, names, values))
  {
  }

  lemma InsertByParts(text: string, word: string, names: seq<string>, values: seq<Option<string>>)
    requires "INSERT INTO " <= text && ReadInsert(text[12..]) == Some((word, names, values))
    ensures Understand(text) == InsertOf(Some((word, names, values)))
  {
  }

  lemma UnderstoodInsert(table: Table, fields: seq<string>)
    requires |fields| == |Columns(table)| && forall i :: 0 <= i < |fields| ==> Plain(fields[i])
    ensures Understand(InsertText(table, fields)) == Insert(table, RowFor(table, fields))
  {
    InsertIsRead(table, fields);
    NameIsRead(table);
    ColumnsFit(table, StoredAll(fields));
    InsertByParts(InsertText(table, fields), Name(table), Columns(table), StoredAll(fields));
    InsertOfParts(Name(table), table, Columns(table), StoredAll(fields));
  }

  lemma AfterPrefix(prefix: string, name: string)
    ensures prefix <= prefix + name && (prefix + name)[|prefix|..] == name
  {
  }

  // Texts that differ in a letter within both prefixes.
  lemma OtherPrefix(prefix: string, other: string, name: string, k: nat)
    requires k < |prefix| && k < |other| && prefix[k] != other[k]
    ensures !(other <= prefix + name)
  {
    assert (prefix + name)[k] == prefix[k];
  }

  lemma UnderstoodDelete(table: Table)
    ensures Understand(DeleteText(table)) == DeleteAll(table)
  {
    var prefix := "DELETE FROM ";
    AfterPrefix(prefix, Name(table));
    OtherPrefix(prefix, "INSERT INTO ", Name(table), 0);
    NameIsRead(table);
  }

  lemma UnderstoodCount(table: Table)
    ensures Understand(CountText(table)) == CountAll(table)
  {
    var prefix := "SELECT COUNT(*) FROM ";
    AfterPrefix(prefix, Name(table));
    OtherPrefix(prefix, "INSERT INTO ", Name(table), 0);
    OtherPrefix(prefix, "DELETE FROM ", Name(table), 0);
    NameIsRead(table);
  }

  lemma UnderstoodLastId(table: Table)
    ensures Understand(LastIdText(table)) == LastInsertId(table)
  {
    var prefix := "SELECT LAST_INSERT_ID() FROM ";
    AfterPrefix(prefix, Name(table));
    OtherPrefix(prefix, "INSERT INTO ", Name(table), 0);
    OtherPrefix(prefix, "DELETE FROM ", Name(table), 0);
    OtherPrefix(prefix, "SELECT COUNT(*) FROM ", Name(table), 7);
    NameIsRead(table);
  }

  // The i-th column named gets the i-th value.
  lemma NamedValue(table: Table, fields: seq<string>, i: nat)
    requires |fields| == |Columns(table)| && i < |fields|
    ensures Columns(table)[i] in RowFor(table, fields)
    ensures RowFor(table, fields)[Columns(table)[i]] == Stored(fields[i])
  {
    ColumnIsKnown(table, i);
    ColumnsAreDistinct(table);
    ValueOfName(Columns(table), StoredAll(fields), i);
  }
}
