/**
 The database at the other end: its two tables, and how it reads the text of a statement, all from the text
 alone. Of SQL it has the four forms of statement that are sent to it.
 */
module SqlDatabase {
  import opened Structures
  import opened SqlText

  datatype Table = LotTrans | LotStatus

  // The columns of a table, but for the key that the database gives.
  function Schema(table: Table): seq<string> {
    match table
    case LotTrans =>
      ["location_code", "lot_no", "lpn", "lot_in_image", "lot_out_image", "lot_in_dt", "lot_out_dt", "add_dt",
       "update_dt", "lot_in_central_sent_dt", "lot_out_central_sent_dt"]
    case LotStatus => ["location_code", "device_ip", "error_code", "central_sent_dt"]
  }

  function TableNamed(word: string): Option<Table> {
    if word == "tbl_ev_lot_trans" then Some(LotTrans)
    else if word == "tbl_ev_lot_status" then Some(LotStatus)
    else None
  }

  // A row holds a value, or NULL, for each column by name.
  type Row = map<string, Option<string>>

  datatype Statement =
    | Insert(table: Table, row: Row)
    | DeleteAll(table: Table)
    | CountAll(table: Table)
    | LastInsertId(table: Table)
    | Other

  // Reading names

  predicate IsLetter(c: char) {
    'a' <= c <= 'z' || c == '_'
  }

  predicate IsWord(word: string) {
    word != "" && forall i :: 0 <= i < |word| ==> IsLetter(word[i])
  }

  // The letters at the front of a text, and what follows them.
  function ReadWord(t: string): (r: (string, string))
    ensures |r.0| + |r.1| == |t|
  {
    if t != "" && IsLetter(t[0]) then
      var (word, rest) := ReadWord(t[1..]);
      ([t[0]] + word, rest)
    else
      ("", t)
  }

  // Names separated by a comma and a blank, up to a closing parenthesis, and what follows it.
  function ReadNames(t: string): Option<(seq<string>, string)>
    decreases |t|
  {
    var (word, rest) := ReadWord(t);
    if word == "" then None
    else if ")" <= rest then Some(([word], rest[1..]))
    else if ", " <= rest then
      match ReadNames(rest[2..])
      case Some((names, after)) => Some(([word] + names, after))
      case None => None
    else None
  }

  // Reading statements

  // After INSERT INTO: the table, the columns named and the values given.
  function ReadInsert(t: string): Option<(string, seq<string>, seq<Option<string>>)> {
    var (table, afterTable) := ReadWord(t);
    if !(" (" <= afterTable) then None
    else
      match ReadNames(afterTable[2..])
      case None => None
      case Some((names, afterNames)) =>
        if !(" VALUES (" <= afterNames) then None
        else
          match ReadValues(afterNames[9..])
          case None => None
          case Some(values) => Some((table, names, values))
  }

  // The value given to a column by its name; a column that is not named becomes NULL.
  function ValueFor(names: seq<string>, values: seq<Option<string>>, column: string): Option<string>
    requires |names| == |values|
  {
    if names == [] then None
    else if names[0] == column then values[0]
    else ValueFor(names[1..], values[1..], column)
  }

  function RowOf(table: Table, names: seq<string>, values: seq<Option<string>>): Row
    requires |names| == |values|
  {
    map column | column in Schema(table) :: ValueFor(names, values, column)
  }

  predicate Distinct(names: seq<string>) {
    forall i, j :: 0 <= i < j < |names| ==> names[i] != names[j]
  }

  // An insert names columns of its table, none twice, and gives one value for each.
  predicate Fits(table: Table, names: seq<string>, values: seq<Option<string>>) {
    |names| == |values| && Distinct(names) && forall i :: 0 <= i < |names| ==> names[i] in Schema(table)
  }

  function InsertOf(read: Option<(string, seq<string>, seq<Option<string>>)>): Statement {
    match read
    case None => Other
    case Some((word, names, values)) =>
      match TableNamed(word)
      case None => Other
      case Some(table) => if Fits(table, names, values) then Insert(table, RowOf(table, names, values)) else Other
  }

  function Understand(text: string): Statement {
    if "INSERT INTO " <= text then InsertOf(ReadInsert(text[12..]))
    else if "DELETE FROM " <= text then
      match TableNamed(text[12..])
      case Some(table) => DeleteAll(table)
      case None => Other
    else if "SELECT COUNT(*) FROM " <= text then
      match TableNamed(text[21..])
      case Some(table) => CountAll(table)
      case None => Other
    else if "SELECT LAST_INSERT_ID() FROM " <= text then
      match TableNamed(text[29..])
      case Some(table) => LastInsertId(table)
      case None => Other
    else Other
  }

  // Reading back

  lemma {:induction false} WordReadsBack(word: string, rest: string)
    requires forall i :: 0 <= i < |word| ==> IsLetter(word[i])
    requires rest == "" || !IsLetter(rest[0])
    ensures ReadWord(word + rest) == (word, rest)
  {
    if word == "" {
      assert word + rest == rest;
    } else {
      WordReadsBack(word[1..], rest);
      assert (word + rest)[1..] == word[1..] + rest;
      assert [word[0]] + word[1..] == word;
    }
  }

  lemma {:induction false} ValueOfName(names: seq<string>, values: seq<Option<string>>, i: nat)
    requires |names| == |values| && i < |names| && Distinct(names)
    ensures ValueFor(names, values, names[i]) == values[i]
  {
    if i == 0 {
    } else {
      assert names[0] != names[i];
      ValueOfName(names[1..], values[1..], i - 1);
    }
  }

  lemma {:induction false} ValueOfNone(names: seq<string>, values: seq<Option<string>>, column: string)
    requires |names| == |values| && column !in names
    ensures ValueFor(names, values, column) == None
  {
    if names == [] {
    } else {
      ValueOfNone(names[1..], values[1..], column);
    }
  }
}
