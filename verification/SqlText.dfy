/** Rows of values as the program prints them, and how the database reads them back. */
module SqlText {
  import opened Structures

  // Printing

  // An empty field becomes NULL; any other is put between quotes as it stands.
  function Literal(field: string): string {
    if field == "" then "NULL" else "'" + field + "'"
  }

  // What a field is to be stored as.
  function Stored(field: string): Option<string> {
    if field == "" then None else Some(field)
  }

  function StoredAll(fields: seq<string>): (r: seq<Option<string>>)
    ensures |r| == |fields|
    ensures forall i :: 0 <= i < |fields| ==> r[i] == Stored(fields[i])
  {
    seq(|fields|, i requires 0 <= i < |fields| => Stored(fields[i]))
  }

  // The rest of an INSERT after the opening parenthesis of its value list.
  function ValuesText(fields: seq<string>): string
    requires fields != []
  {
    if |fields| == 1 then Literal(fields[0]) + ")" else Literal(fields[0]) + (", " + ValuesText(fields[1..]))
  }

  // Reading, by the rules of MariaDB string literals: two quotes stand for one, a backslash escapes the
  // next character and disappears, except before % and _ where it stays.

  function Escaped(c: char): (r: string)
    ensures 1 <= |r| <= 2 && (|r| == 2 <==> c == '%' || c == '_')
  {
    if c == '%' || c == '_' then ['\\', c]
    else if c == '0' then [0 as char]
    else if c == 'b' then [8 as char]
    else if c == 't' then ['\t']
    else if c == 'n' then ['\n']
    else if c == 'r' then ['\r']
    else if c == 'Z' then [26 as char]
    else [c]
  }

  // After an opening quote: the text up to the closing quote, and what follows it.
  function ReadString(t: string): (r: Option<(string, string)>)
    ensures r.Some? ==> |r.value.0| + |r.value.1| < |t|
  {
    if t == "" then None
    else if t[0] == '\'' then
      if |t| > 1 && t[1] == '\'' then
        match ReadString(t[2..])
        case Some((text, rest)) => Some(("'" + text, rest))
        case None => None
      else Some(("", t[1..]))
    else if t[0] == '\\' then
      if |t| == 1 then None
      else
        match ReadString(t[2..])
        case Some((text, rest)) => Some((Escaped(t[1]) + text, rest))
        case None => None
    else
      match ReadString(t[1..])
      case Some((text, rest)) => Some(([t[0]] + text, rest))
      case None => None
  }

  function ReadValue(t: string): (r: Option<(Option<string>, string)>)
    ensures r.Some? ==> |r.value.1| < |t|
  {
    if "NULL" <= t then Some((None, t[4..]))
    else if t != "" && t[0] == '\'' then
      match ReadString(t[1..])
      case Some((text, rest)) => Some((Some(text), rest))
      case None => None
    else None
  }

  // Values separated by a comma and a blank, up to a closing parenthesis that ends the statement.
  function ReadValues(t: string): Option<seq<Option<string>>>
    decreases |t|
  {
    match ReadValue(t)
    case None => None
    case Some((v, rest)) =>
      if rest == ")" then Some([v])
      else if ", " <= rest then
        match ReadValues(rest[2..])
        case Some(vs) => Some([v] + vs)
        case None => None
      else None
  }

  // Which fields survive

  // No quote, and every backslash stands before a % or a _.
  predicate Plain(field: string) {
    field == "" ||
    if field[0] == '\'' then false
    else if field[0] == '\\' then |field| > 1 && (field[1] == '%' || field[1] == '_') && Plain(field[2..])
    else Plain(field[1..])
  }

  lemma {:induction false} CleanIsPlain(field: string)
    requires '\'' !in field && '\\' !in field
    ensures Plain(field)
  {
    if field == "" {
    } else {
      CleanIsPlain(field[1..]);
    }
  }

  lemma {:induction false} PlainReadsBack(field: string, rest: string)
    requires Plain(field) && (rest == "" || rest[0] != '\'')
    ensures ReadString(field + ("'" + rest)) == Some((field, rest))
  {
    var t := field + ("'" + rest);
    if field == "" {
      assert t == "'" + rest && t[1..] == rest;
    } else if field[0] == '\\' {
      PlainReadsBack(field[2..], rest);
      assert t[2..] == field[2..] + ("'" + rest);
      assert Escaped(t[1]) + field[2..] == field;
    } else {
      PlainReadsBack(field[1..], rest);
      assert t[1..] == field[1..] + ("'" + rest);
      assert [t[0]] + field[1..] == field;
    }
  }

  lemma EscapeKept(t: string, inner: string, rest: string)
    requires |t| >= 2 && t[0] == '\\' && (t[1] == '%' || t[1] == '_')
    requires Plain(inner) && t[2..] == inner + ("'" + rest)
    ensures Plain(Escaped(t[1]) + inner) && t == Escaped(t[1]) + inner + ("'" + rest)
  {
    assert Escaped(t[1]) == t[..2];
    assert (t[..2] + inner)[2..] == inner;
  }

  lemma LetterKept(t: string, inner: string, rest: string)
    requires t != "" && t[0] != '\'' && t[0] != '\\'
    requires Plain(inner) && t[1..] == inner + ("'" + rest)
    ensures Plain([t[0]] + inner) && t == [t[0]] + inner + ("'" + rest)
  {
    assert ([t[0]] + inner)[1..] == inner;
    assert t == [t[0]] + t[1..];
  }

  // Reading never yields more text than it consumes, and as much only when nothing was escaped.
  lemma {:induction false} ReadStringShrinks(t: string)
    requires ReadString(t).Some?
    ensures var (text, rest) := ReadString(t).value;
            |text| + 1 + |rest| == |t| ==> Plain(text) && t == text + ("'" + rest)
  {
    var (text, rest) := ReadString(t).value;
    if t[0] == '\'' {
      if |t| > 1 && t[1] == '\'' {
        assert |text| + 1 + |rest| < |t|;
      } else {
        assert t == "'" + rest;
      }
    } else if t[0] == '\\' {
      ReadStringShrinks(t[2..]);
      var inner := ReadString(t[2..]).value.0;
      assert text == Escaped(t[1]) + inner;
      if |text| + 1 + |rest| == |t| {
        EscapeKept(t, inner, rest);
      }
    } else {
      ReadStringShrinks(t[1..]);
      if |text| + 1 + |rest| == |t| {
        LetterKept(t, ReadString(t[1..]).value.0, rest);
      }
    }
  }

  // Lengths

  function Width(v: Option<string>): nat {
    match v
    case None => 4
    case Some(text) => |text| + 2
  }

  function TotalWidth(vs: seq<Option<string>>): nat
    requires vs != []
  {
    if |vs| == 1 then Width(vs[0]) + 1 else Width(vs[0]) + 2 + TotalWidth(vs[1..])
  }

  predicate PlainValue(v: Option<string>) {
    v.Some? ==> Plain(v.value)
  }

  lemma ReadValueShrinks(t: string)
    requires ReadValue(t).Some?
    ensures var (v, rest) := ReadValue(t).value;
            Width(v) + |rest| <= |t| && (Width(v) + |rest| == |t| ==> PlainValue(v))
  {
    if !("NULL" <= t) {
      ReadStringShrinks(t[1..]);
    }
  }

  lemma {:induction false} ReadValuesShrinks(t: string)
    requires ReadValues(t).Some?
    ensures var vs := ReadValues(t).value;
            && vs != []
            && TotalWidth(vs) <= |t|
            && (TotalWidth(vs) == |t| ==> forall i :: 0 <= i < |vs| ==> PlainValue(vs[i]))
    decreases |t|
  {
    ReadValueShrinks(t);
    var (v, rest) := ReadValue(t).value;
    if rest == ")" {
    } else {
      ReadValuesShrinks(rest[2..]);
      var tail := ReadValues(rest[2..]).value;
      assert ([v] + tail)[1..] == tail;
    }
  }

  lemma {:induction false} PrintedWidth(fields: seq<string>)
    requires fields != []
    ensures |ValuesText(fields)| == TotalWidth(StoredAll(fields))
  {
    if |fields| <= 1 {
    } else {
      PrintedWidth(fields[1..]);
      assert StoredAll(fields)[1..] == StoredAll(fields[1..]);
    }
  }

  lemma NullReadsBack(rest: string)
    ensures ReadValue("NULL" + rest) == Some((None, rest))
  {
    var t := "NULL" + rest;
    assert t[..4] == "NULL" && t[4..] == rest;
  }

  lemma QuotedReadsBack(field: string, rest: string)
    requires Plain(field) && (rest == "" || rest[0] != '\'')
    ensures ReadValue("'" + (field + ("'" + rest))) == Some((Some(field), rest))
  {
    var t := "'" + (field + ("'" + rest));
    assert t[0] == '\'' && t[0] != "NULL"[0];
    assert t[1..] == field + ("'" + rest);
    PlainReadsBack(field, rest);
  }

  lemma LiteralReadsBack(field: string, rest: string)
    requires Plain(field) && rest != "" && rest[0] != '\''
    ensures ReadValue(Literal(field) + rest) == Some((Stored(field), rest))
  {
    if field == "" {
      NullReadsBack(rest);
    } else {
      QuotedReadsBack(field, rest);
      Assoc("'" + field, "'", rest);
      Assoc("'", field, "'" + rest);
    }
  }

  lemma {:induction false} PlainRowReadsBack(fields: seq<string>)
    requires fields != [] && forall i :: 0 <= i < |fields| ==> Plain(fields[i])
    ensures ReadValues(ValuesText(fields)) == Some(StoredAll(fields))
  {
    if |fields| == 1 {
      LiteralReadsBack(fields[0], ")");
      assert StoredAll(fields) == [Stored(fields[0])];
    } else {
      PlainRowReadsBack(fields[1..]);
      ItemReadsBack(fields[0], ValuesText(fields[1..]), StoredAll(fields[1..]));
      StoredFirst(fields);
    }
  }

  lemma StoredFirst(fields: seq<string>)
    requires fields != []
    ensures StoredAll(fields) == [Stored(fields[0])] + StoredAll(fields[1..])
  {
  }

  // A value, a comma and a blank, and then the rest of the row.
  lemma ItemReadsBack(field: string, rest: string, values: seq<Option<string>>)
    requires Plain(field) && ReadValues(rest) == Some(values)
    ensures ReadValues(Literal(field) + (", " + rest)) == Some([Stored(field)] + values)
  {
    LiteralReadsBack(field, ", " + rest);
    assert (", " + rest)[2..] == rest && (", " + rest)[0] == ',';
  }

  // A printed row reads back as it was meant if and only if every field is plain.
  lemma RowReadsBackExactly(fields: seq<string>)
    requires fields != []
    ensures ReadValues(ValuesText(fields)) == Some(StoredAll(fields))
            <==> forall i :: 0 <= i < |fields| ==> Plain(fields[i])
  {
    if forall i :: 0 <= i < |fields| ==> Plain(fields[i]) {
      PlainRowReadsBack(fields);
    }
    if ReadValues(ValuesText(fields)) == Some(StoredAll(fields)) {
      PrintedWidth(fields);
      ReadValuesShrinks(ValuesText(fields));
      forall i | 0 <= i < |fields|
        ensures Plain(fields[i])
      {
        assert PlainValue(StoredAll(fields)[i]);
      }
    }
  }

  // A name with an apostrophe does not come back.
  lemma ApostropheIsLost()
    ensures ReadValues(ValuesText(["O'Hara"])) != Some(StoredAll(["O'Hara"]))
  {
    assert !Plain("O'Hara") by {
      assert "O'Hara"[1..][0] == '\'';
    }
    RowReadsBackExactly(["O'Hara"]);
    assert ["O'Hara"][0] == "O'Hara";
  }

  // Two rows of plain fields that print alike are alike.
  lemma PrintingIsInjective(xs: seq<string>, ys: seq<string>)
    requires xs != [] && forall i :: 0 <= i < |xs| ==> Plain(xs[i])
    requires ys != [] && forall i :: 0 <= i < |ys| ==> Plain(ys[i])
    requires ValuesText(xs) == ValuesText(ys)
    ensures xs == ys
  {
    PlainRowReadsBack(xs);
    PlainRowReadsBack(ys);
    forall i | 0 <= i < |xs|
      ensures xs[i] == ys[i]
    {
      assert StoredAll(xs)[i] == StoredAll(ys)[i];
    }
  }
}
