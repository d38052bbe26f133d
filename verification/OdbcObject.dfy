/** OdbcDatabase with its fields and early exits, each method proved to be one step of the protocol. */
module OdbcObject {
  import opened Structures
  import opened SqlDatabase
  import opened SqlStatements
  import opened OdbcProtocol

  /** The driver manager: the one place all connection objects call. */
  class DriverManager {
    // How the database at the other end reads a statement's text.
    const understand: string -> Statement
    var d: Driver

    constructor (understand: string -> Statement, d: Driver)
      ensures this.understand == understand && this.d == d
    {
      this.understand := understand;
      this.d := d;
    }

    method AllocHandle(kind: Kind, parent: nat) returns (ret: Ret, h: nat)
      modifies this
      ensures (d, ret, h) == Alloc(old(d), kind, parent)
    {
      var r := Alloc(d, kind, parent);
      d, ret, h := r.0, r.1, r.2;
    }

    method FreeHandle(h: nat)
      modifies this
      ensures d == Free(old(d), h)
    {
      d := Free(d, h);
    }

    // SQLSetEnvAttr for the version, SQLSetConnectAttr for the timeout.
    method Prepare(h: nat, kind: Kind) returns (ret: Ret)
      modifies this
      ensures (d, ret) == OdbcProtocol.Prepare(old(d), h, kind)
    {
      var r := OdbcProtocol.Prepare(d, h, kind);
      d, ret := r.0, r.1;
    }

    // SQLGetConnectAttr for SQL_ATTR_CONNECTION_DEAD.
    method AskDead(h: nat) returns (ret: Ret, dead: bool)
      modifies this
      ensures (d, ret, dead) == OdbcProtocol.AskDead(old(d), h)
    {
      var r := OdbcProtocol.AskDead(d, h);
      d, ret, dead := r.0, r.1, r.2;
    }

    // SQLNumResultCols.
    method CountColumns(h: nat) returns (ret: Ret, columns: nat)
      modifies this
      ensures (d, ret, columns) == OdbcProtocol.CountColumns(old(d), h)
    {
      var r := OdbcProtocol.CountColumns(d, h);
      d, ret, columns := r.0, r.1, r.2;
    }

    // SQLGetDiagRec.
    method GetDiagRec(h: nat, kind: Kind)
      modifies this
      ensures d == Use(old(d), h, kind)
    {
      d := Use(d, h, kind);
    }

    method DriverConnect(h: nat) returns (ret: Ret)
      modifies this
      ensures (d, ret) == Link(old(d), h)
    {
      var r := Link(d, h);
      d, ret := r.0, r.1;
    }

    method Disconnect(h: nat)
      modifies this
      ensures d == Unlink(old(d), h)
    {
      d := Unlink(d, h);
    }

    method ExecDirect(h: nat, text: string) returns (ret: Ret)
      modifies this
      ensures (d, ret) == Exec(old(d), h, understand(text))
    {
      var r := Exec(d, h, understand(text));
      d, ret := r.0, r.1;
    }

    method Fetch(h: nat) returns (ret: Ret)
      modifies this
      ensures (d, ret) == OdbcProtocol.Fetch(old(d), h)
    {
      var r := OdbcProtocol.Fetch(d, h);
      d, ret := r.0, r.1;
    }

    method GetNumber(h: nat) returns (ret: Ret, number: int)
      modifies this
      ensures (d, ret, number) == OdbcProtocol.GetNumber(old(d), h)
    {
      var r := OdbcProtocol.GetNumber(d, h);
      d, ret, number := r.0, r.1, r.2;
    }

    method GetText(h: nat) returns (ret: Ret, text: string)
      modifies this
      ensures (d, ret, text) == OdbcProtocol.GetText(old(d), h)
    {
      var r := OdbcProtocol.GetText(d, h);
      d, ret, text := r.0, r.1, r.2;
    }
  }

  class OdbcDatabase {
    const odbc: DriverManager
    var hEnv: nat
    var hDbc: nat
    var hStmt: nat
    var connected: bool

    constructor (odbc: DriverManager)
      ensures this.odbc == odbc && Value() == Fresh(odbc.d)
    {
      this.odbc := odbc;
      hEnv, hDbc, hStmt, connected := 0, 0, 0, false;
    }

    ghost function Value(): Conn
      reads this, odbc
    {
      Conn(hEnv, hDbc, hStmt, connected, odbc.d)
    }

    // A call that failed has the driver asked about the handle.
    method CheckError(ret: Ret, kind: Kind, h: nat) returns (ok: bool)
      modifies odbc
      ensures ok == Good(ret) && odbc.d == Diagnose(old(odbc.d), ret, h, kind)
    {
      if !Good(ret) {
        odbc.GetDiagRec(h, kind);
        return false;
      }
      return true;
    }

    method Connect() returns (ok: bool)
      modifies this, odbc
      ensures (Value(), ok) == ConnectStep(old(Value()))
      ensures hStmt == 0
    {
      Disconnect();
      ghost var c0 := Value();
      var ret;
      ret, hEnv := odbc.AllocHandle(Env, 0);
      ok := CheckError(ret, Env, hEnv);
      assert (Value(), ok) == Checked(c0, AllocEnv);
      if ok {
        ok := SetUp();
      }
    }

    // The calls that follow the allocation of the environment.
    method SetUp() returns (ok: bool)
      requires !connected
      modifies this, odbc
      ensures var (next, done) := PerformFrom(Checked, old(Value()), CONNECT_OPS, 1);
              ok == done && Value() == next.(connected := ok)
      ensures hStmt == old(hStmt)
    {
      ghost var c1 := Value();
      var ret := odbc.Prepare(hEnv, Env);
      ok := CheckError(ret, Env, hEnv);
      ghost var c2 := Value();
      assert (c2, ok) == Checked(c1, SetVersion);
      if !ok {
        return;
      }
      ret, hDbc := odbc.AllocHandle(Dbc, hEnv);
      ok := CheckError(ret, Env, hEnv);
      assert (Value(), ok) == Checked(c2, AllocDbc);
      if ok {
        ok := LinkUp();
      }
    }

    // The timeout and the connection itself.
    method LinkUp() returns (ok: bool)
      requires !connected
      modifies this, odbc
      ensures var (next, done) := PerformFrom(Checked, old(Value()), CONNECT_OPS, 3);
              ok == done && Value() == next.(connected := ok)
      ensures hStmt == old(hStmt)
    {
      ghost var c3 := Value();
      var ret := odbc.Prepare(hDbc, Dbc);
      ok := CheckError(ret, Dbc, hDbc);
      ghost var c4 := Value();
      assert (c4, ok) == Checked(c3, SetTimeout);
      if !ok {
        return;
      }
      ret := odbc.DriverConnect(hDbc);
      ok := CheckError(ret, Dbc, hDbc);
      assert (Value(), ok) == Checked(c4, DriverConnect);
      connected := ok;
    }

    // Also what the destructor does.
    method Disconnect()
      modifies this, odbc
      ensures Value() == DisconnectStep(old(Value()))
    {
      if hStmt != 0 {
        odbc.FreeHandle(hStmt);
        hStmt := 0;
      }
      if hDbc != 0 {
        odbc.Disconnect(hDbc);
        odbc.FreeHandle(hDbc);
        hDbc := 0;
      }
      if hEnv != 0 {
        odbc.FreeHandle(hEnv);
        hEnv := 0;
      }
      connected := false;
    }

    method IsConnected() returns (r: bool)
      modifies odbc
      ensures (Value(), r) == IsConnectedStep(old(Value()))
    {
      if !connected {
        return false;
      }
      var ret, dead := odbc.AskDead(hDbc);
      var ok := CheckError(ret, Dbc, hDbc);
      return ok && !dead;
    }

    // Allocating a statement and executing a text, with the releases on failure; shared by the queries.
    method BeginStatement(text: string) returns (ok: bool)
      modifies this, odbc
      ensures var (begun, done) := Begin(old(Value()), odbc.understand(text));
              ok == done && Value() == if ok then begun else Release(begun)
    {
      ghost var c0 := Value();
      ghost var exec := ExecDirect(odbc.understand(text));
      TwoCalls(Checked, c0, AllocStmt, exec);
      var ret;
      ret, hStmt := odbc.AllocHandle(Stmt, hDbc);
      ok := CheckError(ret, Stmt, hStmt);
      assert (Value(), ok) == Checked(c0, AllocStmt);
      if !ok {
        hStmt := 0;
        return;
      }
      ok := RunStatement(text);
    }

    method RunStatement(text: string) returns (ok: bool)
      modifies this, odbc
      ensures var (next, went) := Checked(old(Value()), ExecDirect(odbc.understand(text)));
              ok == went && Value() == if ok then next else Release(next)
    {
      var ret := odbc.ExecDirect(hStmt, text);
      ok := CheckError(ret, Stmt, hStmt);
      if !ok {
        FreeStatement();
      }
    }

    method FreeStatement()
      modifies this`hStmt, odbc
      ensures Value() == Release(old(Value()))
    {
      if hStmt != 0 {
        odbc.FreeHandle(hStmt);
        hStmt := 0;
      }
    }

    method ExecuteNonQuery(query: string) returns (ok: bool)
      modifies this, odbc
      ensures (Value(), ok) == ExecuteStep(old(Value()), odbc.understand(query))
    {
      if !connected {
        return false;
      }
      ok := BeginStatement(query);
      FreeStatement();
    }

    method GetLastInsertedId(table: Table) returns (id: int)
      modifies this, odbc
      ensures (Value(), id) == LastIdStep(old(Value()), odbc.understand(LastIdText(table)))
    {
      if !connected {
        return -1;
      }
      var ok := BeginStatement(LastIdText(table));
      if !ok {
        return -1;
      }
      id := 0;
      var ret := odbc.Fetch(hStmt);
      if Good(ret) {
        ret, id := odbc.GetNumber(hStmt);
        ok := CheckError(ret, Stmt, hStmt);
        if !ok {
          FreeStatement();
          return -1;
        }
      }
      FreeStatement();
    }

    method SelectCount(query: string) returns (count: int)
      modifies this, odbc
      ensures (Value(), count) == CountStep(old(Value()), odbc.understand(query))
    {
      count := -1;
      if !connected {
        return;
      }
      var ok := BeginStatement(query);
      if !ok {
        return;
      }
      var ret := odbc.Fetch(hStmt);
      if ret == SqlSuccess {
        var number;
        ret, number := odbc.GetNumber(hStmt);
        if Good(ret) {
          count := number;
        }
      }
      FreeStatement();
    }

    method Select(query: string) returns (results: seq<seq<string>>)
      modifies this, odbc
      ensures (Value(), results) == SelectStep(old(Value()), odbc.understand(query))
    {
      results := [];
      if !connected {
        return;
      }
      var ok := BeginStatement(query);
      if !ok {
        return;
      }
      var ret, columns := odbc.CountColumns(hStmt);
      ok := CheckError(ret, Stmt, hStmt);
      if !ok {
        FreeStatement();
        return;
      }
      results := FetchAll(columns);
      FreeStatement();
    }

    // The loop over the rows.
    method FetchAll(columns: nat) returns (results: seq<seq<string>>)
      modifies odbc
      ensures (odbc.d, results) == ReadRows(old(odbc.d), hStmt, columns)
    {
      results := [];
      ghost var all := ReadRows(odbc.d, hStmt, columns);
      ghost var before := odbc.d;
      var ret := odbc.Fetch(hStmt);
      while ret == SqlSuccess
        invariant (odbc.d, ret) == OdbcProtocol.Fetch(before, hStmt)
        invariant all.0 == ReadRows(before, hStmt, columns).0
        invariant all.1 == results + ReadRows(before, hStmt, columns).1
        decreases before.rowsLeft
      {
        ghost var rest := ReadRows(ReadRow(odbc.d, hStmt, columns).0, hStmt, columns).1;
        var row := FetchRow(columns);
        Assoc(results, [row], rest);
        results := results + [row];
        before := odbc.d;
        ret := odbc.Fetch(hStmt);
      }
      assert results + [] == results;
    }

    // The loop over the columns of one row.
    method FetchRow(columns: nat) returns (row: seq<string>)
      modifies odbc
      ensures (odbc.d, row) == ReadRow(old(odbc.d), hStmt, columns)
    {
      row := [];
      for i := 0 to columns
        invariant (odbc.d, row) == ReadRow(old(odbc.d), hStmt, i)
      {
        var ret, text := odbc.GetText(hStmt);
        if Good(ret) {
          row := row + [text];
        } else {
          row := row + [""];
        }
      }
    }
  }
}
