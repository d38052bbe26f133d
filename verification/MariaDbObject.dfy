/** MariaDB with its three fields; each method is one action of the protocol. */
module MariaDbObject {
  import opened Structures
  import opened SqlDatabase
  import opened SqlStatements
  import opened SqlText
  import opened SqlBuilder
  import opened OdbcProtocol
  import opened OdbcObject
  import opened MariaDbProtocol

  class MariaDB {
    const odbc: DriverManager
    var mariaDatabase: OdbcDatabase?
    var databaseStatus: bool
    var databaseRecoveryFlag: bool
    ghost var log: seq<Event>

    constructor (odbc: DriverManager)
      ensures this.odbc == odbc && Valid() && Value() == Initial(odbc.d)
    {
      this.odbc := odbc;
      mariaDatabase, databaseStatus, databaseRecoveryFlag, log := null, false, false, [];
    }

    // The held object, if any, calls the same driver manager.
    ghost predicate Valid()
      reads this, mariaDatabase
    {
      mariaDatabase != null ==> mariaDatabase.odbc == odbc
    }

    ghost function Value(): Manager
      requires Valid()
      reads this, mariaDatabase, odbc
    {
      Manager(mariaDatabase != null, if mariaDatabase != null then mariaDatabase.Value() else Fresh(odbc.d),
              databaseStatus, databaseRecoveryFlag, log)
    }

    method FnConnectMariaLocalDatabase()
      requires Valid()
      modifies this, mariaDatabase, odbc
      ensures Valid() && Value() == ConnectStepM(old(Value()))
      ensures mariaDatabase == old(mariaDatabase) || fresh(mariaDatabase)
    {
      if mariaDatabase == null {
        mariaDatabase := new OdbcDatabase(odbc);
      }
      var ok := mariaDatabase.Connect();
      FnSetDatabaseStatus(ok);
    }

    method FnIsConnected() returns (ret: bool)
      requires Valid()
      modifies mariaDatabase, odbc
      ensures Valid() && (Value(), ret) == MariaDbProtocol.IsConnected(old(Value()))
      ensures ManagerInv(old(Value())) ==> (ret <==> IsUp(old(Value())))
    {
      ghost var m := Value();
      if ManagerInv(m) {
        IsConnectedKeeps(m);
      }
      ret := false;
      if mariaDatabase != null {
        ret := mariaDatabase.IsConnected();
      }
    }

    method FnSetDatabaseStatus(status: bool)
      modifies this`databaseStatus
      ensures databaseStatus == status
    {
      databaseStatus := status;
    }

    method FnSetDatabaseRecoveryFlag(flag: bool)
      modifies this`databaseRecoveryFlag
      ensures databaseRecoveryFlag == flag
    {
      databaseRecoveryFlag := flag;
    }

    method FnReconnectMariaLocalDatabase() returns (ok: bool)
      requires Valid()
      modifies this, mariaDatabase, odbc
      ensures Valid() && (Value(), ok) == ReconnectStep(old(Value()))
      ensures mariaDatabase == old(mariaDatabase) || fresh(mariaDatabase)
    {
      var up := FnIsConnected();
      if up {
        return true;
      }
      if mariaDatabase != null {
        mariaDatabase.Disconnect();
      }
      mariaDatabase := null;
      mariaDatabase := new OdbcDatabase(odbc);
      ok := mariaDatabase.Connect();
      log := log + [Attempted(ok)];
      FnSetDatabaseStatus(ok);
      FnSetDatabaseRecoveryFlag(!ok);
    }

    method FnInsertEvLotStatusRecord(carparkCode: string, deviceIp: string, errorCode: string) returns (ret: bool)
      requires Valid()
      modifies this, mariaDatabase, odbc
      ensures Valid() && mariaDatabase == old(mariaDatabase)
      ensures (Value(), ret) == InsertStep(old(Value()), odbc.understand, LotStatus, [carparkCode, deviceIp, errorCode])
    {
      var up := FnIsConnected();
      if !up {
        FnSetDatabaseStatus(false);
        return false;
      }
      var query := BuildStatusInsert(carparkCode, deviceIp, errorCode);
      ret := RunInsert(query, LotStatus, [carparkCode, deviceIp, errorCode]);
    }

    method FnInsertEvLotTransRecord(lot: ParkingLot) returns (ret: bool)
      requires Valid()
      modifies this, mariaDatabase, odbc
      ensures Valid() && mariaDatabase == old(mariaDatabase)
      ensures (Value(), ret) == InsertStep(old(Value()), odbc.understand, LotTrans, TransFields(lot))
    {
      var up := FnIsConnected();
      if !up {
        FnSetDatabaseStatus(false);
        return false;
      }
      var query := BuildTransInsert(lot);
      ret := RunInsert(query, LotTrans, TransFields(lot));
    }

    // Executing a finished insert on the held object.
    method RunInsert(query: string, ghost table: Table, ghost fields: seq<string>) returns (ret: bool)
      requires Valid() && mariaDatabase != null
      modifies this`log, mariaDatabase, odbc
      ensures Valid()
      ensures var m := old(Value());
              var (conn, ok) := ExecuteStep(m.conn, odbc.understand(query));
              ret == ok && Value() == m.(conn := conn, log := if ok then m.log + [Inserted(table, fields)] else m.log)
    {
      ret := mariaDatabase.ExecuteNonQuery(query);
      if ret {
        log := log + [Inserted(table, fields)];
      }
    }

    method GetLastInsertedId(table: Table) returns (id: int)
      requires Valid()
      modifies this, mariaDatabase, odbc
      ensures Valid() && mariaDatabase == old(mariaDatabase)
      ensures (Value(), id) == LastIdStepM(old(Value()), odbc.understand, table)
    {
      var up := FnIsConnected();
      if !up {
        FnSetDatabaseStatus(false);
        return -1;
      }
      id := mariaDatabase.GetLastInsertedId(table);
    }

    method IsTableEmpty(table: Table) returns (ret: bool)
      requires Valid()
      modifies this, mariaDatabase, odbc
      ensures Valid() && mariaDatabase == old(mariaDatabase)
      ensures (Value(), ret) == EmptyStep(old(Value()), odbc.understand, table)
    {
      var up := FnIsConnected();
      if !up {
        FnSetDatabaseStatus(false);
        return false;
      }
      var result := mariaDatabase.SelectCount(CountText(table));
      if result == 0 {
        ret := true;
      } else if result > 0 {
        ret := false;
      } else {
        ret := false;
      }
    }

    method RemoveAllRecords(table: Table)
      requires Valid()
      modifies this, mariaDatabase, odbc
      ensures Valid() && mariaDatabase == old(mariaDatabase)
      ensures Value() == RemoveStep(old(Value()), odbc.understand, table).0
    {
      var up := FnIsConnected();
      if !up {
        FnSetDatabaseStatus(false);
        return;
      }
      var result := mariaDatabase.ExecuteNonQuery(DeleteText(table));
      if result {
        log := log + [Cleared(table)];
      }
    }
  }
}
