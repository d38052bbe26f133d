/** The owner of the connection object: reconnecting, its two flags, and the two tables. */
module MariaDbProtocol {
  import opened Structures
  import opened SqlText
  import opened SqlDatabase
  import opened SqlStatements
  import opened SqlBuilder
  import opened OdbcProtocol

  // What was logged: outcomes of actual reconnect attempts, inserts and deletes that went through.
  datatype Event = Attempted(ok: bool) | Inserted(table: Table, fields: seq<string>) | Cleared(table: Table)

  // With nothing held the connection is that of a new object.
  datatype Manager = Manager(held: bool, conn: Conn, status: bool, recovery: bool, log: seq<Event>)

  datatype Action =
    | Connect
    | Reconnect
    | CheckConnected
    | InsertRow(table: Table, fields: seq<string>)
    | LastId(table: Table)
    | CheckEmpty(table: Table)
    | RemoveAll(table: Table)

  datatype Reply = Done | Truth(b: bool) | Number(n: int)

  // How the database reads the texts it is sent.
  type Reading = string -> Statement

  function Initial(d: Driver): Manager {
    Manager(false, Fresh(d), false, false, [])
  }

  function IsConnected(m: Manager): (Manager, bool) {
    if !m.held then (m, false)
    else
      var (conn, up) := IsConnectedStep(m.conn);
      (m.(conn := conn), up)
  }

  function ConnectStepM(m: Manager): Manager {
    var (conn, ok) := ConnectStep(m.conn);
    m.(held := true, conn := conn, status := ok)
  }

  // Destroying the held object disconnects it.
  function Reset(m: Manager): Manager {
    if m.held then m.(held := false, conn := DisconnectStep(m.conn)) else m
  }

  function Rebuild(m: Manager): (Manager, bool) {
    var (conn, ok) := ConnectStep(m.conn);
    (m.(held := true, conn := conn, status := ok, recovery := !ok, log := m.log + [Attempted(ok)]), ok)
  }

  function ReconnectStep(m: Manager): (Manager, bool) {
    var (checked, up) := IsConnected(m);
    if up then (checked, true) else Rebuild(Reset(checked))
  }

  function InsertStep(m: Manager, read: Reading, table: Table, fields: seq<string>): (Manager, bool)
    requires fields != []
  {
    InsertAs(m, read(InsertText(table, fields)), table, fields)
  }

  // An insert, given as the database reads it.
  function InsertAs(m: Manager, statement: Statement, table: Table, fields: seq<string>): (Manager, bool) {
    var (checked, up) := IsConnected(m);
    if !up then (checked.(status := false), false)
    else
      var (conn, ok) := ExecuteStep(checked.conn, statement);
      (checked.(conn := conn, log := if ok then m.log + [Inserted(table, fields)] else m.log), ok)
  }

  function LastIdStepM(m: Manager, read: Reading, table: Table): (Manager, int) {
    var (checked, up) := IsConnected(m);
    if !up then (checked.(status := false), -1)
    else
      var (conn, id) := LastIdStep(checked.conn, read(LastIdText(table)));
      (checked.(conn := conn), id)
  }

  function EmptyStep(m: Manager, read: Reading, table: Table): (Manager, bool) {
    var (checked, up) := IsConnected(m);
    if !up then (checked.(status := false), false)
    else
      var (conn, count) := CountStep(checked.conn, read(CountText(table)));
      (checked.(conn := conn), count == 0)
  }

  function RemoveStep(m: Manager, read: Reading, table: Table): (Manager, bool) {
    var (checked, up) := IsConnected(m);
    if !up then (checked.(status := false), false)
    else
      var (conn, ok) := ExecuteStep(checked.conn, read(DeleteText(table)));
      (checked.(conn := conn, log := if ok then m.log + [Cleared(table)] else m.log), ok)
  }

  // Rows are inserted through the two methods that build a statement, so they always have all columns.
  predicate WellFormed(a: Action) {
    a.InsertRow? ==> |a.fields| == |Columns(a.table)|
  }

  predicate Runnable(actions: seq<Action>) {
    forall i :: 0 <= i < |actions| ==> WellFormed(actions[i])
  }

  function Act(m: Manager, read: Reading, a: Action): (Manager, Reply)
    requires WellFormed(a)
  {
    match a
    case Connect => (ConnectStepM(m), Done)
    case Reconnect => var (next, b) := ReconnectStep(m); (next, Truth(b))
    case CheckConnected => var (next, b) := IsConnected(m); (next, Truth(b))
    case InsertRow(table, fields) => var (next, b) := InsertStep(m, read, table, fields); (next, Truth(b))
    case LastId(table) => var (next, n) := LastIdStepM(m, read, table); (next, Number(n))
    case CheckEmpty(table) => var (next, b) := EmptyStep(m, read, table); (next, Truth(b))
    case RemoveAll(table) => (RemoveStep(m, read, table).0, Done)
  }

  function ActAll(m: Manager, read: Reading, actions: seq<Action>): Manager
    requires Runnable(actions)
    decreases |actions|
  {
    if actions == [] then m else ActAll(Act(m, read, actions[0]).0, read, actions[1..])
  }

  // Handles and flags

  predicate LastAttemptFailed(log: seq<Event>) {
    log != [] &&
    if log[|log| - 1].Attempted? then !log[|log| - 1].ok else LastAttemptFailed(log[..|log| - 1])
  }

  lemma LogAppend(log: seq<Event>, e: Event)
    ensures LastAttemptFailed(log + [e]) == if e.Attempted? then !e.ok else LastAttemptFailed(log)
  {
    assert (log + [e])[..|log|] == log;
  }

  ghost predicate ManagerInv(m: Manager) {
    && IdleInv(m.conn)
    && (!m.held ==> m.conn.env == 0 && m.conn.dbc == 0 && !m.conn.connected)
    && (m.status ==> m.held && m.conn.connected)
    && (m.recovery <==> LastAttemptFailed(m.log))
  }

  // What the driver is about to answer makes the manager find its connection up.
  predicate IsUp(m: Manager) {
    var d := m.conn.driver;
    m.held && m.conn.connected && Went(d, 0) && !d.answers(d.calls).dead
  }

  // The calls made to find that out; a failed one is followed by a diagnosis.
  function Asked(m: Manager): nat {
    if !m.held || !m.conn.connected then 0 else if Went(m.conn.driver, 0) then 1 else 2
  }

  // The driver after k more calls.
  function Ahead(d: Driver, k: nat): Driver {
    d.(calls := d.calls + k)
  }

  // The connection is found up exactly when it is; finding out changes nothing but the number of calls made.
  lemma IsConnectedKeeps(m: Manager)
    requires ManagerInv(m)
    ensures var (checked, up) := IsConnected(m);
            && ManagerInv(checked)
            && (up <==> IsUp(m))
            && checked == m.(conn := m.conn.(driver := Ahead(m.conn.driver, Asked(m))))
  {
    IsConnectedExactly(m.conn);
  }

  // The old connection holds no handle any more when its replacement is built.
  lemma ResetReleasesAll(m: Manager)
    requires ManagerInv(m)
    ensures var r := Reset(m);
            && r.conn.driver.live == map[]
            && r.conn.driver == m.conn.driver.(live := map[])
            && r.conn.stmt == 0 && IdleInv(r.conn)
            && r.log == m.log
  {
    if m.held {
      DisconnectReleasesAll(m.conn);
    }
  }

  // What one action does to the connection, the flags, the log and the tables. An action other than
  // connecting and reconnecting keeps the connection and can only clear the status.
  lemma OrdinaryAct(m: Manager, read: Reading, a: Action)
    requires ManagerInv(m) && WellFormed(a) && !a.Connect? && !a.Reconnect?
    ensures var next := Act(m, read, a).0;
            && ManagerInv(next)
            && next.recovery == m.recovery
            && next.held == m.held
            && (next.status <==> m.status && (a.CheckConnected? || IsUp(m)))
  {
    IsConnectedKeeps(m);
    var (checked, up) := IsConnected(m);
    if up {
      match a
      case InsertRow(table, fields) =>
        ExecuteExactly(checked.conn, read(InsertText(table, fields)));
        LogAppend(m.log, Inserted(table, fields));
      case LastId(table) => LastIdKeeps(checked.conn, read(LastIdText(table)));
      case CheckEmpty(table) => CountKeeps(checked.conn, read(CountText(table)));
      case RemoveAll(table) =>
        ExecuteExactly(checked.conn, read(DeleteText(table)));
        LogAppend(m.log, Cleared(table));
      case CheckConnected =>
    }
  }

  lemma ConnectAct(m: Manager)
    requires ManagerInv(m)
    ensures var next := ConnectStepM(m);
            ManagerInv(next) && next.recovery == m.recovery && next.held
            && (next.status <==> AllWent(m.conn.driver, 5))
            && next.conn.driver.store == m.conn.driver.store && next.log == m.log
  {
    ConnectExactly(m.conn);
  }

  // Where only the answers to come matter.
  lemma SameAnswers(d: Driver, e: Driver, n: nat)
    requires d.answers == e.answers && d.calls == e.calls
    ensures AllWent(d, n) <==> AllWent(e, n)
  {
    assert forall j: nat :: Went(d, j) <==> Went(e, j);
  }

  // A reconnect leaves a connection that is up as it is. Otherwise it succeeds if and only if the five calls of
  // connecting pass; the status is then its outcome, and the recovery flag the opposite.
  lemma ReconnectAct(m: Manager)
    requires ManagerInv(m)
    ensures var (next, ok) := ReconnectStep(m);
            && ManagerInv(next)
            && (ok ==> next.held && next.conn.connected)
            && (ok <==> IsUp(m) || AllWent(Ahead(m.conn.driver, Asked(m)), 5))
            && next.conn.driver.store == m.conn.driver.store
            && (IsUp(m) ==> next == m.(conn := m.conn.(driver := Ahead(m.conn.driver, 1))))
            && (!IsUp(m) ==> next.status == ok && next.recovery == !ok && next.log == m.log + [Attempted(ok)])
  {
    IsConnectedKeeps(m);
    var (checked, up) := IsConnected(m);
    if !up {
      ResetReleasesAll(checked);
      ConnectExactly(Reset(checked).conn);
      SameAnswers(Reset(checked).conn.driver, Ahead(m.conn.driver, Asked(m)), 5);
      LogAppend(m.log, Attempted(ConnectStep(Reset(checked).conn).1));
    }
  }

  lemma ActKeeps(m: Manager, read: Reading, a: Action)
    requires ManagerInv(m) && WellFormed(a)
    ensures ManagerInv(Act(m, read, a).0)
  {
    match a
    case Connect => ConnectAct(m);
    case Reconnect => ReconnectAct(m);
    case _ => OrdinaryAct(m, read, a);
  }

  lemma {:induction false} ActAllKeeps(m: Manager, read: Reading, actions: seq<Action>)
    requires ManagerInv(m) && Runnable(actions)
    ensures ManagerInv(ActAll(m, read, actions))
    decreases |actions|
  {
    if actions == [] {
    } else {
      ActKeeps(m, read, actions[0]);
      ActAllKeeps(Act(m, read, actions[0]).0, read, actions[1..]);
    }
  }

  // After any number of connects, reconnects and queries, whatever the driver answers: the live handles
  // are the held object's, so at most one environment and one connection; no handle is misused, and the null
  // handle is used only where an environment or statement was refused; a true status means a held,
  // connected object; and the recovery flag is set exactly when the latest reconnect attempt failed.
  lemma ManagerRuns(d: Driver, read: Reading, actions: seq<Action>)
    requires Unused(d) && Runnable(actions)
    ensures var m := ActAll(Initial(d), read, actions);
            && m.conn.driver.live.Keys == Handle(m.conn.env) + Handle(m.conn.dbc)
            && (m.conn.connected <==> Linked(m.conn))
            && !m.conn.driver.misuse && m.conn.driver.nullUses == m.conn.driver.refused
            && (!m.held ==> m.conn.driver.live == map[])
            && (m.status ==> m.held && m.conn.connected)
            && (m.recovery <==> LastAttemptFailed(m.log))
  {
    ActAllKeeps(Initial(d), read, actions);
  }

  // While the status is told apart from the recovery flag, only a connect can confuse them: it does so
  // if and only if it succeeds with the flag set.
  lemma OnlyConnectConfuses(m: Manager, read: Reading, a: Action)
    requires ManagerInv(m) && WellFormed(a) && (m.recovery ==> !m.status)
    ensures var next := Act(m, read, a).0;
            (next.recovery && next.status) <==> (a.Connect? && m.recovery && AllWent(m.conn.driver, 5))
  {
    match a
    case Connect => ConnectAct(m);
    case Reconnect =>
      ReconnectAct(m);
      IsConnectedKeeps(m);
    case _ => OrdinaryAct(m, read, a);
  }

  // The answers of the driver from the next call on.
  function Answering(m: Manager, answers: nat -> OdbcProtocol.Answer): Manager {
    m.(conn := m.conn.(driver := m.conn.driver.(answers := answers)))
  }

  ghost predicate ConnectKeepsApart(m: Manager, answers: nat -> OdbcProtocol.Answer) {
    var next := ConnectStepM(Answering(m, answers)); next.recovery ==> !next.status
  }

  const WILLING := Answer(SqlSuccess, false, 0, "", 0, 0)

  // What a caller can look at before connecting: a connect keeps the flags apart, whatever the driver is going
  // to answer, if and only if the recovery flag is clear.
  lemma ConnectIsSafeExactly(m: Manager)
    requires ManagerInv(m)
    ensures (forall answers :: ConnectKeepsApart(m, answers)) <==> !m.recovery
  {
    var willing := (n: nat) => WILLING;
    ConnectAct(Answering(m, willing));
    assert AllWent(Answering(m, willing).conn.driver, 5);
    assert ConnectKeepsApart(m, willing) <==> !m.recovery;
  }

  // Every connect of the run is made with the recovery flag clear.
  predicate ConnectsWithFlagClear(m: Manager, read: Reading, actions: seq<Action>)
    requires Runnable(actions)
    decreases |actions|
  {
    actions == [] || (&& (actions[0].Connect? ==> !m.recovery)
                      && ConnectsWithFlagClear(Act(m, read, actions[0]).0, read, actions[1..]))
  }

  lemma {:induction false} FlagsStayApart(m: Manager, read: Reading, actions: seq<Action>)
    requires ManagerInv(m) && (m.recovery ==> !m.status)
    requires Runnable(actions) && ConnectsWithFlagClear(m, read, actions)
    ensures var n := ActAll(m, read, actions); n.recovery ==> !n.status
    decreases |actions|
  {
    if actions == [] {
    } else {
      OnlyConnectConfuses(m, read, actions[0]);
      ActKeeps(m, read, actions[0]);
      FlagsStayApart(Act(m, read, actions[0]).0, read, actions[1..]);
    }
  }

  // With every connect made on a clear recovery flag, a set one always goes with a false status.
  lemma CarefulConnectsKeepFlagsApart(d: Driver, read: Reading, actions: seq<Action>)
    requires Unused(d) && Runnable(actions) && ConnectsWithFlagClear(Initial(d), read, actions)
    ensures var m := ActAll(Initial(d), read, actions); m.recovery ==> !m.status
  {
    FlagsStayApart(Initial(d), read, actions);
  }

  lemma {:induction false} NoConnects(m: Manager, read: Reading, actions: seq<Action>)
    requires Runnable(actions) && forall i :: 0 <= i < |actions| ==> !actions[i].Connect?
    ensures ConnectsWithFlagClear(m, read, actions)
    decreases |actions|
  {
    if actions == [] {
    } else {
      NoConnects(Act(m, read, actions[0]).0, read, actions[1..]);
    }
  }

  // In particular with one connect, made first.
  lemma ConnectOnceKeepsFlagsApart(d: Driver, read: Reading, actions: seq<Action>)
    requires Unused(d)
    requires Runnable(actions) && forall i :: 0 <= i < |actions| ==> !actions[i].Connect?
    ensures var m := ActAll(ConnectStepM(Initial(d)), read, actions); m.recovery ==> !m.status
  {
    ConnectAct(Initial(d));
    NoConnects(ConnectStepM(Initial(d)), read, actions);
    FlagsStayApart(ConnectStepM(Initial(d)), read, actions);
  }

  // A driver that refuses the first environment it is asked for and lets everything else pass.
  function OnceUnwilling(store: Store): Driver {
    Driver(n => if n == 0 then WILLING.(code := SqlError) else WILLING, 0, map[], 1, false, 0, 0, store, 0, false, 0)
  }

  // Without that care both flags can be true: a reconnect that fails, and then a connect that succeeds.
  lemma BothFlagsCanBeTrue(store: Store, read: Reading)
    ensures Unused(OnceUnwilling(store))
    ensures var m := ActAll(Initial(OnceUnwilling(store)), read, [Reconnect, Action.Connect]); m.recovery && m.status
  {
    var m0 := Initial(OnceUnwilling(store));
    ConnectExactly(m0.conn);
    ReconnectAct(m0);
    var m1 := ReconnectStep(m0).0;
    assert m1.recovery;
    SecondTry(store);
    ConnectExactly(m1.conn);
    assert [Reconnect, Action.Connect][1..] == [Action.Connect] && [Action.Connect][1..] == [];
    assert ActAll(m1, read, [Action.Connect]) == ConnectStepM(m1);
  }

  // After the refused environment and the diagnosis two calls have been made.
  lemma SecondTry(store: Store)
    ensures var d := ReconnectStep(Initial(OnceUnwilling(store))).0.conn.driver;
            d.answers == OnceUnwilling(store).answers && d.calls > 0
  {
    var c := Fresh(OnceUnwilling(store));
    assert Checked(c, AllocEnv).1 == false;
  }

  // Tables

  // The rows that the logged inserts leave, starting from those that were there.
  function Expected(rows: seq<Row>, log: seq<Event>, table: Table): seq<Row> {
    if log == [] then rows
    else
      var before := Expected(rows, log[..|log| - 1], table);
      match log[|log| - 1]
      case Inserted(t, fields) =>
        if t == table && |fields| == |Columns(t)| then before + [RowFor(t, fields)] else before
      case Cleared(t) => if t == table then [] else before
      case Attempted(_) => before
  }

  // The database reads an insert of plain fields, a delete and a count as what they say.
  ghost predicate Faithful(read: Reading) {
    && (forall table, fields :: |fields| == |Columns(table)| && (forall i :: 0 <= i < |fields| ==> Plain(fields[i])) ==>
          read(InsertText(table, fields)) == Insert(table, RowFor(table, fields)))
    && (forall table :: read(DeleteText(table)) == DeleteAll(table))
    && (forall table :: read(CountText(table)) == CountAll(table))
    && (forall table :: read(LastIdText(table)) == LastInsertId(table))
  }

  lemma MariaDbIsFaithful()
    ensures Faithful(Understand)
  {
    forall table, fields | |fields| == |Columns(table)| && (forall i :: 0 <= i < |fields| ==> Plain(fields[i]))
      ensures Understand(InsertText(table, fields)) == Insert(table, RowFor(table, fields))
    {
      UnderstoodInsert(table, fields);
    }
    forall table
      ensures Understand(DeleteText(table)) == DeleteAll(table)
      ensures Understand(CountText(table)) == CountAll(table)
      ensures Understand(LastIdText(table)) == LastInsertId(table)
    {
      UnderstoodDelete(table);
      UnderstoodCount(table);
      UnderstoodLastId(table);
    }
  }

  predicate PlainAction(a: Action) {
    a.InsertRow? ==> forall i :: 0 <= i < |a.fields| ==> Plain(a.fields[i])
  }

  predicate PlainRun(actions: seq<Action>) {
    Runnable(actions) && forall i :: 0 <= i < |actions| ==> PlainAction(actions[i])
  }

  ghost predicate TablesInv(m: Manager, start: Store) {
    forall table :: m.conn.driver.store.Rows(table) == Expected(start.Rows(table), m.log, table)
  }

  lemma ExpectedAppend(rows: seq<Row>, log: seq<Event>, e: Event, table: Table)
    ensures Expected(rows, log + [e], table) ==
            if e.Inserted? && e.table == table && |e.fields| == |Columns(table)|
            then Expected(rows, log, table) + [RowFor(table, e.fields)]
            else if e.Cleared? && e.table == table then []
            else Expected(rows, log, table)
  {
    assert (log + [e])[..|log|] == log;
  }

  // An insert returns true if and only if the connection is up and the driver lets its two calls pass. Then it
  // is logged, and if the database reads it as it is meant, its row is at the end of its table; otherwise no
  // table has changed.
  lemma InsertExactly(m: Manager, read: Reading, t: Table, fields: seq<string>)
    requires ManagerInv(m) && fields != []
    ensures var (next, ok) := InsertStep(m, read, t, fields);
            var d, before, after := m.conn.driver, m.conn.driver.store, next.conn.driver.store;
            && (ok <==> IsUp(m) && Went(d, 1) && Went(d, 2))
            && (!ok ==> after == before)
            && (ok && |fields| == |Columns(t)| && read(InsertText(t, fields)) == Insert(t, RowFor(t, fields)) ==>
                  after == before.With(t, before.Rows(t) + [RowFor(t, fields)]))
            && next.log == (if ok then m.log + [Inserted(t, fields)] else m.log)
            && (next.status <==> m.status && IsUp(m)) && next.recovery == m.recovery
  {
    InsertAsExactly(m, read(InsertText(t, fields)), t, fields);
  }

  lemma InsertAsExactly(m: Manager, statement: Statement, t: Table, fields: seq<string>)
    requires ManagerInv(m)
    ensures var (next, ok) := InsertAs(m, statement, t, fields);
            var d, before, after := m.conn.driver, m.conn.driver.store, next.conn.driver.store;
            && (ok <==> IsUp(m) && Went(d, 1) && Went(d, 2))
            && (!ok ==> after == before)
            && (ok && statement.Insert? ==>
                  after == before.With(statement.table, before.Rows(statement.table) + [statement.row]))
            && next.log == (if ok then m.log + [Inserted(t, fields)] else m.log)
            && (next.status <==> m.status && IsUp(m)) && next.recovery == m.recovery
  {
    IsConnectedKeeps(m);
    ExecuteExactly(IsConnected(m).0.conn, statement);
  }

  // The lot's row, field by field under the names of the columns, has been added to its table, or nothing has.
  predicate AddsLot(before: Store, after: Store, lot: ParkingLot, ok: bool) {
    && after.status == before.status
    && if ok then |after.trans| > 0 && after.trans[..|after.trans| - 1] == before.trans
                  && StoresLot(Insert(LotTrans, after.trans[|after.trans| - 1]), lot)
       else after.trans == before.trans
  }

  predicate AddsStatus(before: Store, after: Store, carparkCode: string, deviceIp: string, errorCode: string,
                       ok: bool) {
    && after.trans == before.trans
    && if ok then |after.status| > 0 && after.status[..|after.status| - 1] == before.status
                  && StoresStatus(Insert(LotStatus, after.status[|after.status| - 1]), carparkCode, deviceIp, errorCode)
       else after.status == before.status
  }

  // A lot whose fields are plain goes into its table by name when the insert returns true, and nothing else changes.
  lemma LotIsInserted(m: Manager, lot: ParkingLot)
    requires ManagerInv(m) && PlainLot(lot)
    ensures var (next, ok) := InsertStep(m, Understand, LotTrans, TransFields(lot));
            AddsLot(m.conn.driver.store, next.conn.driver.store, lot, ok)
  {
    TransRecordIsStored(lot);
    LotIsAdded(m, Understand(InsertText(LotTrans, TransFields(lot))), TransFields(lot), lot);
  }

  lemma LotIsAdded(m: Manager, statement: Statement, fields: seq<string>, lot: ParkingLot)
    requires ManagerInv(m) && StoresLot(statement, lot)
    ensures var (next, ok) := InsertAs(m, statement, LotTrans, fields);
            AddsLot(m.conn.driver.store, next.conn.driver.store, lot, ok)
  {
    InsertAsExactly(m, statement, LotTrans, fields);
    assert statement == Insert(LotTrans, statement.row);
  }

  lemma StatusIsInserted(m: Manager, carparkCode: string, deviceIp: string, errorCode: string)
    requires ManagerInv(m) && Plain(carparkCode) && Plain(deviceIp) && Plain(errorCode)
    ensures var (next, ok) := InsertStep(m, Understand, LotStatus, [carparkCode, deviceIp, errorCode]);
            AddsStatus(m.conn.driver.store, next.conn.driver.store, carparkCode, deviceIp, errorCode, ok)
  {
    var fields := [carparkCode, deviceIp, errorCode];
    StatusRecordIsStored(carparkCode, deviceIp, errorCode);
    StatusIsAdded(m, Understand(InsertText(LotStatus, fields)), carparkCode, deviceIp, errorCode);
  }

  lemma StatusIsAdded(m: Manager, statement: Statement, carparkCode: string, deviceIp: string, errorCode: string)
    requires ManagerInv(m) && StoresStatus(statement, carparkCode, deviceIp, errorCode)
    ensures var (next, ok) := InsertAs(m, statement, LotStatus, [carparkCode, deviceIp, errorCode]);
            AddsStatus(m.conn.driver.store, next.conn.driver.store, carparkCode, deviceIp, errorCode, ok)
  {
    InsertAsExactly(m, statement, LotStatus, [carparkCode, deviceIp, errorCode]);
    assert statement == Insert(LotStatus, statement.row);
  }

  // A delete empties its table if and only if the connection is up and the driver lets its two calls pass.
  lemma RemoveExactly(m: Manager, read: Reading, t: Table)
    requires ManagerInv(m) && Faithful(read)
    ensures var (next, ok) := RemoveStep(m, read, t);
            var d, before := m.conn.driver, m.conn.driver.store;
            && (ok <==> IsUp(m) && Went(d, 1) && Went(d, 2))
            && next.conn.driver.store == (if ok then before.With(t, []) else before)
            && next.log == (if ok then m.log + [Cleared(t)] else m.log)
            && (next.status <==> m.status && IsUp(m)) && next.recovery == m.recovery
  {
    IsConnectedKeeps(m);
    ExecuteExactly(IsConnected(m).0.conn, read(DeleteText(t)));
  }

  // The last id is what the driver gives when the connection is up and the four calls pass; 0 when there is no
  // row or the fetch fails, and -1 when any other call fails or the connection is not up.
  lemma LastIdFromManager(m: Manager, read: Reading, t: Table)
    requires ManagerInv(m) && Faithful(read)
    ensures var (next, id) := LastIdStepM(m, read, t);
            var d := m.conn.driver;
            && id == (if !IsUp(m) || !Went(d, 1) || !Went(d, 2) then -1
                      else if d.answers(d.calls + 2).rows == 0 || !Went(d, 3) then 0
                      else if !Went(d, 4) then -1
                      else d.answers(d.calls + 4).number)
            && next.conn.driver.store == m.conn.driver.store && next.log == m.log
            && (next.status <==> m.status && IsUp(m)) && next.recovery == m.recovery
  {
    IsConnectedKeeps(m);
    assert read(LastIdText(t)) == LastInsertId(t);
    LastIdExactly(IsConnected(m).0.conn, t);
    LastIdKeeps(IsConnected(m).0.conn, LastInsertId(t));
  }

  lemma InsertOnTables(m: Manager, read: Reading, t: Table, fields: seq<string>, start: Store)
    requires ManagerInv(m) && TablesInv(m, start) && |fields| == |Columns(t)|
    ensures read(InsertText(t, fields)) == Insert(t, RowFor(t, fields)) ==>
              TablesInv(InsertStep(m, read, t, fields).0, start)
  {
    var (next, ok) := InsertStep(m, read, t, fields);
    InsertExactly(m, read, t, fields);
    if read(InsertText(t, fields)) == Insert(t, RowFor(t, fields)) && ok {
      forall table
        ensures next.conn.driver.store.Rows(table) == Expected(start.Rows(table), next.log, table)
      {
        ExpectedAppend(start.Rows(table), m.log, Inserted(t, fields), table);
      }
    }
  }

  lemma RemoveOnTables(m: Manager, read: Reading, t: Table, start: Store)
    requires ManagerInv(m) && Faithful(read) && TablesInv(m, start)
    ensures TablesInv(RemoveStep(m, read, t).0, start)
  {
    var (next, ok) := RemoveStep(m, read, t);
    RemoveExactly(m, read, t);
    if ok {
      forall table
        ensures next.conn.driver.store.Rows(table) == Expected(start.Rows(table), next.log, table)
      {
        ExpectedAppend(start.Rows(table), m.log, Cleared(t), table);
      }
    }
  }

  lemma ReconnectOnTables(m: Manager, start: Store)
    requires ManagerInv(m) && TablesInv(m, start)
    ensures TablesInv(ReconnectStep(m).0, start)
  {
    ReconnectAct(m);
    IsConnectedKeeps(m);
    var next := ReconnectStep(m).0;
    forall table
      ensures Expected(start.Rows(table), next.log, table) == Expected(start.Rows(table), m.log, table)
    {
      if !IsUp(m) {
        ExpectedAppend(start.Rows(table), m.log, Attempted(ReconnectStep(m).1), table);
      }
    }
  }

  // The empty check is right: it returns true if and only if the connection is up, the count could be had,
  // and the table is empty; and it changes no table.
  lemma EmptyCheckExactly(m: Manager, read: Reading, t: Table)
    requires ManagerInv(m) && Faithful(read)
    ensures var (next, empty) := EmptyStep(m, read, t);
            var d := m.conn.driver;
            && next.conn.driver.store == d.store && next.log == m.log
            && (empty <==> IsUp(m) && d.store.Rows(t) == []
                           && Went(d, 1) && Went(d, 2) && d.answers(d.calls + 3).code == SqlSuccess && Went(d, 4))
            && (next.status <==> m.status && IsUp(m)) && next.recovery == m.recovery
  {
    IsConnectedKeeps(m);
    var checked := IsConnected(m).0;
    assert read(CountText(t)) == CountAll(t);
    CountKeeps(checked.conn, CountAll(t));
    CountExactly(checked.conn, t);
  }

  lemma ActOnTables(m: Manager, read: Reading, a: Action, start: Store)
    requires ManagerInv(m) && Faithful(read) && WellFormed(a) && PlainAction(a) && TablesInv(m, start)
    ensures TablesInv(Act(m, read, a).0, start)
  {
    IsConnectedKeeps(m);
    var (checked, up) := IsConnected(m);
    match a
    case Connect => ConnectAct(m);
    case Reconnect => ReconnectOnTables(m, start);
    case InsertRow(t, fields) => InsertOnTables(m, read, t, fields, start);
    case RemoveAll(t) => RemoveOnTables(m, read, t, start);
    case LastId(t) =>
      if up {
        LastIdKeeps(checked.conn, read(LastIdText(t)));
      }
    case CheckEmpty(t) => EmptyCheckExactly(m, read, t);
    case CheckConnected =>
  }

  lemma {:induction false} ActAllOnTables(m: Manager, read: Reading, actions: seq<Action>, start: Store)
    requires ManagerInv(m) && Faithful(read) && TablesInv(m, start) && PlainRun(actions)
    ensures TablesInv(ActAll(m, read, actions), start) && ManagerInv(ActAll(m, read, actions))
    decreases |actions|
  {
    if actions == [] {
    } else {
      var next := Act(m, read, actions[0]).0;
      assert PlainRun(actions[1..]);
      ActOnTables(m, read, actions[0], start);
      ActKeeps(m, read, actions[0]);
      ActAllOnTables(next, read, actions[1..], start);
    }
  }

  // Over any run with plain fields, each table holds what it held at first and the rows of the inserts
  // that went through, all since its last delete that went through.
  lemma TablesHoldWhatWentThrough(d: Driver, actions: seq<Action>, table: Table)
    requires Unused(d) && PlainRun(actions)
    ensures var m := ActAll(Initial(d), Understand, actions);
            m.conn.driver.store.Rows(table) == Expected(d.store.Rows(table), m.log, table)
  {
    MariaDbIsFaithful();
    ActAllOnTables(Initial(d), Understand, actions, d.store);
  }

  function AcknowledgedBy(a: Action, reply: Reply): seq<(Table, seq<string>)> {
    if a.InsertRow? && reply == Truth(true) then [(a.table, a.fields)] else []
  }

  // The inserts that were answered with true, in order.
  function Acknowledged(m: Manager, read: Reading, actions: seq<Action>): seq<(Table, seq<string>)>
    requires Runnable(actions)
    decreases |actions|
  {
    if actions == [] then []
    else
      var (next, reply) := Act(m, read, actions[0]);
      AcknowledgedBy(actions[0], reply) + Acknowledged(next, read, actions[1..])
  }

  function LoggedInserts(log: seq<Event>): seq<(Table, seq<string>)> {
    if log == [] then []
    else
      LoggedInserts(log[..|log| - 1])
      + match log[|log| - 1]
        case Inserted(table, fields) => [(table, fields)]
        case _ => []
  }

  lemma LoggedAppend(log: seq<Event>, e: Event)
    ensures LoggedInserts(log + [e]) == LoggedInserts(log) + if e.Inserted? then [(e.table, e.fields)] else []
  {
    assert (log + [e])[..|log|] == log;
  }

  lemma InsertLogs(m: Manager, read: Reading, table: Table, fields: seq<string>)
    requires fields != []
    ensures var (next, ok) := InsertStep(m, read, table, fields);
            LoggedInserts(next.log) == LoggedInserts(m.log) + if ok then [(table, fields)] else []
  {
    LoggedAppend(m.log, Inserted(table, fields));
  }

  lemma OthersLog(m: Manager, read: Reading, table: Table)
    ensures LoggedInserts(RemoveStep(m, read, table).0.log) == LoggedInserts(m.log)
    ensures LoggedInserts(ReconnectStep(m).0.log) == LoggedInserts(m.log)
  {
    LoggedAppend(m.log, Cleared(table));
    LoggedAppend(m.log, Attempted(ReconnectStep(m).1));
  }

  lemma ActLogs(m: Manager, read: Reading, a: Action)
    requires WellFormed(a)
    ensures var (next, reply) := Act(m, read, a);
            LoggedInserts(next.log) == LoggedInserts(m.log) + AcknowledgedBy(a, reply)
  {
    match a
    case InsertRow(table, fields) => InsertLogs(m, read, table, fields);
    case RemoveAll(table) => OthersLog(m, read, table);
    case Reconnect => OthersLog(m, read, LotTrans);
    case _ =>
  }

  // The log has exactly the inserts whose caller was told that they went through.
  lemma {:induction false} LogIsWhatCallersWereTold(m: Manager, read: Reading, actions: seq<Action>)
    requires Runnable(actions)
    ensures LoggedInserts(ActAll(m, read, actions).log) == LoggedInserts(m.log) + Acknowledged(m, read, actions)
    decreases |actions|
  {
    if actions == [] {
    } else {
      var (next, reply) := Act(m, read, actions[0]);
      ActLogs(m, read, actions[0]);
      LogIsWhatCallersWereTold(next, read, actions[1..]);
      Assoc(LoggedInserts(m.log), AcknowledgedBy(actions[0], reply), Acknowledged(next, read, actions[1..]));
    }
  }

  // The empty check returns true only on a table that, by the log, has no rows.
  lemma EmptyCheckIsSound(d: Driver, actions: seq<Action>, table: Table)
    requires Unused(d) && PlainRun(actions)
    ensures var m := ActAll(Initial(d), Understand, actions);
            EmptyStep(m, Understand, table).1 ==> Expected(d.store.Rows(table), m.log, table) == []
  {
    MariaDbIsFaithful();
    ActAllOnTables(Initial(d), Understand, actions, d.store);
    EmptyCheckExactly(ActAll(Initial(d), Understand, actions), Understand, table);
  }
}
