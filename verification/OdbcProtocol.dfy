/**
 The ODBC driver as an adversary, and the connection object as steps against it.

 The driver answers every call as it likes: its answers are an arbitrary function of the number of
 calls made so far. What is assumed of it:
  - an allocation that fails yields the null handle, one that succeeds a handle never used before;
  - frees succeed when the handle is live, has no children and, for a connection, is not linked;
  - a statement takes effect if and only if its execution reports success;
  - a result set is finite, a count query has one row, and the count is given truthfully or, when it
    does not fit the 32 bits asked for, not at all.
 Every breach of the rules of handles by the program sets misuse: a handle freed twice, before its children
 or while linked, a call given a handle that is not live or of the wrong kind, and a call out of sequence: a
 connection allocated before the environment's version is set, a statement on a connection that is not
 linked, a fetch from a statement not executed. A call given the null handle is counted by itself, and so is
 each refusal of an environment or a statement.
 */
module OdbcProtocol {
  import opened SqlDatabase

  datatype Ret = SqlSuccess | SqlSuccessWithInfo | SqlNoData | SqlError

  // check_error lets these two pass.
  predicate Good(ret: Ret) {
    ret == SqlSuccess || ret == SqlSuccessWithInfo
  }

  datatype Answer = Answer(code: Ret, dead: bool, number: int, text: string, rows: nat, columns: nat)

  datatype Kind = Env | Dbc | Stmt

  // Handle 0 is SQL_NULL_HANDLE. What makes a handle ready: for an environment its version, for a connection its
  // timeout, for a statement its execution.
  datatype Node = Node(kind: Kind, parent: nat, ready: bool, linked: bool)

  datatype Store = Store(trans: seq<Row>, status: seq<Row>)
  {
    function Rows(table: Table): seq<Row> {
      if table == LotTrans then trans else status
    }

    function With(table: Table, rows: seq<Row>): Store {
      if table == LotTrans then this.(trans := rows) else this.(status := rows)
    }
  }

  datatype Driver = Driver(
    answers: nat -> Answer,
    calls: nat,
    live: map<nat, Node>,
    nextHandle: nat,
    misuse: bool,
    nullUses: nat,
    refused: nat,
    store: Store,
    rowsLeft: nat,
    isCount: bool,
    count: nat)

  function Reply(d: Driver): Answer {
    d.answers(d.calls)
  }

  predicate IsLive(d: Driver, h: nat, kind: Kind) {
    h in d.live && d.live[h].kind == kind
  }

  // A call that uses a handle: it takes the next answer.
  function Use(d: Driver, h: nat, kind: Kind): Driver {
    if h == 0 then d.(calls := d.calls + 1, nullUses := d.nullUses + 1)
    else d.(calls := d.calls + 1, misuse := d.misuse || !IsLive(d, h, kind))
  }

  // check_error: after a call that failed, the driver is asked for a diagnosis of the handle. The answer only
  // chooses what is logged.
  function Diagnose(d: Driver, ret: Ret, h: nat, kind: Kind): Driver {
    if Good(ret) then d else Use(d, h, kind)
  }

  predicate ParentFits(d: Driver, kind: Kind, parent: nat) {
    match kind
    case Env => parent == 0
    case Dbc => IsLive(d, parent, Env) && d.live[parent].ready
    case Stmt => IsLive(d, parent, Dbc) && d.live[parent].linked
  }

  // Setting the version of an environment or the timeout of a connection.
  function Prepare(d: Driver, h: nat, kind: Kind): (Driver, Ret) {
    var used := Use(d, h, kind);
    if Good(Reply(d).code) && h in d.live then
      (used.(live := d.live[h := d.live[h].(ready := true)]), Reply(d).code)
    else
      (used, Reply(d).code)
  }

  // Asking a connection whether it is dead.
  function AskDead(d: Driver, h: nat): (Driver, Ret, bool) {
    (Use(d, h, Dbc), Reply(d).code, Reply(d).dead)
  }

  function Alloc(d: Driver, kind: Kind, parent: nat): (Driver, Ret, nat) {
    var called := d.(calls := d.calls + 1, misuse := d.misuse || !ParentFits(d, kind, parent));
    if Good(Reply(d).code) then
      (called.(live := d.live[d.nextHandle := Node(kind, parent, false, false)], nextHandle := d.nextHandle + 1),
       Reply(d).code, d.nextHandle)
    else
      (if kind == Dbc then called else called.(refused := d.refused + 1), Reply(d).code, 0)
  }

  predicate HasChildren(d: Driver, h: nat) {
    exists c :: c in d.live && d.live[c].parent == h
  }

  function Free(d: Driver, h: nat): Driver {
    if h in d.live && !d.live[h].linked && !HasChildren(d, h) then d.(live := d.live - {h}) else d.(misuse := true)
  }

  function Unlink(d: Driver, h: nat): Driver {
    if IsLive(d, h, Dbc) && !HasChildren(d, h) then d.(live := d.live[h := d.live[h].(linked := false)])
    else d.(misuse := true)
  }

  function Link(d: Driver, h: nat): (Driver, Ret) {
    var used := Use(d, h, Dbc);
    if Good(Reply(d).code) && h in d.live then
      (used.(live := d.live[h := d.live[h].(linked := true)]), Reply(d).code)
    else
      (used, Reply(d).code)
  }

  function Effect(d: Driver, statement: Statement, rows: nat): Driver {
    match statement
    case Insert(table, row) =>
      d.(store := d.store.With(table, d.store.Rows(table) + [row]), rowsLeft := 0, isCount := false)
    case DeleteAll(table) => d.(store := d.store.With(table, []), rowsLeft := 0, isCount := false)
    case CountAll(table) => d.(rowsLeft := 1, isCount := true, count := |d.store.Rows(table)|)
    case LastInsertId(_) => d.(rowsLeft := rows, isCount := false)
    case Other => d.(rowsLeft := rows, isCount := false)
  }

  // Executing a statement, given as the database understands its text.
  function Exec(d: Driver, h: nat, statement: Statement): (Driver, Ret) {
    var used := Use(d, h, Stmt);
    if Good(Reply(d).code) && h in d.live then
      (Effect(used.(live := d.live[h := d.live[h].(ready := true)]), statement, Reply(d).rows), Reply(d).code)
    else
      (used, Reply(d).code)
  }

  // A call on the result of a statement.
  function UseResult(d: Driver, h: nat): Driver {
    if h in d.live && !d.live[h].ready then Use(d, h, Stmt).(misuse := true) else Use(d, h, Stmt)
  }

  // The number of columns of a result.
  function CountColumns(d: Driver, h: nat): (Driver, Ret, nat) {
    (UseResult(d, h), Reply(d).code, Reply(d).columns)
  }

  function Fetch(d: Driver, h: nat): (r: (Driver, Ret))
    ensures r.1 == SqlSuccess ==> r.0.rowsLeft < d.rowsLeft
  {
    var used := UseResult(d, h);
    if d.rowsLeft == 0 then (used, SqlNoData) else (used.(rowsLeft := d.rowsLeft - 1), Reply(d).code)
  }

  const INT_LIMIT: int := 0x8000_0000

  function GetNumber(d: Driver, h: nat): (Driver, Ret, int) {
    var used := UseResult(d, h);
    if !d.isCount then (used, Reply(d).code, Reply(d).number)
    else if d.count < INT_LIMIT then (used, Reply(d).code, d.count)
    else (used, SqlError, 0)
  }

  function GetText(d: Driver, h: nat): (r: (Driver, Ret, string))
    ensures r.0.rowsLeft == d.rowsLeft
  {
    (UseResult(d, h), Reply(d).code, Reply(d).text)
  }

  // The connection object: its four fields, with the driver beside them.
  datatype Conn = Conn(env: nat, dbc: nat, stmt: nat, connected: bool, driver: Driver)

  function Fresh(d: Driver): Conn {
    Conn(0, 0, 0, false, d)
  }

  function Release(c: Conn): Conn {
    if c.stmt == 0 then c else c.(stmt := 0, driver := Free(c.driver, c.stmt))
  }

  function CloseDbc(c: Conn): Conn {
    if c.dbc == 0 then c else c.(dbc := 0, driver := Free(Unlink(c.driver, c.dbc), c.dbc))
  }

  function CloseEnv(c: Conn): Conn {
    if c.env == 0 then c else c.(env := 0, driver := Free(c.driver, c.env))
  }

  function DisconnectStep(c: Conn): Conn {
    CloseEnv(CloseDbc(Release(c))).(connected := false)
  }

  // The calls by which a connection is built up and a statement begun. Each either goes through or stops
  // the sequence it is in.
  datatype Op =
    | AllocEnv
    | SetVersion
    | AllocDbc
    | SetTimeout
    | DriverConnect
    | AllocStmt
    | ExecDirect(statement: Statement)

  function Perform(c: Conn, op: Op): (Conn, Ret) {
    match op
    case AllocEnv => var (d, ret, h) := Alloc(c.driver, Env, 0); (c.(env := h, driver := d), ret)
    case SetVersion => var (d, ret) := Prepare(c.driver, c.env, Env); (c.(driver := d), ret)
    case AllocDbc => var (d, ret, h) := Alloc(c.driver, Dbc, c.env); (c.(dbc := h, driver := d), ret)
    case SetTimeout => var (d, ret) := Prepare(c.driver, c.dbc, Dbc); (c.(driver := d), ret)
    case DriverConnect => var (d, ret) := Link(c.driver, c.dbc); (c.(driver := d), ret)
    case AllocStmt => var (d, ret, h) := Alloc(c.driver, Stmt, c.dbc); (c.(stmt := h, driver := d), ret)
    case ExecDirect(statement) => var (d, ret) := Exec(c.driver, c.stmt, statement); (c.(driver := d), ret)
  }

  // The handle that is examined after a call has failed.
  function Diagnosed(c: Conn, op: Op): Conn {
    match op
    case AllocEnv => c.(driver := Use(c.driver, c.env, Env))
    case SetVersion => c.(driver := Use(c.driver, c.env, Env))
    case AllocDbc => c.(driver := Use(c.driver, c.env, Env))
    case SetTimeout => c.(driver := Use(c.driver, c.dbc, Dbc))
    case DriverConnect => c.(driver := Use(c.driver, c.dbc, Dbc))
    case AllocStmt => c.(driver := Use(c.driver, c.stmt, Stmt))
    case ExecDirect(_) => c.(driver := Use(c.driver, c.stmt, Stmt))
  }

  function Checked(c: Conn, op: Op): (Conn, bool) {
    var (next, ret) := Perform(c, op);
    if Good(ret) then (next, true) else (Diagnosed(next, op), false)
  }

  // How a single call goes.
  type Caller = (Conn, Op) -> (Conn, bool)

  // Perform a sequence from position i on, up to and including the first call that fails.
  function PerformFrom(call: Caller, c: Conn, ops: seq<Op>, i: nat): (Conn, bool)
    requires i <= |ops|
    decreases |ops| - i
  {
    if i == |ops| then (c, true)
    else
      var (next, went) := call(c, ops[i]);
      if went then PerformFrom(call, next, ops, i + 1) else (next, false)
  }

  const CONNECT_OPS := [AllocEnv, SetVersion, AllocDbc, SetTimeout, DriverConnect]

  function ConnectBy(call: Caller, c: Conn): (Conn, bool) {
    var (next, ok) := PerformFrom(call, c, CONNECT_OPS, 0);
    (next.(connected := ok), ok)
  }

  function ConnectStep(c: Conn): (Conn, bool) {
    ConnectBy(Checked, DisconnectStep(c))
  }

  function IsConnectedStep(c: Conn): (Conn, bool) {
    if !c.connected then (c, false)
    else
      var (asked, ret, dead) := AskDead(c.driver, c.dbc);
      (c.(driver := Diagnose(asked, ret, c.dbc, Dbc)), Good(ret) && !dead)
  }

  function Begin(c: Conn, statement: Statement): (Conn, bool) {
    PerformFrom(Checked, c, [AllocStmt, ExecDirect(statement)], 0)
  }

  function ExecuteStep(c: Conn, statement: Statement): (Conn, bool) {
    if !c.connected then (c, false)
    else
      var (begun, ok) := Begin(c, statement);
      (Release(begun), ok)
  }

  // Zero when there is no row, -1 on any failure.
  function LastIdStep(c: Conn, statement: Statement): (Conn, int) {
    if !c.connected then (c, -1)
    else
      var (begun, ok) := Begin(c, statement);
      if !ok then (Release(begun), -1)
      else
        var (d, ret) := Fetch(begun.driver, begun.stmt);
        if !Good(ret) then (Release(begun.(driver := d)), 0)
        else
          var (e, got, number) := GetNumber(d, begun.stmt);
          (Release(begun.(driver := Diagnose(e, got, begun.stmt, Stmt))), if Good(got) then number else -1)
  }

  // Unlike the last id, the count is read only after a fetch that succeeds without reservation.
  function CountStep(c: Conn, statement: Statement): (Conn, int) {
    if !c.connected then (c, -1)
    else
      var (begun, ok) := Begin(c, statement);
      if !ok then (Release(begun), -1)
      else
        var (d, ret) := Fetch(begun.driver, begun.stmt);
        if ret != SqlSuccess then (Release(begun.(driver := d)), -1)
        else
          var (e, got, number) := GetNumber(d, begun.stmt);
          (Release(begun.(driver := e)), if Good(got) then number else -1)
  }

  // One row, column by column; a column that cannot be read is left empty.
  function ReadRow(d: Driver, stmt: nat, columns: nat): (r: (Driver, seq<string>))
    ensures r.0.rowsLeft == d.rowsLeft && |r.1| == columns
  {
    if columns == 0 then (d, [])
    else
      var (before, row) := ReadRow(d, stmt, columns - 1);
      var (after, ret, text) := GetText(before, stmt);
      (after, row + [if Good(ret) then text else ""])
  }

  // Rows until the first fetch that does not succeed without reservation.
  function ReadRows(d: Driver, stmt: nat, columns: nat): (r: (Driver, seq<seq<string>>))
    ensures |r.1| <= d.rowsLeft
    ensures forall i :: 0 <= i < |r.1| ==> |r.1[i]| == columns
    decreases d.rowsLeft
  {
    var (fetched, ret) := Fetch(d, stmt);
    if ret != SqlSuccess then (fetched, [])
    else
      var (after, row) := ReadRow(fetched, stmt, columns);
      var (last, rows) := ReadRows(after, stmt, columns);
      (last, [row] + rows)
  }

  // The number of columns and then the rows, from a statement that has been executed.
  function Collect(d: Driver, stmt: nat): (Driver, seq<seq<string>>) {
    var (counted, ret, columns) := CountColumns(d, stmt);
    if Good(ret) then ReadRows(counted, stmt, columns) else (Diagnose(counted, ret, stmt, Stmt), [])
  }

  function SelectStep(c: Conn, statement: Statement): (Conn, seq<seq<string>>) {
    if !c.connected then (c, [])
    else
      var (begun, ok) := Begin(c, statement);
      if !ok then (Release(begun), [])
      else
        var (d, rows) := Collect(begun.driver, begun.stmt);
        (Release(begun.(driver := d)), rows)
  }

  // Handles

  function Handle(h: nat): set<nat> {
    if h == 0 then {} else {h}
  }

  // The object holds a connection to the database.
  predicate Linked(c: Conn) {
    c.dbc != 0 && c.dbc in c.driver.live && c.driver.live[c.dbc].linked
  }

  predicate IsReady(d: Driver, h: nat) {
    h in d.live && d.live[h].ready
  }

  // The same connection handle, in the same condition.
  predicate SameLink(c: Conn, next: Conn) {
    && next.dbc == c.dbc && Linked(next) == Linked(c)
    && (c.dbc != 0 ==> IsReady(next.driver, c.dbc) == IsReady(c.driver, c.dbc))
  }

  // Nothing was misused, the null handle was used once for each refusal, the live handles are exactly the fields
  // that are not null, and each is the child of the one above it.
  ghost predicate HandlesInv(c: Conn) {
    && !c.driver.misuse
    && c.driver.nullUses == c.driver.refused
    && c.driver.live.Keys == Handle(c.env) + Handle(c.dbc) + Handle(c.stmt)
    && (forall h :: h in c.driver.live ==> 0 < h < c.driver.nextHandle)
    && 0 < c.driver.nextHandle
    && (c.dbc != 0 ==> c.env != 0 && c.driver.live[c.env].ready)
    && (c.stmt != 0 ==> Linked(c))
    && (c.env != 0 ==> c.driver.live[c.env].kind == Env && c.driver.live[c.env].parent == 0
                       && !c.driver.live[c.env].linked)
    && (c.dbc != 0 ==> c.env != 0 && c.dbc != c.env
                       && c.driver.live[c.dbc].kind == Dbc && c.driver.live[c.dbc].parent == c.env)
    && (c.stmt != 0 ==> c.dbc != 0 && c.stmt != c.dbc && c.stmt != c.env
                        && c.driver.live[c.stmt].kind == Stmt && c.driver.live[c.stmt].parent == c.dbc
                        && !c.driver.live[c.stmt].linked)
  }

  // Between public calls there is no statement, and the object is connected if and only if its connection is
  // linked to the database, which it is with its timeout set.
  ghost predicate IdleInv(c: Conn) {
    && HandlesInv(c)
    && c.stmt == 0
    && (c.connected <==> Linked(c))
    && (c.connected ==> c.driver.live[c.dbc].ready)
  }

  lemma ReleaseKeeps(c: Conn)
    requires HandlesInv(c)
    ensures HandlesInv(Release(c)) && Release(c).stmt == 0
    ensures Release(c) == c.(stmt := 0, driver := c.driver.(live := Release(c).driver.live))
    ensures SameLink(c, Release(c))
  {
  }

  lemma CloseDbcKeeps(c: Conn)
    requires HandlesInv(c) && c.stmt == 0
    ensures HandlesInv(CloseDbc(c)) && CloseDbc(c) == c.(dbc := 0, driver := CloseDbc(c).driver)
    ensures CloseDbc(c).driver == c.driver.(live := CloseDbc(c).driver.live)
  {
    if c.dbc != 0 {
      var d := Unlink(c.driver, c.dbc);
      assert d.live.Keys == c.driver.live.Keys;
      assert Free(d, c.dbc).live.Keys == Handle(c.env);
    }
  }

  lemma CloseEnvReleases(c: Conn)
    requires HandlesInv(c) && c.stmt == 0 && c.dbc == 0
    ensures CloseEnv(c) == c.(env := 0, driver := c.driver.(live := map[]))
  {
    if c.env != 0 {
      assert c.driver.live.Keys == {c.env};
      assert Free(c.driver, c.env).live == map[];
    } else {
      assert c.driver.live == map[];
    }
  }

  // Disconnecting gives every handle back, children first, and makes no call that can fail.
  lemma DisconnectReleasesAll(c: Conn)
    requires HandlesInv(c)
    ensures DisconnectStep(c) == Fresh(c.driver.(live := map[]))
  {
    ReleaseKeeps(c);
    CloseDbcKeeps(Release(c));
    CloseEnvReleases(CloseDbc(Release(c)));
  }

  // Building up

  // What must be there before a call in a sequence, and what is there once it has gone through.
  ghost predicate Ready(c: Conn, op: Op) {
    && HandlesInv(c)
    && match op
       case AllocEnv => c.env == 0 && c.dbc == 0 && c.stmt == 0
       case SetVersion => c.env != 0 && c.dbc == 0 && c.stmt == 0
       case AllocDbc => c.env != 0 && c.driver.live[c.env].ready && c.dbc == 0 && c.stmt == 0
       case SetTimeout => c.dbc != 0 && c.stmt == 0
       case DriverConnect => c.dbc != 0 && c.stmt == 0
       case AllocStmt => Linked(c) && c.stmt == 0
       case ExecDirect(_) => c.stmt != 0
  }

  // The i-th answer after the calls made so far lets its call pass.
  predicate Went(d: Driver, i: nat) {
    Good(d.answers(d.calls + i).code)
  }

  // A call takes exactly one answer; a field other than the one it fills stays.
  lemma PerformFrame(c: Conn, op: Op)
    ensures var (next, ret) := Perform(c, op);
            && ret == Reply(c.driver).code
            && next.driver.calls == c.driver.calls + 1
            && next.driver.answers == c.driver.answers
            && next.connected == c.connected
            && (!op.ExecDirect? ==> next.driver.store == c.driver.store)
            && (!op.AllocEnv? ==> next.env == c.env)
            && (!op.AllocDbc? ==> next.dbc == c.dbc)
            && (!op.AllocStmt? ==> next.stmt == c.stmt)
  {
  }

  // The same handles, in the same order, and nothing held against the program.
  ghost predicate SameHandles(d: Driver, e: Driver) {
    && e.live == d.live && e.misuse == d.misuse && e.nextHandle == d.nextHandle
    && e.nullUses == d.nullUses && e.refused == d.refused
  }

  lemma HandlesStay(c: Conn, d: Driver)
    requires HandlesInv(c) && SameHandles(c.driver, d)
    ensures HandlesInv(c.(driver := d))
  {
  }

  lemma AllocKeeps(c: Conn, op: Op)
    requires Ready(c, op) && (op.AllocEnv? || op.AllocDbc? || op.AllocStmt?) && Good(Reply(c.driver).code)
    ensures var next := Perform(c, op).0;
            && HandlesInv(next) && next.driver.refused == c.driver.refused
            && (op.AllocEnv? ==> next.env != 0)
            && (op.AllocDbc? ==> next.dbc != 0)
            && (op.AllocStmt? ==> next.stmt != 0)
  {
    var next := Perform(c, op).0;
    assert next.driver.live.Keys == c.driver.live.Keys + {c.driver.nextHandle};
  }

  lemma CallKeeps(c: Conn, op: Op)
    requires Ready(c, op) && !op.AllocEnv? && !op.AllocDbc? && !op.AllocStmt? && Good(Reply(c.driver).code)
    ensures HandlesInv(Perform(c, op).0) && Perform(c, op).0.driver.refused == c.driver.refused
  {
    assert Perform(c, op).0.driver.live.Keys == c.driver.live.Keys;
  }

  // A call that fails leaves the handles as they were. The field of a refused handle is null, and only after
  // a refused environment or statement is it the null handle that is examined.
  lemma FailureKeeps(c: Conn, op: Op)
    requires Ready(c, op) && !Good(Reply(c.driver).code)
    ensures var next := Diagnosed(Perform(c, op).0, op);
            && HandlesInv(next) && next.env == c.env && next.dbc == c.dbc && next.stmt == c.stmt
            && next.driver.store == c.driver.store && next.connected == c.connected
            && next.driver.refused == c.driver.refused + (if op.AllocEnv? || op.AllocStmt? then 1 else 0)
  {
    var next := Diagnosed(Perform(c, op).0, op);
    assert next.driver.live == c.driver.live;
  }

  // What is relied on of a call: it goes by the next answer and fills its own field.
  ghost predicate Moves(c: Conn, op: Op, next: Conn, went: bool) {
    && (went <==> Went(c.driver, 0))
    && HandlesInv(next) && next.connected == c.connected
    && next.driver.refused == c.driver.refused + (if !went && (op.AllocEnv? || op.AllocStmt?) then 1 else 0)
    && (went ==> next.driver.calls == c.driver.calls + 1 && next.driver.answers == c.driver.answers)
    && (!op.ExecDirect? || !went ==> next.driver.store == c.driver.store)
    && (if op.AllocEnv? && went then next.env != 0 else next.env == c.env)
    && (if op.AllocDbc? && went then next.dbc != 0 else next.dbc == c.dbc)
    && (if op.AllocStmt? && went then next.stmt != 0 else next.stmt == c.stmt)
    && (op.SetVersion? && went ==> IsReady(next.driver, next.env))
    && (if op.SetTimeout? && went then IsReady(next.driver, next.dbc) else SameTimeout(c, next))
    && (if op.DriverConnect? && went then Linked(next) else if op.AllocDbc? && went then !Linked(next)
        else Linked(next) == Linked(c))
    && (op.ExecDirect? && went ==> IsReady(next.driver, next.stmt))
  }

  // A connection that both have keeps its timeout.
  predicate SameTimeout(c: Conn, next: Conn) {
    c.dbc != 0 && next.dbc == c.dbc ==> IsReady(next.driver, c.dbc) == IsReady(c.driver, c.dbc)
  }

  lemma CheckedMoves(c: Conn, op: Op)
    requires Ready(c, op)
    ensures var (next, went) := Checked(c, op); Moves(c, op, next, went)
  {
    PerformFrame(c, op);
    if !Good(Perform(c, op).1) {
      FailureKeeps(c, op);
    } else if op.AllocEnv? || op.AllocDbc? || op.AllocStmt? {
      AllocKeeps(c, op);
    } else {
      CallKeeps(c, op);
    }
  }

  ghost predicate Reliable(call: Caller) {
    forall c, op :: Ready(c, op) ==> Moves(c, op, call(c, op).0, call(c, op).1)
  }

  lemma CheckedIsReliable()
    ensures Reliable(Checked)
  {
    forall c, op | Ready(c, op)
      ensures Moves(c, op, Checked(c, op).0, Checked(c, op).1)
    {
      CheckedMoves(c, op);
    }
  }

  // The next n answers let their calls pass.
  predicate AllWent(d: Driver, n: int) {
    forall j: nat :: j < n ==> Went(d, j)
  }

  lemma AllWentAfter(d: Driver, e: Driver, n: nat)
    requires e.calls == d.calls + 1 && e.answers == d.answers
    ensures AllWent(d, n + 1) <==> Went(d, 0) && AllWent(e, n)
  {
    if Went(d, 0) && AllWent(e, n) {
      forall j: nat | j < n + 1
        ensures Went(d, j)
      {
        if j > 0 {
          assert Went(e, j - 1);
        }
      }
    }
    if AllWent(d, n + 1) {
      forall j: nat | j < n
        ensures Went(e, j)
      {
        assert Went(d, j + 1);
      }
    }
  }

  // Building up from the i-th call on.
  lemma {:induction false} BuiltUp(call: Caller, c: Conn, i: nat)
    requires Reliable(call)
    requires i <= 5 && HandlesInv(c) && c.stmt == 0 && (c.env != 0 <==> i > 0) && (c.dbc != 0 <==> i > 2)
    requires (i > 1 ==> c.driver.live[c.env].ready) && (i > 3 ==> c.driver.live[c.dbc].ready) && (Linked(c) <==> i == 5)
    ensures var (next, ok) := PerformFrom(call, c, CONNECT_OPS, i);
            var d := c.driver;
            && HandlesInv(next) && next.stmt == 0
            && next.driver.store == d.store
            && next.driver.refused == d.refused + (if i == 0 && !Went(d, 0) then 1 else 0)
            && (ok <==> AllWent(d, 5 - i))
            && (next.env != 0 <==> AllWent(d, 1 - i))
            && (next.dbc != 0 <==> AllWent(d, 3 - i))
            && (ok <==> Linked(next)) && (ok ==> next.driver.live[next.dbc].ready)
    decreases 5 - i
  {
    if i == 5 {
    } else {
      assert Ready(c, CONNECT_OPS[i]);
      var next, went := call(c, CONNECT_OPS[i]).0, call(c, CONNECT_OPS[i]).1;
      if went {
        BuiltUp(call, next, i + 1);
        AllWentAfter(c.driver, next.driver, 4 - i);
        if i <= 2 {
          AllWentAfter(c.driver, next.driver, 2 - i);
        }
      }
    }
  }

  lemma ConnectByExactly(call: Caller, c: Conn)
    requires Reliable(call) && HandlesInv(c) && c.env == 0 && c.dbc == 0 && c.stmt == 0
    ensures var (next, ok) := ConnectBy(call, c);
            var d := c.driver;
            && IdleInv(next)
            && next.connected == ok
            && next.driver.store == d.store
            && (ok <==> AllWent(d, 5))
            && (next.env != 0 <==> AllWent(d, 1))
            && (next.dbc != 0 <==> AllWent(d, 3))
            && next.driver.refused == d.refused + (if Went(d, 0) then 0 else 1)
  {
    BuiltUp(call, c, 0);
    var next, ok := PerformFrom(call, c, CONNECT_OPS, 0).0, PerformFrom(call, c, CONNECT_OPS, 0).1;
    assert HandlesInv(next.(connected := ok));
    assert AllWent(c.driver, 5) ==> AllWent(c.driver, 1) && AllWent(c.driver, 3);
  }

  // Connecting succeeds if and only if all five calls do; otherwise what was built before the first
  // failing call stays for the next disconnect, and nothing else is live. Only a refused environment has
  // the driver asked about the null handle.
  lemma ConnectExactly(c: Conn)
    requires HandlesInv(c)
    ensures var (next, ok) := ConnectStep(c);
            var d := c.driver;
            && IdleInv(next)
            && next.connected == ok
            && next.driver.store == d.store
            && (ok <==> AllWent(d, 5))
            && (next.env != 0 <==> AllWent(d, 1))
            && (next.dbc != 0 <==> AllWent(d, 3))
            && next.driver.nullUses == d.nullUses + (if Went(d, 0) then 0 else 1)
  {
    DisconnectReleasesAll(c);
    CheckedIsReliable();
    ConnectByExactly(Checked, DisconnectStep(c));
    assert forall i :: Went(DisconnectStep(c).driver, i) <==> Went(c.driver, i);
    assert AllWent(c.driver, 5) <==> AllWent(DisconnectStep(c).driver, 5);
  }

  // The object says that it is connected if and only if it is, the driver can be asked, and the connection is
  // not dead; asking changes nothing else.
  lemma IsConnectedExactly(c: Conn)
    requires IdleInv(c)
    ensures var (next, up) := IsConnectedStep(c);
            var d := c.driver;
            && IdleInv(next)
            && next == c.(driver := d.(calls := next.driver.calls))
            && (up <==> c.connected && Went(d, 0) && !d.answers(d.calls).dead)
            && next.driver.calls == d.calls + (if !c.connected then 0 else if Went(d, 0) then 1 else 2)
  {
    if c.connected {
      UseOnlyCalls(c.driver, c.dbc, Dbc, Reply(c.driver).code);
      HandlesStay(c, IsConnectedStep(c).0.driver);
    }
  }

  // Statements

  // Nothing but calls that use live handles: the handles stay, and so do the tables.
  ghost predicate OnlyCalls(d: Driver, e: Driver) {
    SameHandles(d, e) && e.store == d.store && e.answers == d.answers
  }

  // What a statement does once it is allocated and executed.
  ghost predicate Executed(d: Driver, statement: Statement, e: Driver) {
    && e.store == Effect(d, statement, 0).store
    && (statement.CountAll? ==> e.isCount && e.count == |d.store.Rows(statement.table)|)
    && (statement.Other? || statement.LastInsertId? ==> !e.isCount)
    && e.rowsLeft == ResultSize(statement, d.answers(d.calls + 1))
  }

  // Only a refused statement has the driver asked about the null handle.
  function Refusal(c: Conn): nat {
    if c.connected && !Went(c.driver, 0) then 1 else 0
  }

  lemma TwoCalls(call: Caller, c: Conn, a: Op, b: Op)
    ensures PerformFrom(call, c, [a, b], 0) == if call(c, a).1 then call(call(c, a).0, b) else call(c, a)
  {
    var next := call(c, a).0;
    assert PerformFrom(call, next, [a, b], 1) == call(next, b);
  }

  // What executing a statement does, when it passes.
  lemma ExecEffect(c: Conn, statement: Statement)
    requires Went(c.driver, 0) && c.stmt in c.driver.live
    ensures var (next, went) := Checked(c, ExecDirect(statement));
            && went && next.driver.store == Effect(c.driver, statement, 0).store
            && (statement.CountAll? ==>
                  next.driver.isCount && next.driver.count == |c.driver.store.Rows(statement.table)|)
            && (statement.Other? || statement.LastInsertId? ==> !next.driver.isCount)
            && next.driver.rowsLeft == ResultSize(statement, Reply(c.driver))
  {
  }

  lemma BeginExactly(c: Conn, statement: Statement)
    requires IdleInv(c) && c.connected
    ensures var (begun, ok) := Begin(c, statement);
            var d := c.driver;
            && HandlesInv(begun)
            && begun.env == c.env && SameLink(c, begun) && begun.connected
            && (ok <==> Went(d, 0) && Went(d, 1))
            && (ok ==> IsOpen(begun.driver, begun.stmt)
                       && begun.driver.calls == d.calls + 2 && begun.driver.answers == d.answers)
            && (if ok then Executed(d, statement, begun.driver) else begun.driver.store == d.store)
            && begun.driver.refused == d.refused + Refusal(c)
  {
    TwoCalls(Checked, c, AllocStmt, ExecDirect(statement));
    CheckedMoves(c, AllocStmt);
    var (next, went) := Checked(c, AllocStmt);
    if went {
      CheckedMoves(next, ExecDirect(statement));
      if Went(next.driver, 0) {
        ExecEffect(next, statement);
      }
    }
  }

  // Giving the statement back restores an idle object, with the same two handles as before.
  ghost predicate Restored(c: Conn, next: Conn) {
    && IdleInv(next) && next.env == c.env && next.dbc == c.dbc && next.connected == c.connected
    && next.driver.nullUses == c.driver.nullUses + Refusal(c)
  }

  // A statement begun on c, successfully or not.
  ghost predicate Begun(c: Conn, begun: Conn) {
    && IdleInv(c) && HandlesInv(begun)
    && begun.env == c.env && SameLink(c, begun) && begun.connected == c.connected
    && begun.driver.refused == c.driver.refused + Refusal(c)
  }

  lemma ReleaseRestores(c: Conn, begun: Conn, d: Driver)
    requires Begun(c, begun) && OnlyCalls(begun.driver, d)
    ensures Restored(c, Release(begun.(driver := d))) && Release(begun.(driver := d)).driver.store == begun.driver.store
  {
    HandlesStay(begun, d);
    ReleaseKeeps(begun.(driver := d));
  }

  // A statement that has been executed.
  predicate IsOpen(d: Driver, stmt: nat) {
    stmt != 0 && IsLive(d, stmt, Stmt) && d.live[stmt].ready
  }

  lemma UseOnlyCalls(d: Driver, h: nat, kind: Kind, ret: Ret)
    requires IsLive(d, h, kind) && h != 0
    ensures OnlyCalls(d, Use(d, h, kind)) && OnlyCalls(d, Diagnose(Use(d, h, kind), ret, h, kind))
  {
  }

  // Fetching, reading the number and asking for a diagnosis use the live statement and nothing else.
  lemma FetchOnlyCalls(d: Driver, stmt: nat)
    requires IsOpen(d, stmt)
    ensures var e := Fetch(d, stmt).0;
            var (f, got, _) := GetNumber(e, stmt);
            OnlyCalls(d, e) && OnlyCalls(d, f) && OnlyCalls(d, Diagnose(f, got, stmt, Stmt))
  {
    var e := Fetch(d, stmt).0;
    UseOnlyCalls(e, stmt, Stmt, GetNumber(e, stmt).1);
  }

  lemma FetchThenRelease(c: Conn, begun: Conn)
    requires Begun(c, begun) && IsOpen(begun.driver, begun.stmt)
    ensures var d := Fetch(begun.driver, begun.stmt).0;
            var (e, got, _) := GetNumber(d, begun.stmt);
            var f := Diagnose(e, got, begun.stmt, Stmt);
            && Restored(c, Release(begun.(driver := d)))
            && Release(begun.(driver := d)).driver.store == begun.driver.store
            && Restored(c, Release(begun.(driver := e)))
            && Release(begun.(driver := e)).driver.store == begun.driver.store
            && Restored(c, Release(begun.(driver := f)))
            && Release(begun.(driver := f)).driver.store == begun.driver.store
  {
    var d := Fetch(begun.driver, begun.stmt).0;
    var (e, got, _) := GetNumber(d, begun.stmt);
    FetchOnlyCalls(begun.driver, begun.stmt);
    ReleaseRestores(c, begun, d);
    ReleaseRestores(c, begun, e);
    ReleaseRestores(c, begun, Diagnose(e, got, begun.stmt, Stmt));
  }

  // A statement is executed, and takes effect, if and only if the object is connected and the driver
  // lets both the allocation and the execution pass.
  lemma ExecuteExactly(c: Conn, statement: Statement)
    requires IdleInv(c)
    ensures var (next, ok) := ExecuteStep(c, statement);
            var d := c.driver;
            && Restored(c, next)
            && (ok <==> c.connected && Went(d, 0) && Went(d, 1))
            && next.driver.store == (if ok then Effect(d, statement, 0).store else d.store)
  {
    if c.connected {
      BeginExactly(c, statement);
      var begun := Begin(c, statement).0;
      ReleaseRestores(c, begun, begun.driver);
    }
  }

  lemma LastIdKeeps(c: Conn, statement: Statement)
    requires IdleInv(c)
    ensures Restored(c, LastIdStep(c, statement).0)
    ensures statement.LastInsertId? ==> LastIdStep(c, statement).0.driver.store == c.driver.store
  {
    if c.connected {
      BeginExactly(c, statement);
      var (begun, ok) := Begin(c, statement);
      if ok {
        FetchThenRelease(c, begun);
      } else {
        ReleaseRestores(c, begun, begun.driver);
      }
    }
  }

  // The last id is what the driver gives after four calls that pass; it is 0 when there is no row or the
  // fetch fails, and -1 when any other call fails.
  lemma LastIdExactly(c: Conn, table: Table)
    requires IdleInv(c)
    ensures var d := c.driver;
            LastIdStep(c, LastInsertId(table)).1 ==
            if !c.connected || !Went(d, 0) || !Went(d, 1) then -1
            else if d.answers(d.calls + 1).rows == 0 || !Went(d, 2) then 0
            else if !Went(d, 3) then -1
            else d.answers(d.calls + 3).number
  {
    if c.connected {
      BeginExactly(c, LastInsertId(table));
    }
  }

  lemma CountKeeps(c: Conn, statement: Statement)
    requires IdleInv(c)
    ensures Restored(c, CountStep(c, statement).0)
    ensures statement.CountAll? ==> CountStep(c, statement).0.driver.store == c.driver.store
  {
    if c.connected {
      BeginExactly(c, statement);
      var (begun, ok) := Begin(c, statement);
      if ok {
        FetchThenRelease(c, begun);
      } else {
        ReleaseRestores(c, begun, begun.driver);
      }
    }
  }

  // A count can be had if and only if the object is connected, all four calls pass, the fetch even without
  // reservation, and the number of rows fits the 32 bits asked for. Then it is that number, else -1.
  lemma CountExactly(c: Conn, table: Table)
    requires IdleInv(c)
    ensures var d := c.driver;
            CountStep(c, CountAll(table)).1 ==
            if c.connected && Went(d, 0) && Went(d, 1) && d.answers(d.calls + 2).code == SqlSuccess && Went(d, 3)
               && |d.store.Rows(table)| < INT_LIMIT
            then |d.store.Rows(table)| else -1
  {
    if c.connected {
      BeginExactly(c, CountAll(table));
    }
  }

  // What is put into a row for a column.
  function Cell(a: Answer): string {
    if Good(a.code) then a.text else ""
  }

  lemma {:induction false} ReadRowExactly(d: Driver, stmt: nat, columns: nat)
    requires IsOpen(d, stmt)
    ensures var (e, row) := ReadRow(d, stmt, columns);
            && OnlyCalls(d, e) && e.calls == d.calls + columns
            && forall j :: 0 <= j < columns ==> row[j] == Cell(d.answers(d.calls + j))
  {
    if columns == 0 {
    } else {
      ReadRowExactly(d, stmt, columns - 1);
    }
  }

  // The call that fetches row i, when the first is call number first.
  function FetchAt(first: nat, columns: nat, i: nat): nat {
    first + i * (columns + 1)
  }

  lemma FetchAtNext(first: nat, columns: nat, i: nat)
    ensures FetchAt(first + (columns + 1), columns, i) == FetchAt(first, columns, i + 1)
  {
    assert (i + 1) * (columns + 1) == i * (columns + 1) + (columns + 1);
  }

  // The row fetched by a call: the fetch was a plain success, and the answers after it are the cells.
  ghost predicate IsRow(answers: nat -> Answer, at: nat, columns: nat, row: seq<string>) {
    answers(at).code == SqlSuccess && |row| == columns
    && forall j :: 0 <= j < columns ==> row[j] == Cell(answers(at + 1 + j))
  }

  // The fetch of row i is a plain success.
  predicate Fetches(answers: nat -> Answer, first: nat, columns: nat, i: nat) {
    answers(FetchAt(first, columns, i)).code == SqlSuccess
  }

  predicate AllFetched(answers: nat -> Answer, first: nat, columns: nat, size: nat) {
    forall i: nat :: i < size ==> Fetches(answers, first, columns, i)
  }

  // The rows up to the first fetch that is not a plain success, or to the end of the result set.
  ghost predicate AreRows(d: Driver, columns: nat, rows: seq<seq<string>>) {
    && |rows| <= d.rowsLeft
    && (forall i :: 0 <= i < |rows| ==> IsRow(d.answers, FetchAt(d.calls, columns, i), columns, rows[i]))
    && (|rows| < d.rowsLeft ==> !Fetches(d.answers, d.calls, columns, |rows|))
  }

  lemma OneRowMore(d: Driver, e: Driver, columns: nat, row: seq<string>, rows: seq<seq<string>>)
    requires e.answers == d.answers && e.calls == d.calls + (columns + 1) && e.rowsLeft + 1 == d.rowsLeft
    requires IsRow(d.answers, d.calls, columns, row) && AreRows(e, columns, rows)
    ensures AreRows(d, columns, [row] + rows)
  {
    forall i | 0 <= i < |rows| + 1
      ensures IsRow(d.answers, FetchAt(d.calls, columns, i), columns, ([row] + rows)[i])
    {
      if i > 0 {
        FetchAtNext(d.calls, columns, i - 1);
      }
    }
    FetchAtNext(d.calls, columns, |rows|);
  }

  lemma {:induction false} ReadRowsExactly(d: Driver, stmt: nat, columns: nat)
    requires IsOpen(d, stmt)
    ensures var (e, rows) := ReadRows(d, stmt, columns); OnlyCalls(d, e) && AreRows(d, columns, rows)
    decreases d.rowsLeft
  {
    var (fetched, ret) := Fetch(d, stmt);
    if ret != SqlSuccess {
    } else {
      ReadRowExactly(fetched, stmt, columns);
      var (after, row) := ReadRow(fetched, stmt, columns);
      ReadRowsExactly(after, stmt, columns);
      OneRowMore(d, after, columns, row, ReadRows(after, stmt, columns).1);
    }
  }

  lemma CollectExactly(d: Driver, stmt: nat)
    requires IsOpen(d, stmt)
    ensures var (e, rows) := Collect(d, stmt);
            && OnlyCalls(d, e)
            && (if Went(d, 0) then AreRows(d.(calls := d.calls + 1), Reply(d).columns, rows) else rows == [])
  {
    UseOnlyCalls(d, stmt, Stmt, Reply(d).code);
    if Went(d, 0) {
      ReadRowsExactly(UseResult(d, stmt), stmt, Reply(d).columns);
    }
  }

  lemma SelectKeeps(c: Conn, statement: Statement)
    requires IdleInv(c)
    ensures Restored(c, SelectStep(c, statement).0)
    ensures SelectStep(c, statement).0.driver.store
            == (if c.connected && Went(c.driver, 0) && Went(c.driver, 1)
                then Effect(c.driver, statement, 0).store else c.driver.store)
  {
    if c.connected {
      BeginExactly(c, statement);
      var (begun, ok) := Begin(c, statement);
      if ok {
        CollectExactly(begun.driver, begun.stmt);
        ReleaseRestores(c, begun, Collect(begun.driver, begun.stmt).0);
      } else {
        ReleaseRestores(c, begun, begun.driver);
      }
    }
  }

  // How many rows a statement leaves to be fetched, when its execution is answered by a.
  function ResultSize(statement: Statement, a: Answer): nat {
    match statement
    case CountAll(_) => 1
    case LastInsertId(_) => a.rows
    case Other => a.rows
    case _ => 0
  }

  // The rows collected are the whole result set if and only if every fetch of a row is a plain success.
  lemma RowsGiven(d: Driver, columns: nat, rows: seq<seq<string>>)
    requires Went(d, 0) ==> AreRows(d.(calls := d.calls + 1), columns, rows)
    ensures Went(d, 0) ==>
              && |rows| <= d.rowsLeft
              && (forall i :: 0 <= i < |rows| ==> IsRow(d.answers, FetchAt(d.calls + 1, columns, i), columns, rows[i]))
              && (|rows| == d.rowsLeft <==> AllFetched(d.answers, d.calls + 1, columns, d.rowsLeft))
  {
    if Went(d, 0) && |rows| == d.rowsLeft {
      var first := d.calls + 1;
      forall i: nat | i < d.rowsLeft
        ensures Fetches(d.answers, first, columns, i)
      {
        assert IsRow(d.answers, FetchAt(first, columns, i), columns, rows[i]);
      }
    }
  }

  // A query gives no rows unless the object is connected and the three calls before the first fetch pass. Then
  // it gives a row for each leading fetch that is a plain success, each cell being the driver's text or empty;
  // so it gives the whole result set if and only if every fetch of a row is a plain success.
  lemma SelectExactly(c: Conn, statement: Statement)
    requires IdleInv(c)
    ensures var rows := SelectStep(c, statement).1;
            var d := c.driver;
            if !c.connected || !Went(d, 0) || !Went(d, 1) || !Went(d, 2) then rows == []
            else
              var size, columns := ResultSize(statement, d.answers(d.calls + 1)), d.answers(d.calls + 2).columns;
              && |rows| <= size
              && (forall i :: 0 <= i < |rows| ==> IsRow(d.answers, FetchAt(d.calls + 3, columns, i), columns, rows[i]))
              && (|rows| == size <==> AllFetched(d.answers, d.calls + 3, columns, size))
  {
    if c.connected {
      BeginExactly(c, statement);
      var (begun, ok) := Begin(c, statement);
      if ok {
        CollectExactly(begun.driver, begun.stmt);
        RowsGiven(begun.driver, Reply(begun.driver).columns, Collect(begun.driver, begun.stmt).1);
      }
    }
  }

  // Runs

  datatype Request =
    | Connect
    | Disconnect
    | IsConnected
    | Execute(statement: Statement)
    | LastId(statement: Statement)
    | Count(statement: Statement)
    | Select(statement: Statement)

  function Serve(c: Conn, r: Request): Conn {
    match r
    case Connect => ConnectStep(c).0
    case Disconnect => DisconnectStep(c)
    case IsConnected => IsConnectedStep(c).0
    case Execute(statement) => ExecuteStep(c, statement).0
    case LastId(statement) => LastIdStep(c, statement).0
    case Count(statement) => CountStep(c, statement).0
    case Select(statement) => SelectStep(c, statement).0
  }

  function ServeAll(c: Conn, rs: seq<Request>): Conn
    decreases |rs|
  {
    if rs == [] then c else ServeAll(Serve(c, rs[0]), rs[1..])
  }

  lemma ServeKeeps(c: Conn, r: Request)
    requires IdleInv(c)
    ensures IdleInv(Serve(c, r))
  {
    match r
    case Connect => ConnectExactly(c);
    case Disconnect => DisconnectReleasesAll(c);
    case IsConnected =>
      IsConnectedExactly(c);
    case Execute(statement) => ExecuteExactly(c, statement);
    case LastId(statement) => LastIdKeeps(c, statement);
    case Count(statement) => CountKeeps(c, statement);
    case Select(statement) => SelectKeeps(c, statement);
  }

  lemma {:induction false} ServeAllKeeps(c: Conn, rs: seq<Request>)
    requires IdleInv(c)
    ensures IdleInv(ServeAll(c, rs))
    decreases |rs|
  {
    if rs == [] {
    } else {
      ServeKeeps(c, rs[0]);
      ServeAllKeeps(Serve(c, rs[0]), rs[1..]);
    }
  }

  // A driver to which nobody holds a handle.
  ghost predicate Unused(d: Driver) {
    d.live == map[] && !d.misuse && d.nullUses == 0 && d.refused == 0 && d.nextHandle > 0
  }

  // On every run of a new object, whatever the driver answers: between calls the live handles are exactly
  // the fields that are not null, none is a statement, and no handle was freed twice, too early or used
  // after its end; once the object is destroyed, no handle is live.
  lemma NoLeaksNoDoubleFrees(d: Driver, rs: seq<Request>)
    requires Unused(d)
    ensures var c := ServeAll(Fresh(d), rs);
            && c.driver.live.Keys == Handle(c.env) + Handle(c.dbc)
            && c.stmt == 0
            && !c.driver.misuse
            && (c.connected <==> Linked(c))
            && (c.connected ==> c.env != 0 && c.dbc != 0)
            && DisconnectStep(c).driver.live == map[]
            && !DisconnectStep(c).driver.misuse
  {
    ServeAllKeeps(Fresh(d), rs);
    DisconnectReleasesAll(ServeAll(Fresh(d), rs));
  }

  // Whether a request has an environment or a statement refused to it: its first allocation fails.
  predicate IsRefused(c: Conn, r: Request) {
    !Went(c.driver, 0) && match r
                          case Connect => true
                          case Disconnect => false
                          case IsConnected => false
                          case _ => c.connected
  }

  // How many of the requests of a run are refused in this way.
  function Refusals(c: Conn, rs: seq<Request>): nat
    decreases |rs|
  {
    if rs == [] then 0
    else (if IsRefused(c, rs[0]) then 1 else 0) + Refusals(Serve(c, rs[0]), rs[1..])
  }

  lemma ServeNullUses(c: Conn, r: Request)
    requires IdleInv(c)
    ensures Serve(c, r).driver.nullUses == c.driver.nullUses + (if IsRefused(c, r) then 1 else 0)
  {
    match r
    case Connect => ConnectExactly(c);
    case Disconnect => DisconnectReleasesAll(c);
    case IsConnected =>
    case Execute(statement) => ExecuteExactly(c, statement);
    case LastId(statement) => LastIdKeeps(c, statement);
    case Count(statement) => CountKeeps(c, statement);
    case Select(statement) => SelectKeeps(c, statement);
  }

  // The driver is handed the null handle exactly once for every environment or statement that it refused,
  // when it is then asked for a diagnosis, and at no other time.
  lemma {:induction false} NullHandleExactly(c: Conn, rs: seq<Request>)
    requires IdleInv(c)
    ensures ServeAll(c, rs).driver.nullUses == c.driver.nullUses + Refusals(c, rs)
    decreases |rs|
  {
    if rs == [] {
    } else {
      ServeNullUses(c, rs[0]);
      ServeKeeps(c, rs[0]);
      NullHandleExactly(Serve(c, rs[0]), rs[1..]);
    }
  }
}
