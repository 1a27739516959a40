/**
 * The connection pool of gpu_watcher/store.py. The three sections under `_pool_lock` are methods of a
 * class; between them, any number of operations take their steps in any order.
 */
module ConnectionPool {
  import opened Models

  type ConnId = nat
  type OpId = nat

  /** What the lock protects, and the connections closed so far. */
  datatype Shared = Shared(idle: seq<ConnId>, closed: bool, finalized: bool, shut: set<ConnId>)

  datatype Acquired = Refused | Miss | Hit(conn: ConnId)

  function Taken(s: Shared): (Shared, Acquired) {
    if s.closed then (s, Refused)
    else if s.idle != [] then (s.(idle := s.idle[..|s.idle| - 1]), Hit(s.idle[|s.idle| - 1]))
    else (s, Miss)
  }

  function GivenBack(s: Shared, conn: ConnId, reusable: bool): Shared {
    if reusable && !s.closed && s.idle == [] then s.(idle := [conn]) else s.(shut := s.shut + {conn})
  }

  /** The finalizer runs at most once; later calls do nothing. */
  function Closed(s: Shared): Shared {
    if s.finalized then s.(closed := true) else Shared([], true, true, s.shut + Elements(s.idle))
  }

  class Pool {
    var idle: seq<ConnId>
    var closed: bool
    var finalized: bool
    ghost var shut: set<ConnId>

    ghost function State(): Shared
      reads this
    {
      Shared(idle, closed, finalized, shut)
    }

    constructor ()
      ensures State() == Shared([], false, false, {})
    {
      idle, closed, finalized, shut := [], false, false, {};
    }

    /** The locked section of `_acquire`. */
    method Take() returns (r: Acquired)
      modifies this
      ensures (State(), r) == Taken(old(State()))
    {
      if closed {
        r := Refused;
      } else if idle != [] {
        r := Hit(idle[|idle| - 1]);
        idle := idle[..|idle| - 1];
      } else {
        r := Miss;
      }
    }

    /** The locked section of `connect`'s exit. */
    method GiveBack(conn: ConnId, reusable: bool)
      modifies this
      ensures State() == GivenBack(old(State()), conn, reusable)
    {
      if reusable && !closed && idle == [] {
        idle := idle + [conn];
      } else {
        shut := shut + {conn};
      }
    }

    /** `close`: the finalizer pops and closes the idle connections. */
    method Close()
      modifies this
      ensures State() == Closed(old(State()))
    {
      closed := true;
      if !finalized {
        finalized := true;
        ghost var before := idle;
        while idle != []
          invariant idle <= before && closed && finalized
          invariant shut == old(shut) + Elements(before[|idle|..])
        {
          var n := |idle| - 1;
          assert before[n..] == [idle[n]] + before[n + 1..];
          shut := shut + {idle[n]};
          idle := idle[..n];
        }
        assert before[0..] == before;
      }
    }
  }

  /** A connection returned clean to an open, empty pool is the next one lent, and then the pool is empty again. */
  lemma ReturnedIsLentNext(s: Shared, conn: ConnId)
    ensures !s.closed && s.idle == [] ==>
              Taken(GivenBack(s, conn, true)) == (s, Hit(conn)) && conn !in GivenBack(s, conn, true).shut - s.shut
  {
    assert [conn][..0] == [];
  }

  /** Any other return closes it. */
  lemma OtherwiseReturnedIsClosed(s: Shared, conn: ConnId, reusable: bool)
    requires !reusable || s.closed || s.idle != []
    ensures conn in GivenBack(s, conn, reusable).shut && Taken(GivenBack(s, conn, reusable)).1 == Taken(s).1
  {
  }

  // ----- all interleavings -----

  /** Where an operation is: past the closed check without a connection, inside the body, or on its way out. */
  datatype Phase = Opening | Using(conn: ConnId) | Leaving(conn: ConnId, reusable: bool)

  datatype System = System(shared: Shared, ops: map<OpId, Phase>, created: set<ConnId>, dirty: set<ConnId>)

  const INITIAL := System(Shared([], false, false, {}), map[], {}, {})

  datatype Step =
    | Acquire(op: OpId)
    | Open(op: OpId, conn: ConnId)
    | OpenFails(op: OpId)
    | SetupFails(op: OpId, conn: ConnId)
    | Write(op: OpId)
    | Commit(op: OpId)
    | Rollback(op: OpId)
    | RollbackFails(op: OpId)
    | Release(op: OpId)
    | CloseStore

  predicate Can(s: System, a: Step) {
    match a
    case Acquire(op) => op !in s.ops
    case Open(op, conn) => op in s.ops && s.ops[op].Opening? && conn !in s.created
    case OpenFails(op) => op in s.ops && s.ops[op].Opening?
    case SetupFails(op, conn) => op in s.ops && s.ops[op].Opening? && conn !in s.created
    case Release(op) => op in s.ops && s.ops[op].Leaving?
    case CloseStore => true
    case _ => a.op in s.ops && s.ops[a.op].Using?
  }

  function Next(s: System, a: Step): System
    requires Can(s, a)
  {
    match a
    case Acquire(op) =>
      var (shared, got) := Taken(s.shared);
      s.(shared := shared, ops := match got
                                  case Refused => s.ops
                                  case Miss => s.ops[op := Opening]
                                  case Hit(conn) => s.ops[op := Using(conn)])
    case Open(op, conn) => s.(ops := s.ops[op := Using(conn)], created := s.created + {conn})
    case OpenFails(op) => s.(ops := s.ops - {op})
    case SetupFails(op, conn) =>
      s.(ops := s.ops - {op}, created := s.created + {conn}, shared := s.shared.(shut := s.shared.shut + {conn}))
    case Write(op) => s.(dirty := s.dirty + {s.ops[op].conn})
    case Commit(op) => s.(dirty := s.dirty - {s.ops[op].conn}, ops := s.ops[op := Leaving(s.ops[op].conn, true)])
    case Rollback(op) => s.(dirty := s.dirty - {s.ops[op].conn}, ops := s.ops[op := Leaving(s.ops[op].conn, true)])
    case RollbackFails(op) => s.(ops := s.ops[op := Leaving(s.ops[op].conn, false)])
    case Release(op) =>
      s.(shared := GivenBack(s.shared, s.ops[op].conn, s.ops[op].reusable), ops := s.ops - {op})
    case CloseStore => s.(shared := Closed(s.shared))
  }

  /** Where these steps lead, if each is possible when it is taken. */
  function After(steps: seq<Step>): Option<System> {
    if steps == [] then Some(INITIAL)
    else
      var n := |steps| - 1;
      var before := After(steps[..n]);
      if before.Some? && Can(before.value, steps[n]) then Some(Next(before.value, steps[n])) else None
  }

  predicate Holds(s: System, op: OpId, conn: ConnId) {
    op in s.ops && !s.ops[op].Opening? && s.ops[op].conn == conn
  }

  /** No connection is borrowed twice, and a borrowed one is open and not idle. */
  ghost predicate Exclusive(s: System) {
    && (forall p, q, c | Holds(s, p, c) && Holds(s, q, c) :: p == q)
    && (forall p, c | Holds(s, p, c) :: c in s.created && c !in s.shared.shut && c !in s.shared.idle)
  }

  /** At most one connection is idle; it is open and carries no uncommitted work. */
  ghost predicate IdleClean(s: System) {
    && |s.shared.idle| <= 1
    && (forall c | c in s.shared.idle :: c in s.created && c !in s.shared.shut && c !in s.dirty)
    && (forall op | op in s.ops && s.ops[op].Leaving? && s.ops[op].reusable :: s.ops[op].conn !in s.dirty)
  }

  /** Every connection ever opened is closed, idle or borrowed. */
  ghost predicate Accounted(s: System) {
    && s.shared.shut <= s.created
    && forall c | c in s.created :: c in s.shared.shut || c in s.shared.idle || Borrowed(s, c)
  }

  ghost predicate Borrowed(s: System, c: ConnId) {
    exists op :: Holds(s, op, c)
  }

  ghost predicate ClosedIsFinal(s: System) {
    && (s.shared.closed <==> s.shared.finalized)
    && (s.shared.closed ==> s.shared.idle == [])
  }

  ghost predicate Invariant(s: System) {
    Exclusive(s) && IdleClean(s) && Accounted(s) && ClosedIsFinal(s)
  }

  /** An operation that keeps its connection, or has none, borrows what it borrowed. */
  lemma {:induction false} SameBorrowed(s: System, t: System, op: OpId)
    requires op in s.ops
    requires t.ops == s.ops - {op} ==> s.ops[op].Opening?
    requires t.ops != s.ops - {op} ==>
               op in t.ops && t.ops == s.ops[op := t.ops[op]]
               && (s.ops[op].Opening? || (!t.ops[op].Opening? && t.ops[op].conn == s.ops[op].conn))
    ensures forall c | Borrowed(s, c) :: Borrowed(t, c)
  {
    forall c | Borrowed(s, c)
      ensures Borrowed(t, c)
    {
      var p :| Holds(s, p, c);
      assert Holds(t, p, c);
    }
  }

  lemma {:induction false} AcquireKeepsInvariant(s: System, op: OpId)
    requires Invariant(s) && Can(s, Acquire(op))
    ensures Invariant(Next(s, Acquire(op)))
  {
    var t := Next(s, Acquire(op));
    forall c | Borrowed(s, c)
      ensures Borrowed(t, c)
    {
      var p :| Holds(s, p, c);
      assert Holds(t, p, c);
    }
    if !s.shared.closed && s.shared.idle != [] {
      assert s.shared.idle == [s.shared.idle[0]];
      assert forall p, c :: Holds(t, p, c) <==> Holds(s, p, c) || (p == op && c == s.shared.idle[0]);
      assert Holds(t, op, s.shared.idle[0]);
    } else {
      assert forall p, c :: Holds(t, p, c) <==> Holds(s, p, c);
    }
  }

  lemma {:induction false} OpenKeepsInvariant(s: System, a: Step)
    requires Invariant(s) && Can(s, a) && (a.Open? || a.OpenFails? || a.SetupFails?)
    ensures Invariant(Next(s, a))
  {
    var t := Next(s, a);
    SameBorrowed(s, t, a.op);
    assert forall p, c :: Holds(t, p, c) <==> Holds(s, p, c) || (a.Open? && p == a.op && c == a.conn);
    if a.Open? {
      assert Holds(t, a.op, a.conn);
    }
  }

  lemma {:induction false} WorkKeepsInvariant(s: System, a: Step)
    requires Invariant(s) && Can(s, a) && (a.Write? || a.Commit? || a.Rollback? || a.RollbackFails?)
    ensures Invariant(Next(s, a))
  {
    var t := Next(s, a);
    var conn := s.ops[a.op].conn;
    assert Holds(s, a.op, conn);
    assert forall p, c :: Holds(t, p, c) <==> Holds(s, p, c);
    assert forall c | Borrowed(s, c) :: Borrowed(t, c);
    forall op | op in t.ops && t.ops[op].Leaving? && t.ops[op].reusable
      ensures t.ops[op].conn !in t.dirty
    {
      assert Holds(s, op, t.ops[op].conn);
    }
  }

  lemma {:induction false} ReleaseKeepsInvariant(s: System, op: OpId)
    requires Invariant(s) && Can(s, Release(op))
    ensures Invariant(Next(s, Release(op)))
  {
    var t := Next(s, Release(op));
    assert Holds(s, op, s.ops[op].conn);
    forall c | Borrowed(s, c) && c != s.ops[op].conn
      ensures Borrowed(t, c)
    {
      var p :| Holds(s, p, c);
      assert Holds(t, p, c);
    }
    assert forall p, c | Holds(t, p, c) :: Holds(s, p, c) && p != op;
  }

  lemma {:induction false} CloseKeepsInvariant(s: System)
    requires Invariant(s)
    ensures Invariant(Next(s, CloseStore))
  {
    var t := Next(s, CloseStore);
    assert forall p, c :: Holds(t, p, c) <==> Holds(s, p, c);
    assert forall c :: Borrowed(t, c) <==> Borrowed(s, c);
  }

  /** Whatever the interleaving. */
  lemma {:induction false} EveryInterleavingKeepsInvariant(steps: seq<Step>, s: System)
    requires After(steps) == Some(s)
    ensures Invariant(s)
  {
    if steps != [] {
      var n := |steps| - 1;
      var before := After(steps[..n]).value;
      EveryInterleavingKeepsInvariant(steps[..n], before);
      match steps[n]
      case Acquire(op) => AcquireKeepsInvariant(before, op);
      case Release(op) => ReleaseKeepsInvariant(before, op);
      case CloseStore => CloseKeepsInvariant(before);
      case Open(_, _) => OpenKeepsInvariant(before, steps[n]);
      case OpenFails(_) => OpenKeepsInvariant(before, steps[n]);
      case SetupFails(_, _) => OpenKeepsInvariant(before, steps[n]);
      case _ => WorkKeepsInvariant(before, steps[n]);
    }
  }

  /** No two operations ever use one connection, at most one is idle, and it has no uncommitted work. */
  lemma {:induction false} BorrowedExclusively(steps: seq<Step>)
    ensures After(steps).Some? ==>
              var s := After(steps).value;
              && (forall p, q, c | Holds(s, p, c) && Holds(s, q, c) :: p == q)
              && (forall p, c | Holds(s, p, c) :: c !in s.shared.idle && c !in s.shared.shut)
              && |s.shared.idle| <= 1 && forall c | c in s.shared.idle :: c !in s.dirty
  {
    if After(steps).Some? {
      EveryInterleavingKeepsInvariant(steps, After(steps).value);
    }
  }

  ghost predicate Settled(s: System) {
    s.shared.closed && s.ops == map[]
  }

  /** Once the store is closed and every borrower has returned, every connection ever opened is closed. */
  lemma {:induction false} ClosedStoreLeaksNothing(steps: seq<Step>)
    ensures After(steps).Some? && Settled(After(steps).value) ==>
              After(steps).value.shared.shut == After(steps).value.created
  {
    if After(steps).Some? {
      EveryInterleavingKeepsInvariant(steps, After(steps).value);
    }
  }

  /** A closed store lends nothing more, and takes no connection back into the pool. */
  lemma {:induction false} ClosedStaysClosed(steps: seq<Step>, a: Step)
    ensures After(steps).Some? && After(steps).value.shared.closed && Can(After(steps).value, a) ==>
              var s := After(steps).value;
              && Next(s, a).shared.closed && Next(s, a).shared.idle == []
              && (a.Acquire? ==> Next(s, a) == s)
  {
    if After(steps).Some? {
      EveryInterleavingKeepsInvariant(steps, After(steps).value);
    }
  }
}
