/** What the walk leaves out: when it stops at a statement that ends its block, and when it yields nothing too much. */
module RuntimePrecise {
  import opened RuntimeWalk
  import opened RuntimeReach

  // ---- A statement that never ends normally is recognised ----

  /**
   The blocks a statement may end in run on to their last statement: nothing in them is dead before it. No `with`
   swallows, and other statements than `if` and `with` can end normally.
   */
  predicate Legible(s: Stmt) {
    match s
    case IfConst(_, value, body, orelse) => if value then LegibleBlock(body) else LegibleBlock(orelse)
    case If(_, body, orelse) => LegibleBlock(body) && LegibleBlock(orelse)
    case With(_, swallows, body) => !swallows && LegibleBlock(body)
    case Return(_) => true
    case Raise(_) => true
    case SkipCall(_) => true
    case Break(_) => true
    case Continue(_) => true
    case _ => Normal in CanStmt(s)
  }

  predicate LegibleBlock(b: seq<Stmt>) {
    b != [] ==> if |b| == 1 then Legible(b[0]) else Normal in CanStmt(b[0]) && LegibleBlock(b[1..])
  }

  /** The walk takes such a statement for terminating exactly when it is. */
  lemma {:induction false} LegibleExactly(s: Stmt)
    requires Legible(s)
    ensures AlwaysTerminates(s) <==> Normal !in CanStmt(s)
    decreases s
  {
    match s
    case IfConst(_, value, body, orelse) => LegibleBlockExactly(if value then body else orelse);
    case If(_, body, orelse) =>
      LegibleBlockExactly(body);
      LegibleBlockExactly(orelse);
    case With(_, _, body) => LegibleBlockExactly(body);
    case _ =>
  }

  lemma {:induction false} LegibleBlockExactly(b: seq<Stmt>)
    requires LegibleBlock(b)
    ensures LastTerminates(b) <==> Normal !in CanBlock(b)
    decreases b
  {
    if |b| == 1 {
      LegibleExactly(b[0]);
      assert CanBlock(b[1..]) == {Normal};
    } else if b != [] {
      assert b[1..][|b| - 2] == b[|b| - 1];
      LegibleBlockExactly(b[1..]);
    }
  }

  /** Control never falls through such a statement exactly when the walk stops behind it. */
  lemma StopsWhereControlStops(s: Stmt)
    requires Legible(s)
    ensures AlwaysTerminates(s) <==> forall o: seq<nat> :: ExecStmt(s, o).out != Normal
  {
    LegibleExactly(s);
    if Normal in CanStmt(s) {
      var p := RealisedStmt(s, Normal);
      StmtEndsNow(s, p, Normal);
    } else {
      forall o: seq<nat> ensures ExecStmt(s, o).out != Normal { StmtWithin(s, o); }
    }
  }

  // ---- Programs on which the walk is exact ----

  /**
   Every statement with others behind it is legible, definitions evaluate nothing where they stand, and a `try`
   has handlers only for what can be raised and an `else` only where its body can end normally.
   */
  predicate TidyBlock(b: seq<Stmt>) {
    b != [] ==>
      && TidyStmt(b[0]) && (|b| > 1 ==> Legible(b[0]))
      && (Normal in CanStmt(b[0]) ==> TidyBlock(b[1..]))
  }

  predicate TidyStmt(s: Stmt) {
    match s
    case IfConst(_, value, body, orelse) => if value then TidyBlock(body) else TidyBlock(orelse)
    case If(_, body, orelse) => TidyBlock(body) && TidyBlock(orelse)
    case Loop(_, body, orelse) => TidyBlock(body) && TidyBlock(orelse)
    case Try(_, body, handlers, orelse, finalbody) =>
      && TidyBlock(body) && TidyClauses(handlers) && TidyBlock(orelse) && TidyBlock(finalbody)
      && (handlers != [] ==> Raised in CanBlock(body)) && (orelse != [] ==> Normal in CanBlock(body))
    case With(_, _, body) => TidyBlock(body)
    case Match(_, cases) => TidyClauses(cases)
    case Def(_, header, _) => header == []
    case Class(_, header, body) => header == [] && body == []
    case _ => true
  }

  predicate TidyClauses(cs: seq<Clause>) {
    cs != [] ==> TidyBlock(cs[0].body) && TidyClauses(cs[1..])
  }

  ghost predicate SameIds(walk: seq<nat>, reach: set<nat>) {
    forall id :: id in walk <==> id in reach
  }

  /** On such a program the walk yields exactly the statements that some execution reaches. */
  lemma {:induction false} TidyIsExact(b: seq<Stmt>)
    requires TidyBlock(b)
    ensures SameIds(WalkBlock(b), ReachBlock(b))
    decreases b
  {
    if b != [] {
      TidyStmtIsExact(b[0]);
      if |b| > 1 { LegibleExactly(b[0]); } else { assert b[1..] == []; }
      if Normal in CanStmt(b[0]) { TidyIsExact(b[1..]); }
    }
  }

  lemma {:induction false} TidyStmtIsExact(s: Stmt)
    requires TidyStmt(s)
    ensures SameIds(WalkStmt(s), ReachStmt(s))
    decreases s
  {
    match s
    case IfConst(_, value, body, orelse) => TidyIsExact(if value then body else orelse);
    case If(_, body, orelse) =>
      TidyIsExact(body);
      TidyIsExact(orelse);
    case Loop(_, body, orelse) =>
      TidyIsExact(body);
      TidyIsExact(orelse);
    case Try(_, body, handlers, orelse, finalbody) =>
      TidyIsExact(body);
      TidyClausesAreExact(handlers);
      TidyIsExact(orelse);
      TidyIsExact(finalbody);
    case With(_, _, body) => TidyIsExact(body);
    case Match(_, cases) => TidyClausesAreExact(cases);
    case _ =>
  }

  lemma {:induction false} TidyClausesAreExact(cs: seq<Clause>)
    requires TidyClauses(cs)
    ensures SameIds(WalkClauses(cs), ReachClauses(cs))
    decreases cs
  {
    if cs != [] {
      TidyIsExact(cs[0].body);
      TidyClausesAreExact(cs[1..]);
    }
  }

  /** A statement is yielded exactly when some execution reaches it. */
  lemma WalkIsExact(b: seq<Stmt>, id: nat)
    requires TidyBlock(b)
    ensures id in WalkBlock(b) <==> exists o: seq<nat> :: id in ExecBlock(b, o).trace
  {
    TidyIsExact(b);
    ReachedExactly(b, id);
  }

  // ---- When the walk yields nothing too much ----

  /** Whatever stands behind a statement at which the walk goes on, or in a part of a `try`, can be reached. */
  predicate PreciseBlock(b: seq<Stmt>) {
    b != [] ==>
      && PreciseStmt(b[0])
      && (|b| > 1 && !AlwaysTerminates(b[0]) ==> Normal in CanStmt(b[0]) && PreciseBlock(b[1..]))
  }

  predicate PreciseStmt(s: Stmt) {
    match s
    case IfConst(_, value, body, orelse) => if value then PreciseBlock(body) else PreciseBlock(orelse)
    case If(_, body, orelse) => PreciseBlock(body) && PreciseBlock(orelse)
    case Loop(_, body, orelse) => PreciseBlock(body) && PreciseBlock(orelse)
    case Try(_, body, handlers, orelse, finalbody) =>
      && PreciseBlock(body) && PreciseBlock(finalbody)
      && (if Raised in CanBlock(body) then PreciseClauses(handlers) else WalkClauses(handlers) == [])
      && (if Normal in CanBlock(body) then PreciseBlock(orelse) else orelse == [])
    case With(_, _, body) => PreciseBlock(body)
    case Match(_, cases) => PreciseClauses(cases)
    case _ => true
  }

  predicate PreciseClauses(cs: seq<Clause>) {
    cs != [] ==> PreciseBlock(cs[0].body) && PreciseClauses(cs[1..])
  }

  lemma {:induction false} PreciseIsReached(b: seq<Stmt>)
    requires PreciseBlock(b)
    ensures TraceIn(WalkBlock(b), ReachBlock(b))
    decreases b
  {
    if b != [] {
      PreciseStmtIsReached(b[0]);
      if |b| > 1 {
        if !AlwaysTerminates(b[0]) { PreciseIsReached(b[1..]); }
      } else {
        assert b[1..] == [];
      }
    }
  }

  lemma {:induction false} PreciseStmtIsReached(s: Stmt)
    requires PreciseStmt(s)
    ensures TraceIn(WalkStmt(s), ReachStmt(s))
    decreases s
  {
    match s
    case IfConst(_, value, body, orelse) => PreciseIsReached(if value then body else orelse);
    case If(_, body, orelse) =>
      PreciseIsReached(body);
      PreciseIsReached(orelse);
    case Loop(_, body, orelse) =>
      PreciseIsReached(body);
      PreciseIsReached(orelse);
    case Try(_, body, handlers, orelse, finalbody) =>
      PreciseIsReached(body);
      PreciseIsReached(finalbody);
      if Raised in CanBlock(body) { PreciseClausesAreReached(handlers); }
      if Normal in CanBlock(body) { PreciseIsReached(orelse); }
    case With(_, _, body) => PreciseIsReached(body);
    case Match(_, cases) => PreciseClausesAreReached(cases);
    case _ =>
  }

  lemma {:induction false} PreciseClausesAreReached(cs: seq<Clause>)
    requires PreciseClauses(cs)
    ensures TraceIn(WalkClauses(cs), ReachClauses(cs))
    decreases cs
  {
    if cs != [] {
      PreciseIsReached(cs[0].body);
      PreciseClausesAreReached(cs[1..]);
    }
  }

  /** Yielded, and not reached. */
  ghost predicate Superfluous(id: nat, walk: seq<nat>, reach: set<nat>) {
    id in walk && id !in reach
  }

  lemma {:induction false} ImpreciseYields(b: seq<Stmt>) returns (id: nat)
    requires DistinctBlock(b) && !PreciseBlock(b)
    ensures Superfluous(id, WalkBlock(b), ReachBlock(b))
    decreases b
  {
    InProgramStmt(b[0]);
    InProgram(b[1..]);
    if !PreciseStmt(b[0]) {
      id := ImpreciseStmtYields(b[0]);
    } else if Normal !in CanStmt(b[0]) {
      id := b[1].id;
      assert b[1..][0] == b[1] && id in WalkStmt(b[1]) && id in WalkBlock(b[1..]) && id in IdsBlock(b[1..]);
    } else {
      id := ImpreciseYields(b[1..]);
    }
  }

  lemma {:induction false} ImpreciseStmtYields(s: Stmt) returns (id: nat)
    requires DistinctStmt(s) && !PreciseStmt(s)
    ensures Superfluous(id, WalkStmt(s), ReachStmt(s))
    decreases s, 1
  {
    match s
    case IfConst(_, value, body, orelse) =>
      InProgram(if value then body else orelse);
      id := ImpreciseYields(if value then body else orelse);
    case If(_, body, orelse) => id := ImprecisePairYields(s, body, orelse);
    case Loop(_, body, orelse) => id := ImprecisePairYields(s, body, orelse);
    case Try(_, _, _, _, _) => id := ImpreciseTryYields(s);
    case With(_, _, body) =>
      InProgram(body);
      id := ImpreciseYields(body);
    case Match(_, cases) =>
      InProgramClauses(cases);
      id := ImpreciseClausesYield(cases);
  }

  lemma {:induction false} ImprecisePairYields(s: Stmt, body: seq<Stmt>, orelse: seq<Stmt>) returns (id: nat)
    requires (s.If? || s.Loop?) && body == s.body && orelse == s.orelse && DistinctStmt(s) && !PreciseStmt(s)
    ensures Superfluous(id, WalkStmt(s), ReachStmt(s))
    decreases s, 0
  {
    InProgram(body);
    InProgram(orelse);
    id := ImpreciseYields(if PreciseBlock(body) then orelse else body);
  }

  lemma {:induction false} ImpreciseTryYields(s: Stmt) returns (id: nat)
    requires s.Try? && DistinctStmt(s) && !PreciseStmt(s)
    ensures Superfluous(id, WalkStmt(s), ReachStmt(s))
    decreases s, 0
  {
    InProgram(s.body);
    InProgramClauses(s.handlers);
    InProgram(s.orelse);
    InProgram(s.finalbody);
    if !PreciseBlock(s.body) {
      id := ImpreciseYields(s.body);
    } else if !PreciseBlock(s.finalbody) {
      id := ImpreciseYields(s.finalbody);
    } else if Raised in CanBlock(s.body) && !PreciseClauses(s.handlers) {
      id := ImpreciseClausesYield(s.handlers);
    } else if Raised !in CanBlock(s.body) && WalkClauses(s.handlers) != [] {
      id := WalkClauses(s.handlers)[0];
      assert id in WalkClauses(s.handlers);
    } else if Normal in CanBlock(s.body) {
      id := ImpreciseYields(s.orelse);
    } else {
      id := s.orelse[0].id;
      assert id in WalkBlock(s.orelse);
    }
  }

  lemma {:induction false} ImpreciseClausesYield(cs: seq<Clause>) returns (id: nat)
    requires DistinctClauses(cs) && !PreciseClauses(cs)
    ensures Superfluous(id, WalkClauses(cs), ReachClauses(cs))
    decreases cs
  {
    InProgram(cs[0].body);
    InProgramClauses(cs[1..]);
    if !PreciseBlock(cs[0].body) {
      id := ImpreciseYields(cs[0].body);
    } else {
      id := ImpreciseClausesYield(cs[1..]);
    }
  }

  /** Every yielded statement is reached by some execution exactly when the program is precise. */
  lemma WalkIsPreciseExactly(b: seq<Stmt>)
    requires DistinctBlock(b)
    ensures PreciseBlock(b) <==> forall id: nat :: id in WalkBlock(b) ==> SomeRunReaches(b, id)
  {
    if PreciseBlock(b) {
      PreciseIsReached(b);
      forall id: nat | id in WalkBlock(b) ensures SomeRunReaches(b, id) { ReachedExactly(b, id); }
    } else {
      var id := ImpreciseYields(b);
      assert id in WalkBlock(b);
      assert !SomeRunReaches(b, id) by { NotReached(b, id); }
    }
  }

  lemma NotReached(b: seq<Stmt>, id: nat)
    requires id !in ReachBlock(b)
    ensures !SomeRunReaches(b, id)
  {
    forall o: seq<nat> ensures id !in ExecBlock(b, o).trace { BlockWithin(b, o); }
  }

  ghost predicate SomeRunReaches(b: seq<Stmt>, id: nat) {
    exists o: seq<nat> :: id in ExecBlock(b, o).trace
  }

  /** A branch with dead code behind its return, another that returns, and a statement behind both. */
  function HiddenEnd(): seq<Stmt> {
    [If(0, [Return(1), Simple(2)], [Return(3)]), Simple(4)]
  }

  /** Dead code inside a branch hides that the branch ends: what stands behind it is yielded and never reached. */
  lemma HiddenEndIsYielded()
    ensures 4 in WalkBlock(HiddenEnd()) && forall o: seq<nat> :: 4 !in ExecBlock(HiddenEnd(), o).trace
  {
    var b := HiddenEnd();
    assert b[1..] == [Simple(4)] && b[1..][1..] == [];
    assert !AlwaysTerminates(Simple(2)) && !LastTerminates([Return(1), Simple(2)]) && !AlwaysTerminates(b[0]);
    assert WalkBlock(b) == WalkStmt(b[0]) + WalkBlock(b[1..]) && WalkBlock(b[1..]) == [4] + [];
    HiddenEndReach();
    forall o: seq<nat> ensures 4 !in ExecBlock(b, o).trace { BlockWithin(b, o); }
  }

  lemma HiddenEndReach()
    ensures 4 !in ReachBlock(HiddenEnd())
  {
    var b := HiddenEnd();
    BranchReturns([Simple(2)], 1);
    BranchReturns([], 3);
    assert [Return(1)] + [Simple(2)] == [Return(1), Simple(2)] && [Return(3)] + [] == [Return(3)];
  }

  lemma BranchReturns(rest: seq<Stmt>, id: nat)
    ensures CanBlock([Return(id)] + rest) == {Raised, Returned} && ReachBlock([Return(id)] + rest) == {id}
  {
    var b := [Return(id)] + rest;
    assert b[0] == Return(id) && b[1..] == rest;
  }
}
