/**
 The dead-code pruner of the static gate over a small statement language, and the semantics
 that says what pruning may not lose.
 */
module RuntimeWalk {

  /**
   A statement; its id stands for the statement itself and the expressions it evaluates. What a definition
   evaluates where it stands (decorators, defaults, bases) is its header, one simple statement each.
   */
  datatype Stmt =
    | Simple(id: nat)
    | Return(id: nat)
    | Raise(id: nat)
    | Break(id: nat)
    | Continue(id: nat)
    | SkipCall(id: nat)  // pytest.skip(...) or pytest.xfail(...)
    | IfConst(id: nat, value: bool, body: seq<Stmt>, orelse: seq<Stmt>)
    | If(id: nat, body: seq<Stmt>, orelse: seq<Stmt>)
    | Loop(id: nat, body: seq<Stmt>, orelse: seq<Stmt>)
    | Try(id: nat, body: seq<Stmt>, handlers: seq<Clause>, orelse: seq<Stmt>, finalbody: seq<Stmt>)
    | With(id: nat, swallows: bool, body: seq<Stmt>)
    | Match(id: nat, cases: seq<Clause>)
    | Def(id: nat, header: seq<Stmt>, body: seq<Stmt>)
    | Class(id: nat, header: seq<Stmt>, body: seq<Stmt>)

  /** An `except` handler or a `match` case. */
  datatype Clause = Clause(body: seq<Stmt>)

  // ---- The analysis ----

  predicate TerminatesRuntimeBlock(s: Stmt) {
    s.Return? || s.Raise? || s.Break? || s.Continue? || s.SkipCall?
  }

  predicate AlwaysTerminates(s: Stmt) {
    if TerminatesRuntimeBlock(s) then true
    else match s
      case IfConst(_, value, body, orelse) => if value then LastTerminates(body) else LastTerminates(orelse)
      case If(_, body, orelse) => LastTerminates(body) && LastTerminates(orelse)
      case With(_, _, body) => LastTerminates(body)
      case _ => false
  }

  predicate LastTerminates(b: seq<Stmt>) {
    b != [] && AlwaysTerminates(b[|b| - 1])
  }

  /** The ids the walk yields, in order. */
  function WalkBlock(b: seq<Stmt>): seq<nat> {
    if b == [] then []
    else WalkStmt(b[0]) + (if AlwaysTerminates(b[0]) then [] else WalkBlock(b[1..]))
  }

  function WalkStmt(s: Stmt): seq<nat> {
    [s.id] + match s
      case IfConst(_, value, body, orelse) => if value then WalkBlock(body) else WalkBlock(orelse)
      case If(_, body, orelse) => WalkBlock(body) + WalkBlock(orelse)
      case Loop(_, body, orelse) => WalkBlock(body) + WalkBlock(orelse)
      case Try(_, body, handlers, orelse, finalbody) =>
        WalkBlock(body) + WalkClauses(handlers) + WalkBlock(orelse) + WalkBlock(finalbody)
      case With(_, _, body) => WalkBlock(body)
      case Match(_, cases) => WalkClauses(cases)
      case _ => []
  }

  function WalkClauses(cs: seq<Clause>): seq<nat> {
    if cs == [] then [] else WalkBlock(cs[0].body) + WalkClauses(cs[1..])
  }

  // ---- The semantics ----

  /** How control leaves a statement; `Stopped` is an execution observed only this far. */
  datatype Outcome = Normal | Returned | Raised | Broke | Continued | Stopped

  datatype Run = Run(trace: seq<nat>, out: Outcome, rest: seq<nat>)

  function After(trace: seq<nat>, r: Run): Run {
    Run(trace + r.trace, r.out, r.rest)
  }

  /**
   One execution. The choices `o` settle everything the program leaves open: which evaluation
   raises (choice 0), which branch, case or handler is taken, how often a loop turns. Every prefix
   of every execution is the run of some choice sequence.
   */
  function ExecBlock(b: seq<Stmt>, o: seq<nat>): (r: Run)
    ensures |r.rest| <= |o|
    decreases |o|, 1, |b|
  {
    if b == [] then Run([], Normal, o) else
      var first := ExecStmt(b[0], o);
      if first.out.Normal? then After(first.trace, ExecBlock(b[1..], first.rest)) else first
  }

  function ExecStmt(s: Stmt, o: seq<nat>): (r: Run)
    ensures |r.rest| <= |o| && (o != [] ==> |r.rest| < |o|)
    decreases |o|, 0, 0
  {
    if o == [] then Run([s.id], Stopped, []) else After([s.id], ExecHeaded(s, o[0], o[1..]))
  }

  /** The rest of a statement after its own evaluation made choice `c`. */
  function ExecHeaded(s: Stmt, c: nat, o: seq<nat>): (r: Run)
    ensures |r.rest| <= |o|
    decreases |o|, 4, 0
  {
    match s
    case Simple(_) => Run([], if c == 0 then Raised else Normal, o)
    case Def(_, header, _) => if c == 0 then Run([], Raised, o) else ExecBlock(header, o)
    case Return(_) => Run([], if c == 0 then Raised else Returned, o)
    case Raise(_) => Run([], Raised, o)
    case SkipCall(_) => Run([], Raised, o)
    case Break(_) => Run([], Broke, o)
    case Continue(_) => Run([], Continued, o)
    case Class(_, header, body) => if c == 0 then Run([], Raised, o) else ExecBody(ExecBlock(header, o), body)
    case IfConst(_, value, body, orelse) => if value then ExecBlock(body, o) else ExecBlock(orelse, o)
    case If(_, body, orelse) =>
      if c == 0 then Run([], Raised, o) else if c == 1 then ExecBlock(body, o) else ExecBlock(orelse, o)
    case Match(_, cases) =>
      if c == 0 then Run([], Raised, o)
      else if c - 1 < |cases| then ExecBlock(cases[c - 1].body, o) else Run([], Normal, o)
    case Loop(_, body, orelse) =>
      if c == 0 then Run([], Raised, o)
      else if c == 1 then
        var turn := ExecBlock(body, o);
        if turn.out.Normal? || turn.out.Continued? then After(turn.trace, ExecStmt(s, turn.rest))
        else if turn.out.Broke? then turn.(out := Normal)
        else turn
      else ExecBlock(orelse, o)
    case Try(_, body, handlers, orelse, finalbody) =>
      Finally(ExecHandled(ExecBlock(body, o), handlers, orelse), finalbody)
    case With(_, swallows, body) =>
      if c == 0 then Run([], Raised, o) else Exit(ExecBlock(body, o), swallows)
  }

  /** A class body runs where the class stands, once its header has been evaluated. */
  function ExecBody(header: Run, body: seq<Stmt>): (r: Run)
    ensures |r.rest| <= |header.rest|
    decreases |header.rest|, 2, 0
  {
    if header.out.Normal? then After(header.trace, ExecBlock(body, header.rest)) else header
  }

  /** What follows a `try` body: a matching handler, or `else` when nothing was raised. */
  function ExecHandled(tried: Run, handlers: seq<Clause>, orelse: seq<Stmt>): (r: Run)
    ensures |r.rest| <= |tried.rest|
    decreases |tried.rest|, 2, 0
  {
    if tried.out.Normal? then After(tried.trace, ExecBlock(orelse, tried.rest))
    else if !tried.out.Raised? then tried
    else if tried.rest == [] then tried.(out := Stopped)
    else if tried.rest[0] < |handlers| then
      After(tried.trace, ExecBlock(handlers[tried.rest[0]].body, tried.rest[1..]))
    else tried.(rest := tried.rest[1..])
  }

  /** `finally` runs whatever happened; only its own abrupt exit replaces the outcome. */
  function Finally(tried: Run, finalbody: seq<Stmt>): (r: Run)
    ensures |r.rest| <= |tried.rest|
    decreases |tried.rest|, 3, 0
  {
    if tried.out.Stopped? then tried else
      var last := ExecBlock(finalbody, tried.rest);
      Run(tried.trace + last.trace, if last.out.Normal? then tried.out else last.out, last.rest)
  }

  /** Leaving a `with`: the exit may raise, and a swallowing manager may drop an exception. */
  function Exit(inside: Run, swallows: bool): (r: Run)
    ensures |r.rest| <= |inside.rest|
  {
    if inside.out.Stopped? || inside.rest == [] then inside.(out := Stopped)
    else if inside.rest[0] == 0 then inside.(out := Raised, rest := inside.rest[1..])
    else if swallows && inside.out.Raised? && inside.rest[0] == 1 then inside.(out := Normal, rest := inside.rest[1..])
    else inside.(rest := inside.rest[1..])
  }

  // ---- Pruning ----

  /** The program without what the walk leaves out. */
  function PruneBlock(b: seq<Stmt>): seq<Stmt> {
    if b == [] then []
    else [PruneStmt(b[0])] + (if AlwaysTerminates(b[0]) then [] else PruneBlock(b[1..]))
  }

  function PruneStmt(s: Stmt): Stmt {
    match s
    case IfConst(id, value, body, orelse) =>
      IfConst(id, value, if value then PruneBlock(body) else [], if value then [] else PruneBlock(orelse))
    case If(id, body, orelse) => If(id, PruneBlock(body), PruneBlock(orelse))
    case Loop(id, body, orelse) => Loop(id, PruneBlock(body), PruneBlock(orelse))
    case Try(id, body, handlers, orelse, finalbody) =>
      Try(id, PruneBlock(body), PruneClauses(handlers), PruneBlock(orelse), PruneBlock(finalbody))
    case With(id, swallows, body) => With(id, swallows, PruneBlock(body))
    case Match(id, cases) => Match(id, PruneClauses(cases))
    case Def(id, _, _) => Def(id, [], [])
    case Class(id, _, _) => Class(id, [], [])
    case _ => s
  }

  function PruneClauses(cs: seq<Clause>): (r: seq<Clause>)
    ensures |r| == |cs|
  {
    if cs == [] then [] else [Clause(PruneBlock(cs[0].body))] + PruneClauses(cs[1..])
  }

  lemma {:induction false} PrunedClause(cs: seq<Clause>, i: nat)
    requires i < |cs|
    ensures PruneClauses(cs)[i] == Clause(PruneBlock(cs[i].body))
  {
    if i > 0 { PrunedClause(cs[1..], i - 1); }
  }

  // ---- The ids of a program ----

  /** Every id of a program, the dead and the deferred ones included. */
  function IdsBlock(b: seq<Stmt>): set<nat> {
    if b == [] then {} else IdsStmt(b[0]) + IdsBlock(b[1..])
  }

  function IdsStmt(s: Stmt): set<nat> {
    {s.id} + match s
      case IfConst(_, _, body, orelse) => IdsBlock(body) + IdsBlock(orelse)
      case If(_, body, orelse) => IdsBlock(body) + IdsBlock(orelse)
      case Loop(_, body, orelse) => IdsBlock(body) + IdsBlock(orelse)
      case Try(_, body, handlers, orelse, finalbody) =>
        IdsBlock(body) + IdsClauses(handlers) + IdsBlock(orelse) + IdsBlock(finalbody)
      case With(_, _, body) => IdsBlock(body)
      case Match(_, cases) => IdsClauses(cases)
      case Def(_, header, body) => IdsBlock(header) + IdsBlock(body)
      case Class(_, header, body) => IdsBlock(header) + IdsBlock(body)
      case _ => {}
  }

  function IdsClauses(cs: seq<Clause>): set<nat> {
    if cs == [] then {} else IdsBlock(cs[0].body) + IdsClauses(cs[1..])
  }

  ghost predicate TraceIn(trace: seq<nat>, ids: set<nat>) {
    forall id :: id in trace ==> id in ids
  }

  /** What is left of the program is what the walk yields. */
  lemma {:induction false} WalkIsPruned(b: seq<Stmt>)
    ensures TraceIn(WalkBlock(b), IdsBlock(PruneBlock(b)))
    ensures forall id :: id in IdsBlock(PruneBlock(b)) ==> id in WalkBlock(b)
    decreases b
  {
    if b != [] {
      WalkIsPrunedStmt(b[0]);
      WalkIsPruned(b[1..]);
      assert PruneBlock(b)[1..] == if AlwaysTerminates(b[0]) then [] else PruneBlock(b[1..]);
    }
  }

  lemma {:induction false} WalkIsPrunedStmt(s: Stmt)
    ensures TraceIn(WalkStmt(s), IdsStmt(PruneStmt(s)))
    ensures forall id :: id in IdsStmt(PruneStmt(s)) ==> id in WalkStmt(s)
    decreases s
  {
    match s
    case IfConst(_, value, body, orelse) => WalkIsPruned(if value then body else orelse);
    case If(_, body, orelse) => WalkIsPruned(body); WalkIsPruned(orelse);
    case Loop(_, body, orelse) => WalkIsPruned(body); WalkIsPruned(orelse);
    case Try(_, body, handlers, orelse, finalbody) =>
      WalkIsPruned(body);
      WalkIsPrunedClauses(handlers);
      WalkIsPruned(orelse);
      WalkIsPruned(finalbody);
    case With(_, _, body) => WalkIsPruned(body);
    case Match(_, cases) => WalkIsPrunedClauses(cases);
    case _ =>
  }

  lemma {:induction false} WalkIsPrunedClauses(cs: seq<Clause>)
    ensures TraceIn(WalkClauses(cs), IdsClauses(PruneClauses(cs)))
    ensures forall id :: id in IdsClauses(PruneClauses(cs)) ==> id in WalkClauses(cs)
    decreases cs
  {
    if cs != [] {
      WalkIsPruned(cs[0].body);
      WalkIsPrunedClauses(cs[1..]);
      assert PruneClauses(cs)[1..] == PruneClauses(cs[1..]);
    }
  }

  // ---- Where the walk misses a statement ----

  /** A class body runs where it stands; the walk does not enter it. */
  lemma ClassBodyIsMissed()
    ensures var b := [Class(0, [], [Simple(1)])];
            1 in ExecBlock(b, [1, 1]).trace && 1 !in WalkBlock(b)
  {
    var b := [Class(0, [], [Simple(1)])];
    assert ExecStmt(Simple(1), [1]) == Run([1], Normal, []);
    assert ExecBlock([], [1]) == Run([], Normal, [1]) && ExecBlock([Simple(1)], [1]).trace == [1];
    assert ExecStmt(b[0], [1, 1]).trace == [0, 1];
    assert WalkBlock(b[1..]) == [];
  }

  /** So does what a function definition evaluates where it stands, a decorator or a default. */
  lemma DefHeaderIsMissed(body: seq<Stmt>)
    ensures var b := [Def(0, [Simple(1)], body)];
            1 in ExecBlock(b, [1, 1]).trace && 1 !in WalkBlock(b)
  {
    var b := [Def(0, [Simple(1)], body)];
    assert ExecStmt(Simple(1), [1]) == Run([1], Normal, []);
    assert ExecBlock([Simple(1)], [1]).trace == [1];
    assert ExecStmt(b[0], [1, 1]).trace == [0, 1];
    assert WalkBlock(b[1..]) == [];
  }

  /** A swallowing `with` around a `raise` is taken for terminating; what follows it is missed. */
  lemma SwallowedRaiseIsMissed()
    ensures var b := [With(0, true, [Raise(1)]), Simple(2)];
            2 in ExecBlock(b, [1, 1, 1, 1]).trace && 2 !in WalkBlock(b)
  {
    var b := [With(0, true, [Raise(1)]), Simple(2)];
    assert ExecStmt(Raise(1), [1, 1, 1]) == Run([1], Raised, [1, 1]);
    assert ExecBlock([Raise(1)], [1, 1, 1]) == Run([1], Raised, [1, 1]);
    assert ExecStmt(b[0], [1, 1, 1, 1]) == Run([0, 1], Normal, [1]);
    assert ExecBlock([Simple(2)], [1]).trace == [2];
    assert b[1..] == [Simple(2)];
    assert AlwaysTerminates(b[0]);
    assert WalkBlock([Raise(1)]) == [1];
  }
}
