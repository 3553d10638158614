/**
 What an execution of a program can reach and how it can end, computed from the program alone, and
 the exact condition under which the dead-code pruner of the static gate loses nothing.
 */
module RuntimeReach {
  import opened RuntimeWalk

  // ---- How a block can end ----

  /** The ends of one thing followed, when it ends normally, by another. */
  function Onwards(first: set<Outcome>, next: set<Outcome>): (r: set<Outcome>)
    ensures first != {} && next != {} ==> r != {}
  {
    assert Normal !in first ==> first - {Normal} == first;
    (first - {Normal}) + if Normal in first then next else {}
  }

  function CanBlock(b: seq<Stmt>): (r: set<Outcome>)
    ensures r != {} && Stopped !in r
  {
    if b == [] then {Normal} else Onwards(CanStmt(b[0]), CanBlock(b[1..]))
  }

  function CanStmt(s: Stmt): (r: set<Outcome>)
    ensures r != {} && Stopped !in r
  {
    match s
    case Simple(_) => {Raised, Normal}
    case Def(_, header, _) => {Raised} + CanBlock(header)
    case Return(_) => {Raised, Returned}
    case Raise(_) => {Raised}
    case SkipCall(_) => {Raised}
    case Break(_) => {Broke}
    case Continue(_) => {Continued}
    case Class(_, header, body) => {Raised} + Onwards(CanBlock(header), CanBlock(body))
    case IfConst(_, value, body, orelse) => if value then CanBlock(body) else CanBlock(orelse)
    case If(_, body, orelse) => {Raised} + CanBlock(body) + CanBlock(orelse)
    case Match(_, cases) => {Raised, Normal} + CanClauses(cases)
    case Loop(_, body, orelse) =>
      {Raised} + CanBlock(orelse) + (CanBlock(body) - {Normal, Continued, Broke})
      + if Broke in CanBlock(body) then {Normal} else {}
    case Try(_, body, handlers, orelse, finalbody) =>
      Onwards(CanBlock(finalbody), CanHandled(CanBlock(body), CanClauses(handlers), CanBlock(orelse)))
    case With(_, swallows, body) =>
      {Raised} + CanBlock(body) + if swallows && Raised in CanBlock(body) then {Normal} else {}
  }

  /** The ends of a `try` before its `finally`: of its body, its handlers or its `else`. */
  function CanHandled(tried: set<Outcome>, caught: set<Outcome>, next: set<Outcome>): (r: set<Outcome>)
    ensures tried != {} && next != {} ==> r != {}
  {
    Onwards(tried, next) + if Raised in tried then caught else {}
  }

  function CanClauses(cs: seq<Clause>): (r: set<Outcome>)
    ensures Stopped !in r
  {
    if cs == [] then {} else CanBlock(cs[0].body) + CanClauses(cs[1..])
  }

  lemma {:induction false} CanClause(cs: seq<Clause>, i: nat)
    requires i < |cs|
    ensures CanBlock(cs[i].body) <= CanClauses(cs)
  {
    if i > 0 { CanClause(cs[1..], i - 1); }
  }

  lemma {:induction false} WhichClause(cs: seq<Clause>, x: Outcome) returns (i: nat)
    requires x in CanClauses(cs)
    ensures i < |cs| && x in CanBlock(cs[i].body)
  {
    if x in CanBlock(cs[0].body) {
      i := 0;
    } else {
      var j := WhichClause(cs[1..], x);
      i := j + 1;
    }
  }

  // ---- What a block can reach ----

  function ReachBlock(b: seq<Stmt>): set<nat> {
    if b == [] then {} else ReachStmt(b[0]) + if Normal in CanStmt(b[0]) then ReachBlock(b[1..]) else {}
  }

  function ReachStmt(s: Stmt): set<nat> {
    {s.id} + match s
      case IfConst(_, value, body, orelse) => if value then ReachBlock(body) else ReachBlock(orelse)
      case If(_, body, orelse) => ReachBlock(body) + ReachBlock(orelse)
      case Loop(_, body, orelse) => ReachBlock(body) + ReachBlock(orelse)
      case Try(_, body, handlers, orelse, finalbody) =>
        ReachBlock(body) + ReachHandled(CanBlock(body), ReachClauses(handlers), ReachBlock(orelse))
          + ReachBlock(finalbody)
      case With(_, _, body) => ReachBlock(body)
      case Match(_, cases) => ReachClauses(cases)
      case Def(_, header, _) => ReachBlock(header)
      case Class(_, header, body) => ReachBlock(header) + if Normal in CanBlock(header) then ReachBlock(body) else {}
      case _ => {}
  }

  function ReachHandled(tried: set<Outcome>, caught: set<nat>, next: set<nat>): set<nat> {
    (if Raised in tried then caught else {}) + if Normal in tried then next else {}
  }

  function ReachClauses(cs: seq<Clause>): set<nat> {
    if cs == [] then {} else ReachBlock(cs[0].body) + ReachClauses(cs[1..])
  }

  lemma {:induction false} ReachClause(cs: seq<Clause>, i: nat)
    requires i < |cs|
    ensures ReachBlock(cs[i].body) <= ReachClauses(cs)
  {
    if i > 0 { ReachClause(cs[1..], i - 1); }
  }

  lemma {:induction false} WhichReached(cs: seq<Clause>, id: nat) returns (i: nat)
    requires id in ReachClauses(cs)
    ensures i < |cs| && id in ReachBlock(cs[i].body)
  {
    if id in ReachBlock(cs[0].body) {
      i := 0;
    } else {
      var j := WhichReached(cs[1..], id);
      i := j + 1;
    }
  }

  // ---- No execution does anything else ----

  /** An execution ends in one of these ways, if it ends, and reaches only these statements. */
  ghost predicate Within(r: Run, ends: set<Outcome>, ids: set<nat>) {
    (r.out == Stopped || r.out in ends) && TraceIn(r.trace, ids)
  }

  lemma {:induction false} BlockWithin(b: seq<Stmt>, o: seq<nat>)
    ensures Within(ExecBlock(b, o), CanBlock(b), ReachBlock(b))
    decreases |o|, 1, |b|
  {
    if b != [] {
      StmtWithin(b[0], o);
      var first := ExecStmt(b[0], o);
      if first.out.Normal? { BlockWithin(b[1..], first.rest); }
    }
  }

  lemma {:induction false} StmtWithin(s: Stmt, o: seq<nat>)
    ensures Within(ExecStmt(s, o), CanStmt(s), ReachStmt(s))
    decreases |o|, 0, 0
  {
    if o != [] { HeadedWithin(s, o[0], o[1..]); }
  }

  lemma {:induction false} HeadedWithin(s: Stmt, c: nat, o: seq<nat>)
    ensures Within(ExecHeaded(s, c, o), CanStmt(s), ReachStmt(s))
    decreases |o|, 4, 0
  {
    match s
    case IfConst(_, value, body, orelse) => BlockWithin(if value then body else orelse, o);
    case If(_, body, orelse) =>
      BlockWithin(body, o);
      BlockWithin(orelse, o);
    case Match(_, cases) =>
      if 0 < c <= |cases| {
        CanClause(cases, c - 1);
        ReachClause(cases, c - 1);
        BlockWithin(cases[c - 1].body, o);
      }
    case Loop(_, _, _) => LoopWithin(s, c, o);
    case Try(_, _, _, _, _) => TryWithin(s, c, o);
    case With(_, _, body) => BlockWithin(body, o);
    case Def(_, header, _) => BlockWithin(header, o);
    case Class(_, _, _) => ClassWithin(s, c, o);
    case _ =>
  }

  lemma {:induction false} LoopWithin(s: Stmt, c: nat, o: seq<nat>)
    requires s.Loop?
    ensures Within(ExecHeaded(s, c, o), CanStmt(s), ReachStmt(s))
    decreases |o|, 3, 1
  {
    BlockWithin(s.body, o);
    BlockWithin(s.orelse, o);
    StmtWithin(s, ExecBlock(s.body, o).rest);
  }

  lemma {:induction false} ClassWithin(s: Stmt, c: nat, o: seq<nat>)
    requires s.Class?
    ensures Within(ExecHeaded(s, c, o), CanStmt(s), ReachStmt(s))
    decreases |o|, 3, 1
  {
    BlockWithin(s.header, o);
    BlockWithin(s.body, ExecBlock(s.header, o).rest);
  }

  lemma {:induction false} TryWithin(s: Stmt, c: nat, o: seq<nat>)
    requires s.Try?
    ensures Within(ExecHeaded(s, c, o), CanStmt(s), ReachStmt(s))
    decreases |o|, 3, 1
  {
    BlockWithin(s.body, o);
    var tried := ExecBlock(s.body, o);
    HandledWithin(tried, CanBlock(s.body), ReachBlock(s.body), s.handlers, s.orelse);
    BlockWithin(s.finalbody, ExecHandled(tried, s.handlers, s.orelse).rest);
  }

  lemma {:induction false} HandledWithin(tried: Run, ends: set<Outcome>, ids: set<nat>, handlers: seq<Clause>,
                                         orelse: seq<Stmt>)
    requires Within(tried, ends, ids)
    ensures Within(ExecHandled(tried, handlers, orelse), CanHandled(ends, CanClauses(handlers), CanBlock(orelse)),
                   ids + ReachHandled(ends, ReachClauses(handlers), ReachBlock(orelse)))
    decreases |tried.rest|, 2, 0
  {
    if tried.out.Normal? {
      BlockWithin(orelse, tried.rest);
    } else if tried.out.Raised? && tried.rest != [] && tried.rest[0] < |handlers| {
      CanClause(handlers, tried.rest[0]);
      ReachClause(handlers, tried.rest[0]);
      BlockWithin(handlers[tried.rest[0]].body, tried.rest[1..]);
    }
  }

  // ---- Every one of these ends has its choices ----

  ghost predicate Leaves(r: Run, x: Outcome, rest: seq<nat>) {
    r.out == x && r.rest == rest
  }

  /** After the choices `p` the block has ended with `x`, whatever choices follow. */
  ghost predicate Ends(b: seq<Stmt>, p: seq<nat>, x: Outcome) {
    forall rest: seq<nat> :: Leaves(ExecBlock(b, p + rest), x, rest)
  }

  ghost predicate EndsStmt(s: Stmt, p: seq<nat>, x: Outcome) {
    forall rest: seq<nat> :: Leaves(ExecStmt(s, p + rest), x, rest)
  }

  ghost predicate EndsHeaded(s: Stmt, c: nat, q: seq<nat>, x: Outcome) {
    forall rest: seq<nat> :: Leaves(ExecHeaded(s, c, q + rest), x, rest)
  }

  ghost predicate EndsHandled(body: seq<Stmt>, handlers: seq<Clause>, orelse: seq<Stmt>, q: seq<nat>, x: Outcome) {
    forall rest: seq<nat> :: Leaves(ExecHandled(ExecBlock(body, q + rest), handlers, orelse), x, rest)
  }

  lemma Join(p: seq<nat>, q: seq<nat>, rest: seq<nat>)
    ensures (p + q) + rest == p + (q + rest)
  {
  }

  lemma EndsNow(b: seq<Stmt>, p: seq<nat>, x: Outcome)
    requires Ends(b, p, x)
    ensures ExecBlock(b, p).out == x
  {
    assert p + [] == p;
    assert Leaves(ExecBlock(b, p + []), x, []);
  }

  lemma StmtEndsNow(s: Stmt, p: seq<nat>, x: Outcome)
    requires EndsStmt(s, p, x)
    ensures ExecStmt(s, p).out == x
  {
    assert p + [] == p;
    assert Leaves(ExecStmt(s, p + []), x, []);
  }

  lemma EndsAfter(s: Stmt, c: nat, q: seq<nat>, x: Outcome)
    requires EndsHeaded(s, c, q, x)
    ensures EndsStmt(s, [c] + q, x)
  {
    forall rest: seq<nat> ensures Leaves(ExecStmt(s, ([c] + q) + rest), x, rest) {
      var o := ([c] + q) + rest;
      assert o[0] == c && o[1..] == q + rest;
      assert Leaves(ExecHeaded(s, c, q + rest), x, rest);
    }
  }

  lemma {:induction false} Realised(b: seq<Stmt>, x: Outcome) returns (p: seq<nat>)
    requires x in CanBlock(b)
    ensures Ends(b, p, x)
    decreases b
  {
    if b == [] {
      p := [];
      forall rest: seq<nat> ensures Leaves(ExecBlock(b, p + rest), x, rest) { assert p + rest == rest; }
    } else if x != Normal && x in CanStmt(b[0]) {
      p := RealisedStmt(b[0], x);
      forall rest: seq<nat> ensures Leaves(ExecBlock(b, p + rest), x, rest) {
        assert Leaves(ExecStmt(b[0], p + rest), x, rest);
      }
    } else {
      var first := RealisedStmt(b[0], Normal);
      var next := Realised(b[1..], x);
      p := first + next;
      forall rest: seq<nat> ensures Leaves(ExecBlock(b, p + rest), x, rest) {
        Join(first, next, rest);
        assert Leaves(ExecStmt(b[0], first + (next + rest)), Normal, next + rest);
        assert Leaves(ExecBlock(b[1..], next + rest), x, rest);
      }
    }
  }

  lemma {:induction false} RealisedStmt(s: Stmt, x: Outcome) returns (p: seq<nat>)
    requires x in CanStmt(s)
    ensures EndsStmt(s, p, x)
    decreases s, 1
  {
    var c, q := RealisedHeaded(s, x);
    EndsAfter(s, c, q, x);
    p := [c] + q;
  }

  lemma {:induction false} RealisedHeaded(s: Stmt, x: Outcome) returns (c: nat, q: seq<nat>)
    requires x in CanStmt(s)
    ensures EndsHeaded(s, c, q, x)
    decreases s, 0
  {
    c, q := if x == Raised then 0 else 1, [];
    match s
    case IfConst(_, value, body, orelse) => q := Realised(if value then body else orelse, x);
    case If(_, body, orelse) =>
      if x in CanBlock(body) {
        c := 1;
        q := Realised(body, x);
      } else if x in CanBlock(orelse) {
        c := 2;
        q := Realised(orelse, x);
      }
    case Match(_, cases) =>
      if x in CanClauses(cases) {
        var i := WhichClause(cases, x);
        c := i + 1;
        q := Realised(cases[i].body, x);
      } else if x == Normal {
        c := |cases| + 1;
      }
    case Loop(_, body, orelse) =>
      if x in CanBlock(orelse) {
        c := 2;
        q := Realised(orelse, x);
      } else if x != Raised {
        q := Realised(body, if x == Normal then Broke else x);
      }
    case Try(_, body, handlers, orelse, finalbody) => q := RealisedTry(s, x);
    case With(_, swallows, body) => c, q := RealisedWith(s, x);
    case Def(_, header, _) => if x in CanBlock(header) { c := 1; q := Realised(header, x); }
    case Class(_, _, _) => c, q := RealisedClass(s, x);
    case _ =>
  }

  lemma {:induction false} RealisedClass(s: Stmt, x: Outcome) returns (c: nat, q: seq<nat>)
    requires s.Class? && x in CanStmt(s)
    ensures EndsHeaded(s, c, q, x)
    decreases s, 0, 0
  {
    c, q := 0, [];
    if x in CanBlock(s.header) && x != Normal {
      c := 1;
      q := Realised(s.header, x);
      forall rest: seq<nat> ensures Leaves(ExecHeaded(s, c, q + rest), x, rest) {
        assert Leaves(ExecBlock(s.header, q + rest), x, rest);
      }
    } else if Normal in CanBlock(s.header) && x in CanBlock(s.body) {
      var header := Realised(s.header, Normal);
      var body := Realised(s.body, x);
      c, q := 1, header + body;
      forall rest: seq<nat> ensures Leaves(ExecHeaded(s, c, q + rest), x, rest) {
        Join(header, body, rest);
        assert Leaves(ExecBlock(s.header, header + (body + rest)), Normal, body + rest);
        assert Leaves(ExecBlock(s.body, body + rest), x, rest);
      }
    }
  }

  lemma {:induction false} RealisedWith(s: Stmt, x: Outcome) returns (c: nat, q: seq<nat>)
    requires s.With? && x in CanStmt(s)
    ensures EndsHeaded(s, c, q, x)
    decreases s, 0, 0
  {
    c, q := 0, [];
    if x in CanBlock(s.body) || x == Normal {
      var y := if x in CanBlock(s.body) then x else Raised;
      var leave := if x == y then 2 else 1;
      var inside := Realised(s.body, y);
      c, q := 1, inside + [leave];
      forall rest: seq<nat> ensures Leaves(ExecHeaded(s, c, q + rest), x, rest) {
        Join(inside, [leave], rest);
        assert Leaves(ExecBlock(s.body, inside + ([leave] + rest)), y, [leave] + rest);
        assert ([leave] + rest)[1..] == rest;
      }
    }
  }

  lemma {:induction false} RealisedTry(s: Stmt, x: Outcome) returns (q: seq<nat>)
    requires s.Try? && x in CanStmt(s)
    ensures EndsHeaded(s, if x == Raised then 0 else 1, q, x)
    decreases s, 0, 1
  {
    var ends := CanHandled(CanBlock(s.body), CanClauses(s.handlers), CanBlock(s.orelse));
    var y, z := x, Normal;
    if x in CanBlock(s.finalbody) && x != Normal {
      y :| y in ends;
      z := x;
    }
    var tried := RealisedHandled(s, y);
    var last := Realised(s.finalbody, z);
    q := tried + last;
    forall rest: seq<nat> ensures Leaves(ExecHeaded(s, if x == Raised then 0 else 1, q + rest), x, rest) {
      Join(tried, last, rest);
      assert Leaves(ExecHandled(ExecBlock(s.body, tried + (last + rest)), s.handlers, s.orelse), y, last + rest);
      assert Leaves(ExecBlock(s.finalbody, last + rest), z, rest);
    }
  }

  lemma {:induction false} RealisedHandled(s: Stmt, x: Outcome) returns (q: seq<nat>)
    requires s.Try? && x in CanHandled(CanBlock(s.body), CanClauses(s.handlers), CanBlock(s.orelse))
    ensures EndsHandled(s.body, s.handlers, s.orelse, q, x)
    decreases s, 0, 0
  {
    var ends := CanBlock(s.body);
    if Normal in ends && x in CanBlock(s.orelse) {
      var tried := Realised(s.body, Normal);
      var next := Realised(s.orelse, x);
      q := tried + next;
      forall rest: seq<nat> ensures Leaves(ExecHandled(ExecBlock(s.body, q + rest), s.handlers, s.orelse), x, rest) {
        Join(tried, next, rest);
        assert Leaves(ExecBlock(s.body, tried + (next + rest)), Normal, next + rest);
        assert Leaves(ExecBlock(s.orelse, next + rest), x, rest);
      }
    } else if Raised in ends && x in CanClauses(s.handlers) {
      var tried := Realised(s.body, Raised);
      var i := WhichClause(s.handlers, x);
      var next := Realised(s.handlers[i].body, x);
      q := tried + ([i] + next);
      forall rest: seq<nat> ensures Leaves(ExecHandled(ExecBlock(s.body, q + rest), s.handlers, s.orelse), x, rest) {
        Join(tried, [i] + next, rest);
        var o := ([i] + next) + rest;
        assert o[0] == i && o[1..] == next + rest;
        assert Leaves(ExecBlock(s.body, tried + o), Raised, o);
        assert Leaves(ExecBlock(s.handlers[i].body, next + rest), x, rest);
      }
    } else {
      var tried := Realised(s.body, x);
      var missed := if x == Raised then [|s.handlers|] else [];
      q := tried + missed;
      forall rest: seq<nat> ensures Leaves(ExecHandled(ExecBlock(s.body, q + rest), s.handlers, s.orelse), x, rest) {
        Join(tried, missed, rest);
        assert Leaves(ExecBlock(s.body, tried + (missed + rest)), x, missed + rest);
        assert (missed + rest)[|missed|..] == rest;
      }
    }
  }

  /** The ends computed for a block are exactly those that executions have. */
  lemma OutcomesExactly(b: seq<Stmt>, x: Outcome)
    requires x != Stopped
    ensures x in CanBlock(b) <==> exists o: seq<nat> :: ExecBlock(b, o).out == x
  {
    if x in CanBlock(b) {
      var p := Realised(b, x);
      EndsNow(b, p, x);
    } else if o: seq<nat> :| ExecBlock(b, o).out == x {
      BlockWithin(b, o);
      assert false;
    }
  }

  // ---- Every one of these statements is reached ----

  lemma {:induction false} Reached(b: seq<Stmt>, id: nat) returns (o: seq<nat>)
    requires id in ReachBlock(b)
    ensures id in ExecBlock(b, o).trace
    decreases b
  {
    if id in ReachStmt(b[0]) {
      o := ReachedStmt(b[0], id);
    } else {
      var first := RealisedStmt(b[0], Normal);
      var next := Reached(b[1..], id);
      o := first + next;
      assert Leaves(ExecStmt(b[0], first + next), Normal, next);
    }
  }

  lemma {:induction false} ReachedStmt(s: Stmt, id: nat) returns (o: seq<nat>)
    requires id in ReachStmt(s)
    ensures id in ExecStmt(s, o).trace
    decreases s, 1
  {
    o := [];
    if id != s.id {
      var c, q := ReachedHeaded(s, id);
      o := [c] + q;
      assert o[1..] == q;
    }
  }

  lemma {:induction false} ReachedHeaded(s: Stmt, id: nat) returns (c: nat, q: seq<nat>)
    requires id in ReachStmt(s) && id != s.id
    ensures id in ExecHeaded(s, c, q).trace
    decreases s, 0
  {
    c := 1;
    match s
    case IfConst(_, value, body, orelse) => q := Reached(if value then body else orelse, id);
    case If(_, body, orelse) =>
      c := if id in ReachBlock(body) then 1 else 2;
      q := Reached(if c == 1 then body else orelse, id);
    case Match(_, cases) =>
      var i := WhichReached(cases, id);
      c := i + 1;
      q := Reached(cases[i].body, id);
    case Loop(_, body, orelse) =>
      c := if id in ReachBlock(body) then 1 else 2;
      q := Reached(if c == 1 then body else orelse, id);
    case Try(_, _, _, _, _) => q := ReachedTry(s, id);
    case With(_, _, body) => q := Reached(body, id);
    case Def(_, header, _) => q := Reached(header, id);
    case Class(_, header, body) =>
      if id in ReachBlock(header) {
        q := Reached(header, id);
      } else {
        var first := Realised(header, Normal);
        var next := Reached(body, id);
        q := first + next;
        assert Leaves(ExecBlock(header, first + next), Normal, next);
      }
  }

  lemma {:induction false} ReachedTry(s: Stmt, id: nat) returns (q: seq<nat>)
    requires s.Try? && id in ReachStmt(s) && id != s.id
    ensures id in ExecHeaded(s, 1, q).trace
    decreases s, 0, 0
  {
    var ends := CanBlock(s.body);
    if id in ReachBlock(s.finalbody) {
      var x :| x in CanHandled(ends, CanClauses(s.handlers), CanBlock(s.orelse));
      var tried := RealisedHandled(s, x);
      var last := Reached(s.finalbody, id);
      q := tried + last;
      assert Leaves(ExecHandled(ExecBlock(s.body, tried + last), s.handlers, s.orelse), x, last);
    } else if id in ReachBlock(s.body) {
      q := Reached(s.body, id);
    } else if Normal in ends && id in ReachBlock(s.orelse) {
      var tried := Realised(s.body, Normal);
      var next := Reached(s.orelse, id);
      q := tried + next;
      assert Leaves(ExecBlock(s.body, tried + next), Normal, next);
    } else {
      var tried := Realised(s.body, Raised);
      var i := WhichReached(s.handlers, id);
      var next := Reached(s.handlers[i].body, id);
      q := tried + ([i] + next);
      assert ([i] + next)[1..] == next;
      assert Leaves(ExecBlock(s.body, tried + ([i] + next)), Raised, [i] + next);
    }
  }

  /** The statements computed for a block are exactly those that some execution reaches. */
  lemma ReachedExactly(b: seq<Stmt>, id: nat)
    ensures id in ReachBlock(b) <==> exists o: seq<nat> :: id in ExecBlock(b, o).trace
  {
    if id in ReachBlock(b) { var o := Reached(b, id); }
    if o: seq<nat> :| id in ExecBlock(b, o).trace { BlockWithin(b, o); }
  }

  // ---- When `_always_terminates` is right ----

  /** Some swallowing `with` that the statement may end in can meet an exception. */
  predicate Leaks(s: Stmt) {
    match s
    case IfConst(_, value, body, orelse) => if value then LeaksBlock(body) else LeaksBlock(orelse)
    case If(_, body, orelse) => LeaksBlock(body) || LeaksBlock(orelse)
    case With(_, swallows, body) => LeaksBlock(body) || (swallows && Raised in CanBlock(body))
    case _ => false
  }

  predicate LeaksBlock(b: seq<Stmt>) {
    b != [] && if |b| == 1 then Leaks(b[0]) else Normal in CanStmt(b[0]) && LeaksBlock(b[1..])
  }

  lemma {:induction false} LeaksExactly(s: Stmt)
    requires AlwaysTerminates(s)
    ensures Leaks(s) <==> Normal in CanStmt(s)
    decreases s
  {
    match s
    case IfConst(_, value, body, orelse) => LeaksBlockExactly(if value then body else orelse);
    case If(_, body, orelse) =>
      LeaksBlockExactly(body);
      LeaksBlockExactly(orelse);
    case With(_, _, body) => LeaksBlockExactly(body);
    case _ =>
  }

  lemma {:induction false} LeaksBlockExactly(b: seq<Stmt>)
    requires LastTerminates(b)
    ensures LeaksBlock(b) <==> Normal in CanBlock(b)
    decreases b
  {
    if |b| == 1 {
      LeaksExactly(b[0]);
      assert CanBlock(b[1..]) == {Normal};
    } else {
      assert b[1..][|b| - 2] == b[|b| - 1];
      LeaksBlockExactly(b[1..]);
    }
  }

  /** Control never falls through a statement taken for terminating, unless such a `with` swallows. */
  lemma NoFallThrough(s: Stmt)
    requires AlwaysTerminates(s)
    ensures (forall o: seq<nat> :: ExecStmt(s, o).out != Normal) <==> !Leaks(s)
  {
    LeaksExactly(s);
    if Leaks(s) {
      var p := RealisedStmt(s, Normal);
      StmtEndsNow(s, p, Normal);
    } else {
      forall o: seq<nat> ensures ExecStmt(s, o).out != Normal { StmtWithin(s, o); }
    }
  }

  lemma NoBlockFallThrough(b: seq<Stmt>)
    requires LastTerminates(b)
    ensures (forall o: seq<nat> :: ExecBlock(b, o).out != Normal) <==> !LeaksBlock(b)
  {
    LeaksBlockExactly(b);
    OutcomesExactly(b, Normal);
  }

  // ---- When the walk is sound ----

  /**
   No statement that can be reached is a class with a body or a definition with decorators, defaults or bases
   (all of which run where they stand, and the walk skips them), or is taken for terminating, can end normally
   and has statements after it.
   */
  predicate SoundBlock(b: seq<Stmt>) {
    b != [] ==>
      && SoundStmt(b[0])
      && (Normal in CanStmt(b[0]) && |b| > 1 ==> !AlwaysTerminates(b[0]) && SoundBlock(b[1..]))
  }

  predicate SoundStmt(s: Stmt) {
    match s
    case IfConst(_, value, body, orelse) => if value then SoundBlock(body) else SoundBlock(orelse)
    case If(_, body, orelse) => SoundBlock(body) && SoundBlock(orelse)
    case Loop(_, body, orelse) => SoundBlock(body) && SoundBlock(orelse)
    case Try(_, body, handlers, orelse, finalbody) =>
      && SoundBlock(body) && SoundBlock(finalbody)
      && (Raised in CanBlock(body) ==> SoundClauses(handlers))
      && (Normal in CanBlock(body) ==> SoundBlock(orelse))
    case With(_, _, body) => SoundBlock(body)
    case Match(_, cases) => SoundClauses(cases)
    case Def(_, header, _) => header == []
    case Class(_, header, body) => header == [] && body == []
    case _ => true
  }

  predicate SoundClauses(cs: seq<Clause>) {
    cs != [] ==> SoundBlock(cs[0].body) && SoundClauses(cs[1..])
  }

  lemma {:induction false} SoundClause(cs: seq<Clause>, i: nat)
    requires SoundClauses(cs) && i < |cs|
    ensures SoundBlock(cs[i].body)
  {
    if i > 0 { SoundClause(cs[1..], i - 1); }
  }

  ghost predicate Yielded(ids: set<nat>, walk: seq<nat>) {
    forall id :: id in ids ==> id in walk
  }

  lemma {:induction false} SoundIsYielded(b: seq<Stmt>)
    requires SoundBlock(b)
    ensures Yielded(ReachBlock(b), WalkBlock(b))
    decreases b
  {
    if b != [] {
      SoundIsYieldedStmt(b[0]);
      if Normal in CanStmt(b[0]) {
        if |b| > 1 { SoundIsYielded(b[1..]); } else { assert b[1..] == []; }
      }
    }
  }

  lemma {:induction false} SoundIsYieldedStmt(s: Stmt)
    requires SoundStmt(s)
    ensures Yielded(ReachStmt(s), WalkStmt(s))
    decreases s
  {
    match s
    case IfConst(_, value, body, orelse) => SoundIsYielded(if value then body else orelse);
    case If(_, body, orelse) =>
      SoundIsYielded(body);
      SoundIsYielded(orelse);
    case Loop(_, body, orelse) =>
      SoundIsYielded(body);
      SoundIsYielded(orelse);
    case Try(_, body, handlers, orelse, finalbody) =>
      SoundIsYielded(body);
      SoundIsYielded(finalbody);
      if Raised in CanBlock(body) { SoundIsYieldedClauses(handlers); }
      if Normal in CanBlock(body) { SoundIsYielded(orelse); }
    case With(_, _, body) => SoundIsYielded(body);
    case Match(_, cases) => SoundIsYieldedClauses(cases);
    case _ =>
  }

  lemma {:induction false} SoundIsYieldedClauses(cs: seq<Clause>)
    requires SoundClauses(cs)
    ensures Yielded(ReachClauses(cs), WalkClauses(cs))
    decreases cs
  {
    if cs != [] {
      SoundIsYielded(cs[0].body);
      SoundIsYieldedClauses(cs[1..]);
    }
  }

  // ---- Programs without repeated ids ----

  /** No two statements share an id. */
  predicate DistinctBlock(b: seq<Stmt>) {
    b != [] ==> DistinctStmt(b[0]) && DistinctBlock(b[1..]) && IdsStmt(b[0]) !! IdsBlock(b[1..])
  }

  predicate DistinctStmt(s: Stmt) {
    match s
    case IfConst(id, _, body, orelse) =>
      DistinctBlock(body) && DistinctBlock(orelse) && {id} !! IdsBlock(body) !! IdsBlock(orelse)
    case If(id, body, orelse) =>
      DistinctBlock(body) && DistinctBlock(orelse) && {id} !! IdsBlock(body) !! IdsBlock(orelse)
    case Loop(id, body, orelse) =>
      DistinctBlock(body) && DistinctBlock(orelse) && {id} !! IdsBlock(body) !! IdsBlock(orelse)
    case Try(id, body, handlers, orelse, finalbody) =>
      && DistinctBlock(body) && DistinctClauses(handlers) && DistinctBlock(orelse) && DistinctBlock(finalbody)
      && {id} !! IdsBlock(body) !! IdsClauses(handlers) !! IdsBlock(orelse) !! IdsBlock(finalbody)
    case With(id, _, body) => DistinctBlock(body) && id !in IdsBlock(body)
    case Match(id, cases) => DistinctClauses(cases) && id !in IdsClauses(cases)
    case Def(id, header, body) =>
      DistinctBlock(header) && DistinctBlock(body) && {id} !! IdsBlock(header) !! IdsBlock(body)
    case Class(id, header, body) =>
      DistinctBlock(header) && DistinctBlock(body) && {id} !! IdsBlock(header) !! IdsBlock(body)
    case _ => true
  }

  predicate DistinctClauses(cs: seq<Clause>) {
    cs != [] ==> DistinctBlock(cs[0].body) && DistinctClauses(cs[1..]) && IdsBlock(cs[0].body) !! IdsClauses(cs[1..])
  }

  lemma {:induction false} InProgram(b: seq<Stmt>)
    ensures ReachBlock(b) <= IdsBlock(b) && TraceIn(WalkBlock(b), IdsBlock(b))
    decreases b
  {
    if b != [] {
      InProgramStmt(b[0]);
      InProgram(b[1..]);
    }
  }

  lemma {:induction false} InProgramStmt(s: Stmt)
    ensures ReachStmt(s) <= IdsStmt(s) && TraceIn(WalkStmt(s), IdsStmt(s))
    decreases s
  {
    match s
    case IfConst(_, value, body, orelse) => InProgram(if value then body else orelse);
    case If(_, body, orelse) =>
      InProgram(body);
      InProgram(orelse);
    case Loop(_, body, orelse) =>
      InProgram(body);
      InProgram(orelse);
    case Try(_, body, handlers, orelse, finalbody) =>
      InProgram(body);
      InProgramClauses(handlers);
      InProgram(orelse);
      InProgram(finalbody);
    case With(_, _, body) => InProgram(body);
    case Match(_, cases) => InProgramClauses(cases);
    case Def(_, header, _) => InProgram(header);
    case Class(_, header, body) =>
      InProgram(header);
      InProgram(body);
    case _ =>
  }

  lemma {:induction false} InProgramClauses(cs: seq<Clause>)
    ensures ReachClauses(cs) <= IdsClauses(cs) && TraceIn(WalkClauses(cs), IdsClauses(cs))
    decreases cs
  {
    if cs != [] {
      InProgram(cs[0].body);
      InProgramClauses(cs[1..]);
    }
  }

  /** An execution only reaches statements of the program. */
  lemma RunStaysInProgram(b: seq<Stmt>, o: seq<nat>)
    ensures TraceIn(ExecBlock(b, o).trace, IdsBlock(b))
  {
    BlockWithin(b, o);
    InProgram(b);
  }

  // ---- An unsound walk misses something ----

  /** Reached, and not yielded. */
  ghost predicate Missed(id: nat, reach: set<nat>, walk: seq<nat>) {
    id in reach && id !in walk
  }

  lemma {:induction false} UnsoundMisses(b: seq<Stmt>) returns (id: nat)
    requires DistinctBlock(b) && !SoundBlock(b)
    ensures Missed(id, ReachBlock(b), WalkBlock(b))
    decreases b
  {
    InProgramStmt(b[0]);
    InProgram(b[1..]);
    if !SoundStmt(b[0]) {
      id := UnsoundStmtMisses(b[0]);
    } else if AlwaysTerminates(b[0]) {
      id := b[1].id;
      assert b[1..][0] == b[1];
    } else {
      id := UnsoundMisses(b[1..]);
    }
  }

  lemma {:induction false} UnsoundStmtMisses(s: Stmt) returns (id: nat)
    requires DistinctStmt(s) && !SoundStmt(s)
    ensures Missed(id, ReachStmt(s), WalkStmt(s))
    decreases s, 1
  {
    match s
    case IfConst(_, value, body, orelse) =>
      InProgram(if value then body else orelse);
      id := UnsoundMisses(if value then body else orelse);
    case If(_, body, orelse) => id := UnsoundPairMisses(s, body, orelse);
    case Loop(_, body, orelse) => id := UnsoundPairMisses(s, body, orelse);
    case Try(_, _, _, _, _) => id := UnsoundTryMisses(s);
    case With(_, _, body) =>
      InProgram(body);
      id := UnsoundMisses(body);
    case Match(_, cases) =>
      InProgramClauses(cases);
      id := UnsoundClausesMiss(cases);
    case Def(_, header, _) =>
      id := header[0].id;
      InProgram(header);
    case Class(_, header, body) =>
      id := (header + body)[0].id;
      InProgram(header);
      InProgram(body);
  }

  lemma {:induction false} UnsoundPairMisses(s: Stmt, body: seq<Stmt>, orelse: seq<Stmt>) returns (id: nat)
    requires (s.If? || s.Loop?) && body == s.body && orelse == s.orelse && DistinctStmt(s) && !SoundStmt(s)
    ensures Missed(id, ReachStmt(s), WalkStmt(s))
    decreases s, 0
  {
    InProgram(body);
    InProgram(orelse);
    id := UnsoundMisses(if SoundBlock(body) then orelse else body);
  }

  lemma {:induction false} UnsoundTryMisses(s: Stmt) returns (id: nat)
    requires s.Try? && DistinctStmt(s) && !SoundStmt(s)
    ensures Missed(id, ReachStmt(s), WalkStmt(s))
    decreases s, 0
  {
    InProgram(s.body);
    InProgramClauses(s.handlers);
    InProgram(s.orelse);
    InProgram(s.finalbody);
    if !SoundBlock(s.body) {
      id := UnsoundMisses(s.body);
    } else if !SoundBlock(s.finalbody) {
      id := UnsoundMisses(s.finalbody);
    } else if Raised in CanBlock(s.body) && !SoundClauses(s.handlers) {
      id := UnsoundClausesMiss(s.handlers);
    } else {
      id := UnsoundMisses(s.orelse);
    }
  }

  lemma {:induction false} UnsoundClausesMiss(cs: seq<Clause>) returns (id: nat)
    requires DistinctClauses(cs) && !SoundClauses(cs)
    ensures Missed(id, ReachClauses(cs), WalkClauses(cs))
    decreases cs
  {
    InProgram(cs[0].body);
    InProgramClauses(cs[1..]);
    if !SoundBlock(cs[0].body) {
      id := UnsoundMisses(cs[0].body);
    } else {
      id := UnsoundClausesMiss(cs[1..]);
    }
  }

  /** Every statement that any execution of such a block reaches is yielded by the walk. */
  lemma WalkIsSound(b: seq<Stmt>, o: seq<nat>)
    requires SoundBlock(b)
    ensures TraceIn(ExecBlock(b, o).trace, set id | id in WalkBlock(b))
  {
    BlockWithin(b, o);
    SoundIsYielded(b);
  }

  /** And of no other block: the walk yields all that is reached exactly when the block is sound. */
  lemma WalkIsSoundExactly(b: seq<Stmt>)
    requires DistinctBlock(b)
    ensures SoundBlock(b) <==> forall o: seq<nat> :: TraceIn(ExecBlock(b, o).trace, set id | id in WalkBlock(b))
  {
    if SoundBlock(b) {
      forall o: seq<nat> ensures TraceIn(ExecBlock(b, o).trace, set id | id in WalkBlock(b)) { WalkIsSound(b, o); }
    } else {
      var id := UnsoundMisses(b);
      var o := Reached(b, id);
    }
  }

  // ---- Pruning preserves meaning ----

  /** Pruning preserves every execution: the same trace, outcome and choices left. */
  lemma {:induction false} PruningPreservesRuns(b: seq<Stmt>, o: seq<nat>)
    requires SoundBlock(b)
    ensures ExecBlock(PruneBlock(b), o) == ExecBlock(b, o)
    decreases |o|, 1, |b|
  {
    if b != [] {
      PruningPreservesStmt(b[0], o);
      var first := ExecStmt(b[0], o);
      if first.out.Normal? {
        StmtWithin(b[0], o);
        if |b| > 1 { PruningPreservesRuns(b[1..], first.rest); }
        assert PruneBlock(b)[1..] == PruneBlock(b[1..]);
      }
    }
  }

  lemma {:induction false} PruningPreservesStmt(s: Stmt, o: seq<nat>)
    requires SoundStmt(s)
    ensures ExecStmt(PruneStmt(s), o) == ExecStmt(s, o)
    decreases |o|, 0, 0
  {
    if o != [] { PruningPreservesHeaded(s, o[0], o[1..]); }
  }

  lemma {:induction false} PruningPreservesHeaded(s: Stmt, c: nat, o: seq<nat>)
    requires SoundStmt(s)
    ensures ExecHeaded(PruneStmt(s), c, o) == ExecHeaded(s, c, o)
    decreases |o|, 4, 0
  {
    match s
    case IfConst(_, value, body, orelse) => PruningPreservesRuns(if value then body else orelse, o);
    case If(_, body, orelse) =>
      PruningPreservesRuns(body, o);
      PruningPreservesRuns(orelse, o);
    case Match(_, cases) =>
      if 0 < c <= |cases| {
        SoundClause(cases, c - 1);
        PrunedClause(cases, c - 1);
        PruningPreservesRuns(cases[c - 1].body, o);
      }
    case Loop(_, body, orelse) =>
      PruningPreservesRuns(body, o);
      PruningPreservesRuns(orelse, o);
      PruningPreservesStmt(s, ExecBlock(body, o).rest);
    case Try(_, _, _, _, _) => PruningPreservesTry(s, c, o);
    case With(_, _, body) => PruningPreservesRuns(body, o);
    case _ =>
  }

  lemma {:induction false} PruningPreservesTry(s: Stmt, c: nat, o: seq<nat>)
    requires s.Try? && SoundStmt(s)
    ensures ExecHeaded(PruneStmt(s), c, o) == ExecHeaded(s, c, o)
    decreases |o|, 3, 1
  {
    BlockWithin(s.body, o);
    PruningPreservesRuns(s.body, o);
    var tried := ExecBlock(s.body, o);
    PruningPreservesHandled(tried, s.handlers, s.orelse);
    PruningPreservesRuns(s.finalbody, ExecHandled(tried, s.handlers, s.orelse).rest);
  }

  lemma {:induction false} PruningPreservesHandled(tried: Run, handlers: seq<Clause>, orelse: seq<Stmt>)
    requires tried.out.Raised? ==> SoundClauses(handlers)
    requires tried.out.Normal? ==> SoundBlock(orelse)
    ensures ExecHandled(tried, PruneClauses(handlers), PruneBlock(orelse)) == ExecHandled(tried, handlers, orelse)
    decreases |tried.rest|, 2, 0
  {
    if tried.out.Normal? {
      PruningPreservesRuns(orelse, tried.rest);
    } else if tried.out.Raised? && tried.rest != [] && tried.rest[0] < |handlers| {
      SoundClause(handlers, tried.rest[0]);
      PrunedClause(handlers, tried.rest[0]);
      PruningPreservesRuns(handlers[tried.rest[0]].body, tried.rest[1..]);
    }
  }

  /** Pruning preserves every execution of the sound programs, and of no others. */
  lemma PruningExactly(b: seq<Stmt>)
    requires DistinctBlock(b)
    ensures SoundBlock(b) <==> forall o: seq<nat> :: ExecBlock(PruneBlock(b), o) == ExecBlock(b, o)
  {
    if SoundBlock(b) {
      forall o: seq<nat> ensures ExecBlock(PruneBlock(b), o) == ExecBlock(b, o) { PruningPreservesRuns(b, o); }
    } else {
      var id := UnsoundMisses(b);
      var o := Reached(b, id);
      RunStaysInProgram(PruneBlock(b), o);
      WalkIsPruned(b);
    }
  }
}
