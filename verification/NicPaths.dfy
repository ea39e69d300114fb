/** The condition under which no control-flow path of a generated program reads a no-copy variable before loading it. */
module NicPaths {
  import opened Options
  import opened NicLanguage
  import opened NicGenerator
  import opened NicCorrect
  import opened NicProgram
  import opened NicSends

  predicate Readable(v: Var, loaded: set<string>) {
    v.NoCopy? ==> v.field in loaded
  }

  predicate ReadsLoaded(i: Instr, loaded: set<string>) {
    match i
    case Apply1(_, v) => Readable(v, loaded)
    case Apply2(_, v, w) => Readable(v, loaded) && Readable(w, loaded)
    case _ => true
  }

  function LoadedBy(i: Instr): set<string> {
    if i.Load? then {i.field} else {}
  }

  /**
   * Follow one control-flow path, taking the branches the oracle says and ignoring all values:
   * does every read of a no-copy variable come after its load?
   */
  predicate Walk(code: seq<Instr>, oracle: seq<bool>, loaded: set<string>)
    decreases |code|
  {
    if code == [] || code[0].Exit? then true
    else if code[0].JumpIfZero? || code[0].JumpIfNotZero? then
      Readable(code[0].v, loaded) &&
      (oracle == [] || if oracle[0] then WalkTo(code[1..], code[0].target, oracle[1..], loaded)
                       else Walk(code[1..], oracle[1..], loaded))
    else ReadsLoaded(code[0], loaded) && Walk(code[1..], oracle, loaded + LoadedBy(code[0]))
  }

  predicate WalkTo(code: seq<Instr>, name: LabelName, oracle: seq<bool>, loaded: set<string>)
    decreases |code|, 1
  {
    var r := After(code, name);
    r.Some? ==> Walk(r.value, oracle, loaded)
  }

  predicate StraightOk(code: seq<Instr>, loaded: set<string>) {
    code == [] || (ReadsLoaded(code[0], loaded) && StraightOk(code[1..], loaded + LoadedBy(code[0])))
  }

  function Loads(code: seq<Instr>): set<string> {
    if code == [] then {} else LoadedBy(code[0]) + Loads(code[1..])
  }

  lemma {:induction false} StraightConcat(a: seq<Instr>, b: seq<Instr>, loaded: set<string>)
    ensures StraightOk(a + b, loaded) <==> StraightOk(a, loaded) && StraightOk(b, loaded + Loads(a))
    ensures Loads(a + b) == Loads(a) + Loads(b)
    decreases |a|
  {
    if a == [] {
      assert a + b == b && loaded + {} == loaded && {} + Loads(b) == Loads(b);
    } else {
      assert (a + b)[1..] == a[1..] + b;
      StraightConcat(a[1..], b, loaded + LoadedBy(a[0]));
      assert loaded + LoadedBy(a[0]) + Loads(a[1..]) == loaded + Loads(a);
    }
  }

  lemma {:induction false} WalkStraight(code: seq<Instr>, rest: seq<Instr>, oracle: seq<bool>, loaded: set<string>)
    requires Straight(code)
    ensures Walk(code + rest, oracle, loaded) <==> StraightOk(code, loaded) && Walk(rest, oracle, loaded + Loads(code))
    decreases |code|
  {
    if code == [] {
      assert code + rest == rest && loaded + {} == loaded;
    } else {
      assert (code + rest)[1..] == code[1..] + rest;
      WalkStraight(code[1..], rest, oracle, loaded + LoadedBy(code[0]));
      assert loaded + LoadedBy(code[0]) + Loads(code[1..]) == loaded + Loads(code);
    }
  }

  /** Code g reads only loaded variables, including its result, exactly when the recorded columns it uses are loaded. */
  ghost predicate Needs(g: Gen, gs: GenState, uses: set<string>, loaded: set<string>) {
    && Loads(g.code) == uses - gs.noCopy
    && (StraightOk(g.code, loaded) && Readable(g.ret, loaded + Loads(g.code)) <==> uses * gs.noCopy <= loaded)
  }

  lemma NeedsUnary(g: Gen, gs: GenState, fcn: string, uses: set<string>, loaded: set<string>)
    requires Needs(g, gs, uses, loaded)
    ensures Needs(Gen1(g, fcn), gs, uses, loaded)
  {
    var i := Apply1(fcn, g.ret);
    StraightConcat(g.code, [i], loaded);
    One(i, loaded + Loads(g.code));
    hide StraightOk, Loads;
  }

  lemma One(i: Instr, loaded: set<string>)
    ensures StraightOk([i], loaded) <==> ReadsLoaded(i, loaded)
    ensures Loads([i]) == LoadedBy(i)
  {
    assert [i][1..] == [];
  }

  lemma NeedsBinary(g: Gen, h: Gen, gs: GenState, fcn: string, u: set<string>, v: set<string>, loaded: set<string>)
    requires g.ret.Copy? && g.gs.noCopy == gs.noCopy + u
    requires Needs(g, gs, u, loaded) && Needs(h, g.gs, v, loaded + Loads(g.code))
    ensures Needs(Gen2(g, h, fcn), gs, u + v, loaded)
  {
    var i := Apply2(fcn, g.ret, h.ret);
    StraightConcat(g.code, h.code, loaded);
    StraightConcat(g.code + h.code, [i], loaded);
    One(i, loaded + Loads(g.code + h.code));
    hide StraightOk, Loads;
    assert loaded + Loads(g.code) + Loads(h.code) == loaded + Loads(g.code + h.code);
    UnionNeeds(gs.noCopy, u, v, loaded);
  }

  lemma UnionNeeds(rec: set<string>, u: set<string>, v: set<string>, loaded: set<string>)
    ensures u * rec <= loaded && v * (rec + u) <= loaded + (u - rec) <==> (u + v) * rec <= loaded
    ensures (u - rec) + (v - (rec + u)) == (u + v) - rec
  {
    if (u + v) * rec <= loaded {
      forall f | f in v * (rec + u) ensures f in loaded + (u - rec) {
        if f in rec { assert f in (u + v) * rec; }
      }
      forall f | f in u * rec ensures f in loaded { assert f in (u + v) * rec; }
    }
    if u * rec <= loaded && v * (rec + u) <= loaded + (u - rec) {
      forall f | f in (u + v) * rec ensures f in loaded {
        if f in u { assert f in u * rec; } else { assert f in v * (rec + u); }
      }
    }
  }

  lemma {:induction false} ExprNeeds(e: Expr, gs: GenState, left: bool, loaded: set<string>)
    requires Compilable(e) && Numbered(gs)
    ensures Needs(GenExpr(e, gs, left), gs, Uses(e, left), loaded)
  {
    match e
    case Literal(_, _) =>
      One(LoadWithCopy(Copy(gs.copies), FromConst(|gs.consts|)), loaded);
    case Column(f, _) =>
      One(LoadWithCopy(Copy(gs.copies), FromField(f)), loaded);
      One(Load(NoCopy(f), f), loaded);
      assert Loads([]) == {};
    case Unary(op, a) =>
      hide Needs, UnaryNicFcn;
      ExprNeeds(a, gs, true, loaded);
      NeedsUnary(GenExpr(a, gs, true), gs, UnaryNicFcn(op), Uses(a, true), loaded);
    case Binary(op, l, r) =>
      hide Needs, NicFcn, Numbered, Shape;
      GenExprShape(l, gs, true);
      var g := GenExpr(l, gs, true);
      ShapeRet(g, gs, Uses(l, true));
      ShapeNumbered(g, gs, true, Uses(l, true));
      ExprNeeds(l, gs, true, loaded);
      ExprNeeds(r, g.gs, false, loaded + Loads(g.code));
      NeedsBinary(g, GenExpr(r, g.gs, false), gs, NicFcn(op), Uses(l, true), Uses(r, false), loaded);
    case GroupVar(def) =>
      hide Needs;
      ExprNeeds(def, gs, true, loaded);
  }

  lemma {:induction false} PredNeeds(p: Pred, gs: GenState, loaded: set<string>)
    requires CompilablePred(p) && Numbered(gs)
    ensures Needs(GenPred(p, gs), gs, PredUses(p), loaded)
  {
    match p
    case Compare(op, l, r) =>
      hide Needs, NicFcn, Numbered, Shape, GenExpr, Uses, Compilable;
      GenExprShape(l, gs, true);
      var g := GenExpr(l, gs, true);
      ShapeRet(g, gs, Uses(l, true));
      ShapeNumbered(g, gs, true, Uses(l, true));
      ExprNeeds(l, gs, true, loaded);
      ExprNeeds(r, g.gs, false, loaded + Loads(g.code));
      NeedsBinary(g, GenExpr(r, g.gs, false), gs, NicFcn(op), Uses(l, true), Uses(r, false), loaded);
    case PredUnary(op, a) =>
      hide Needs, UnaryNicFcn;
      PredNeeds(a, gs, loaded);
      NeedsUnary(GenPred(a, gs), gs, UnaryNicFcn(op), PredUses(a), loaded);
    case PredBinary(op, a, b) =>
      hide Needs, NicFcn, Numbered, Shape;
      GenPredShape(a, gs);
      var g := GenPred(a, gs);
      ShapeRet(g, gs, PredUses(a));
      ShapeNumbered(g, gs, true, PredUses(a));
      PredNeeds(a, gs, loaded);
      PredNeeds(b, g.gs, loaded + Loads(g.code));
      NeedsBinary(g, GenPred(b, g.gs), gs, NicFcn(op), PredUses(a), PredUses(b), loaded);
  }

  /** Walking through one predicate: it must find its recorded columns loaded, and leaves all its columns loaded. */
  lemma WalkPred(p: Pred, gs: GenState, loaded: set<string>, rest: seq<Instr>, oracle: seq<bool>)
    requires CompilablePred(p) && Numbered(gs)
    ensures Walk(GenPred(p, gs).code + rest, oracle, loaded)
        <==> PredUses(p) * gs.noCopy <= loaded && Walk(rest, oracle, loaded + PredUses(p))
  {
    var g := GenPred(p, gs);
    hide GenPred, PredUses, CompilablePred, Numbered, Walk;
    GenPredStraight(p, gs);
    PredNeeds(p, gs, loaded);
    WalkStraight(g.code, rest, oracle, loaded);
    if PredUses(p) * gs.noCopy <= loaded {
      assert loaded + (PredUses(p) - gs.noCopy) == loaded + PredUses(p) by {
        forall f | f in PredUses(p) ensures f in loaded + (PredUses(p) - gs.noCopy) {
          if f in gs.noCopy { assert f in PredUses(p) * gs.noCopy; }
        }
      }
    }
  }

  lemma WalkJump(i: Instr, rest: seq<Instr>, oracle: seq<bool>, loaded: set<string>)
    requires (i.JumpIfZero? || i.JumpIfNotZero?) && i.v.Copy?
    ensures Walk([i] + rest, oracle, loaded) <==>
      (oracle == [] || if oracle[0] then WalkTo(rest, i.target, oracle[1..], loaded)
                       else Walk(rest, oracle[1..], loaded))
  {
    assert ([i] + rest)[1..] == rest;
  }

  lemma WalkOut(code: seq<Instr>, rest: seq<Instr>, name: LabelName, target: seq<Instr>, oracle: seq<bool>,
      loaded: set<string>)
    requires forall k :: 0 <= k < |code| ==> !code[k].Label?
    requires After(rest, name) == Some(target)
    ensures WalkTo(code + rest, name, oracle, loaded) <==> Walk(target, oracle, loaded)
  {
    hide Walk;
    AfterSkip(code, rest, name);
  }

  /** How a path leaves the predicates of an LFTA. */
  datatype Leave = ToPass | ToRest | ToNext | Ended

  lemma {:induction false} WalkPreds(mode: Mode, ps: seq<Pred>, i: nat, gs: GenState, loaded: set<string>,
      oracle: seq<bool>,
      rest: seq<Instr>, target: seq<Instr>,
      pass: seq<Instr>) returns (how: Leave, oracle': seq<bool>, loaded': set<string>)
    requires AllCompilable(ps) && Numbered(gs) && SafePreds(ps, gs.noCopy, loaded)
    requires After(rest, LftaLabel(i + 1)) == Some(target) && (mode.Filter? ==> After(rest, Pass) == Some(pass))
    ensures how.ToPass? ==> mode.Filter?
    ensures Walk(GenPreds(mode, ps, i, gs).code + rest, oracle, loaded)
        <==> match how
             case ToPass => Walk(pass, oracle', loaded')
             case ToRest => Walk(rest, oracle', loaded')
             case ToNext => Walk(target, oracle', loaded')
             case Ended => true
    ensures loaded + FirstUses(ps) <= loaded'
    decreases |ps|
  {
    hide GenPred, CompilablePred, PredUses, Numbered, Walk, WalkTo, After;
    oracle', loaded' := oracle, loaded;
    if ps == [] {
      assert [] + rest == rest;
      how := ToRest;
    } else {
      var g := GenPred(ps[0], gs);
      var b := GenPreds(mode, ps[1..], i, g.gs);
      var jump := JumpAfter(mode, g.ret, |ps| == 1, i);
      assert (g.code + ([jump] + b.code)) + rest == g.code + ([jump] + (b.code + rest));
      GenPredStraight(ps[0], gs);
      GenPredsShape(mode, ps[1..], i, g.gs);
      WalkPred(ps[0], gs, loaded, [jump] + (b.code + rest), oracle);
      loaded' := loaded + PredUses(ps[0]);
      WalkJump(jump, b.code + rest, oracle, loaded');
      if oracle == [] {
        how := Ended;
      } else if oracle[0] {
        oracle' := oracle[1..];
        if jump.target == Pass {
          WalkOut(b.code, rest, Pass, pass, oracle', loaded');
          how := ToPass;
        } else {
          WalkOut(b.code, rest, LftaLabel(i + 1), target, oracle', loaded');
          how := ToNext;
        }
      } else {
        how, oracle', loaded' := WalkPreds(mode, ps[1..], i, g.gs, loaded', oracle[1..], rest, target, pass);
      }
    }
  }

  lemma {:induction false} SafePredsMore(ps: seq<Pred>, rec: set<string>, small: set<string>, big: set<string>)
    requires SafePreds(ps, rec, small) && small <= big
    ensures SafePreds(ps, rec, big)
    decreases |ps|
  {
    if ps != [] {
      hide PredUses;
      SafePredsMore(ps[1..], rec + PredUses(ps[0]), small + PredUses(ps[0]), big + PredUses(ps[0]));
    }
  }

  lemma {:induction false} SafeMore(qs: seq<Lfta>, i: nat, rec: set<string>, small: set<string>, big: set<string>)
    requires i <= |qs| && SafeFrom(qs, i, rec, small) && small <= big
    ensures SafeFrom(qs, i, rec, big)
    decreases |qs| - i
  {
    if i < |qs| {
      hide SafePreds, AllUses, FirstUses;
      var ps := qs[i].preds;
      SafePredsMore(ps, rec, small, big);
      SafeMore(qs, i + 1, rec + AllUses(ps), small + FirstUses(ps), big + FirstUses(ps));
    }
  }

  lemma WalkHead(i: nat, rest: seq<Instr>, oracle: seq<bool>, loaded: set<string>)
    ensures Walk([Comment, Label(LftaLabel(i))] + rest, oracle, loaded) <==> Walk(rest, oracle, loaded)
  {
    var code := [Comment, Label(LftaLabel(i))] + rest;
    assert code[1..][1..] == rest;
    assert loaded + {} == loaded;
  }

  lemma WalkQuiet(e: Instr, rest: seq<Instr>, oracle: seq<bool>, loaded: set<string>)
    requires e.PackAndSend? || e.SendPacket? || e.Label?
    ensures Walk([e] + rest, oracle, loaded) <==> Walk(rest, oracle, loaded)
  {
    assert ([e] + rest)[1..] == rest && loaded + {} == loaded;
  }

  lemma WalkEnd(n: nat, oracle: seq<bool>, loaded: set<string>)
    ensures var end := [Label(ExitLabel), Exit];
            && Walk(end, oracle, loaded) && Walk([Label(LftaLabel(n))] + end, oracle, loaded)
            && Walk(PassCode(n), oracle, loaded)
  {
    var end := [Label(ExitLabel), Exit];
    assert end == [Label(ExitLabel)] + [Exit];
    WalkQuiet(Label(ExitLabel), [Exit], oracle, loaded);
    WalkQuiet(Label(LftaLabel(n)), end, oracle, loaded);
    WalkQuiet(SendPacket, [Label(LftaLabel(n))] + end, oracle, loaded);
  }

  lemma WalkTail(mode: Mode, n: nat, oracle: seq<bool>, loaded: set<string>)
    ensures Walk(Tail(mode, n), oracle, loaded)
  {
    WalkEnd(n, oracle, loaded);
    if mode.Packed? {
      assert Tail(mode, n) == [Label(LftaLabel(n))] + [Label(ExitLabel), Exit];
    } else {
      assert Tail(mode, n) == [Label(Pass)] + PassCode(n);
      hide PassCode, Tail;
      WalkQuiet(Label(Pass), PassCode(n), oracle, loaded);
    }
  }

  /** The code between the predicates of LFTA i and the next LFTA. */
  function Send(mode: Mode, i: nat): seq<Instr> {
    if mode.Packed? then [PackAndSend(i)] else []
  }

  lemma WalkSend(mode: Mode, i: nat, rest: seq<Instr>, oracle: seq<bool>, loaded: set<string>)
    ensures Walk(Send(mode, i) + rest, oracle, loaded) <==> Walk(rest, oracle, loaded)
    ensures forall l :: After(Send(mode, i) + rest, l) == After(rest, l)
  {
    forall l ensures After(Send(mode, i) + rest, l) == After(rest, l) {
      AfterSkip(Send(mode, i), rest, l);
    }
    hide Walk, After;
    if mode.Packed? {
      WalkQuiet(PackAndSend(i), rest, oracle, loaded);
    } else {
      assert [] + rest == rest;
    }
  }

  lemma BodySplit(mode: Mode, qs: seq<Lfta>, i: nat, gs: GenState)
    requires i < |qs|
    ensures Body(mode, qs, i, gs)
         == GenPreds(mode, qs[i].preds, i, gs).code
          + (Send(mode, i) + GenFrom(mode, qs, i + 1, GenLfta(mode, qs[i], i, gs).gs).code)
  {
    hide GenPreds, GenFrom, GenLfta;
  }

  /** If the condition holds, every path is fine. */
  lemma {:induction false} SafeWalks(mode: Mode, qs: seq<Lfta>, i: nat, gs: GenState, loaded: set<string>,
      oracle: seq<bool>)
    requires i <= |qs| && CompilableLftas(qs) && Numbered(gs) && SafeFrom(qs, i, gs.noCopy, loaded)
    ensures Walk(Body(mode, qs, i, gs), oracle, loaded) && Walk(GenFrom(mode, qs, i, gs).code, oracle, loaded)
    decreases |qs| - i
  {
    hide Numbered, AllCompilable, GenPreds, GenLfta, SafePreds, AllUses, FirstUses, Walk, After, PassCode, Tail;
    if i == |qs| {
      WalkEnd(i, oracle, loaded);
      WalkTail(mode, i, oracle, loaded);
    } else {
      var q := qs[i];
      LftaState(mode, q, i, gs);
      var l := GenLfta(mode, q, i, gs);
      var next, target := GenFrom(mode, qs, i + 1, l.gs).code, Body(mode, qs, i + 1, l.gs);
      AfterNext(mode, qs, i + 1, l.gs);
      if mode.Filter? { AfterPass(qs, i + 1, l.gs); }
      WalkSend(mode, i, next, oracle, loaded);
      BodySplit(mode, qs, i, gs);
      CodeIsBody(mode, qs, i, gs);
      hide Body, GenFrom;
      var how, oracle', loaded' :=
        WalkPreds(mode, q.preds, i, gs, loaded, oracle, Send(mode, i) + next, target, PassCode(|qs|));
      SafeMore(qs, i + 1, l.gs.noCopy, loaded + FirstUses(q.preds), loaded');
      SafeWalks(mode, qs, i + 1, l.gs, loaded', oracle');
      WalkSend(mode, i, next, oracle', loaded');
      WalkEnd(|qs|, oracle', loaded');
      WalkHead(i, Body(mode, qs, i, gs), oracle, loaded);
    }
  }

  /** If the predicates of one LFTA violate the condition, the path that stays in it reads an unloaded variable. */
  lemma {:induction false} UnsafePreds(mode: Mode, ps: seq<Pred>, i: nat, gs: GenState, loaded: set<string>,
      rest: seq<Instr>) returns (oracle: seq<bool>)
    requires AllCompilable(ps) && Numbered(gs) && !SafePreds(ps, gs.noCopy, loaded)
    ensures !Walk(GenPreds(mode, ps, i, gs).code + rest, oracle, loaded)
    decreases |ps|
  {
    hide GenPred, CompilablePred, PredUses, Numbered, Walk, WalkTo;
    var g := GenPred(ps[0], gs);
    var b := GenPreds(mode, ps[1..], i, g.gs);
    var jump := JumpAfter(mode, g.ret, |ps| == 1, i);
    assert (g.code + ([jump] + b.code)) + rest == g.code + ([jump] + (b.code + rest));
    GenPredStraight(ps[0], gs);
    if PredUses(ps[0]) * gs.noCopy <= loaded {
      var o := UnsafePreds(mode, ps[1..], i, g.gs, loaded + PredUses(ps[0]), rest);
      oracle := [false] + o;
      assert oracle[1..] == o;
      WalkJump(jump, b.code + rest, oracle, loaded + PredUses(ps[0]));
    } else {
      oracle := [];
    }
    WalkPred(ps[0], gs, loaded, [jump] + (b.code + rest), oracle);
  }

  /** Leave an LFTA right after its first predicate (or at once, if it has none). */
  lemma LeaveEarly(mode: Mode, ps: seq<Pred>, i: nat, gs: GenState, loaded: set<string>,
      rest: seq<Instr>, target: seq<Instr>, o: seq<bool>) returns (oracle: seq<bool>)
    requires AllCompilable(ps) && Numbered(gs)
    requires After(rest, LftaLabel(i + 1)) == Some(target)
    requires !Walk(rest, o, loaded + FirstUses(ps)) && !Walk(target, o, loaded + FirstUses(ps))
    ensures !Walk(GenPreds(mode, ps, i, gs).code + rest, oracle, loaded)
  {
    hide GenPred, CompilablePred, PredUses, Numbered, Walk, WalkTo, After;
    if ps == [] {
      oracle := o;
      assert [] + rest == rest && loaded + {} == loaded;
    } else {
      var g := GenPred(ps[0], gs);
      var b := GenPreds(mode, ps[1..], i, g.gs);
      var jump := JumpAfter(mode, g.ret, |ps| == 1, i);
      assert (g.code + ([jump] + b.code)) + rest == g.code + ([jump] + (b.code + rest));
      GenPredStraight(ps[0], gs);
      GenPredsShape(mode, ps[1..], i, g.gs);
      oracle := [jump.target != Pass] + o;
      assert oracle[1..] == o;
      WalkJump(jump, b.code + rest, oracle, loaded + PredUses(ps[0]));
      WalkOut(b.code, rest, LftaLabel(i + 1), target, o, loaded + PredUses(ps[0]));
      if jump.target == Pass {
        assert b.code + rest == rest;
      }
      WalkPred(ps[0], gs, loaded, [jump] + (b.code + rest), oracle);
    }
  }

  /** If the condition fails, some path reads a no-copy variable that it never loaded. */
  lemma {:induction false} UnsafeWalks(mode: Mode, qs: seq<Lfta>, i: nat, gs: GenState,
      loaded: set<string>) returns (oracle: seq<bool>)
    requires i <= |qs| && CompilableLftas(qs) && Numbered(gs) && !SafeFrom(qs, i, gs.noCopy, loaded)
    ensures !Walk(Body(mode, qs, i, gs), oracle, loaded) && !Walk(GenFrom(mode, qs, i, gs).code, oracle, loaded)
    decreases |qs| - i
  {
    hide Numbered, AllCompilable, GenPreds, GenLfta, SafePreds, AllUses, FirstUses, Walk, After;
    var q := qs[i];
    LftaState(mode, q, i, gs);
    var l := GenLfta(mode, q, i, gs);
    var next := GenFrom(mode, qs, i + 1, l.gs).code;
    BodySplit(mode, qs, i, gs);
    CodeIsBody(mode, qs, i, gs);
    if SafePreds(q.preds, gs.noCopy, loaded) {
      var o := UnsafeWalks(mode, qs, i + 1, l.gs, loaded + FirstUses(q.preds));
      AfterNext(mode, qs, i + 1, l.gs);
      hide Body, GenFrom, Send;
      WalkSend(mode, i, next, o, loaded + FirstUses(q.preds));
      oracle := LeaveEarly(mode, q.preds, i, gs, loaded, Send(mode, i) + next, Body(mode, qs, i + 1, l.gs), o);
    } else {
      hide Body, GenFrom, Send;
      oracle := UnsafePreds(mode, q.preds, i, gs, loaded, Send(mode, i) + next);
    }
    WalkHead(i, Body(mode, qs, i, gs), oracle, loaded);
  }

  /**
   * Exactness, in both modes: the condition on the LFTAs holds if and only if on every control-flow path of
   * the generated program every no-copy variable is loaded before it is used.
   */
  lemma LoadsBeforeUsesIsExact(mode: Mode, qs: seq<Lfta>)
    requires CompilableLftas(qs)
    ensures LoadsBeforeUses(qs) <==> forall oracle :: Walk(GenFrom(mode, qs, 0, START).code, oracle, {})
  {
    hide GenFrom, CompilableLftas, SafeFrom, Walk;
    if LoadsBeforeUses(qs) {
      forall oracle ensures Walk(GenFrom(mode, qs, 0, START).code, oracle, {}) {
        SafeWalks(mode, qs, 0, START, {}, oracle);
      }
    } else {
      var oracle := UnsafeWalks(mode, qs, 0, START, {});
    }
  }
}
