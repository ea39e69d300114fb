/** Correctness of the code generated for expressions and predicates. */
module NicCorrect {
  import opened NicLanguage
  import opened NicGenerator
  import opened NicTables

  /** Expressions the generator handles: no parameters, calls or aggregates, and operators of the tables. */
  predicate Compilable(e: Expr) {
    match e
    case Literal(_, _) => true
    case Unary(op, a) => SqlUnary(op) != NoUnary && Compilable(a)
    case Binary(op, l, r) => SqlBinary(op) != NoBinary && Compilable(l) && Compilable(r)
    case Column(_, _) => true
    case GroupVar(def) => Compilable(def)
    case _ => false
  }

  predicate CompilablePred(p: Pred) {
    match p
    case Compare(op, l, r) => SqlBinary(op) != NoBinary && Compilable(l) && Compilable(r)
    case PredUnary(op, a) => SqlUnary(op) != NoUnary && CompilablePred(a)
    case PredBinary(op, a, b) => SqlBinary(op) != NoBinary && CompilablePred(a) && CompilablePred(b)
    case _ => false
  }

  /** The columns used as bare right operands: those read through a shared no-copy variable. */
  function Uses(e: Expr, left: bool): set<string> {
    match e
    case Unary(_, a) => Uses(a, true)
    case Binary(_, l, r) => Uses(l, true) + Uses(r, false)
    case GroupVar(def) => Uses(def, true)
    case Column(f, _) => if left then {} else {f}
    case _ => {}
  }

  function PredUses(p: Pred): set<string> {
    match p
    case Compare(_, l, r) => Uses(l, true) + Uses(r, false)
    case PredUnary(_, a) => PredUses(a)
    case PredBinary(_, a, b) => PredUses(a) + PredUses(b)
    case _ => {}
  }

  /** Every numbered constant is below the size of the table, so the next number is fresh. */
  ghost predicate Numbered(gs: GenState) {
    forall n: nat :: Constant(n) in gs.consts ==> n < |gs.consts|
  }

  ghost predicate Declared(consts: map<ConstName, string>, all: map<ConstName, string>) {
    forall n: nat :: Constant(n) in consts ==> Constant(n) in all && all[Constant(n)] == consts[Constant(n)]
  }

  ghost predicate Extends(gs: GenState, gs': GenState) {
    gs.copies <= gs'.copies && Declared(gs.consts, gs'.consts) && Numbered(gs')
  }

  /** The result variable: a copy variable made here, a declared constant, or a no-copy variable. */
  ghost predicate RetOk(ret: Var, gs: GenState, gs': GenState, left: bool) {
    match ret
    case Copy(n) => gs.copies <= n < gs'.copies
    case NoCopy(f) => !left && f in gs'.noCopy
    case Const(n) => !left && Constant(n) in gs'.consts
    case Bad => false
  }

  /**
   * Operators and copying loads write only copy variables in [lo, hi); plain loads write the no-copy variable of
   * their field.
   */
  ghost predicate WritesFresh(code: seq<Instr>, lo: nat, hi: nat) {
    forall i :: 0 <= i < |code| ==> WriteFresh(code[i], lo, hi)
  }

  predicate WriteFresh(i: Instr, lo: nat, hi: nat) {
    match i
    case LoadWithCopy(d, _) => d.Copy? && lo <= d.n < hi
    case Load(d, f) => d == NoCopy(f)
    case Apply1(_, v) => v.Copy? && lo <= v.n < hi
    case Apply2(_, v, _) => v.Copy? && lo <= v.n < hi
    case _ => false
  }

  /** The shape of generated code: fresh targets only, and the state grows by the columns used. */
  ghost predicate Shape(g: Gen, gs: GenState, left: bool, uses: set<string>) {
    && Extends(gs, g.gs) && RetOk(g.ret, gs, g.gs, left)
    && g.gs.noCopy == gs.noCopy + uses
    && WritesFresh(g.code, gs.copies, g.gs.copies)
  }

  function Gen1(g: Gen, fcn: string): Gen {
    Gen(g.code + [Apply1(fcn, g.ret)], g.ret, g.gs)
  }

  function Gen2(g: Gen, h: Gen, fcn: string): Gen {
    Gen(g.code + h.code + [Apply2(fcn, g.ret, h.ret)], g.ret, h.gs)
  }

  lemma WritesWiden(code: seq<Instr>, lo: nat, hi: nat, lo': nat, hi': nat)
    requires WritesFresh(code, lo, hi) && lo' <= lo && hi <= hi'
    ensures WritesFresh(code, lo', hi')
  {
    forall i | 0 <= i < |code| ensures WriteFresh(code[i], lo', hi') {
      assert WriteFresh(code[i], lo, hi);
    }
  }

  lemma WritesConcat(a: seq<Instr>, b: seq<Instr>, lo: nat, hi: nat)
    requires WritesFresh(a, lo, hi) && WritesFresh(b, lo, hi)
    ensures WritesFresh(a + b, lo, hi)
  {
    hide WriteFresh;
  }

  lemma ShapeUnary(g: Gen, gs: GenState, fcn: string, uses: set<string>)
    requires Shape(g, gs, true, uses)
    ensures Shape(Gen1(g, fcn), gs, true, uses)
  {
    hide Extends;
    WritesConcat(g.code, [Apply1(fcn, g.ret)], gs.copies, g.gs.copies);
    hide WritesFresh;
  }

  lemma ShapeWeaken(g: Gen, gs: GenState, uses: set<string>)
    requires Shape(g, gs, true, uses)
    ensures Shape(g, gs, false, uses)
  {
    hide Extends, WritesFresh;
  }

  lemma ShapeBinary(g: Gen, h: Gen, gs: GenState, left: bool, fcn: string, u: set<string>, v: set<string>)
    requires Shape(g, gs, true, u) && Shape(h, g.gs, left, v)
    ensures Shape(Gen2(g, h, fcn), gs, true, u + v)
  {
    var lo, hi := gs.copies, h.gs.copies;
    assert Extends(gs, h.gs) by { hide WritesFresh; }
    hide Declared, Numbered;
    WritesWiden(g.code, lo, g.gs.copies, lo, hi);
    WritesWiden(h.code, g.gs.copies, hi, lo, hi);
    WritesConcat(g.code, h.code, lo, hi);
    assert WritesFresh([Apply2(fcn, g.ret, h.ret)], lo, hi);
    WritesConcat(g.code + h.code, [Apply2(fcn, g.ret, h.ret)], lo, hi);
    hide WritesFresh;
    assert gs.noCopy + u + v == gs.noCopy + (u + v);
  }

  lemma ShapeLiteral(text: string, ty: string, gs: GenState, left: bool)
    requires Numbered(gs)
    ensures Shape(GenExpr(Literal(text, ty), gs, left), gs, left, {})
  {
    var n := |gs.consts|;
    assert Constant(n) !in gs.consts;
    var consts := gs.consts[Constant(n) := text];
    assert |consts| == n + 1;
    assert gs.noCopy + {} == gs.noCopy;
  }

  lemma ShapeColumn(f: string, ty: string, gs: GenState, left: bool)
    requires Numbered(gs)
    ensures Shape(GenExpr(Column(f, ty), gs, left), gs, left, if left then {} else {f})
  {
    assert gs.noCopy + {} == gs.noCopy;
  }

  lemma {:induction false} GenExprShape(e: Expr, gs: GenState, left: bool)
    requires Compilable(e) && Numbered(gs)
    ensures Shape(GenExpr(e, gs, left), gs, left, Uses(e, left))
  {
    match e
    case Literal(text, ty) =>
      ShapeLiteral(text, ty, gs, left);
      hide Shape;
    case Column(f, ty) =>
      ShapeColumn(f, ty, gs, left);
      hide Shape;
    case Unary(op, a) =>
      GenExprShape(a, gs, true);
      var g := GenExpr(a, gs, true);
      ShapeUnary(g, gs, UnaryNicFcn(op), Uses(a, true));
      hide Shape, UnaryNicFcn;
      ShapeWeaken(Gen1(g, UnaryNicFcn(op)), gs, Uses(e, left));
    case Binary(op, l, r) =>
      GenExprShape(l, gs, true);
      var g := GenExpr(l, gs, true);
      ShapeNumbered(g, gs, true, Uses(l, true));
      GenExprShape(r, g.gs, false);
      var h := GenExpr(r, g.gs, false);
      hide Shape, NicFcn;
      ShapeBinary(g, h, gs, false, NicFcn(op), Uses(l, true), Uses(r, false));
      ShapeWeaken(Gen2(g, h, NicFcn(op)), gs, Uses(e, left));
    case GroupVar(def) =>
      GenExprShape(def, gs, true);
      hide Shape;
      ShapeWeaken(GenExpr(def, gs, true), gs, Uses(def, true));
  }

  lemma ShapeNumbered(g: Gen, gs: GenState, left: bool, uses: set<string>)
    requires Shape(g, gs, left, uses)
    ensures Numbered(g.gs) && Declared(gs.consts, g.gs.consts) && gs.copies <= g.gs.copies
  {
  }

  lemma {:induction false} GenPredShape(p: Pred, gs: GenState)
    requires CompilablePred(p) && Numbered(gs)
    ensures Shape(GenPred(p, gs), gs, true, PredUses(p))
  {
    match p
    case Compare(op, l, r) =>
      GenExprShape(l, gs, true);
      var g := GenExpr(l, gs, true);
      ShapeNumbered(g, gs, true, Uses(l, true));
      GenExprShape(r, g.gs, false);
      hide Shape, NicFcn, GenExpr, Uses;
      ShapeBinary(g, GenExpr(r, g.gs, false), gs, false, NicFcn(op), Uses(l, true), Uses(r, false));
    case PredUnary(op, a) =>
      GenPredShape(a, gs);
      hide Shape, UnaryNicFcn;
      ShapeUnary(GenPred(a, gs), gs, UnaryNicFcn(op), PredUses(a));
    case PredBinary(op, a, b) =>
      GenPredShape(a, gs);
      var g := GenPred(a, gs);
      ShapeNumbered(g, gs, true, PredUses(a));
      GenPredShape(b, g.gs);
      hide Shape, NicFcn;
      ShapeBinary(g, GenPred(b, g.gs), gs, true, NicFcn(op), PredUses(a), PredUses(b));
  }

  // ------------------------------------------------ running the code

  /** The no-copy variables of the given columns hold their fields. */
  ghost predicate Loaded(env: Env, st: Store, fields: set<string>) {
    forall f :: f in fields ==> Read(env, st, NoCopy(f)) == env.packet(f)
  }

  /** Copy variables below n are untouched between two stores. */
  ghost predicate SameBelow(env: Env, st: Store, st': Store, n: nat) {
    forall k: nat :: k < n ==> Read(env, st', Copy(k)) == Read(env, st, Copy(k))
  }

  /**
   * Running g from store st, where the no-copy variables of `loaded` hold their fields: the result variable
   * gets the value, the columns used become loaded, and every earlier copy variable keeps its value.
   */
  ghost predicate Computes(env: Env, g: Gen, gs: GenState, st: Store, loaded: set<string>, uses: set<string>,
      value: int) {
    var st' := Exec(env, st, g.code);
    && Read(env, st', g.ret) == value
    && Loaded(env, st', loaded + uses)
    && SameBelow(env, st, st', gs.copies)
  }

  lemma ExecOne(env: Env, st: Store, i: Instr)
    ensures Exec(env, st, [i]) == Exec1(env, st, i) && Exec(env, st, []) == st
  {
    assert [i][1..] == [];
  }

  lemma ComputesLiteral(text: string, ty: string, env: Env, gs: GenState, left: bool, st: Store, loaded: set<string>)
    requires Numbered(gs) && Declared(GenExpr(Literal(text, ty), gs, left).gs.consts, env.consts)
    requires Loaded(env, st, loaded)
    ensures Computes(env, GenExpr(Literal(text, ty), gs, left), gs, st, loaded, {}, env.literal(text))
  {
    var n := |gs.consts|;
    assert Constant(n) in env.consts && env.consts[Constant(n)] == text;
    hide Declared, Numbered;
    assert loaded + {} == loaded;
    ExecOne(env, st, LoadWithCopy(Copy(gs.copies), FromConst(n)));
    hide Exec;
    if left {
      WriteCopy(env, st, gs.copies, env.literal(text), loaded);
      hide Loaded, SameBelow;
    }
  }

  /** Writing a fresh copy variable disturbs neither the no-copy variables nor the earlier copy variables. */
  lemma WriteCopy(env: Env, st: Store, n: nat, x: int, loaded: set<string>)
    requires Loaded(env, st, loaded)
    ensures Loaded(env, st[Copy(n) := x], loaded) && SameBelow(env, st, st[Copy(n) := x], n)
  {
  }

  lemma ComputesColumn(f: string, ty: string, env: Env, gs: GenState, left: bool, st: Store, loaded: set<string>)
    requires Loaded(env, st, loaded) && (!left && f in gs.noCopy ==> f in loaded)
    ensures Computes(env, GenExpr(Column(f, ty), gs, left), gs, st, loaded, if left then {} else {f}, env.packet(f))
  {
    ExecOne(env, st, LoadWithCopy(Copy(gs.copies), FromField(f)));
    ExecOne(env, st, Load(NoCopy(f), f));
    hide Exec;
  }

  lemma ExecSnoc(env: Env, st: Store, code: seq<Instr>, i: Instr)
    ensures Exec(env, st, code + [i]) == Exec1(env, Exec(env, st, code), i)
  {
    ExecConcat(env, st, code, [i]);
    assert [i][1..] == [];
  }

  lemma ComputesUnary(env: Env, g: Gen, gs: GenState, st: Store, loaded: set<string>, uses: set<string>, value: int,
      fcn: string)
    requires Computes(env, g, gs, st, loaded, uses, value) && g.ret.Copy? && gs.copies <= g.ret.n
    ensures Computes(env, Gen1(g, fcn), gs, st, loaded, uses, env.unary(NicUnary(fcn), value))
  {
    hide Exec, NicUnary;
    ExecSnoc(env, st, g.code, Apply1(fcn, g.ret));
  }

  lemma ComputesBinary(env: Env, g: Gen, h: Gen, gs: GenState, st: Store, loaded: set<string>,
      u: set<string>, v: set<string>, x: int, y: int, fcn: string)
    requires Computes(env, g, gs, st, loaded, u, x) && g.ret.Copy? && gs.copies <= g.ret.n < g.gs.copies
    requires Computes(env, h, g.gs, Exec(env, st, g.code), loaded + u, v, y)
    ensures Computes(env, Gen2(g, h, fcn), gs, st, loaded, u + v, env.binary(NicBinary(fcn), x, y))
  {
    hide Exec, NicBinary;
    ExecConcat(env, st, g.code, h.code);
    ExecSnoc(env, st, g.code + h.code, Apply2(fcn, g.ret, h.ret));
    assert loaded + u + v == loaded + (u + v);
  }

  lemma ComputesLoaded(env: Env, g: Gen, gs: GenState, st: Store, loaded: set<string>, uses: set<string>, value: int)
    requires Computes(env, g, gs, st, loaded, uses, value)
    ensures Loaded(env, Exec(env, st, g.code), loaded + uses)
  {
  }

  lemma ShapeRet(g: Gen, gs: GenState, uses: set<string>)
    requires Shape(g, gs, true, uses)
    ensures g.ret.Copy? && gs.copies <= g.ret.n < g.gs.copies
    ensures g.gs.noCopy == gs.noCopy + uses
  {
    hide Extends, WritesFresh;
  }

  lemma DeclaredTrans(a: map<ConstName, string>, b: map<ConstName, string>, c: map<ConstName, string>)
    requires Declared(a, b) && Declared(b, c)
    ensures Declared(a, c)
  {
  }

  /** The generated code for an expression leaves its value in the result variable. */
  lemma {:induction false} GenExprCorrect(e: Expr, env: Env, gs: GenState, left: bool, st: Store, loaded: set<string>)
    requires Compilable(e) && Numbered(gs) && Declared(GenExpr(e, gs, left).gs.consts, env.consts)
    requires Loaded(env, st, loaded) && Uses(e, left) * gs.noCopy <= loaded
    ensures Computes(env, GenExpr(e, gs, left), gs, st, loaded, Uses(e, left), Eval(env, e))
  {
    match e
    case Literal(text, ty) =>
      hide Computes;
      ComputesLiteral(text, ty, env, gs, left, st, loaded);
    case Column(f, ty) =>
      hide Computes;
      ComputesColumn(f, ty, env, gs, left, st, loaded);
    case Unary(op, a) =>
      hide Computes, Shape, Declared, Loaded, Numbered, UnaryNicFcn, SqlUnary, NicUnary;
      GenExprShape(a, gs, true);
      ShapeRet(GenExpr(a, gs, true), gs, Uses(a, true));
      GenExprCorrect(a, env, gs, true, st, loaded);
      ComputesUnary(env, GenExpr(a, gs, true), gs, st, loaded, Uses(a, true), Eval(env, a), UnaryNicFcn(op));
      UnaryTable(op);
    case Binary(op, l, r) =>
      hide Computes, Shape, Declared, Loaded, Numbered, NicFcn, SqlBinary, NicBinary, Exec;
      ExprPair(l, r, env, gs, st, loaded);
      var g := GenExpr(l, gs, true);
      var st1 := Exec(env, st, g.code);
      GenExprCorrect(l, env, gs, true, st, loaded);
      ComputesLoaded(env, g, gs, st, loaded, Uses(l, true), Eval(env, l));
      GenExprCorrect(r, env, g.gs, false, st1, loaded + Uses(l, true));
      ComputesBinary(env, g, GenExpr(r, g.gs, false), gs, st, loaded, Uses(l, true), Uses(r, false),
                     Eval(env, l), Eval(env, r), NicFcn(op));
      BinaryTable(op);
    case GroupVar(def) =>
      hide Computes;
      GenExprCorrect(def, env, gs, true, st, loaded);
  }

  /** What the two operands of a binary operator may rely on. */
  lemma ExprPair(l: Expr, r: Expr, env: Env, gs: GenState, st: Store, loaded: set<string>)
    requires Compilable(l) && Compilable(r) && Numbered(gs)
    requires Declared(GenExpr(r, GenExpr(l, gs, true).gs, false).gs.consts, env.consts)
    requires (Uses(l, true) + Uses(r, false)) * gs.noCopy <= loaded
    ensures var g := GenExpr(l, gs, true);
            && g.ret.Copy? && gs.copies <= g.ret.n < g.gs.copies && Numbered(g.gs)
            && Declared(g.gs.consts, env.consts)
            && Uses(l, true) * gs.noCopy <= loaded
            && Uses(r, false) * g.gs.noCopy <= loaded + Uses(l, true)
  {
    hide Compilable, Shape, Declared, Numbered, GenExpr, Uses;
    var g := GenExpr(l, gs, true);
    GenExprShape(l, gs, true);
    ShapeRet(g, gs, Uses(l, true));
    ShapeNumbered(g, gs, true, Uses(l, true));
    GenExprShape(r, g.gs, false);
    ShapeNumbered(GenExpr(r, g.gs, false), g.gs, false, Uses(r, false));
    DeclaredTrans(g.gs.consts, GenExpr(r, g.gs, false).gs.consts, env.consts);
  }

  /** The generated code for a predicate leaves its truth value in the result variable. */
  lemma {:induction false} GenPredCorrect(p: Pred, env: Env, gs: GenState, st: Store, loaded: set<string>)
    requires CompilablePred(p) && Numbered(gs) && Declared(GenPred(p, gs).gs.consts, env.consts)
    requires Loaded(env, st, loaded) && PredUses(p) * gs.noCopy <= loaded
    ensures Computes(env, GenPred(p, gs), gs, st, loaded, PredUses(p), EvalPred(env, p))
  {
    match p
    case Compare(op, l, r) =>
      hide Computes, Shape, Declared, Loaded, Numbered, NicFcn, SqlBinary, NicBinary, Exec, GenExpr, Uses, Compilable;
      hide Eval;
      ExprPair(l, r, env, gs, st, loaded);
      var g := GenExpr(l, gs, true);
      GenExprCorrect(l, env, gs, true, st, loaded);
      ComputesLoaded(env, g, gs, st, loaded, Uses(l, true), Eval(env, l));
      GenExprCorrect(r, env, g.gs, false, Exec(env, st, g.code), loaded + Uses(l, true));
      ComputesBinary(env, g, GenExpr(r, g.gs, false), gs, st, loaded, Uses(l, true), Uses(r, false),
                     Eval(env, l), Eval(env, r), NicFcn(op));
      BinaryTable(op);
    case PredUnary(op, a) =>
      hide Computes, Shape, Declared, Loaded, Numbered, UnaryNicFcn, SqlUnary, NicUnary;
      GenPredShape(a, gs);
      ShapeRet(GenPred(a, gs), gs, PredUses(a));
      GenPredCorrect(a, env, gs, st, loaded);
      ComputesUnary(env, GenPred(a, gs), gs, st, loaded, PredUses(a), EvalPred(env, a), UnaryNicFcn(op));
      UnaryTable(op);
    case PredBinary(op, a, b) =>
      hide Computes, Shape, Declared, Loaded, Numbered, NicFcn, SqlBinary, NicBinary, Exec;
      PredPair(a, b, env, gs, loaded);
      var g := GenPred(a, gs);
      GenPredCorrect(a, env, gs, st, loaded);
      ComputesLoaded(env, g, gs, st, loaded, PredUses(a), EvalPred(env, a));
      GenPredCorrect(b, env, g.gs, Exec(env, st, g.code), loaded + PredUses(a));
      ComputesBinary(env, g, GenPred(b, g.gs), gs, st, loaded, PredUses(a), PredUses(b),
                     EvalPred(env, a), EvalPred(env, b), NicFcn(op));
      BinaryTable(op);
  }

  lemma PredPair(a: Pred, b: Pred, env: Env, gs: GenState, loaded: set<string>)
    requires CompilablePred(a) && CompilablePred(b) && Numbered(gs)
    requires Declared(GenPred(b, GenPred(a, gs).gs).gs.consts, env.consts)
    requires (PredUses(a) + PredUses(b)) * gs.noCopy <= loaded
    ensures var g := GenPred(a, gs);
            && g.ret.Copy? && gs.copies <= g.ret.n < g.gs.copies && Numbered(g.gs)
            && Declared(g.gs.consts, env.consts)
            && PredUses(a) * gs.noCopy <= loaded
            && PredUses(b) * g.gs.noCopy <= loaded + PredUses(a)
  {
    hide CompilablePred, Shape, Declared, Numbered, GenPred, PredUses;
    var g := GenPred(a, gs);
    GenPredShape(a, gs);
    ShapeRet(g, gs, PredUses(a));
    ShapeNumbered(g, gs, true, PredUses(a));
    GenPredShape(b, g.gs);
    ShapeNumbered(GenPred(b, g.gs), g.gs, true, PredUses(b));
    DeclaredTrans(g.gs.consts, GenPred(b, g.gs).gs.consts, env.consts);
  }
}
