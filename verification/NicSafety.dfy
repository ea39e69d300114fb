/** NIC-safety of predicates: what pr_is_nic_safe accepts compiles without errors and uses only legal parts. */
module NicSafety {
  import opened NicLanguage
  import opened NicGenerator
  import opened NicTables
  import opened NicCorrect
  import opened NicProgram
  import opened NicSends

  /** The card's properties: legal types and operators, and the fields it cannot read. */
  datatype NicProperty = NicProperty(types: seq<string>, binaryOps: seq<string>, unaryOps: seq<string>,
      illegalFields: seq<string>)

  predicate ExprSafe(e: Expr, nic: NicProperty) {
    match e
    case Literal(_, ty) => ty in nic.types
    case Unary(op, a) => ExprSafe(a, nic) && op in nic.unaryOps
    case Binary(op, l, r) => ExprSafe(l, nic) && ExprSafe(r, nic) && op in nic.binaryOps
    case GroupVar(def) => ExprSafe(def, nic)
    case Column(f, ty) => ty in nic.types && f !in nic.illegalFields
    case _ => false
  }

  predicate PredSafe(p: Pred, nic: NicProperty) {
    match p
    case Compare(op, l, r) => ExprSafe(l, nic) && ExprSafe(r, nic) && op in nic.binaryOps
    case PredUnary(op, a) => PredSafe(a, nic) && op in nic.unaryOps
    case PredBinary(op, a, b) => PredSafe(a, nic) && PredSafe(b, nic) && op in nic.binaryOps
    case _ => false
  }

  /** Every operator the card declares legal is in the generator's name tables. */
  predicate TablesCover(nic: NicProperty) {
    && (forall op :: op in nic.binaryOps ==> SqlBinary(op) != NoBinary)
    && (forall op :: op in nic.unaryOps ==> SqlUnary(op) != NoUnary)
  }

  lemma {:induction false} SafeExprCompiles(e: Expr, nic: NicProperty)
    requires ExprSafe(e, nic) && TablesCover(nic)
    ensures Compilable(e)
  {
    match e
    case Unary(_, a) => SafeExprCompiles(a, nic);
    case Binary(_, l, r) => SafeExprCompiles(l, nic); SafeExprCompiles(r, nic);
    case GroupVar(def) => SafeExprCompiles(def, nic);
    case _ =>
  }

  lemma {:induction false} SafePredCompiles(p: Pred, nic: NicProperty)
    requires PredSafe(p, nic) && TablesCover(nic)
    ensures CompilablePred(p)
  {
    match p
    case Compare(_, l, r) => SafeExprCompiles(l, nic); SafeExprCompiles(r, nic);
    case PredUnary(_, a) => SafePredCompiles(a, nic);
    case PredBinary(_, a, b) => SafePredCompiles(a, nic); SafePredCompiles(b, nic);
  }

  // ------------------------------------------------ no error branch

  /** Not the mark of an error branch, and not an application of the name that the table scan returns on failure. */
  predicate ErrorFree(i: Instr) {
    !i.Error? && (i.Apply1? || i.Apply2? ==> i.fcn != "ERROR")
  }

  ghost predicate NoErrors(g: Gen) {
    (forall k :: 0 <= k < |g.code| ==> ErrorFree(g.code[k])) && g.ret != Bad
  }

  lemma KnownBinary(op: string)
    requires SqlBinary(op) != NoBinary
    ensures NicFcn(op) != "ERROR"
  {
    Repeated();
    hide *;
    BinaryTable(op);
  }

  lemma KnownUnary(op: string)
    requires SqlUnary(op) != NoUnary
    ensures UnaryNicFcn(op) != "ERROR"
  {
    UnarySize();
    hide *;
    UnaryTable(op);
  }

  lemma NoErrorsUnary(g: Gen, fcn: string, gs: GenState)
    requires NoErrors(g) && fcn != "ERROR"
    ensures NoErrors(Gen(g.code + [Apply1(fcn, g.ret)], g.ret, gs))
  {
  }

  lemma NoErrorsBinary(g: Gen, h: Gen, fcn: string, gs: GenState)
    requires NoErrors(g) && NoErrors(h) && fcn != "ERROR"
    ensures NoErrors(Gen(g.code + h.code + [Apply2(fcn, g.ret, h.ret)], g.ret, gs))
  {
  }

  lemma {:induction false} ExprNoErrors(e: Expr, gs: GenState, left: bool)
    requires Compilable(e)
    ensures NoErrors(GenExpr(e, gs, left))
  {
    match e
    case Unary(op, a) =>
      hide NoErrors, UnaryNicFcn, SqlUnary;
      ExprNoErrors(a, gs, true);
      KnownUnary(op);
      NoErrorsUnary(GenExpr(a, gs, true), UnaryNicFcn(op), GenExpr(a, gs, true).gs);
    case Binary(op, l, r) =>
      hide NoErrors, NicFcn, SqlBinary;
      var g := GenExpr(l, gs, true);
      ExprNoErrors(l, gs, true);
      ExprNoErrors(r, g.gs, false);
      KnownBinary(op);
      NoErrorsBinary(g, GenExpr(r, g.gs, false), NicFcn(op), GenExpr(r, g.gs, false).gs);
    case GroupVar(def) =>
      ExprNoErrors(def, gs, true);
    case Literal(_, _) =>
    case Column(_, _) =>
  }

  lemma {:induction false} PredNoErrors(p: Pred, gs: GenState)
    requires CompilablePred(p)
    ensures NoErrors(GenPred(p, gs))
  {
    match p
    case Compare(op, l, r) =>
      hide NoErrors, NicFcn, SqlBinary, GenExpr;
      var g := GenExpr(l, gs, true);
      ExprNoErrors(l, gs, true);
      ExprNoErrors(r, g.gs, false);
      KnownBinary(op);
      NoErrorsBinary(g, GenExpr(r, g.gs, false), NicFcn(op), GenExpr(r, g.gs, false).gs);
    case PredUnary(op, a) =>
      hide NoErrors, UnaryNicFcn, SqlUnary;
      PredNoErrors(a, gs);
      KnownUnary(op);
      NoErrorsUnary(GenPred(a, gs), UnaryNicFcn(op), GenPred(a, gs).gs);
    case PredBinary(op, a, b) =>
      hide NoErrors, NicFcn, SqlBinary;
      var g := GenPred(a, gs);
      PredNoErrors(a, gs);
      PredNoErrors(b, g.gs);
      KnownBinary(op);
      NoErrorsBinary(g, GenPred(b, g.gs), NicFcn(op), GenPred(b, g.gs).gs);
  }

  /**
   * A predicate that pr_is_nic_safe accepts compiles to code with no error mark, no unknown function, and a result
   * variable.
   */
  lemma SafePredNoErrors(p: Pred, gs: GenState, nic: NicProperty)
    requires PredSafe(p, nic) && TablesCover(nic)
    ensures CompilablePred(p)
    ensures forall k :: 0 <= k < |GenPred(p, gs).code| ==>
              var i := GenPred(p, gs).code[k]; !i.Error? && (i.Apply1? || i.Apply2? ==> i.fcn != "ERROR")
    ensures GenPred(p, gs).ret != Bad
  {
    hide PredSafe, TablesCover, GenPred, CompilablePred;
    SafePredCompiles(p, nic);
    PredNoErrors(p, gs);
  }

  /** An instruction that loads only readable fields and applies only functions of legal operators. */
  ghost predicate LegalInstr(i: Instr, nic: NicProperty) {
    match i
    case LoadWithCopy(_, FromField(f)) => f !in nic.illegalFields
    case LoadWithCopy(_, FromConst(_)) => true
    case Load(_, f) => f !in nic.illegalFields
    case Apply1(fcn, _) => exists op :: op in nic.unaryOps && fcn == UnaryNicFcn(op)
    case Apply2(fcn, _, _) => exists op :: op in nic.binaryOps && fcn == NicFcn(op)
    case _ => false
  }

  ghost predicate Legal(code: seq<Instr>, nic: NicProperty) {
    forall i :: 0 <= i < |code| ==> LegalInstr(code[i], nic)
  }

  /** The constants declared beyond the given ones are literals of legal types. */
  ghost predicate LegalConsts(g: GenState, gs: GenState, lits: set<(string, string)>, nic: NicProperty) {
    forall c :: c in g.consts ==>
      (c in gs.consts && g.consts[c] == gs.consts[c]) || LegalLiteral(g.consts[c], lits, nic)
  }

  ghost predicate LegalLiteral(text: string, lits: set<(string, string)>, nic: NicProperty) {
    exists ty :: ty in nic.types && (text, ty) in lits
  }

  function Literals(e: Expr): set<(string, string)> {
    match e
    case Literal(text, ty) => {(text, ty)}
    case Unary(_, a) => Literals(a)
    case Binary(_, l, r) => Literals(l) + Literals(r)
    case GroupVar(def) => Literals(def)
    case _ => {}
  }

  function PredLiterals(p: Pred): set<(string, string)> {
    match p
    case Compare(_, l, r) => Literals(l) + Literals(r)
    case PredUnary(_, a) => PredLiterals(a)
    case PredBinary(_, a, b) => PredLiterals(a) + PredLiterals(b)
    case _ => {}
  }

  ghost predicate LegalGen(g: Gen, gs: GenState, lits: set<(string, string)>, nic: NicProperty) {
    Legal(g.code, nic) && LegalConsts(g.gs, gs, lits, nic)
  }

  lemma LegalUnary(g: Gen, gs: GenState, lits: set<(string, string)>, op: string, nic: NicProperty)
    requires LegalGen(g, gs, lits, nic) && op in nic.unaryOps
    ensures LegalGen(Gen1(g, UnaryNicFcn(op)), gs, lits, nic)
  {
    hide UnaryNicFcn, LegalConsts;
    assert LegalInstr(Apply1(UnaryNicFcn(op), g.ret), nic);
    hide LegalInstr;
  }

  lemma LegalBinary(g: Gen, h: Gen, gs: GenState, a: set<(string, string)>, b: set<(string, string)>, op: string,
      nic: NicProperty)
    requires LegalGen(g, gs, a, nic) && LegalGen(h, g.gs, b, nic) && op in nic.binaryOps
    ensures LegalGen(Gen2(g, h, NicFcn(op)), gs, a + b, nic)
  {
    hide NicFcn;
    assert LegalInstr(Apply2(NicFcn(op), g.ret, h.ret), nic);
    hide LegalInstr;
    forall t | LegalLiteral(t, a, nic) || LegalLiteral(t, b, nic) ensures LegalLiteral(t, a + b, nic) {
    }
    hide LegalLiteral;
  }

  lemma {:induction false} SafeExprLegal(e: Expr, gs: GenState, left: bool, nic: NicProperty)
    requires ExprSafe(e, nic)
    ensures LegalGen(GenExpr(e, gs, left), gs, Literals(e), nic)
  {
    match e
    case Unary(op, a) =>
      hide LegalGen, UnaryNicFcn;
      SafeExprLegal(a, gs, true, nic);
      LegalUnary(GenExpr(a, gs, true), gs, Literals(a), op, nic);
    case Binary(op, l, r) =>
      hide LegalGen, NicFcn;
      SafeExprLegal(l, gs, true, nic);
      var g := GenExpr(l, gs, true);
      SafeExprLegal(r, g.gs, false, nic);
      LegalBinary(g, GenExpr(r, g.gs, false), gs, Literals(l), Literals(r), op, nic);
    case GroupVar(def) =>
      hide LegalGen;
      SafeExprLegal(def, gs, true, nic);
    case Literal(text, ty) =>
      assert LegalLiteral(text, Literals(e), nic);
    case Column(_, _) =>
  }

  /**
   * A predicate that pr_is_nic_safe accepts compiles without reaching an error branch, loads only legal fields, applies
   * only functions of legal operators, and declares only constants that are literals of legal types.
   */
  lemma {:induction false} SafePredLegal(p: Pred, gs: GenState, nic: NicProperty)
    requires PredSafe(p, nic)
    ensures LegalGen(GenPred(p, gs), gs, PredLiterals(p), nic)
  {
    match p
    case Compare(op, l, r) =>
      hide LegalGen, NicFcn, GenExpr, Literals, ExprSafe;
      SafeExprLegal(l, gs, true, nic);
      var g := GenExpr(l, gs, true);
      SafeExprLegal(r, g.gs, false, nic);
      LegalBinary(g, GenExpr(r, g.gs, false), gs, Literals(l), Literals(r), op, nic);
    case PredUnary(op, a) =>
      hide LegalGen, UnaryNicFcn;
      SafePredLegal(a, gs, nic);
      LegalUnary(GenPred(a, gs), gs, PredLiterals(a), op, nic);
    case PredBinary(op, a, b) =>
      hide LegalGen, NicFcn;
      SafePredLegal(a, gs, nic);
      var g := GenPred(a, gs);
      SafePredLegal(b, g.gs, nic);
      LegalBinary(g, GenPred(b, g.gs), gs, PredLiterals(a), PredLiterals(b), op, nic);
  }

  /** The filter clause of an LFTA as the query plan gives it. */
  datatype Clause = Clause(filter: seq<Pred>, gid: string)

  function SafePart(ps: seq<Pred>, nic: NicProperty): (r: seq<Pred>)
    ensures forall k :: 0 <= k < |r| ==> r[k] in ps && PredSafe(r[k], nic)
  {
    if ps == [] then []
    else SafePart(ps[..|ps| - 1], nic) + (if PredSafe(ps[|ps| - 1], nic) then [ps[|ps| - 1]] else [])
  }

  /** The loop that keeps the NIC-safe predicates of every LFTA. */
  method CollectSafe(clauses: seq<Clause>, nic: NicProperty) returns (qs: seq<Lfta>)
    requires TablesCover(nic)
    ensures |qs| == |clauses|
    ensures forall i :: 0 <= i < |qs| ==> qs[i] == Lfta(SafePart(clauses[i].filter, nic), clauses[i].gid)
    ensures CompilableLftas(qs)
  {
    hide PredSafe, CompilablePred, TablesCover;
    qs := [];
    for i := 0 to |clauses|
      invariant |qs| == i && CompilableLftas(qs)
      invariant forall k :: 0 <= k < i ==> qs[k] == Lfta(SafePart(clauses[k].filter, nic), clauses[k].gid)
    {
      var ps := clauses[i].filter;
      var safe: seq<Pred> := [];
      for p := 0 to |ps|
        invariant safe == SafePart(ps[..p], nic)
      {
        assert ps[..p + 1][..p] == ps[..p];
        if PredSafe(ps[p], nic) {
          safe := safe + [ps[p]];
        }
      }
      assert ps[..|ps|] == ps;
      forall k | 0 <= k < |safe| ensures CompilablePred(safe[k]) {
        SafePredCompiles(safe[k], nic);
      }
      qs := qs + [Lfta(safe, clauses[i].gid)];
    }
  }

  /** A predicate the card evaluates is implied by the LFTA's full filter clause. */
  lemma {:induction false} SafePartImplied(env: Env, ps: seq<Pred>, nic: NicProperty)
    requires AllHold(env, ps)
    ensures AllHold(env, SafePart(ps, nic))
  {
    if ps != [] {
      hide EvalPred, PredSafe;
      var n := |ps| - 1;
      assert forall k :: 0 <= k < n ==> ps[..n][k] == ps[k];
      SafePartImplied(env, ps[..n], nic);
    }
  }

  // ------------------------------------------------ from filter clauses to what the card sends

  /** The packet reaches LFTA i: as a packed tuple for it, or as the packet itself. */
  predicate Reaches(env: Env, mode: Mode, code: seq<Instr>, i: nat) {
    if mode.Packed? then SentLfta(i) in Run(env, code, map[]) else Run(env, code, map[]) == [SentPacket]
  }

  lemma {:induction false} SatisfiedHas(env: Env, qs: seq<Lfta>, j: nat, i: nat)
    requires j <= i < |qs| && AllHold(env, qs[i].preds)
    ensures SentLfta(i) in Satisfied(env, qs, j)
    decreases i - j
  {
    hide AllHold;
    if j < i {
      SatisfiedHas(env, qs, j + 1, i);
    }
  }

  lemma ClauseReaches(env: Env, mode: Mode, clauses: seq<Clause>, nic: NicProperty, qs: seq<Lfta>, i: nat)
    requires |qs| == |clauses| && CompilableLftas(qs) && LoadsBeforeUses(qs)
    requires forall k :: 0 <= k < |qs| ==> qs[k] == Lfta(SafePart(clauses[k].filter, nic), clauses[k].gid)
    requires mode.Filter? ==> forall k :: 0 <= k < |qs| ==> qs[k].preds != []
    requires env.consts == GenFrom(mode, qs, 0, START).gs.consts && i < |clauses| && AllHold(env, clauses[i].filter)
    ensures Reaches(env, mode, GenFrom(mode, qs, 0, START).code, i)
  {
    hide CompilableLftas, LoadsBeforeUses, GenFrom, AllHold, SafePart, Run, Satisfied;
    SafePartImplied(env, clauses[i].filter, nic);
    match mode {
      case Packed =>
        PackedProgramCorrect(env, qs);
        SatisfiedHas(env, qs, 0, i);
      case Filter =>
        FilterProgramComplete(env, qs, i);
    }
  }

  /**
   * From filter clauses to the card: whatever packet satisfies the whole filter clause of an LFTA reaches it, provided
   * every no-copy load runs before its uses and, in filter mode, every LFTA has a safe predicate.
   */
  method Compile(mode: Mode, clauses: seq<Clause>, nic: NicProperty) returns (qs: seq<Lfta>, r: Block)
    requires TablesCover(nic)
    ensures |qs| == |clauses| && CompilableLftas(qs) && r == GenFrom(mode, qs, 0, START)
    ensures forall k :: 0 <= k < |qs| ==> qs[k] == Lfta(SafePart(clauses[k].filter, nic), clauses[k].gid)
    ensures LoadsBeforeUses(qs) && (mode.Filter? ==> forall k :: 0 <= k < |qs| ==> qs[k].preds != []) ==>
              forall env: Env, i: nat ::
                env.consts == r.gs.consts && i < |clauses| && AllHold(env, clauses[i].filter) ==>
                  Reaches(env, mode, r.code, i)
  {
    hide CompilableLftas, LoadsBeforeUses, GenFrom, AllHold, SafePart, Reaches, TablesCover;
    qs := CollectSafe(clauses, nic);
    r := Generate(mode, qs);
    if LoadsBeforeUses(qs) && (mode.Filter? ==> forall k :: 0 <= k < |qs| ==> qs[k].preds != []) {
      forall env: Env, i: nat | env.consts == r.gs.consts && i < |clauses| && AllHold(env, clauses[i].filter)
        ensures Reaches(env, mode, r.code, i)
      {
        ClauseReaches(env, mode, clauses, nic, qs, i);
      }
    }
  }
}
