/** The code generator, as functions that thread its constant table, copy-variable counter and no-copy set. */
module NicGenerator {
  import opened NicLanguage

  const FCN_FOR_OP: seq<string> := [
    "+", "plus", "-", "minus", "|", "bitwise_or", "*", "multiply", "/", "divide", "&", "bitwise_and",
    "%", "modulo", ">>", "shift_right", "<<", "shift_left", "AND", "AND", "OR", "OR", "=", "equal",
    ">", "greater", "<", "less", ">=", "greater_equal", "<=", "less_equal", "<>", "not_equal", "END"]

  const FCN_FOR_UNARY_OP: seq<string> := [
    "+", "unary_plus", "-", "unary_minus", "!", "integer_not", "~", "bitwise_not", "NOT", "logical_not", "END"]

  /** The scan of an operator table from position i: the entry after the first match, ERROR at END. */
  function ScanFrom(table: seq<string>, op: string, i: nat): string
    decreases |table| - i
  {
    if i + 1 >= |table| || table[i] == "END" then "ERROR"
    else if table[i] == op then table[i + 1]
    else ScanFrom(table, op, i + 1)
  }

  function NicFcn(op: string): string { ScanFrom(FCN_FOR_OP, op, 0) }

  function UnaryNicFcn(op: string): string { ScanFrom(FCN_FOR_UNARY_OP, op, 0) }

  /** The loop as the source writes it. */
  method Scan(table: seq<string>, op: string) returns (fcn: string)
    ensures fcn == ScanFrom(table, op, 0)
  {
    var i := 0;
    while i + 1 < |table|
      invariant i <= |table| && ScanFrom(table, op, i) == ScanFrom(table, op, 0)
    {
      if table[i] == "END" {
        break;
      }
      if table[i] == op {
        return table[i + 1];
      }
      i := i + 1;
    }
    fcn := "ERROR";
  }

  /** The generator's state: constants declared so far, copy variables used, columns with a no-copy variable. */
  datatype GenState = GenState(consts: map<ConstName, string>, copies: nat, noCopy: set<string>)

  datatype Gen = Gen(code: seq<Instr>, ret: Var, gs: GenState)

  function GenExpr(e: Expr, gs: GenState, left: bool): Gen {
    match e
    case Literal(text, _) =>
      var n := |gs.consts|;
      var gs1 := gs.(consts := gs.consts[Constant(n) := text]);
      if left then Gen([LoadWithCopy(Copy(gs.copies), FromConst(n))], Copy(gs.copies), gs1.(copies := gs.copies + 1))
      else Gen([], Const(n), gs1)
    case Unary(op, a) =>
      var g := GenExpr(a, gs, true);
      Gen(g.code + [Apply1(UnaryNicFcn(op), g.ret)], g.ret, g.gs)
    case Binary(op, l, r) =>
      var g := GenExpr(l, gs, true);
      var h := GenExpr(r, g.gs, false);
      Gen(g.code + h.code + [Apply2(NicFcn(op), g.ret, h.ret)], g.ret, h.gs)
    case GroupVar(def) => GenExpr(def, gs, true)
    case Column(f, _) =>
      if left then Gen([LoadWithCopy(Copy(gs.copies), FromField(f))], Copy(gs.copies), gs.(copies := gs.copies + 1))
      else Gen(if f in gs.noCopy then [] else [Load(NoCopy(f), f)], NoCopy(f), gs.(noCopy := gs.noCopy + {f}))
    case Call(_) => Gen([], Bad, gs)
    case _ => Gen([Error], Bad, gs)
  }

  function GenPred(p: Pred, gs: GenState): Gen {
    match p
    case Compare(op, l, r) =>
      var g := GenExpr(l, gs, true);
      var h := GenExpr(r, g.gs, false);
      Gen(g.code + h.code + [Apply2(NicFcn(op), g.ret, h.ret)], g.ret, h.gs)
    case PredUnary(op, a) =>
      var g := GenPred(a, gs);
      Gen(g.code + [Apply1(UnaryNicFcn(op), g.ret)], g.ret, g.gs)
    case PredBinary(op, a, b) =>
      var g := GenPred(a, gs);
      var h := GenPred(b, g.gs);
      Gen(g.code + h.code + [Apply2(NicFcn(op), g.ret, h.ret)], g.ret, h.gs)
    case PredCall(_) => Gen([], Bad, gs)
    case In(_) => Gen([Error], Bad, gs)
  }
}
