/** Exactly which predicates the safety test accepts, and so what the card decides. */
module NicExact {
  import opened NicLanguage
  import opened NicGenerator
  import opened NicProgram
  import opened NicSends
  import opened NicCorrect
  import opened NicSafety

  // ------------------------------------------------ what a predicate is made of

  function Types(e: Expr): set<string> {
    match e
    case Literal(_, ty) => {ty}
    case Column(_, ty) => {ty}
    case Unary(_, a) => Types(a)
    case Binary(_, l, r) => Types(l) + Types(r)
    case GroupVar(def) => Types(def)
    case _ => {}
  }

  function Fields(e: Expr): set<string> {
    match e
    case Column(f, _) => {f}
    case Unary(_, a) => Fields(a)
    case Binary(_, l, r) => Fields(l) + Fields(r)
    case GroupVar(def) => Fields(def)
    case _ => {}
  }

  function UnaryOps(e: Expr): set<string> {
    match e
    case Unary(op, a) => {op} + UnaryOps(a)
    case Binary(_, l, r) => UnaryOps(l) + UnaryOps(r)
    case GroupVar(def) => UnaryOps(def)
    case _ => {}
  }

  function BinaryOps(e: Expr): set<string> {
    match e
    case Unary(_, a) => BinaryOps(a)
    case Binary(op, l, r) => {op} + BinaryOps(l) + BinaryOps(r)
    case GroupVar(def) => BinaryOps(def)
    case _ => {}
  }

  /** Somewhere a parameter, a function call, or an operator type without code. */
  predicate HasForeign(e: Expr) {
    match e
    case Param(_) => true
    case Call(_) => true
    case Other => true
    case Unary(_, a) => HasForeign(a)
    case Binary(_, l, r) => HasForeign(l) || HasForeign(r)
    case GroupVar(def) => HasForeign(def)
    case _ => false
  }

  function PredTypes(p: Pred): set<string> {
    match p
    case Compare(_, l, r) => Types(l) + Types(r)
    case PredUnary(_, a) => PredTypes(a)
    case PredBinary(_, a, b) => PredTypes(a) + PredTypes(b)
    case _ => {}
  }

  function PredFields(p: Pred): set<string> {
    match p
    case Compare(_, l, r) => Fields(l) + Fields(r)
    case PredUnary(_, a) => PredFields(a)
    case PredBinary(_, a, b) => PredFields(a) + PredFields(b)
    case _ => {}
  }

  function PredUnaryOps(p: Pred): set<string> {
    match p
    case Compare(_, l, r) => UnaryOps(l) + UnaryOps(r)
    case PredUnary(op, a) => {op} + PredUnaryOps(a)
    case PredBinary(_, a, b) => PredUnaryOps(a) + PredUnaryOps(b)
    case _ => {}
  }

  function PredBinaryOps(p: Pred): set<string> {
    match p
    case Compare(op, l, r) => {op} + BinaryOps(l) + BinaryOps(r)
    case PredUnary(_, a) => PredBinaryOps(a)
    case PredBinary(op, a, b) => {op} + PredBinaryOps(a) + PredBinaryOps(b)
    case _ => {}
  }

  /** Somewhere an IN, a predicate function, or a foreign part of an expression. */
  predicate PredHasForeign(p: Pred) {
    match p
    case In(_) => true
    case PredCall(_) => true
    case Compare(_, l, r) => HasForeign(l) || HasForeign(r)
    case PredUnary(_, a) => PredHasForeign(a)
    case PredBinary(_, a, b) => PredHasForeign(a) || PredHasForeign(b)
  }

  predicate PartsLegal(types: set<string>, fields: set<string>, unary: set<string>, binary: set<string>,
      nic: NicProperty)
  {
    && (forall ty :: ty in types ==> ty in nic.types) && (forall f :: f in fields ==> f !in nic.illegalFields)
    && (forall op :: op in unary ==> op in nic.unaryOps) && (forall op :: op in binary ==> op in nic.binaryOps)
  }

  /** All types and operators are the card's, all fields can be read, and nothing foreign occurs. */
  predicate ForCard(p: Pred, nic: NicProperty) {
    !PredHasForeign(p) && PartsLegal(PredTypes(p), PredFields(p), PredUnaryOps(p), PredBinaryOps(p), nic)
  }

  // ------------------------------------------------ the test is exact

  lemma {:induction false} ExprSafeIff(e: Expr, nic: NicProperty)
    ensures ExprSafe(e, nic) <==> !HasForeign(e) && PartsLegal(Types(e), Fields(e), UnaryOps(e), BinaryOps(e), nic)
  {
    match e
    case Unary(_, a) => ExprSafeIff(a, nic);
    case Binary(_, l, r) => ExprSafeIff(l, nic); ExprSafeIff(r, nic);
    case GroupVar(def) => ExprSafeIff(def, nic);
    case _ =>
  }

  /**
   * A predicate passes the safety test if and only if all literal and column types in it are legal, all its fields are
   * readable, all its operators are legal, and it contains no parameter, function call or IN.
   */
  lemma {:induction false} PredSafeIff(p: Pred, nic: NicProperty)
    ensures PredSafe(p, nic) <==> ForCard(p, nic)
  {
    match p
    case Compare(_, l, r) => ExprSafeIff(l, nic); ExprSafeIff(r, nic); hide ExprSafe, HasForeign;
    case PredUnary(_, a) => PredSafeIff(a, nic);
    case PredBinary(_, a, b) => PredSafeIff(a, nic); PredSafeIff(b, nic);
    case _ =>
  }

  /** r is all predicates of ps for the card, at the places ix, in order. */
  ghost predicate FilterAt(ps: seq<Pred>, nic: NicProperty, r: seq<Pred>, ix: seq<nat>) {
    && |ix| == |r| && (forall k, l :: 0 <= k < l < |ix| ==> ix[k] < ix[l])
    && (forall k :: 0 <= k < |ix| ==> ix[k] < |ps| && r[k] == ps[ix[k]])
    && (forall j: nat :: j < |ps| ==> (j in ix <==> ForCard(ps[j], nic)))
  }

  lemma FilterSnoc(ps: seq<Pred>, p: Pred, nic: NicProperty, r: seq<Pred>, ix: seq<nat>)
    requires FilterAt(ps, nic, r, ix)
    ensures FilterAt(ps + [p], nic, if ForCard(p, nic) then r + [p] else r, if ForCard(p, nic) then ix + [|ps|] else ix)
  {
    hide ForCard;
    var n := |ps|;
    assert n !in ix;
    if ForCard(p, nic) {
      forall j: nat | j < |ps + [p]| ensures j in ix + [n] <==> ForCard((ps + [p])[j], nic) {
        assert j in ix + [n] <==> j in ix || j == n;
      }
    }
  }

  /** The safe part of a clause is all its predicates for the card, at the places ix, in order. */
  lemma {:induction false} SafePartIsFilter(ps: seq<Pred>, nic: NicProperty) returns (ix: seq<nat>)
    ensures FilterAt(ps, nic, SafePart(ps, nic), ix)
  {
    hide PredSafe, ForCard;
    ix := [];
    if ps != [] {
      var n := |ps| - 1;
      var front := SafePartIsFilter(ps[..n], nic);
      PredSafeIff(ps[n], nic);
      ix := if PredSafe(ps[n], nic) then front + [n] else front;
      hide FilterAt;
      FilterSnoc(ps[..n], ps[n], nic, SafePart(ps[..n], nic), front);
      assert ps == ps[..n] + [ps[n]];
      assert SafePart(ps[..n], nic) + [] == SafePart(ps[..n], nic);
    }
  }

  // ------------------------------------------------ what the card decides

  lemma {:induction false} SatisfiedIff(env: Env, qs: seq<Lfta>, j: nat, i: nat)
    requires j <= |qs| && i < |qs|
    ensures SentLfta(i) in Satisfied(env, qs, j) <==> j <= i && AllHold(env, qs[i].preds)
    decreases |qs| - j
  {
    hide AllHold;
    if j < |qs| { SatisfiedIff(env, qs, j + 1, i); }
  }

  /** The safe part holds exactly when every predicate for the card does. */
  lemma SafePartHolds(env: Env, ps: seq<Pred>, nic: NicProperty)
    ensures AllHold(env, SafePart(ps, nic)) <==>
              forall j :: 0 <= j < |ps| && ForCard(ps[j], nic) ==> EvalPred(env, ps[j]) != 0
  {
    hide ForCard, EvalPred, SafePart;
    var ix := SafePartIsFilter(ps, nic);
    if AllHold(env, SafePart(ps, nic)) {
      forall j: nat | j < |ps| && ForCard(ps[j], nic) ensures EvalPred(env, ps[j]) != 0 {
        var k: nat :| k < |ix| && ix[k] == j;
      }
    } else {
      var k: nat :| k < |ix| && EvalPred(env, SafePart(ps, nic)[k]) == 0;
      assert ix[k] in ix && ForCard(ps[ix[k]], nic);
    }
  }

  /**
   * In packed mode a packet is sent for LFTA i if and only if it satisfies every predicate of the clause that is for
   * the card, when every no-copy load runs before its uses.
   */
  lemma CardDecides(env: Env, clauses: seq<Clause>, nic: NicProperty, qs: seq<Lfta>, i: nat)
    requires |qs| == |clauses| && CompilableLftas(qs) && LoadsBeforeUses(qs) && i < |clauses|
    requires forall k :: 0 <= k < |qs| ==> qs[k] == Lfta(SafePart(clauses[k].filter, nic), clauses[k].gid)
    requires env.consts == GenFrom(Packed, qs, 0, START).gs.consts
    ensures SentLfta(i) in Run(env, GenFrom(Packed, qs, 0, START).code, map[]) <==>
              forall j :: 0 <= j < |clauses[i].filter| && ForCard(clauses[i].filter[j], nic) ==>
                EvalPred(env, clauses[i].filter[j]) != 0
  {
    hide CompilableLftas, LoadsBeforeUses, GenFrom, AllHold, SafePart, Run, Satisfied, ForCard, EvalPred;
    PackedProgramCorrect(env, qs);
    SatisfiedIff(env, qs, 0, i);
    SafePartHolds(env, clauses[i].filter, nic);
  }

  // ------------------------------------------------ the identifiers of the LFTAs

  /** The same LFTA identifiers are declared. */
  ghost predicate SameIds(a: map<ConstName, string>, b: map<ConstName, string>) {
    forall i :: (ConstId(i) in a <==> ConstId(i) in b) && (ConstId(i) in a ==> a[ConstId(i)] == b[ConstId(i)])
  }

  lemma {:induction false} ExprKeepsIds(e: Expr, gs: GenState, left: bool)
    ensures SameIds(GenExpr(e, gs, left).gs.consts, gs.consts)
  {
    match e
    case Unary(_, a) => ExprKeepsIds(a, gs, true);
    case Binary(_, l, r) => ExprKeepsIds(l, gs, true); ExprKeepsIds(r, GenExpr(l, gs, true).gs, false);
    case GroupVar(def) => ExprKeepsIds(def, gs, true);
    case _ =>
  }

  lemma {:induction false} PredKeepsIds(p: Pred, gs: GenState)
    ensures SameIds(GenPred(p, gs).gs.consts, gs.consts)
  {
    match p
    case Compare(_, l, r) => ExprKeepsIds(l, gs, true); ExprKeepsIds(r, GenExpr(l, gs, true).gs, false);
    case PredUnary(_, a) => PredKeepsIds(a, gs);
    case PredBinary(_, a, b) => PredKeepsIds(a, gs); PredKeepsIds(b, GenPred(a, gs).gs);
    case _ =>
  }

  lemma {:induction false} PredsKeepIds(mode: Mode, ps: seq<Pred>, i: nat, gs: GenState)
    ensures SameIds(GenPreds(mode, ps, i, gs).gs.consts, gs.consts)
    decreases |ps|
  {
    hide GenPred;
    if ps != [] {
      PredKeepsIds(ps[0], gs);
      PredsKeepIds(mode, ps[1..], i, GenPred(ps[0], gs).gs);
    }
  }

  /**
   * The constant that the program declares for LFTA i is its identifier, and no other LFTA identifier is declared; in
   * filter mode none is.
   */
  lemma {:induction false} DeclaredIds(mode: Mode, qs: seq<Lfta>, from: nat, gs: GenState, i: nat)
    requires from <= |qs| && forall k: nat :: k >= from ==> ConstId(k) !in gs.consts
    ensures var all := GenFrom(mode, qs, from, gs).gs.consts;
            && (ConstId(i) in all <==> ConstId(i) in gs.consts || (mode.Packed? && from <= i < |qs|))
            && (ConstId(i) in all ==> all[ConstId(i)] == if i < from then gs.consts[ConstId(i)] else qs[i].gid)
    decreases |qs| - from
  {
    hide GenPreds;
    if from < |qs| {
      PredsKeepIds(mode, qs[from].preds, from, gs);
      DeclaredIds(mode, qs, from + 1, GenLfta(mode, qs[from], from, gs).gs, i);
    }
  }
}
