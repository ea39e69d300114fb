/** Whole NIC programs: the generated code for a list of LFTAs, how the card runs it, and what it sends. */
module NicProgram {
  import opened Options
  import opened NicLanguage
  import opened NicGenerator
  import opened NicCorrect

  /** `Return=Packed` sends a packed tuple per LFTA; otherwise the card only filters packets. */
  datatype Mode = Packed | Filter

  /** The NIC-safe predicates of an LFTA's filter clause, and its identifier. */
  datatype Lfta = Lfta(preds: seq<Pred>, gid: string)

  datatype Block = Block(code: seq<Instr>, gs: GenState)

  const START: GenState := GenState(map[], 0, {})

  function JumpAfter(mode: Mode, ret: Var, last: bool, i: nat): Instr {
    if mode.Filter? && last then JumpIfNotZero(ret, Pass) else JumpIfZero(ret, LftaLabel(i + 1))
  }

  function GenPreds(mode: Mode, ps: seq<Pred>, i: nat, gs: GenState): Block {
    if ps == [] then Block([], gs) else
    var g := GenPred(ps[0], gs);
    var rest := GenPreds(mode, ps[1..], i, g.gs);
    Block(g.code + ([JumpAfter(mode, g.ret, |ps| == 1, i)] + rest.code), rest.gs)
  }

  function GenLfta(mode: Mode, q: Lfta, i: nat, gs: GenState): Block {
    var b := GenPreds(mode, q.preds, i, gs);
    var head := [Comment, Label(LftaLabel(i))];
    if mode.Packed?
    then Block(head + (b.code + [PackAndSend(i)]), b.gs.(consts := b.gs.consts[ConstId(i) := q.gid]))
    else Block(head + b.code, b.gs)
  }

  function Tail(mode: Mode, n: nat): seq<Instr> {
    (if mode.Packed? then [] else [Label(Pass), SendPacket])
      + [Label(LftaLabel(n)), Label(ExitLabel), Exit]
  }

  /** The program text from LFTA i on. */
  function GenFrom(mode: Mode, qs: seq<Lfta>, i: nat, gs: GenState): Block
    requires i <= |qs|
    decreases |qs| - i
  {
    if i == |qs| then Block(Tail(mode, i), gs) else
    var b := GenLfta(mode, qs[i], i, gs);
    var rest := GenFrom(mode, qs, i + 1, b.gs);
    Block(b.code + rest.code, rest.gs)
  }

  /** The two generation loops. */
  method Generate(mode: Mode, qs: seq<Lfta>) returns (r: Block)
    ensures r == GenFrom(mode, qs, 0, START)
  {
    var code: seq<Instr> := [];
    var gs := START;
    var i := 0;
    while i < |qs|
      invariant i <= |qs|
      invariant var rest := GenFrom(mode, qs, i, gs);
                GenFrom(mode, qs, 0, START) == Block(code + rest.code, rest.gs)
    {
      hide GenLfta;
      var b := GenerateLfta(mode, qs[i], i, gs);
      ghost var rest := GenFrom(mode, qs, i + 1, b.gs).code;
      assert (code + b.code) + rest == code + (b.code + rest);
      code := code + b.code;
      gs := b.gs;
      i := i + 1;
    }
    code := code + Tail(mode, i);
    r := Block(code, gs);
  }

  method GenerateLfta(mode: Mode, q: Lfta, i: nat, gs0: GenState) returns (r: Block)
    ensures r == GenLfta(mode, q, i, gs0)
  {
    hide GenPreds;
    var code := [Comment, Label(LftaLabel(i))];
    var b := GeneratePreds(mode, q.preds, i, gs0);
    code := code + b.code;
    var gs := b.gs;
    if mode.Packed? {
      assert [Comment, Label(LftaLabel(i))] + (b.code + [PackAndSend(i)]) == code + [PackAndSend(i)];
      code := code + [PackAndSend(i)];
      gs := gs.(consts := gs.consts[ConstId(i) := q.gid]);
    }
    r := Block(code, gs);
  }

  method GeneratePreds(mode: Mode, ps: seq<Pred>, i: nat, gs0: GenState) returns (r: Block)
    ensures r == GenPreds(mode, ps, i, gs0)
  {
    hide GenPred, GenPreds;
    var code: seq<Instr> := [];
    var gs := gs0;
    var p := 0;
    assert ps[0..] == ps;
    while p < |ps|
      invariant p <= |ps|
      invariant var rest := GenPreds(mode, ps[p..], i, gs);
                GenPreds(mode, ps, i, gs0) == Block(code + rest.code, rest.gs)
    {
      var g := GenPred(ps[p], gs);
      var jump := if mode.Filter? && !(p < |ps| - 1) then JumpIfNotZero(g.ret, Pass)
                  else JumpIfZero(g.ret, LftaLabel(i + 1));
      GenPredsAt(mode, ps, p, i, gs);
      ghost var rest := GenPreds(mode, ps[p + 1..], i, g.gs).code;
      Reassociate(code, g.code, jump, rest);
      code := code + g.code + [jump];
      gs := g.gs;
      p := p + 1;
    }
    r := Block(code, gs);
    GenPredsNone(mode, i, gs);
    assert ps[p..] == [] && code + [] == code;
  }

  lemma Reassociate(a: seq<Instr>, b: seq<Instr>, j: Instr, c: seq<Instr>)
    ensures a + (b + ([j] + c)) == (a + b + [j]) + c
  {
  }

  lemma GenPredsNone(mode: Mode, i: nat, gs: GenState)
    ensures GenPreds(mode, [], i, gs) == Block([], gs)
  {
  }

  lemma GenPredsAt(mode: Mode, ps: seq<Pred>, p: nat, i: nat, gs: GenState)
    requires p < |ps|
    ensures var g := GenPred(ps[p], gs);
            var rest := GenPreds(mode, ps[p + 1..], i, g.gs);
            GenPreds(mode, ps[p..], i, gs)
            == Block(g.code + ([JumpAfter(mode, g.ret, p == |ps| - 1, i)] + rest.code), rest.gs)
  {
    assert ps[p..][0] == ps[p] && ps[p..][1..] == ps[p + 1..];
  }

  // ------------------------------------------------ running a program

  datatype Event = SentLfta(i: nat) | SentPacket | Stuck

  /** The code after the first occurrence of a label; all jumps are forward. */
  function After(code: seq<Instr>, name: LabelName): (r: Option<seq<Instr>>)
    ensures r.Some? ==> |r.value| < |code|
  {
    if code == [] then None
    else if code[0] == Label(name) then Some(code[1..])
    else After(code[1..], name)
  }

  function Run(env: Env, code: seq<Instr>, st: Store): seq<Event>
    decreases |code|
  {
    if code == [] then []
    else match code[0]
      case Exit => []
      case Error => [Stuck]
      case PackAndSend(i) => [SentLfta(i)] + Run(env, code[1..], st)
      case SendPacket => [SentPacket] + Run(env, code[1..], st)
      case JumpIfZero(v, l) => if Read(env, st, v) == 0 then Jump(env, code[1..], l, st) else Run(env, code[1..], st)
      case JumpIfNotZero(v, l) => if Read(env, st, v) != 0 then Jump(env, code[1..], l, st) else Run(env, code[1..], st)
      case _ => Run(env, code[1..], Exec1(env, st, code[0]))
  }

  function Jump(env: Env, code: seq<Instr>, name: LabelName, st: Store): seq<Event>
    decreases |code|, 1
  {
    var r := After(code, name);
    if r.None? then [Stuck] else Run(env, r.value, st)
  }

  /** Straight-line code: loads and operators only. */
  predicate Straight(code: seq<Instr>) {
    forall i :: 0 <= i < |code| ==> code[i].LoadWithCopy? || code[i].Load? || code[i].Apply1? || code[i].Apply2?
  }

  lemma {:induction false} RunStraight(env: Env, code: seq<Instr>, rest: seq<Instr>, st: Store)
    requires Straight(code)
    ensures Run(env, code + rest, st) == Run(env, rest, Exec(env, st, code))
    decreases |code|
  {
    if code == [] {
      assert code + rest == rest;
    } else {
      assert (code + rest)[1..] == code[1..] + rest;
      RunStraight(env, code[1..], rest, Exec1(env, st, code[0]));
    }
  }

  predicate NoLabel(code: seq<Instr>, name: LabelName) {
    forall i :: 0 <= i < |code| ==> code[i] != Label(name)
  }

  lemma {:induction false} AfterSkip(code: seq<Instr>, rest: seq<Instr>, name: LabelName)
    requires NoLabel(code, name)
    ensures After(code + rest, name) == After(rest, name)
    decreases |code|
  {
    if code == [] {
      assert code + rest == rest;
    } else {
      assert (code + rest)[1..] == code[1..] + rest;
      AfterSkip(code[1..], rest, name);
    }
  }

  lemma FreshIsStraight(code: seq<Instr>, lo: nat, hi: nat)
    requires WritesFresh(code, lo, hi)
    ensures Straight(code)
  {
    forall i | 0 <= i < |code| ensures code[i].LoadWithCopy? || code[i].Load? || code[i].Apply1? || code[i].Apply2? {
      assert WriteFresh(code[i], lo, hi);
    }
  }

  lemma GenPredStraight(p: Pred, gs: GenState)
    requires CompilablePred(p) && Numbered(gs)
    ensures var g := GenPred(p, gs);
            && Straight(g.code) && g.ret.Copy? && Numbered(g.gs)
            && g.gs.noCopy == gs.noCopy + PredUses(p) && Declared(gs.consts, g.gs.consts)
  {
    hide GenPred, CompilablePred, PredUses;
    var g := GenPred(p, gs);
    GenPredShape(p, gs);
    ShapeNumbered(g, gs, true, PredUses(p));
    ShapeRet(g, gs, PredUses(p));
    assert WritesFresh(g.code, gs.copies, g.gs.copies) by { hide WriteFresh, Extends; }
    hide Shape;
    FreshIsStraight(g.code, gs.copies, g.gs.copies);
  }

  predicate AllCompilable(ps: seq<Pred>) {
    forall i :: 0 <= i < |ps| ==> CompilablePred(ps[i])
  }

  function AllUses(ps: seq<Pred>): set<string> {
    if ps == [] then {} else PredUses(ps[0]) + AllUses(ps[1..])
  }

  /** The generated code of a predicate list contains no label, and records every column used. */
  lemma {:induction false} GenPredsShape(mode: Mode, ps: seq<Pred>, i: nat, gs: GenState)
    requires AllCompilable(ps) && Numbered(gs)
    ensures var b := GenPreds(mode, ps, i, gs);
            && (forall k :: 0 <= k < |b.code| ==> !b.code[k].Label?)
            && Numbered(b.gs) && Declared(gs.consts, b.gs.consts) && b.gs.noCopy == gs.noCopy + AllUses(ps)
    decreases |ps|
  {
    if ps != [] {
      hide Numbered, Declared, GenPred, PredUses, CompilablePred;
      var g := GenPred(ps[0], gs);
      GenPredStraight(ps[0], gs);
      GenPredsShape(mode, ps[1..], i, g.gs);
      var b := GenPreds(mode, ps[1..], i, g.gs);
      DeclaredTrans(gs.consts, g.gs.consts, b.gs.consts);
      assert gs.noCopy + PredUses(ps[0]) + AllUses(ps[1..]) == gs.noCopy + AllUses(ps);
    } else {
      assert gs.noCopy + {} == gs.noCopy;
    }
  }
}
