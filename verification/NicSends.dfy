/** What a generated program sends, packet by packet. */
module NicSends {
  import opened Options
  import opened NicLanguage
  import opened NicGenerator
  import opened NicCorrect
  import opened NicProgram

  // ------------------------------------------------ loads before uses

  /** Within one LFTA: a column already recorded elsewhere must be loaded on this path. */
  predicate SafePreds(ps: seq<Pred>, recorded: set<string>, loaded: set<string>) {
    ps == [] ||
    (PredUses(ps[0]) * recorded <= loaded
     && SafePreds(ps[1..], recorded + PredUses(ps[0]), loaded + PredUses(ps[0])))
  }

  /** The columns that are loaded after an LFTA on every path: those of its first predicate. */
  function FirstUses(ps: seq<Pred>): set<string> {
    if ps == [] then {} else PredUses(ps[0])
  }

  /**
   * Every no-copy variable is loaded before it is used on every path: a column used by a predicate of LFTA i
   * was first used in the same LFTA, or in the first predicate of an earlier one.
   */
  predicate SafeFrom(qs: seq<Lfta>, i: nat, recorded: set<string>, loaded: set<string>)
    requires i <= |qs|
    decreases |qs| - i
  {
    i == |qs| ||
    (SafePreds(qs[i].preds, recorded, loaded)
     && SafeFrom(qs, i + 1, recorded + AllUses(qs[i].preds), loaded + FirstUses(qs[i].preds)))
  }

  predicate LoadsBeforeUses(qs: seq<Lfta>) { SafeFrom(qs, 0, {}, {}) }

  predicate CompilableLftas(qs: seq<Lfta>) {
    forall i :: 0 <= i < |qs| ==> AllCompilable(qs[i].preds)
  }

  // ------------------------------------------------ the reference

  predicate AllHold(env: Env, ps: seq<Pred>) {
    forall k :: 0 <= k < |ps| ==> EvalPred(env, ps[k]) != 0
  }

  /** The LFTAs from i on whose NIC-safe predicates all hold, in order. */
  function Satisfied(env: Env, qs: seq<Lfta>, i: nat): seq<Event>
    requires i <= |qs|
    decreases |qs| - i
  {
    if i == |qs| then [] else
    (if AllHold(env, qs[i].preds) then [SentLfta(i)] else []) + Satisfied(env, qs, i + 1)
  }

  /** All predicates of the list except possibly the last one hold. */
  predicate AllButLastHold(env: Env, ps: seq<Pred>) {
    forall k :: 0 <= k < |ps| - 1 ==> EvalPred(env, ps[k]) != 0
  }

  /** Some LFTA that has NIC-safe predicates finds them all true. */
  ghost predicate SomeHolds(env: Env, qs: seq<Lfta>) {
    exists i :: 0 <= i < |qs| && qs[i].preds != [] && AllHold(env, qs[i].preds)
  }

  /** Some LFTA may want the packet: none of its NIC-safe predicates, if it has any, rules it out. */
  ghost predicate Wanted(env: Env, qs: seq<Lfta>) {
    exists i :: 0 <= i < |qs| && AllHold(env, qs[i].preds)
  }

  /** The packets a filter program lets through: the code of the last LFTA falls through to label(pass). */
  ghost predicate Passes(env: Env, qs: seq<Lfta>) {
    || qs == []
    || SomeHolds(env, qs)
    || AllButLastHold(env, qs[|qs| - 1].preds)
  }

  // ------------------------------------------------ one predicate

  /** Running one predicate's code and arriving at its jump. */
  lemma RunPred(env: Env, p: Pred, gs: GenState, st: Store, loaded: set<string>, rest: seq<Instr>) returns (st': Store)
    requires CompilablePred(p) && Numbered(gs) && Declared(GenPred(p, gs).gs.consts, env.consts)
    requires Loaded(env, st, loaded) && PredUses(p) * gs.noCopy <= loaded
    ensures var g := GenPred(p, gs);
            && Run(env, g.code + rest, st) == Run(env, rest, st')
            && Read(env, st', g.ret) == EvalPred(env, p)
            && Loaded(env, st', loaded + PredUses(p))
  {
    hide GenPred, CompilablePred, PredUses, Declared, Numbered, Run, Exec, EvalPred;
    var g := GenPred(p, gs);
    GenPredStraight(p, gs);
    GenPredCorrect(p, env, gs, st, loaded);
    RunStraight(env, g.code, rest, st);
    st' := Exec(env, st, g.code);
  }

  lemma RunJump(env: Env, i: Instr, rest: seq<Instr>, st: Store)
    requires i.JumpIfZero? || i.JumpIfNotZero?
    ensures Run(env, [i] + rest, st)
         == if (Read(env, st, i.v) == 0) == i.JumpIfZero? then Jump(env, rest, i.target, st) else Run(env, rest, st)
  {
    assert ([i] + rest)[1..] == rest;
  }

  lemma AllHoldCons(env: Env, ps: seq<Pred>)
    requires ps != []
    ensures AllHold(env, ps) <==> EvalPred(env, ps[0]) != 0 && AllHold(env, ps[1..])
    ensures |ps| > 1 ==> (AllButLastHold(env, ps) <==> EvalPred(env, ps[0]) != 0 && AllButLastHold(env, ps[1..]))
  {
    hide EvalPred;
    var t := ps[1..];
    assert forall k :: 0 <= k < |t| ==> t[k] == ps[k + 1];
    assert forall k :: 0 < k < |ps| ==> ps[k] == t[k - 1];
  }

  lemma DeclaredPart(mode: Mode, ps: seq<Pred>, i: nat, gs: GenState, all: map<ConstName, string>)
    requires ps != [] && AllCompilable(ps) && Numbered(gs) && Declared(GenPreds(mode, ps, i, gs).gs.consts, all)
    ensures var g := GenPred(ps[0], gs);
            Numbered(g.gs) && Declared(g.gs.consts, all) && g.gs.noCopy == gs.noCopy + PredUses(ps[0])
  {
    hide Numbered, Declared, GenPred, PredUses, CompilablePred;
    var g := GenPred(ps[0], gs);
    GenPredStraight(ps[0], gs);
    GenPredsShape(mode, ps[1..], i, g.gs);
    DeclaredTrans(g.gs.consts, GenPreds(mode, ps, i, gs).gs.consts, all);
  }

  /** A jump out of predicate code finds the label in the code that follows. */
  lemma JumpOut(env: Env, code: seq<Instr>, rest: seq<Instr>, name: LabelName, target: seq<Instr>, st: Store)
    requires forall k :: 0 <= k < |code| ==> !code[k].Label?
    requires After(rest, name) == Some(target)
    ensures Jump(env, code + rest, name, st) == Run(env, target, st)
  {
    hide Run;
    AfterSkip(code, rest, name);
  }

  // ------------------------------------------------ packed mode

  /** The predicates of one LFTA in packed mode: fall through when all hold, else go to the next LFTA. */
  lemma {:induction false} RunPackedPreds(env: Env, ps: seq<Pred>, i: nat, gs: GenState, st: Store, loaded: set<string>,
      rest: seq<Instr>, target: seq<Instr>) returns (st': Store)
    requires AllCompilable(ps) && Numbered(gs) && Declared(GenPreds(Packed, ps, i, gs).gs.consts, env.consts)
    requires Loaded(env, st, loaded) && SafePreds(ps, gs.noCopy, loaded)
    requires After(rest, LftaLabel(i + 1)) == Some(target)
    ensures Run(env, GenPreds(Packed, ps, i, gs).code + rest, st)
         == if AllHold(env, ps) then Run(env, rest, st') else Run(env, target, st')
    ensures Loaded(env, st', loaded + FirstUses(ps))
    decreases |ps|
  {
    hide GenPred, CompilablePred, PredUses, Declared, Numbered, Loaded, Run, EvalPred, AllHold, Jump;
    if ps == [] {
      st' := st;
      assert [] + rest == rest && loaded + {} == loaded;
      AllHoldNil(env, ps);
    } else {
      var g := GenPred(ps[0], gs);
      var b := GenPreds(Packed, ps[1..], i, g.gs);
      var jump := JumpIfZero(g.ret, LftaLabel(i + 1));
      assert (g.code + ([jump] + b.code)) + rest == g.code + ([jump] + (b.code + rest));
      DeclaredPart(Packed, ps, i, gs, env.consts);
      AllHoldCons(env, ps);
      var st1 := RunPred(env, ps[0], gs, st, loaded, [jump] + (b.code + rest));
      RunJump(env, jump, b.code + rest, st1);
      if EvalPred(env, ps[0]) == 0 {
        GenPredsShape(Packed, ps[1..], i, g.gs);
        JumpOut(env, b.code, rest, LftaLabel(i + 1), target, st1);
        st' := st1;
      } else {
        st' := RunPackedPreds(env, ps[1..], i, g.gs, st1, loaded + PredUses(ps[0]), rest, target);
        LoadedSubset(env, st', loaded + PredUses(ps[0]) + FirstUses(ps[1..]), loaded + PredUses(ps[0]));
      }
    }
  }

  lemma AllHoldNil(env: Env, ps: seq<Pred>)
    requires ps == []
    ensures AllHold(env, ps) && AllButLastHold(env, ps)
  {
  }

  lemma LoadedSubset(env: Env, st: Store, big: set<string>, small: set<string>)
    requires Loaded(env, st, big) && small <= big
    ensures Loaded(env, st, small)
  {
  }

  lemma RunHead(env: Env, i: nat, rest: seq<Instr>, st: Store)
    ensures Run(env, [Comment, Label(LftaLabel(i))] + rest, st) == Run(env, rest, st)
    ensures After([Comment, Label(LftaLabel(i))] + rest, LftaLabel(i)) == Some(rest)
  {
    var code := [Comment, Label(LftaLabel(i))] + rest;
    assert code[1..][1..] == rest;
  }

  lemma RunSend(env: Env, e: Instr, rest: seq<Instr>, st: Store)
    ensures e.PackAndSend? ==> Run(env, [e] + rest, st) == [SentLfta(e.id)] + Run(env, rest, st)
    ensures e.SendPacket? ==> Run(env, [e] + rest, st) == [SentPacket] + Run(env, rest, st)
  {
    assert ([e] + rest)[1..] == rest;
  }

  lemma RunEnd(env: Env, n: nat, st: Store)
    ensures var tail := [Label(ExitLabel), Exit];
            && Run(env, [Label(LftaLabel(n))] + tail, st) == [] && Run(env, tail, st) == []
            && After([Label(LftaLabel(n))] + tail, LftaLabel(n)) == Some(tail)
  {
    var tail := [Label(ExitLabel), Exit];
    var code := [Label(LftaLabel(n))] + tail;
    assert code[1..] == tail && tail[1..] == [Exit];
    assert Run(env, [Exit], st) == [];
  }

  /** Where a jump to the next LFTA lands, for the code from LFTA i on: the body after its label. */
  ghost function Body(mode: Mode, qs: seq<Lfta>, i: nat, gs: GenState): seq<Instr>
    requires i <= |qs|
  {
    if i == |qs| then [Label(ExitLabel), Exit] else
    var b := GenPreds(mode, qs[i].preds, i, gs);
    b.code
    + ((if mode.Packed? then [PackAndSend(i)] else []) + GenFrom(mode, qs, i + 1, GenLfta(mode, qs[i], i, gs).gs).code)
  }

  lemma CodeIsBody(mode: Mode, qs: seq<Lfta>, i: nat, gs: GenState)
    requires i < |qs|
    ensures GenFrom(mode, qs, i, gs).code == [Comment, Label(LftaLabel(i))] + Body(mode, qs, i, gs)
  {
    hide GenPreds;
    var head := [Comment, Label(LftaLabel(i))];
    var b := GenPreds(mode, qs[i].preds, i, gs).code;
    var rest := GenFrom(mode, qs, i + 1, GenLfta(mode, qs[i], i, gs).gs).code;
    if mode.Packed? {
      assert (head + (b + [PackAndSend(i)])) + rest == head + (b + ([PackAndSend(i)] + rest));
    } else {
      assert (head + b) + rest == head + (b + rest);
      assert [] + rest == rest;
    }
  }

  lemma AfterNext(mode: Mode, qs: seq<Lfta>, i: nat, gs: GenState)
    requires i <= |qs|
    ensures After(GenFrom(mode, qs, i, gs).code, LftaLabel(i)) == Some(Body(mode, qs, i, gs))
  {
    hide GenPreds, Body;
    if i < |qs| {
      CodeIsBody(mode, qs, i, gs);
      hide GenFrom, After;
      RunHead(Dummy(), i, Body(mode, qs, i, gs), map[]);
    } else {
      EndBody(mode, qs, gs);
      RunEnd(Dummy(), i, map[]);
      var end := [Label(LftaLabel(i))] + [Label(ExitLabel), Exit];
      if mode.Packed? {
        assert Tail(mode, i) == end;
      } else {
        assert Tail(mode, i) == [Label(Pass), SendPacket] + end;
        hide After;
        AfterSkip([Label(Pass), SendPacket], end, LftaLabel(i));
      }
    }
  }

  lemma EndBody(mode: Mode, qs: seq<Lfta>, gs: GenState)
    ensures Body(mode, qs, |qs|, gs) == [Label(ExitLabel), Exit]
  {
  }

  function Dummy(): Env {
    Env(_ => 0, _ => 0, (_, _) => 0, (_, _, _) => 0, map[], _ => 0)
  }

  lemma LftaState(mode: Mode, q: Lfta, i: nat, gs: GenState)
    requires AllCompilable(q.preds) && Numbered(gs)
    ensures var b, l := GenPreds(mode, q.preds, i, gs), GenLfta(mode, q, i, gs);
            && Numbered(l.gs) && l.gs.noCopy == gs.noCopy + AllUses(q.preds)
            && Declared(gs.consts, l.gs.consts) && Declared(b.gs.consts, l.gs.consts)
  {
    hide GenPreds, AllCompilable, AllUses;
    GenPredsShape(mode, q.preds, i, gs);
    var c := GenPreds(mode, q.preds, i, gs).gs.consts;
    assert c[ConstId(i) := q.gid].Keys == c.Keys + {ConstId(i)};
  }

  lemma {:induction false} GenFromDeclares(mode: Mode, qs: seq<Lfta>, i: nat, gs: GenState)
    requires i <= |qs| && CompilableLftas(qs) && Numbered(gs)
    ensures Declared(gs.consts, GenFrom(mode, qs, i, gs).gs.consts)
    decreases |qs| - i
  {
    if i < |qs| {
      hide Numbered, Declared, GenLfta, AllCompilable;
      LftaState(mode, qs[i], i, gs);
      var l := GenLfta(mode, qs[i], i, gs);
      GenFromDeclares(mode, qs, i + 1, l.gs);
      DeclaredTrans(gs.consts, l.gs.consts, GenFrom(mode, qs, i + 1, l.gs).gs.consts);
    }
  }

  /** What the generator's state carries from one LFTA to the next. */
  lemma NextState(mode: Mode, qs: seq<Lfta>, i: nat, gs: GenState, all: map<ConstName, string>)
    requires i < |qs| && CompilableLftas(qs) && Numbered(gs) && Declared(GenFrom(mode, qs, i, gs).gs.consts, all)
    ensures var b, l := GenPreds(mode, qs[i].preds, i, gs), GenLfta(mode, qs[i], i, gs);
            && AllCompilable(qs[i].preds) && Declared(b.gs.consts, all)
            && Numbered(l.gs) && Declared(GenFrom(mode, qs, i + 1, l.gs).gs.consts, all)
            && l.gs.noCopy == gs.noCopy + AllUses(qs[i].preds)
  {
    hide Numbered, Declared, GenLfta, GenPreds, AllCompilable, AllUses;
    LftaState(mode, qs[i], i, gs);
    var b, l := GenPreds(mode, qs[i].preds, i, gs), GenLfta(mode, qs[i], i, gs);
    var end := GenFrom(mode, qs, i + 1, l.gs).gs.consts;
    GenFromDeclares(mode, qs, i + 1, l.gs);
    DeclaredTrans(b.gs.consts, l.gs.consts, end);
    DeclaredTrans(b.gs.consts, end, all);
  }

  lemma {:induction false} RunPacked(env: Env, qs: seq<Lfta>, i: nat, gs: GenState, st: Store, loaded: set<string>)
    requires i <= |qs| && CompilableLftas(qs) && Numbered(gs)
    requires Declared(GenFrom(Packed, qs, i, gs).gs.consts, env.consts)
    requires Loaded(env, st, loaded) && SafeFrom(qs, i, gs.noCopy, loaded)
    ensures Run(env, Body(Packed, qs, i, gs), st) == Satisfied(env, qs, i)
    ensures Run(env, GenFrom(Packed, qs, i, gs).code, st) == Satisfied(env, qs, i)
    decreases |qs| - i
  {
    hide Numbered, Declared, GenLfta, GenPreds, AllCompilable, AllUses, Loaded, Run, After, AllHold, FirstUses;
    hide SafePreds, Read;
    if i == |qs| {
      RunEnd(env, i, st);
      assert Tail(Packed, i) == [Label(LftaLabel(i))] + [Label(ExitLabel), Exit];
    } else {
      var q := qs[i];
      NextState(Packed, qs, i, gs, env.consts);
      var l := GenLfta(Packed, q, i, gs);
      var next := GenFrom(Packed, qs, i + 1, l.gs).code;
      AfterNext(Packed, qs, i + 1, l.gs);
      AfterSend(i, next, Body(Packed, qs, i + 1, l.gs));
      var st' :=
        RunPackedPreds(env, q.preds, i, gs, st, loaded, [PackAndSend(i)] + next, Body(Packed, qs, i + 1, l.gs));
      RunPacked(env, qs, i + 1, l.gs, st', loaded + FirstUses(q.preds));
      RunSend(env, PackAndSend(i), next, st');
      CodeIsBody(Packed, qs, i, gs);
      hide GenFrom, SafeFrom, CompilableLftas;
      RunHead(env, i, Body(Packed, qs, i, gs), st);
      assert [] + Satisfied(env, qs, i + 1) == Satisfied(env, qs, i + 1);
    }
  }

  lemma AfterSend(i: nat, next: seq<Instr>, target: seq<Instr>)
    requires After(next, LftaLabel(i + 1)) == Some(target)
    ensures After([PackAndSend(i)] + next, LftaLabel(i + 1)) == Some(target)
  {
    AfterSkip([PackAndSend(i)], next, LftaLabel(i + 1));
  }

  /**
   * Packed mode: for every packet the program sends a packed tuple for exactly the LFTAs whose NIC-safe
   * predicates all hold, in order, provided every no-copy load runs before its uses.
   */
  lemma PackedProgramCorrect(env: Env, qs: seq<Lfta>)
    requires CompilableLftas(qs) && LoadsBeforeUses(qs)
    requires env.consts == GenFrom(Packed, qs, 0, START).gs.consts
    ensures Run(env, GenFrom(Packed, qs, 0, START).code, map[]) == Satisfied(env, qs, 0)
  {
    hide GenFrom, CompilableLftas, SafeFrom, Run, Satisfied;
    RunPacked(env, qs, 0, START, map[], {});
  }

  // ------------------------------------------------ filter mode

  /** Outcome of the predicates of one LFTA in filter mode. */
  datatype Outcome = GoPass | FallThrough | GoNext

  function FilterOutcome(env: Env, ps: seq<Pred>): Outcome {
    if ps == [] then FallThrough
    else if EvalPred(env, ps[0]) == 0 then (if |ps| == 1 then FallThrough else GoNext)
    else if |ps| == 1 then GoPass
    else FilterOutcome(env, ps[1..])
  }

  lemma {:induction false} OutcomeMeaning(env: Env, ps: seq<Pred>)
    ensures FilterOutcome(env, ps).GoPass? <==> ps != [] && AllHold(env, ps)
    ensures FilterOutcome(env, ps).GoNext? <==> !AllButLastHold(env, ps)
    decreases |ps|
  {
    if ps != [] {
      hide EvalPred;
      AllHoldCons(env, ps);
      OutcomeMeaning(env, ps[1..]);
    }
  }

  lemma {:induction false} RunFilterPreds(env: Env, ps: seq<Pred>, i: nat, gs: GenState, st: Store, loaded: set<string>,
      rest: seq<Instr>, target: seq<Instr>, pass: seq<Instr>) returns (st': Store)
    requires AllCompilable(ps) && Numbered(gs) && Declared(GenPreds(Filter, ps, i, gs).gs.consts, env.consts)
    requires Loaded(env, st, loaded) && SafePreds(ps, gs.noCopy, loaded)
    requires After(rest, LftaLabel(i + 1)) == Some(target) && After(rest, Pass) == Some(pass)
    ensures Run(env, GenPreds(Filter, ps, i, gs).code + rest, st)
         == match FilterOutcome(env, ps)
            case GoPass => Run(env, pass, st')
            case FallThrough => Run(env, rest, st')
            case GoNext => Run(env, target, st')
    ensures Loaded(env, st', loaded + FirstUses(ps))
    decreases |ps|
  {
    hide GenPred, CompilablePred, PredUses, Declared, Numbered, Loaded, Run, EvalPred, Jump, After, Read;
    if ps == [] {
      st' := st;
      assert [] + rest == rest && loaded + {} == loaded;
    } else {
      var g := GenPred(ps[0], gs);
      var b := GenPreds(Filter, ps[1..], i, g.gs);
      var jump := JumpAfter(Filter, g.ret, |ps| == 1, i);
      assert (g.code + ([jump] + b.code)) + rest == g.code + ([jump] + (b.code + rest));
      DeclaredPart(Filter, ps, i, gs, env.consts);
      var st1 := RunPred(env, ps[0], gs, st, loaded, [jump] + (b.code + rest));
      RunJump(env, jump, b.code + rest, st1);
      GenPredsShape(Filter, ps[1..], i, g.gs);
      JumpOut(env, b.code, rest, LftaLabel(i + 1), target, st1);
      JumpOut(env, b.code, rest, Pass, pass, st1);
      if |ps| == 1 {
        assert b.code + rest == rest;
        st' := st1;
      } else if EvalPred(env, ps[0]) == 0 {
        st' := st1;
      } else {
        st' := RunFilterPreds(env, ps[1..], i, g.gs, st1, loaded + PredUses(ps[0]), rest, target, pass);
        LoadedSubset(env, st', loaded + PredUses(ps[0]) + FirstUses(ps[1..]), loaded + PredUses(ps[0]));
      }
    }
  }

  /** The code after label(pass). */
  function PassCode(n: nat): seq<Instr> {
    [SendPacket] + ([Label(LftaLabel(n))] + [Label(ExitLabel), Exit])
  }

  lemma RunPass(env: Env, n: nat, st: Store)
    ensures Run(env, PassCode(n), st) == [SentPacket] && Run(env, Tail(Filter, n), st) == [SentPacket]
  {
    RunSend(env, SendPacket, [Label(LftaLabel(n))] + [Label(ExitLabel), Exit], st);
    RunEnd(env, n, st);
    assert Tail(Filter, n) == [Label(Pass)] + PassCode(n);
    assert Tail(Filter, n)[1..] == PassCode(n);
    hide PassCode;
  }

  /** Whatever LFTA it comes from, a jump to `pass` lands on the send. */
  lemma {:induction false} AfterPass(qs: seq<Lfta>, i: nat, gs: GenState)
    requires i <= |qs| && CompilableLftas(qs) && Numbered(gs)
    ensures After(GenFrom(Filter, qs, i, gs).code, Pass) == Some(PassCode(|qs|))
    decreases |qs| - i
  {
    if i == |qs| {
      assert Tail(Filter, i) == [Label(Pass)] + PassCode(i);
      assert Tail(Filter, i)[1..] == PassCode(i);
    } else {
      hide Numbered, AllCompilable, After, PassCode;
      var l := GenLfta(Filter, qs[i], i, gs);
      LftaState(Filter, qs[i], i, gs);
      GenPredsShape(Filter, qs[i].preds, i, gs);
      AfterPass(qs, i + 1, l.gs);
      AfterSkip(l.code, GenFrom(Filter, qs, i + 1, l.gs).code, Pass);
    }
  }

  /** Whether the packet is sent when control reaches LFTA i. */
  predicate Sends(env: Env, qs: seq<Lfta>, i: nat)
    requires i <= |qs|
    decreases |qs| - i
  {
    i == |qs| ||
    match FilterOutcome(env, qs[i].preds)
    case GoPass => true
    case FallThrough => Sends(env, qs, i + 1)
    case GoNext => i + 1 < |qs| && Sends(env, qs, i + 1)
  }

  lemma {:induction false} SendsMeaning(env: Env, qs: seq<Lfta>, i: nat)
    requires i <= |qs|
    ensures Sends(env, qs, i) <==>
              (|| i == |qs|
               || (exists j :: i <= j < |qs| && qs[j].preds != [] && AllHold(env, qs[j].preds))
               || AllButLastHold(env, qs[|qs| - 1].preds))
    decreases |qs| - i
  {
    if i < |qs| {
      hide AllHold, AllButLastHold, FilterOutcome;
      OutcomeMeaning(env, qs[i].preds);
      SendsMeaning(env, qs, i + 1);
    }
  }

  function Sent(b: bool): seq<Event> { if b then [SentPacket] else [] }

  lemma {:induction false} RunFilter(env: Env, qs: seq<Lfta>, i: nat, gs: GenState, st: Store, loaded: set<string>)
    requires i <= |qs| && CompilableLftas(qs) && Numbered(gs)
    requires Declared(GenFrom(Filter, qs, i, gs).gs.consts, env.consts)
    requires Loaded(env, st, loaded) && SafeFrom(qs, i, gs.noCopy, loaded)
    ensures Run(env, Body(Filter, qs, i, gs), st) == Sent(i < |qs| && Sends(env, qs, i))
    ensures Run(env, GenFrom(Filter, qs, i, gs).code, st) == Sent(Sends(env, qs, i))
    decreases |qs| - i
  {
    hide Numbered, Declared, GenLfta, GenPreds, AllCompilable, AllUses, Loaded, Run, After, FilterOutcome, FirstUses;
    hide SafePreds, Read;
    if i == |qs| {
      RunEnd(env, i, st);
      RunPass(env, i, st);
    } else {
      var q := qs[i];
      NextState(Filter, qs, i, gs, env.consts);
      var l := GenLfta(Filter, q, i, gs);
      var next := GenFrom(Filter, qs, i + 1, l.gs).code;
      AfterNext(Filter, qs, i + 1, l.gs);
      AfterPass(qs, i + 1, l.gs);
      var st' := RunFilterPreds(env, q.preds, i, gs, st, loaded, next, Body(Filter, qs, i + 1, l.gs), PassCode(|qs|));
      RunPass(env, |qs|, st');
      RunFilter(env, qs, i + 1, l.gs, st', loaded + FirstUses(q.preds));
      CodeIsBody(Filter, qs, i, gs);
      assert [] + next == next;
      hide GenFrom, SafeFrom, CompilableLftas;
      RunHead(env, i, Body(Filter, qs, i, gs), st);
    }
  }

  /** Filter mode: the exact set of packets that are sent, each once. */
  lemma FilterProgramExact(env: Env, qs: seq<Lfta>)
    requires CompilableLftas(qs) && LoadsBeforeUses(qs)
    requires env.consts == GenFrom(Filter, qs, 0, START).gs.consts
    ensures Run(env, GenFrom(Filter, qs, 0, START).code, map[]) == Sent(Passes(env, qs))
  {
    hide GenFrom, CompilableLftas, SafeFrom, Run, Sends;
    RunFilter(env, qs, 0, START, map[], {});
    SendsMeaning(env, qs, 0);
  }

  /** When every LFTA has a NIC-safe predicate, no packet that satisfies some LFTA is lost. */
  lemma FilterProgramComplete(env: Env, qs: seq<Lfta>, i: nat)
    requires CompilableLftas(qs) && LoadsBeforeUses(qs)
    requires env.consts == GenFrom(Filter, qs, 0, START).gs.consts
    requires forall j :: 0 <= j < |qs| ==> qs[j].preds != []
    requires i < |qs| && AllHold(env, qs[i].preds)
    ensures Run(env, GenFrom(Filter, qs, 0, START).code, map[]) == [SentPacket]
  {
    hide GenFrom, CompilableLftas, LoadsBeforeUses, Run;
    FilterProgramExact(env, qs);
  }

  /**
   * When the filter is wrong, packet by packet.  A packet that no LFTA wants is sent exactly when there is no LFTA or
   * all but the last predicate of the last LFTA hold; so is one that satisfies no LFTA with predicates.  A packet that
   * some LFTA wants is lost exactly when only LFTAs without predicates want it and some predicate before the last of
   * the last LFTA fails.
   */
  lemma FilterProgramErrors(env: Env, qs: seq<Lfta>)
    requires CompilableLftas(qs) && LoadsBeforeUses(qs)
    requires env.consts == GenFrom(Filter, qs, 0, START).gs.consts
    ensures var sent := Run(env, GenFrom(Filter, qs, 0, START).code, map[]) == [SentPacket];
            var falls := qs == [] || AllButLastHold(env, qs[|qs| - 1].preds);
            && (sent && !Wanted(env, qs) <==> !Wanted(env, qs) && falls)
            && (sent && !SomeHolds(env, qs) <==> !SomeHolds(env, qs) && falls)
            && (!sent && Wanted(env, qs) <==> Wanted(env, qs) && !SomeHolds(env, qs) && !falls)
  {
    hide GenFrom, CompilableLftas, LoadsBeforeUses, Run, AllHold, AllButLastHold;
    FilterProgramExact(env, qs);
    assert SomeHolds(env, qs) ==> Wanted(env, qs);
  }

  /** A last LFTA with at most one NIC-safe predicate makes the filter let every packet through. */
  lemma FilterProgramUseless(env: Env, qs: seq<Lfta>)
    requires CompilableLftas(qs) && LoadsBeforeUses(qs)
    requires env.consts == GenFrom(Filter, qs, 0, START).gs.consts
    requires qs == [] || |qs[|qs| - 1].preds| <= 1
    ensures Run(env, GenFrom(Filter, qs, 0, START).code, map[]) == [SentPacket]
  {
    hide GenFrom, CompilableLftas, LoadsBeforeUses, Run, EvalPred;
    FilterProgramExact(env, qs);
  }
}
