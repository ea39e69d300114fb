/** Simple conditions that suffice for loads before uses, and a program for which it fails. */
module NicExamples {
  import opened Options
  import opened NicLanguage
  import opened NicGenerator
  import opened NicTables
  import opened NicCorrect
  import opened NicProgram
  import opened NicSends
  import opened NicPaths

  lemma {:induction false} SafeSame(ps: seq<Pred>, s: set<string>)
    ensures SafePreds(ps, s, s)
    decreases |ps|
  {
    if ps != [] {
      SafeSame(ps[1..], s + PredUses(ps[0]));
    }
  }

  /** With a single LFTA every load runs before its uses. */
  lemma SingleLftaIsSafe(qs: seq<Lfta>)
    requires |qs| <= 1
    ensures LoadsBeforeUses(qs)
  {
    if |qs| == 1 {
      SafeSame(qs[0].preds, {});
    }
  }

  /** No column stands alone as a right operand. */
  predicate NoBareColumn(qs: seq<Lfta>) {
    forall i, k :: 0 <= i < |qs| && 0 <= k < |qs[i].preds| ==> PredUses(qs[i].preds[k]) == {}
  }

  lemma {:induction false} NoUsesSafe(ps: seq<Pred>, rec: set<string>, loaded: set<string>)
    requires forall k :: 0 <= k < |ps| ==> PredUses(ps[k]) == {}
    ensures SafePreds(ps, rec, loaded)
    decreases |ps|
  {
    if ps != [] {
      hide PredUses;
      NoUsesSafe(ps[1..], rec + PredUses(ps[0]), loaded + PredUses(ps[0]));
    }
  }

  lemma {:induction false} NoBareColumnFrom(qs: seq<Lfta>, i: nat, rec: set<string>, loaded: set<string>)
    requires i <= |qs| && NoBareColumn(qs)
    ensures SafeFrom(qs, i, rec, loaded)
    decreases |qs| - i
  {
    if i < |qs| {
      hide PredUses, SafePreds, AllUses, FirstUses;
      NoUsesSafe(qs[i].preds, rec, loaded);
      NoBareColumnFrom(qs, i + 1, rec + AllUses(qs[i].preds), loaded + FirstUses(qs[i].preds));
    }
  }

  lemma NoBareColumnIsSafe(qs: seq<Lfta>)
    requires NoBareColumn(qs)
    ensures LoadsBeforeUses(qs)
  {
    hide NoBareColumn, SafeFrom;
    NoBareColumnFrom(qs, 0, {}, {});
  }

  // ------------------------------------------------ a program that sends the wrong tuple

  /** x = 1 */
  function XIsOne(): Pred { Compare("=", Column("x", "uint"), Literal("1", "uint")) }

  /** 0 = y: the column is a bare right operand. */
  function ZeroIsY(): Pred { Compare("=", Literal("0", "uint"), Column("y", "uint")) }

  /** The second LFTA uses y, whose load sits behind the first predicate of the first LFTA. */
  function TwoLftas(): seq<Lfta> { [Lfta([XIsOne(), ZeroIsY()], "7"), Lfta([ZeroIsY()], "8")] }

  /** What the example uses of the packet below: x = 0, y = 5, and variables that start at zero. */
  ghost predicate Example(env: Env) {
    && env.packet("x") == 0 && env.packet("y") == 5 && env.literal("1") == 1 && env.literal("0") == 0
    && (forall a, b :: env.binary(Equal, a, b) == if a == b then 1 else 0)
    && env.garbage(NoCopy("y")) == 0
  }

  function Packet(): Env {
    Env(f => if f == "y" then 5 else 0, t => if t == "1" then 1 else 0, (m, a) => 0,
        (m, a, b) => if m == Equal && a == b then 1 else 0,
        GenFrom(Packed, TwoLftas(), 0, START).gs.consts, v => 0)
  }

  lemma EqualName()
    ensures NicFcn("=") == "equal"
  {
    var k := 22;
    assert forall j :: 0 <= j <= k ==> FCN_FOR_OP[j] != "END";
    assert forall j :: 0 <= j < k ==> FCN_FOR_OP[j] != "=";
    ScanFinds(FCN_FOR_OP, "=", 0, k);
  }

  lemma XIsOneCode(gs: GenState)
    ensures var g := GenPred(XIsOne(), gs);
            && g.code == [LoadWithCopy(Copy(gs.copies), FromField("x"))]
                       + [Apply2("equal", Copy(gs.copies), Const(|gs.consts|))]
            && g.ret == Copy(gs.copies)
            && g.gs == GenState(gs.consts[Constant(|gs.consts|) := "1"], gs.copies + 1, gs.noCopy)
  {
    EqualName();
    hide NicFcn;
    var a := [LoadWithCopy(Copy(gs.copies), FromField("x"))];
    assert a + [] == a;
  }

  lemma ZeroIsYCode(gs: GenState)
    requires "y" in gs.noCopy
    ensures var g := GenPred(ZeroIsY(), gs);
            && g.code == [LoadWithCopy(Copy(gs.copies), FromConst(|gs.consts|))]
                       + [Apply2("equal", Copy(gs.copies), NoCopy("y"))]
            && g.ret == Copy(gs.copies)
            && Constant(|gs.consts|) in g.gs.consts && g.gs.consts[Constant(|gs.consts|)] == "0"
  {
    EqualName();
    hide NicFcn;
    var a := [LoadWithCopy(Copy(gs.copies), FromConst(|gs.consts|))];
    assert a + [] == a;
  }

  lemma ExecTwo(env: Env, st: Store, i: Instr, j: Instr)
    ensures Exec(env, st, [i] + [j]) == Exec1(env, Exec1(env, st, i), j)
  {
    ExecConcat(env, st, [i], [j]);
    ExecOne(env, st, i);
    ExecOne(env, Exec1(env, st, i), j);
  }

  /** Compiled from a state that has recorded y, `0 = y` comes out true when y was never loaded. */
  lemma StaleY(env: Env, gs: GenState, st: Store) returns (st': Store)
    requires Example(env) && "y" in gs.noCopy && NoCopy("y") !in st
    requires Declared(GenPred(ZeroIsY(), gs).gs.consts, env.consts)
    ensures var g := GenPred(ZeroIsY(), gs);
            st' == Exec(env, st, g.code) && Read(env, st', g.ret) == 1
  {
    var g, n := GenPred(ZeroIsY(), gs), |gs.consts|;
    ZeroIsYCode(gs);
    var i, j := LoadWithCopy(Copy(gs.copies), FromConst(n)), Apply2("equal", Copy(gs.copies), NoCopy("y"));
    assert Constant(n) in env.consts && env.consts[Constant(n)] == "0";
    hide GenPred, Run, Declared, ZeroIsY;
    hide Exec;
    ExecTwo(env, st, i, j);
    st' := Exec(env, st, g.code);
  }

  lemma ExampleCompiles()
    ensures CompilableLftas(TwoLftas()) && CompilablePred(XIsOne()) && CompilablePred(ZeroIsY())
    ensures AllCompilable([XIsOne(), ZeroIsY()]) && AllCompilable([ZeroIsY()])
    ensures Numbered(START)
  {
  }

  /** The constants of a running program include those of the first predicates of both LFTAs. */
  lemma TwoBlockConsts(qs: seq<Lfta>, all: map<ConstName, string>)
    requires |qs| == 2 && CompilableLftas(qs) && qs[0].preds != [] && qs[1].preds != []
    requires all == GenFrom(Packed, qs, 0, START).gs.consts
    ensures var gs1 := GenLfta(Packed, qs[0], 0, START).gs;
            && Declared(GenPred(qs[0].preds[0], START).gs.consts, all)
            && Numbered(gs1) && gs1.noCopy == {} + AllUses(qs[0].preds)
            && Declared(GenPred(qs[1].preds[0], gs1).gs.consts, all)
  {
    assert Numbered(START) && START.noCopy == {};
    hide *;
    SelfDeclared(all);
    NextState(Packed, qs, 0, START, all);
    DeclaredPart(Packed, qs[0].preds, 0, START, all);
    var gs1 := GenLfta(Packed, qs[0], 0, START).gs;
    NextState(Packed, qs, 1, gs1, all);
    DeclaredPart(Packed, qs[1].preds, 1, gs1, all);
  }

  lemma ExampleUses()
    ensures "y" in AllUses(TwoLftas()[0].preds)
  {
    assert TwoLftas()[0].preds[1..][0] == ZeroIsY();
  }

  lemma SelfDeclared(all: map<ConstName, string>)
    ensures Declared(all, all)
  {
  }

  /** The body of an LFTA with its first predicate written out. */
  lemma BodyFirst(qs: seq<Lfta>, i: nat, gs: GenState, p: Pred)
    requires i < |qs| && qs[i].preds != [] && qs[i].preds[0] == p
    ensures var g := GenPred(p, gs);
            var b := GenPreds(Packed, qs[i].preds[1..], i, g.gs);
            var next := GenFrom(Packed, qs, i + 1, GenLfta(Packed, qs[i], i, gs).gs).code;
            Body(Packed, qs, i, gs)
            == g.code + ([JumpIfZero(g.ret, LftaLabel(i + 1))] + (b.code + ([PackAndSend(i)] + next)))
  {
    hide GenPred, GenFrom, GenLfta, GenPreds, Body;
    var g := GenPred(p, gs);
    var b := GenPreds(Packed, qs[i].preds[1..], i, g.gs);
    BodySplit(Packed, qs, i, gs);
    GenPredsAt(Packed, qs[i].preds, 0, i, gs);
    assert qs[i].preds[0..] == qs[i].preds;
    var rest := [PackAndSend(i)] + GenFrom(Packed, qs, i + 1, GenLfta(Packed, qs[i], i, gs).gs).code;
    var jump := JumpIfZero(g.ret, LftaLabel(i + 1));
    assert (g.code + ([jump] + b.code)) + rest == g.code + ([jump] + (b.code + rest));
  }

  /** The first predicate of the first LFTA fails, and no no-copy variable has been loaded when it does. */
  lemma FirstPredFails(env: Env) returns (st': Store)
    requires Example(env) && Declared(GenPred(XIsOne(), START).gs.consts, env.consts)
    ensures var g := GenPred(XIsOne(), START);
            && st' == Exec(env, map[], g.code)
            && Read(env, st', g.ret) == 0 && NoCopy("y") !in st'
  {
    var g := GenPred(XIsOne(), START);
    XIsOneCode(START);
    assert Constant(0) in env.consts && env.consts[Constant(0)] == "1";
    hide GenPred, Run, Declared, XIsOne;
    hide Exec;
    ExecTwo(env, map[], LoadWithCopy(Copy(0), FromField("x")), Apply2("equal", Copy(0), Const(0)));
    st' := Exec(env, map[], g.code);
  }

  lemma CompilableHead(qs: seq<Lfta>)
    requires |qs| > 0 && CompilableLftas(qs) && qs[0].preds != []
    ensures Numbered(START) && CompilablePred(qs[0].preds[0]) && AllCompilable(qs[0].preds[1..])
  {
    hide CompilablePred;
    assert AllCompilable(qs[0].preds);
  }

  /** A failing first predicate of the first LFTA takes control to the body of the second. */
  lemma LeaveFirst(env: Env, qs: seq<Lfta>, st': Store)
    requires |qs| == 2 && CompilableLftas(qs) && qs[0].preds != []
    requires var g := GenPred(qs[0].preds[0], START);
             st' == Exec(env, map[], g.code) && Read(env, st', g.ret) == 0
    ensures Run(env, GenFrom(Packed, qs, 0, START).code, map[])
         == Run(env, Body(Packed, qs, 1, GenLfta(Packed, qs[0], 0, START).gs), st')
  {
    hide *;
    var p, gs1 := qs[0].preds[0], GenLfta(Packed, qs[0], 0, START).gs;
    var g := GenPred(p, START);
    var b := GenPreds(Packed, qs[0].preds[1..], 0, g.gs).code;
    var rest := [PackAndSend(0)] + GenFrom(Packed, qs, 1, gs1).code;
    FirstPieces(qs, b);
    NextLabel(qs, gs1);
    JumpsAway(env, g.code, g.ret, b, rest, LftaLabel(1), Body(Packed, qs, 1, gs1), map[]);
    BodyFirst(qs, 0, START, p);
    RunFromHead(env, qs);
  }

  lemma FirstPieces(qs: seq<Lfta>, b: seq<Instr>)
    requires |qs| == 2 && CompilableLftas(qs) && qs[0].preds != []
    requires b == GenPreds(Packed, qs[0].preds[1..], 0, GenPred(qs[0].preds[0], START).gs).code
    ensures Straight(GenPred(qs[0].preds[0], START).code) && forall k :: 0 <= k < |b| ==> !b[k].Label?
  {
    hide *;
    CompilableHead(qs);
    GenPredStraight(qs[0].preds[0], START);
    GenPredsShape(Packed, qs[0].preds[1..], 0, GenPred(qs[0].preds[0], START).gs);
  }

  lemma NextLabel(qs: seq<Lfta>, gs1: GenState)
    requires |qs| == 2
    ensures After([PackAndSend(0)] + GenFrom(Packed, qs, 1, gs1).code, LftaLabel(1)) == Some(Body(Packed, qs, 1, gs1))
  {
    hide *;
    AfterNext(Packed, qs, 1, gs1);
    AfterSend(0, GenFrom(Packed, qs, 1, gs1).code, Body(Packed, qs, 1, gs1));
  }

  lemma RunFromHead(env: Env, qs: seq<Lfta>)
    requires |qs| == 2
    ensures Run(env, GenFrom(Packed, qs, 0, START).code, map[]) == Run(env, Body(Packed, qs, 0, START), map[])
  {
    hide *;
    CodeIsBody(Packed, qs, 0, START);
    RunHead(env, 0, Body(Packed, qs, 0, START), map[]);
  }

  /** Straight code whose result is zero, followed by a conditional jump. */
  lemma JumpsAway(env: Env, code: seq<Instr>, ret: Var, skipped: seq<Instr>, rest: seq<Instr>, name: LabelName,
      target: seq<Instr>, st: Store)
    requires Straight(code) && Read(env, Exec(env, st, code), ret) == 0
    requires (forall k :: 0 <= k < |skipped| ==> !skipped[k].Label?) && After(rest, name) == Some(target)
    ensures Run(env, code + ([JumpIfZero(ret, name)] + (skipped + rest)), st) == Run(env, target, Exec(env, st, code))
  {
    hide *;
    RunStraight(env, code, [JumpIfZero(ret, name)] + (skipped + rest), st);
    RunJump(env, JumpIfZero(ret, name), skipped + rest, Exec(env, st, code));
    JumpOut(env, skipped, rest, name, target, Exec(env, st, code));
  }

  /** A one-predicate second LFTA whose predicate comes out nonzero is sent, and nothing else. */
  lemma SendSecond(env: Env, qs: seq<Lfta>, gs1: GenState, st: Store, st': Store)
    requires |qs| == 2 && |qs[1].preds| == 1 && Numbered(gs1) && CompilablePred(qs[1].preds[0])
    requires var g := GenPred(qs[1].preds[0], gs1);
             st' == Exec(env, st, g.code) && Read(env, st', g.ret) != 0
    ensures Run(env, Body(Packed, qs, 1, gs1), st) == [SentLfta(1)]
  {
    var p := qs[1].preds[0];
    assert qs[1].preds[1..] == [];
    assert GenPreds(Packed, [], 1, GenPred(p, gs1).gs).code == [];
    hide *;
    var g, gs2 := GenPred(p, gs1), GenLfta(Packed, qs[1], 1, gs1).gs;
    var end := GenFrom(Packed, qs, 2, gs2).code;
    BodyFirst(qs, 1, gs1, p);
    var rest := [PackAndSend(1)] + end;
    assert [] + rest == rest;
    var jump := JumpIfZero(g.ret, LftaLabel(2));
    GenPredStraight(p, gs1);
    RunStraight(env, g.code, [jump] + rest, st);
    RunJump(env, jump, rest, st');
    RunSend(env, PackAndSend(1), end, st');
    EndOfExample(env, qs, gs2, st');
    assert [SentLfta(1)] + [] == [SentLfta(1)];
  }

  /**
   * Without the condition the theorem fails: this packet satisfies neither LFTA, yet the program sends a
   * packed tuple for the second one, because y is used without having been loaded.
   */
  lemma UnsafeProgramSendsWrongTuple()
    ensures !LoadsBeforeUses(TwoLftas())
    ensures Satisfied(Packet(), TwoLftas(), 0) == []
    ensures Run(Packet(), GenFrom(Packed, TwoLftas(), 0, START).code, map[]) == [SentLfta(1)]
  {
    hide *;
    var env, qs := Packet(), TwoLftas();
    ExampleFacts();
    NothingSatisfied();
    ExampleUnsafe();
    ExampleCompiles();
    ExampleUses();
    TwoBlockConsts(qs, env.consts);
    var gs1 := GenLfta(Packed, qs[0], 0, START).gs;
    var st1 := FirstPredFails(env);
    LeaveFirst(env, qs, st1);
    var st2 := StaleY(env, gs1, st1);
    SendSecond(env, qs, gs1, st1, st2);
  }

  lemma ExampleFacts()
    ensures var env, qs := Packet(), TwoLftas();
            && Example(env) && env.consts == GenFrom(Packed, qs, 0, START).gs.consts
            && |qs| == 2 && qs[0].preds != [] && qs[0].preds[0] == XIsOne() && |qs[1].preds| == 1
            && qs[1].preds[0] == ZeroIsY()
  {
    hide GenFrom, XIsOne, ZeroIsY, Packet, Example;
    PacketFacts();
  }

  lemma PacketFacts()
    ensures Example(Packet()) && Packet().consts == GenFrom(Packed, TwoLftas(), 0, START).gs.consts
  {
    hide GenFrom, TwoLftas;
  }

  lemma EndOfExample(env: Env, qs: seq<Lfta>, gs: GenState, st: Store)
    requires |qs| == 2
    ensures Run(env, GenFrom(Packed, qs, 2, gs).code, st) == []
  {
    hide Run;
    assert Tail(Packed, 2) == [Label(LftaLabel(2))] + [Label(ExitLabel), Exit];
    RunEnd(env, 2, st);
  }

  lemma NothingSatisfied()
    ensures Satisfied(Packet(), TwoLftas(), 0) == []
  {
    hide GenFrom, Packet, XIsOne, ZeroIsY, EvalPred;
    var env, qs := Packet(), TwoLftas();
    XIsOneFails(env);
    ZeroIsYFails(env);
    assert !AllHold(env, qs[0].preds) by { assert EvalPred(env, qs[0].preds[0]) == 0; }
    assert !AllHold(env, qs[1].preds) by { assert EvalPred(env, qs[1].preds[0]) == 0; }
    assert Satisfied(env, qs, 2) == [];
    assert Satisfied(env, qs, 1) == [];
  }

  lemma XIsOneFails(env: Env)
    requires env.packet == Packet().packet && env.literal == Packet().literal && env.binary == Packet().binary
    ensures EvalPred(env, XIsOne()) == 0
  {
    hide GenFrom;
  }

  lemma ZeroIsYFails(env: Env)
    requires env == Packet()
    ensures EvalPred(env, ZeroIsY()) == 0
  {
    hide GenFrom;
  }

  lemma ExampleUnsafe()
    ensures !LoadsBeforeUses(TwoLftas())
  {
    var qs := TwoLftas();
    var p, q := qs[0].preds, qs[1].preds;
    assert p[1..][0] == ZeroIsY() && q[0] == ZeroIsY();
    assert "y" in AllUses(p) && FirstUses(p) == {};
    var rec := {} + AllUses(p);
    assert "y" in PredUses(q[0]) * rec;
    assert !SafePreds(q, rec, {} + FirstUses(p));
    hide SafePreds, AllUses, FirstUses;
    assert !SafeFrom(qs, 1, rec, {} + FirstUses(p));
  }

  // ------------------------------------------------ a filter that lets an unwanted packet through

  function OneLfta(): seq<Lfta> { [Lfta([XIsOne()], "7")] }

  function FilteredPacket(): Env { Packet().(consts := GenFrom(Filter, OneLfta(), 0, START).gs.consts) }

  /** The simplest filter, one LFTA with the predicate x = 1: a packet with x = 0 satisfies nothing and is sent. */
  lemma FilterSendsUnwanted()
    ensures !Wanted(FilteredPacket(), OneLfta())
    ensures Run(FilteredPacket(), GenFrom(Filter, OneLfta(), 0, START).code, map[]) == [SentPacket]
  {
    var env, qs := FilteredPacket(), OneLfta();
    assert |qs| == 1 && |qs[0].preds| == 1;
    OneLftaCompiles();
    OneLftaUnwanted();
    hide *;
    SingleLftaIsSafe(qs);
    OneLftaConsts();
    FilterProgramUseless(env, qs);
  }

  lemma OneLftaConsts()
    ensures FilteredPacket().consts == GenFrom(Filter, OneLfta(), 0, START).gs.consts
  {
    hide GenFrom;
  }

  lemma OneLftaCompiles()
    ensures CompilableLftas(OneLfta())
  {
  }

  lemma OneLftaUnwanted()
    ensures !Wanted(FilteredPacket(), OneLfta())
  {
    hide GenFrom, Packet, XIsOne, EvalPred;
    var env, qs := FilteredPacket(), OneLfta();
    XIsOneFails(env);
    assert EvalPred(env, qs[0].preds[0]) == 0;
  }
}
