/**
 * The two languages of the NIC compiler: scalar expressions and predicates of a query,
 * and the two-address code run by the card.
 */
module NicLanguage {

  // ------------------------------------------------ query side

  /**
   * Scalar expressions.  A group-by reference carries its definition; Call is a function
   * reference and Other stands for every remaining operator type.
   */
  datatype Expr =
    | Literal(text: string, ty: string)
    | Param(name: string)
    | Unary(op: string, arg: Expr)
    | Binary(op: string, left: Expr, right: Expr)
    | Column(field: string, ty: string)
    | GroupVar(def: Expr)
    | Call(fcn: string)
    | Other

  datatype Pred =
    | In(e: Expr)
    | Compare(op: string, l: Expr, r: Expr)
    | PredUnary(op: string, p: Pred)
    | PredBinary(op: string, p1: Pred, p2: Pred)
    | PredCall(fcn: string)

  datatype BinMeaning =
    | Plus | Minus | BitOr | Multiply | Divide | BitAnd | Modulo | ShiftRight | ShiftLeft
    | And | Or | Equal | Greater | Less | GreaterEqual | LessEqual | NotEqual | NoBinary

  datatype UnMeaning = Identity | Negate | IntegerNot | BitwiseNot | LogicalNot | NoUnary

  function SqlBinary(op: string): BinMeaning {
    if op == "+" then Plus else if op == "-" then Minus else if op == "|" then BitOr
    else if op == "*" then Multiply else if op == "/" then Divide else if op == "&" then BitAnd
    else if op == "%" then Modulo else if op == ">>" then ShiftRight else if op == "<<" then ShiftLeft
    else if op == "AND" then And else if op == "OR" then Or else if op == "=" then Equal
    else if op == ">" then Greater else if op == "<" then Less else if op == ">=" then GreaterEqual
    else if op == "<=" then LessEqual else if op == "<>" then NotEqual else NoBinary
  }

  function SqlUnary(op: string): UnMeaning {
    if op == "+" then Identity else if op == "-" then Negate else if op == "!" then IntegerNot
    else if op == "~" then BitwiseNot else if op == "NOT" then LogicalNot else NoUnary
  }

  // ------------------------------------------------ card side

  datatype Var = Copy(n: nat) | NoCopy(field: string) | Const(n: nat) | Bad

  datatype ConstName = Constant(n: nat) | ConstId(i: nat)

  datatype Source = FromConst(n: nat) | FromField(field: string)

  datatype LabelName = LftaLabel(i: nat) | Pass | ExitLabel

  datatype Instr =
    | LoadWithCopy(dst: Var, src: Source)
    | Load(dst: Var, field: string)
    | Apply1(fcn: string, v: Var)
    | Apply2(fcn: string, v: Var, w: Var)
    | JumpIfZero(v: Var, target: LabelName)
    | JumpIfNotZero(v: Var, target: LabelName)
    | Label(name: LabelName)
    | PackAndSend(id: nat)
    | SendPacket
    | Comment
    | Exit
    | Error

  function NicBinary(fcn: string): BinMeaning {
    match fcn
    case "plus" => Plus
    case "minus" => Minus
    case "bitwise_or" => BitOr
    case "multiply" => Multiply
    case "divide" => Divide
    case "bitwise_and" => BitAnd
    case "modulo" => Modulo
    case "shift_right" => ShiftRight
    case "shift_left" => ShiftLeft
    case "AND" => And
    case "OR" => Or
    case "equal" => Equal
    case "greater" => Greater
    case "less" => Less
    case "greater_equal" => GreaterEqual
    case "less_equal" => LessEqual
    case "not_equal" => NotEqual
    case _ => NoBinary
  }

  function NicUnary(fcn: string): UnMeaning {
    match fcn
    case "unary_plus" => Identity
    case "unary_minus" => Negate
    case "integer_not" => IntegerNot
    case "bitwise_not" => BitwiseNot
    case "logical_not" => LogicalNot
    case _ => NoUnary
  }

  /**
   * What a program runs against: the packet's fields, the value of a literal's text, the meaning of the
   * operators on words, the declared constants, and whatever the variables hold before they are written.
   */
  datatype Env = Env(
    packet: string -> int,
    literal: string -> int,
    unary: (UnMeaning, int) -> int,
    binary: (BinMeaning, int, int) -> int,
    consts: map<ConstName, string>,
    garbage: Var -> int)

  type Store = map<Var, int>

  function Read(env: Env, st: Store, v: Var): int {
    if v.Const? then (if Constant(v.n) in env.consts then env.literal(env.consts[Constant(v.n)]) else 0)
    else if v in st then st[v] else env.garbage(v)
  }

  /** The value of an expression, independently of any code. */
  function Eval(env: Env, e: Expr): int {
    match e
    case Literal(text, _) => env.literal(text)
    case Unary(op, a) => env.unary(SqlUnary(op), Eval(env, a))
    case Binary(op, l, r) => env.binary(SqlBinary(op), Eval(env, l), Eval(env, r))
    case Column(f, _) => env.packet(f)
    case GroupVar(def) => Eval(env, def)
    case _ => 0
  }

  function EvalPred(env: Env, p: Pred): int {
    match p
    case Compare(op, l, r) => env.binary(SqlBinary(op), Eval(env, l), Eval(env, r))
    case PredUnary(op, a) => env.unary(SqlUnary(op), EvalPred(env, a))
    case PredBinary(op, a, b) => env.binary(SqlBinary(op), EvalPred(env, a), EvalPred(env, b))
    case _ => 0
  }

  /** Effect of one non-jump instruction: an operator overwrites its first operand. */
  function Exec1(env: Env, st: Store, i: Instr): Store {
    match i
    case LoadWithCopy(d, FromConst(n)) => st[d := Read(env, st, Const(n))]
    case LoadWithCopy(d, FromField(f)) => st[d := env.packet(f)]
    case Load(d, f) => st[d := env.packet(f)]
    case Apply1(f, v) => st[v := env.unary(NicUnary(f), Read(env, st, v))]
    case Apply2(f, v, w) => st[v := env.binary(NicBinary(f), Read(env, st, v), Read(env, st, w))]
    case _ => st
  }

  function Exec(env: Env, st: Store, code: seq<Instr>): Store
    decreases |code|
  {
    if code == [] then st else Exec(env, Exec1(env, st, code[0]), code[1..])
  }

  lemma {:induction false} ExecConcat(env: Env, st: Store, a: seq<Instr>, b: seq<Instr>)
    ensures Exec(env, st, a + b) == Exec(env, Exec(env, st, a), b)
    decreases |a|
  {
    if a == [] {
      assert a + b == b;
    } else {
      assert (a + b)[1..] == a[1..] + b;
      ExecConcat(env, Exec1(env, st, a[0]), a[1..], b);
    }
  }
}
