/** The operator-name tables: every query operator is compiled to the card function with the same meaning. */
module NicTables {
  import opened NicLanguage
  import opened NicGenerator

  /** The scan returns the entry after the first occurrence of the operator. */
  lemma {:induction false} ScanFinds(table: seq<string>, op: string, i: nat, k: nat)
    requires i <= k && k + 1 < |table| && table[k] == op
    requires forall j :: i <= j <= k ==> table[j] != "END"
    requires forall j :: i <= j < k ==> table[j] != op
    ensures ScanFrom(table, op, i) == table[k + 1]
    decreases k - i
  {
    if i < k {
      ScanFinds(table, op, i + 1, k);
    }
  }

  /** Position of a binary operator in its table. */
  function BinaryAt(m: BinMeaning): nat {
    match m
    case Plus => 0 case Minus => 2 case BitOr => 4 case Multiply => 6 case Divide => 8 case BitAnd => 10
    case Modulo => 12 case ShiftRight => 14 case ShiftLeft => 16 case And => 18 case Or => 20 case Equal => 22
    case Greater => 24 case Less => 26 case GreaterEqual => 28 case LessEqual => 30 case NotEqual => 32
    case NoBinary => 34
  }

  /** The name of a binary operator. */
  function BinaryText(m: BinMeaning): string {
    match m
    case Plus => "+" case Minus => "-" case BitOr => "|" case Multiply => "*" case Divide => "/" case BitAnd => "&"
    case Modulo => "%" case ShiftRight => ">>" case ShiftLeft => "<<" case And => "AND" case Or => "OR"
    case Equal => "="
    case Greater => ">" case Less => "<" case GreaterEqual => ">=" case LessEqual => "<=" case NotEqual => "<>"
    case NoBinary => ""
  }

  lemma BinaryIsText(op: string)
    requires SqlBinary(op) != NoBinary
    ensures op == BinaryText(SqlBinary(op))
  {
  }

  lemma TextAt(m: BinMeaning)
    requires m != NoBinary
    ensures BinaryAt(m) < 34 && FCN_FOR_OP[BinaryAt(m)] == BinaryText(m)
  {
  }

  lemma BinaryName(op: string)
    requires SqlBinary(op) != NoBinary
    ensures var k := BinaryAt(SqlBinary(op)); k < 34 && FCN_FOR_OP[k] == op
  {
    hide *;
    TableSize();
    BinaryIsText(op);
    TextAt(SqlBinary(op));
  }

  /** The name of the card function for a binary operator. */
  function CardText(m: BinMeaning): string {
    match m
    case Plus => "plus" case Minus => "minus" case BitOr => "bitwise_or" case Multiply => "multiply"
    case Divide => "divide" case BitAnd => "bitwise_and" case Modulo => "modulo" case ShiftRight => "shift_right"
    case ShiftLeft => "shift_left" case And => "AND" case Or => "OR" case Equal => "equal" case Greater => "greater"
    case Less => "less" case GreaterEqual => "greater_equal" case LessEqual => "less_equal"
    case NotEqual => "not_equal" case NoBinary => ""
  }

  lemma CardTextAt(m: BinMeaning)
    requires m != NoBinary
    ensures BinaryAt(m) < 34 && |FCN_FOR_OP| == 35 && FCN_FOR_OP[BinaryAt(m) + 1] == CardText(m)
  {
  }

  lemma CardTextMeans(m: BinMeaning)
    ensures NicBinary(CardText(m)) == m
  {
    hide NicBinary, CardText;
    if BinaryAt(m) < 12 {
      CardArithmetic(m);
    } else if BinaryAt(m) < 22 {
      CardLogic(m);
    } else if BinaryAt(m) < 28 {
      CardComparison(m);
    } else {
      CardBounds(m);
    }
  }

  lemma CardArithmetic(m: BinMeaning)
    requires BinaryAt(m) < 12
    ensures NicBinary(CardText(m)) == m
  {
  }

  lemma CardLogic(m: BinMeaning)
    requires 12 <= BinaryAt(m) < 22
    ensures NicBinary(CardText(m)) == m
  {
  }

  lemma CardComparison(m: BinMeaning)
    requires 22 <= BinaryAt(m) < 28
    ensures NicBinary(CardText(m)) == m
  {
  }

  lemma CardBounds(m: BinMeaning)
    requires 28 <= BinaryAt(m)
    ensures NicBinary(CardText(m)) == m
  {
  }

  lemma BinaryFunction(m: BinMeaning)
    requires m != NoBinary
    ensures BinaryAt(m) < 34 && |FCN_FOR_OP| == 35 && NicBinary(FCN_FOR_OP[BinaryAt(m) + 1]) == m
  {
    hide *;
    CardTextAt(m);
    CardTextMeans(m);
  }

  lemma TableSize()
    ensures |FCN_FOR_OP| == 35
  {
  }

  /** The function names of the table, but for AND and OR, are longer than any operator name. */
  lemma LongEntry(j: nat)
    requires j < 34 && j % 2 == 1 && j != 19 && j != 21
    ensures |FCN_FOR_OP[j]| > 3
  {
    hide SqlBinary, NicBinary, BinaryText;
  }

  lemma ShortText(m: BinMeaning)
    ensures |BinaryText(m)| <= 3
  {
  }

  /** An operator name occurs at its own position only, among the even ones. */
  lemma TextOrder(m: BinMeaning, j: nat)
    requires j < 34 && j % 2 == 0 && m != NoBinary && |FCN_FOR_OP| == 35 && FCN_FOR_OP[j] == BinaryText(m)
    ensures BinaryAt(m) == j
  {
    hide *;
    var n := OperatorAt(j);
    TextAt(n);
    TextMeans(m);
    TextMeans(n);
  }

  lemma Twins()
    ensures FCN_FOR_OP[19] == BinaryText(And) && FCN_FOR_OP[21] == BinaryText(Or)
    ensures FCN_FOR_OP[19] == FCN_FOR_OP[18] && FCN_FOR_OP[21] == FCN_FOR_OP[20]
  {
    hide SqlBinary, NicBinary;
  }

  /** No earlier entry, operator or function name, is mistaken for it. */
  lemma BinaryFirst(op: string, j: nat)
    requires SqlBinary(op) != NoBinary && j < BinaryAt(SqlBinary(op))
    ensures j < 34 && |FCN_FOR_OP| == 35 && FCN_FOR_OP[j] != op
  {
    hide SqlBinary, FCN_FOR_OP, BinaryText;
    var m := SqlBinary(op);
    TableSize();
    TextAt(m);
    BinaryIsText(op);
    Twins();
    if FCN_FOR_OP[j] == op {
      ShortText(m);
      if j == 19 || j == 21 {
        TextOrder(m, j - 1);
      } else if j % 2 == 1 {
        LongEntry(j);
      } else {
        TextOrder(m, j);
      }
    }
  }

  lemma NoEnd(j: nat)
    requires j < 34
    ensures |FCN_FOR_OP| == 35 && FCN_FOR_OP[j] != "END"
  {
    hide SqlBinary, NicBinary, BinaryText;
  }

  lemma BinaryTable(op: string)
    requires SqlBinary(op) != NoBinary
    ensures NicBinary(NicFcn(op)) == SqlBinary(op)
  {
    hide *;
    var k := BinaryAt(SqlBinary(op));
    TableSize();
    BinaryName(op);
    BinaryFunction(SqlBinary(op));
    forall j | 0 <= j <= k ensures FCN_FOR_OP[j] != "END" { NoEnd(j); }
    forall j | 0 <= j < k ensures FCN_FOR_OP[j] != op { BinaryFirst(op, j); }
    ScanFinds(FCN_FOR_OP, op, 0, k);
    NicFcnIs(op);
  }

  lemma NicFcnIs(op: string)
    ensures NicFcn(op) == ScanFrom(FCN_FOR_OP, op, 0)
  {
  }

  function UnaryAt(m: UnMeaning): nat {
    match m
    case Identity => 0 case Negate => 2 case IntegerNot => 4 case BitwiseNot => 6 case LogicalNot => 8
    case NoUnary => 10
  }

  lemma UnaryTable(op: string)
    requires SqlUnary(op) != NoUnary
    ensures NicUnary(UnaryNicFcn(op)) == SqlUnary(op)
  {
    var k := UnaryAt(SqlUnary(op));
    assert FCN_FOR_UNARY_OP[k] == op && NicUnary(FCN_FOR_UNARY_OP[k + 1]) == SqlUnary(op);
    assert forall j :: 0 <= j <= k ==> FCN_FOR_UNARY_OP[j] != "END";
    assert forall j :: 0 <= j < k ==> FCN_FOR_UNARY_OP[j] != op;
    ScanFinds(FCN_FOR_UNARY_OP, op, 0, k);
  }

  // ------------------------------------------------ names that are not operators

  lemma {:induction false} ScanMisses(table: seq<string>, op: string, i: nat)
    requires forall j :: i <= j < |table| - 1 ==> table[j] != op
    ensures ScanFrom(table, op, i) == "ERROR"
    decreases |table| - i
  {
    if i + 1 < |table| && table[i] != "END" {
      ScanMisses(table, op, i + 1);
    }
  }

  /** Position of the first entry with this name, or of the last entry of the table. */
  function FirstEntry(table: seq<string>, op: string, i: nat): (k: nat)
    requires i < |table|
    ensures i <= k < |table| && (k < |table| - 1 ==> table[k] == op) && forall j :: i <= j < k ==> table[j] != op
    decreases |table| - i
  {
    if i == |table| - 1 || table[i] == op then i else FirstEntry(table, op, i + 1)
  }

  lemma OnlyShiftLeft(k: nat)
    requires k < 34
    ensures FCN_FOR_OP[k] == "shift_left" <==> k == 17
  {
    hide SqlBinary, NicBinary;
  }

  /** Card functions other than AND and OR have long names. */
  lemma ShortName(fcn: string)
    requires |fcn| <= 3 && fcn != "AND" && fcn != "OR"
    ensures NicBinary(fcn) == NoBinary
  {
  }

  lemma Symbols(k: nat)
    requires k <= 34 && k % 2 == 0
    ensures |FCN_FOR_OP[k]| <= 3 && (FCN_FOR_OP[k] == "AND" <==> k == 18) && (FCN_FOR_OP[k] == "OR" <==> k == 20)
  {
    hide SqlBinary, NicBinary;
  }

  /** What follows a function name is an operator symbol or the end, and only AND is a card function too. */
  lemma AfterFunctionName(k: nat)
    requires k < 34 && k % 2 == 1 && k != 19
    ensures NicBinary(FCN_FOR_OP[k + 1]) == if k == 17 then And else NoBinary
  {
    Symbols(k + 1);
    if k == 17 {
      assert NicBinary("AND") == And;
    } else {
      hide *;
      ShortName(FCN_FOR_OP[k + 1]);
    }
  }

  /** The operator at an even position. */
  lemma OperatorAt(k: nat) returns (m: BinMeaning)
    requires k < 34 && k % 2 == 0
    ensures m != NoBinary && BinaryAt(m) == k
  {
    m := match k
      case 0 => Plus
      case 2 => Minus
      case 4 => BitOr
      case 6 => Multiply
      case 8 => Divide
      case 10 => BitAnd
      case 12 => Modulo
      case 14 => ShiftRight
      case 16 => ShiftLeft
      case 18 => And
      case 20 => Or
      case 22 => Equal
      case 24 => Greater
      case 26 => Less
      case 28 => GreaterEqual
      case 30 => LessEqual
      case _ => NotEqual;
  }

  lemma TextMeans(m: BinMeaning)
    ensures SqlBinary(BinaryText(m)) == m
  {
  }

  lemma BinaryOperator(k: nat)
    requires k < 34 && k % 2 == 0
    ensures |FCN_FOR_OP| == 35 && SqlBinary(FCN_FOR_OP[k]) != NoBinary
  {
    hide *;
    TableSize();
    var m := OperatorAt(k);
    TextAt(m);
    TextMeans(m);
  }

  lemma BinaryNamed(op: string)
    requires SqlBinary(op) != NoBinary
    ensures op in FCN_FOR_OP[..34] && op != "shift_left" && op != "END"
  {
    var k := BinaryAt(SqlBinary(op));
    BinaryName(op);
    assert FCN_FOR_OP[..34][k] == op;
  }

  lemma Repeated()
    ensures |FCN_FOR_OP| == 35 && FCN_FOR_OP[19] == FCN_FOR_OP[18] && FCN_FOR_OP[21] == FCN_FOR_OP[20]
    ensures NicBinary("ERROR") == NoBinary && FCN_FOR_OP[17] == "shift_left"
  {
  }

  /** A name is found exactly when it is an entry of the table, operator or function name. */
  lemma BinaryFound(op: string)
    ensures var k := FirstEntry(FCN_FOR_OP, op, 0);
            NicFcn(op) == if k < 34 then FCN_FOR_OP[k + 1] else "ERROR"
  {
    hide *;
    TableSize();
    NicFcnIs(op);
    var k := FirstEntry(FCN_FOR_OP, op, 0);
    if k < 34 {
      forall j | 0 <= j <= k ensures FCN_FOR_OP[j] != "END" { NoEnd(j); }
      ScanFinds(FCN_FOR_OP, op, 0, k);
    } else {
      ScanMisses(FCN_FOR_OP, op, 0);
    }
  }

  /**
   * Over all names: the card function has the meaning of the query operator, and none where there is no such operator,
   * for every name except exactly "shift_left", which the scan finds among the function names and maps to AND.
   */
  lemma BinaryTableExact(op: string)
    ensures NicBinary(NicFcn(op)) == SqlBinary(op) <==> op != "shift_left"
    ensures op == "shift_left" ==> SqlBinary(op) == NoBinary && NicBinary(NicFcn(op)) == And
  {
    Repeated();
    hide *;
    if SqlBinary(op) != NoBinary {
      BinaryTable(op);
      BinaryNamed(op);
    } else {
      BinaryFound(op);
      var k := FirstEntry(FCN_FOR_OP, op, 0);
      if k < 34 {
        OnlyShiftLeft(k);
        if k % 2 == 0 {
          BinaryOperator(k);
        } else {
          AfterFunctionName(k);
        }
      }
      if op == "shift_left" {
        AfterFunctionName(17);
      }
    }
  }

  lemma UnaryEntry(k: nat)
    requires k < 10
    ensures |FCN_FOR_UNARY_OP| == 11 && FCN_FOR_UNARY_OP[k] != "END"
    ensures k % 2 == 1 ==> NicUnary(FCN_FOR_UNARY_OP[k + 1]) == NoUnary
    ensures k % 2 == 0 ==> SqlUnary(FCN_FOR_UNARY_OP[k]) != NoUnary
  {
  }

  /** What the scan finds for any name. */
  lemma UnaryFound(op: string)
    ensures |FCN_FOR_UNARY_OP| == 11
    ensures var k := FirstEntry(FCN_FOR_UNARY_OP, op, 0);
            UnaryNicFcn(op) == if k < 10 then FCN_FOR_UNARY_OP[k + 1] else "ERROR"
  {
    UnarySize();
    UnaryFcnIs(op);
    hide *;
    var k := FirstEntry(FCN_FOR_UNARY_OP, op, 0);
    if k < 10 {
      forall j | 0 <= j <= k ensures FCN_FOR_UNARY_OP[j] != "END" { UnaryEntry(j); }
      ScanFinds(FCN_FOR_UNARY_OP, op, 0, k);
    } else {
      ScanMisses(FCN_FOR_UNARY_OP, op, 0);
    }
  }

  lemma UnarySize()
    ensures |FCN_FOR_UNARY_OP| == 11 && NicUnary("ERROR") == NoUnary
  {
  }

  lemma UnaryFcnIs(op: string)
    ensures UnaryNicFcn(op) == ScanFrom(FCN_FOR_UNARY_OP, op, 0)
  {
  }

  /** Over all names: the unary table gives every operator its card function and no meaning to anything else. */
  lemma UnaryTableExact(op: string)
    ensures NicUnary(UnaryNicFcn(op)) == SqlUnary(op)
  {
    hide *;
    UnarySize();
    if SqlUnary(op) != NoUnary {
      UnaryTable(op);
    } else {
      UnaryFound(op);
      var k := FirstEntry(FCN_FOR_UNARY_OP, op, 0);
      if k < 10 { UnaryEntry(k); }
    }
  }
}
