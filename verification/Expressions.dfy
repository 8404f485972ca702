/** Programs as they are written: expressions, assignments, prints, conditions and loops, with their meaning
    in numbers; and their translation to instructions. */
module Expressions {
  import opened Opcodes
  import opened Options
  import opened Code
  import opened Statements
  import opened CompiledMeaning
  import opened Emission

  type Name = seq<int>

  const OT_INT: int := 1

  /** Expressions; a comparison is 1 or 0. */
  datatype Expr =
    | Constant(n: int)
    | Parameter(name: Name)
    | Sum(left: Expr, right: Expr)
    | Difference(left: Expr, right: Expr)
    | Equal(left: Expr, right: Expr)
    | Less(left: Expr, right: Expr)

  datatype Prog =
    | Assign(name: Name, e: Expr)
    | Show(e: Expr)
    | Both(first: Prog, second: Prog)
    | When(cond: Expr, body: Prog)
    | Choose(cond: Expr, yes: Prog, no: Prog)
    | Repeat(cond: Expr, body: Prog)
    | Leave
    | NextTurn
    | Select(value: Expr, blocks: seq<Block>)

  /** A CASE block with its values, or the DEFAULT block. */
  datatype Block = OnValues(values: seq<int>, body: Prog) | Otherwise(body: Prog)

  // ---- Meaning.

  /** The values of the parameters, and what has been printed. */
  datatype Store = Store(env: map<Name, int>, out: seq<int>)

  /** How a program ends: as usual, by leaving the loop around it, by going on to its next turn, with an
      error, or not within a number of turns. */
  datatype End = Ends(s: Store) | Leaves(s: Store) | Continues(s: Store) | Fault | Unfinished

  /** The value of an expression; None is the error of a parameter that does not exist. */
  function Value(e: Expr, env: map<Name, int>): Option<int> {
    match e
    case Constant(n) => Some(n)
    case Parameter(name) => if name in env then Some(env[name]) else None
    case _ =>
      match (Value(e.left, env), Value(e.right, env))
      case (Some(a), Some(b)) => Some(match e
                                      case Sum(_, _) => a + b
                                      case Difference(_, _) => a - b
                                      case Equal(_, _) => if a == b then 1 else 0
                                      case _ => if a < b then 1 else 0)
      case _ => None
  }

  /** What a program does, if that takes no more than fuel turns of loops. */
  function Outcome(p: Prog, s: Store, fuel: nat): End
    decreases fuel, p
  {
    match p
    case Assign(name, e) =>
      (match Value(e, s.env)
       case Some(v) => if name in s.env then Ends(Store(s.env[name := v], s.out)) else Fault
       case None => Fault)
    case Show(e) => (match Value(e, s.env) case Some(v) => Ends(Store(s.env, s.out + [v])) case None => Fault)
    case Both(first, second) =>
      var r := Outcome(first, s, fuel);
      if r.Ends? then Outcome(second, r.s, fuel) else r
    case When(cond, body) =>
      (match Value(cond, s.env)
       case None => Fault
       case Some(v) => if v != 0 then Outcome(body, s, fuel) else Ends(s))
    case Choose(cond, yes, no) =>
      (match Value(cond, s.env)
       case None => Fault
       case Some(v) => if v != 0 then Outcome(yes, s, fuel) else Outcome(no, s, fuel))
    case Repeat(cond, body) =>
      (match Value(cond, s.env)
       case None => Fault
       case Some(v) =>
         if v == 0 then Ends(s)
         else
           match Outcome(body, s, fuel)
           case Ends(s') => if fuel == 0 then Unfinished else Outcome(p, s', fuel - 1)
           case Continues(s') => if fuel == 0 then Unfinished else Outcome(p, s', fuel - 1)
           case Leaves(s') => Ends(s')
           case Fault => Fault
           case Unfinished => Unfinished)
    case Leave => Leaves(s)
    case NextTurn => Continues(s)
    case Select(value, blocks) =>
      (match Value(value, s.env)
       case None => Fault
       case Some(v) =>
         var i := Picked(blocks, v);
         if i < 0 then Ends(s) else Outcome(blocks[i].body, s, fuel))
  }

  /** The last block with the value, otherwise the first block for all others, otherwise -1. */
  function Picked(blocks: seq<Block>, v: int): (i: int)
    ensures -1 <= i < |blocks|
    ensures i >= 0 && blocks[i].OnValues? ==>
              v in blocks[i].values && forall j :: i < j < |blocks| && blocks[j].OnValues? ==> v !in blocks[j].values
    ensures i >= 0 && blocks[i].Otherwise? ==>
              (forall j :: 0 <= j < |blocks| && blocks[j].OnValues? ==> v !in blocks[j].values)
              && forall j :: 0 <= j < i ==> blocks[j].OnValues?
    ensures i < 0 ==> forall j :: 0 <= j < |blocks| ==> blocks[j].OnValues? && v !in blocks[j].values
  {
    if blocks == [] then -1
    else
      var last, i := blocks[|blocks| - 1], Picked(blocks[..|blocks| - 1], v);
      if (last.OnValues? && v in last.values) || (last.Otherwise? && i < 0) then |blocks| - 1 else i
  }

  ghost predicate Results(p: Prog, s: Store, r: End) {
    exists fuel: nat :: Outcome(p, s, fuel) == r
  }

  lemma ValuesAre(a: int, b: int, name: Name, env: map<Name, int>)
    ensures Value(Sum(Constant(a), Constant(b)), env) == Some(a + b)
    ensures Value(Difference(Constant(a), Constant(b)), env) == Some(a - b)
    ensures Value(Equal(Constant(a), Constant(b)), env) == Some(if a == b then 1 else 0)
    ensures Value(Less(Constant(a), Constant(b)), env) == Some(if a < b then 1 else 0)
    ensures Value(Parameter(name), env) == if name in env then Some(env[name]) else None
  {
  }

  // ---- Translation.

  /** The code of an expression: operands first, from left to right. */
  function CodeOf(e: Expr): seq<Instr> {
    match e
    case Constant(n) => [Instr(PUSHCONST, [OT_INT, n])]
    case Parameter(name) => [Instr(PUSHPARAM, name)]
    case Sum(left, right) => CodeOf(left) + CodeOf(right) + [Instr(ADD, [])]
    case Difference(left, right) => CodeOf(left) + CodeOf(right) + [Instr(SUB, [])]
    case Equal(left, right) => CodeOf(left) + CodeOf(right) + [Instr(EQ, [])]
    case Less(left, right) => CodeOf(left) + CodeOf(right) + [Instr(LT, [])]
  }

  function StmtOf(p: Prog): Stmt {
    match p
    case Assign(name, e) => Simple(CodeOf(e) + [Instr(ASSIGN, name)])
    case Show(e) => Simple(CodeOf(e) + [Instr(PRINT, [])])
    case Both(first, second) => Then(StmtOf(first), StmtOf(second))
    case When(cond, body) => If(CodeOf(cond), StmtOf(body))
    case Choose(cond, yes, no) => IfElse(CodeOf(cond), StmtOf(yes), StmtOf(no))
    case Repeat(cond, body) => While(CodeOf(cond), StmtOf(body))
    case Leave => Break
    case NextTurn => Next
    case Select(value, blocks) => Switch(CodeOf(value), ArmsOf(blocks))
  }

  function ArmsOf(blocks: seq<Block>): (arms: seq<Arm>)
    ensures |arms| == |blocks|
    decreases blocks
  {
    if blocks == [] then []
    else
      var b := blocks[0];
      assert b.body < b;
      [if b.OnValues? then Case(b.values, StmtOf(b.body)) else Default(StmtOf(b.body))] + ArmsOf(blocks[1..])
  }

  lemma {:induction false} ArmIs(blocks: seq<Block>, i: nat)
    requires i < |blocks|
    ensures ArmsOf(blocks)[i] == var b := blocks[i];
                                 if b.OnValues? then Case(b.values, StmtOf(b.body)) else Default(StmtOf(b.body))
    decreases i
  {
    if i > 0 { ArmIs(blocks[1..], i - 1); }
  }

  /** There is only one block that can be meant. */
  lemma PickedIsChosen(blocks: seq<Block>, v: int)
    ensures Chosen(ArmsOf(blocks), v) == Picked(blocks, v)
  {
    var arms := ArmsOf(blocks);
    forall i | 0 <= i < |blocks|
      ensures arms[i].Case? <==> blocks[i].OnValues?
      ensures blocks[i].OnValues? ==> arms[i].values == blocks[i].values
    {
      ArmIs(blocks, i);
    }
    hide Chosen, Picked, ArmsOf;
    ChoiceIs(arms, v);
  }

  // ---- The code does what is meant.

  lemma {:induction false} PerformJoin(a: seq<Instr>, b: seq<Instr>, d: Data)
    ensures Perform(a + b, d) == match Perform(a, d) case Fails => Fails case Gives(d') => Perform(b, d')
    decreases |a|
  {
    hide Act;
    if a == [] {
      assert a + b == b;
    } else {
      assert (a + b)[1..] == a[1..] + b;
      match Act(a[0], d) {
        case Fails =>
        case Gives(d') => PerformJoin(a[1..], b, d');
      }
    }
  }

  lemma PerformOne(i: Instr, d: Data)
    ensures Perform([i], d) == Act(i, d)
  {
    assert [i][1..] == [];
  }

  /** An operator takes the two topmost operands, the right one on top. */
  lemma OperatorActs(e: Expr, op: Instr, ops: seq<int>, a: int, b: int, env: map<Name, int>, out: seq<int>)
    requires (e.Sum? && op == Instr(ADD, [])) || (e.Difference? && op == Instr(SUB, []))
             || (e.Equal? && op == Instr(EQ, [])) || (e.Less? && op == Instr(LT, []))
    requires Value(e.left, env) == Some(a) && Value(e.right, env) == Some(b)
    ensures Act(op, Data(ops + [a] + [b], env, out)) == Gives(Data(ops + [Value(e, env).value], env, out))
  {
    assert (ops + [a] + [b])[..|ops|] == ops;
  }

  /** The code of an expression pushes its value, and does nothing else. */
  lemma {:induction false} ExpressionPushes(e: Expr, d: Data)
    ensures Perform(CodeOf(e), d)
         == match Value(e, d.env) case Some(v) => Gives(d.(ops := d.ops + [v])) case None => Fails
    decreases e
  {
    match e {
      case Constant(n) => PerformOne(Instr(PUSHCONST, [OT_INT, n]), d);
      case Parameter(name) => PerformOne(Instr(PUSHPARAM, name), d);
      case Sum(l, r) => OperatorPushes(e, Instr(ADD, []), d);
      case Difference(l, r) => OperatorPushes(e, Instr(SUB, []), d);
      case Equal(l, r) => OperatorPushes(e, Instr(EQ, []), d);
      case Less(l, r) => OperatorPushes(e, Instr(LT, []), d);
    }
  }

  lemma {:induction false} OperatorPushes(e: Expr, op: Instr, d: Data)
    requires (e.Sum? && op == Instr(ADD, [])) || (e.Difference? && op == Instr(SUB, []))
             || (e.Equal? && op == Instr(EQ, [])) || (e.Less? && op == Instr(LT, []))
    ensures Perform(CodeOf(e.left) + CodeOf(e.right) + [op], d)
         == match Value(e, d.env) case Some(v) => Gives(d.(ops := d.ops + [v])) case None => Fails
    decreases e, 0
  {
    hide Act, Perform, CodeOf;
    ExpressionPushes(e.left, d);
    PerformJoin(CodeOf(e.left) + CodeOf(e.right), [op], d);
    PerformJoin(CodeOf(e.left), CodeOf(e.right), d);
    if Value(e.left, d.env).Some? {
      var a := Value(e.left, d.env).value;
      var d' := d.(ops := d.ops + [a]);
      ExpressionPushes(e.right, d');
      if Value(e.right, d.env).Some? {
        var b := Value(e.right, d.env).value;
        PerformOne(op, d'.(ops := d'.ops + [b]));
        OperatorActs(e, op, d.ops, a, b, d.env, d.out);
      }
    }
  }

  /** A statement that uses up the value of an expression. */
  lemma UsePerforms(e: Expr, use: Instr, d: Data)
    requires use.op in {ASSIGN, PRINT}
    ensures Perform(CodeOf(e) + [use], d)
         == match Value(e, d.env)
            case None => Fails
            case Some(v) =>
              if use.op == PRINT then Gives(d.(out := d.out + [v]))
              else if use.args in d.env then Gives(d.(env := d.env[use.args := v]))
              else Fails
  {
    hide Perform;
    PerformJoin(CodeOf(e), [use], d);
    ExpressionPushes(e, d);
    if Value(e, d.env).Some? {
      var v := Value(e, d.env).value;
      PerformOne(use, d.(ops := d.ops + [v]));
      assert (d.ops + [v])[..|d.ops|] == d.ops;
    }
  }

  /** A condition leaves the operands as they were. */
  lemma ConditionPops(e: Expr, d: Data)
    ensures PopValue(Perform(CodeOf(e), d))
         == match Value(e, d.env) case Some(v) => (Gives(d), v) case None => (Fails, 0)
  {
    hide Perform;
    ExpressionPushes(e, d);
    if Value(e, d.env).Some? {
      assert (d.ops + [Value(e, d.env).value])[..|d.ops|] == d.ops;
    }
  }

  function DataOf(s: Store, ops: seq<int>): Data {
    Data(ops, s.env, s.out)
  }

  function Lifted(r: End, ops: seq<int>): Statements.Outcome {
    match r
    case Ends(s) => Done(DataOf(s, ops))
    case Leaves(s) => Broke(DataOf(s, ops))
    case Continues(s) => Skipped(DataOf(s, ops))
    case Fault => Error
    case Unfinished => Timeout
  }

  /** The statement does what the program means, whatever operands lie below. */
  lemma {:induction false} StatementMeans(p: Prog, s: Store, ops: seq<int>, fuel: nat)
    ensures Exec(StmtOf(p), DataOf(s, ops), fuel) == Lifted(Outcome(p, s, fuel), ops)
    decreases fuel, p
  {
    hide Perform, CodeOf, Value, PopValue;
    var d := DataOf(s, ops);
    match p {
      case Assign(name, e) => UsePerforms(e, Instr(ASSIGN, name), d);
      case Show(e) => UsePerforms(e, Instr(PRINT, []), d);
      case Both(first, second) =>
        StatementMeans(first, s, ops, fuel);
        var r := Outcome(first, s, fuel);
        if r.Ends? { StatementMeans(second, r.s, ops, fuel); }
      case When(cond, body) =>
        ConditionPops(cond, d);
        StatementMeans(body, s, ops, fuel);
      case Choose(cond, yes, no) =>
        ConditionPops(cond, d);
        StatementMeans(yes, s, ops, fuel);
        StatementMeans(no, s, ops, fuel);
      case Repeat(_, _) => LoopMeans(p, s, ops, fuel);
      case Leave =>
      case NextTurn =>
      case Select(_, _) => SelectionMeans(p, s, ops, fuel);
    }
  }

  lemma {:induction false} LoopMeans(p: Prog, s: Store, ops: seq<int>, fuel: nat)
    requires p.Repeat?
    ensures Exec(StmtOf(p), DataOf(s, ops), fuel) == Lifted(Outcome(p, s, fuel), ops)
    decreases fuel, p, 0
  {
    hide Perform, CodeOf, Value, PopValue;
    ConditionPops(p.cond, DataOf(s, ops));
    StatementMeans(p.body, s, ops, fuel);
    var r := Outcome(p.body, s, fuel);
    if (r.Ends? || r.Continues?) && fuel > 0 { StatementMeans(p, r.s, ops, fuel - 1); }
  }

  lemma {:induction false} SelectionMeans(p: Prog, s: Store, ops: seq<int>, fuel: nat)
    requires p.Select?
    ensures Exec(StmtOf(p), DataOf(s, ops), fuel) == Lifted(Outcome(p, s, fuel), ops)
    decreases fuel, p, 0
  {
    hide Perform, CodeOf, Value, PopValue, ArmsOf, Picked, Chosen;
    var blocks := p.blocks;
    ConditionPops(p.value, DataOf(s, ops));
    if Value(p.value, s.env).Some? {
      var v := Value(p.value, s.env).value;
      var i := Picked(blocks, v);
      PickedIsChosen(blocks, v);
      if i >= 0 {
        ArmIs(blocks, i);
        assert blocks[i].body < blocks[i];
        StatementMeans(blocks[i].body, s, ops, fuel);
      }
    }
  }

  /** The code of a program that has been translated, for all parameters and operands: it halts exactly with
      the parameters and the output that the program ends with, and fails exactly if the program does. */
  lemma TranslationIsRight(mem: seq<int>, p: Prog, b: int, s: Store, ops: seq<int>, d: Data)
    requires ProgramAt(mem, StmtOf(p), b)
    ensures Leads(mem, Running(b, DataOf(s, ops)), Halted(d)) <==>
              d.ops == ops && Results(p, s, Ends(Store(d.env, d.out)))
    ensures Leads(mem, Running(b, DataOf(s, ops)), Failed) <==> Results(p, s, Fault)
  {
    hide ProgramAt, Leads, Exec, Outcome;
    ProgramIsRight(mem, StmtOf(p), b, DataOf(s, ops), d);
    forall fuel: nat ensures Exec(StmtOf(p), DataOf(s, ops), fuel) == Lifted(Outcome(p, s, fuel), ops) {
      StatementMeans(p, s, ops, fuel);
    }
    if Finishes(StmtOf(p), DataOf(s, ops), Done(d)) {
      var fuel: nat :| Exec(StmtOf(p), DataOf(s, ops), fuel) == Done(d);
      assert Outcome(p, s, fuel) == Ends(Store(d.env, d.out));
    }
    if d.ops == ops && Results(p, s, Ends(Store(d.env, d.out))) {
      var fuel: nat :| Outcome(p, s, fuel) == Ends(Store(d.env, d.out));
      assert Exec(StmtOf(p), DataOf(s, ops), fuel) == Done(d);
    }
    if Finishes(StmtOf(p), DataOf(s, ops), Error) {
      var fuel: nat :| Exec(StmtOf(p), DataOf(s, ops), fuel) == Error;
      assert Outcome(p, s, fuel) == Fault;
    }
    if Results(p, s, Fault) {
      var fuel: nat :| Outcome(p, s, fuel) == Fault;
      assert Exec(StmtOf(p), DataOf(s, ops), fuel) == Error;
    }
  }

  // ---- A loop that counts.

  const I: Name := ['i' as int]

  /** `while (1) { if (i == n) break; print (i); i = i + 1 }` */
  function Counting(n: int): Prog {
    Repeat(Constant(1), Both(When(Equal(Parameter(I), Constant(n)), Leave),
                             Both(Show(Parameter(I)), Assign(I, Sum(Parameter(I), Constant(1))))))
  }

  function UpTo(i: int, n: int): (r: seq<int>)
    ensures |r| == (if i < n then n - i else 0) && forall k :: 0 <= k < |r| ==> r[k] == i + k
    decreases n - i
  {
    if i >= n then [] else [i] + UpTo(i + 1, n)
  }

  /** It prints the numbers from i to n - 1, and then i is n. */
  lemma {:induction false} CountingPrints(n: int, s: Store, fuel: nat)
    requires I in s.env && s.env[I] + fuel == n
    ensures Outcome(Counting(n), s, fuel) == Ends(Store(s.env[I := n], s.out + UpTo(s.env[I], n)))
    decreases fuel
  {
    var i := s.env[I];
    var test, next := When(Equal(Parameter(I), Constant(n)), Leave), Assign(I, Sum(Parameter(I), Constant(1)));
    assert Value(Parameter(I), s.env) == Some(i) && Value(Constant(1), s.env) == Some(1);
    assert Value(Equal(Parameter(I), Constant(n)), s.env) == Some(if i == n then 1 else 0);
    if i == n {
      assert s.env[I := n] == s.env && Outcome(test, s, fuel) == Leaves(s);
    } else {
      var shown, turned := Store(s.env, s.out + [i]), Store(s.env[I := i + 1], s.out + [i]);
      assert Outcome(test, s, fuel) == Ends(s) && Outcome(Show(Parameter(I)), s, fuel) == Ends(shown);
      assert Value(Sum(Parameter(I), Constant(1)), shown.env) == Some(i + 1);
      assert Outcome(Both(Show(Parameter(I)), next), s, fuel) == Ends(turned);
      CountingPrints(n, turned, fuel - 1);
      assert turned.env[I := n] == s.env[I := n];
    }
  }
}
