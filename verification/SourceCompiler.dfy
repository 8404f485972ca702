/** Programs as they are written, through the compiler and the machine. */
module SourceCompiler {
  import opened Opcodes
  import opened Options
  import opened Code
  import opened Statements
  import opened CompiledMeaning
  import opened Emission
  import opened StatementCompiler
  import E = Expressions

  /** No name is longer than what the margin leaves room for. */
  predicate ShortNames(e: E.Expr) {
    match e
    case Constant(_) => true
    case Parameter(name) => |name| + 2 <= MARGIN
    case _ => ShortNames(e.left) && ShortNames(e.right)
  }

  predicate ShortProg(p: E.Prog) {
    match p
    case Assign(name, e) => |name| + 2 <= MARGIN && ShortNames(e)
    case Show(e) => ShortNames(e)
    case Both(first, second) => ShortProg(first) && ShortProg(second)
    case When(cond, body) => ShortNames(cond) && ShortProg(body)
    case Choose(cond, yes, no) => ShortNames(cond) && ShortProg(yes) && ShortProg(no)
    case Repeat(cond, body) => ShortNames(cond) && ShortProg(body)
    case Leave => true
    case NextTurn => true
    case Select(value, blocks) =>
      ShortNames(value)
      && forall i :: 0 <= i < |blocks| ==>
           ShortProg(blocks[i].body) && (blocks[i].OnValues? ==> |blocks[i].values| + 2 <= MARGIN)
  }

  /** Every `break` and `next` is in a loop, and no more than fifty loops are nested. */
  predicate WellPlaced(p: E.Prog, depth: nat) {
    match p
    case Both(first, second) => WellPlaced(first, depth) && WellPlaced(second, depth)
    case When(_, body) => WellPlaced(body, depth)
    case Choose(_, yes, no) => WellPlaced(yes, depth) && WellPlaced(no, depth)
    case Repeat(_, body) => depth < 50 && WellPlaced(body, depth + 1)
    case Leave => depth > 0
    case NextTurn => depth > 0
    case Select(_, blocks) => forall i :: 0 <= i < |blocks| ==> WellPlaced(blocks[i].body, depth)
    case _ => true
  }

  lemma {:induction false} ExpressionFits(e: E.Expr)
    ensures Plain(E.CodeOf(e)) && (ShortNames(e) ==> ShortCode(E.CodeOf(e)))
    decreases e
  {
    match e
    case Constant(_) =>
    case Parameter(_) =>
    case _ =>
      ExpressionFits(e.left);
      ExpressionFits(e.right);
  }

  lemma {:induction false} ProgramFits(p: E.Prog, depth: nat)
    ensures WellFormed(E.StmtOf(p)) && (ShortProg(p) ==> Short(E.StmtOf(p)))
    ensures Legal(E.StmtOf(p), depth) <==> WellPlaced(p, depth)
    decreases p
  {
    hide Plain, ShortCode;
    match p
    case Assign(name, e) => UseFits(e, Instr(ASSIGN, name));
    case Show(e) => UseFits(e, Instr(PRINT, []));
    case Both(first, second) => ProgramFits(first, depth); ProgramFits(second, depth);
    case When(cond, body) => ExpressionFits(cond); ProgramFits(body, depth);
    case Choose(cond, yes, no) => ExpressionFits(cond); ProgramFits(yes, depth); ProgramFits(no, depth);
    case Repeat(cond, body) => ExpressionFits(cond); ProgramFits(body, depth + 1);
    case Leave =>
    case NextTurn =>
    case Select(value, blocks) =>
      ExpressionFits(value);
      forall i | 0 <= i < |blocks|
        ensures WellFormed(E.ArmsOf(blocks)[i].body)
        ensures Legal(E.ArmsOf(blocks)[i].body, depth) <==> WellPlaced(blocks[i].body, depth)
        ensures ShortProg(p) ==> Short(E.ArmsOf(blocks)[i].body) && HeadSize(E.ArmsOf(blocks)[i]) <= MARGIN
      {
        E.ArmIs(blocks, i);
        assert blocks[i].body < blocks[i];
        ProgramFits(blocks[i].body, depth);
      }
  }

  lemma UseFits(e: E.Expr, use: Instr)
    requires use.op in {ASSIGN, PRINT}
    ensures Plain(E.CodeOf(e) + [use])
    ensures ShortNames(e) && use.Length() <= MARGIN ==> ShortCode(E.CodeOf(e) + [use])
  {
    ExpressionFits(e);
  }

  /** How the run of the code that begins at b ends, for all values of the parameters and all operands. */
  ghost predicate DoesWhatIsMeant(mem: seq<int>, b: int, p: E.Prog) {
    && (forall s: E.Store, ops: seq<int>, d: Data ::
          Leads(mem, Running(b, Data(ops, s.env, s.out)), Halted(d)) <==>
          d.ops == ops && E.Results(p, s, E.Ends(E.Store(d.env, d.out))))
    && (forall s: E.Store, ops: seq<int> ::
          Leads(mem, Running(b, Data(ops, s.env, s.out)), Failed) <==> E.Results(p, s, E.Fault))
  }

  lemma TranslationForAll(mem: seq<int>, p: E.Prog, b: int)
    requires ProgramAt(mem, E.StmtOf(p), b)
    ensures DoesWhatIsMeant(mem, b, p)
  {
    hide ProgramAt, Leads, E.Results;
    forall s: E.Store, ops: seq<int>, d: Data
      ensures Leads(mem, Running(b, Data(ops, s.env, s.out)), Halted(d)) <==>
              d.ops == ops && E.Results(p, s, E.Ends(E.Store(d.env, d.out)))
    {
      E.TranslationIsRight(mem, p, b, s, ops, d);
    }
    forall s: E.Store, ops: seq<int>
      ensures Leads(mem, Running(b, Data(ops, s.env, s.out)), Failed) <==> E.Results(p, s, E.Fault)
    {
      E.TranslationIsRight(mem, p, b, s, ops, Data(ops, s.env, s.out));
    }
  }

  /** Compile a program. Its code ends exactly as the program does: with the same values of all parameters and
      the same output, or with an error, or never. */
  method CompileSource(c: Compiler, p: E.Prog) returns (ok: bool)
    requires c.Valid() && ShortProg(p) && c.nexts == []
    modifies c, c.stack
    ensures c.Valid()
    ensures ok ==> WellPlaced(p, 0) && DoesWhatIsMeant(c.stack[..], old(c.pc), p) && c.topcs == old(c.topcs)
    ensures ok ==> c.pc == old(c.pc) + Size(E.StmtOf(p)) + 2
    ensures WellPlaced(p, 0) && old(c.pc) + 2 * Size(E.StmtOf(p)) + 20 <= old(c.topcs) ==> ok
  {
    ProgramFits(p, 0);
    ok := c.CompileProgram(E.StmtOf(p));
    if ok { TranslationForAll(c.stack[..], p, old(c.pc)); }
  }
}
