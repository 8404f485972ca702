/** The stream of instructions with all their kinds of arguments: what is compiled can be read again. */
module CodeStream {
  import Code
  import opened Opcodes
  import opened Options

  const BPI: nat := 8
  const OPSIZ: nat := 2
  const OT_STRING: int := 3

  /** Opcodes with one string argument: ABSARGSET, ADDASSIGN, ASSIGN, CALL, CATASSIGN, DIVASSIGN, GETPIPE,
      GSREDIR, INDIRABSSET, INSPECT, INTRINSIC, OSESC, MULASSIGN, PUSHPARAM, SUBASSIGN, SWOFF, SWON. */
  predicate TakesString(op: int) {
    op in {1, 3, 9, 11, 60, 17, 25, 59, 28, 31, 32, 40, 36, 46, 54, 56, 57}
  }

  /** Opcodes with one integer argument: ADDPIPE, BIFF, GOTO, INDIRPOSSET, PUSHINDEX, POSARGSET, RMPIPES. */
  predicate TakesInt(op: int) {
    op in {4, 10, 24, 29, 45, 41, 49}
  }

  /** Opcodes without arguments. */
  predicate TakesNothing(op: int) {
    op in {2, 5, 6, 7, 8, 13, 14, 15, 16, 18, 19, 20, 21, 22, 23, 26, 27, 33, 34, 35, 37, 38, 39, 42, 43, 47, 48, 50,
        51, 52, 53, 58}
  }

  /** A word of the stack array: a number, or up to BPI characters. */
  datatype Cell = Word(v: int) | Text(chars: seq<int>)

  /** A constant operand: its type and its value, or a string. */
  datatype Constant = Number(kind: int, v: int) | Chars(kind: int, s: seq<int>)

  /** The basic type in the type word of an operand. */
  predicate IsString(kind: int) {
    kind % 4 == OT_STRING
  }

  datatype Op =
    | WithString(op: int, s: seq<int>)
    | Push(c: Constant)
    | WithNothing(op: int)
    | WithInt(op: int, n: int)
    | Switch
    | Case(count: nat)
    | IndxIncr(a: int, b: int)

  /** No character of a string is 0, and only strings have the type of strings. */
  predicate Legal(o: Op) {
    match o
    case WithString(op, s) => TakesString(op) && 0 !in s
    case Push(Number(kind, _)) => !IsString(kind)
    case Push(Chars(kind, s)) => IsString(kind) && 0 !in s
    case WithNothing(op) => TakesNothing(op)
    case WithInt(op, _) => TakesInt(op)
    case _ => true
  }

  /** Whole words for n characters. */
  function Words(n: nat): nat {
    (n + BPI - 1) / BPI
  }

  function Opcode(o: Op): int {
    match o
    case WithString(op, _) => op
    case Push(_) => PUSHCONST
    case WithNothing(op) => op
    case WithInt(op, _) => op
    case Switch => SWITCH
    case Case(_) => CASE
    case IndxIncr(_, _) => INDXINCR
  }

  function Length(o: Op): nat {
    match o
    case WithString(_, s) => 2 + Words(|s| + 1)
    case Push(Number(_, _)) => 2 + OPSIZ
    case Push(Chars(_, s)) => 2 + OPSIZ + Words(|s| + 1)
    case WithNothing(_) => 2
    case WithInt(_, _) => 3
    case Switch => 3
    case Case(n) => 2 + n
    case IndxIncr(_, _) => 4
  }

  // ---- Strings in words.

  /** Characters, BPI to a word. */
  function Packed(w: seq<int>): (ws: seq<Cell>)
    ensures |ws| == Words(|w|)
  {
    if w == [] then []
    else if |w| <= BPI then [Text(w)]
    else [Text(w[..BPI])] + Packed(w[BPI..])
  }

  /** As few words of 8 characters as there can be. */
  lemma WordsAre(n: nat)
    ensures 8 * Words(n) >= n && (n > 0 ==> 8 * (Words(n) - 1) < n)
  {
  }

  /** Up to 8 characters from `from` on. */
  function Eight(w: seq<int>, from: nat): seq<int>
    requires from <= |w|
  {
    if from + 8 <= |w| then w[from..from + 8] else w[from..]
  }

  lemma EightLater(w: seq<int>, from: nat)
    requires 8 <= from <= |w|
    ensures Eight(w[8..], from - 8) == Eight(w, from)
  {
    assert w[8..][from - 8..] == w[from..];
    if from + 8 <= |w| { assert w[8..][from - 8..from] == w[from..from + 8]; }
  }

  /** Word k has the characters from 8 * k on. */
  lemma {:induction false} PackedAt(w: seq<int>, k: nat)
    requires k < Words(|w|)
    ensures 8 * k < |w| && Packed(w)[k] == Text(Eight(w, 8 * k))
    decreases k
  {
    hide Eight;
    WordsAre(|w|);
    if k > 0 {
      PackedRest(w, k);
      PackedAt(w[8..], k - 1);
      EightLater(w, 8 * k);
    } else {
      PackedFirst(w);
    }
  }

  lemma PackedRest(w: seq<int>, k: nat)
    requires 0 < k < Words(|w|) && |w| > 8
    ensures k - 1 < Words(|w[8..]|) && Packed(w)[k] == Packed(w[8..])[k - 1]
  {
  }

  lemma PackedFirst(w: seq<int>)
    requires w != []
    ensures Packed(w)[0] == Text(Eight(w, 0))
  {
    assert w[0..] == w;
    if |w| == 8 { assert w[0..8] == w; }
  }

  function ZeroAt(s: seq<int>): (k: nat)
    ensures k <= |s| && (forall i :: 0 <= i < k ==> s[i] != 0) && (k < |s| ==> s[k] == 0)
  {
    if s == [] || s[0] == 0 then 0 else 1 + ZeroAt(s[1..])
  }

  /** The string that starts at i. */
  function ReadText(mem: seq<Cell>, i: int): Option<seq<int>>
    decreases |mem| - i
  {
    if i < 0 || i >= |mem| || mem[i].Word? then None
    else
      var cs, k := mem[i].chars, ZeroAt(mem[i].chars);
      if k < |cs| then Some(cs[..k])
      else match ReadText(mem, i + 1)
        case None => None
        case Some(rest) => Some(cs + rest)
  }

  /** A string that has been packed at i is read there. */
  lemma {:induction false} ReadPacked(mem: seq<Cell>, i: nat, s: seq<int>)
    requires i + Words(|s| + 1) <= |mem| && mem[i..i + Words(|s| + 1)] == Packed(s + [0]) && 0 !in s
    ensures ReadText(mem, i) == Some(s)
    decreases |s|
  {
    var w, n := s + [0], Words(|s| + 1);
    assert mem[i] == mem[i..i + n][0];
    if |w| <= BPI {
      FirstZero(w, |s|);
    } else {
      assert w[..BPI] == s[..BPI] && w[BPI..] == s[BPI..] + [0];
      assert mem[i + 1..i + n] == mem[i..i + n][1..] == Packed(w[BPI..]);
      FirstZero(s[..BPI], BPI);
      ReadPacked(mem, i + 1, s[BPI..]);
      assert s == s[..BPI] + s[BPI..];
    }
  }

  lemma FirstZero(w: seq<int>, k: nat)
    requires k <= |w| && (forall i :: 0 <= i < k ==> w[i] != 0) && (k < |w| ==> w[k] == 0)
    ensures ZeroAt(w) == k
  {
  }

  // ---- An instruction in the stack.

  /** The instruction o lies at b. */
  predicate Holds(mem: seq<Cell>, b: int, o: Op) {
    && 0 <= b && b + Length(o) <= |mem| && mem[b] == Word(Opcode(o)) && mem[b + 1] == Word(Length(o))
    && ArgumentsHold(mem, b, o)
  }

  /** The arguments of o lie behind its first two words. Those of SWITCH and CASE are supplied later. */
  predicate ArgumentsHold(mem: seq<Cell>, b: int, o: Op)
    requires 0 <= b && b + Length(o) <= |mem|
  {
    match o
    case WithString(_, s) => mem[b + 2..b + Length(o)] == Packed(s + [0])
    case Push(Number(kind, v)) => mem[b + 2] == Word(kind) && mem[b + 3] == Word(v)
    case Push(Chars(kind, s)) =>
      && mem[b + 2] == Word(kind) && mem[b + 3] == Word(b + 2 + OPSIZ)
      && mem[b + 2 + OPSIZ..b + Length(o)] == Packed(s + [0])
    case WithNothing(_) => true
    case WithInt(_, n) => mem[b + 2] == Word(n)
    case Switch => true
    case Case(_) => true
    case IndxIncr(x, y) => mem[b + 2] == Word(x) && mem[b + 3] == Word(y)
  }

  /** The words of every kind of instruction: opcode, length, arguments. */
  lemma WordsOf(mem: seq<Cell>, b: int, o: Op)
    requires Holds(mem, b, o)
    ensures match o
            case WithNothing(op) => mem[b..b + 2] == [Word(op), Word(2)]
            case WithInt(op, n) => mem[b..b + 3] == [Word(op), Word(3), Word(n)]
            case Push(Number(kind, v)) => mem[b..b + 4] == [Word(44), Word(4), Word(kind), Word(v)]
            case IndxIncr(x, y) => mem[b..b + 4] == [Word(30), Word(4), Word(x), Word(y)]
            case Switch => mem[b..b + 2] == [Word(55), Word(3)]
            case Case(n) => mem[b..b + 2] == [Word(12), Word(2 + n)]
            case WithString(op, s) =>
              var n := |Packed(s + [0])|;
              mem[b] == Word(op) && mem[b + 1] == Word(2 + n) && mem[b + 2..b + 2 + n] == Packed(s + [0])
            case Push(Chars(kind, s)) =>
              var n := |Packed(s + [0])|;
              && mem[b..b + 4] == [Word(44), Word(4 + n), Word(kind), Word(b + 4)]
              && mem[b + 4..b + 4 + n] == Packed(s + [0])
  {
    hide Packed;
  }

  lemma ArgumentsStay(m1: seq<Cell>, m2: seq<Cell>, b: int, o: Op)
    requires 0 <= b && b + Length(o) <= |m1| == |m2| && ArgumentsHold(m1, b, o)
    requires forall c :: b + 2 <= c < b + Length(o) ==> m2[c] == m1[c]
    ensures ArgumentsHold(m2, b, o)
  {
    match o
    case WithString(_, s) => assert m2[b + 2..b + Length(o)] == m1[b + 2..b + Length(o)];
    case Push(Chars(_, s)) => assert m2[b + 2 + OPSIZ..b + Length(o)] == m1[b + 2 + OPSIZ..b + Length(o)];
    case _ =>
  }

  lemma LengthOfHead(o: Op)
    ensures Length(o) >= 2
  {
  }

  lemma HeadOf(mem: seq<Cell>, b: int, o: Op)
    requires Holds(mem, b, o)
    ensures 0 <= b && b + Length(o) <= |mem| && mem[b] == Word(Opcode(o)) && mem[b + 1] == Word(Length(o))
    ensures Length(o) >= 2
  {
  }

  /** What the interpreter makes of the words at b. */
  function Decode(mem: seq<Cell>, b: int): Option<Op> {
    if b < 0 || b + 1 >= |mem| || mem[b].Text? || mem[b + 1].Text? then None
    else
      var op, n := mem[b].v, mem[b + 1].v;
      if n < 2 || b + n > |mem| then None
      else if TakesString(op) then
        (match ReadText(mem, b + 2) case None => None case Some(s) => Some(WithString(op, s)))
      else if op == PUSHCONST then
        if n < 2 + OPSIZ || mem[b + 2].Text? || mem[b + 3].Text? then None
        else if !IsString(mem[b + 2].v) then Some(Push(Number(mem[b + 2].v, mem[b + 3].v)))
        else (match ReadText(mem, mem[b + 3].v) case None => None case Some(s) => Some(Push(Chars(mem[b + 2].v, s))))
      else if TakesNothing(op) then Some(WithNothing(op))
      else if TakesInt(op) then if n < 3 || mem[b + 2].Text? then None else Some(WithInt(op, mem[b + 2].v))
      else if op == SWITCH then Some(Switch)
      else if op == CASE then Some(Case(n - 2))
      else if op == INDXINCR then
        if n < 4 || mem[b + 2].Text? || mem[b + 3].Text? then None else Some(IndxIncr(mem[b + 2].v, mem[b + 3].v))
      else None
  }

  lemma DecodesText(mem: seq<Cell>, b: int, op: int, text: seq<int>)
    requires Holds(mem, b, WithString(op, text)) && Legal(WithString(op, text))
    ensures Decode(mem, b) == Some(WithString(op, text))
  {
    hide ReadText, Packed;
    ReadPacked(mem, b + 2, text);
  }

  lemma DecodesChars(mem: seq<Cell>, b: int, kind: int, text: seq<int>)
    requires Holds(mem, b, Push(Chars(kind, text))) && Legal(Push(Chars(kind, text)))
    ensures Decode(mem, b) == Some(Push(Chars(kind, text)))
  {
    hide ReadText, Packed;
    ReadPacked(mem, b + 2 + OPSIZ, text);
  }

  lemma DecodesNumber(mem: seq<Cell>, b: int, kind: int, v: int)
    requires Holds(mem, b, Push(Number(kind, v))) && Legal(Push(Number(kind, v)))
    ensures Decode(mem, b) == Some(Push(Number(kind, v)))
  {
    hide ReadText, Packed;
  }

  lemma DecodesWords(mem: seq<Cell>, b: int, o: Op)
    requires Holds(mem, b, o) && Legal(o) && !o.WithString? && !o.Push?
    ensures Decode(mem, b) == Some(o)
  {
    hide ReadText, Packed;
  }

  /** What has been compiled is decoded. */
  lemma DecodeIsInverse(mem: seq<Cell>, b: int, o: Op)
    requires Holds(mem, b, o) && Legal(o)
    ensures Decode(mem, b) == Some(o)
  {
    hide Holds, Legal, Decode;
    match o
    case WithString(op, text) => DecodesText(mem, b, op, text);
    case Push(Chars(kind, text)) => DecodesChars(mem, b, kind, text);
    case Push(Number(kind, v)) => DecodesNumber(mem, b, kind, v);
    case _ => DecodesWords(mem, b, o);
  }

  // ---- Code of which every word is a number.

  function CellsOf(mem: seq<int>): (r: seq<Cell>)
    ensures |r| == |mem|
  {
    seq(|mem|, i requires 0 <= i < |mem| => Word(mem[i]))
  }

  /** The instruction that a list of numbers stands for, apart from those with strings. */
  function OpOf(i: Code.Instr): Option<Op> {
    if i.op == PUSHCONST && |i.args| == OPSIZ && !IsString(i.args[0]) then Some(Push(Number(i.args[0], i.args[1])))
    else if TakesNothing(i.op) && i.args == [] then Some(WithNothing(i.op))
    else if TakesInt(i.op) && |i.args| == 1 then Some(WithInt(i.op, i.args[0]))
    else if i.op == SWITCH && |i.args| == 1 then Some(Switch)
    else if i.op == CASE then Some(Case(|i.args|))
    else None
  }

  /** The instructions of the structured statements are decoded like all others. */
  lemma NumbersDecode(mem: seq<int>, b: int, i: Code.Instr)
    requires Code.At(mem, b, i.Words()) && OpOf(i).Some?
    ensures Decode(CellsOf(mem), b) == OpOf(i) && Length(OpOf(i).value) == i.Length()
  {
    hide Code.At, Holds, Legal, Decode, CellsOf;
    NumbersHold(mem, b, i);
    DecodeIsInverse(CellsOf(mem), b, OpOf(i).value);
  }

  lemma NumbersHold(mem: seq<int>, b: int, i: Code.Instr)
    requires Code.At(mem, b, i.Words()) && OpOf(i).Some?
    ensures var o := OpOf(i).value; Holds(CellsOf(mem), b, o) && Legal(o) && Length(o) == i.Length()
  {
    hide Packed, Words;
    var ws, cells := i.Words(), CellsOf(mem);
    assert 0 <= b && b + |ws| <= |cells|;
    forall k | 0 <= k < |ws| ensures cells[b + k] == Word(ws[k]) {
      Code.WordAt(mem, b, ws, k);
    }
    assert cells[b] == Word(ws[0]) && cells[b + 1] == Word(ws[1]);
    if |ws| > 2 { assert cells[b + 2] == Word(ws[2]); }
    if |ws| > 3 { assert cells[b + 3] == Word(ws[3]); }
  }

  // ---- A stream of instructions.

  function TotalLength(ops: seq<Op>): nat {
    if ops == [] then 0 else TotalLength(ops[..|ops| - 1]) + Length(ops[|ops| - 1])
  }

  /** The instructions lie one behind the other from b on. */
  predicate Laid(mem: seq<Cell>, b: int, ops: seq<Op>) {
    forall i :: 0 <= i < |ops| ==> HoldsAt(mem, b, ops, i)
  }

  predicate HoldsAt(mem: seq<Cell>, b: int, ops: seq<Op>, i: nat)
    requires i < |ops|
  {
    Holds(mem, b + TotalLength(ops[..i]), ops[i])
  }

  /** Where the instructions begin and what they are, followed by their lengths up to END. */
  function Walk(mem: seq<Cell>, pc: int): seq<(int, Op)>
    decreases |mem| - pc
  {
    match Decode(mem, pc)
    case None => []
    case Some(o) =>
      if Opcode(o) == END then [(pc, o)] else [(pc, o)] + Walk(mem, pc + mem[pc + 1].v)
  }

  /** A list of instructions of which only the last one is END. */
  predicate EndsOnce(ops: seq<Op>) {
    ops != [] && forall i :: 0 <= i < |ops| ==> Legal(ops[i]) && (Opcode(ops[i]) == END <==> i == |ops| - 1)
  }

  function Places(b: int, ops: seq<Op>, from: nat): (r: seq<(int, Op)>)
    requires from <= |ops|
    decreases |ops| - from
  {
    if from == |ops| then [] else [(b + TotalLength(ops[..from]), ops[from])] + Places(b, ops, from + 1)
  }

  lemma TotalNext(ops: seq<Op>, i: nat)
    requires i < |ops|
    ensures TotalLength(ops[..i + 1]) == TotalLength(ops[..i]) + Length(ops[i])
  {
    assert ops[..i + 1][..i] == ops[..i];
  }

  lemma CompiledNext(ops: seq<Op>, k: nat)
    requires k < |ops|
    ensures ops[..k + 1] == ops[..k] + [ops[k]]
    ensures TotalLength(ops[..k]) + Length(ops[k]) == TotalLength(ops[..k + 1]) <= TotalLength(ops)
  {
    hide TotalLength, Length;
    TotalNext(ops, k);
    TotalSum(ops, k + 1, |ops|);
    assert ops[..|ops|] == ops;
  }

  /** Walking over a compiled stream visits exactly its instructions, with their arguments. */
  lemma {:induction false} WalkVisits(mem: seq<Cell>, b: int, ops: seq<Op>, from: nat)
    requires Laid(mem, b, ops) && EndsOnce(ops) && from < |ops|
    ensures Walk(mem, b + TotalLength(ops[..from])) == Places(b, ops, from)
    decreases |ops| - from
  {
    hide Holds, Decode, Legal, TotalLength;
    var pc := b + TotalLength(ops[..from]);
    assert HoldsAt(mem, b, ops, from);
    HeadOf(mem, pc, ops[from]);
    DecodeIsInverse(mem, pc, ops[from]);
    TotalNext(ops, from);
    if from + 1 < |ops| {
      WalkVisits(mem, b, ops, from + 1);
    }
  }

  lemma {:induction false} TotalSum(ops: seq<Op>, i: nat, j: nat)
    requires i <= j <= |ops|
    ensures TotalLength(ops[..i]) <= TotalLength(ops[..j])
    decreases j
  {
    if i < j {
      TotalNext(ops, j - 1);
      TotalSum(ops, i, j - 1);
    }
  }

  lemma {:induction false} EachIsLong(ops: seq<Op>, i: nat)
    requires i <= |ops|
    ensures TotalLength(ops[..i]) >= 2 * i
    decreases i
  {
    if i > 0 {
      TotalNext(ops, i - 1);
      EachIsLong(ops, i - 1);
    }
  }

  lemma HoldsStays(m1: seq<Cell>, m2: seq<Cell>, b: int, o: Op, k: int)
    requires Holds(m1, b, o) && b + Length(o) <= k <= |m1| && |m2| == |m1| && m2[..k] == m1[..k]
    ensures Holds(m2, b, o)
  {
    hide ArgumentsHold;
    assert forall c :: 0 <= c < k ==> m2[..k][c] == m2[c] && m1[..k][c] == m1[c];
    ArgumentsStay(m1, m2, b, o);
  }

  /** One more instruction behind the others, which end at k. */
  lemma LaidMore(m1: seq<Cell>, m2: seq<Cell>, b: int, ops: seq<Op>, o: Op, k: int)
    requires Laid(m1, b, ops) && b >= 0 && k == b + TotalLength(ops) <= |m1| == |m2|
    requires m2[..k] == m1[..k] && Holds(m2, k, o)
    ensures Laid(m2, b, ops + [o]) && TotalLength(ops + [o]) == TotalLength(ops) + Length(o)
  {
    hide Holds;
    var all := ops + [o];
    assert all[..|ops|] == ops;
    forall i | 0 <= i < |all| ensures HoldsAt(m2, b, all, i) {
      if i < |ops| { EarlierStays(m1, m2, b, ops, i, k); assert all[..i] == ops[..i]; }
    }
  }

  lemma EarlierStays(m1: seq<Cell>, m2: seq<Cell>, b: int, ops: seq<Op>, i: nat, k: int)
    requires Laid(m1, b, ops) && b >= 0 && k == b + TotalLength(ops) <= |m1| == |m2| && m2[..k] == m1[..k] && i < |ops|
    ensures Holds(m2, b + TotalLength(ops[..i]), ops[i])
  {
    hide Holds, TotalLength;
    assert HoldsAt(m1, b, ops, i);
    TotalNext(ops, i);
    TotalSum(ops, i + 1, |ops|);
    assert ops[..|ops|] == ops;
    HoldsStays(m1, m2, b + TotalLength(ops[..i]), ops[i], k);
  }

  class Stream {
    const stack: array<Cell>
    const topcs: int
    var pc: int

    constructor (stack: array<Cell>, topcs: int, pc: int)
      requires 0 <= pc && topcs <= stack.Length
      ensures this.stack == stack && this.topcs == topcs && this.pc == pc
    {
      this.stack, this.topcs, this.pc := stack, topcs, pc;
    }

    /** Copy a string and its end to loc; the result is the number of words. */
    method ComStr(s: seq<int>, loc: nat) returns (n: nat)
      requires loc + Words(|s| + 1) <= stack.Length
      modifies stack
      ensures n == Words(|s| + 1) && stack[loc..loc + n] == Packed(s + [0])
      ensures stack[..loc] == old(stack[..loc]) && stack[loc + n..] == old(stack[loc + n..])
    {
      hide Words, Packed;
      n := 0;
      ghost var mem, done, w := stack[..], [], s + [0];
      var rest := s + [0];
      NothingWritten(mem, loc, rest);
      while rest != []
        invariant n + Words(|rest|) == Words(|w|)
        invariant done + Packed(rest) == Packed(w) && stack[..] == Written(mem, loc, done) && n == |done|
        decreases |rest|
      {
        var k := if |rest| <= BPI then |rest| else BPI;
        PackedStep(rest, k);
        stack[loc + n] := Text(rest[..k]);
        WriteNext(mem, loc, done, Text(rest[..k]));
        done := done + [Text(rest[..k])];
        n := n + 1;
        rest := rest[k..];
      }
      AllWritten(mem, loc, done);
    }

    /** Compile an instruction. It may reach into the control stack, unless it has no more words than the
        margin. */
    method Compile(o: Op) returns (loc: int)
      requires 0 <= pc && pc + Length(o) <= stack.Length
      modifies this, stack
      ensures loc == ERR <==> old(pc) > topcs - MARGIN
      ensures loc == ERR ==> pc == old(pc) && stack[..] == old(stack[..])
      ensures loc != ERR ==> loc == old(pc) && pc == loc + Length(o) && Holds(stack[..], loc, o)
      ensures loc != ERR ==> stack[..loc] == old(stack[..])[..loc] && stack[pc..] == old(stack[..])[pc..]
      ensures loc != ERR ==> (pc <= topcs <==> Length(o) <= topcs - loc)
      ensures loc != ERR && Length(o) <= MARGIN ==> pc <= topcs
    {
      if pc > topcs - MARGIN {
        return ERR;
      }
      hide ArgumentsHold, Length, Opcode, Packed, Words;
      LengthOfHead(o);
      loc := pc;
      ghost var before := stack[..];
      var length := CompileArguments(o);
      ghost var between := stack[..];
      stack[pc], stack[pc + 1] := Word(Opcode(o)), Word(length);
      pc := pc + length;
      ArgumentsStay(between, stack[..], loc, o);
      assert stack[..loc] == before[..loc] && stack[pc..] == before[pc..];
    }

    /** Compile the arguments of an instruction; the result is its length. */
    method CompileArguments(o: Op) returns (length: nat)
      requires 0 <= pc && pc + Length(o) <= stack.Length
      modifies stack
      ensures length == Length(o) && ArgumentsHold(stack[..], pc, o)
      ensures forall c :: 0 <= c < stack.Length && (c < pc || c >= pc + length) ==> stack[c] == old(stack[c])
    {
      hide Packed, Words, Opcode;
      length := 2;
      match o {
        case WithString(_, s) =>
          length := CompileString(s, length);
        case Push(Number(kind, v)) =>
          stack[pc + 2], stack[pc + 3] := Word(kind), Word(v);
          length := length + OPSIZ;
        case Push(Chars(kind, s)) =>
          length := CompileString(s, length + OPSIZ);
          stack[pc + 2], stack[pc + 3] := Word(kind), Word(pc + 2 + OPSIZ);
        case WithNothing(_) =>
        case WithInt(_, n) =>
          stack[pc + 2] := Word(n);
          length := length + 1;
        case Switch => length := length + 1;
        case Case(n) => length := length + n;
        case IndxIncr(x, y) =>
          stack[pc + 2], stack[pc + 3] := Word(x), Word(y);
          length := length + 2;
      }
    }

    /** Compile a string as the argument at offset. */
    method CompileString(s: seq<int>, offset: nat) returns (length: nat)
      requires 0 <= pc && pc + offset + Words(|s| + 1) <= stack.Length
      modifies stack
      ensures length == offset + Words(|s| + 1) && stack[pc + offset..pc + length] == Packed(s + [0])
      ensures forall c :: 0 <= c < stack.Length && (c < pc + offset || c >= pc + length) ==> stack[c] == old(stack[c])
    {
      ghost var before := stack[..];
      var n := ComStr(s, pc + offset);
      length := offset + n;
      SlicesSame(before, stack[..], pc + offset, pc + length);
    }

    /** Compile a list of instructions. */
    method CompileAll(ops: seq<Op>) returns (ok: bool)
      requires 0 <= pc && pc + TotalLength(ops) <= stack.Length
      modifies this, stack
      ensures ok ==> pc == old(pc) + TotalLength(ops) && Laid(stack[..], old(pc), ops)
      ensures stack[..old(pc)] == old(stack[..pc])
      ensures old(pc) + TotalLength(ops) + MARGIN <= topcs ==> ok
    {
      hide Holds, Laid, TotalLength, Length;
      ok := true;
      var k := 0;
      TotalNone();
      assert ops[..0] == [] && ops[..|ops|] == ops;
      LaidNone(stack[..], pc);
      while k < |ops| && ok
        invariant 0 <= k <= |ops|
        invariant ok ==> pc == old(pc) + TotalLength(ops[..k]) && Laid(stack[..], old(pc), ops[..k])
        invariant stack[..old(pc)] == old(stack[..pc])
        invariant old(pc) + TotalLength(ops) + MARGIN <= topcs ==> ok
      {
        ghost var before := stack[..];
        CompiledNext(ops, k);
        var loc := Compile(ops[k]);
        ok := loc != ERR;
        if ok {
          PrefixKept(before, stack[..], loc, old(pc));
          LaidMore(before, stack[..], old(pc), ops[..k], ops[k], loc);
        }
        k := k + 1;
      }
    }

    /** Move pc over the code that was compiled last, as if it had been compiled once more. */
    method Rerun(ghost ops: seq<Op>)
      requires 0 <= pc && Laid(stack[..], pc, ops) && EndsOnce(ops)
      modifies `pc
      ensures pc == old(pc) + TotalLength(ops)
      ensures stack[..] == old(stack[..])
    {
      hide Holds, TotalLength;
      ghost var k := 0;
      var opcode := -1;
      TotalNone();
      assert ops[..0] == [];
      while opcode != END
        invariant 0 <= k <= |ops| && pc == old(pc) + TotalLength(ops[..k])
        invariant opcode == END <==> k == |ops|
        decreases |ops| - k
      {
        assert HoldsAt(stack[..], old(pc), ops, k);
        HeadOf(stack[..], pc, ops[k]);
        TotalNext(ops, k);
        opcode := stack[pc].v;
        pc := pc + stack[pc + 1].v;
        k := k + 1;
      }
      assert ops[..|ops|] == ops;
    }

    /** Compile a command and run over it: exactly its instructions are visited, and the end is where the
        compiler stood. */
    method CompileAndWalk(ops: seq<Op>) returns (ok: bool)
      requires 0 <= pc && pc + TotalLength(ops) <= stack.Length && EndsOnce(ops)
      modifies this, stack
      ensures ok ==> Walk(stack[..], old(pc)) == Places(old(pc), ops, 0) && pc == old(pc) + TotalLength(ops)
      ensures old(pc) + TotalLength(ops) + MARGIN <= topcs ==> ok
    {
      hide Laid, TotalLength, Holds, Walk, Places;
      TotalNone();
      var base := pc;
      ok := CompileAll(ops);
      if ok {
        assert ops[..0] == [];
        WalkVisits(stack[..], base, ops, 0);
        pc := base;
        Rerun(ops);
      }
    }
  }

  lemma TotalNone()
    ensures TotalLength([]) == 0
  {
  }

  lemma LaidNone(mem: seq<Cell>, b: int)
    ensures Laid(mem, b, [])
  {
  }

  lemma PrefixKept(before: seq<Cell>, after: seq<Cell>, k: nat, j: nat)
    requires j <= k <= |before| && k <= |after| && after[..k] == before[..k]
    ensures after[..j] == before[..j]
  {
    assert after[..k][..j] == after[..j] && before[..k][..j] == before[..j];
  }

  /** The words lie at loc. */
  ghost function Written(mem: seq<Cell>, loc: nat, ws: seq<Cell>): (r: seq<Cell>)
    requires loc + |ws| <= |mem|
    ensures |r| == |mem|
  {
    mem[..loc] + ws + mem[loc + |ws|..]
  }

  lemma NothingWritten(mem: seq<Cell>, loc: nat, w: seq<int>)
    requires loc <= |mem|
    ensures Written(mem, loc, []) == mem && Packed([]) == [] && Words(0) == 0 && [] + Packed(w) == Packed(w)
  {
  }

  lemma WriteNext(mem: seq<Cell>, loc: nat, ws: seq<Cell>, x: Cell)
    requires loc + |ws| < |mem|
    ensures Written(mem, loc, ws)[loc + |ws| := x] == Written(mem, loc, ws + [x])
  {
  }

  lemma AllWritten(mem: seq<Cell>, loc: nat, ws: seq<Cell>)
    requires loc + |ws| <= |mem|
    ensures var r, end := Written(mem, loc, ws), loc + |ws|;
            r[..loc] == mem[..loc] && r[loc..end] == ws && r[end..] == mem[end..]
  {
  }

  lemma PackedStep(w: seq<int>, k: nat)
    requires w != [] && k == if |w| <= BPI then |w| else BPI
    ensures Packed(w) == [Text(w[..k])] + Packed(w[k..]) && Words(|w|) == 1 + Words(|w[k..]|)
    ensures forall done: seq<Cell> :: (done + [Text(w[..k])]) + Packed(w[k..]) == done + Packed(w)
  {
    if |w| <= BPI { assert w[..k] == w && w[k..] == []; }
  }

  /** A long string gets past the guard and over the control stack. */
  lemma LongStringCollides(pc: int, topcs: int, s: seq<int>)
    requires pc <= topcs - MARGIN && |s| >= BPI * (topcs - pc)
    ensures pc + Length(WithString(9, s)) > topcs
  {
  }
}
