/** Compiled code: instructions of variable length, laid out one after the other in a memory of words. */
module Code {
  import opened Opcodes

  /** An instruction: its opcode and the words of its arguments. */
  datatype Instr = Instr(op: int, args: seq<int>) {
    function Length(): nat {
      2 + |args|
    }

    /** The opcode, the length and the arguments. */
    function Words(): seq<int> {
      [op, Length()] + args
    }
  }

  /** The words ws lie in the memory at b. */
  predicate At(mem: seq<int>, b: int, ws: seq<int>) {
    0 <= b && b + |ws| <= |mem| && mem[b..b + |ws|] == ws
  }

  lemma WordAt(mem: seq<int>, b: int, ws: seq<int>, i: nat)
    requires At(mem, b, ws) && i < |ws|
    ensures mem[b + i] == ws[i]
  {
    assert mem[b..b + |ws|][i] == mem[b + i];
  }

  function Branch(op: int, loc: int, target: int): seq<int> {
    [op, 3, target - loc - 3]
  }

  // ---- Execution.

  /** The data of a running program: the operand stack, the parameters by name, and what has been printed. */
  datatype Data = Data(ops: seq<int>, env: map<seq<int>, int>, out: seq<int>)

  datatype Maybe = Fails | Gives(data: Data)

  /** What an instruction without branching does; it fails on an empty operand stack, an unknown
      parameter, or an opcode outside this selection. */
  function Act(i: Instr, d: Data): Maybe {
    if i.op == PUSHCONST && |i.args| >= 2 then Gives(d.(ops := d.ops + [i.args[1]]))
    else if i.op == PUSHPARAM && i.args in d.env then Gives(d.(ops := d.ops + [d.env[i.args]]))
    else if |d.ops| >= 1 && i.op == ASSIGN && i.args in d.env then
      Gives(d.(ops := d.ops[..|d.ops| - 1], env := d.env[i.args := d.ops[|d.ops| - 1]]))
    else if |d.ops| >= 1 && i.op == PRINT then
      Gives(d.(ops := d.ops[..|d.ops| - 1], out := d.out + [d.ops[|d.ops| - 1]]))
    else if |d.ops| >= 2 && i.op in {ADD, SUB, EQ, LT} then
      var x, y := d.ops[|d.ops| - 2], d.ops[|d.ops| - 1];
      Gives(d.(ops := d.ops[..|d.ops| - 2] + [Binary(i.op, x, y)]))
    else Fails
  }

  function Binary(op: int, x: int, y: int): int {
    if op == ADD then x + y
    else if op == SUB then x - y
    else if op == EQ then (if x == y then 1 else 0)
    else if x < y then 1 else 0
  }

  /** Where execution stands: before the instruction at pc, stopped at END, or failed. */
  datatype State = Running(pc: int, data: Data) | Halted(data: Data) | Failed

  /** The jump table of a SWITCH: look, from slot i on, for a CASE with value v. The result is the place
      behind that CASE instruction, -1 if there is none, -2 if the table is broken. */
  function FindCase(mem: seq<int>, loc: int, i: int, v: int): int
    decreases |mem| - i
  {
    if i < 0 || i >= |mem| then -2
    else if mem[i] == 0 then -1
    else
      var pcase := loc + mem[i];
      if pcase < 0 || pcase + 1 >= |mem| || pcase + mem[pcase + 1] > |mem| then -2
      else if HasValue(mem, pcase + 2, pcase + mem[pcase + 1], v) then pcase + mem[pcase + 1]
      else FindCase(mem, loc, i + 1, v)
  }

  predicate HasValue(mem: seq<int>, lo: int, hi: int, v: int)
    decreases hi - lo
  {
    0 <= lo < hi <= |mem| && (mem[lo] == v || HasValue(mem, lo + 1, hi, v))
  }

  /** Where a SWITCH at loc goes for the value v: behind the CASE that has it, behind the DEFAULT, or on
      to the next instruction. */
  function SwitchTarget(mem: seq<int>, loc: int, v: int): int {
    if loc < 0 || loc + 2 >= |mem| then -2
    else
      var table := loc + mem[loc + 2];
      if table < 0 || table >= |mem| then -2
      else
        var t := FindCase(mem, loc, table + 1, v);
        if t != -1 then t
        else if mem[table] != 0 then loc + mem[table] + 2
        else loc + 3
  }

  /** One instruction. */
  function Step(mem: seq<int>, s: State): State {
    match s
    case Halted(_) => s
    case Failed => s
    case Running(pc, d) =>
      if pc < 0 || pc + 1 >= |mem| || mem[pc + 1] < 2 || pc + mem[pc + 1] > |mem| then Failed
      else
        var op, n := mem[pc], mem[pc + 1];
        if op == END then Halted(d)
        else if op == GOTO then (if n == 3 then Running(pc + 3 + mem[pc + 2], d) else Failed)
        else if op == BIFF then
          if n != 3 || d.ops == [] then Failed
          else
            Running(if d.ops[|d.ops| - 1] == 0 then pc + 3 + mem[pc + 2] else pc + 3, d.(ops := d.ops[..|d.ops| - 1]))
        else if op == SWITCH then
          if n != 3 || d.ops == [] then Failed
          else
            var t := SwitchTarget(mem, pc, d.ops[|d.ops| - 1]);
            if t == -2 then Failed else Running(t, d.(ops := d.ops[..|d.ops| - 1]))
        else
          match Act(Instr(op, mem[pc + 2..pc + n]), d)
          case Fails => Failed
          case Gives(d') => Running(pc + n, d')
  }

  function Steps(mem: seq<int>, s: State, n: nat): State
    decreases n
  {
    if n == 0 then s else Steps(mem, Step(mem, s), n - 1)
  }

  /** Running the code in mem leads from s to t. */
  ghost predicate Leads(mem: seq<int>, s: State, t: State) {
    exists n: nat :: Steps(mem, s, n) == t
  }

  lemma {:induction false} StepsAdd(mem: seq<int>, s: State, m: nat, n: nat)
    ensures Steps(mem, s, m + n) == Steps(mem, Steps(mem, s, m), n)
    decreases m
  {
    if m > 0 {
      StepsAdd(mem, Step(mem, s), m - 1, n);
    }
  }

  lemma LeadsTo(mem: seq<int>, s: State, t: State, u: State)
    requires Leads(mem, s, t) && Leads(mem, t, u)
    ensures Leads(mem, s, u)
  {
    var m: nat :| Steps(mem, s, m) == t;
    var n: nat :| Steps(mem, t, n) == u;
    StepsAdd(mem, s, m, n);
  }

  lemma LeadsStep(mem: seq<int>, s: State)
    ensures Leads(mem, s, s) && Leads(mem, s, Step(mem, s))
  {
    assert Steps(mem, s, 0) == s;
    assert Steps(mem, s, 1) == Step(mem, s);
  }

  /** Nothing follows an end state, so that a run has at most one end. */
  lemma {:induction false} EndIsFinal(mem: seq<int>, s: State, n: nat)
    requires !s.Running?
    ensures Steps(mem, s, n) == s
  {
    if n > 0 {
      EndIsFinal(mem, s, n - 1);
    }
  }

  lemma EndIsUnique(mem: seq<int>, s: State, t: State, u: State)
    requires Leads(mem, s, t) && Leads(mem, s, u) && !t.Running? && !u.Running?
    ensures t == u
  {
    var m: nat :| Steps(mem, s, m) == t;
    var n: nat :| Steps(mem, s, n) == u;
    if m <= n {
      StepsAdd(mem, s, m, n - m);
      EndIsFinal(mem, t, n - m);
    } else {
      StepsAdd(mem, s, n, m - n);
      EndIsFinal(mem, u, m - n);
    }
  }
}
