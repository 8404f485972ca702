/** The table-driven scanner: longest match, with push-back. */
module Scanner {
  import opened Options

  const NEWLINE: int := 10

  /** A transition: the state it belongs to, and the one it leads to. */
  datatype Work = Work(verify: int, advance: int)

  /** A state: where its transitions are (negative offsets mark compressed states, 0 stands for none), the
      state to fall back to (-1 for none), and its list of rules. */
  datatype StateRow = StateRow(off: int, other: int, stops: seq<int>)

  /** The tables: transitions up to index top, states, and the class of every character. */
  datatype Table = Table(crank: seq<Work>, top: int, vec: seq<StateRow>, classes: seq<int>, bgin: int)

  predicate IsState(t: Table, s: int) {
    0 <= s < |t.vec|
  }

  /** A state and what it may fall back to, which comes before it. */
  predicate RowFits(t: Table, s: int)
    requires IsState(t, s)
  {
    t.vec[s].other == -1 || 0 <= t.vec[s].other < s
  }

  predicate WellFormed(t: Table) {
    && |t.classes| > 0 && t.top < |t.crank|
    && (forall c :: 0 <= c < |t.classes| ==> 0 <= t.classes[c])
    && (forall s :: 0 <= s < |t.vec| ==> RowFits(t, s))
    && (forall i :: 0 <= i < |t.crank| ==> IsState(t, t.crank[i].advance))
    && IsState(t, t.bgin) && IsState(t, t.bgin + 1)
    && (forall s :: 0 <= s < |t.vec| ==> Transition(t, s, t.vec[s].off, 0) <= 0)
    && !Dead(t, t.bgin) && !Dead(t, t.bgin + 1)
  }

  /** The entry at i, if it belongs to state s: its target; otherwise -1. State 0 stands for an error. */
  function Entry(t: Table, s: int, i: int): int {
    if 0 <= i <= t.top && i < |t.crank| && t.crank[i].verify == s then t.crank[i].advance else -1
  }

  /** The target of the transition of s with the offset off for c, 0 or -1 if there is none. */
  function Transition(t: Table, s: int, off: int, c: int): (r: int)
    decreases s
  {
    if !IsState(t, s) || !(0 <= c < |t.classes|) then -1
    else
      var direct := if off > 0 then Entry(t, s, off + c)
                    else if off < 0 then
                      var e := Entry(t, s, -off + c);
                      if e >= 0 then e else Entry(t, s, -off + t.classes[c])
                    else -1;
      if direct >= 0 then direct
      else if RowFits(t, s) && t.vec[s].other >= 0 && t.vec[t.vec[s].other].off != 0 then
        Transition(t, t.vec[s].other, t.vec[t.vec[s].other].off, c)
      else -1
  }

  /** The next state, -1 if there is none. */
  function Step(t: Table, s: int, c: int): int {
    if IsState(t, s) && Transition(t, s, t.vec[s].off, c) > 0 then Transition(t, s, t.vec[s].off, c) else -1
  }

  /** A state that has no transitions, as can be seen without reading on. */
  predicate Dead(t: Table, s: int)
    requires IsState(t, s)
  {
    t.vec[s].off == 0 && (t.vec[s].other < 0 || !IsState(t, t.vec[s].other) || t.vec[t.vec[s].other].off == 0)
  }

  /** Where the characters w lead from s, -1 if not through. */
  function Reach(t: Table, s: int, w: seq<int>): int {
    if w == [] then s
    else
      var before := Reach(t, s, w[..|w| - 1]);
      if before < 0 then -1 else Step(t, before, w[|w| - 1])
  }

  /** The first rule for which the characters w can stand, 0 if there is none. */
  function Rule(t: Table, s: int, w: seq<int>): int {
    var r := Reach(t, s, w);
    if w != [] && IsState(t, r) && t.vec[r].stops != [] && t.vec[r].stops[0] > 0 then t.vec[r].stops[0] else 0
  }

  /** The rule for the n characters of f from i on. */
  function RuleFor(t: Table, s: int, f: seq<int>, i: nat, n: nat): int {
    if i + n <= |f| then Rule(t, s, f[i..i + n]) else 0
  }

  // ---- What the table says.

  /** The place for c in the row of a state, or where the row is compressed, that for the class of c if the first
      one belongs to another state; it counts only if it belongs to this state. */
  predicate HasEntry(t: Table, s: int, c: int, j: int)
    requires IsState(t, s) && 0 <= c < |t.classes|
  {
    var off := t.vec[s].off;
    && 0 <= j <= t.top && j < |t.crank| && t.crank[j].verify == s
    && (if off > 0 then j == off + c
        else off < 0 && (j == c - off || (j == t.classes[c] - off && !Owns(t, s, c - off))))
  }

  predicate Owns(t: Table, s: int, j: int) {
    0 <= j <= t.top && j < |t.crank| && t.crank[j].verify == s
  }

  predicate NoEntry(t: Table, s: int, c: int)
    requires IsState(t, s) && 0 <= c < |t.classes|
  {
    forall j :: 0 <= j < |t.crank| ==> !HasEntry(t, s, c, j)
  }

  /** State s has nothing for c, and falls back to the state after it. */
  predicate Falls(t: Table, s: int, after: int, c: int) {
    && 0 <= c < |t.classes| && IsState(t, s) && IsState(t, after)
    && NoEntry(t, s, c) && after == t.vec[s].other && t.vec[after].off != 0
  }

  /** States each of which falls back to the next one. */
  predicate FallsBack(t: Table, chain: seq<int>, c: int)
    decreases |chain|
  {
    && 0 <= c < |t.classes| && chain != [] && IsState(t, chain[0])
    && (|chain| > 1 ==> Falls(t, chain[0], chain[1], c) && FallsBack(t, chain[1..], c))
  }

  lemma {:induction false} LastIsState(t: Table, chain: seq<int>, c: int)
    requires FallsBack(t, chain, c)
    ensures IsState(t, chain[|chain| - 1])
    decreases |chain|
  {
    if |chain| > 1 { LastIsState(t, chain[1..], c); }
  }

  /** The next state is the one in the entry of the first state on the way back that has one; state 0 stands for
      an error. There is none if the way back ends without an entry, at a state that stands for itself, or
      before one that has no row. */
  lemma {:induction false} StepIs(t: Table, chain: seq<int>, c: int)
    requires WellFormed(t) && FallsBack(t, chain, c)
    ensures LeadsFrom(t, chain[0], chain[|chain| - 1], c)
    decreases |chain|
  {
    hide WellFormed, Step, NoEntry, HasEntry, Transition;
    if |chain| == 1 {
      LastStep(t, chain[0], c);
    } else {
      var rest := chain[1..];
      assert rest[0] == chain[1] && rest[|rest| - 1] == chain[|chain| - 1];
      FallingStep(t, chain[0], chain[1], c);
      StepIs(t, rest, c);
    }
  }

  /** For c, state s leads where the entry of last says, nowhere if last has none and nothing to fall back to. */
  predicate LeadsFrom(t: Table, s: int, last: int, c: int) {
    && IsState(t, last) && 0 <= c < |t.classes|
    && (forall j :: 0 <= j < |t.crank| && HasEntry(t, last, c, j) ==>
          Step(t, s, c) == if t.crank[j].advance > 0 then t.crank[j].advance else -1)
    && (NoEntry(t, last, c) && NothingBehind(t, last) ==> Step(t, s, c) == -1)
  }

  predicate NothingBehind(t: Table, s: int)
    requires IsState(t, s)
  {
    var other := t.vec[s].other;
    other < 0 || (IsState(t, other) && t.vec[other].off == 0)
  }

  lemma LastStep(t: Table, s: int, c: int)
    requires WellFormed(t) && IsState(t, s) && 0 <= c < |t.classes|
    ensures LeadsFrom(t, s, s, c)
  {
    hide HasEntry, NoEntry, Transition, WellFormed;
    forall j | 0 <= j < |t.crank| && HasEntry(t, s, c, j)
      ensures Step(t, s, c) == if t.crank[j].advance > 0 then t.crank[j].advance else -1
    {
      AdvanceIsState(t, j);
      EntryIs(t, s, c, j);
    }
    if NoEntry(t, s, c) && NothingBehind(t, s) { NothingFound(t, s, c); }
  }

  lemma FallingStep(t: Table, s: int, after: int, c: int)
    requires WellFormed(t) && Falls(t, s, after, c)
    ensures Step(t, s, c) == Step(t, after, c)
  {
    hide Transition, WellFormed, NoEntry;
    NothingFound(t, s, c);
  }

  lemma EntryIs(t: Table, s: int, c: int, j: int)
    requires IsState(t, s) && 0 <= c < |t.classes| && 0 <= j < |t.crank| && HasEntry(t, s, c, j)
    requires t.crank[j].advance >= 0
    ensures Transition(t, s, t.vec[s].off, c) == t.crank[j].advance
  {
  }

  lemma AdvanceIsState(t: Table, j: nat)
    requires WellFormed(t) && j < |t.crank|
    ensures IsState(t, t.crank[j].advance)
  {
  }

  /** A state without an entry leads on as the state does that it falls back to. */
  lemma NothingFound(t: Table, s: int, c: int)
    requires WellFormed(t) && IsState(t, s) && 0 <= c < |t.classes| && NoEntry(t, s, c)
    ensures var other := t.vec[s].other;
            Transition(t, s, t.vec[s].off, c)
            == if IsState(t, other) && t.vec[other].off != 0 then Transition(t, other, t.vec[other].off, c) else -1
  {
    assert RowFits(t, s);
    var off := t.vec[s].off;
    if 0 <= off + c < |t.crank| { assert !HasEntry(t, s, c, off + c); }
    if 0 <= c - off < |t.crank| { assert !HasEntry(t, s, c, c - off); }
    if 0 <= t.classes[c] - off < |t.crank| { assert !HasEntry(t, s, c, t.classes[c] - off); }
  }

  /** The states through which the characters w lead. */
  predicate IsPath(t: Table, w: seq<int>, path: seq<int>) {
    |path| == |w| + 1 && path[0] >= 0 && forall k :: 0 <= k < |w| ==> PathStep(t, w, path, k)
  }

  predicate PathStep(t: Table, w: seq<int>, path: seq<int>, k: nat)
    requires k < |w| < |path|
  {
    path[k + 1] == Step(t, path[k], w[k]) >= 0
  }

  lemma {:induction false} ReachIs(t: Table, w: seq<int>, path: seq<int>)
    requires IsPath(t, w, path)
    ensures Reach(t, path[0], w) == path[|w|]
    decreases |w|
  {
    hide Step;
    if w != [] {
      var front, before := w[..|w| - 1], path[..|w|];
      forall k | 0 <= k < |front| ensures PathStep(t, front, before, k) {
        assert PathStep(t, w, path, k);
      }
      ReachIs(t, front, before);
      assert PathStep(t, w, path, |w| - 1) && before[|front|] == path[|w| - 1];
      if front != [] { assert PathStep(t, w, path, |w| - 2); }
    }
  }

  lemma {:induction false} PathTo(t: Table, s: int, w: seq<int>) returns (path: seq<int>)
    requires s >= 0 && Reach(t, s, w) >= 0
    ensures IsPath(t, w, path) && path[0] == s
    decreases |w|
  {
    hide Step;
    if w == [] {
      path := [s];
    } else {
      var front := w[..|w| - 1];
      var before := PathTo(t, s, front);
      ReachIs(t, front, before);
      path := before + [Reach(t, s, w)];
      forall k | 0 <= k < |w| ensures PathStep(t, w, path, k) {
        if k < |front| { assert PathStep(t, front, before, k); }
      }
    }
  }

  /** A state from which there is no way leaves the rest without a way as well. */
  lemma {:induction false} NoWayOn(t: Table, s: int, w: seq<int>, v: seq<int>)
    requires Reach(t, s, w) < 0 && w <= v
    ensures Reach(t, s, v) < 0
    decreases |v|
  {
    if |w| < |v| {
      NoWayOn(t, s, w, v[..|v| - 1]);
    } else {
      assert w == v;
    }
  }

  lemma DeadEnds(t: Table, s: int, c: int)
    requires IsState(t, s) && RowFits(t, s) && Dead(t, s)
    ensures Step(t, s, c) == -1
  {
  }

  // ---- The input with its push-back.

  function Rev(s: seq<int>): (r: seq<int>)
    ensures |r| == |s|
  {
    if s == [] then [] else [s[|s| - 1]] + Rev(s[..|s| - 1])
  }

  lemma RevMore(s: seq<int>, c: int, rest: seq<int>)
    ensures Rev(s + [c]) + rest == [c] + (Rev(s) + rest)
  {
    assert (s + [c])[..|s|] == s;
  }

  /** What is still to be read when i characters of e are taken; e ends with a 0 for the end of the file,
      which may or may not have been pushed back. */
  predicate TailOf(future: seq<int>, e: seq<int>, i: int) {
    AsOne(0 <= i <= |e| && (future == e[i..] || (i < |e| && future == e[i..|e| - 1])))
  }

  /** How many lines end among the first i characters. */
  function Lines(e: seq<int>, i: nat): nat
    requires i <= |e|
  {
    if i == 0 then 0 else Lines(e, i - 1) + if e[i - 1] == NEWLINE then 1 else 0
  }

  /** Characters that have a class. */
  predicate Chars(t: Table, s: seq<int>) {
    forall i :: 0 <= i < |s| ==> 0 <= s[i] < |t.classes|
  }

  /** The input with the 0 that stands for its end. */
  function Ended(f: seq<int>): (e: seq<int>)
    ensures |e| == |f| + 1
  {
    f + [0]
  }

  /** The characters e, with the end of the file. */
  predicate Text(t: Table, e: seq<int>) {
    e != [] && e[|e| - 1] == 0 && Chars(t, e)
  }

  lemma TailNext(t: Table, future: seq<int>, e: seq<int>, i: int)
    requires TailOf(future, e, i) && i < |e| && Text(t, e)
    ensures future == [] ==> e[i] == 0 && TailOf([], e, i + 1)
    ensures future != [] ==> future[0] == e[i] && TailOf(future[1..], e, i + 1)
  {
    if future != [] {
      assert e[i..][1..] == e[i + 1..];
      if i < |e| - 1 { assert e[i..|e| - 1][1..] == e[i + 1..|e| - 1]; }
    } else {
      assert e[i + 1..] == [];
    }
  }

  lemma TailBack(t: Table, future: seq<int>, e: seq<int>, i: int)
    requires TailOf(future, e, i + 1) && 0 <= i < |e| && Text(t, e)
    ensures TailOf([e[i]] + future, e, i)
  {
    assert [e[i]] + e[i + 1..] == e[i..];
    if i + 1 < |e| { assert [e[i]] + e[i + 1..|e| - 1] == e[i..|e| - 1]; }
  }

  /** The states reached after one, two, and more of the characters w. */
  predicate Stacked(t: Table, start: int, w: seq<int>, states: seq<int>) {
    && |states| == |w|
    && forall k :: 0 <= k < |states| ==> IsState(t, states[k]) && states[k] == Reach(t, start, w[..k + 1])
  }

  predicate IsSuffix(s: seq<int>, whole: seq<int>) {
    |s| <= |whole| && s == whole[|whole| - |s|..]
  }

  lemma NoSuffix(s: seq<int>)
    ensures IsSuffix(s, s)
  {
  }

  lemma SuffixStep(s: seq<int>, before: seq<int>, whole: seq<int>)
    requires IsSuffix(before, whole) && (s == before || (before != [] && s == before[1..]))
    ensures IsSuffix(s, whole)
  {
  }

  lemma SuffixTrans(a: seq<int>, b: seq<int>, c: seq<int>)
    requires IsSuffix(a, b) && IsSuffix(b, c)
    ensures IsSuffix(a, c)
  {
  }

  lemma CharAt(t: Table, e: seq<int>, j: nat)
    requires Text(t, e) && j < |e|
    ensures 0 <= e[j] < |t.classes|
  {
  }

  lemma OneMore(t: Table, start: int, e: seq<int>, i: nat, j: nat)
    requires i <= j < |e| && Reach(t, start, e[i..j]) >= 0
    ensures e[i..j + 1] == e[i..j] + [e[j]] && Reach(t, start, e[i..j + 1]) == Step(t, Reach(t, start, e[i..j]), e[j])
  {
    assert e[i..j + 1][..j - i] == e[i..j];
  }

  lemma StackedMore(t: Table, start: int, w: seq<int>, states: seq<int>, c: int, next: int)
    requires Stacked(t, start, w, states) && IsState(t, next) && next == Reach(t, start, w + [c])
    ensures Stacked(t, start, w + [c], states + [next])
  {
    var v := w + [c];
    forall k | 0 <= k < |states| + 1 ensures (states + [next])[k] == Reach(t, start, v[..k + 1]) {
      if k < |states| { assert v[..k + 1] == w[..k + 1]; } else { assert v[..k + 1] == v; }
    }
  }

  lemma NothingStacked(t: Table, start: int, e: seq<int>, i: nat)
    requires i <= |e|
    ensures e[i..i] == [] && Stacked(t, start, [], []) && Reach(t, start, []) == start
  {
  }

  lemma TextMore(text: seq<int>, e: seq<int>, i: nat, j: nat)
    requires i <= j < |e| && text == e[i..j]
    ensures text + [e[j]] == e[i..j + 1] && (text + [e[j]])[..j - i] == e[i..j] && (text + [e[j]])[0] == e[i]
  {
  }

  lemma TextPart(text: seq<int>, e: seq<int>, i: nat, n: nat, k: nat)
    requires k <= n <= |text| && i + n <= |e| && text[..n] == e[i..i + n]
    ensures text[..k] == e[i..i + k] && (k > 0 ==> text[k - 1] == e[i + k - 1])
  {
    assert text[..n][..k] == text[..k] && e[i..i + n][..k] == e[i..i + k];
    if k > 0 { assert text[..n][k - 1] == text[k - 1] && e[i..i + n][k - 1] == e[i + k - 1]; }
  }

  lemma DeadNow(t: Table, s: int, c: int)
    requires WellFormed(t) && IsState(t, s) && Dead(t, s)
    ensures Step(t, s, c) == -1
  {
    assert RowFits(t, s);
    DeadEnds(t, s, c);
  }

  lemma {:induction false} TransitionIsState(t: Table, s: int, off: int, c: int)
    requires WellFormed(t)
    ensures Transition(t, s, off, c) < 0 || IsState(t, Transition(t, s, off, c))
    decreases s
  {
    if IsState(t, s) && 0 <= c < |t.classes| {
      if RowFits(t, s) && t.vec[s].other >= 0 {
        TransitionIsState(t, t.vec[s].other, t.vec[t.vec[s].other].off, c);
      }
    }
  }

  lemma StepIsState(t: Table, s: int, c: int)
    requires WellFormed(t) && Step(t, s, c) >= 0
    ensures IsState(t, Step(t, s, c))
  {
    TransitionIsState(t, s, t.vec[s].off, c);
  }

  lemma StateIsNumber(t: Table, s: int)
    requires IsState(t, s)
    ensures s >= 0
  {
  }

  /** No state leads on at the end of the file. */
  lemma EndHasNoStep(t: Table, e: seq<int>, s: int, j: nat)
    requires WellFormed(t) && Text(t, e) && j < |e| && Step(t, s, e[j]) >= 0
    ensures j + 1 < |e|
  {
    assert IsState(t, s) && Transition(t, s, t.vec[s].off, 0) <= 0;
  }

  // ---- The scanner.

  /** The state in which a token starts: another one at the beginning of a line. */
  function Start(t: Table, previous: int): int {
    if previous == NEWLINE then t.bgin + 1 else t.bgin
  }

  class Scanner {
    const t: Table
    var unread: seq<int>
    var sbuf: seq<int>
    var lineno: int
    var previous: int
    var text: seq<int>
    var echoed: seq<int>

    ghost function Future(): seq<int>
      reads `sbuf, `unread
    {
      Rev(sbuf) + unread
    }

    constructor (t: Table, file: seq<int>)
      requires WellFormed(t) && Chars(t, file)
      ensures Future() == unread == file && this.t == t && lineno == 1 && previous == NEWLINE && text == echoed == []
    {
      this.t, unread, sbuf, lineno, previous, text, echoed := t, file, [], 1, NEWLINE, [], [];
    }

    /** Read a character; the end of the file reads as 0. */
    method Input(ghost e: seq<int>, ghost i: nat) returns (c: int)
      requires Text(t, e) && i < |e| && TailOf(Future(), e, i)
      modifies `unread, `sbuf, `lineno
      ensures c == e[i] && TailOf(Future(), e, i + 1) && lineno == old(lineno) + Lines(e, i + 1) - Lines(e, i)
      ensures unread == old(unread) || (old(unread) != [] && unread == old(unread)[1..])
    {
      TailNext(t, Future(), e, i);
      if sbuf != [] {
        c := sbuf[|sbuf| - 1];
        sbuf := sbuf[..|sbuf| - 1];
      } else if unread != [] {
        c := unread[0];
        unread := unread[1..];
      } else {
        c := 0;
      }
      assert Future() == if old(Future()) == [] then [] else old(Future())[1..];
      if c == NEWLINE {
        lineno := lineno + 1;
      }
    }

    /** Push a character back. */
    method Unput(c: int, ghost e: seq<int>, ghost i: nat)
      requires Text(t, e) && i < |e| && c == e[i] && TailOf(Future(), e, i + 1)
      modifies `sbuf, `lineno
      ensures TailOf(Future(), e, i) && lineno == old(lineno) + Lines(e, i) - Lines(e, i + 1)
    {
      hide TailOf, Rev;
      TailBack(t, Future(), e, i);
      if c == NEWLINE {
        lineno := lineno - 1;
      }
      RevMore(sbuf, c, unread);
      sbuf := sbuf + [c];
    }

    /** The next state, by way of the states that the state may fall back to. */
    method Next(state: int, c: int) returns (next: int)
      requires WellFormed(t) && IsState(t, state) && 0 <= c < |t.classes|
      ensures next == Step(t, state, c)
    {
      var s, off := state, t.vec[state].off;
      while true
        invariant IsState(t, s) && off == t.vec[s].off
        invariant Transition(t, s, off, c) == Transition(t, state, t.vec[state].off, c)
        decreases s
      {
        assert RowFits(t, s);
        var found := -1;
        if off > 0 {
          found := Lookup(s, off + c);
        } else if off < 0 {
          found := Lookup(s, -off + c);
          if found < 0 {
            found := Lookup(s, -off + t.classes[c]);
          }
        }
        if found >= 0 {
          return if found == 0 then -1 else found;
        }
        var other := t.vec[s].other;
        if other < 0 || t.vec[other].off == 0 {
          return -1;
        }
        s, off := other, t.vec[other].off;
      }
    }

    method Lookup(s: int, i: int) returns (found: int)
      requires WellFormed(t) && 0 <= i
      ensures found == Entry(t, s, i)
    {
      if i <= t.top && t.crank[i].verify == s {
        return t.crank[i].advance;
      }
      return -1;
    }

    /** Read on as long as there is a next state; the states are stacked up. The last character read is pushed
        back again. */
    method Advance(start: int, ghost e: seq<int>, ghost i: nat) returns (states: seq<int>)
      requires WellFormed(t) && IsState(t, start) && !Dead(t, start)
      requires Text(t, e) && i < |e| && TailOf(Future(), e, i)
      modifies `unread, `sbuf, `lineno, `text
      ensures i + |states| < |e| && TailOf(Future(), e, i + |states|)
      ensures lineno == old(lineno) + Lines(e, i + |states|) - Lines(e, i)
      ensures Stacked(t, start, e[i..i + |states|], states) && Reach(t, start, e[i..i + |states| + 1]) < 0
      ensures |text| > 0 && |text| >= |states| && text[0] == e[i] && text[..|states|] == e[i..i + |states|]
      ensures IsSuffix(unread, old(unread))
    {
      hide *;
      states, text := [], [];
      NothingStacked(t, start, e, i);
      var state, first, going := start, true, true;
      NoSuffix(unread);
      while going
        invariant i + |states| < |e|
        invariant IsState(t, state) && state == Reach(t, start, e[i..i + |states|])
        invariant first ==> states == [] && going && !Dead(t, state)
        invariant TailOf(Future(), e, i + |states|)
        invariant lineno == old(lineno) + Lines(e, i + |states|) - Lines(e, i)
        invariant Stacked(t, start, e[i..i + |states|], states)
        invariant |text| >= |states| && text[..|states|] == e[i..i + |states|]
        invariant first || (|text| > 0 && text[0] == e[i])
        invariant going ==> text == e[i..i + |states|]
        invariant !going ==> Reach(t, start, e[i..i + |states| + 1]) < 0
        invariant IsSuffix(unread, old(unread))
        decreases going, |e| - |states|
      {
        ghost var j := i + |states|;
        StateIsNumber(t, state);
        OneMore(t, start, e, i, j);
        var unable := Unable(state);
        if unable && !first {
          DeadNow(t, state, e[j]);
          going := false;
        } else {
          ghost var before := unread;
          var c := Input(e, j);
          SuffixStep(unread, before, old(unread));
          CharAt(t, e, j);
          TextMore(text, e, i, j);
          text := text + [c];
          first := false;
          var next := Next(state, c);
          if next < 0 {
            Unput(c, e, j);
            going := false;
          } else {
            StepIsState(t, state, c);
            EndHasNoStep(t, e, state, j);
            StackedMore(t, start, e[i..j], states, c, next);
            states := states + [next];
            state := next;
          }
        }
      }
    }

    method Unable(state: int) returns (none: bool)
      requires WellFormed(t) && IsState(t, state)
      ensures none <==> Dead(t, state)
    {
      assert RowFits(t, state);
      none := t.vec[state].off == 0;
      if none && t.vec[state].other >= 0 {
        none := t.vec[t.vec[state].other].off == 0;
      }
    }

    /** Give up states from the top of the stack until there is one with a rule, pushing back a character
        for each. The result is the rule and the number of characters that are left, or 0. */
    method Settle(start: int, states: seq<int>, ghost e: seq<int>, ghost i: nat) returns (rule: int, k: nat)
      requires Text(t, e) && i + |states| < |e| && TailOf(Future(), e, i + |states|)
      requires Stacked(t, start, e[i..i + |states|], states) && |text| >= |states|
               && text[..|states|] == e[i..i + |states|]
      modifies `sbuf, `lineno, `text, `previous
      ensures k <= |states| && TailOf(Future(), e, i + k)
              && lineno == old(lineno) + Lines(e, i + k) - Lines(e, i + |states|)
      ensures forall n :: k < n <= |states| ==> RuleFor(t, start, e, i, n) == 0
      ensures if k > 0 then rule == Rule(t, start, e[i..i + k]) > 0 && text == e[i..i + k] && previous == e[i + k - 1]
              else rule == 0 && text == old(text) && previous == old(previous)
    {
      hide Future, Rev, TailOf, Text, Stacked, Rule;
      k, rule := |states|, 0;
      while k > 0 && rule == 0
        invariant 0 <= k <= |states| && TailOf(Future(), e, i + k)
        invariant lineno == old(lineno) + Lines(e, i + k) - Lines(e, i + |states|)
        invariant forall n :: k < n <= |states| ==> RuleFor(t, start, e, i, n) == 0
        invariant text == old(text) && previous == old(previous)
        invariant rule == if k > 0 && rule > 0 then Rule(t, start, e[i..i + k]) else 0
        decreases k, rule == 0
      {
        StackedRule(t, start, e, i, states, k);
        TextPart(text, e, i, |states|, k);
        var stops := t.vec[states[k - 1]].stops;
        if stops != [] && stops[0] > 0 {
          rule := stops[0];
        } else {
          Unput(text[k - 1], e, i + k - 1);
          k := k - 1;
        }
      }
      TextPart(text, e, i, |states|, k);
      if rule > 0 {
        previous := text[k - 1];
        text := text[..k];
      }
    }

    /** Try to find a token at i: the longest one there, with its rule, or 0. */
    method Try(start: int, ghost e: seq<int>, ghost f: seq<int>, ghost i: nat) returns (rule: int, k: nat)
      requires WellFormed(t) && IsState(t, start) && !Dead(t, start)
      requires Text(t, e) && e == Ended(f) && i < |e| && TailOf(Future(), e, i)
      modifies `unread, `sbuf, `lineno, `text, `previous
      ensures i + k <= |f| && TailOf(Future(), e, i + k) && lineno == old(lineno) + Lines(e, i + k) - Lines(e, i)
      ensures forall n :: k < n <= |f| - i ==> RuleFor(t, start, f, i, n) == 0
      ensures if k > 0 then
                rule == RuleFor(t, start, f, i, k) > 0 && text == f[i..i + k] && |text| == k && previous == text[k - 1]
              else rule == 0 && previous == old(previous) && text != [] && text[0] == e[i]
      ensures IsSuffix(unread, old(unread))
    {
      hide Future, Rev, TailOf, Text, Stacked, Rule, WellFormed, Dead, Reach, Lines;
      var states := Advance(start, e, i);
      rule, k := Settle(start, states, e, i);
      assert k > 0 ==> |text| == k && text[k - 1] == e[i + k - 1];
      LongestFound(t, e, f, i, start, |states|, k);
      assert e[i..i + k] == f[i..i + k];
    }

    /** Copy a character to the output. */
    method Echo(ghost e: seq<int>, ghost i: nat)
      requires Text(t, e) && i < |e| && TailOf(Future(), e, i) && e[i] != 0
      modifies this
      ensures TailOf(Future(), e, i + 1) && lineno == old(lineno) + Lines(e, i + 1) - Lines(e, i)
      ensures previous == e[i] && text == [e[i]] && echoed == old(echoed) + [e[i]]
      ensures IsSuffix(unread, old(unread))
    {
      hide Future, Rev, TailOf, Lines;
      NoSuffix(unread);
      ghost var before := unread;
      var c := Input(e, i);
      SuffixStep(unread, before, before);
      previous := c;
      text := [c];
      if c > 0 {
        echoed := echoed + [c];
      }
    }

    /** The next token. The characters that cannot begin one go to the output, i of them in all. The result
        is the token's rule, or 0 at the end of the file. */
    method Look(ghost f: seq<int>) returns (rule: int, ghost i: nat)
      requires WellFormed(t) && Chars(t, Future()) && f == Future()
      modifies this
      ensures i <= |f| && echoed == old(echoed) + f[..i]
      ensures Skipped(t, old(previous), f, i)
      ensures rule > 0 ==> Token(t, old(previous), f, i, text, rule) && TailOf(Future(), Ended(f), i + |text|)
      ensures rule > 0 ==> previous == text[|text| - 1] && lineno == old(lineno) + Lines(Ended(f), i + |text|)
      ensures rule <= 0 ==> rule == 0 && (i == |f| || f[i] == 0) && sbuf == [] && IsSuffix(unread, old(unread))
    {
      hide Future, Rev, TailOf, Text, Stacked, Rule, WellFormed, Dead, Reach, Lines, NoToken, RuleFor, Ended;
      hide IsSuffix, Token, Skipped;
      ghost var e := Ended(f);
      rule, i := 0, 0;
      StartText(t, f);
      NoSuffix(unread);
      NoneSkipped(t, previous, f);
      while true
        invariant i <= |f| && TailOf(Future(), e, i) && lineno == old(lineno) + Lines(e, i)
        invariant echoed == old(echoed) + f[..i]
        invariant Skipped(t, old(previous), f, i)
        invariant previous == Before(old(previous), f, i)
        invariant IsSuffix(unread, old(unread))
        decreases |f| - i
      {
        StartState(t, previous);
        var start := Start(t, previous);
        ghost var before := unread;
        var k;
        rule, k := Try(start, e, f, i);
        SuffixTrans(unread, before, old(unread));
        if rule > 0 {
          TokenFound(t, old(previous), f, i, start, k, rule);
          assert |text| == k;
          return;
        }
        NoTokenFound(t, old(previous), f, i, start);
        EndsHere(f, i);
        if text[0] == 0 {
          sbuf := [];
          return;
        }
        before := unread;
        EchoStep(old(echoed), f, i);
        SkippedMore(t, old(previous), f, i);
        Echo(e, i);
        SuffixTrans(unread, before, old(unread));
        i := i + 1;
      }
    }
  }

  lemma StartText(t: Table, f: seq<int>)
    requires WellFormed(t) && Chars(t, f)
    ensures Text(t, Ended(f)) && TailOf(f, Ended(f), 0) && Lines(Ended(f), 0) == 0
  {
    var e := f + [0];
    assert e[0..|e| - 1] == f;
  }

  lemma StartState(t: Table, previous: int)
    requires WellFormed(t)
    ensures IsState(t, Start(t, previous)) && !Dead(t, Start(t, previous))
  {
  }

  lemma StackedRule(t: Table, start: int, e: seq<int>, i: nat, states: seq<int>, k: nat)
    requires i + |states| < |e| && Stacked(t, start, e[i..i + |states|], states) && 0 < k <= |states|
    ensures IsState(t, states[k - 1])
    ensures var stops := t.vec[states[k - 1]].stops;
            Rule(t, start, e[i..i + k]) == if stops != [] && stops[0] > 0 then stops[0] else 0
  {
    assert e[i..i + |states|][..k] == e[i..i + k];
  }

  /** What the scanner goes by at position j: the character before it. */
  function Before(previous: int, f: seq<int>, j: nat): int
    requires j <= |f|
  {
    if j == 0 then previous else f[j - 1]
  }

  /** No rule stands for any of the characters that begin at j. */
  predicate NoToken(t: Table, previous: int, f: seq<int>, j: nat)
    requires j <= |f|
  {
    forall n :: 0 < n <= |f| - j ==> RuleFor(t, Start(t, Before(previous, f, j)), f, j, n) == 0
  }

  /** The token at j is the longest beginning for which there is a rule, and this is the first one for it. */
  predicate Token(t: Table, previous: int, f: seq<int>, j: nat, text: seq<int>, rule: int)
    requires j <= |f|
  {
    && 0 < |text| <= |f| - j && text == f[j..j + |text|]
    && Rule(t, Start(t, Before(previous, f, j)), text) == rule
    && forall n :: |text| < n <= |f| - j ==> RuleFor(t, Start(t, Before(previous, f, j)), f, j, n) == 0
  }

  /** The token is what a path from the right start state accepts: the second one at the beginning of a line. */
  lemma TokenPath(t: Table, previous: int, f: seq<int>, j: nat, text: seq<int>, rule: int) returns (path: seq<int>)
    requires WellFormed(t) && j <= |f| && Token(t, previous, f, j, text, rule) && rule > 0
    ensures f[j..j + |text|] == text && IsPath(t, text, path)
    ensures path[0] == t.bgin + if (if j == 0 then previous else f[j - 1]) == 10 then 1 else 0
    ensures IsState(t, path[|text|]) && t.vec[path[|text|]].stops != [] && t.vec[path[|text|]].stops[0] == rule
  {
    path := PathTo(t, Start(t, Before(previous, f, j)), text);
    ReachIs(t, text, path);
  }

  /** No path through more characters from there ends in a state with a rule. */
  lemma NoLongerPath(t: Table, previous: int, f: seq<int>, j: nat, text: seq<int>, rule: int, n: nat,
                     path: seq<int>)
    requires WellFormed(t) && j <= |f| && Token(t, previous, f, j, text, rule) && |text| < n <= |f| - j
    requires IsPath(t, f[j..j + n], path)
    requires path[0] == t.bgin + if (if j == 0 then previous else f[j - 1]) == 10 then 1 else 0
    ensures IsState(t, path[n]) ==> t.vec[path[n]].stops == [] || t.vec[path[n]].stops[0] <= 0
  {
    hide IsPath, Reach, WellFormed;
    ReachIs(t, f[j..j + n], path);
    var start := Start(t, Before(previous, f, j));
    assert RuleFor(t, start, f, j, n) == 0;
    assert |f[j..j + n]| == n;
  }

  /** Between what the scanner has found and the longest way there is no rule, and behind it no way. */
  lemma LongestFound(t: Table, e: seq<int>, f: seq<int>, i: nat, start: int, n: nat, k: nat)
    requires e == Ended(f) && i + n <= |f| && k <= n && Reach(t, start, e[i..i + n + 1]) < 0
    requires forall m :: k < m <= n ==> RuleFor(t, start, e, i, m) == 0
    ensures forall m :: k < m <= |f| - i ==> RuleFor(t, start, f, i, m) == 0
  {
    forall m | k < m <= |f| - i ensures RuleFor(t, start, f, i, m) == 0 {
      assert f[i..i + m] == e[i..i + m];
      if m > n {
        assert e[i..i + n + 1] <= e[i..i + m];
        NoWayOn(t, start, e[i..i + n + 1], e[i..i + m]);
      } else {
        assert RuleFor(t, start, e, i, m) == 0;
      }
    }
  }

  lemma TokenFound(t: Table, previous: int, f: seq<int>, i: nat, start: int, k: nat, rule: int)
    requires i + k <= |f| && k > 0 && start == Start(t, Before(previous, f, i)) && RuleFor(t, start, f, i, k) == rule
    requires forall n :: k < n <= |f| - i ==> RuleFor(t, start, f, i, n) == 0
    ensures Token(t, previous, f, i, f[i..i + k], rule)
  {
  }

  lemma NoTokenFound(t: Table, previous: int, f: seq<int>, i: nat, start: int)
    requires i <= |f| && start == Start(t, Before(previous, f, i))
    requires forall n :: 0 < n <= |f| - i ==> RuleFor(t, start, f, i, n) == 0
    ensures NoToken(t, previous, f, i)
  {
  }

  /** At none of the first i positions there is a token or the end. */
  predicate Skipped(t: Table, previous: int, f: seq<int>, i: nat)
    requires i <= |f|
  {
    forall j :: 0 <= j < i ==> f[j] != 0 && NoToken(t, previous, f, j)
  }

  lemma NoneSkipped(t: Table, previous: int, f: seq<int>)
    ensures Skipped(t, previous, f, 0)
  {
  }

  lemma SkippedMore(t: Table, previous: int, f: seq<int>, i: nat)
    requires i < |f| && Skipped(t, previous, f, i) && f[i] != 0 && NoToken(t, previous, f, i)
    ensures Skipped(t, previous, f, i + 1)
  {
  }

  lemma EchoStep(before: seq<int>, f: seq<int>, i: nat)
    requires i < |f|
    ensures (before + f[..i]) + [Ended(f)[i]] == before + f[..i + 1] && Ended(f)[i] == f[i]
  {
  }

  lemma EndsHere(f: seq<int>, i: nat)
    requires i <= |f|
    ensures Ended(f)[i] == if i < |f| then f[i] else 0
  {
  }
}
