/** Ranges of parameters, effective modes, queries, and the command line that starts a task. */
module Modes {
  import opened Options

  datatype Kind = IsBool | IsNumber | IsString

  datatype Value = Num(r: real) | Str(s: string)

  /** A value with the flags of its type: undefined, indefinite. */
  datatype Operand = Operand(undef: bool, indef: bool, v: Value)

  datatype Mode = Auto | Query | Hidden | Learn | Menu

  /** A parameter: its type, its mode and flags, its value, and its limits, which may be undefined or
      indefinite. A scalar has no other elements; shapeless ones are structs, cursors, keystrokes and psets. */
  datatype Param = Param(
    name: string, kind: Kind, isList: bool, isArray: bool, isFile: bool, shapeless: bool,
    mode: set<Mode>, isLocal: bool, clset: bool, value: Operand,
    umin: bool, imin: bool, umax: bool, imax: bool, min: Value, max: Value)

  /** What a test of the range can come to; it is an error if a file does not have the attributes asked for. */
  datatype Verdict = Yes(v: Operand) | No | Abort

  predicate OfKind(k: Kind, v: Value) {
    v.Str? <==> k == IsString
  }

  /** The types of values and limits agree. */
  predicate Typed(p: Param, o: Operand) {
    && (!o.undef && !o.indef ==> OfKind(p.kind, o.v))
    && (!p.umin && !p.imin ==> OfKind(p.kind, p.min))
    && (!p.umax && !p.imax ==> OfKind(p.kind, p.max))
    && (p.isFile ==> p.kind == IsString)
  }

  // ---- What is in range.

  /** Strings are compared character by character. */
  predicate StrLe(a: string, b: string) {
    a == [] || (b != [] && (a[0] < b[0] || (a[0] == b[0] && StrLe(a[1..], b[1..]))))
  }

  predicate Le(a: Value, b: Value) {
    match (a, b)
    case (Num(x), Num(y)) => x <= y
    case (Str(x), Str(y)) => StrLe(x, y)
    case _ => false
  }

  /** The parts of s between bars; what follows the last bar counts only if it is not empty. */
  function Parts(s: string): seq<string> {
    if s == [] then []
    else
      var k := BarAt(s);
      if k == |s| then [s] else [s[..k]] + Parts(s[k + 1..])
  }

  function BarAt(s: string): (k: nat)
    ensures k <= |s| && (forall i :: 0 <= i < k ==> s[i] != '|') && (k < |s| ==> s[k] == '|')
  {
    if s == [] || s[0] == '|' then 0 else 1 + BarAt(s[1..])
  }

  /** The legal values as they are written: one behind the other, with bars between them. */
  function Listed(parts: seq<string>): string
    requires parts != []
  {
    if |parts| == 1 then parts[0] else parts[0] + "|" + Listed(parts[1..])
  }

  lemma BarIs(first: string, rest: string)
    requires '|' !in first
    ensures BarAt(first) == |first| && BarAt(first + "|" + rest) == |first|
    ensures (first + "|" + rest)[..|first|] == first && (first + "|" + rest)[|first| + 1..] == rest
  {
    var s := first + "|" + rest;
    assert s[|first|] == '|' && forall i :: 0 <= i < |first| ==> s[i] == first[i];
  }

  lemma NoParts()
    ensures Parts("") == []
  {
  }

  lemma PartsStep(s: string)
    requires s != ""
    ensures var k := BarAt(s); Parts(s) == if k == |s| then [s] else [s[..k]] + Parts(s[k + 1..])
  {
    hide BarAt;
  }

  /** Values without bars, the last one not empty, are read as they were written. */
  lemma {:induction false} ListedParts(parts: seq<string>)
    requires parts != [] && parts[|parts| - 1] != "" && forall i :: 0 <= i < |parts| ==> '|' !in parts[i]
    ensures Parts(Listed(parts)) == parts
    decreases |parts|
  {
    hide Parts, BarAt;
    PartsStep(Listed(parts));
    if |parts| == 1 {
      BarIs(parts[0], "");
    } else {
      var others := parts[1..];
      BarIs(parts[0], Listed(others));
      assert others[|others| - 1] == parts[|parts| - 1];
      ListedParts(others);
    }
  }

  /** The strings differ first at k, and there a comes first. */
  predicate DiffersAt(a: string, b: string, k: nat) {
    k < |a| && k < |b| && a[..k] == b[..k] && a[k] < b[k]
  }

  lemma DiffersLater(c: char, a: string, b: string, k: nat)
    ensures DiffersAt([c] + a, [c] + b, k + 1) <==> DiffersAt(a, b, k)
    ensures !DiffersAt([c] + a, [c] + b, 0)
  {
    if k <= |a| && k <= |b| {
      assert ([c] + a)[..k + 1] == [c] + a[..k] && ([c] + b)[..k + 1] == [c] + b[..k];
      assert ([c] + a[..k])[1..] == a[..k] && ([c] + b[..k])[1..] == b[..k];
    }
  }

  /** The order of strings: that of the first characters that differ, and a beginning comes first. */
  lemma {:induction false} StrLeIs(a: string, b: string)
    ensures StrLe(a, b) <==> a <= b || exists k: nat :: DiffersAt(a, b, k)
    decreases |a|
  {
    if a != "" && b != "" {
      if a[0] == b[0] {
        StrLeIs(a[1..], b[1..]);
        LaterAll(a[0], a[1..], b[1..]);
        assert a == [a[0]] + a[1..] && b == [a[0]] + b[1..];
      } else {
        FirstDiffers(a, b);
      }
    } else {
      assert forall k: nat :: !DiffersAt(a, b, k);
    }
  }

  lemma FirstDiffers(a: string, b: string)
    requires a != "" && b != "" && a[0] != b[0]
    ensures !(a <= b) && ((exists k: nat :: DiffersAt(a, b, k)) <==> a[0] < b[0])
  {
    if a[0] < b[0] { assert DiffersAt(a, b, 0); }
    if k: nat :| DiffersAt(a, b, k) {
      assert k == 0 || a[..k][0] == b[..k][0];
    }
  }

  lemma LaterAll(c: char, a: string, b: string)
    ensures (exists k: nat :: DiffersAt([c] + a, [c] + b, k)) <==> exists k: nat :: DiffersAt(a, b, k)
    ensures [c] + a <= [c] + b <==> a <= b
  {
    hide DiffersAt;
    if |a| <= |b| { assert ([c] + b)[..1 + |a|] == [c] + b[..|a|] && ([c] + b[..|a|])[1..] == b[..|a|]; }
    if [c] + a <= [c] + b { assert ([c] + a)[1..] == a; }
    if k: nat :| DiffersAt(a, b, k) {
      DiffersLater(c, a, b, k);
    }
    if k: nat :| DiffersAt([c] + a, [c] + b, k) {
      DiffersLater(c, a, b, if k > 0 then k - 1 else 0);
    }
  }

  /** val abbreviates the legal value k, and no other one. */
  predicate Abbreviates(parts: seq<string>, val: string, k: nat) {
    k < |parts| && val <= parts[k] && forall j :: 0 <= j < |parts| && j != k ==> !(val <= parts[j])
  }

  predicate Checked(p: Param) {
    && p.kind != IsBool && !p.shapeless
    && !((p.imin || p.umin) && (p.imax || p.umax))
    && (p.umin || p.imin || p.umax || p.imax || Le(p.min, p.max))
  }

  predicate Enumerated(p: Param) {
    p.kind == IsString && !p.umin
  }

  /** Values that are in range. Those of an enumerated parameter abbreviate just one of the legal values. */
  predicate Legal(p: Param, o: Operand) {
    && !o.undef
    && (o.indef || !Checked(p) ||
        if Enumerated(p) then
          && !p.imin && p.min.Str? && o.v.Str?
          && exists k :: 0 <= k < |Parts(p.min.s)| && Abbreviates(Parts(p.min.s), o.v.s, k)
        else
          (p.umin || p.imin || Le(p.min, o.v)) && (p.umax || p.imax || Le(o.v, p.max)))
  }

  /** A number is legal if it is not undefined and lies between the limits there are, these included; limits the wrong
      way round do not count, nor does a range of which both ends are open. */
  lemma LegalNumbers(p: Param, o: Operand, lo: real, hi: real, x: real)
    requires p.kind == IsNumber && !p.shapeless && p.min == Num(lo) && p.max == Num(hi)
    requires !o.undef && !o.indef && o.v == Num(x)
    ensures !p.umin && !p.imin && !p.umax && !p.imax ==> (Legal(p, o) <==> hi < lo || lo <= x <= hi)
    ensures !p.umin && !p.imin && (p.umax || p.imax) ==> (Legal(p, o) <==> lo <= x)
    ensures (p.umin || p.imin) && !p.umax && !p.imax ==> (Legal(p, o) <==> x <= hi)
    ensures (p.umin || p.imin) && (p.umax || p.imax) ==> Legal(p, o)
  {
  }

  /** Strings that are not enumerated go by their order; switches, structures and indefinite values are legal, and
      undefined ones are not. */
  lemma LegalOthers(p: Param, o: Operand, hi: string, x: string)
    ensures o.undef ==> !Legal(p, o)
    ensures !o.undef && (o.indef || p.kind == IsBool || p.shapeless) ==> Legal(p, o)
    ensures !o.undef && !o.indef && !p.shapeless && p.kind == IsString && o.v == Str(x) ==>
              (p.umin && !p.umax && !p.imax && p.max == Str(hi) ==> (Legal(p, o) <==> StrLe(x, hi)))
  {
  }

  /** Whether it matters that a file has its attributes. */
  predicate FileChecked(p: Param, o: Operand) {
    !o.undef && !o.indef && Checked(p) && p.isFile
  }

  /** The full value for an abbreviation. */
  predicate FullValue(p: Param, o: Operand, full: Operand) {
    if Enumerated(p) && Checked(p) && !o.indef then
      full == o.(v := full.v) && full.v.Str? && p.min.Str? && o.v.Str?
      && exists k :: 0 <= k < |Parts(p.min.s)| && Abbreviates(Parts(p.min.s), o.v.s, k) && full.v.s == Parts(p.min.s)[k]
    else full == o
  }

  /** A legal value given in full is in range exactly if no other legal value begins with it. */
  lemma GivenInFull(p: Param, o: Operand, i: nat)
    requires Enumerated(p) && Checked(p) && p.min.Str? && o.v.Str? && !o.undef && !o.indef
    requires i < |Parts(p.min.s)| && o.v.s == Parts(p.min.s)[i]
    ensures Legal(p, o) <==>
              !p.imin
              && forall j :: 0 <= j < |Parts(p.min.s)| && j != i ==> !(Parts(p.min.s)[i] <= Parts(p.min.s)[j])
  {
    var parts := Parts(p.min.s);
    assert o.v.s <= parts[i];
    if forall j :: 0 <= j < |parts| && j != i ==> !(parts[i] <= parts[j]) {
      assert Abbreviates(parts, o.v.s, i);
    } else {
      var j :| 0 <= j < |parts| && j != i && parts[i] <= parts[j];
      forall k | 0 <= k < |parts| ensures !Abbreviates(parts, o.v.s, k) {
        assert o.v.s <= parts[if k == i then j else i];
      }
    }
  }

  /** Of the legal values "a|ab" the first one cannot be given at all, the second one only in full. */
  lemma ShorterValueIsLost(p: Param, o: Operand)
    requires Enumerated(p) && Checked(p) && !p.imin && p.min == Str("a|ab") && o.v.Str? && !o.undef && !o.indef
    ensures o.v.s == "a" ==> !Legal(p, o)
    ensures o.v.s == "ab" ==> Legal(p, o)
  {
    var parts := Parts("a|ab");
    assert "a|ab"[..1] == "a" && "a|ab"[2..] == "ab";
    assert BarAt("a|ab") == 1 && BarAt("ab") == 2;
    assert parts == ["a"] + Parts("ab") && Parts("ab") == ["ab"];
    assert parts == ["a", "ab"];
    if o.v.s == "a" {
      GivenInFull(p, o, 0);
      assert parts[0] <= parts[1];
    } else if o.v.s == "ab" {
      GivenInFull(p, o, 1);
      assert !(parts[1] <= parts[0]);
    }
  }

  lemma {:induction false} PartsAreShort(s: string)
    ensures forall k :: 0 <= k < |Parts(s)| ==> |Parts(s)[k]| <= |s|
    decreases |s|
  {
    if s != [] && BarAt(s) < |s| {
      PartsAreShort(s[BarAt(s) + 1..]);
    }
  }

  lemma {:induction false} LongerIsGreater(a: string)
    ensures !StrLe(a + "x", a)
    decreases |a|
  {
    if a != [] {
      assert (a + "x")[1..] == a[1..] + "x";
      LongerIsGreater(a[1..]);
    }
  }

  /** Some value that can be given for the parameter is out of range. */
  ghost predicate SomeRefused(p: Param) {
    exists o: Operand :: !o.undef && !o.indef && Typed(p, o) && !Legal(p, o)
  }

  /** A range counts exactly if there is a value that it refuses. */
  lemma RangesCount(p: Param)
    requires Typed(p, p.value)
    ensures Checked(p) <==> SomeRefused(p)
  {
    if Checked(p) {
      var bad :=
        if Enumerated(p) then Str(if p.imin then "" else p.min.s + "x")
        else if p.kind == IsString then Str(p.max.s + "x")
        else if p.umin || p.imin then Num(p.max.r + 1.0) else Num(p.min.r - 1.0);
      var o := Operand(false, false, bad);
      if Enumerated(p) {
        if !p.imin { PartsAreShort(p.min.s); }
      } else if p.kind == IsString {
        LongerIsGreater(p.max.s);
      }
      assert Typed(p, o) && !Legal(p, o);
    }
  }

  // ---- Testing a value.

  method RangeCheck(p: Param) returns (on: bool)
    ensures on == Checked(p)
  {
    if p.kind == IsBool || p.shapeless {
      return false;
    }
    if (p.imin || p.umin) && (p.imax || p.umax) {
      return false;
    }
    if !p.umin && !p.imin && !p.umax && !p.imax {
      if !Le(p.min, p.max) {
        return false;
      }
    }
    return true;
  }

  /** Look for the legal values that val abbreviates: the only one, or none if there are none or several. */
  method Match(min: string, val: string) returns (found: Option<string>)
    ensures found.Some? ==>
              exists k :: 0 <= k < |Parts(min)| && Abbreviates(Parts(min), val, k) && found.value == Parts(min)[k]
    ensures found == None ==> forall k :: 0 <= k < |Parts(min)| ==> !Abbreviates(Parts(min), val, k)
  {
    hide Parts, BarAt;
    NoParts();
    found := None;
    var s, more := min, true;
    ghost var parts, k := Parts(min), 0;
    ghost var at := 0;
    while more && s != []
      invariant 0 <= k <= |parts| && parts[k..] == (if more then Parts(s) else [])
      invariant found.Some? ==> at < k && val <= parts[at] && found.value == parts[at]
      invariant forall j :: 0 <= j < k && val <= parts[j] ==> found.Some? && j == at
      decreases more, |s|
    {
      PartsStep(s);
      var bar := BarAt(s);
      var part := s[..bar];
      assert parts[k] == parts[k..][0] == part && parts[k + 1..] == parts[k..][1..];
      if val <= part {
        if found.Some? {
          Ambiguous(parts, val, at, k);
          return None;
        }
        found, at := Some(part), k;
      }
      more := bar < |s|;
      if more {
        s := s[bar + 1..];
      }
      k := k + 1;
    }
    assert parts[k..] == [];
    if found.Some? {
      assert Abbreviates(parts, val, at);
    }
  }

  lemma Ambiguous(parts: seq<string>, val: string, i: nat, j: nat)
    requires i < j < |parts| && val <= parts[i] && val <= parts[j]
    ensures forall k :: 0 <= k < |parts| ==> !Abbreviates(parts, val, k)
  {
    forall k | 0 <= k < |parts| ensures !Abbreviates(parts, val, k) {
      assert val <= parts[if k == i then j else i];
    }
  }

  /** Test a value; access tells whether a file has the attributes that are asked for. */
  method InRange(p: Param, o: Operand, access: bool) returns (r: Verdict)
    requires Typed(p, o)
    ensures r == Abort <==> FileChecked(p, o) && !access
    ensures r != Abort ==> (r.Yes? <==> Legal(p, o))
    ensures r.Yes? ==> FullValue(p, o, r.v)
  {
    if o.undef {
      return No;
    }
    if o.indef {
      return Yes(o);
    }
    var on := RangeCheck(p);
    if !on {
      return Yes(o);
    }
    if p.isFile && !access {
      return Abort;
    }
    if p.kind == IsString && !p.umin {
      if p.imin {
        return No;
      }
      var found := Match(p.min.s, o.v.s);
      if found == None {
        return No;
      }
      return Yes(o.(v := Str(found.value)));
    }
    if !p.imin && !p.umin && !Le(p.min, o.v) {
      return No;
    }
    if !p.imax && !p.umax && !Le(o.v, p.max) {
      return No;
    }
    return Yes(o);
  }

  // ---- The effective mode.

  /** The modes of the task, its package and the CL, and whether the task was called interactively. */
  datatype Setting = Setting(task: set<Mode>, package: set<Mode>, cl: set<Mode>, interactive: bool)

  datatype Effect = Effective(mode: set<Mode>) | UndefinedLocal | BadFile

  function ModeBits(s: Setting): set<Mode> {
    if s.interactive then {Query, Hidden, Menu} else {Query, Hidden}
  }

  /** The mode of the first of parameter, task, package and CL that is not automatic. */
  function Inherited(p: Param, s: Setting): (m: set<Mode>)
    ensures m != {}
  {
    if p.mode * ModeBits(s) != {} then p.mode * ModeBits(s)
    else if s.task * ModeBits(s) != {} then s.task * ModeBits(s)
    else if s.package * ModeBits(s) != {} then s.package * ModeBits(s)
    else if s.cl * ModeBits(s) != {} then s.cl * ModeBits(s)
    else {Auto}
  }

  /** Whether a query is wanted for a legal value, too. */
  predicate QueryWanted(p: Param, s: Setting) {
    Query in Inherited(p, s) && !p.clset && Hidden !in p.mode && Menu !in Inherited(p, s)
  }

  /** A level of the hierarchy decides if its mode has one of the bits that are admitted; menu mode is admitted
      only for tasks that were called interactively. */
  predicate Decides(mode: set<Mode>, s: Setting) {
    Query in mode || Hidden in mode || (Menu in mode && s.interactive)
  }

  /** What the level that decides says of the effective mode. */
  predicate GoesBy(mode: set<Mode>, level: set<Mode>, p: Param, o: Operand, s: Setting) {
    && (Hidden in mode <==> Hidden in level)
    && (Menu in mode <==> Menu in level && s.interactive)
    && Auto !in mode
    && (Query in mode <==>
        || (!p.isList && !Legal(p, o))
        || Asks(level, p, s))
  }

  /** Where no level decides, there is a query just for values that are not legal. */
  predicate GoesByNone(mode: set<Mode>, p: Param, o: Operand) {
    && Auto in mode && Hidden !in mode && Menu !in mode
    && (Query in mode <==> !p.isList && !Legal(p, o))
  }

  /** The parameter's own mode comes first, then the task's, the package's, and the CL's. */
  predicate FirstLevelDecides(mode: set<Mode>, p: Param, o: Operand, s: Setting) {
    && (Decides(p.mode, s) ==> GoesBy(mode, p.mode, p, o, s))
    && (!Decides(p.mode, s) && Decides(s.task, s) ==> GoesBy(mode, s.task, p, o, s))
    && (!Decides(p.mode, s) && !Decides(s.task, s) && Decides(s.package, s) ==> GoesBy(mode, s.package, p, o, s))
    && (!Decides(p.mode, s) && !Decides(s.task, s) && !Decides(s.package, s) && Decides(s.cl, s) ==>
          GoesBy(mode, s.cl, p, o, s))
    && (!Decides(p.mode, s) && !Decides(s.task, s) && !Decides(s.package, s) && !Decides(s.cl, s) ==>
          GoesByNone(mode, p, o))
  }

  lemma DecidesIs(mode: set<Mode>, s: Setting)
    ensures Decides(mode, s) <==> mode * ModeBits(s) != {}
    ensures forall m :: m in mode * ModeBits(s) <==>
              m in mode && (m == Query || m == Hidden || (m == Menu && s.interactive))
  {
    assert Query in mode ==> Query in mode * ModeBits(s);
    assert Hidden in mode ==> Hidden in mode * ModeBits(s);
    assert Menu in mode && s.interactive ==> Menu in mode * ModeBits(s);
  }

  /** The level that decides, and whether it wants a query; the others do not matter. */
  lemma QueryIs(p: Param, s: Setting)
    ensures Decides(p.mode, s) ==> (QueryWanted(p, s) <==> Asks(p.mode, p, s))
    ensures !Decides(p.mode, s) && Decides(s.task, s) ==> (QueryWanted(p, s) <==> Asks(s.task, p, s))
    ensures !Decides(p.mode, s) && !Decides(s.task, s) && Decides(s.package, s) ==>
              (QueryWanted(p, s) <==> Asks(s.package, p, s))
    ensures !Decides(p.mode, s) && !Decides(s.task, s) && !Decides(s.package, s) ==>
              (QueryWanted(p, s) <==> Asks(s.cl, p, s))
  {
    DecidesIs(p.mode, s);
    DecidesIs(s.task, s);
    DecidesIs(s.package, s);
    DecidesIs(s.cl, s);
  }

  /** A level asks for a query: not for parameters set on the command line or hidden ones, nor in menu mode. */
  predicate Asks(level: set<Mode>, p: Param, s: Setting) {
    Query in level && !p.clset && Hidden !in p.mode && !(Menu in level && s.interactive)
  }

  lemma LevelsDecide(p: Param, o: Operand, s: Setting, mode: set<Mode>)
    requires Query in mode <==> QueryWanted(p, s) || (!p.isList && !Legal(p, o))
    requires forall m :: m in {Auto, Hidden, Menu} ==> (m in mode <==> m in Inherited(p, s))
    ensures FirstLevelDecides(mode, p, o, s)
  {
    hide Legal;
    DecidesIs(p.mode, s);
    DecidesIs(s.task, s);
    DecidesIs(s.package, s);
    DecidesIs(s.cl, s);
  }

  /** The effective mode of a parameter with the value o; that of an array is the value of the element in
      question. There is a query exactly if it is wanted or the value is not legal. */
  method EffMode(p: Param, o: Operand, s: Setting, access: bool) returns (e: Effect)
    requires Typed(p, o)
    ensures e == UndefinedLocal <==> p.isLocal && o.undef
    ensures p.isLocal && !o.undef ==> e == Effective({})
    ensures e == BadFile <==> !p.isLocal && !QueryWanted(p, s) && !p.isList && FileChecked(p, o) && !access
    ensures e.Effective? && !p.isLocal ==>
              (Query in e.mode <==> QueryWanted(p, s) || (!p.isList && !Legal(p, o)))
    ensures e.Effective? && !p.isLocal ==>
              (forall m :: m in {Auto, Hidden, Menu} ==> (m in e.mode <==> m in Inherited(p, s)))
    ensures e.Effective? && !p.isLocal ==> (Learn in e.mode <==> s.interactive && Learn in s.cl + s.task)
    ensures e.Effective? && !p.isLocal ==> FirstLevelDecides(e.mode, p, o, s)
  {
    hide FirstLevelDecides;
    if p.isLocal {
      return if o.undef then UndefinedLocal else Effective({});
    }
    var modebits := if s.interactive then {Query, Hidden, Menu} else {Query, Hidden};
    var mode := p.mode * modebits;
    if mode == {} {
      mode := s.task * modebits;
      if mode == {} {
        mode := s.package * modebits;
        if mode == {} {
          mode := s.cl * modebits;
          if mode == {} {
            mode := {Auto};
          }
        }
      }
    }
    if p.clset || Hidden in p.mode || Menu in mode {
      mode := mode - {Query};
    }
    if Query !in mode && !p.isList {
      var r := InRange(p, o, access);
      if r == Abort {
        return BadFile;
      }
      if r == No {
        mode := mode + {Query};
      }
    }
    if s.interactive {
      mode := mode + (s.cl * {Learn}) + (s.task * {Learn});
    }
    e := Effective(mode);
    LevelsDecide(p, o, s, mode);
  }

  // ---- Queries.

  /** What the user answers: the end of the file, or a line with or without its newline. */
  datatype Reply = Eof | Line(text: string)

  datatype Answer = Answered(o: Operand) | EndOfList | Failed | Waiting

  function SkipBlanks(s: string): string {
    if s != [] && (s[0] == ' ' || s[0] == '\t') then SkipBlanks(s[1..]) else s
  }

  const NEWLINE: char := '\n'

  /** The value that a reply stands for; parse makes an operand of the parameter's type from a string. */
  function Meant(p: Param, reply: Reply, parse: string -> Operand): Operand {
    var current := if p.isList then p.value.(undef := true) else p.value;
    if reply.Eof? then current
    else
      var ip := if p.kind != IsString || p.isFile then SkipBlanks(reply.text) else reply.text;
      if ip != [] && ip[0] == NEWLINE then
        if p.kind == IsString && current.undef then parse([]) else current
      else
        var k := NewlineAt(ip);
        if k == |ip| then current else parse(ip[..k])
  }

  function NewlineAt(s: string): (k: nat)
    ensures k <= |s| && '\n' !in s[..k] && (k < |s| ==> s[k] == '\n')
  {
    if s == [] || s[0] == NEWLINE then 0 else 1 + NewlineAt(s[1..])
  }

  /** The reply ends a list. */
  predicate EndsList(p: Param, reply: Reply) {
    p.isList && (reply.Eof? ||
                 var ip := if p.kind != IsString || p.isFile then SkipBlanks(reply.text) else reply.text;
                 var k := NewlineAt(ip);
                 k > 0 && k < |ip| && (ip[..k] == "EOF" || ip[..k] == "eof"))
  }

  // ---- What replies mean.

  predicate Spaces(s: string) {
    forall i :: 0 <= i < |s| ==> s[i] == ' ' || s[i] == '\t'
  }

  lemma {:induction false} BlanksSkipped(blanks: string, rest: string)
    requires Spaces(blanks) && (rest == "" || (rest[0] != ' ' && rest[0] != '\t'))
    ensures SkipBlanks(blanks + rest) == rest
  {
    if blanks == "" {
      assert blanks + rest == rest;
    } else {
      assert (blanks + rest)[1..] == blanks[1..] + rest;
      BlanksSkipped(blanks[1..], rest);
    }
  }

  lemma NewlineIs(line: string, rest: string)
    requires '\n' !in line
    ensures NewlineAt(line + "\n" + rest) == |line| && (line + "\n" + rest)[..|line|] == line
  {
    var s := line + "\n" + rest;
    assert s[|line|] == '\n' && s[..|line|] == line;
  }

  /** What is typed before the newline is the value, leading blanks left off unless the parameter is a string that
      is no file name. */
  lemma TypedValue(p: Param, blanks: string, typed: string, rest: string, parse: string -> Operand)
    requires Spaces(blanks) && '\n' !in typed && typed != "" && typed[0] != ' ' && typed[0] != '\t'
    ensures var text := blanks + (typed + "\n" + rest);
            Meant(p, Line(text), parse) == parse(if p.kind == IsString && !p.isFile then blanks + typed else typed)
  {
    var line := typed + "\n" + rest;
    assert line[0] == typed[0];
    BlanksSkipped(blanks, line);
    NewlineIs(typed, rest);
    assert blanks + line == (blanks + typed) + "\n" + rest;
    NewlineIs(blanks + typed, rest);
    assert (blanks + typed)[0] != '\n' by {
      if blanks != "" { assert (blanks + typed)[0] == blanks[0]; } else { assert blanks + typed == typed; }
    }
  }

  /** The end of the file, an empty line, and a line without its newline stand for the current value; only a string
      that is undefined becomes empty. */
  lemma CurrentValue(p: Param, blanks: string, typed: string, rest: string, parse: string -> Operand)
    requires !p.isList && Spaces(blanks) && '\n' !in typed
    ensures Meant(p, Eof, parse) == p.value
    ensures p.kind != IsString || p.isFile ==>
              Meant(p, Line(blanks + ("\n" + rest)), parse)
              == if p.kind == IsString && p.value.undef then parse("") else p.value
    ensures p.kind == IsString ==> Meant(p, Line("\n" + rest), parse) == if p.value.undef then parse("") else p.value
    ensures Meant(p, Line(typed), parse) == p.value
  {
    BlanksSkipped(blanks, "\n" + rest);
    assert ("\n" + rest)[0] == '\n';
    NoNewline(typed);
    SkippedPart(typed);
    NoNewline(SkipBlanks(typed));
    if SkipBlanks("\n" + rest) != "\n" + rest { BlanksSkipped("", "\n" + rest); }
  }

  lemma NoNewline(s: string)
    requires '\n' !in s
    ensures NewlineAt(s) == |s| && (s != "" ==> s[0] != '\n')
  {
  }

  lemma {:induction false} SkippedPart(s: string)
    ensures forall c :: c in SkipBlanks(s) ==> c in s
  {
    if s != "" && (s[0] == ' ' || s[0] == '\t') { SkippedPart(s[1..]); }
  }

  /** A list ends with the file, or with a line that is just "EOF" or "eof". */
  lemma ListEnds(p: Param, typed: string, rest: string)
    requires '\n' !in typed && typed != "" && typed[0] != ' ' && typed[0] != '\t'
    ensures EndsList(p, Eof) <==> p.isList
    ensures EndsList(p, Line(typed + "\n" + rest)) <==> p.isList && (typed == "EOF" || typed == "eof")
    ensures EndsList(p, Line("\n" + rest)) <==> false
  {
    NewlineIs(typed, rest);
    NewlineIs("", rest);
    assert "" + "\n" + rest == "\n" + rest;
    var line := typed + "\n" + rest;
    assert line[0] == typed[0] && ("\n" + rest)[0] == '\n';
    BlanksSkipped("", line);
    assert "" + line == line;
  }

  /** The file that a reply names does not have its attributes; access tells which ones do. */
  predicate BadFileNamed(p: Param, o: Operand, access: (Param, Operand) -> bool) {
    FileChecked(p, o) && !access(p, o)
  }

  /** What a reply settles, if anything: the end of a list, an error, or an answer. Where nobody can be asked
      again, a value that is not legal is an error. */
  predicate Errs(p: Param, reply: Reply, parse: string -> Operand, access: (Param, Operand) -> bool, tty: bool) {
    var o := Meant(p, reply, parse);
    !EndsList(p, reply) && (BadFileNamed(p, o, access) || (!Legal(p, o) && !tty))
  }

  predicate Answers(p: Param, reply: Reply, parse: string -> Operand, access: (Param, Operand) -> bool) {
    var o := Meant(p, reply, parse);
    !EndsList(p, reply) && !BadFileNamed(p, o, access) && Legal(p, o)
  }

  predicate Settles(p: Param, reply: Reply, parse: string -> Operand, access: (Param, Operand) -> bool, tty: bool) {
    EndsList(p, reply) || Errs(p, reply, parse, access, tty) || Answers(p, reply, parse, access)
  }

  /** Reply i is the first one that settles something. */
  predicate FirstSettling(p: Param, replies: seq<Reply>, i: nat, parse: string -> Operand,
                          access: (Param, Operand) -> bool, tty: bool)
  {
    && i < |replies|
    && Settles(p, replies[i], parse, access, tty)
    && forall j :: 0 <= j < i ==> !Settles(p, replies[j], parse, access, tty)
  }

  /** The full value for a legal abbreviation is legal. */
  lemma FullIsLegal(p: Param, o: Operand, full: Operand)
    requires Legal(p, o) && FullValue(p, o, full)
    ensures Legal(p, full)
  {
    if Enumerated(p) && Checked(p) && !o.indef {
      var parts := Parts(p.min.s);
      var k :| 0 <= k < |parts| && Abbreviates(parts, o.v.s, k) && full.v.s == parts[k];
      assert forall j :: 0 <= j < |parts| && full.v.s <= parts[j] ==> o.v.s <= parts[j];
      assert Abbreviates(parts, full.v.s, k);
    }
  }

  /** Ask until a reply is in range. It is given up at once if there is nobody to ask again. The new value is
      stored unless the parameter is a list. The outcome is that of the first reply that settles something. */
  method Ask(p: Param, replies: seq<Reply>, parse: string -> Operand, access: (Param, Operand) -> bool, tty: bool)
    returns (a: Answer, p': Param, ghost i: nat)
    requires !p.isArray && Typed(p, p.value) && forall s :: Typed(p, parse(s))
    ensures a == Waiting <==> forall j :: 0 <= j < |replies| ==> !Settles(p, replies[j], parse, access, tty)
    ensures a != Waiting <==> FirstSettling(p, replies, i, parse, access, tty)
    ensures a == EndOfList <==> a != Waiting && EndsList(p, replies[i])
    ensures a == Failed <==> a != Waiting && Errs(p, replies[i], parse, access, tty)
    ensures a.Answered? <==> a != Waiting && Answers(p, replies[i], parse, access)
    ensures a.Answered? ==> FullValue(p, Meant(p, replies[i], parse), a.o) && Legal(p, a.o)
    ensures p' == if a.Answered? && !p.isList then p.(value := a.o) else p
  {
    a, p', i := Waiting, p, 0;
    var n := 0;
    while n < |replies|
      invariant 0 <= n <= |replies| && i == n && a == Waiting && p' == p
      invariant forall j :: 0 <= j < n ==> !Settles(p, replies[j], parse, access, tty)
    {
      if EndsList(p, replies[n]) {
        return EndOfList, p, n;
      }
      var o := Meant(p, replies[n], parse);
      var r := InRange(p, o, access(p, o));
      if r == Abort {
        return Failed, p, n;
      }
      if r.Yes? {
        FullIsLegal(p, o, r.v);
        return Answered(r.v), if p.isList then p else p.(value := r.v), n;
      }
      if !tty {
        return Failed, p, n;
      }
      n := n + 1;
      i := n;
    }
  }

  // ---- The command line that starts a task.

  /** A parameter file: its name if it is a parameter set, and its parameters. */
  datatype Pfile = Pfile(pset: Option<string>, params: seq<Param>)

  const INDIRECT: char := ')'

  /** A parameter may be passed: it has a value of its own, is no list or array, and needs no query. */
  predicate Sendable(p: Param, s: Setting) {
    && !p.value.undef && !(p.kind == IsString && p.value.v.Str? && p.value.v.s != [] && p.value.v.s[0] == INDIRECT)
    && !p.isArray && !p.isList
    && (p.isLocal || (!QueryWanted(p, s) && Legal(p, p.value)))
  }

  /** A value with its newlines and quotes escaped. */
  function Escaped(val: string): string {
    if val == [] then []
    else
      var last := val[|val| - 1];
      Escaped(val[..|val| - 1]) + if last == NEWLINE then "\\n" else if last == '"' then "\\\"" else [last]
  }

  /** The assignment of a parameter; print gives its value in characters. */
  function Assignment(pset: Option<string>, p: Param, show: Param -> string): string {
    var quote := if p.kind == IsString then "\"" else "";
    (match pset case Some(name) => name + "." case None => "") + p.name + "=" + quote + Escaped(show(p)) + quote
  }

  /** The assignments that may be passed, in order. */
  function Assignments(files: seq<Pfile>, s: Setting, show: Param -> string): seq<string> {
    if files == [] then []
    else Assignments(files[..|files| - 1], s, show) + InFile(files[|files| - 1], |files[|files| - 1].params|, s, show)
  }

  /** Those of the first n parameters of a file. */
  function InFile(f: Pfile, n: nat, s: Setting, show: Param -> string): seq<string>
    requires n <= |f.params|
  {
    if n == 0 then []
    else
      InFile(f, n - 1, s, show)
      + if Sendable(f.params[n - 1], s) then [Assignment(f.pset, f.params[n - 1], show)] else []
  }

  /** Assignments on lines of their own, each line after an escaped newline. */
  function Lines(assignments: seq<string>): string {
    if assignments == [] then []
    else Lines(assignments[..|assignments| - 1]) + ['\\', NEWLINE] + assignments[|assignments| - 1]
  }

  /** The first n assignments are those for which there is room: there is none for the next one. */
  predicate Room(all: seq<string>, n: nat, room: int) {
    && n <= |all| && (n > 0 ==> |Lines(all[..n])| < room)
    && (n < |all| ==> |Lines(all[..n + 1])| >= room)
  }

  method EscapeValue(val: string) returns (out: string)
    ensures out == Escaped(val)
  {
    out := [];
    assert val[..|val|] == val;
    for i := 0 to |val|
      invariant out == Escaped(val[..i])
    {
      assert val[..i + 1][..i] == val[..i];
      if val[i] == NEWLINE {
        out := out + ['\\', 'n'];
      } else if val[i] == '"' {
        out := out + ['\\', '"'];
      } else {
        out := out + [val[i]];
      }
    }
  }

  /** The test of a parameter's value is an error: the value names a file without the attributes asked for. */
  predicate TestFails(p: Param, s: Setting, access: (Param, Operand) -> bool) {
    && !p.value.undef && !(p.kind == IsString && p.value.v.Str? && p.value.v.s != [] && p.value.v.s[0] == INDIRECT)
    && !p.isArray && !p.isList && !p.isLocal && !QueryWanted(p, s)
    && BadFileNamed(p, p.value, access)
  }

  /** May the parameter be passed? None if the test of its file fails. */
  method MayBeSent(p: Param, s: Setting, access: (Param, Operand) -> bool) returns (may: Option<bool>)
    requires Typed(p, p.value)
    ensures may == if TestFails(p, s, access) then None else Some(Sendable(p, s))
  {
    if p.value.undef {
      return Some(false);
    }
    if p.kind == IsString && p.value.v.Str? && p.value.v.s != [] && p.value.v.s[0] == INDIRECT {
      return Some(false);
    }
    if p.isArray || p.isList {
      return Some(false);
    }
    var e := EffMode(p, p.value, s, access(p, p.value));
    if e == BadFile {
      return None;
    }
    return Some(Query !in e.mode);
  }

  /** How many parameters of a file are looked at, from number i on, and what is left of the room then: up to
      and with the first one for which there is none. */
  function LookedAt(f: Pfile, i: nat, s: Setting, show: Param -> string, left: int): (r: (nat, int))
    requires i <= |f.params|
    ensures i <= r.0 <= |f.params|
    decreases |f.params| - i
  {
    if i == |f.params| then (i, left)
    else
      var rest := left - if Sendable(f.params[i], s) then |Assignment(f.pset, f.params[i], show)| + 2 else 0;
      if Sendable(f.params[i], s) && rest <= 0 then (i + 1, rest) else LookedAt(f, i + 1, s, show, rest)
  }

  /** One of the parameters that are looked at fails its test. */
  predicate FileFails(f: Pfile, s: Setting, show: Param -> string, access: (Param, Operand) -> bool, left: int) {
    exists i :: 0 <= i < LookedAt(f, 0, s, show, left).0 && TestFails(f.params[i], s, access)
  }

  /** What is left of the room after the first n files. */
  function LeftAfter(files: seq<Pfile>, n: nat, s: Setting, show: Param -> string, room: int): int
    requires n <= |files|
  {
    if n == 0 then room else LookedAt(files[n - 1], 0, s, show, LeftAfter(files, n - 1, s, show, room)).1
  }

  lemma LinesMore(all: seq<string>, n: nat)
    requires n < |all|
    ensures Lines(all[..n + 1]) == Lines(all[..n]) + ['\\', NEWLINE] + all[n]
  {
    assert all[..n + 1][..n] == all[..n];
  }

  lemma {:induction false} LinesGrow(all: seq<string>, m: nat, n: nat)
    requires m <= n <= |all|
    ensures |Lines(all[..m])| <= |Lines(all[..n])|
    decreases n
  {
    if m < n {
      LinesMore(all, n - 1);
      LinesGrow(all, m, n - 1);
    }
  }

  /** A longer list does not change how much there is room for, once there was no room. */
  lemma RoomStays(all: seq<string>, more: seq<string>, n: nat, room: int)
    requires Room(all, n, room) && n < |all|
    ensures Room(all + more, n, room)
  {
    assert (all + more)[..n] == all[..n] && (all + more)[..n + 1] == all[..n + 1];
  }

  /** The state of the message: of the assignments seen so far the first n are in it, and left is the room that
      is left, not positive once an assignment has been left out. */
  predicate Filled(all: seq<string>, n: nat, room: int, left: int, lines: string) {
    && Room(all, n, room) && lines == Lines(all[..n])
    && (if n == |all| then left == room - |lines| else left <= 0)
  }

  lemma FilledMore(all: seq<string>, n: nat, room: int, left: int, lines: string, a: string)
    requires Filled(all, n, room, left, lines)
    ensures n <= |all|
    ensures left - |a| - 2 <= 0 ==> Filled(all + [a], n, room, left - |a| - 2, lines)
    ensures left - |a| - 2 > 0 ==>
              Filled(all + [a], n + 1, room, left - |a| - 2, lines + ['\\', NEWLINE] + a)
  {
    var more := all + [a];
    assert more[..n] == all[..n];
    if n == |all| {
      LinesMore(more, n);
    } else {
      RoomStays(all, [a], n, room);
    }
  }

  /** Assignments that were passed over after there was no room are as if there had been no room for them. */
  lemma FilledSkips(all: seq<string>, n: nat, room: int, left: int, lines: string, more: seq<string>)
    requires Filled(all, n, room, left, lines) && n < |all|
    ensures Filled(all + more, n, room, left, lines)
  {
    RoomStays(all, more, n, room);
    assert (all + more)[..n] == all[..n];
  }

  method MakeAssignment(pset: Option<string>, p: Param, show: Param -> string) returns (buf: string)
    ensures buf == Assignment(pset, p, show)
  {
    var val := EscapeValue(show(p));
    var quote := if p.kind == IsString then "\"" else "";
    buf := (match pset case Some(name) => name + "." case None => "") + p.name + "=" + quote + val + quote;
  }

  lemma InFileStep(f: Pfile, i: nat, s: Setting, show: Param -> string, all: seq<string>)
    requires i < |f.params|
    ensures all + InFile(f, i + 1, s, show)
         == if Sendable(f.params[i], s) then (all + InFile(f, i, s, show)) + [Assignment(f.pset, f.params[i], show)]
            else all + InFile(f, i, s, show)
  {
  }

  /** The assignments after the one for which there was no room are left out. */
  lemma RestIsSkipped(f: Pfile, i: nat, s: Setting, show: Param -> string, all: seq<string>, n: nat, room: int,
                      left: int, lines: string)
    requires i <= |f.params| && Filled(all + InFile(f, i, s, show), n, room, left, lines)
             && n < |all + InFile(f, i, s, show)|
    ensures Filled(all + InFile(f, |f.params|, s, show), n, room, left, lines)
  {
    InFileMore(f, i, |f.params|, s, show);
    var whole, part := InFile(f, |f.params|, s, show), InFile(f, i, s, show);
    FilledSkips(all + part, n, room, left, lines, whole[|part|..]);
    assert all + part + whole[|part|..] == all + whole;
  }

  /** Add the assignments of a file, up to the first one for which there is no room. */
  method AddFile(f: Pfile, s: Setting, show: Param -> string, access: (Param, Operand) -> bool, lines: string,
                 left: int, ghost all: seq<string>, ghost n: nat, ghost room: int)
    returns (ok: bool, lines': string, left': int, ghost n': nat)
    requires Filled(all, n, room, left, lines)
             && forall i :: 0 <= i < |f.params| ==> Typed(f.params[i], f.params[i].value)
    ensures ok ==> Filled(all + InFile(f, |f.params|, s, show), n', room, left', lines')
    ensures ok <==> !FileFails(f, s, show, access, left)
    ensures ok ==> left' == LookedAt(f, 0, s, show, left).1
  {
    hide Filled, Sendable, Assignment, Typed, TestFails;
    ok, lines', left', n' := true, lines, left, n;
    var i := 0;
    assert all + InFile(f, 0, s, show) == all;
    while i < |f.params|
      invariant 0 <= i <= |f.params| && ok
      invariant LookedAt(f, i, s, show, left') == LookedAt(f, 0, s, show, left)
      invariant forall j :: 0 <= j < i ==> !TestFails(f.params[j], s, access)
      invariant Filled(all + InFile(f, i, s, show), n', room, left', lines')
    {
      hide InFile;
      var p := f.params[i];
      ghost var seen := all + InFile(f, i, s, show);
      InFileStep(f, i, s, show, all);
      var may := MayBeSent(p, s, access);
      if may == None {
        return false, lines', left', n';
      }
      if may.value {
        var buf := MakeAssignment(f.pset, p, show);
        FilledMore(seen, n', room, left', lines', buf);
        left' := left' - |buf| - 2;
        if left' <= 0 {
          RestIsSkipped(f, i + 1, s, show, all, n', room, left', lines');
          return;
        }
        lines', n' := lines' + ['\\', NEWLINE] + buf, n' + 1;
      }
      i := i + 1;
    }
  }

  lemma {:induction false} InFileMore(f: Pfile, i: nat, j: nat, s: Setting, show: Param -> string)
    requires i <= j <= |f.params|
    ensures InFile(f, i, s, show) <= InFile(f, j, s, show)
    decreases j
  {
    if i < j {
      InFileMore(f, i, j - 1, s, show);
    }
  }

  /** One of the parameters that are looked at in the first n files fails its test. */
  predicate SomeFails(files: seq<Pfile>, n: nat, s: Setting, show: Param -> string, access: (Param, Operand) -> bool,
                      room: int)
    requires n <= |files|
  {
    exists i :: 0 <= i < n && FileFails(files[i], s, show, access, LeftAfter(files, i, s, show, room))
  }

  lemma SomeFailsStep(files: seq<Pfile>, n: nat, s: Setting, show: Param -> string, access: (Param, Operand) -> bool,
                      room: int)
    requires n < |files|
    ensures var left := LeftAfter(files, n, s, show, room);
            && (SomeFails(files, n + 1, s, show, access, room)
                <==> SomeFails(files, n, s, show, access, room) || FileFails(files[n], s, show, access, left))
            && LeftAfter(files, n + 1, s, show, room) == LookedAt(files[n], 0, s, show, left).1
  {
    hide FileFails, LookedAt;
  }

  lemma {:induction false} SomeFailsMore(files: seq<Pfile>, n: nat, m: nat, s: Setting, show: Param -> string,
                                         access: (Param, Operand) -> bool, room: int)
    requires n <= m <= |files| && SomeFails(files, n, s, show, access, room)
    ensures SomeFails(files, m, s, show, access, room)
  {
    hide FileFails, LeftAfter;
  }

  lemma AssignmentsStep(files: seq<Pfile>, n: nat, s: Setting, show: Param -> string)
    requires n < |files|
    ensures Assignments(files[..n + 1], s, show)
         == Assignments(files[..n], s, show) + InFile(files[n], |files[n].params|, s, show)
  {
    assert files[..n + 1][..n] == files[..n];
  }

  lemma NothingFilled(files: seq<Pfile>, s: Setting, show: Param -> string, access: (Param, Operand) -> bool, room: int)
    ensures Filled(Assignments(files[..0], s, show), 0, room, room, "")
    ensures LeftAfter(files, 0, s, show, room) == room && !SomeFails(files, 0, s, show, access, room)
  {
    assert files[..0] == [];
  }

  lemma FilledFits(all: seq<string>, n: nat, room: int, left: int, lines: string)
    requires Filled(all, n, room, left, lines)
    ensures Room(all, n, room) && lines == Lines(all[..n]) && (room > 0 ==> |lines| < room)
  {
  }

  /** The command line for a task: the header, the assignments for which there is room, in order, and a newline.
      None if and only if a parameter that is looked at names a file without its attributes. */
  method StartupMessage(header: string, files: seq<Pfile>, s: Setting, show: Param -> string,
                        access: (Param, Operand) -> bool, maxch: int)
    returns (msg: Option<string>, ghost n: nat)
    requires forall i, k :: 0 <= i < |files| && 0 <= k < |files[i].params| ==>
               Typed(files[i].params[k], files[i].params[k].value)
    ensures msg == None <==> SomeFails(files, |files|, s, show, access, maxch - |header|)
    ensures msg.Some? ==> var all := Assignments(files, s, show);
                          Room(all, n, maxch - |header|) && msg.value == header + Lines(all[..n]) + [NEWLINE]
    ensures msg.Some? && |header| < maxch ==> |msg.value| <= maxch
  {
    hide FileFails, LookedAt, LeftAfter, SomeFails, Assignments, InFile, Filled, Room, Lines, Typed;
    var left, lines := maxch - |header|, "";
    n := 0;
    ghost var room := left;
    var i := 0;
    NothingFilled(files, s, show, access, room);
    while i < |files|
      invariant 0 <= i <= |files| && left == LeftAfter(files, i, s, show, room)
      invariant Filled(Assignments(files[..i], s, show), n, room, left, lines)
      invariant !SomeFails(files, i, s, show, access, room)
    {
      ghost var all := Assignments(files[..i], s, show);
      AssignmentsStep(files, i, s, show);
      SomeFailsStep(files, i, s, show, access, room);
      var ok;
      ok, lines, left, n := AddFile(files[i], s, show, access, lines, left, all, n, room);
      if !ok {
        SomeFailsMore(files, i + 1, |files|, s, show, access, room);
        return None, n;
      }
      i := i + 1;
    }
    assert files[..|files|] == files;
    FilledFits(Assignments(files, s, show), n, room, left, lines);
    return Some(header + lines + [NEWLINE]), n;
  }

  /** Whatever is passed of a parameter that is not local is a legal value. */
  lemma {:induction false} OnlyLegalIsSent(f: Pfile, n: nat, s: Setting, show: Param -> string, k: nat) returns (i: nat)
    requires n <= |f.params| && k < |InFile(f, n, s, show)|
    ensures i < n && InFile(f, n, s, show)[k] == Assignment(f.pset, f.params[i], show)
    ensures !f.params[i].value.undef && !f.params[i].isArray && !f.params[i].isList
    ensures f.params[i].isLocal || Legal(f.params[i], f.params[i].value)
    decreases n
  {
    if k < |InFile(f, n - 1, s, show)| {
      i := OnlyLegalIsSent(f, n - 1, s, show, k);
    } else {
      i := n - 1;
    }
  }

  // ---- What is sent.

  /** Values that start a reference to another parameter. */
  predicate IsIndirect(p: Param) {
    p.kind == IsString && p.value.v.Str? && p.value.v.s != "" && p.value.v.s[0] == ')'
  }

  /** What may be passed: a value of its own, no list or array, and local or legal with no query wanted by the first
      level that decides. */
  lemma SentIs(p: Param, s: Setting)
    requires Decides(p.mode, s) || Decides(s.task, s)
    ensures Sendable(p, s) <==>
              && !p.value.undef && !IsIndirect(p) && !p.isArray && !p.isList
              && (|| p.isLocal
                  || (Legal(p, p.value) && !Asks(if Decides(p.mode, s) then p.mode else s.task, p, s)))
  {
    QueryIs(p, s);
  }

  lemma SentByOuter(p: Param, s: Setting)
    requires !Decides(p.mode, s) && !Decides(s.task, s)
    ensures Sendable(p, s) <==>
              && !p.value.undef && !IsIndirect(p) && !p.isArray && !p.isList
              && (|| p.isLocal
                  || (Legal(p, p.value) && !Asks(if Decides(s.package, s) then s.package else s.cl, p, s)))
  {
    QueryIs(p, s);
  }

  /** Every parameter that may be passed has its assignment in the list, behind those of the parameters before it,
      and there is nothing else. */
  lemma {:induction false} SentInOrder(f: Pfile, n: nat, i: nat, s: Setting, show: Param -> string)
    requires i < n <= |f.params|
    ensures InFile(f, i, s, show) <= InFile(f, n, s, show)
    ensures Sendable(f.params[i], s) ==>
              |InFile(f, i, s, show)| < |InFile(f, n, s, show)|
              && InFile(f, n, s, show)[|InFile(f, i, s, show)|] == Assignment(f.pset, f.params[i], show)
    ensures |InFile(f, n, s, show)| == |set k | 0 <= k < n && Sendable(f.params[k], s)|
    decreases n
  {
    hide Sendable, Assignment;
    CountSent(f, n, s, show);
    if i < n - 1 { SentInOrder(f, n - 1, i, s, show); }
  }

  lemma {:induction false} CountSent(f: Pfile, n: nat, s: Setting, show: Param -> string)
    requires n <= |f.params|
    ensures |InFile(f, n, s, show)| == |set k | 0 <= k < n && Sendable(f.params[k], s)|
  {
    hide Sendable, Assignment;
    var sent := set k | 0 <= k < n && Sendable(f.params[k], s);
    if n > 0 {
      CountSent(f, n - 1, s, show);
      var before := set k | 0 <= k < n - 1 && Sendable(f.params[k], s);
      assert sent == if Sendable(f.params[n - 1], s) then before + {n - 1} else before;
    } else {
      assert sent == {};
    }
  }

  /** The files follow each other. */
  lemma {:induction false} FilesInOrder(files: seq<Pfile>, i: nat, s: Setting, show: Param -> string)
    requires i < |files|
    ensures Assignments(files[..i], s, show) + InFile(files[i], |files[i].params|, s, show)
            <= Assignments(files, s, show)
    decreases |files|
  {
    hide InFile;
    var n := |files| - 1;
    if i < n {
      FilesInOrder(files[..n], i, s, show);
      assert files[..n][..i] == files[..i];
    }
  }

  lemma LinesSnoc(a: seq<string>, x: string)
    ensures Lines(a + [x]) == Lines(a) + "\\\n" + x && Lines([]) == ""
  {
    assert (a + [x])[..|a|] == a;
  }

  /** Each assignment comes behind a backslash and a newline. */
  lemma {:induction false} LinesAre(a: seq<string>, b: seq<string>)
    ensures Lines(a + b) == Lines(a) + Lines(b) && Lines([]) == ""
    ensures |b| == 1 ==> Lines(b) == "\\\n" + b[0]
    decreases |b|
  {
    hide Lines;
    LinesSnoc([], "");
    if b == [] {
      assert a + b == a;
    } else {
      var front, last := b[..|b| - 1], b[|b| - 1];
      LinesAre(a, front);
      LinesSnoc(front, last);
      LinesSnoc(a + front, last);
      assert front + [last] == b && (a + front) + [last] == a + b;
      Regroup(Lines(a), Lines(front), "\\\n", last);
      if |b| == 1 { assert front == [] && "" + "\\\n" + last == "\\\n" + last; }
    }
  }

  lemma Regroup(x: string, y: string, z: string, w: string)
    ensures (x + y) + z + w == x + (y + z + w)
  {
  }

  /** Newlines and quotes get a backslash, character by character. */
  lemma {:induction false} EscapesJoin(a: string, b: string)
    ensures Escaped(a + b) == Escaped(a) + Escaped(b)
    decreases |b|
  {
    var ab := a + b;
    if b == "" {
      assert ab == a;
    } else {
      var front := b[..|b| - 1];
      EscapesJoin(a, front);
      assert ab[..|ab| - 1] == a + front && ab[|ab| - 1] == b[|b| - 1];
    }
  }

  lemma EscapeIs(c: char)
    ensures Escaped("") == "" && Escaped([c]) == if c == '\n' then "\\n" else if c == '"' then "\\\"" else [c]
  {
    assert [c][..0] == "";
  }

  /** Reading a backslash together with the character behind it. */
  function Unescaped(s: string): string {
    if |s| < 2 then s
    else if s[0] == '\\' then [if s[1] == 'n' then '\n' else s[1]] + Unescaped(s[2..])
    else [s[0]] + Unescaped(s[1..])
  }

  /** A value without backslashes can be read back. */
  lemma {:induction false} EscapedIsRead(val: string)
    requires '\\' !in val
    ensures Unescaped(Escaped(val)) == val
    decreases |val|
  {
    if val != "" {
      var c, rest := val[0], val[1..];
      assert val == [c] + rest;
      EscapesJoin([c], rest);
      EscapeIs(c);
      EscapedIsRead(rest);
      hide Escaped;
      if c == '\n' || c == '"' {
        assert Escaped(val)[2..] == Escaped(rest);
      } else {
        assert Escaped(val) == [c] + Escaped(rest) && Escaped(val)[1..] == Escaped(rest);
      }
    }
  }

  /** What an assignment looks like. */
  lemma AssignmentIs(name: string, p: Param, show: Param -> string)
    ensures p.kind != IsString ==> Assignment(None, p, show) == p.name + "=" + Escaped(show(p))
    ensures p.kind == IsString ==> Assignment(None, p, show) == p.name + "=" + "\"" + Escaped(show(p)) + "\""
    ensures Assignment(Some(name), p, show) == name + "." + Assignment(None, p, show)
  {
    assert "" + p.name == p.name;
  }
}
