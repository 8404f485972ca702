/** String arithmetic: a string plus an integer, and the search for the last occurrence of a string. */
module StringInt {
  import opened Options

  predicate IsDigit(c: char) {
    '0' <= c <= '9'
  }

  predicate AllDigits(s: string) {
    forall i :: 0 <= i < |s| ==> IsDigit(s[i])
  }

  // ---- Decimal numbers.

  function DigitOf(n: nat): (c: char)
    requires n < 10
    ensures IsDigit(c) && ValueOf(c) == n
  {
    n as char + '0'
  }

  function ValueOf(c: char): nat
    requires IsDigit(c)
  {
    (c - '0') as nat
  }

  function Digits(n: nat): (s: string)
    ensures AllDigits(s) && s != []
  {
    if n < 10 then [DigitOf(n)] else Digits(n / 10) + [DigitOf(n % 10)]
  }

  function Value(s: string): nat
    requires AllDigits(s)
  {
    if s == [] then 0 else 10 * Value(s[..|s| - 1]) + ValueOf(s[|s| - 1])
  }

  function Zeros(n: nat): (s: string)
    ensures |s| == n && AllDigits(s) && forall i :: 0 <= i < n ==> s[i] == '0'
  {
    if n == 0 then [] else Zeros(n - 1) + ['0']
  }

  /** A number with zeros in front, at least w characters. */
  function Padded(n: nat, w: nat): (s: string)
    ensures AllDigits(s) && |s| == if |Digits(n)| >= w then |Digits(n)| else w
  {
    var d := Digits(n);
    if |d| >= w then d else Zeros(w - |d|) + d
  }

  /** The last k characters are digits, and the one before is not. */
  predicate IsTail(s: string, k: nat) {
    k <= |s| && AllDigits(s[|s| - k..]) && (k < |s| ==> !IsDigit(s[|s| - k - 1]))
  }

  /** The number of characters at the end that are digits. */
  function Tail(s: string): (k: nat)
    ensures k <= |s| && IsTail(s, k)
  {
    if s == [] || !IsDigit(s[|s| - 1]) then 0
    else
      var k := Tail(s[..|s| - 1]);
      assert s[|s| - (k + 1)..] == s[..|s| - 1][|s| - 1 - k..] + [s[|s| - 1]];
      k + 1
  }

  function Prefix(s: string): string {
    s[..|s| - Tail(s)]
  }

  function Number(s: string): (d: string)
    ensures AllDigits(d) && Prefix(s) + d == s
  {
    s[|s| - Tail(s)..]
  }

  /** How `%d` prints an integer. */
  function Printed(n: int): string {
    if n >= 0 then Digits(n) else ['-'] + Digits(-n)
  }

  /** A string plus an integer: the number at its end grows, or the integer is appended; None is the error
      of a negative number. */
  function Plus(s: string, n: int): Option<string> {
    if Tail(s) == 0 then Some(s + Printed(n))
    else
      var sum := Value(Number(s)) + n;
      if sum < 0 then None else Some(Prefix(s) + Padded(sum, Tail(s)))
  }

  // ---- Laws of printing and reading.

  lemma {:induction false} ValueOfDigits(n: nat)
    ensures Value(Digits(n)) == n
  {
    if n >= 10 {
      ValueOfDigits(n / 10);
      assert Digits(n)[..|Digits(n)| - 1] == Digits(n / 10);
    }
  }

  lemma ValueMore(s: string, c: char)
    requires AllDigits(s) && IsDigit(c)
    ensures AllDigits(s + [c]) && Value(s + [c]) == 10 * Value(s) + ValueOf(c)
  {
    assert (s + [c])[..|s|] == s;
  }

  lemma {:induction false} ZerosAreZero(k: nat)
    ensures Value(Zeros(k)) == 0
  {
    hide Value, IsDigit;
    if k == 0 {
      NoValue();
    } else {
      ZerosAreZero(k - 1);
      ZeroDigit();
      ValueMore(Zeros(k - 1), '0');
    }
  }

  lemma ZeroDigit()
    ensures IsDigit('0') && ValueOf('0') == 0
  {
  }

  lemma {:induction false} ValueOfZeros(k: nat, d: string)
    requires AllDigits(d)
    ensures AllDigits(Zeros(k) + d) && Value(Zeros(k) + d) == Value(d)
    decreases |d|
  {
    hide Value, Zeros, ValueOf;
    if d == [] {
      assert Zeros(k) + d == Zeros(k);
      ZerosAreZero(k);
      NoValue();
    } else {
      var front, c := d[..|d| - 1], d[|d| - 1];
      ValueOfZeros(k, front);
      ValueMore(front, c);
      ValueMore(Zeros(k) + front, c);
      assert (Zeros(k) + front) + [c] == Zeros(k) + d && front + [c] == d;
    }
  }

  lemma ValueOfPadded(n: nat, w: nat)
    ensures Value(Padded(n, w)) == n
  {
    hide Value, Digits, Zeros, AllDigits;
    var d := Digits(n);
    ValueOfDigits(n);
    if |d| < w {
      ValueOfZeros(w - |d|, d);
    }
  }

  /** A greater number has no fewer digits. */
  lemma {:induction false} DigitsGrow(m: nat, n: nat)
    requires m <= n
    ensures |Digits(m)| <= |Digits(n)|
    decreases n
  {
    if m >= 10 {
      DigitsGrow(m / 10, n / 10);
    }
  }

  lemma {:induction false} TailLength(p: string, d: string)
    requires AllDigits(d) && (p == [] || !IsDigit(p[|p| - 1]))
    ensures Tail(p + d) == |d|
    decreases |d|
  {
    hide IsTail, IsDigit, Value;
    var s := p + d;
    if d == [] {
      assert s == p;
    } else {
      DigitsFirst(d);
      assert s[..|s| - 1] == p + d[..|d| - 1] && s[|s| - 1] == d[|d| - 1];
      TailLength(p, d[..|d| - 1]);
    }
  }

  lemma DigitsFirst(d: string)
    requires AllDigits(d) && d != []
    ensures AllDigits(d[..|d| - 1]) && IsDigit(d[|d| - 1])
  {
  }

  /** The end of the sum is the new number. */
  lemma TailOfSum(p: string, d: string)
    requires AllDigits(d) && (p == [] || !IsDigit(p[|p| - 1]))
    ensures Tail(p + d) == |d| && Prefix(p + d) == p && Number(p + d) == d
  {
    hide Tail, AllDigits, IsDigit;
    TailLength(p, d);
  }

  lemma DigitValues()
    ensures ValueOf('0') == 0 && ValueOf('1') == 1 && ValueOf('2') == 2 && ValueOf('3') == 3 && ValueOf('4') == 4
    ensures ValueOf('5') == 5 && ValueOf('6') == 6 && ValueOf('7') == 7 && ValueOf('8') == 8 && ValueOf('9') == 9
    ensures forall n: nat :: n < 10 ==> DigitOf(n) == "0123456789"[n]
  {
  }

  /** The next file name. */
  lemma NextNames()
    ensures Plus("im099", 1) == Some("im100") && Plus("im07", 5) == Some("im12") && Plus("x", 42) == Some("x42")
    ensures Plus("x", -3) == Some("x-3") && Plus("b2", -5) == None
  {
    ValuesIn();
    DigitsIn();
    hide Tail, Digits, Value, Padded, Printed, Prefix, Number, Plus;
    EndedSum("im", "099", 1);
    EndedSum("im", "07", 5);
    EndedSum("b", "2", -5);
    EndedSum("x", "", 42);
    EndedSum("x", "", -3);
    assert "im" + "099" == "im099" && "im" + "07" == "im07" && "x" + "" == "x" && "b" + "2" == "b2";
    assert "im" + "100" == "im100" && "im" + "12" == "im12" && "x" + "42" == "x42" && "x" + "-3" == "x-3";
  }

  lemma EndedSum(p: string, d: string, n: int)
    requires AllDigits(d) && (p == [] || !IsDigit(p[|p| - 1]))
    ensures Plus(p + d, n)
         == if d == "" then Some(p + Printed(n))
            else if Value(d) + n < 0 then None else Some(p + Padded(Value(d) + n, |d|))
  {
    hide Tail, Digits, Value, Padded, Printed, AllDigits;
    TailOfSum(p, d);
    if d == "" { assert p + d == p; }
  }

  lemma DigitsIn()
    ensures Padded(100, 3) == "100" && Padded(12, 2) == "12" && Printed(42) == "42" && Printed(-3) == "-3"
  {
    assert Digits(1) == "1" && Digits(4) == "4" && Digits(3) == "3";
    assert Digits(10) == Digits(1) + ['0'] && Digits(12) == Digits(1) + ['2'] && Digits(42) == Digits(4) + ['2'];
    assert Digits(100) == Digits(10) + ['0'];
  }

  lemma ValuesIn()
    ensures Value("099") == 99 && Value("07") == 7 && Value("2") == 2
  {
    assert "099"[..2] == "09" && "09"[..1] == "0" && "0"[..0] == "" && "07"[..1] == "0" && "2"[..0] == "";
    assert Value("") == 0;
    assert Value("0") == 0;
    assert Value("09") == 9;
  }

  lemma PrefixEnds(s: string)
    ensures var p := Prefix(s); p == [] || !IsDigit(p[|p| - 1])
  {
  }

  lemma NoValue()
    ensures Value("") == 0
  {
  }

  /** What a sum looks like: its prefix is the old one, its number has grown by the addend, and it has no
      fewer digits. */
  lemma PlusMeans(s: string, n: int)
    requires n >= 0 || (Tail(s) > 0 && Value(Number(s)) + n >= 0)
    ensures Plus(s, n).Some?
    ensures var r := Plus(s, n).value;
            && Prefix(r) == Prefix(s) && Tail(r) >= Tail(s)
            && Value(Number(r)) == Value(Number(s)) + n
  {
    hide Value, Digits, Zeros, Padded, Tail;
    NoValue();
    PrefixEnds(s);
    var v := Value(Number(s)) + n;
    if Tail(s) == 0 {
      assert Number(s) == [] && Prefix(s) == s;
      TailOfSum(s, Digits(n));
      ValueOfDigits(n);
    } else {
      TailOfSum(Prefix(s), Padded(v, Tail(s)));
      ValueOfPadded(v, Tail(s));
    }
  }

  /** A sum: the prefix stays, the number at the end grows by n, and its digits do not get fewer. */
  predicate IsSum(s: string, n: int, r: string) {
    Prefix(r) == Prefix(s) && Tail(r) >= Tail(s) && Value(Number(r)) == Value(Number(s)) + n
  }

  ghost predicate IsShortestSum(s: string, n: int, r: string) {
    IsSum(s, n, r) && forall t :: IsSum(s, n, t) ==> |r| <= |t|
  }

  /** Digits of the same number and length are the same. */
  lemma {:induction false} ValueUnique(d: string, e: string)
    requires AllDigits(d) && AllDigits(e) && |d| == |e| && Value(d) == Value(e)
    ensures d == e
    decreases |d|
  {
    if d != [] {
      var d', e', i, j := d[..|d| - 1], e[..|e| - 1], d[|d| - 1], e[|e| - 1];
      TenTimes(Value(d'), ValueOf(i), Value(e'), ValueOf(j));
      ValueUnique(d', e');
      assert d == d' + [i] && e == e' + [j];
    }
  }

  lemma TenTimes(x: nat, i: nat, y: nat, j: nat)
    requires 10 * x + i == 10 * y + j && i < 10 && j < 10
    ensures x == y && i == j
  {
  }

  /** A number is not printed with more digits than it is given with. */
  lemma {:induction false} DigitsOfValue(d: string)
    requires AllDigits(d) && d != []
    ensures |Digits(Value(d))| <= |d|
    decreases |d|
  {
    var front := d[..|d| - 1];
    NoValue();
    if Value(d) >= 10 {
      DigitsOfValue(front);
      TenTimes(Value(d) / 10, Value(d) % 10, Value(front), ValueOf(d[|d| - 1]));
    }
  }

  /** For a string with a number at its end, the result is the shortest string that is a sum; the error is
      exactly that no string is one. */
  lemma PlusIsShortest(s: string, n: int)
    requires Tail(s) > 0
    ensures Plus(s, n) == None <==> forall r :: !IsSum(s, n, r)
    ensures forall r :: Plus(s, n) == Some(r) <==> IsShortestSum(s, n, r)
  {
    hide Value, Digits, Zeros, Padded, Tail, AllDigits;
    if Value(Number(s)) + n >= 0 {
      var sum := Plus(s, n).value;
      PlusMeans(s, n);
      assert IsSum(s, n, sum);
      forall t | IsSum(s, n, t) ensures |sum| <= |t| {
        SumIsLong(s, n, t);
      }
      forall r | IsShortestSum(s, n, r) ensures r == sum {
        SumIsLong(s, n, r);
        SumUnique(s, n, r, sum);
      }
    }
  }

  lemma SumIsLong(s: string, n: int, t: string)
    requires Tail(s) > 0 && IsSum(s, n, t)
    ensures Plus(s, n).Some? && |Plus(s, n).value| <= |t|
  {
    hide Value, Digits, Zeros, Tail, AllDigits;
    assert t == Prefix(t) + Number(t);
    DigitsOfValue(Number(t));
  }

  lemma SumUnique(s: string, n: int, r: string, t: string)
    requires IsSum(s, n, r) && IsSum(s, n, t) && |r| == |t|
    ensures r == t
  {
    hide Value, Digits, Tail, AllDigits;
    assert r == Prefix(r) + Number(r) && t == Prefix(t) + Number(t);
    ValueUnique(Number(r), Number(t));
  }

  /** A prefix and a number at the end. */
  predicate IsSplit(p: string, d: string) {
    AllDigits(d) && d != [] && (p == [] || !IsDigit(p[|p| - 1]))
  }

  /** The sum, for a string given as its prefix and its number. */
  lemma PlusOf(p: string, d: string, n: int)
    requires IsSplit(p, d)
    ensures AllDigits(d)
    ensures Plus(p + d, n) == if Value(d) + n < 0 then None else Some(p + Padded(Value(d) + n, |d|))
  {
    hide Value, Padded, Tail;
    TailOfSum(p, d);
  }

  /** Where the width is exceeded anyway it does not matter. */
  lemma PaddedWider(n: nat, m: nat, w: nat)
    requires m <= n
    ensures Padded(n, |Padded(m, w)|) == Padded(n, w)
    ensures w <= |Digits(n)| ==> Padded(n, w) == Digits(n)
  {
    DigitsGrow(m, n);
  }

  /** The sum, for a string without a number. */
  lemma PlusAppends(s: string, n: nat)
    requires Tail(s) == 0
    ensures Plus(s, n) == Some(s + Digits(n)) && (s == [] || !IsDigit(s[|s| - 1]))
  {
    PrefixEnds(s);
    assert Prefix(s) == s;
  }

  lemma PlusOnce(p: string, d: string, n: int) returns (mid: string)
    requires IsSplit(p, d) && Value(d) + n >= 0
    ensures IsSplit(p, mid) && mid == Padded(Value(d) + n, |d|) && Value(mid) == Value(d) + n
            && Plus(p + d, n) == Some(p + mid)
  {
    hide Plus, Padded, Tail, Digits, Zeros;
    mid := Padded(Value(d) + n, |d|);
    ValueOfPadded(Value(d) + n, |d|);
    PlusOf(p, d, n);
  }

  lemma PlusAgain(p: string, d: string, a: nat, b: nat)
    requires IsSplit(p, d)
    ensures Plus(p + d, a).Some? && Plus(Plus(p + d, a).value, b) == Plus(p + d, a + b)
  {
    hide Plus, Padded, Tail, Digits, Zeros, AllDigits, IsDigit, IsSplit;
    var mid := PlusOnce(p, d, a);
    var last := PlusOnce(p, mid, b);
    var whole := PlusOnce(p, d, a + b);
    PlusOf(p, d, a);
    PaddedWider(Value(d) + a + b, Value(d) + a, |d|);
  }

  /** Adding is an action: adding two numbers one after the other is adding their sum. */
  lemma PlusIsAction(s: string, a: nat, b: nat)
    ensures Plus(s, a).Some? && Plus(Plus(s, a).value, b) == Plus(s, a + b)
  {
    hide Plus, Value, Padded, Tail, Digits, Zeros, AllDigits, IsDigit;
    if Tail(s) == 0 {
      TextTwice(s, a, b);
      DigitsGrow(a, a + b);
    } else {
      var p, d := Parts(s);
      PlusAgain(p, d, a, b);
    }
  }

  /** Texts that do not end in a number, followed by one. */
  lemma SplitText(s: string, n: nat)
    requires Tail(s) == 0
    ensures IsSplit(s, Digits(n)) && IsSplit(s + ['-'], Digits(n))
  {
    hide Digits;
    PrefixEnds(s);
    assert Prefix(s) == s;
  }

  lemma Parts(s: string) returns (p: string, d: string)
    requires Tail(s) > 0
    ensures s == p + d && IsSplit(p, d) && d == Number(s) && |d| == Tail(s)
  {
    PrefixEnds(s);
    p, d := Prefix(s), Number(s);
  }

  /** Adding one number after the other, unless the first sum is an error already. */
  function Twice(s: string, a: int, b: int): Option<string> {
    match Plus(s, a)
    case None => None
    case Some(r) => Plus(r, b)
  }

  /** Whether adding any two integers one after the other is adding their sum, for a string with a number v at
      its end: if one of the sums is an error, exactly if the last one is; otherwise exactly if the number
      between needs no more digits than the old one has or the last one needs. */
  lemma PlusTwice(s: string, a: int, b: int)
    requires Tail(s) > 0
    ensures var v := Value(Number(s));
            Twice(s, a, b) == Plus(s, a + b)
            <==> if v + a < 0 || v + a + b < 0 then v + a + b < 0
                 else |Digits(v + a)| <= Tail(s) || |Digits(v + a)| <= |Digits(v + a + b)|
  {
    hide Plus, Value, Padded, Tail, Digits, Zeros, AllDigits, IsDigit, Number, IsSplit;
    var p, d := Parts(s);
    var v := Value(d);
    PlusOf(p, d, a);
    PlusOf(p, d, a + b);
    if v + a >= 0 {
      var mid := PlusOnce(p, d, a);
      PlusOf(p, mid, b);
      if v + a + b >= 0 {
        var last := PlusOnce(p, mid, b);
        var whole := PlusOnce(p, d, a + b);
        SamePrefix(p, last, whole);
        SameWidth(v + a + b, |mid|, |d|);
      }
    }
  }

  /** The same for a string without a number at its end: a first number that is not negative becomes one,
      which must not get shorter or negative; the minus sign of a negative one belongs to the text, so that
      nothing but 0 may follow. */
  lemma TextTwice(s: string, a: int, b: int)
    requires Tail(s) == 0
    ensures Plus(s, a).Some?
    ensures Twice(s, a, b) == Plus(s, a + b)
            <==> (a >= 0 && a + b >= 0 && |Digits(a)| <= |Digits(a + b)|) || (a < 0 && b == 0)
  {
    hide *;
    PlusText(s, a);
    if a >= 0 {
      NumberOnText(s, a, b, a + b);
    } else {
      MinusOnText(s, a, b, a + b);
    }
  }

  /** Two sums with the same beginning. */
  lemma SameSum(x: Option<string>, y: Option<string>, p: string, m: string, n: string)
    requires x == Some(p + m) && y == Some(p + n)
    ensures x == y <==> m == n
  {
    SamePrefix(p, m, n);
  }

  /** Adding b to the printed form of a number gives c. */
  lemma PlusNumber(p: string, n: nat, b: int, c: int, r: Option<string>)
    requires IsSplit(p, Digits(n)) && r == Plus(p + Digits(n), b) && c == n + b
    ensures r == if c < 0 then None else Some(p + Padded(c, |Digits(n)|))
  {
    hide Value, Digits, Zeros, AllDigits, IsDigit, Tail, Plus, Padded, IsSplit;
    var d := Digits(n);
    ValueOfDigits(n);
    PlusOf(p, d, b);
    assert Value(d) + b == c;
  }

  lemma TwiceOf(s: string, a: int, b: int, r: string)
    requires Plus(s, a) == Some(r)
    ensures Twice(s, a, b) == Plus(r, b)
  {
  }

  lemma NumberOnText(s: string, a: nat, b: int, c: int)
    requires Tail(s) == 0 && c == a + b
    ensures Twice(s, a, b) == Plus(s, c) <==> c >= 0 && |Digits(a)| <= |Digits(c)|
  {
    hide *;
    PlusAppends(s, a);
    SplitText(s, a);
    var r := s + Digits(a);
    var x, y := Plus(r, b), Plus(s, c);
    PlusNumber(s, a, b, c, x);
    TwiceOf(s, a, b, r);
    if c >= 0 {
      PlusAppends(s, c);
      PaddedExactly(c, |Digits(a)|);
      SameSum(x, y, s, Padded(c, |Digits(a)|), Digits(c));
    } else {
      PlusText(s, c);
    }
  }

  lemma PlusText(s: string, n: int)
    requires Tail(s) == 0
    ensures Plus(s, n) == Some(s + Printed(n))
  {
  }

  lemma MinusOnText(s: string, a: int, b: int, c: int)
    requires Tail(s) == 0 && a < 0 && c == a + b
    ensures Twice(s, a, b) == Plus(s, c) <==> b == 0
  {
    hide *;
    var n, e := -a, b - a;
    PlusText(s, a);
    PlusText(s, c);
    SplitText(s, n);
    MinusPrinted(s, n);
    var p := s + ['-'];
    var r := p + Digits(n);
    var x, y := Plus(r, b), Plus(s, c);
    PlusNumber(p, n, b, e, x);
    TwiceOf(s, a, b, r);
    if e >= 0 {
      var last := Padded(e, |Digits(n)|);
      var minus := ['-'] + last;
      assert p + last == s + minus;
      SameSum(x, y, s, minus, Printed(c));
      MinusPart(n, e, c, b, last);
    }
  }

  /** What is printed for a sum, and what adding leaves behind the minus sign. */
  lemma MinusPart(n: nat, e: nat, c: int, b: int, last: string)
    requires n > 0 && e == n + b && c == b - n && last == Padded(e, |Digits(n)|)
    ensures ['-'] + last == Printed(c) <==> b == 0
  {
    hide Value, Digits, Zeros, AllDigits, IsDigit, Padded;
    if c < 0 {
      var m := -c;
      var d := Digits(m);
      SamePrefix(['-'], last, d);
      ValueOfPadded(e, |Digits(n)|);
      ValueOfDigits(m);
      assert Value(last) == e && Value(d) == m;
      PaddedExactly(e, |Digits(n)|);
    } else {
      NoMinus(c);
      assert (['-'] + last)[0] == '-';
    }
  }

  lemma MinusPrinted(s: string, n: int)
    requires n > 0
    ensures s + Printed(-n) == (s + ['-']) + Digits(n)
  {
    hide Digits;
  }

  lemma NoMinus(n: nat)
    ensures Digits(n)[0] != '-' && Printed(n) == Digits(n)
  {
    assert IsDigit(Digits(n)[0]);
  }

  lemma PaddedExactly(n: nat, w: nat)
    ensures Padded(n, w) == Digits(n) <==> w <= |Digits(n)|
  {
  }

  lemma SamePrefix(p: string, x: string, y: string)
    ensures p + x == p + y <==> x == y
  {
    assert (p + x)[|p|..] == x && (p + y)[|p|..] == y;
  }

  lemma SameWidth(n: nat, v: nat, w: nat)
    ensures |Padded(n, v)| == |Padded(n, w)| ==> Padded(n, v) == Padded(n, w)
  {
  }

  /** With negative numbers it is not: taking away what was added can leave a zero in front, */
  lemma TakingAwayLeavesZero()
    ensures Plus("x9", 1) == Some("x10") && Plus("x10", -1) == Some("x09") && Plus("x9", 0) == Some("x9")
  {
    hide Value, Padded, Tail, Digits, Zeros, Plus;
    SmallNumbers();
    PlusOf("x", "9", 1);
    PlusOf("x", "10", -1);
    PlusOf("x", "9", 0);
    assert "x9" == "x" + "9" && "x10" == "x" + "10" && "x" + "09" == "x09";
  }

  /** and a minus sign is not part of the number at the end. */
  lemma MinusIsNotRead()
    ensures Plus("x", -5) == Some("x-5") && Plus("x-5", 3) == Some("x-8") && Plus("x", -2) == Some("x-2")
  {
    hide Value, Padded, Digits, Zeros;
    SmallNumbers();
    PlusOf("x-", "5", 3);
    assert "x-5" == "x-" + "5" && "x-" + "8" == "x-8" && "x" + "-2" == "x-2" && "x" + "-5" == "x-5";
  }

  lemma SmallNumbers()
    ensures Value("9") == 9 && Value("10") == 10 && Value("5") == 5
    ensures Padded(10, 1) == "10" && Padded(9, 2) == "09" && Padded(9, 1) == "9" && Padded(8, 1) == "8"
    ensures Printed(-5) == "-5" && Printed(-2) == "-2"
  {
    assert "10"[..1] == "1" && "1"[..0] == "" && "9"[..0] == "" && "5"[..0] == "";
    assert Digits(10) == Digits(1) + [DigitOf(0)] == "10";
    assert Digits(9) == "9" && Digits(8) == "8" && Digits(5) == "5" && Digits(2) == "2";
    assert Zeros(1) == Zeros(0) + ['0'] == "0";
  }

  // ---- The loops.

  /** Where the digits at the end of s begin, None if there are none. */
  method StrInt(s: string) returns (at: Option<nat>)
    ensures at == if Tail(s) == 0 then None else Some(|s| - Tail(s))
  {
    hide Tail, IsTail;
    var k := |s|;
    assert s[..k] == s;
    while k > 0 && IsDigit(s[k - 1])
      invariant 0 <= k <= |s| && Tail(s) == |s| - k + Tail(s[..k])
    {
      TailStep(s, k);
      k := k - 1;
    }
    TailStep(s, k);
    return if k == |s| then None else Some(k);
  }

  lemma TailStep(s: string, k: nat)
    requires k <= |s|
    ensures Tail(s[..k]) == if k == 0 || !IsDigit(s[k - 1]) then 0 else Tail(s[..k - 1]) + 1
  {
    if k > 0 { assert s[..k][..k - 1] == s[..k - 1]; }
  }

  /** Crack a string of digits. */
  method Atoi(d: string) returns (n: nat)
    requires AllDigits(d)
    ensures n == Value(d)
  {
    n := 0;
    assert d[..|d|] == d;
    for k := 0 to |d|
      invariant n == Value(d[..k])
    {
      assert d[..k + 1][..k] == d[..k];
      n := 10 * n + ValueOf(d[k]);
    }
  }

  /** Print a number, with zeros in front up to w characters. */
  method Format(n: nat, w: nat) returns (s: string)
    ensures s == Padded(n, w)
  {
    s := [];
    var rest := n;
    while rest >= 10
      invariant Digits(n) == Digits(rest) + s
    {
      s := [DigitOf(rest % 10)] + s;
      rest := rest / 10;
    }
    s := [DigitOf(rest)] + s;
    ghost var digits := s;
    while |s| < w
      invariant |digits| <= |s| && (|s| <= w || s == digits) && s == Zeros(|s| - |digits|) + digits
    {
      ZeroInFront(|s| - |digits|);
      s := ['0'] + s;
    }
  }

  lemma {:induction false} ZeroInFront(k: nat)
    ensures ['0'] + Zeros(k) == Zeros(k + 1)
  {
    if k > 0 {
      ZeroInFront(k - 1);
    }
  }

  method AddInt(s: string, n: int) returns (r: Option<string>)
    ensures r == Plus(s, n)
  {
    var cp := StrInt(s);
    if cp.Some? {
      var v := Atoi(s[cp.value..]);
      var newnum := v + n;
      if newnum < 0 {
        return None;
      }
      var d := Format(newnum, |s| - cp.value);
      return Some(s[..cp.value] + d);
    }
    var d := Format(if n >= 0 then n else -n, 0);
    return Some(s + if n >= 0 then d else ['-'] + d);
  }

  // ---- The last occurrence of a string.

  predicate Occurs(pattern: string, text: string, k: nat) {
    k + |pattern| <= |text| && text[k..k + |pattern|] == pattern
  }

  /** One more than the place of the last occurrence of a string in another one, 0 if there is none; an empty
      string occurs at the beginning. */
  method LastOccurrence(pattern: string, text: string) returns (index: int)
    ensures pattern == [] ==> index == 1
    ensures pattern != [] && index == 0 ==> forall k :: 0 <= k <= |text| ==> !Occurs(pattern, text, k)
    ensures pattern != [] && index != 0 ==>
              && 0 < index <= |text| && Occurs(pattern, text, index - 1)
              && forall k :: index <= k <= |text| ==> !Occurs(pattern, text, k)
  {
    if pattern == [] {
      return 1;
    }
    var ip := |text| - 1;
    while ip >= 0
      invariant -1 <= ip < |text|
      invariant forall k :: ip < k <= |text| ==> !Occurs(pattern, text, k)
    {
      if text[ip] == pattern[0] {
        var n := 0;
        while n < |pattern| && ip + n < |text| && pattern[n] == text[ip + n]
          invariant 0 <= n <= |pattern| && ip + n <= |text| && text[ip..ip + n] == pattern[..n]
        {
          MatchMore(pattern, text, ip, n);
          n := n + 1;
        }
        if n == |pattern| {
          return ip + 1;
        }
        Mismatch(pattern, text, ip, n);
      } else {
        Mismatch(pattern, text, ip, 0);
      }
      ip := ip - 1;
    }
    return 0;
  }

  lemma MatchMore(pattern: string, text: string, k: nat, n: nat)
    requires n < |pattern| && k + n < |text| && pattern[n] == text[k + n] && text[k..k + n] == pattern[..n]
    ensures text[k..k + n + 1] == pattern[..n + 1]
  {
    assert text[k..k + n + 1] == text[k..k + n] + [text[k + n]] && pattern[..n + 1] == pattern[..n] + [pattern[n]];
  }

  lemma Mismatch(pattern: string, text: string, k: nat, n: nat)
    requires n < |pattern| && (k + n >= |text| || pattern[n] != text[k + n])
    ensures !Occurs(pattern, text, k)
  {
    assert k + |pattern| <= |text| ==> text[k..k + |pattern|][n] == text[k + n];
  }
}
