/** A list of strings printed as a table in columns. */
module StrTable {
  /** The shape of a table: columns, their width, rows, and the greatest length that is printed of a string. */
  datatype Shape = Shape(numcol: int, colwidth: int, numrow: int, maxlen: int)

  /** Division as the language of the program does it: towards zero. */
  function Quotient(x: int, y: int): int
    requires y > 0
  {
    if x >= 0 then x / y else -((-x) / y)
  }

  predicate IsLongest(list: seq<string>, n: int) {
    && n >= 0 && (forall i :: 0 <= i < |list| ==> |list[i]| <= n)
    && (n > 0 ==> exists i :: 0 <= i < |list| && |list[i]| == n)
  }

  function Spaces(n: int): (s: string)
    ensures |s| == (if n > 0 then n else 0) && forall i :: 0 <= i < |s| ==> s[i] == ' '
  {
    if n <= 0 then [] else Spaces(n - 1) + [' ']
  }

  /** What is printed of a string. */
  function Clipped(s: string, maxlen: int): (r: string)
    requires maxlen >= 0
    ensures |r| == (if |s| <= maxlen then |s| else maxlen) && r <= s
  {
    if |s| <= maxlen then s else s[..maxlen]
  }

  /** The index of the string in a row and a column, both counted from 0. */
  function IndexAt(s: Shape, row: int, col: int): int {
    row + col * s.numrow
  }

  /** The string in a row and column with the spaces after it. */
  function Cell(list: seq<string>, s: Shape, row: nat, col: nat): string
    requires s.maxlen >= 0 && s.numrow >= 0
  {
    var k := IndexAt(s, row, col);
    if k < 0 || k >= |list| then []
    else
      var text := Clipped(list[k], s.maxlen);
      if col + 1 < s.numcol then text + Spaces(if s.colwidth - |text| < 2 then 2 else s.colwidth - |text|) else text
  }

  /** The first n columns of a row. */
  function Columns(list: seq<string>, s: Shape, row: nat, n: nat): string
    requires s.maxlen >= 0 && s.numrow >= 0
  {
    if n == 0 then [] else Columns(list, s, row, n - 1) + Cell(list, s, row, n - 1)
  }

  function Row(list: seq<string>, s: Shape, first: int, row: nat): string
    requires s.maxlen >= 0 && s.numrow >= 0 && s.numcol >= 0
  {
    Spaces(first - 1) + Columns(list, s, row, s.numcol)
  }

  function Rows(list: seq<string>, s: Shape, first: int, n: nat): string
    requires s.maxlen >= 0 && s.numrow >= 0 && s.numcol >= 0
  {
    if n == 0 then [] else Rows(list, s, first, n - 1) + Row(list, s, first, n - 1) + ['\n']
  }

  /** A shape with enough places, and no row to spare. */
  predicate Fits(s: Shape, nstr: nat) {
    && s.numcol >= 1 && s.numrow >= 0 && s.maxlen >= 0
    && nstr <= s.numcol * s.numrow < nstr + s.numcol
  }

  /** A shape for columns from first to last. */
  ghost predicate ShapeOf(s: Shape, list: seq<string>, first: int, last: int, maxch: int, ncol: int) {
    && Fits(s, |list|)
    && (exists n :: IsLongest(list, n) && s.maxlen == if 0 < maxch < n then maxch else n)
    && s.colwidth == Quotient(last - first + 1, s.numcol)
    && (ncol > 0 ==> s.numcol <= ncol)
    && (s.numcol > 1 ==> s.numcol * (s.maxlen + 2) <= last - first + 1)
  }

  // ---- Every string has one place.

  /** Every string is in exactly one place of the table: its row and its column. */
  lemma PlaceOf(s: Shape, nstr: nat, k: nat) returns (row: nat, col: nat)
    requires Fits(s, nstr) && k < nstr
    ensures row < s.numrow && col < s.numcol && IndexAt(s, row, col) == k
    ensures forall r, c :: 0 <= r < s.numrow && 0 <= c < s.numcol && IndexAt(s, r, c) == k ==> r == row && c == col
  {
    Positive(s, nstr);
    row, col := k % s.numrow, k / s.numrow;
    ColumnBelow(k, s.numrow, s.numcol);
    forall r, c | 0 <= r < s.numrow && 0 <= c < s.numcol && IndexAt(s, r, c) == k ensures r == row && c == col {
      OnlyPlace(r, c, s.numrow);
    }
  }

  lemma Positive(s: Shape, nstr: nat)
    requires Fits(s, nstr) && nstr > 0
    ensures s.numrow > 0
  {
  }

  lemma FitsCounts(s: Shape, nstr: nat)
    requires Fits(s, nstr)
    ensures s.numcol >= 1 && s.numrow >= 0 && s.maxlen >= 0
  {
  }

  lemma Times(a: int, p: int, q: int)
    requires a >= 0
    ensures p <= q ==> a * p <= a * q
  {
  }

  lemma ColumnBelow(k: nat, numrow: int, numcol: int)
    requires numrow > 0 && k < numcol * numrow
    ensures 0 <= k / numrow < numcol && k % numrow + k / numrow * numrow == k
  {
    Times(numrow, numcol, k / numrow);
  }

  lemma OnlyPlace(r: int, c: int, numrow: int)
    requires 0 <= r < numrow
    ensures (r + c * numrow) % numrow == r && (r + c * numrow) / numrow == c
  {
    var q := (r + c * numrow) / numrow;
    Times(numrow, c + 1, q);
    Times(numrow, q + 1, c);
  }

  // ---- The columns stand below each other.

  lemma QuotientRoom(width: int, n: int, m: int)
    requires n >= 1 && m >= 0 && n * m <= width
    ensures Quotient(width, n) >= m && n * Quotient(width, n) <= width < n * (Quotient(width, n) + 1)
  {
    Times(n, Quotient(width, n) + 1, m);
  }

  /** When the longest string and two spaces fit between first and last, they fit in a column. */
  lemma ColumnsAreWide(s: Shape, list: seq<string>, first: int, last: int, maxch: int, ncol: int)
    requires ShapeOf(s, list, first, last, maxch, ncol) && s.maxlen + 2 <= last - first + 1
    ensures s.colwidth >= s.maxlen + 2 && s.numcol * s.colwidth <= last - first + 1 < s.numcol * (s.colwidth + 1)
  {
    QuotientRoom(last - first + 1, s.numcol, s.maxlen + 2);
  }

  /** Every column begins at a fixed place, as far as there are strings in the row. */
  lemma {:induction false} ColumnsAlign(list: seq<string>, s: Shape, row: nat, n: nat)
    requires s.maxlen >= 0 && s.numrow >= 0 && s.colwidth >= s.maxlen + 2
    requires n < s.numcol && (n > 0 ==> IndexAt(s, row, n - 1) < |list|)
    ensures |Columns(list, s, row, n)| == n * s.colwidth
  {
    if n > 0 {
      EarlierIndex(row, n - 1, s.numrow);
      ColumnsAlign(list, s, row, n - 1);
      CellIsWide(list, s, row, n - 1);
      Distribute(n, s.colwidth);
    }
  }

  lemma EarlierIndex(row: nat, col: nat, numrow: int)
    requires numrow >= 0
    ensures 0 <= row + col * numrow && row + (col - 1) * numrow <= row + col * numrow
  {
    Times(numrow, col - 1, col);
  }

  lemma Distribute(n: int, w: int)
    ensures (n - 1) * w + w == n * w
  {
  }

  lemma CellIsWide(list: seq<string>, s: Shape, row: nat, col: nat)
    requires s.maxlen >= 0 && s.numrow >= 0 && s.colwidth >= s.maxlen + 2 && col + 1 < s.numcol
    requires 0 <= IndexAt(s, row, col) < |list|
    ensures |Cell(list, s, row, col)| == s.colwidth
  {
  }

  /** A string in the table is followed by two spaces or more, unless it is in the last column. */
  lemma CellIsSpaced(list: seq<string>, s: Shape, row: nat, col: nat)
    requires s.maxlen >= 0 && s.numrow >= 0 && 0 <= IndexAt(s, row, col) < |list| && col + 1 < s.numcol
    ensures var text, cell := Clipped(list[IndexAt(s, row, col)], s.maxlen), Cell(list, s, row, col);
            text <= cell && |cell| >= |text| + 2 && forall i :: |text| <= i < |cell| ==> cell[i] == ' '
  {
  }

  /** No line goes beyond the last column. */
  lemma RowsAreShort(list: seq<string>, s: Shape, first: int, last: int, maxch: int, ncol: int, row: nat)
    requires ShapeOf(s, list, first, last, maxch, ncol) && s.maxlen + 2 <= last - first + 1 && first >= 1
    ensures |Row(list, s, first, row)| <= last
  {
    ColumnsAreWide(s, list, first, last, maxch, ncol);
    ColumnsAreShort(list, s, row, s.numcol);
  }

  lemma {:induction false} ColumnsAreShort(list: seq<string>, s: Shape, row: nat, n: nat)
    requires s.maxlen >= 0 && s.numrow >= 0 && s.colwidth >= s.maxlen + 2 && n <= s.numcol
    ensures |Columns(list, s, row, n)| <= n * s.colwidth
  {
    if n > 0 {
      ColumnsAreShort(list, s, row, n - 1);
      assert |Cell(list, s, row, n - 1)| <= s.colwidth;
      Distribute(n, s.colwidth);
    }
  }

  // ---- Where a string is found in the table.

  function Newlines(t: string): nat {
    if t == [] then 0 else Newlines(t[..|t| - 1]) + if t[|t| - 1] == '\n' then 1 else 0
  }

  predicate EndsLine(t: string) {
    t == [] || t[|t| - 1] == '\n'
  }

  predicate OneLine(t: string) {
    '\n' !in t
  }

  predicate AllOneLine(list: seq<string>) {
    forall i :: 0 <= i < |list| ==> OneLine(list[i])
  }

  /** A text has the string at an offset in one of its lines, which are counted from 0. */
  ghost predicate StandsIn(t: string, line: int, offset: int, text: string) {
    exists b :: 0 <= b && LineFrom(t, line, b) && HasAt(t, b, offset, text)
  }

  /** The line begins at b. */
  predicate LineFrom(t: string, line: int, b: nat) {
    b <= |t| && Newlines(t[..b]) == line && EndsLine(t[..b])
  }

  /** The string is at an offset from b, and in the same line. */
  predicate HasAt(t: string, b: nat, offset: int, text: string) {
    && 0 <= offset && b + offset + |text| <= |t|
    && OneLine(t[b..b + offset + |text|]) && t[b + offset..b + offset + |text|] == text
  }

  /** Where a string belongs: how many columns come before it, and the margin. */
  function OffsetOf(s: Shape, first: int, k: nat): int
    requires s.numrow > 0
  {
    (if first > 1 then first - 1 else 0) + k / s.numrow * s.colwidth
  }

  lemma {:induction false} NewlinesJoin(a: string, b: string)
    ensures Newlines(a + b) == Newlines(a) + Newlines(b)
    decreases |b|
  {
    if b == [] {
      assert a + b == a;
    } else {
      NewlinesJoin(a, b[..|b| - 1]);
      assert (a + b)[..|a + b| - 1] == a + b[..|b| - 1];
    }
  }

  lemma {:induction false} NewlinesNone(t: string)
    requires OneLine(t)
    ensures Newlines(t) == 0
  {
    if t != [] {
      NewlinesNone(t[..|t| - 1]);
    }
  }

  lemma {:induction false} ColumnsAreOneLine(list: seq<string>, s: Shape, row: nat, n: nat)
    requires AllOneLine(list) && s.maxlen >= 0 && s.numrow >= 0
    ensures OneLine(Columns(list, s, row, n))
  {
    if n > 0 {
      ColumnsAreOneLine(list, s, row, n - 1);
      assert OneLine(Cell(list, s, row, n - 1));
    }
  }

  lemma RowIsOneLine(list: seq<string>, s: Shape, first: int, row: nat)
    requires AllOneLine(list) && s.maxlen >= 0 && s.numrow >= 0 && s.numcol >= 0
    ensures OneLine(Row(list, s, first, row))
  {
    ColumnsAreOneLine(list, s, row, s.numcol);
  }

  /** Row n begins behind n newlines. */
  lemma {:induction false} RowBegins(list: seq<string>, s: Shape, first: int, n: nat)
    requires AllOneLine(list) && s.maxlen >= 0 && s.numrow >= 0 && s.numcol >= 0
    ensures var t := Rows(list, s, first, n); Newlines(t) == n && EndsLine(t)
  {
    hide Row;
    if n > 0 {
      var t, row := Rows(list, s, first, n - 1), Row(list, s, first, n - 1);
      RowBegins(list, s, first, n - 1);
      RowIsOneLine(list, s, first, n - 1);
      NewlinesNone(row);
      NewlinesJoin(t, row);
      assert (t + row + ['\n'])[..|t + row|] == t + row;
    }
  }

  lemma {:induction false} RowIsIn(list: seq<string>, s: Shape, first: int, row: nat, n: nat)
    requires row < n && s.maxlen >= 0 && s.numrow >= 0 && s.numcol >= 0
    ensures Rows(list, s, first, row) + Row(list, s, first, row) + ['\n'] <= Rows(list, s, first, n)
  {
    hide Row;
    if row < n - 1 {
      RowIsIn(list, s, first, row, n - 1);
    }
  }

  lemma {:induction false} ColumnIsIn(list: seq<string>, s: Shape, row: nat, col: nat, n: nat)
    requires col <= n && s.maxlen >= 0 && s.numrow >= 0
    ensures Columns(list, s, row, col) <= Columns(list, s, row, n)
  {
    hide Cell;
    if col < n {
      ColumnIsIn(list, s, row, col, n - 1);
    }
  }

  /** A string is in its row, behind the columns before it. */
  lemma TextInColumns(list: seq<string>, s: Shape, row: nat, col: nat, at: int, text: string)
    requires s.maxlen >= 0 && s.numrow >= 0 && (s.numcol > 1 ==> s.colwidth >= s.maxlen + 2) && col < s.numcol
    requires 0 <= IndexAt(s, row, col) < |list| && at == col * s.colwidth
    requires text == Clipped(list[IndexAt(s, row, col)], s.maxlen)
    ensures var t := Columns(list, s, row, s.numcol); 0 <= at && at + |text| <= |t| && t[at..at + |text|] == text
  {
    if col > 0 {
      EarlierIndex(row, col, s.numrow);
      ColumnsAlign(list, s, row, col);
    }
    hide Clipped;
    var t, t' := Columns(list, s, row, s.numcol), Columns(list, s, row, col);
    assert |t'| == at;
    ColumnIsIn(list, s, row, col + 1, s.numcol);
    TextInCell(list, s, row, col);
    PrefixOf(t', Cell(list, s, row, col), text, t);
  }

  lemma TextInCell(list: seq<string>, s: Shape, row: nat, col: nat)
    requires s.maxlen >= 0 && s.numrow >= 0 && 0 <= IndexAt(s, row, col) < |list|
    ensures Clipped(list[IndexAt(s, row, col)], s.maxlen) <= Cell(list, s, row, col)
  {
  }

  lemma PrefixOf(before: string, cell: string, text: string, t: string)
    requires before + cell <= t && text <= cell
    ensures |before| + |text| <= |t| && t[|before|..|before| + |text|] == text
  {
  }

  lemma WithMargin(margin: string, t: string, at: nat, text: string)
    requires at + |text| <= |t| && t[at..at + |text|] == text
    ensures var r := margin + t; |margin| + at + |text| <= |r| && r[|margin| + at..|margin| + at + |text|] == text
  {
  }

  /** A string of a row is in a text that has the row. */
  lemma InLine(t: string, before: string, row: string, offset: nat, text: string)
    requires before + row + ['\n'] <= t && OneLine(row) && EndsLine(before)
    requires offset + |text| <= |row| && row[offset..offset + |text|] == text
    ensures StandsIn(t, Newlines(before), offset, text)
  {
    hide Newlines, EndsLine, OneLine;
    var b := |before|;
    assert t[..b] == before;
    RowWithin(t, before, row);
    PartOfRow(row, offset, text);
    PartWithin(t, b, row, offset + |text|, offset);
    assert LineFrom(t, Newlines(before), b) && HasAt(t, b, offset, text);
  }

  lemma RowWithin(t: string, before: string, row: string)
    requires before + row + ['\n'] <= t
    ensures |before| + |row| <= |t| && t[|before|..|before| + |row|] == row
  {
    assert before + row <= t;
  }

  lemma PartOfRow(row: string, offset: nat, text: string)
    requires offset + |text| <= |row| && OneLine(row)
    ensures OneLine(row[..offset + |text|])
  {
  }

  lemma PartWithin(t: string, b: nat, row: string, n: nat, k: nat)
    requires b + |row| <= |t| && t[b..b + |row|] == row && k <= n <= |row|
    ensures t[b..b + n] == row[..n] && t[b + k..b + n] == row[k..n]
  {
    assert t[b..b + |row|][..n] == t[b..b + n];
    assert t[b..b + n][k..] == t[b + k..b + n];
  }

  /** Every string is found in the printed table, clipped, in its line and at its offset. */
  lemma StringIsFound(list: seq<string>, s: Shape, first: int, k: nat)
    requires Fits(s, |list|) && k < |list| && AllOneLine(list) && (s.numcol > 1 ==> s.colwidth >= s.maxlen + 2)
    ensures s.numrow > 0
    ensures StandsIn(Rows(list, s, first, s.numrow), k % s.numrow, OffsetOf(s, first, k), Clipped(list[k], s.maxlen))
  {
    hide StandsIn, Rows, Clipped;
    Positive(s, |list|);
    ColumnBelow(k, s.numrow, s.numcol);
    FoundInRow(list, s, first, k % s.numrow, k / s.numrow, OffsetOf(s, first, k));
  }

  lemma FoundInRow(list: seq<string>, s: Shape, first: int, row: nat, col: nat, offset: int)
    requires s.maxlen >= 0 && AllOneLine(list) && (s.numcol > 1 ==> s.colwidth >= s.maxlen + 2)
    requires row < s.numrow && col < s.numcol && 0 <= IndexAt(s, row, col) < |list|
    requires offset == (if first > 1 then first - 1 else 0) + col * s.colwidth
    ensures StandsIn(Rows(list, s, first, s.numrow), row, offset, Clipped(list[IndexAt(s, row, col)], s.maxlen))
  {
    hide StandsIn, Rows, Newlines, Clipped, OneLine, IndexAt, Columns, EndsLine;
    var at, text := col * s.colwidth, Clipped(list[IndexAt(s, row, col)], s.maxlen);
    TextInColumns(list, s, row, col, at, text);
    WithMargin(Spaces(first - 1), Columns(list, s, row, s.numcol), at, text);
    RowIsIn(list, s, first, row, s.numrow);
    RowIsOneLine(list, s, first, row);
    RowBegins(list, s, first, row);
    InLine(Rows(list, s, first, s.numrow), Rows(list, s, first, row), Row(list, s, first, row), offset, text);
  }

  /** String number k is where it belongs. */
  ghost predicate FoundAt(t: string, list: seq<string>, s: Shape, first: int, k: nat)
    requires k < |list| && s.maxlen >= 0
  {
    s.numrow > 0 && StandsIn(t, k % s.numrow, OffsetOf(s, first, k), Clipped(list[k], s.maxlen))
  }

  lemma AllFound(list: seq<string>, s: Shape, first: int, last: int, maxch: int, ncol: int)
    requires ShapeOf(s, list, first, last, maxch, ncol) && AllOneLine(list)
    ensures forall k :: 0 <= k < |list| ==> FoundAt(Rows(list, s, first, s.numrow), list, s, first, k)
  {
    hide StandsIn, Rows;
    if s.numcol > 1 {
      QuotientRoom(last - first + 1, s.numcol, s.maxlen + 2);
    }
    forall k | 0 <= k < |list| ensures FoundAt(Rows(list, s, first, s.numrow), list, s, first, k) {
      StringIsFound(list, s, first, k);
    }
  }

  // ---- The program.

  method Longest(list: seq<string>) returns (maxlen: int)
    ensures IsLongest(list, maxlen)
  {
    maxlen := 0;
    for i := 0 to |list|
      invariant IsLongest(list[..i], maxlen)
    {
      var len := |list[i]|;
      ghost var before := maxlen;
      if len > maxlen {
        maxlen := len;
      }
      LongestMore(list, i, before, maxlen);
    }
    assert list[..|list|] == list;
  }

  lemma LongestIsCount(list: seq<string>, n: int)
    requires IsLongest(list, n)
    ensures n >= 0
  {
  }

  lemma LongestMore(list: seq<string>, i: nat, n: int, m: int)
    requires i < |list| && IsLongest(list[..i], n) && m == if |list[i]| > n then |list[i]| else n
    ensures IsLongest(list[..i + 1], m)
  {
    assert forall k :: 0 <= k < i ==> list[..i + 1][k] == list[..i][k];
    assert list[..i + 1][i] == list[i];
    if m == n > 0 {
      var k :| 0 <= k < i && |list[..i][k]| == n;
      assert |list[..i + 1][k]| == n;
    }
  }

  /** The shape for a list: as many columns as fit, but no more than ncol if that is given. */
  method ComputeShape(list: seq<string>, first: int, last: int, maxch: int, ncol: int) returns (s: Shape)
    ensures ShapeOf(s, list, first, last, maxch, ncol)
    ensures (ncol <= 0 || s.numcol < ncol) && last - first + 1 >= s.maxlen + 2 ==>
              (s.numcol + 1) * (s.maxlen + 2) > last - first + 1
  {
    hide Quotient, IsLongest;
    var maxlen := Longest(list);
    LongestIsCount(list, maxlen);
    ghost var longest := maxlen;
    if maxch > 0 && maxch < maxlen {
      maxlen := maxch;
    }
    var width := last - first + 1;
    var numcol := NumberOfColumns(width, maxlen + 2, ncol);
    var colwidth := Quotient(width, numcol);
    var numrow := NumberOfRows(|list|, numcol);
    s := Shape(numcol, colwidth, numrow, maxlen);
    assert IsLongest(list, longest);
  }

  /** As many columns as fit, one at least, and no more than ncol if that is given. */
  method NumberOfColumns(width: int, m: int, ncol: int) returns (numcol: int)
    requires m > 0
    ensures numcol >= 1 && (ncol > 0 ==> numcol <= ncol) && (numcol > 1 ==> numcol * m <= width)
    ensures (ncol <= 0 || numcol < ncol) && width >= m ==> (numcol + 1) * m > width
  {
    hide Quotient;
    numcol := Quotient(width, m);
    MostColumns(width, m, numcol);
    if numcol < 1 {
      numcol := 1;
    }
    if ncol > 0 && ncol < numcol {
      FewerColumns(width, m, numcol, ncol);
      numcol := ncol;
    }
  }

  method NumberOfRows(nstr: nat, numcol: int) returns (numrow: nat)
    requires numcol >= 1
    ensures nstr <= numcol * numrow < nstr + numcol
  {
    numrow := (nstr + numcol - 1) / numcol;
    EnoughRows(nstr, numcol);
  }

  lemma MostColumns(width: int, m: int, n: int)
    requires m > 0 && n == Quotient(width, m)
    ensures n >= 1 ==> n * m <= width < (n + 1) * m
    ensures width >= m ==> n >= 1
  {
  }

  lemma FewerColumns(width: int, m: int, n: int, k: int)
    requires 0 < k < n && m > 0 && n * m <= width
    ensures k * m <= width
  {
    Times(m, k, n);
  }

  lemma EnoughRows(nstr: nat, numcol: int)
    requires numcol >= 1
    ensures var numrow := (nstr + numcol - 1) / numcol; nstr <= numcol * numrow < nstr + numcol && numrow >= 0
  {
  }

  /** Print the table. */
  method PrintTable(list: seq<string>, first: int, last: int, maxch: int, ncol: int) returns (out: string, s: Shape)
    ensures ShapeOf(s, list, first, last, maxch, ncol)
    ensures out == Rows(list, s, first, s.numrow)
    ensures AllOneLine(list) ==> forall k :: 0 <= k < |list| ==> FoundAt(out, list, s, first, k)
  {
    hide Row;
    s := ComputeShape(list, first, last, maxch, ncol);
    out := [];
    var row := 0;
    while row < s.numrow
      invariant 0 <= row <= s.numrow && out == Rows(list, s, first, row)
    {
      var line := PrintRow(list, s, first, row);
      out := out + line + ['\n'];
      row := row + 1;
    }
    if AllOneLine(list) {
      AllFound(list, s, first, last, maxch, ncol);
    }
  }

  method PrintRow(list: seq<string>, s: Shape, first: int, row: nat) returns (line: string)
    requires Fits(s, |list|) && row < s.numrow
    ensures line == Row(list, s, first, row)
  {
    FitsCounts(s, |list|);
    hide Fits, Cell, Spaces;
    line := PrintSpaces(first - 1);
    ghost var margin := line;
    var col := 0;
    while col < s.numcol
      invariant 0 <= col <= s.numcol && line == margin + Columns(list, s, row, col)
    {
      var cell := PrintCell(list, s, row, col);
      line := line + cell;
      col := col + 1;
    }
  }

  method PrintCell(list: seq<string>, s: Shape, row: nat, col: nat) returns (cell: string)
    requires Fits(s, |list|)
    ensures cell == Cell(list, s, row, col)
  {
    var str := row + col * s.numrow;
    NoNegative(col, s.numrow);
    cell := [];
    if str < |list| {
      cell := PrintText(list[str], s.maxlen);
      if col + 1 < s.numcol {
        var nspaces := s.colwidth - |cell|;
        if nspaces < 2 {
          nspaces := 2;
        }
        var spaces := PrintSpaces(nspaces);
        cell := cell + spaces;
      }
    }
  }

  lemma NoNegative(col: nat, numrow: int)
    requires numrow >= 0
    ensures col * numrow >= 0
  {
  }

  method PrintSpaces(n: int) returns (s: string)
    ensures s == Spaces(n)
  {
    s := [];
    var j := 0;
    while j < n
      invariant 0 <= j && (j <= n || j == 0) && s == Spaces(j)
    {
      s := s + [' '];
      j := j + 1;
    }
  }

  method PrintText(p: string, maxlen: int) returns (text: string)
    requires maxlen >= 0
    ensures text == Clipped(p, maxlen)
  {
    text := [];
    var j := 0;
    while j < |p| && j < maxlen
      invariant 0 <= j <= |p| && j <= maxlen && text == p[..j]
    {
      text := text + [p[j]];
      j := j + 1;
    }
  }
}
