/** What the history ring is for: a log of commands, oldest first, of which the most recent ones
    can be asked for by number (1 is the last command).

    The bytes ever written to the ring form one string, `Bytes(log)`; the ring holds its last
    SZ_HISTBUF bytes. Places are counted backwards: the byte at distance 1 is the last one written. */
module HistorySpec {
  import opened Options

  const SZ_HISTBUF: nat := 8192
  const SZ_CMDBLK: nat := 2048
  const EOS: char := '\0'

  predicate IsSpace(c: char) {
    c == ' ' || '\t' <= c <= '\r'
  }

  /** A command without its trailing white space. */
  function TrimRight(s: string): (r: string)
    ensures r <= s && (r == "" || !IsSpace(r[|r| - 1]))
    ensures forall i :: |r| <= i < |s| ==> IsSpace(s[i])
  {
    if s == "" || !IsSpace(s[|s| - 1]) then s else TrimRight(s[..|s| - 1])
  }

  /** The form in which a command is remembered: exactly one newline, at the end. */
  function Normalize(s: string): string {
    TrimRight(s) + "\n"
  }

  /** The characters that are left off at the end of a command. */
  predicate Blank(c: char) {
    c in {' ', '\t', '\n', '\U{B}', '\U{C}', '\r'}
  }

  /** A record: one newline, at the end, and no blank before that. */
  predicate Trimmed(record: string) {
    && record != "" && record[|record| - 1] == '\n'
    && (|record| > 1 ==> !Blank(record[|record| - 2]))
  }

  predicate AllTrimmed(log: seq<string>) {
    forall i :: 0 <= i < |log| ==> Trimmed(log[i])
  }

  lemma SpaceIs(c: char)
    ensures IsSpace(c) <==> Blank(c)
  {
    if '\t' <= c <= '\r' {
      var n := c as int;
      assert n == 9 || n == 10 || n == 11 || n == 12 || n == 13;
      assert c == n as char;
    }
  }

  /** One more blank at the end makes no difference. */
  lemma TrailingBlank(s: string, c: char)
    requires c in {' ', '\t', '\n', '\U{B}', '\U{C}', '\r'}
    ensures Normalize(s + [c]) == Normalize(s)
  {
    SpaceIs(c);
    assert (s + [c])[..|s|] == s;
  }

  /** A command that ends in no blank is remembered with a newline. */
  lemma NoTrailingBlank(s: string)
    requires s == "" || s[|s| - 1] !in {' ', '\t', '\n', '\U{B}', '\U{C}', '\r'}
    ensures Normalize(s) == s + "\n"
  {
    if s != "" { SpaceIs(s[|s| - 1]); }
  }

  lemma NormalizeTrims(s: string)
    ensures Trimmed(Normalize(s))
  {
    if TrimRight(s) != "" { SpaceIs(TrimRight(s)[|TrimRight(s)| - 1]); }
  }

  /** The byte stream of a log: every record is followed by EOS. */
  function Bytes(log: seq<string>): string {
    if log == [] then "" else Bytes(log[..|log| - 1]) + log[|log| - 1] + [EOS]
  }

  /** Records are C strings and never empty. */
  predicate Clean(log: seq<string>) {
    forall i :: 0 <= i < |log| ==> log[i] != "" && EOS !in log[i]
  }

  /** The k most recent records. */
  function Latest(log: seq<string>, k: nat): seq<string>
    requires k <= |log|
  {
    log[|log| - k..]
  }

  /** The k-th most recent record. */
  function Recent(log: seq<string>, k: nat): string
    requires 1 <= k <= |log|
  {
    log[|log| - k]
  }

  /** The bytes that the k most recent records take, each with its EOS: the distance, counted
      backwards, of the first character of record k. */
  function Distance(log: seq<string>, k: nat): nat
    requires k <= |log|
  {
    |Bytes(Latest(log, k))|
  }

  /** The k-th most recent record can still be fetched: the ring has never been filled, or the
      records 1..k with their EOS bytes occupy at most SZ_HISTBUF - 2 bytes. */
  predicate Stored(log: seq<string>, k: int) {
    1 <= k <= |log| && (|Bytes(log)| < SZ_HISTBUF || Distance(log, k) <= SZ_HISTBUF - 2)
  }

  /** The place in the ring that lies d bytes before op. */
  function Back(op: nat, d: nat): (place: nat)
    requires op < SZ_HISTBUF && d <= SZ_HISTBUF
    ensures place < SZ_HISTBUF
  {
    if d <= op then op - d else op + SZ_HISTBUF - d
  }

  /** The place of the k-th most recent record. */
  function Locate(log: seq<string>, op: nat, k: int): Option<nat>
    requires op < SZ_HISTBUF
  {
    if Stored(log, k) then
      StoredWithin(log, k);
      Some(Back(op, Distance(log, k)))
    else None
  }

  /** How many characters of a record fit into a buffer of maxch characters. */
  function Room(maxch: int): nat {
    var n := (if maxch < SZ_HISTBUF then maxch else SZ_HISTBUF) - 1;
    if n < 0 then 0 else n
  }

  /** What fits of a text into a buffer of maxch characters. */
  function Clip(s: string, maxch: int): string {
    if Room(maxch) < |s| then s[..Room(maxch)] else s
  }

  /** A text and its EOS fit into the buffer, and into the ring; no more than what does not fit is left off. */
  lemma ClipFits(s: string, maxch: int)
    ensures var r := Clip(s, maxch);
            && r <= s && (r == "" || |r| + 1 <= maxch) && |r| + 1 <= 8192
            && (r != s && maxch > 0 ==> |r| + 1 == maxch || |r| + 1 == 8192)
  {
  }

  /** The answer to a request for the k-th most recent command. */
  function Answer(log: seq<string>, k: int, maxch: int): Option<string> {
    if Stored(log, k) then Some(Clip(Recent(log, k), maxch)) else None
  }

  /** The command starts with the pattern or, with `anywhere`, contains it. */
  ghost predicate Matches(command: string, pattern: string, anywhere: bool) {
    if anywhere then exists p :: 0 <= p <= |command| && pattern <= command[p..] else pattern <= command
  }

  lemma MatchesAre(command: string, pattern: string)
    ensures Matches(command, pattern, false) <==>
              |pattern| <= |command| && forall i :: 0 <= i < |pattern| ==> command[i] == pattern[i]
    ensures Matches(command, pattern, true) <==> exists p, q :: 0 <= p <= q <= |command| && command[p..q] == pattern
  {
    if Matches(command, pattern, true) {
      var p :| 0 <= p <= |command| && pattern <= command[p..];
      assert command[p..p + |pattern|] == command[p..][..|pattern|] == pattern;
    }
    if p, q :| 0 <= p <= q <= |command| && command[p..q] == pattern {
      assert command[p..][..q - p] == command[p..q];
    }
  }

  /** Command k is the most recent one still stored that matches, in the form it is fetched. */
  ghost predicate IsEvent(log: seq<string>, k: int, pattern: string, anywhere: bool) {
    && Stored(log, k)
    && Matches(Clip(Recent(log, k), SZ_CMDBLK), pattern, anywhere)
    && forall j :: 1 <= j < k ==> !Matches(Clip(Recent(log, j), SZ_CMDBLK), pattern, anywhere)
  }

  /** The ring holds the last SZ_HISTBUF bytes of the stream w, the last one just before op. */
  ghost predicate Mirrors(ring: seq<char>, op: nat, w: string) {
    && |ring| == SZ_HISTBUF
    && op < SZ_HISTBUF
    && forall d :: 1 <= d <= |w| && d <= SZ_HISTBUF ==> ring[Back(op, d)] == w[|w| - d]
  }

  lemma {:induction false} BytesSplit(a: seq<string>, b: seq<string>)
    ensures Bytes(a + b) == Bytes(a) + Bytes(b)
  {
    if b == [] {
      assert a + b == a;
    } else {
      var front := b[..|b| - 1];
      assert (a + b)[..|a + b| - 1] == a + front;
      BytesSplit(a, front);
    }
  }

  lemma BytesOfOne(line: string)
    ensures Bytes([line]) == line + [EOS]
  {
    assert [line][..0] == [];
  }

  /** The k most recent records are the end of the stream. */
  lemma DistanceWithin(log: seq<string>, k: nat)
    requires k <= |log|
    ensures Distance(log, k) <= |Bytes(log)|
    ensures Bytes(log)[|Bytes(log)| - Distance(log, k)..] == Bytes(Latest(log, k))
    ensures Distance(log, k) == |Bytes(log)| <==> k == |log|
    ensures k < |log| ==> Bytes(log)[|Bytes(log)| - Distance(log, k) - 1] == EOS
  {
    var before := log[..|log| - k];
    assert log == before + Latest(log, k);
    BytesSplit(before, Latest(log, k));
    if before != [] {
      assert Bytes(before)[|Bytes(before)| - 1] == EOS;
    }
  }

  lemma StoredWithin(log: seq<string>, k: int)
    requires Stored(log, k)
    ensures Distance(log, k) < SZ_HISTBUF
  {
    DistanceWithin(log, k);
  }

  /** The next older record lies before the k most recent ones. */
  lemma DistanceStep(log: seq<string>, k: nat)
    requires k < |log|
    ensures Bytes(Latest(log, k + 1)) == Recent(log, k + 1) + [EOS] + Bytes(Latest(log, k))
  {
    assert Latest(log, k + 1) == [Recent(log, k + 1)] + Latest(log, k);
    BytesSplit([Recent(log, k + 1)], Latest(log, k));
    BytesOfOne(Recent(log, k + 1));
  }

  /** In the stream w, a record lies at the distances d + 1 (its EOS) to t (its first character). */
  ghost predicate IsRecord(w: string, d: nat, t: nat, line: string) {
    && t == d + 1 + |line| <= |w|
    && (forall i :: 0 <= i < |line| ==> w[|w| - t + i] == line[i])
    && w[|w| - d - 1] == EOS
    && (t < |w| ==> w[|w| - t - 1] == EOS)
  }

  lemma EndsInEos(log: seq<string>)
    ensures var w := Bytes(log); w != "" ==> w[|w| - 1] == EOS
  {
  }

  lemma RecordPlace(log: seq<string>, k: nat) returns (w: string, d: nat, t: nat, line: string)
    requires k < |log|
    ensures w == Bytes(log) && d == Distance(log, k) && t == Distance(log, k + 1) && line == Recent(log, k + 1)
    ensures IsRecord(w, d, t, line)
  {
    hide Bytes;
    var before, later := log[..|log| - (k + 1)], Latest(log, k);
    assert log == before + Latest(log, k + 1);
    BytesSplit(before, Latest(log, k + 1));
    DistanceStep(log, k);
    var b, l := Bytes(before), Bytes(later);
    EndsInEos(before);
    line := Recent(log, k + 1);
    w, d, t := b + (line + [EOS] + l), |l|, |line| + 1 + |l|;
    Between(b, line, l);
  }

  lemma Between(before: string, line: string, later: string)
    requires before != "" ==> before[|before| - 1] == EOS
    ensures IsRecord(before + (line + [EOS] + later), |later|, |line| + 1 + |later|, line)
  {
  }

  /** Once a record is out of reach, so are all older ones. */
  lemma StoredIsRecent(log: seq<string>, k: int, j: int)
    requires 1 <= k <= j
    requires Stored(log, j)
    ensures Stored(log, k)
  {
    var gap := log[|log| - j..|log| - k];
    assert Latest(log, j) == gap + Latest(log, k);
    BytesSplit(gap, Latest(log, k));
  }

  /** A new byte takes the place of the one written SZ_HISTBUF bytes before. */
  lemma MirrorsStep(ring: seq<char>, op: nat, w: string, c: char)
    requires Mirrors(ring, op, w)
    ensures Mirrors(ring[op := c], if op + 1 >= SZ_HISTBUF then 0 else op + 1, w + [c])
  {
    var op' := if op + 1 >= SZ_HISTBUF then 0 else op + 1;
    forall d | 1 <= d <= |w + [c]| && d <= SZ_HISTBUF
      ensures ring[op := c][Back(op', d)] == (w + [c])[|w + [c]| - d]
    {
      if d > 1 {
        assert Back(op', d) == Back(op, d - 1) != op;
      }
    }
  }

  // ---- The backward search, from any place.

  predicate Full(log: seq<string>) {
    |Bytes(log)| >= SZ_HISTBUF
  }

  lemma NoDistance(log: seq<string>)
    ensures Distance(log, 0) == 0
  {
  }

  lemma {:induction false} DistanceGrows(log: seq<string>, j: nat, k: nat)
    requires j < k <= |log|
    ensures Distance(log, j) < Distance(log, k)
    decreases k
  {
    DistanceStep(log, k - 1);
    if j < k - 1 { DistanceGrows(log, j, k - 1); }
  }

  /** How many whole records lie within the last `at` bytes, if the k most recent ones do. */
  function PassedFrom(log: seq<string>, k: nat, at: nat): (r: nat)
    requires k <= |log| && Distance(log, k) <= at
    ensures k <= r <= |log| && Distance(log, r) <= at && (r < |log| ==> at < Distance(log, r + 1))
    decreases |log| - k
  {
    if k < |log| && Distance(log, k + 1) <= at then PassedFrom(log, k + 1, at) else k
  }

  /** How many whole records lie within the last `at` bytes. */
  function Passed(log: seq<string>, at: nat): (r: nat)
    ensures r <= |log| && Distance(log, r) <= at && (r < |log| ==> at < Distance(log, r + 1))
  {
    NoDistance(log);
    PassedFrom(log, 0, at)
  }

  lemma PassedIs(log: seq<string>, at: nat, i: nat)
    requires i <= |log| && Distance(log, i) <= at && (i < |log| ==> at < Distance(log, i + 1))
    ensures Passed(log, at) == i
  {
    var r := Passed(log, at);
    if r < i && r + 1 < i { DistanceGrows(log, r + 1, i); }
    if i < r && i + 1 < r { DistanceGrows(log, i + 1, r); }
  }

  /** Just behind op, where one turn of the search costs a whole lap. */
  predicate LastPlace(log: seq<string>, at: nat) {
    Full(log) && at == SZ_HISTBUF - 1
  }

  /** Where one turn of the search leads from a place that lies `at` bytes before op, whether or not a
      record starts there: to the start of the nearest record that is still stored. */
  function Next(log: seq<string>, at: nat): (r: Option<nat>)
  {
    if LastPlace(log, at) then Some(0)
    else if Stored(log, Passed(log, at) + 1) then Some(Distance(log, Passed(log, at) + 1))
    else None
  }

  lemma NextBounds(log: seq<string>, at: nat)
    requires at < SZ_HISTBUF
    ensures Next(log, at).Some? ==> Next(log, at).value < SZ_HISTBUF && Next(log, at).value <= |Bytes(log)|
    ensures Next(log, at).Some? ==>
              if LastPlace(log, at) then Next(log, at).value == 0
              else at < Next(log, at).value && !LastPlace(log, Next(log, at).value)
  {
    hide Bytes, PassedFrom;
    if !LastPlace(log, at) && Next(log, at).Some? {
      DistanceWithin(log, Passed(log, at) + 1);
      StoredWithin(log, Passed(log, at) + 1);
    }
  }

  /** A place from which the search goes on, and the number of the record that is believed to start there. */
  datatype Place = Place(record: nat, at: nat)

  datatype Outcome = Outcome(found: bool, place: Place)

  /** The whole search: turn after turn, until the record is reached or nothing is left. */
  function Walk(log: seq<string>, from: Place, record: int): Outcome
    decreases record - from.record
  {
    if record <= from.record then Outcome(true, from)
    else match Next(log, from.at)
      case None => Outcome(false, from)
      case Some(at) => Walk(log, Place(from.record + 1, at), record)
  }

  /** The number of the record at which the search starts in truth. */
  function Start(log: seq<string>, at: nat): int {
    if LastPlace(log, at) then -1 else Passed(log, at)
  }

  /** The search from any place, in one step: as many records further on as the request is. */
  lemma {:induction false} WalkLands(log: seq<string>, from: Place, record: int)
    requires from.at < SZ_HISTBUF && record > from.record
    ensures var j := Start(log, from.at) + record - from.record;
            && (Walk(log, from, record).found <==> j == 0 || Stored(log, j))
            && (Walk(log, from, record).found ==> Walk(log, from, record).place == Place(record, Distance(log, j)))
    decreases record - from.record
  {
    hide Bytes, PassedFrom;
    NoDistance(log);
    NextBounds(log, from.at);
    var i := Start(log, from.at) + 1;
    var j := i + record - from.record - 1;
    if Next(log, from.at).Some? {
      var at := Next(log, from.at).value;
      StartsAt(log, i);
      if record > from.record + 1 {
        WalkLands(log, Place(from.record + 1, at), record);
      }
    } else if Stored(log, j) {
      StoredIsRecent(log, i, j);
    }
  }

  lemma StartsAt(log: seq<string>, i: nat)
    requires i == 0 || Stored(log, i)
    ensures Start(log, Distance(log, i)) == i
  {
    NoDistance(log);
    DistanceWithin(log, i);
    if i < |log| { DistanceGrows(log, i, i + 1); }
    PassedIs(log, Distance(log, i), i);
  }

  /** The search of record k, from a place believed to be that of record c, gives the right answer. */
  predicate Right(log: seq<string>, from: Place, record: int) {
    && (record == from.record ==> Stored(log, record) && Distance(log, record) == from.at)
    && (record > from.record ==>
         || Start(log, from.at) == from.record
         || (!Stored(log, record) && var j := Start(log, from.at) + record - from.record; j != 0 && !Stored(log, j)))
  }

  lemma BackApart(op: nat, d: nat, e: nat)
    requires op < SZ_HISTBUF && d < SZ_HISTBUF && e < SZ_HISTBUF
    ensures Back(op, d) == Back(op, e) <==> d == e
  {
  }

  /** Where a search ends, as a place in the ring. */
  function Reached(log: seq<string>, op: nat, from: Place, record: int): Option<nat>
    requires op < SZ_HISTBUF && from.at < SZ_HISTBUF
  {
    var outcome := Walk(log, from, record);
    if outcome.found && outcome.place.at < SZ_HISTBUF then Some(Back(op, outcome.place.at)) else None
  }

  lemma WalkBounds(log: seq<string>, from: Place, record: int)
    requires from.at < SZ_HISTBUF && from.at <= |Bytes(log)|
    ensures Walk(log, from, record).place.at < SZ_HISTBUF && Walk(log, from, record).place.at <= |Bytes(log)|
    ensures from.record < record && Walk(log, from, record).place.at == 0 && from.at > 0 ==> Full(log)
    decreases record - from.record
  {
    hide Bytes, PassedFrom;
    if record > from.record && Next(log, from.at).Some? {
      NextBounds(log, from.at);
      WalkBounds(log, Place(from.record + 1, Next(log, from.at).value), record);
    }
  }

  /** Two stored records, or op and a stored record, lie at different places. */
  lemma PlacesApart(log: seq<string>, op: nat, j: nat, k: nat)
    requires op < SZ_HISTBUF && (j == 0 || Stored(log, j)) && Stored(log, k)
    ensures Distance(log, j) < SZ_HISTBUF
    ensures Locate(log, op, k) == Some(Back(op, Distance(log, j))) <==> j == k
  {
    hide Bytes, Latest, Back;
    NoDistance(log);
    if j > 0 { StoredWithin(log, j); }
    StoredWithin(log, k);
    BackApart(op, Distance(log, j), Distance(log, k));
    if j < k { DistanceGrows(log, j, k); }
    if k < j { DistanceGrows(log, k, j); }
  }

  /** The search finds record k of the log, or rightly nothing, if and only if it starts right. */
  lemma ReachedIsRight(log: seq<string>, op: nat, from: Place, record: int)
    requires op < SZ_HISTBUF && from.at < SZ_HISTBUF && from.at <= |Bytes(log)| && record >= from.record && record > 0
    ensures Reached(log, op, from, record) == Locate(log, op, record) <==> Right(log, from, record)
  {
    hide Bytes, PassedFrom, Latest, Distance, Start, Back;
    if record == from.record {
      if Stored(log, record) {
        StoredWithin(log, record);
        BackApart(op, from.at, Distance(log, record));
      }
    } else {
      hide Walk;
      WalkBounds(log, from, record);
      WalkLands(log, from, record);
      var j := Start(log, from.at) + record - from.record;
      if (j == 0 || Stored(log, j)) && Stored(log, record) {
        PlacesApart(log, op, j, record);
      }
    }
  }
}
