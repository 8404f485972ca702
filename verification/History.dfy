/** The circular history buffer of the command language, with its cached backward search. */
module History {
  import opened Options
  import opened HistorySpec
  import opened HistorySearch

  /** The text that starts at place ip of the ring and ends at EOS, or after n characters. */
  function CopyOut(ring: seq<char>, ip: nat, n: nat): string
    requires |ring| == SZ_HISTBUF && ip < SZ_HISTBUF
    decreases n
  {
    if n == 0 || ring[ip] == EOS then ""
    else [ring[ip]] + CopyOut(ring, if ip + 1 >= SZ_HISTBUF then 0 else ip + 1, n - 1)
  }

  lemma MirrorAt(ring: seq<char>, op: nat, w: string, d: nat)
    requires Mirrors(ring, op, w) && 1 <= d <= |w| && d <= SZ_HISTBUF
    ensures |ring| == SZ_HISTBUF && op < SZ_HISTBUF && ring[Back(op, d)] == w[|w| - d]
    ensures d > 1 ==> Back(op, d - 1) == if Back(op, d) + 1 >= SZ_HISTBUF then 0 else Back(op, d) + 1
  {
  }

  lemma MirrorSize(ring: seq<char>, op: nat, w: string)
    requires Mirrors(ring, op, w)
    ensures |ring| == SZ_HISTBUF && op < SZ_HISTBUF
  {
  }

  /** Copying out of a ring that mirrors a stream gives the text of the stream. */
  lemma {:induction false} CopyOutStream(ring: seq<char>, op: nat, w: string, d: nat, n: nat)
    requires Mirrors(ring, op, w) && 1 <= d <= |w| && d <= SZ_HISTBUF
    requires w[|w| - 1] == EOS
    ensures CopyOut(ring, Back(op, d), n) == Take(UpToEos(w[|w| - d..]), n)
    decreases n
  {
    hide Mirrors, Back;
    var rest := w[|w| - d..];
    MirrorAt(ring, op, w, d);
    assert ring[Back(op, d)] == w[|w| - d] == rest[0];
    if n > 0 && rest[0] != EOS {
      CopyOutStream(ring, op, w, d - 1, n - 1);
      assert rest[1..] == w[|w| - (d - 1)..];
    }
  }

  lemma CopyOutText(ring: seq<char>, op: nat, log: seq<string>, d: nat, n: nat)
    requires Mirrors(ring, op, Bytes(log)) && log != []
    requires d < SZ_HISTBUF && d <= |Bytes(log)| && (d == 0 ==> Full(log))
    ensures CopyOut(ring, Back(op, d), n) == Take(TextFrom(Bytes(log), d), n)
  {
    BytesEnd(log);
    CopyOutStream(ring, op, Bytes(log), if d == 0 then SZ_HISTBUF else d, n);
  }

  /** A stored record can be copied out whole. */
  lemma CopyOutStored(ring: seq<char>, op: nat, log: seq<string>, k: int, n: nat)
    requires Clean(log) && Stored(log, k)
    requires Mirrors(ring, op, Bytes(log))
    ensures Locate(log, op, k).Some?
    ensures CopyOut(ring, Locate(log, op, k).value, n)
         == if n < |Recent(log, k)| then Recent(log, k)[..n] else Recent(log, k)
  {
    StoredWithin(log, k);
    TextOfRecord(log, k);
    CopyOutText(ring, op, log, Distance(log, k), n);
  }

  /** Where op stands after total bytes, and how often it has wrapped. */
  ghost predicate Wraps(total: nat, op: nat, full: nat) {
    op < SZ_HISTBUF && total == full * SZ_HISTBUF + op
  }

  lemma CleanMore(log: seq<string>, command: string)
    requires Clean(log) && EOS !in Normalize(command)
    ensures Clean(log + [Normalize(command)])
  {
    var more := log + [Normalize(command)];
    assert forall i :: 0 <= i < |log| ==> more[i] == log[i];
  }

  /** The byte of the stream w that lies e bytes before its end. */
  function Ago(w: string, e: nat): char
    requires 1 <= e <= |w|
  {
    w[|w| - e]
  }

  /** The bytes between two places of the stream w: from distance d, where the search stands, no record
      starts before distance t. A search just behind op goes round to op first, as if it stood at -1. */
  ghost predicate Stretch(w: string, d: int, t: nat) {
    && -1 <= d < t + 1 <= |w| + 1
    && (forall e :: d + 1 < e <= t ==> Ago(w, e) != EOS)
    && (t < |w| ==> w[|w| - t - 1] == EOS)
  }

  /** What the search meets on one turn from a place at distance `at`. */
  lemma StretchFrom(log: seq<string>, at: nat) returns (d: int, t: nat)
    requires Clean(log) && log != [] && at < SZ_HISTBUF && at < |Bytes(log)|
    ensures Stretch(Bytes(log), d, t) && d < t
    ensures LastPlace(log, at) ==> d == -1 && t == 0
    ensures !LastPlace(log, at) ==> d == at && Passed(log, at) < |log| && t == Distance(log, Passed(log, at) + 1)
  {
    hide Bytes, PassedFrom, Latest;
    if LastPlace(log, at) {
      d, t := -1, 0;
      BytesEnd(log);
    } else {
      var i := Passed(log, at);
      DistanceWithin(log, i);
      var w, from, t', line := RecordPlace(log, i);
      d, t := at, t';
      forall e | d + 1 < e <= t ensures Ago(w, e) != EOS {
        assert w[|w| - t + (t - e)] == line[t - e];
      }
    }
  }

  /** Nothing but blanks follows the first n characters, and no blank is the last one of these. */
  predicate EndsAt(command: string, n: nat) {
    n <= |command| && (n > 0 ==> !Blank(command[n - 1])) && BlankFrom(command, n)
  }

  predicate BlankFrom(command: string, n: nat) {
    forall i :: n <= i < |command| ==> Blank(command[i])
  }

  lemma NothingFollows(command: string)
    ensures BlankFrom(command, |command|) && command[..|command|] == command
  {
  }

  lemma BlankBefore(command: string, n: nat)
    requires n < |command| && Blank(command[n]) && BlankFrom(command, n + 1)
    ensures BlankFrom(command, n)
  {
  }

  /** What is left of the first n characters. */
  lemma TrimStep(command: string, n: nat)
    requires n < |command|
    ensures TrimRight(command[..n + 1]) == if IsSpace(command[n]) then TrimRight(command[..n]) else command[..n + 1]
  {
    assert command[..n + 1][..n] == command[..n];
  }

  /** A command in the form in which it is remembered, and EOS. */
  method Terminated(command: string) returns (line: string)
    requires EOS !in command
    ensures line == Normalize(command) + [EOS]
    ensures EOS !in Normalize(command)
    ensures |line| >= 2 && EndsAt(command, |line| - 2) && line == command[..|line| - 2] + "\n" + [EOS]
  {
    hide IsSpace, Blank, BlankFrom, TrimRight;
    NothingFollows(command);
    var ip := |command| - 1;
    while ip >= 0
      invariant -1 <= ip < |command|
      invariant TrimRight(command[..ip + 1]) == TrimRight(command)
      invariant BlankFrom(command, ip + 1)
    {
      SpaceIs(command[ip]);
      TrimStep(command, ip);
      if !IsSpace(command[ip]) { break; }
      BlankBefore(command, ip);
      ip := ip - 1;
    }
    line := command[..ip + 1] + "\n" + [EOS];
    assert |line| - 2 == ip + 1;
  }

  /** Whether a command matches a pattern; the empty pattern matches anything. */
  method IsMatch(command: string, pattern: string, anywhere: bool) returns (b: bool)
    ensures b == Matches(command, pattern, anywhere)
  {
    if |pattern| == 0 {
      assert pattern <= command[0..];
      return true;
    } else if !anywhere {
      return pattern <= command;
    }
    var p := 0;
    while p < |command|
      invariant p <= |command|
      invariant forall i :: 0 <= i < p ==> !(pattern <= command[i..])
    {
      if command[p] == pattern[0] && pattern <= command[p..] {
        break;
      }
      p := p + 1;
    }
    b := p != |command|;
    assert b ==> pattern <= command[p..];
  }

  lemma NoneToLocate(log: seq<string>, op: nat, record: int)
    requires op < SZ_HISTBUF
    ensures record <= 0 || log == [] ==> Locate(log, op, record) == None
  {
  }

  lemma BackZero(op: nat)
    requires op < SZ_HISTBUF
    ensures Back(op, 0) == op
  {
  }

  lemma WalkStep(log: seq<string>, op: nat, from: Place, record: int)
    requires op < SZ_HISTBUF && from.at < SZ_HISTBUF
    ensures record <= from.record ==>
              Walk(log, from, record) == Outcome(true, from)
                && Reached(log, op, from, record) == Some(Back(op, from.at))
    ensures record > from.record ==>
              if Next(log, from.at) == None
              then Walk(log, from, record) == Outcome(false, from) && Reached(log, op, from, record) == None
              else Walk(log, from, record) == Walk(log, Place(from.record + 1, Next(log, from.at).value), record)
    ensures record > from.record && Next(log, from.at).Some? && Next(log, from.at).value < SZ_HISTBUF ==>
              var next := Place(from.record + 1, Next(log, from.at).value);
              Reached(log, op, from, record) == Reached(log, op, next, record)
  {
    hide Next, Back;
  }

  /** The place is that of its record, or op. */
  predicate SoundPlace(log: seq<string>, place: Place) {
    if place.record == 0 then place.at == 0 else Stored(log, place.record) && Distance(log, place.record) == place.at
  }

  /** A search that starts at the true place of its record, or at op, is right. */
  lemma SoundIsRight(log: seq<string>, from: Place, record: int)
    requires SoundPlace(log, from) && record >= from.record && record > 0
    ensures Right(log, from, record)
    ensures SoundPlace(log, Walk(log, from, record).place)
    decreases record - from.record
  {
    hide Bytes, PassedFrom;
    NoDistance(log);
    StartsAt(log, from.record);
    if record > from.record && Next(log, from.at).Some? {
      SoundIsRight(log, Place(from.record + 1, Next(log, from.at).value), record);
    }
  }

  /** What is at the place of a record is the answer. */
  lemma AnswerAtPlace(log: seq<string>, op: nat, record: int, at: nat, maxch: int, r: Option<nat>)
    requires Clean(log) && op < SZ_HISTBUF && at < SZ_HISTBUF && r == Locate(log, op, record)
    requires r.Some? ==> r.value == Back(op, at)
    ensures Answer(log, record, maxch) == if r.Some? then Some(Clip(TextFrom(Bytes(log), at), maxch)) else None
  {
    hide Bytes, TextFrom, Back, Clip, Latest;
    if Stored(log, record) {
      StoredWithin(log, record);
      BackApart(op, at, Distance(log, record));
      TextOfRecord(log, record);
    }
  }

  lemma ClippedText(s: string, maxch: int)
    ensures Take(s, Room(maxch)) == Clip(s, maxch)
  {
  }

  class HistoryBuffer {
    const histbuf: array<char>  // the ring
    var opHist: nat             // next location in the ring
    var histbufFull: nat        // how often the ring has wrapped around
    var histnum: nat            // number of commands put so far
    var historyNumber: nat      // the record last found

    // The search cache: recptr points at record currentRecord, if nothing has been written since.
    var currentRecord: nat
    var recptr: nat
    var oldOpHist: int          // opHist at the last search, -1 before the first

    ghost var log: seq<string>  // the commands put so far, oldest first
    ghost var at: nat           // how many bytes recptr lies before oldOpHist

    /** The ring mirrors the log. */
    ghost predicate RingValid()
      reads `opHist, `histbufFull, `histnum, `log, histbuf
    {
      && Clean(log) && AllTrimmed(log)
      && Mirrors(histbuf[..], opHist, Bytes(log))
      && Wraps(|Bytes(log)|, opHist, histbufFull)
      && histnum == |log|
    }

    /** The search cache is one that searches may have left behind. */
    ghost predicate CacheValid()
      reads `currentRecord, `recptr, `oldOpHist, `at, `log
    {
      && recptr < SZ_HISTBUF
      && oldOpHist < SZ_HISTBUF
      && at < SZ_HISTBUF
      && at <= |Bytes(log)|
      && (log == [] ==> oldOpHist < 0)
      && (oldOpHist < 0 ==> currentRecord == 0)
      && (oldOpHist >= 0 ==> recptr == Back(oldOpHist, at))
      && (currentRecord == 0 ==> at == 0)
      && (currentRecord > 0 && at == 0 ==> Full(log))
    }

    ghost predicate Valid()
      reads this, histbuf
    {
      RingValid() && CacheValid()
    }

    /** Where the next search starts that is not for a more recent record than the remembered one. */
    ghost function Remembered(): Place
      reads `currentRecord, `oldOpHist, `at, `opHist
    {
      if oldOpHist != opHist then Place(0, 0) else Place(currentRecord, at)
    }

    /** Where a search starts. */
    ghost function From(record: int): Place
      reads `currentRecord, `oldOpHist, `at, `opHist
    {
      if record < currentRecord then Place(0, 0) else Remembered()
    }

    /** The remembered position, if the next search will use it at all, is that of its record. */
    ghost predicate CacheSound()
      reads `currentRecord, `oldOpHist, `at, `opHist, `log
    {
      SoundPlace(log, Remembered())
    }

    constructor ()
      ensures Valid() && fresh(histbuf) && log == [] && oldOpHist < 0
    {
      histbuf := new char[SZ_HISTBUF](_ => EOS);
      opHist, histbufFull, histnum, historyNumber := 0, 0, 0, 0;
      currentRecord, recptr, oldOpHist := 0, 0, -1;
      log, at := [], 0;
    }

    /** Add a command to the ring, overwriting the oldest bytes. */
    method Put(command: string)
      requires Valid() && EOS !in command
      modifies `opHist, `histbufFull, `histnum, `log, histbuf
      ensures Valid() && log == old(log) + [Normalize(command)]
      ensures opHist == (old(opHist) + |Normalize(command)| + 1) % SZ_HISTBUF
    {
      hide Bytes, Mirrors, Wraps, Normalize, Locate, Trimmed;
      var line := Terminated(command);
      Write(line, Bytes(log));
      histnum := histnum + 1;
      log := log + [Normalize(command)];
      CleanMore(old(log), command);
      NormalizeTrims(command);
      BytesSplit(old(log), [Normalize(command)]);
      BytesOfOne(Normalize(command));
    }

    /** Copy a line, up to and including its EOS, into the ring; w is the stream so far. */
    method Write(line: string, ghost w: string)
      requires Mirrors(histbuf[..], opHist, w) && Wraps(|w|, opHist, histbufFull)
      requires line != "" && line[|line| - 1] == EOS && EOS !in line[..|line| - 1]
      modifies `opHist, `histbufFull, histbuf
      ensures Mirrors(histbuf[..], opHist, w + line) && Wraps(|w + line|, opHist, histbufFull)
      ensures opHist == (old(opHist) + |line|) % SZ_HISTBUF
    {
      hide Bytes, Locate, Normalize, Mirrors;
      var ip := 0;
      assert w + line[..0] == w;
      MirrorSize(histbuf[..], opHist, w);
      while true
        invariant 0 <= ip < |line|
        invariant Mirrors(histbuf[..], opHist, w + line[..ip]) && opHist < SZ_HISTBUF
        invariant Wraps(|w| + ip, opHist, histbufFull)
        invariant opHist == (old(opHist) + ip) % SZ_HISTBUF
        decreases |line| - ip
      {
        MirrorsStep(histbuf[..], opHist, w + line[..ip], line[ip]);
        assert w + line[..ip] + [line[ip]] == w + line[..ip + 1];
        histbuf[opHist] := line[ip];
        opHist := opHist + 1;
        if opHist >= SZ_HISTBUF {
          opHist, histbufFull := 0, histbufFull + 1;
        }
        ip := ip + 1;
        if line[ip - 1] == EOS { break; }
      }
      assert line[..ip] == line;
    }

    /** One turn of the backward search, from any place: to the nearest place before it, by t bytes before
        op, at which a record starts. The ghost arguments describe the bytes w that are in between. */
    method ScanBack(from: nat, ghost w: string, ghost d: int, ghost t: nat) returns (r: Option<nat>)
      requires Mirrors(histbuf[..], opHist, w) && Wraps(|w|, opHist, histbufFull)
      requires Stretch(w, d, t) && (d < |w| ==> d < t)
      requires if d == -1 then |w| >= SZ_HISTBUF && from == Back(opHist, SZ_HISTBUF - 1)
               else d < SZ_HISTBUF && from == Back(opHist, d) && (|w| < SZ_HISTBUF || d <= SZ_HISTBUF - 2)
      ensures r == if d < |w| && (|w| < SZ_HISTBUF || t <= SZ_HISTBUF - 2) then Some(Back(opHist, t)) else None
    {
      // Back up to EOS.
      var ip: int := from - 1;
      if ip < 0 {
        if histbufFull == 0 {
          return None;
        }
        ip := SZ_HISTBUF - 1;
      }
      // Back up to the EOS before it.
      var atEos := false;
      ghost var e := d + 1;              // how far before op ip lies
      while !atEos
        invariant -1 <= ip < SZ_HISTBUF
        invariant 0 <= d + 1 <= e < SZ_HISTBUF && (d == e - 1 ==> !atEos)
        invariant ip < 0 ==> atEos && histbufFull == 0 && opHist == |w| == e - 1 == t
        invariant ip >= 0 ==> ip == Back(opHist, e) && e <= |w| && e <= t + 1
        invariant atEos <==> e == t + 1
        decreases SZ_HISTBUF - e
      {
        ip := ip - 1;
        if ip < 0 {
          if histbufFull == 0 {
            e := e + 1;
            break;
          }
          ip := SZ_HISTBUF - 1;
        }
        if ip == opHist {
          return None;
        }
        e := e + 1;
        atEos := histbuf[ip] == EOS;
        assert histbuf[..][Back(opHist, e)] == Ago(w, e);
      }
      // Advance to the first character of the record.
      ip := ip + 1;
      if ip >= SZ_HISTBUF {
        ip := 0;
      }
      return Some(ip);
    }

    /** The same turn, in terms of the log. */
    method StepBack(from: nat, ghost d: nat) returns (r: Option<nat>)
      requires RingValid() && log != [] && d < SZ_HISTBUF && d <= |Bytes(log)| && from == Back(opHist, d)
      ensures r == if Next(log, d).Some? && Next(log, d).value < SZ_HISTBUF
                   then Some(Back(opHist, Next(log, d).value)) else None
    {
      NextBounds(log, d);
      ghost var start: int, t: nat := d, d;
      if d < |Bytes(log)| {
        start, t := StretchFrom(log, d);
      }
      r := ScanBack(from, Bytes(log), start, t);
    }

    /** Turn after turn, from the remembered position to a record. */
    method SearchBack(record: int)
      requires RingValid() && CacheValid() && log != [] && oldOpHist == opHist && currentRecord <= record
      modifies `currentRecord, `recptr, `at
      ensures RingValid() && CacheValid() && currentRecord <= record
      ensures Outcome(currentRecord == record, Place(currentRecord, at))
              == Walk(log, old(Place(currentRecord, at)), record)
      ensures Reached(log, opHist, old(Place(currentRecord, at)), record)
           == if currentRecord == record then Some(recptr) else None
    {
      hide Locate, Bytes, Walk, Reached, Right, Next, Latest, Stored, Mirrors;
      ghost var start := Place(currentRecord, at);
      while currentRecord < record
        invariant currentRecord <= record && CacheValid()
        invariant Walk(log, Place(currentRecord, at), record) == Walk(log, start, record)
        invariant Reached(log, opHist, Place(currentRecord, at), record) == Reached(log, opHist, start, record)
        decreases record - currentRecord
      {
        NextBounds(log, at);
        WalkStep(log, opHist, Place(currentRecord, at), record);
        var ip := StepBack(recptr, at);
        if ip == None {
          return;
        }
        recptr := ip.value;
        at := Next(log, at).value;
        currentRecord := currentRecord + 1;
      }
      WalkStep(log, opHist, Place(currentRecord, at), record);
    }

    /** Locate a record, searching backwards from the remembered position. In every state the answer is that
        of the walk from there; that is right if and only if the walk starts right. */
    method Find(record: int) returns (r: Option<nat>)
      requires Valid()
      modifies `currentRecord, `recptr, `oldOpHist, `historyNumber, `at
      ensures Valid() && (r.Some? ==> r.value == recptr && currentRecord == record)
      ensures if record <= 0 || log == [] then r == None && unchanged(this)
              else oldOpHist == opHist
                   && Outcome(r.Some?, Place(currentRecord, at)) == Walk(log, old(From(record)), record)
                   && r == Reached(log, opHist, old(From(record)), record)
      ensures record > 0 && log != [] ==> (r == Locate(log, opHist, record) <==> Right(log, old(From(record)), record))
      ensures old(CacheSound()) || record < old(currentRecord) ==>
                r == Locate(log, opHist, record) && (r.Some? ==> historyNumber == record)
      ensures old(CacheSound()) || 0 < record < old(currentRecord) ==> CacheSound()
    {
      hide Locate, Bytes, Walk, Reached, Right, Next, Latest, Stored, Mirrors, Back;
      if histnum == 0 || record <= 0 {
        NoneToLocate(log, opHist, record);
        return None;
      }
      ghost var start, sound := From(record), CacheSound() || record < currentRecord;
      if oldOpHist != opHist || record < currentRecord {
        currentRecord := 0;
        oldOpHist, recptr := opHist, opHist;
        at := 0;
        BackZero(opHist);
      }
      SearchBack(record);
      ReachedIsRight(log, opHist, start, record);
      if sound { SoundIsRight(log, start, record); }
      if currentRecord < record {
        return None;
      }
      historyNumber := currentRecord;
      return Some(recptr);
    }

    /** Copy a record out of the ring into a linear buffer of maxch characters. */
    method Fetch(from: nat, maxch: int) returns (command: string)
      requires histbuf.Length == SZ_HISTBUF && from < SZ_HISTBUF
      ensures command == CopyOut(histbuf[..], from, Room(maxch))
    {
      command := "";
      var ip: nat := from;
      var n := (if maxch < SZ_HISTBUF then maxch else SZ_HISTBUF) - 1;
      while n > 0
        invariant ip < SZ_HISTBUF
        invariant command + CopyOut(histbuf[..], ip, if n < 0 then 0 else n) == CopyOut(histbuf[..], from, Room(maxch))
      {
        n := n - 1;
        var ch := histbuf[ip];
        if ch == EOS { break; }
        command := command + [ch];
        ip := ip + 1;
        if ip >= SZ_HISTBUF {
          ip := 0;
        }
      }
    }

    /** Fetch the indicated command; the empty string and false if it is out of reach. In every state this
        is the text at the place where the walk ends. */
    method Get(record: int, maxch: int) returns (ok: bool, command: string)
      requires Valid()
      modifies `currentRecord, `recptr, `oldOpHist, `historyNumber, `at
      ensures Valid() && if ok then currentRecord == record else command == ""
      ensures if record <= 0 || log == [] then !ok && unchanged(this)
              else oldOpHist == opHist && Outcome(ok, Place(currentRecord, at)) == Walk(log, old(From(record)), record)
      ensures ok ==> command == Clip(TextFrom(Bytes(log), at), maxch)
      ensures old(CacheSound()) || record < old(currentRecord) ==>
                Answer(log, record, maxch) == if ok then Some(command) else None
      ensures old(CacheSound()) || 0 < record < old(currentRecord) ==> CacheSound()
    {
      hide Bytes, Walk, TextFrom, Mirrors, CopyOut, RingValid, Reached, Right, Latest, Distance, Clean, Take;
      hide Back, Locate, Stored, Answer, Clip, SoundPlace, Room, From, CacheSound;
      RingIs();
      ghost var sound := CacheSound() || record < currentRecord;
      var r := Find(record);
      if sound { AnswerAtPlace(log, opHist, record, at, maxch, r); }
      if r == None {
        return false, "";
      }
      command := Fetch(r.value, maxch);
      ok := true;
      CopyOutText(histbuf[..], opHist, log, at, Room(maxch));
      ClippedText(TextFrom(Bytes(log), at), maxch);
    }

    lemma RingIs()
      requires RingValid()
      ensures histbuf.Length == SZ_HISTBUF && Mirrors(histbuf[..], opHist, Bytes(log)) && Clean(log)
      ensures opHist < SZ_HISTBUF
    {
    }

    /** Search backwards for a command that matches; None is the error "Event not found". The search ends in
        every state; it is right if the remembered position is, or is that of record 2 or older. */
    method Search(pattern: string, anywhere: bool) returns (r: Option<string>)
      requires Valid()
      modifies `currentRecord, `recptr, `oldOpHist, `historyNumber, `at
      ensures Valid()
      ensures log != [] ==> r == NonEmpty(FirstMatch(Sought(log, old(From(1))), pattern, anywhere))
      ensures old(CacheSound()) || old(currentRecord) > 1 ==> CacheSound() && IsAnswer(log, pattern, anywhere, r)
    {
      hide Bytes, TextFrom, Matches, Latest, PassedFrom, Older, Sought, StoredFrom, FirstMatch, Walk, Stored;
      hide IsAnswer, Mirrors;
      ghost var from, sound := From(1), CacheSound() || currentRecord > 1;
      if log != [] && sound { SoundSought(log, from); }
      var record := 1;
      var command;
      while true
        invariant 1 <= record && Valid()
        invariant if record == 1 then from == From(1)
                  else log != [] && currentRecord == record - 1 && oldOpHist == opHist
        invariant sound ==> CacheSound() || (record == 1 && currentRecord > 1)
        invariant log != [] ==>
                    Sees(log, pattern, anywhere, FirstMatch(Sought(log, from), pattern, anywhere), From(record), record)
        decreases if record == 1 then SZ_HISTBUF + 2 else if LastPlace(log, at) then SZ_HISTBUF + 1 else SZ_HISTBUF - at
      {
        ghost var start, first := From(record), FirstMatch(Sought(log, from), pattern, anywhere);
        if log != [] {
          SeesOn(log, pattern, anywhere, first, start, record);
        }
        var ok;
        ok, command := Get(record, SZ_CMDBLK);
        if !ok { break; }
        var found := IsMatch(command, pattern, anywhere);
        if found { break; }
        record := record + 1;
      }
      if log == [] {
        NothingStored(log, pattern, anywhere);
      } else {
        FirstStored(log, 0, pattern, anywhere);
        NeverEmpty(log, 0, pattern, anywhere);
      }
      return if |command| == 0 then None else Some(command);
    }
  }
}
