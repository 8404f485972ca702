/** The history buffer over whole runs of puts and searches, with and without full laps of the ring. */
module HistoryRuns {
  import opened Options
  import opened HistorySpec
  import opened HistorySearch
  import opened History

  // ---- Laps between two searches.

  /** Place d lies in the record before record c, or is its start. */
  predicate Behind(log: seq<string>, c: nat, d: nat) {
    c <= |log| && Distance(log, c) <= d && (c < |log| ==> d < Distance(log, c + 1)) && !LastPlace(log, d)
  }

  /** op stands elsewhere than with the log `seen`. */
  predicate Moved(seen: seq<string>, log: seq<string>) {
    (|Bytes(log)| - |Bytes(seen)|) % SZ_HISTBUF != 0
  }

  /** After a search that stopped at record c of the log `seen`, with the log as it is now: whether a search
      for record k will be right. If op stands elsewhere, or k is more recent than c, the search starts anew.
      Otherwise what counts is where record c was then, and what lies there now. */
  predicate RightAfter(seen: seq<string>, log: seq<string>, c: nat, k: int)
    requires c <= |seen|
  {
    || c == 0
    || Moved(seen, log)
    || k < c
    || (k == c && Stored(log, c) && Distance(log, c) == Distance(seen, c))
    || (k > c && Behind(log, c, Distance(seen, c)))
    || (k > c && !Stored(log, k) && var j := Start(log, Distance(seen, c)) + k - c; j != 0 && !Stored(log, j))
  }

  lemma StartIs(log: seq<string>, c: nat, d: nat)
    ensures Start(log, d) == c <==> Behind(log, c, d)
  {
    if Behind(log, c, d) { PassedIs(log, d, c); }
  }

  lemma LapLaw(seen: seq<string>, log: seq<string>, c: nat, k: int)
    requires 1 <= c <= |seen| && k >= c && !Moved(seen, log)
    ensures Right(log, Place(c, Distance(seen, c)), k) <==> RightAfter(seen, log, c, k)
  {
    hide Bytes, Latest, Stored, Start, Behind, PassedFrom, Moved;
    StartIs(log, c, Distance(seen, c));
  }

  /** op stands where it stood before if and only if whole laps have been put. */
  lemma SamePlace(a: nat, op: nat, full: nat, b: nat, op': nat, full': nat)
    requires Wraps(a, op, full) && Wraps(b, op', full')
    ensures op == op' <==> (b - a) % SZ_HISTBUF == 0
    ensures op == a % SZ_HISTBUF
  {
    assert b - a == (full' - full) * SZ_HISTBUF + (op' - op);
  }

  function Normalized(commands: seq<string>): (r: seq<string>)
    ensures |r| == |commands|
  {
    if commands == [] then [] else Normalized(commands[..|commands| - 1]) + [Normalize(commands[|commands| - 1])]
  }

  /** Any number of commands put between two searches: exactly when the second one is right. */
  method FindAfterPuts(h: HistoryBuffer, commands: seq<string>, record: int) returns (r: Option<nat>)
    requires h.Valid() && h.CacheSound() && h.oldOpHist == h.opHist
    requires forall i :: 0 <= i < |commands| ==> EOS !in commands[i]
    modifies h, h.histbuf
    ensures h.Valid() && h.log == old(h.log) + Normalized(commands) && old(h.currentRecord) <= |old(h.log)|
    ensures r == Locate(h.log, h.opHist, record) <==> RightAfter(old(h.log), h.log, old(h.currentRecord), record)
  {
    hide Bytes, Mirrors, Latest, Locate, Normalize, Right, RightAfter, Walk, Reached;
    ghost var seen, c, d, full := h.log, h.currentRecord, h.at, h.histbufFull;
    assert commands[..0] == [] && seen + [] == seen;
    for i := 0 to |commands|
      invariant h.Valid() && h.log == seen + Normalized(commands[..i])
      invariant h.currentRecord == c && h.at == d && h.oldOpHist == old(h.opHist)
    {
      assert commands[..i + 1][..i] == commands[..i];
      h.Put(commands[i]);
    }
    assert commands[..|commands|] == commands;
    SamePlace(|Bytes(seen)|, old(h.opHist), full, |Bytes(h.log)|, h.opHist, h.histbufFull);
    RightNow(seen, h.log, c, d, record, h.oldOpHist != h.opHist);
    assert h.From(record) == if record < c || h.oldOpHist != h.opHist then Place(0, 0) else Place(c, d);
    if record <= 0 || h.log == [] { NoneToLocate(h.log, h.opHist, record); }
    r := h.Find(record);
  }

  lemma RightNow(seen: seq<string>, log: seq<string>, c: nat, d: nat, record: int, moved: bool)
    requires SoundPlace(seen, Place(c, d))
    requires moved <==> Moved(seen, log)
    ensures record > 0 ==>
              (Right(log, if record < c || moved then Place(0, 0) else Place(c, d), record) <==>
               RightAfter(seen, log, c, record))
    ensures record <= 0 ==> RightAfter(seen, log, c, record)
  {
    assert c <= |seen|;
    hide Bytes, Latest, Stored, Start, Behind, Distance, Right, Walk, Moved;
    if record > 0 {
      if record < c || moved || c == 0 {
        SoundIsRight(log, Place(0, 0), record);
      } else {
        LapLaw(seen, log, c, record);
      }
    }
  }

  // ---- Whole runs.

  datatype Request = Put(command: string) | Get(record: int, maxch: int)

  /** What a list of commands answers to one request: nothing to a Put. */
  function Reply(log: seq<string>, request: Request): seq<Option<string>> {
    match request
    case Put(_) => []
    case Get(record, maxch) => [Answer(log, record, maxch)]
  }

  function LogAfter(log: seq<string>, request: Request): seq<string> {
    match request
    case Put(command) => log + [Normalize(command)]
    case Get(_, _) => log
  }

  /** What a list of commands would answer to the requests. */
  function Answers(log: seq<string>, requests: seq<Request>): seq<Option<string>>
    decreases |requests|
  {
    if requests == [] then []
    else Reply(log, requests[0]) + Answers(LogAfter(log, requests[0]), requests[1..])
  }

  /** What the search remembers: how many bytes had been put when it last began anew or went on, None before
      the first search, and the place that it reached. */
  datatype Cache = Cache(seen: Option<nat>, place: Place)

  /** op stands where it stood at the last search. */
  predicate Unmoved(log: seq<string>, cache: Cache) {
    cache.seen.Some? && (|Bytes(log)| - cache.seen.value) % SZ_HISTBUF == 0
  }

  /** Where a search for a record starts. */
  function StartOf(log: seq<string>, cache: Cache, record: int): Place {
    if Unmoved(log, cache) && record >= cache.place.record then cache.place else Place(0, 0)
  }

  /** What the ring answers to one request, and what it remembers. */
  function RingReply(log: seq<string>, cache: Cache, request: Request): seq<Option<string>> {
    match request
    case Put(_) => []
    case Get(record, maxch) =>
      var outcome := Walk(log, StartOf(log, cache, record), record);
      [if record <= 0 || log == [] || !outcome.found then None
       else Some(Clip(TextFrom(Bytes(log), outcome.place.at), maxch))]
  }

  function CacheAfter(log: seq<string>, cache: Cache, request: Request): Cache {
    match request
    case Put(_) => cache
    case Get(record, _) =>
      if record <= 0 || log == [] then cache
      else Cache(Some(|Bytes(log)|), Walk(log, StartOf(log, cache, record), record).place)
  }

  /** What the ring answers to the requests, laps or not. */
  function RingReplies(log: seq<string>, cache: Cache, requests: seq<Request>): seq<Option<string>>
    decreases |requests|
  {
    if requests == [] then []
    else RingReply(log, cache, requests[0])
         + RingReplies(LogAfter(log, requests[0]), CacheAfter(log, cache, requests[0]), requests[1..])
  }

  /** A search starts at a place from which it will be right. */
  predicate StartsRight(log: seq<string>, cache: Cache, request: Request) {
    request.Get? && request.record > 0 && log != [] ==> Right(log, StartOf(log, cache, request.record), request.record)
  }

  predicate AllStartRight(log: seq<string>, cache: Cache, requests: seq<Request>)
    decreases |requests|
  {
    requests == [] ||
    (&& StartsRight(log, cache, requests[0])
     && AllStartRight(LogAfter(log, requests[0]), CacheAfter(log, cache, requests[0]), requests[1..]))
  }

  /** Whenever a request searches the ring, it has not been lapped since the last search. */
  predicate LapFree(log: seq<string>, seen: Option<nat>, requests: seq<Request>)
    decreases |requests|
  {
    requests == [] ||
    var searches := requests[0].Get? && requests[0].record > 0 && log != [];
    && (searches ==> seen == None || seen.value == |Bytes(log)| || (|Bytes(log)| - seen.value) % SZ_HISTBUF != 0)
    && LapFree(LogAfter(log, requests[0]), if searches then Some(|Bytes(log)|) else seen, requests[1..])
  }

  predicate NoEos(requests: seq<Request>) {
    forall i :: 0 <= i < |requests| && requests[i].Put? ==> EOS !in requests[i].command
  }

  lemma NormalizeClean(command: string)
    requires EOS !in command
    ensures EOS !in Normalize(command)
  {
  }

  /** If every search starts right, the ring answers like the list. */
  lemma {:induction false} RepliesAreAnswers(log: seq<string>, cache: Cache, requests: seq<Request>)
    requires Clean(log) && NoEos(requests) && cache.place.at < SZ_HISTBUF && cache.place.at <= |Bytes(log)|
    requires AllStartRight(log, cache, requests)
    ensures RingReplies(log, cache, requests) == Answers(log, requests)
    decreases |requests|
  {
    hide Bytes, Latest, Walk, Right, Stored, TextFrom;
    if requests != [] {
      var request := requests[0];
      assert NoEos(requests[1..]);
      match request {
        case Put(command) =>
          NormalizeClean(command);
          CleanMore(log, command);
          BytesSplit(log, [Normalize(command)]);
        case Get(record, maxch) =>
          if record > 0 && log != [] {
            WalkBounds(log, StartOf(log, cache, record), record);
            OneReply(log, cache, record, maxch);
          } else {
            NoAnswer(log, record, maxch);
          }
      }
      RepliesAreAnswers(LogAfter(log, request), CacheAfter(log, cache, request), requests[1..]);
    }
  }

  lemma NoAnswer(log: seq<string>, record: int, maxch: int)
    requires record <= 0 || log == []
    ensures Answer(log, record, maxch) == None
  {
  }

  lemma OneReply(log: seq<string>, cache: Cache, record: int, maxch: int)
    requires Clean(log) && cache.place.at < SZ_HISTBUF && cache.place.at <= |Bytes(log)| && record > 0
    requires Right(log, StartOf(log, cache, record), record)
    ensures var outcome := Walk(log, StartOf(log, cache, record), record);
            Answer(log, record, maxch) ==
            if outcome.found then Some(Clip(TextFrom(Bytes(log), outcome.place.at), maxch)) else None
  {
    hide Bytes, Latest, TextFrom;
    var from := StartOf(log, cache, record);
    if Stored(log, record) { TextOfRecord(log, record); }
    if record > from.record { WalkLands(log, from, record); }
  }

  /** Without laps, every search starts right. */
  lemma {:induction false} LapFreeIsRight(log: seq<string>, cache: Cache, requests: seq<Request>)
    requires LapFree(log, cache.seen, requests)
    requires cache.seen == Some(|Bytes(log)|) ==> SoundPlace(log, cache.place)
    requires cache.seen.Some? ==> cache.seen.value <= |Bytes(log)|
    ensures AllStartRight(log, cache, requests)
    decreases |requests|
  {
    hide Bytes, Latest, Walk, Right, Stored;
    if requests != [] {
      var request := requests[0];
      match request {
        case Put(command) =>
          BytesSplit(log, [Normalize(command)]);
          BytesOfOne(Normalize(command));
        case Get(record, _) =>
          if record > 0 && log != [] {
            SoundIsRight(log, StartOf(log, cache, record), record);
          }
      }
      LapFreeIsRight(LogAfter(log, request), CacheAfter(log, cache, request), requests[1..]);
    }
  }

  /** The buffer remembers what the cache says. */
  ghost predicate Remembers(h: HistoryBuffer, cache: Cache)
    reads h
  {
    && h.currentRecord == cache.place.record
    && h.at == cache.place.at
    && if cache.seen == None then h.oldOpHist < 0 else h.oldOpHist == cache.seen.value % SZ_HISTBUF
  }

  lemma StartsThere(h: HistoryBuffer, cache: Cache, record: int)
    requires h.Valid() && Remembers(h, cache)
    ensures h.From(record) == StartOf(h.log, cache, record)
    ensures |Bytes(h.log)| % SZ_HISTBUF == h.opHist
  {
    hide Bytes, Mirrors;
    SamePlace(|Bytes(h.log)|, h.opHist, h.histbufFull, |Bytes(h.log)|, h.opHist, h.histbufFull);
    if cache.seen.Some? {
      var n := cache.seen.value;
      assert Wraps(n, n % SZ_HISTBUF, n / SZ_HISTBUF);
      SamePlace(n, n % SZ_HISTBUF, n / SZ_HISTBUF, |Bytes(h.log)|, h.opHist, h.histbufFull);
    }
  }

  /** Serve one request. */
  method Serve(h: HistoryBuffer, request: Request, ghost cache: Cache) returns (answers: seq<Option<string>>)
    requires h.Valid() && Remembers(h, cache)
    requires request.Put? ==> EOS !in request.command
    modifies h, h.histbuf
    ensures h.Valid() && h.log == LogAfter(old(h.log), request)
    ensures Remembers(h, CacheAfter(old(h.log), cache, request))
    ensures answers == RingReply(old(h.log), cache, request)
  {
    hide Bytes, Mirrors, Walk, Right, Locate, Stored, TextFrom, Normalize;
    match request {
      case Put(command) =>
        h.Put(command);
        answers := [];
      case Get(record, maxch) =>
        StartsThere(h, cache, record);
        var ok, command := h.Get(record, maxch);
        answers := [if ok then Some(command) else None];
    }
  }

  /** Every sequence of requests, laps included, is answered as the places that the search reaches say; and
      like a list of commands, as long as every search starts right, as it does without laps. */
  method Replay(requests: seq<Request>) returns (answers: seq<Option<string>>)
    requires NoEos(requests)
    ensures answers == RingReplies([], Cache(None, Place(0, 0)), requests)
    ensures AllStartRight([], Cache(None, Place(0, 0)), requests) ==> answers == Answers([], requests)
    ensures LapFree([], None, requests) ==> answers == Answers([], requests)
  {
    hide Bytes, Mirrors, Walk, LogAfter, CacheAfter, RingReply, AllStartRight, LapFree;
    var h := new HistoryBuffer();
    answers := [];
    ghost var cache := Cache(None, Place(0, 0));
    ghost var start := cache;
    for i := 0 to |requests|
      invariant h.Valid() && fresh(h) && fresh(h.histbuf)
      invariant Remembers(h, cache)
      invariant answers + RingReplies(h.log, cache, requests[i..]) == RingReplies([], start, requests)
    {
      assert requests[i..][1..] == requests[i + 1..];
      ghost var log := h.log;
      var reply := Serve(h, requests[i], cache);
      cache := CacheAfter(log, cache, requests[i]);
      answers := answers + reply;
    }
    if LapFree([], None, requests) { LapFreeIsRight([], start, requests); }
    if AllStartRight([], start, requests) { RepliesAreAnswers([], start, requests); }
  }

  function Puts(commands: seq<string>): seq<Request> {
    seq(|commands|, i requires 0 <= i < |commands| => Put(commands[i]))
  }

  /** What the answers mean: record k is what was put as the k-th last command. */
  lemma {:induction false} KthLastCommand(log: seq<string>, commands: seq<string>, k: int, maxch: int)
    ensures Answers(log, Puts(commands) + [Get(k, maxch)])
         == [if !Stored(log + Normalized(commands), k) then None
             else if k <= |commands| then Some(Clip(Normalize(commands[|commands| - k]), maxch))
             else Some(Clip(log[|log| + |commands| - k], maxch))]
    decreases |commands|
  {
    hide Stored, Clip, Normalize;
    var requests := Puts(commands) + [Get(k, maxch)];
    StoredBounds(log + Normalized(commands), k);
    if commands == [] {
      assert log + Normalized(commands) == log && requests == [Get(k, maxch)] && requests[1..] == [];
    } else {
      assert requests[1..] == Puts(commands[1..]) + [Get(k, maxch)];
      NormalizedFirst(commands);
      assert log + Normalized(commands) == (log + [Normalize(commands[0])]) + Normalized(commands[1..]);
      KthLastCommand(log + [Normalize(commands[0])], commands[1..], k, maxch);
      PutFirst(log, Cache(None, Place(0, 0)), commands[0], requests[1..]);
      assert requests == [Put(commands[0])] + requests[1..];
    }
  }

  lemma StoredBounds(log: seq<string>, k: int)
    ensures Stored(log, k) ==> 1 <= k <= |log|
  {
  }

  lemma {:induction false} NormalizedFirst(commands: seq<string>)
    requires commands != []
    ensures Normalized(commands) == [Normalize(commands[0])] + Normalized(commands[1..])
    decreases |commands|
  {
    hide Normalize;
    var n := |commands| - 1;
    if n > 0 {
      NormalizedFirst(commands[..n]);
      assert commands[1..][..n - 1] == commands[..n][1..];
    }
  }

  /** One short command, and then exactly SZ_HISTBUF bytes of four longer ones. */
  function LongLine(): string {
    seq(2046, _ => 'x')
  }

  function LappedLog(): seq<string> {
    ["a\n", LongLine() + "\n", LongLine() + "\n", LongLine() + "\n", LongLine() + "\n"]
  }

  lemma LappedBytes()
    ensures var w := Bytes(LappedLog()); |w| == 8195 && w[8192..] == "x\n" + [EOS]
    ensures Distance(LappedLog(), 1) == 2048 && Stored(LappedLog(), 1)
  {
    var line := LongLine() + "\n";
    var log := ["a\n", line, line, line, line];
    BytesOfOne("a\n");
    BytesOfOne(line);
    BytesSplit(["a\n"], [line]);
    BytesSplit(["a\n", line], [line, line]);
    BytesSplit([line], [line]);
    BytesSplit(["a\n", line, line, line], [line]);
    assert log == ["a\n", line] + [line, line] + [line];
    assert Latest(log, 1) == [line];
  }

  /** The first command put, and searched for. */
  lemma FirstSearch()
    ensures Walk(["a\n"], Place(0, 0), 1) == Outcome(true, Place(1, 3)) && |Bytes(["a\n"])| == 3
    ensures TextFrom(Bytes(["a\n"]), 3) == "a\n"
  {
    var log := ["a\n"];
    BytesOfOne("a\n");
    assert Latest(log, 1) == log;
    assert Stored(log, 1) && Recent(log, 1) == "a\n";
    NoDistance(log);
    TextOfRecord(log, 1);
    PassedIs(log, 0, 0);
    assert Next(log, 0) == Some(3);
  }

  /** The same search after a full lap. */
  lemma SecondSearch()
    ensures Unmoved(LappedLog(), Cache(Some(3), Place(1, 3)))
    ensures TextFrom(Bytes(LappedLog()), 3) == "x\n"
    ensures Answer(LappedLog(), 1, SZ_CMDBLK) == Some(LongLine() + "\n")
  {
    LappedBytes();
    UpToEosOf("x\n", "");
    assert "x\n" + [EOS] + "" == "x\n" + [EOS];
  }

  function LapRequests(): seq<Request> {
    [Put("a"), Get(1, SZ_CMDBLK), Put(LongLine()), Put(LongLine()), Put(LongLine()), Put(LongLine()), Get(1, SZ_CMDBLK)]
  }

  lemma PutFirst(log: seq<string>, cache: Cache, command: string, rest: seq<Request>)
    ensures RingReplies(log, cache, [Put(command)] + rest) == RingReplies(log + [Normalize(command)], cache, rest)
    ensures Answers(log, [Put(command)] + rest) == Answers(log + [Normalize(command)], rest)
  {
    assert ([Put(command)] + rest)[1..] == rest;
  }

  lemma GetFirst(log: seq<string>, cache: Cache, record: int, rest: seq<Request>)
    ensures RingReplies(log, cache, [Get(record, SZ_CMDBLK)] + rest)
         == RingReply(log, cache, Get(record, SZ_CMDBLK))
            + RingReplies(log, CacheAfter(log, cache, Get(record, SZ_CMDBLK)), rest)
    ensures Answers(log, [Get(record, SZ_CMDBLK)] + rest) == [Answer(log, record, SZ_CMDBLK)] + Answers(log, rest)
  {
    assert ([Get(record, SZ_CMDBLK)] + rest)[1..] == rest;
  }

  lemma LapReplies()
    ensures RingReplies([], Cache(None, Place(0, 0)), LapRequests()) == [Some("a\n"), Some("x\n")]
    ensures Answers([], LapRequests()) == [Some("a\n"), Some(LongLine() + "\n")]
  {
    hide Bytes, Walk, TextFrom, Normalize, RingReplies, Answers, LongLine, Unmoved, Answer;
    var none, one := Cache(None, Place(0, 0)), Cache(Some(3), Place(1, 3));
    var x, last := Put(LongLine()), [Get(1, SZ_CMDBLK)];
    LapLines();
    FirstSearch();
    SecondSearch();
    FirstReplies();
    assert LapRequests() == [Put("a")] + ([Get(1, SZ_CMDBLK)] + ([x] + ([x] + ([x] + ([x] + last)))));
    PutFirst([], none, "a", [Get(1, SZ_CMDBLK)] + ([x] + ([x] + ([x] + ([x] + last)))));
    GetFirst(["a\n"], none, 1, [x] + ([x] + ([x] + ([x] + last))));
    var line := LongLine() + "\n";
    PutFirst(["a\n"], one, LongLine(), [x] + ([x] + ([x] + last)));
    PutFirst(["a\n", line], one, LongLine(), [x] + ([x] + last));
    PutFirst(["a\n", line, line], one, LongLine(), [x] + last);
    PutFirst(["a\n", line, line, line], one, LongLine(), last);
    assert [] + ["a\n"] == ["a\n"];
    assert ["a\n"] + [line] == ["a\n", line];
    assert ["a\n", line] + [line] == ["a\n", line, line];
    assert ["a\n", line, line] + [line] == ["a\n", line, line, line];
    assert ["a\n", line, line, line] + [line] == LappedLog();
    assert last + [] == last;
    GetFirst(LappedLog(), one, 1, []);
    NoReplies(LappedLog());
  }

  lemma LapLines()
    ensures Normalize("a") == "a\n" && Normalize(LongLine()) == LongLine() + "\n"
  {
  }

  lemma FirstReplies()
    ensures RingReply(["a\n"], Cache(None, Place(0, 0)), Get(1, SZ_CMDBLK)) == [Some("a\n")]
    ensures CacheAfter(["a\n"], Cache(None, Place(0, 0)), Get(1, SZ_CMDBLK)) == Cache(Some(3), Place(1, 3))
    ensures RingReply(LappedLog(), Cache(Some(3), Place(1, 3)), Get(1, SZ_CMDBLK)) == [Some("x\n")]
    ensures Answer(["a\n"], 1, SZ_CMDBLK) == Some("a\n")
  {
    hide Bytes, Latest, TextFrom, LongLine, Unmoved;
    FirstSearch();
    SecondSearch();
    assert !Unmoved(["a\n"], Cache(None, Place(0, 0))) by { NotSeen(["a\n"]); }
    assert Stored(["a\n"], 1) by { WalkLands(["a\n"], Place(0, 0), 1); NoDistance(["a\n"]); StartsAt(["a\n"], 0); }
  }

  lemma NotSeen(log: seq<string>)
    ensures !Unmoved(log, Cache(None, Place(0, 0)))
  {
  }

  lemma NoReplies(log: seq<string>)
    ensures forall cache :: RingReplies(log, cache, []) == []
    ensures Answers(log, []) == []
  {
  }

  /** The full lap: after one search, exactly SZ_HISTBUF bytes of new commands leave op where it was,
      and the same search again gives the end of an old command instead of the last command. */
  method LapGoesUnnoticed() returns (got: seq<Option<string>>, expected: seq<Option<string>>)
    ensures got == [Some("a\n"), Some("x\n")]
    ensures expected == Answers([], LapRequests()) == [Some("a\n"), Some(LongLine() + "\n")]
  {
    hide RingReplies, Answers, Normalize;
    got := Replay(LapRequests());
    LapReplies();
    expected := [Some("a\n"), Some(LongLine() + "\n")];
  }
}
