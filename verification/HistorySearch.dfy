/** What a search of the history comes to, place after place, and which command it finds. */
module HistorySearch {
  import opened Options
  import opened HistorySpec

  /** What precedes the first EOS. */
  function UpToEos(s: string): (r: string)
    ensures EOS !in r
  {
    if s == "" || s[0] == EOS then "" else [s[0]] + UpToEos(s[1..])
  }

  lemma {:induction false} UpToEosOf(line: string, rest: string)
    requires EOS !in line
    ensures UpToEos(line + [EOS] + rest) == line
  {
    if line != "" {
      assert (line + [EOS] + rest)[1..] == line[1..] + [EOS] + rest;
      UpToEosOf(line[1..], rest);
    }
  }

  /** At most n characters. */
  function Take(s: string, n: nat): string {
    if n < |s| then s[..n] else s
  }

  /** The text that a place at distance d leads to. Place op itself holds the oldest byte of a ring that
      has been filled. */
  function TextFrom(w: string, d: nat): (r: string)
    ensures EOS !in r
  {
    var e := if d == 0 then SZ_HISTBUF else d;
    UpToEos(if e <= |w| then w[|w| - e..] else "")
  }

  lemma BytesEnd(log: seq<string>)
    requires log != []
    ensures Bytes(log) != "" && Bytes(log)[|Bytes(log)| - 1] == EOS
  {
  }

  /** The text at the place of a record is the record. */
  lemma TextOfRecord(log: seq<string>, k: int)
    requires Clean(log) && Stored(log, k)
    ensures 0 < Distance(log, k) <= |Bytes(log)| && TextFrom(Bytes(log), Distance(log, k)) == Recent(log, k)
  {
    hide Bytes, Latest, UpToEos;
    DistanceWithin(log, k);
    DistanceStep(log, k - 1);
    UpToEosOf(Recent(log, k), Bytes(Latest(log, k - 1)));
  }

  /** The texts at the places that a search comes to, turn after turn. */
  function Older(log: seq<string>, at: nat): seq<string>
    requires at < SZ_HISTBUF
    decreases if LastPlace(log, at) then SZ_HISTBUF + 1 else SZ_HISTBUF - at
  {
    NextBounds(log, at);
    match Next(log, at)
    case None => []
    case Some(next) => [Clip(TextFrom(Bytes(log), next), SZ_CMDBLK)] + Older(log, next)
  }

  /** The texts that a search for record 1, 2, ... meets; the first one may be remembered. */
  function Sought(log: seq<string>, from: Place): seq<string>
    requires from.at < SZ_HISTBUF
  {
    (if from.record == 1 then [Clip(TextFrom(Bytes(log), from.at), SZ_CMDBLK)] else []) + Older(log, from.at)
  }

  /** The stored commands that are older than record i, as they are fetched. */
  function StoredFrom(log: seq<string>, i: nat): seq<string>
    decreases |log| - i
  {
    if Stored(log, i + 1) then [Clip(Recent(log, i + 1), SZ_CMDBLK)] + StoredFrom(log, i + 1) else []
  }

  /** The i most recent commands, as they are fetched, newest first. */
  function Newest(log: seq<string>, i: nat): seq<string>
    requires i <= |log|
  {
    if i == 0 then [] else Newest(log, i - 1) + [Clip(Recent(log, i), SZ_CMDBLK)]
  }

  ghost function FirstMatch(texts: seq<string>, pattern: string, anywhere: bool): Option<string> {
    if texts == [] then None
    else if Matches(texts[0], pattern, anywhere) then Some(texts[0])
    else FirstMatch(texts[1..], pattern, anywhere)
  }

  /** An empty text counts as nothing found. */
  function NonEmpty(r: Option<string>): Option<string> {
    if r == Some("") then None else r
  }

  lemma {:induction false} FirstMatchJoin(a: seq<string>, b: seq<string>, pattern: string, anywhere: bool)
    ensures FirstMatch(a + b, pattern, anywhere)
         == if FirstMatch(a, pattern, anywhere) == None then FirstMatch(b, pattern, anywhere)
            else FirstMatch(a, pattern, anywhere)
  {
    if a == [] {
      assert a + b == b;
    } else {
      assert (a + b)[1..] == a[1..] + b;
      FirstMatchJoin(a[1..], b, pattern, anywhere);
    }
  }

  /** From the place of a record, the search meets the older stored records. */
  lemma {:induction false} OlderAtRecord(log: seq<string>, i: nat)
    requires Clean(log) && (i == 0 || Stored(log, i))
    ensures Distance(log, i) < SZ_HISTBUF && Older(log, Distance(log, i)) == StoredFrom(log, i)
    decreases |log| - i
  {
    hide Bytes, PassedFrom, Latest;
    NoDistance(log);
    if i > 0 { StoredWithin(log, i); }
    StartsAt(log, i);
    if Stored(log, i + 1) {
      TextOfRecord(log, i + 1);
      OlderAtRecord(log, i + 1);
    }
  }

  /** From any place, it meets the stored records that begin before it; from just behind op, first the text
      at op and then all of them. */
  lemma OlderAnywhere(log: seq<string>, at: nat)
    requires Clean(log) && at < SZ_HISTBUF
    ensures LastPlace(log, at) ==>
              Older(log, at) == [Clip(TextFrom(Bytes(log), 0), SZ_CMDBLK)] + StoredFrom(log, 0)
    ensures !LastPlace(log, at) ==> Older(log, at) == StoredFrom(log, Passed(log, at))
  {
    hide Bytes, PassedFrom, Latest;
    NoDistance(log);
    var i := Passed(log, at);
    if LastPlace(log, at) {
      OlderAtRecord(log, 0);
    } else if Stored(log, i + 1) {
      TextOfRecord(log, i + 1);
      OlderAtRecord(log, i + 1);
    }
  }

  lemma {:induction false} StoredSplit(log: seq<string>, i: nat)
    requires i == 0 || Stored(log, i)
    ensures StoredFrom(log, 0) == Newest(log, i) + StoredFrom(log, i)
  {
    if i > 0 {
      if i > 1 { StoredIsRecent(log, i - 1, i); }
      StoredSplit(log, i - 1);
    }
  }

  /** The most recent stored command that matches, if there is one. */
  ghost predicate IsAnswer(log: seq<string>, pattern: string, anywhere: bool, r: Option<string>) {
    match r
    case Some(command) => exists k :: IsEvent(log, k, pattern, anywhere) && command == Clip(Recent(log, k), SZ_CMDBLK)
    case None => forall k :: Stored(log, k) ==> !Matches(Clip(Recent(log, k), SZ_CMDBLK), pattern, anywhere)
  }

  lemma {:induction false} FirstStored(log: seq<string>, i: nat, pattern: string, anywhere: bool)
    requires Clean(log) && i <= |log|
    requires forall j :: 1 <= j <= i ==> !Matches(Clip(Recent(log, j), SZ_CMDBLK), pattern, anywhere)
    ensures IsAnswer(log, pattern, anywhere, FirstMatch(StoredFrom(log, i), pattern, anywhere))
    decreases |log| - i
  {
    hide Matches, Distance, Bytes;
    if Stored(log, i + 1) {
      var text := Clip(Recent(log, i + 1), SZ_CMDBLK);
      if Matches(text, pattern, anywhere) {
        assert IsEvent(log, i + 1, pattern, anywhere);
      } else {
        FirstStored(log, i + 1, pattern, anywhere);
      }
    } else {
      forall k | Stored(log, k) ensures k <= i {
        if k > i { StoredIsRecent(log, i + 1, k); }
      }
    }
  }

  lemma {:induction false} NeverEmpty(log: seq<string>, i: nat, pattern: string, anywhere: bool)
    requires Clean(log)
    ensures FirstMatch(StoredFrom(log, i), pattern, anywhere) != Some("")
    decreases |log| - i
  {
    hide Matches, Distance, Bytes;
    if Stored(log, i + 1) { NeverEmpty(log, i + 1, pattern, anywhere); }
  }

  /** After a full lap at record 1 the search starts with a wrong text f and may leave out the i newest
      commands. It finds the right command nevertheless if and only if f does not match and neither does
      any of those, or the command it finds reads the same. */
  lemma SearchIsRight(log: seq<string>, at: nat, pattern: string, anywhere: bool)
    requires Clean(log) && at < SZ_HISTBUF && at <= |Bytes(log)| && !LastPlace(log, at)
    ensures var f, i := Clip(TextFrom(Bytes(log), at), SZ_CMDBLK), Passed(log, at);
            NonEmpty(FirstMatch(Sought(log, Place(1, at)), pattern, anywhere))
              == FirstMatch(StoredFrom(log, 0), pattern, anywhere)
            <==> if Matches(f, pattern, anywhere)
                 then FirstMatch(StoredFrom(log, 0), pattern, anywhere) == NonEmpty(Some(f))
                 else || FirstMatch(Newest(log, i), pattern, anywhere) == None
                      || FirstMatch(Newest(log, i), pattern, anywhere)
                         == FirstMatch(StoredFrom(log, i), pattern, anywhere)
  {
    hide Bytes, PassedFrom, Latest, Matches, Older, Newest, StoredFrom, TextFrom;
    var f, i := Clip(TextFrom(Bytes(log), at), SZ_CMDBLK), Passed(log, at);
    if i > 0 { DistanceWithin(log, i); }
    OlderAnywhere(log, at);
    StoredSplit(log, i);
    FirstMatchJoin([f], StoredFrom(log, i), pattern, anywhere);
    FirstMatchJoin(Newest(log, i), StoredFrom(log, i), pattern, anywhere);
    assert [f][1..] == [];
    NeverEmpty(log, i, pattern, anywhere);
  }

  /** From just behind op it meets two wrong texts first, and then all the commands. */
  lemma SearchFromLastPlace(log: seq<string>, at: nat, pattern: string, anywhere: bool)
    requires Clean(log) && LastPlace(log, at)
    ensures var wrong := [Clip(TextFrom(Bytes(log), at), SZ_CMDBLK), Clip(TextFrom(Bytes(log), 0), SZ_CMDBLK)];
            NonEmpty(FirstMatch(Sought(log, Place(1, at)), pattern, anywhere))
              == FirstMatch(StoredFrom(log, 0), pattern, anywhere)
            <==> || FirstMatch(wrong, pattern, anywhere) == None
                 || NonEmpty(FirstMatch(wrong, pattern, anywhere)) == FirstMatch(StoredFrom(log, 0), pattern, anywhere)
  {
    hide Bytes, PassedFrom, Latest, Matches, Older, StoredFrom, TextFrom;
    var f, g := Clip(TextFrom(Bytes(log), at), SZ_CMDBLK), Clip(TextFrom(Bytes(log), 0), SZ_CMDBLK);
    OlderAnywhere(log, at);
    FirstMatchJoin([f, g], StoredFrom(log, 0), pattern, anywhere);
    assert Sought(log, Place(1, at)) == [f, g] + StoredFrom(log, 0);
    NeverEmpty(log, 0, pattern, anywhere);
  }

  lemma SoundSought(log: seq<string>, from: Place)
    requires Clean(log) && (from == Place(0, 0) || (from.record == 1 && Stored(log, 1) && Distance(log, 1) == from.at))
    ensures from.at < SZ_HISTBUF && Sought(log, from) == StoredFrom(log, 0)
  {
    hide Bytes, PassedFrom, Latest, TextFrom;
    NoDistance(log);
    OlderAtRecord(log, from.record);
    if from.record == 1 { TextOfRecord(log, 1); }
  }

  lemma NothingStored(log: seq<string>, pattern: string, anywhere: bool)
    requires log == []
    ensures IsAnswer(log, pattern, anywhere, None)
  {
  }

  /** `first` is the first match among the texts that the search for this record and older ones meets. */
  ghost predicate Sees(log: seq<string>, pattern: string, anywhere: bool, first: Option<string>, from: Place,
                       record: int)
    requires from.at < SZ_HISTBUF
  {
    && (from.record == record - 1 || from.record == record == 1)
    && first == FirstMatch(if record == 1 then Sought(log, from) else Older(log, from.at), pattern, anywhere)
  }

  lemma SeesOn(log: seq<string>, pattern: string, anywhere: bool, first: Option<string>, from: Place, record: int)
    requires from.at < SZ_HISTBUF && Sees(log, pattern, anywhere, first, from, record)
    ensures var o := Walk(log, from, record);
            && o.place.at < SZ_HISTBUF
            && (o.found ==>
                  var text := Clip(TextFrom(Bytes(log), o.place.at), SZ_CMDBLK);
                  && o.place.record == record
                  && (Matches(text, pattern, anywhere) ==> first == Some(text))
                  && (!Matches(text, pattern, anywhere) ==> Sees(log, pattern, anywhere, first, o.place, record + 1))
                  && (record > 1 ==> if LastPlace(log, from.at) then o.place.at == 0
                                     else from.at < o.place.at && !LastPlace(log, o.place.at)))
            && (!o.found ==> first == None)
  {
    hide Bytes, PassedFrom, Latest, TextFrom, Stored, Matches;
    NextBounds(log, from.at);
    var o := Walk(log, from, record);
    if record > from.record && Next(log, from.at).Some? {
      var next := Place(from.record + 1, Next(log, from.at).value);
      assert Walk(log, next, record) == Outcome(true, next);
    }
    var texts := if record == 1 then Sought(log, from) else Older(log, from.at);
    if o.found {
      var text := Clip(TextFrom(Bytes(log), o.place.at), SZ_CMDBLK);
      assert texts == [text] + Older(log, o.place.at);
      assert texts[1..] == Older(log, o.place.at);
    } else {
      assert texts == [];
    }
  }
}
