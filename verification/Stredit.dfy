/** The string editor behind the history directives: substitution of a text for a pattern. */
module Stredit {
  import opened Options

  predicate OccursAt(s: string, pattern: string, p: nat) {
    p <= |s| && pattern <= s[p..]
  }

  /** The pattern occurs at p and nowhere before. */
  ghost predicate FirstAt(s: string, pattern: string, p: nat) {
    OccursAt(s, pattern, p) && forall i :: 0 <= i < p ==> !OccursAt(s, pattern, i)
  }

  ghost predicate Absent(s: string, pattern: string) {
    forall i :: 0 <= i <= |s| ==> !OccursAt(s, pattern, i)
  }

  /** Strings joined by a separator. */
  function Join(segments: seq<string>, sep: string): string {
    if segments == [] then ""
    else if |segments| == 1 then segments[0]
    else segments[0] + sep + Join(segments[1..], sep)
  }

  /** Reading s from left to right, the segments are what lies between occurrences of the pattern:
      each one ends where the pattern occurs first in what is left, and the last one is free of it. */
  ghost predicate LeftmostCut(s: string, pattern: string, segments: seq<string>)
    decreases |segments|
  {
    && segments != []
    && if |segments| == 1 then segments[0] == s && Absent(s, pattern)
       else FirstAt(s, pattern, |segments[0]|)
            && segments[0] <= s
            && LeftmostCut(s[|segments[0]| + |pattern|..], pattern, segments[1..])
  }

  /** There is only one way to cut a string like that. */
  lemma {:induction false} CutUnique(s: string, pattern: string, a: seq<string>, b: seq<string>)
    requires LeftmostCut(s, pattern, a) && LeftmostCut(s, pattern, b)
    ensures a == b
    decreases |a|
  {
    if |a| > 1 && |b| > 1 {
      assert |a[0]| == |b[0]|;
      assert a[0] == s[..|a[0]|] == b[0];
      CutUnique(s[|a[0]| + |pattern|..], pattern, a[1..], b[1..]);
      assert a == [a[0]] + a[1..] && b == [b[0]] + b[1..];
    }
  }

  /** Substituting the pattern for itself changes nothing. */
  lemma {:induction false} CutJoins(s: string, pattern: string, segments: seq<string>)
    requires LeftmostCut(s, pattern, segments)
    ensures Join(segments, pattern) == s
    decreases |segments|
  {
    if |segments| > 1 {
      var p := |segments[0]|;
      CutJoins(s[p + |pattern|..], pattern, segments[1..]);
      assert s[p..][..|pattern|] == pattern;
      assert s == segments[0] + pattern + s[p + |pattern|..];
    }
  }

  lemma {:induction false} JoinExtends(segments: seq<string>, last: string, sep: string)
    requires segments != []
    ensures Join(segments + [last], sep) == Join(segments, sep) + sep + last
  {
    if |segments| == 1 {
      assert (segments + [last])[1..] == [last];
    } else {
      assert (segments + [last])[1..] == segments[1..] + [last];
      JoinExtends(segments[1..], last, sep);
    }
  }

  /** The cut found so far: the segments before position i, each one followed by the pattern. */
  ghost predicate CutUpTo(s: string, pattern: string, segments: seq<string>, i: nat)
    decreases |segments|
  {
    if segments == [] then i == 0
    else FirstAt(s, pattern, |segments[0]|)
         && segments[0] <= s
         && |segments[0]| + |pattern| <= i <= |s|
         && CutUpTo(s[|segments[0]| + |pattern|..], pattern, segments[1..], i - |segments[0]| - |pattern|)
  }

  lemma {:induction false} CutExtends(s: string, pattern: string, segments: seq<string>, i: nat, p: nat)
    requires i <= p && CutUpTo(s, pattern, segments, i) && i <= |s|
    requires FirstAt(s[i..], pattern, p - i)
    ensures p + |pattern| <= |s| && CutUpTo(s, pattern, segments + [s[i..p]], p + |pattern|)
    decreases |segments|
  {
    hide LeftmostCut, FirstAt, CutUpTo;
    FirstFits(s[i..], pattern, p - i);
    CutOpened(s, pattern, segments, i);
    var last := s[i..p];
    if segments == [] {
      assert s[i..] == s;
      CutInFront(s, pattern, last, [], p + |pattern|);
      assert segments + [last] == [last] + [];
    } else {
      var n := |segments[0]| + |pattern|;
      PartAfter(s, n, i, p);
      CutExtends(s[n..], pattern, segments[1..], i - n, p - n);
      CutInFront(s, pattern, segments[0], segments[1..] + [last], p + |pattern|);
      assert segments + [last] == [segments[0]] + (segments[1..] + [last]);
    }
  }

  lemma CutOpened(s: string, pattern: string, segments: seq<string>, i: nat)
    requires CutUpTo(s, pattern, segments, i)
    ensures segments == [] ==> i == 0
    ensures segments != [] ==> var n := |segments[0]| + |pattern|;
              && FirstAt(s, pattern, |segments[0]|) && segments[0] <= s && n <= i <= |s|
              && CutUpTo(s[n..], pattern, segments[1..], i - n)
    ensures forall t: string :: CutUpTo(t, pattern, [], 0)
  {
  }

  lemma FirstFits(s: string, pattern: string, k: nat)
    requires FirstAt(s, pattern, k)
    ensures k + |pattern| <= |s|
  {
  }

  lemma PartAfter(s: string, n: nat, i: nat, p: nat)
    requires n <= i <= p <= |s|
    ensures s[n..][i - n..] == s[i..] && s[n..][i - n..p - n] == s[i..p]
  {
  }

  lemma CutInFront(s: string, pattern: string, first: string, segments: seq<string>, i: nat)
    requires first <= s && FirstAt(s, pattern, |first|) && |first| + |pattern| <= i <= |s|
    requires CutUpTo(s[|first| + |pattern|..], pattern, segments, i - |first| - |pattern|)
    ensures CutUpTo(s, pattern, [first] + segments, i)
  {
    assert ([first] + segments)[1..] == segments;
  }

  lemma {:induction false} CutEnds(s: string, pattern: string, segments: seq<string>, i: nat)
    requires i <= |s| && CutUpTo(s, pattern, segments, i)
    requires Absent(s[i..], pattern)
    ensures LeftmostCut(s, pattern, segments + [s[i..]])
    decreases |segments|
  {
    if segments == [] {
      assert s[i..] == s;
    } else {
      var n := |segments[0]| + |pattern|;
      assert s[n..][i - n..] == s[i..];
      CutEnds(s[n..], pattern, segments[1..], i - n);
      assert (segments + [s[i..]])[1..] == segments[1..] + [s[i..]];
    }
  }

  /** Copy the text up to the next match, or to its end. */
  method Advance(inText: string, pattern: string, from: nat) returns (copied: string, ip: nat, found: bool)
    requires from < |inText|
    ensures from <= ip <= |inText| && copied == inText[from..ip]
    ensures pattern == "" ==> !found
    ensures found ==> ip < |inText| && pattern <= inText[ip..] && FirstAt(inText[from..], pattern, ip - from)
    ensures !found ==> ip == |inText| && (pattern != "" ==> Absent(inText[from..], pattern))
  {
    copied, ip, found := "", from, false;
    while ip < |inText|
      invariant from <= ip <= |inText|
      invariant copied == inText[from..ip]
      invariant pattern != "" ==> forall i :: 0 <= i < ip - from ==> !OccursAt(inText[from..], pattern, i)
    {
      assert inText[from..][ip - from..] == inText[ip..];
      if pattern != "" && inText[ip] == pattern[0] && pattern <= inText[ip..] {
        found := true;
        break;
      }
      copied := copied + [inText[ip]];
      ip := ip + 1;
    }
  }

  /** Where a global substitution stands: everything before ip has been cut and copied with the new
      text, and once the end is reached the last segment may have been copied as well. */
  ghost predicate Progress(s: string, pattern: string, text: string, segments: seq<string>, ip: nat, out: string) {
    || (segments == [] && ip == 0 && out == "")
    || (segments != [] && ip <= |s| && CutUpTo(s, pattern, segments, ip) && out == Join(segments, text) + text)
    || (ip == |s| && LeftmostCut(s, pattern, segments) && out == Join(segments, text))
  }

  lemma ProgressAtMatch(s: string, pattern: string, text: string, segments: seq<string>, from: nat, out: string,
                        ip: nat)
    requires from < |s| && Progress(s, pattern, text, segments, from, out)
    requires from <= ip && FirstAt(s[from..], pattern, ip - from)
    ensures ip + |pattern| <= |s|
    ensures Progress(s, pattern, text, segments + [s[from..ip]], ip + |pattern|, out + s[from..ip] + text)
    ensures !Absent(s, pattern)
  {
    CutExtends(s, pattern, segments, from, ip);
    if segments != [] { JoinExtends(segments, s[from..ip], text); }
    OccursBeyond(s, pattern, from, ip - from);
  }

  lemma ProgressAtEnd(s: string, pattern: string, text: string, segments: seq<string>, from: nat, out: string)
    requires segments != [] && from <= |s| && CutUpTo(s, pattern, segments, from) && out == Join(segments, text) + text
    requires Absent(s[from..], pattern)
    ensures Progress(s, pattern, text, segments + [s[from..]], |s|, out + s[from..])
    ensures LeftmostCut(s, pattern, segments + [s[from..]])
    ensures out + s[from..] == Join(segments + [s[from..]], text)
  {
    CutEnds(s, pattern, segments, from);
    JoinExtends(segments, s[from..], text);
  }

  /** The text with the pattern's first occurrence, at p, replaced. */
  ghost predicate ReplacedAt(s: string, pattern: string, text: string, out: string, p: nat) {
    && FirstAt(s, pattern, p)
    && p + |pattern| <= |s|
    && out == s[..p] + text + s[p + |pattern|..]
  }

  /** Edit a text: replace the first occurrence of the pattern, or all of them. None is the error
      "No match". The empty pattern repeats the text without change. */
  method Edit(inText: string, pattern: string, text: string, all: bool)
    returns (r: Option<string>, ghost segments: seq<string>)
    ensures pattern == "" || inText == "" ==> r == Some(inText)
    ensures pattern != "" && inText != "" ==> (r == None <==> Absent(inText, pattern))
    ensures pattern != "" && inText != "" && r.Some? && !all ==>
              exists p :: ReplacedAt(inText, pattern, text, r.value, p)
    ensures pattern != "" && inText != "" && r.Some? && all ==>
              LeftmostCut(inText, pattern, segments) && r.value == Join(segments, text)
  {
    hide Join, Absent;
    var out, ip, nmatches := "", 0, 0;
    segments := [];
    while ip < |inText|
      invariant ip <= |inText|
      invariant Progress(inText, pattern, text, segments, ip, out)
      invariant segments == [] ==> ip == 0 && nmatches == 0
      invariant segments != [] ==> all && pattern != "" && nmatches > 0 && !Absent(inText, pattern)
    {
      // Advance to the next match.
      ghost var from, before := ip, out;
      var copied, found;
      copied, ip, found := Advance(inText, pattern, ip);
      out := out + copied;
      if found {
        nmatches := nmatches + 1;
      }
      if |pattern| == 0 {
        assert out == inText[0..] == inText;
        break;
      } else if nmatches == 0 {
        assert inText[0..] == inText;
        return None, segments;
      }

      // Copy the replacement string, advance past the matched string, if there is a match.
      if ip < |inText| && inText[ip] == pattern[0] {
        ProgressAtMatch(inText, pattern, text, segments, from, before, ip);
        segments := segments + [inText[from..ip]];
        out := out + text;
        ip := ip + |pattern|;
      } else {
        ProgressAtEnd(inText, pattern, text, segments, from, before);
        assert inText[from..] == inText[from..ip];
        segments := segments + [inText[from..]];
      }

      if !all {
        out := out + inText[ip..];
        assert inText[0..] == inText;
        assert ReplacedAt(inText, pattern, text, out, ip - |pattern|);
        break;
      }
    }
    r := Some(out);
    if all && segments != [] {
      segments := CutFinished(inText, pattern, text, segments, ip, out);
    }
  }

  /** At the end of the text the cut is complete. */
  lemma CutFinished(s: string, pattern: string, text: string, segments: seq<string>, ip: nat, out: string)
    returns (cut: seq<string>)
    requires Progress(s, pattern, text, segments, ip, out) && segments != [] && ip == |s| && pattern != ""
    ensures LeftmostCut(s, pattern, cut) && out == Join(cut, text)
  {
    cut := segments;
    if !(LeftmostCut(s, pattern, segments) && out == Join(segments, text)) {
      ProgressAtEnd(s, pattern, text, segments, ip, out);
      assert out == out + s[ip..];
      cut := segments + [s[ip..]];
    }
  }

  lemma OccursBeyond(s: string, pattern: string, from: nat, p: nat)
    requires from <= |s| && OccursAt(s[from..], pattern, p)
    ensures !Absent(s, pattern)
  {
    assert s[from..][p..] == s[from + p..];
    assert OccursAt(s, pattern, from + p);
  }
}
