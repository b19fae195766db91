/** The glob matcher that decides which volumes may enter or leave a partition. */
module Glob {
  import opened Options

  /** A string character as the matcher sees it: seven bits, and never zero. */
  function Mask(c: char): nat {
    var low := c as int % 128;
    if low == 0 then 128 else low
  }

  predicate Ascii(s: string) {
    forall i :: 0 <= i < |s| ==> 0 < s[i] as int < 128
  }

  // ----- the matcher

  /** The bracket scan, after the opening bracket: what follows the closing one, if the character
      (0 at the end of the string) was accepted.  `last` is the latest plain character. */
  function Bracket(scc: nat, p: string, last: nat, ok: bool): Option<string>
    decreases |p|
  {
    if p == [] then None
    else if p[0] == ']' then (if ok then Some(p[1..]) else None)
    else if p[0] == '-' then
      if last <= scc then
        if |p| == 1 then None
        else Bracket(scc, p[2..], last, ok || scc <= p[1] as int)
      else Bracket(scc, p[1..], last, ok)
    else Bracket(scc, p[1..], p[0] as int, ok || scc == p[0] as int)
  }

  const NO_CHARACTER: nat := 32767

  lemma {:induction false} BracketShortens(scc: nat, p: string, last: nat, ok: bool)
    ensures Bracket(scc, p, last, ok).Some? ==> |Bracket(scc, p, last, ok).value| < |p|
    decreases |p|
  {
    if p != [] && p[0] != ']' {
      if p[0] == '-' {
        if last <= scc {
          if |p| > 1 {
            BracketShortens(scc, p[2..], last, ok || scc <= p[1] as int);
          }
        } else {
          BracketShortens(scc, p[1..], last, ok);
        }
      } else {
        BracketShortens(scc, p[1..], p[0] as int, ok || scc == p[0] as int);
      }
    }
  }

  function Match(s: string, p: string): bool
    decreases |p|, |s| + 1
  {
    if p == [] then s == []
    else if p[0] == '[' then
      BracketShortens(if s == [] then 0 else Mask(s[0]), p[1..], NO_CHARACTER, false);
      match Bracket(if s == [] then 0 else Mask(s[0]), p[1..], NO_CHARACTER, false)
      case None => false
      case Some(rest) => s != [] && Match(s[1..], rest)
    else if p[0] == '*' then StarMatch(s, p[1..])
    else s != [] && (p[0] == '?' || p[0] as int == Mask(s[0])) && Match(s[1..], p[1..])
  }

  /** After a star: anything if the pattern ends there; otherwise the rest of the pattern at some
      character of the string, which must not be its end. */
  function StarMatch(s: string, p: string): bool
    decreases |p|, |s| + 2
  {
    p == [] || (s != [] && (Match(s, p) || StarMatch(s[1..], p)))
  }

  function MatchList(globs: seq<string>, s: string): bool {
    globs == [] || exists i :: 0 <= i < |globs| && Match(s, globs[i])
  }

  // ----- the same with loops over the text

  method DoMatch(s: string, p: string) returns (b: bool)
    ensures b == Match(s, p)
    decreases |p|, |s| + 1
  {
    if p == [] {
      return s == [];
    }
    if p[0] == '[' {
      var scc := if s == [] then 0 else Mask(s[0]);
      BracketShortens(scc, p[1..], NO_CHARACTER, false);
      var rest := DoBracket(scc, p[1..]);
      if rest.None? || s == [] {
        return false;
      }
      b := DoMatch(s[1..], rest.value);
    } else if p[0] == '*' {
      b := DoStarMatch(s, p[1..]);
    } else if s != [] && (p[0] == '?' || p[0] as int == Mask(s[0])) {
      b := DoMatch(s[1..], p[1..]);
    } else {
      b := false;
    }
  }

  method DoBracket(scc: nat, p: string) returns (rest: Option<string>)
    ensures rest == Bracket(scc, p, NO_CHARACTER, false)
  {
    var i, last: nat, ok := 0, NO_CHARACTER, false;
    while i < |p|
      invariant 0 <= i <= |p|
      invariant Bracket(scc, p, NO_CHARACTER, false) == Bracket(scc, p[i..], last, ok)
    {
      var c := p[i];
      i := i + 1;
      if c == ']' {
        return if ok then Some(p[i..]) else None;
      } else if c == '-' {
        if last <= scc {
          if i == |p| {
            return None;
          }
          ok := ok || scc <= p[i] as int;
          i := i + 1;
        }
      } else {
        last := c as int;
        ok := ok || scc == last;
      }
    }
    return None;
  }

  method DoStarMatch(s: string, p: string) returns (b: bool)
    ensures b == StarMatch(s, p)
    decreases |p|, |s| + 2
  {
    if p == [] {
      return true;
    }
    var i := 0;
    while i < |s|
      invariant 0 <= i <= |s|
      invariant StarMatch(s, p) == StarMatch(s[i..], p)
    {
      b := DoMatch(s[i..], p);
      if b {
        return;
      }
      i := i + 1;
    }
    return false;
  }

  method DoMatchList(globs: seq<string>, s: string) returns (b: bool)
    ensures b == MatchList(globs, s)
  {
    if globs == [] {
      return true;
    }
    var i := 0;
    while i < |globs|
      invariant 0 <= i <= |globs|
      invariant forall j :: 0 <= j < i ==> !Match(s, globs[j])
    {
      b := DoMatch(s, globs[i]);
      if b {
        return;
      }
      i := i + 1;
    }
    return false;
  }

  // ----- what globs mean

  datatype Range = One(c: char) | Span(lo: char, hi: char)

  datatype Item = Lit(c: char) | Any | Star | Class(ranges: seq<Range>)

  predicate InRange(r: Range, c: char) {
    match r
    case One(d) => c == d
    case Span(lo, hi) => lo <= c <= hi
  }

  predicate Accepts(item: Item, c: char) {
    match item
    case Lit(d) => c == d
    case Any => true
    case Star => false
    case Class(ranges) => exists i :: 0 <= i < |ranges| && InRange(ranges[i], c)
  }

  /** The declarative meaning: a star stands for any text, everything else for one character. */
  ghost predicate Means(items: seq<Item>, s: string)
    decreases |items|
  {
    if items == [] then s == []
    else if items[0] == Star then exists k :: 0 <= k <= |s| && Means(items[1..], s[k..])
    else s != [] && Accepts(items[0], s[0]) && Means(items[1..], s[1..])
  }

  predicate RangeOk(r: Range) {
    match r
    case One(c) => 0 < c as int < 128 && c != ']' && c != '-'
    case Span(lo, hi) => 0 < lo as int <= hi as int < 128 && lo != ']' && lo != '-' && hi != ']' && hi != '-'
  }

  predicate ItemOk(item: Item) {
    match item
    case Lit(c) => 0 < c as int < 128 && c != '[' && c != '*' && c != '?'
    case Class(ranges) => ranges != [] && forall i :: 0 <= i < |ranges| ==> RangeOk(ranges[i])
    case _ => true
  }

  predicate ItemsOk(items: seq<Item>) {
    forall i :: 0 <= i < |items| ==> ItemOk(items[i])
  }

  // ----- how they are written

  function WriteRanges(ranges: seq<Range>): string {
    if ranges == [] then "]"
    else (match ranges[0] case One(c) => [c] case Span(lo, hi) => [lo, '-', hi]) + WriteRanges(ranges[1..])
  }

  function WriteItem(item: Item): string {
    match item
    case Lit(c) => [c]
    case Any => "?"
    case Star => "*"
    case Class(ranges) => "[" + WriteRanges(ranges)
  }

  function Write(items: seq<Item>): string {
    if items == [] then "" else WriteItem(items[0]) + Write(items[1..])
  }

  // ----- the matcher against the meaning

  predicate Hit(r: Range, scc: nat) {
    match r
    case One(c) => scc == c as int
    case Span(lo, hi) => lo as int <= scc <= hi as int
  }

  predicate HitAny(ranges: seq<Range>, scc: nat) {
    exists i :: 0 <= i < |ranges| && Hit(ranges[i], scc)
  }

  predicate RangesOk(ranges: seq<Range>) {
    forall i :: 0 <= i < |ranges| ==> RangeOk(ranges[i])
  }

  lemma HitFirst(ranges: seq<Range>, scc: nat)
    requires ranges != []
    ensures HitAny(ranges, scc) <==> Hit(ranges[0], scc) || HitAny(ranges[1..], scc)
  {
    if i :| 0 <= i < |ranges[1..]| && Hit(ranges[1..][i], scc) {
      assert Hit(ranges[i + 1], scc);
    }
    if i :| 0 < i < |ranges| && Hit(ranges[i], scc) {
      assert Hit(ranges[1..][i - 1], scc);
    }
  }

  lemma NoHit(scc: nat)
    ensures !HitAny([], scc)
  {
  }

  lemma ReadsEnd(scc: nat, rest: string, last: nat, ok: bool)
    ensures Bracket(scc, WriteRanges([]) + rest, last, ok) == if ok then Some(rest) else None
  {
    assert (WriteRanges([]) + rest)[1..] == rest;
  }

  lemma ReadsOne(scc: nat, c: char, q: string, last: nat, ok: bool)
    requires RangeOk(One(c))
    ensures Bracket(scc, [c] + q, last, ok) == Bracket(scc, q, c as int, ok || scc == c as int)
  {
    assert ([c] + q)[1..] == q;
  }

  lemma ReadsSpan(scc: nat, lo: char, hi: char, q: string, last: nat, ok: bool)
    requires RangeOk(Span(lo, hi))
    ensures Bracket(scc, [lo, '-', hi] + q, last, ok)
         == if lo as int <= scc then Bracket(scc, q, lo as int, ok || scc == lo as int || scc <= hi as int)
            else Bracket(scc, q, hi as int, ok)
  {
    var p := [lo, '-', hi] + q;
    assert p[1..] == ['-', hi] + q && p[1..][2..] == q;
    if lo as int > scc {
      assert p[1..][1..] == [hi] + q && p[1..][1..][1..] == q;
      assert Bracket(scc, p, last, ok) == Bracket(scc, p[1..], lo as int, ok);
      assert Bracket(scc, p[1..], lo as int, ok) == Bracket(scc, [hi] + q, lo as int, ok);
    }
  }

  /** The bracket scan over a written class finds its end and whether the character is in it. */
  lemma {:induction false} BracketReads(scc: nat, ranges: seq<Range>, rest: string, last: nat, ok: bool)
    requires RangesOk(ranges)
    ensures Bracket(scc, WriteRanges(ranges) + rest, last, ok)
         == if ok || HitAny(ranges, scc) then Some(rest) else None
  {
    hide Bracket, HitAny;
    if ranges == [] {
      ReadsEnd(scc, rest, last, ok);
      assert !HitAny(ranges, scc) by { NoHit(scc); }
    } else {
      var r, more := ranges[0], ranges[1..];
      var q := WriteRanges(more) + rest;
      HitFirst(ranges, scc);
      match r
      case One(c) =>
        assert WriteRanges(ranges) + rest == [c] + q;
        ReadsOne(scc, c, q, last, ok);
        BracketReads(scc, more, rest, c as int, ok || scc == c as int);
      case Span(lo, hi) =>
        assert WriteRanges(ranges) + rest == [lo, '-', hi] + q;
        ReadsSpan(scc, lo, hi, q, last, ok);
        if lo as int <= scc {
          BracketReads(scc, more, rest, lo as int, ok || scc == lo as int || scc <= hi as int);
        } else {
          BracketReads(scc, more, rest, hi as int, ok);
        }
    }
  }

  /** The meaning of a pattern for the matcher: a star that is not last must leave a character. */
  ghost predicate Code(items: seq<Item>, s: string)
    decreases |items|
  {
    if items == [] then s == []
    else if items[0] == Star then
      items[1..] == [] || exists k :: 0 <= k < |s| && Code(items[1..], s[k..])
    else s != [] && Accepts(items[0], s[0]) && Code(items[1..], s[1..])
  }

  lemma {:induction false} StarMatchSearches(s: string, p: string)
    ensures StarMatch(s, p) <==> p == [] || exists k :: 0 <= k < |s| && Match(s[k..], p)
    decreases |s|
  {
    if p != [] && s != [] {
      assert s[0..] == s;
      StarMatchSearches(s[1..], p);
      if k :| 0 <= k < |s[1..]| && Match(s[1..][k..], p) {
        assert s[1..][k..] == s[k + 1..];
      }
      if k :| 0 < k < |s| && Match(s[k..], p) {
        assert s[1..][k - 1..] == s[k..];
      }
    }
  }

  lemma {:induction false} MatchIsCode(s: string, items: seq<Item>)
    requires Ascii(s) && ItemsOk(items)
    ensures Match(s, Write(items)) <==> Code(items, s)
    decreases |items|, 1
  {
    if items != [] {
      var more := items[1..];
      if items[0] == Star {
        forall k | 0 <= k < |s| ensures Match(s[k..], Write(more)) <==> Code(more, s[k..]) {
          MatchIsCode(s[k..], more);
        }
        MatchStar(s, more);
        assert items == [Star] + more;
      } else {
        if s != [] {
          MatchIsCode(s[1..], more);
        }
        MatchOne(s, items[0], Write(more));
      }
    }
  }

  lemma MatchStar(s: string, more: seq<Item>)
    requires ItemsOk(more)
    requires forall k :: 0 <= k < |s| ==> (Match(s[k..], Write(more)) <==> Code(more, s[k..]))
    ensures Match(s, WriteItem(Star) + Write(more)) <==> Code([Star] + more, s)
  {
    var p := WriteItem(Star) + Write(more);
    assert p[0] == '*' && p[1..] == Write(more);
    assert ([Star] + more)[1..] == more;
    StarMatchSearches(s, Write(more));
    assert Write(more) == [] <==> more == [];
  }

  lemma MatchOpens(s: string, p: string)
    requires p != [] && p[0] == '['
    ensures var left := Bracket(if s == [] then 0 else Mask(s[0]), p[1..], NO_CHARACTER, false);
      Match(s, p) <==> left.Some? && s != [] && Match(s[1..], left.value)
  {
    hide Bracket;
  }

  lemma MatchClass(s: string, ranges: seq<Range>, rest: string)
    requires Ascii(s) && ItemOk(Class(ranges))
    ensures Match(s, WriteItem(Class(ranges)) + rest)
       <==> s != [] && Accepts(Class(ranges), s[0]) && Match(s[1..], rest)
  {
    var p := WriteItem(Class(ranges)) + rest;
    assert p[0] == '[' && p[1..] == WriteRanges(ranges) + rest;
    hide Bracket, WriteRanges, WriteItem, Match, Accepts, HitAny, InRange, Hit;
    MatchOpens(s, p);
    BracketReads(if s == [] then 0 else Mask(s[0]), ranges, rest, NO_CHARACTER, false);
    if s != [] {
      ClassHit(ranges, s[0]);
    }
  }

  lemma ClassHit(ranges: seq<Range>, c: char)
    requires 0 < c as int < 128
    ensures Accepts(Class(ranges), c) <==> HitAny(ranges, Mask(c))
  {
    assert forall i :: 0 <= i < |ranges| ==> (InRange(ranges[i], c) <==> Hit(ranges[i], Mask(c)));
  }

  /** An item other than a star takes one character. */
  lemma MatchOne(s: string, item: Item, rest: string)
    requires Ascii(s) && ItemOk(item) && item != Star
    ensures Match(s, WriteItem(item) + rest) <==> s != [] && Accepts(item, s[0]) && Match(s[1..], rest)
  {
    if item.Class? {
      MatchClass(s, item.ranges, rest);
    } else {
      assert (WriteItem(item) + rest)[1..] == rest;
    }
  }

  predicate EndsInTwoStars(items: seq<Item>) {
    |items| >= 2 && items[|items| - 1] == Star && items[|items| - 2] == Star
  }

  lemma {:induction false} EmptyMeansStars(items: seq<Item>)
    requires Means(items, [])
    ensures forall i :: 0 <= i < |items| ==> items[i] == Star
    decreases |items|
  {
    if items != [] {
      EmptyMeansStars(items[1..]);
      assert forall i :: 0 < i < |items| ==> items[i] == items[1..][i - 1];
    }
  }

  lemma {:induction false} CodeSound(items: seq<Item>, s: string)
    requires Code(items, s)
    ensures Means(items, s)
    decreases |items|
  {
    if items != [] {
      if items[0] == Star {
        if items[1..] == [] {
          assert Means(items[1..], s[|s|..]);
        } else {
          var k :| 0 <= k < |s| && Code(items[1..], s[k..]);
          CodeSound(items[1..], s[k..]);
        }
      } else {
        CodeSound(items[1..], s[1..]);
      }
    }
  }

  lemma StarsEnd(items: seq<Item>)
    requires |items| >= 2 && items[0] == Star && Means(items[1..], [])
    ensures EndsInTwoStars(items)
  {
    EmptyMeansStars(items[1..]);
    assert forall i :: 0 < i < |items| ==> items[i] == items[1..][i - 1];
  }

  lemma {:induction false} CodeComplete(items: seq<Item>, s: string)
    requires Means(items, s) && !EndsInTwoStars(items)
    ensures Code(items, s)
    decreases |items|
  {
    if items != [] {
      var more := items[1..];
      assert !EndsInTwoStars(more);
      if items[0] == Star {
        var k :| 0 <= k <= |s| && Means(more, s[k..]);
        if more != [] {
          if k == |s| {
            StarsEnd(items);
            assert false;
          }
          CodeComplete(more, s[k..]);
        }
      } else {
        CodeComplete(more, s[1..]);
      }
    }
  }

  /** The shortest text a pattern stands for. */
  function Sample(items: seq<Item>): string
    requires ItemsOk(items)
  {
    if items == [] then ""
    else
      (match items[0]
       case Lit(c) => [c]
       case Any => "a"
       case Star => ""
       case Class(ranges) => match ranges[0] case One(c) => [c] case Span(lo, hi) => [lo])
      + Sample(items[1..])
  }

  lemma {:induction false} SampleMeans(items: seq<Item>)
    requires ItemsOk(items)
    ensures Means(items, Sample(items)) && Ascii(Sample(items))
  {
    if items != [] {
      var more, s := items[1..], Sample(items);
      SampleMeans(more);
      if items[0] == Star {
        assert s == Sample(more) && s[0..] == s;
      } else {
        assert s[1..] == Sample(more);
        if items[0].Class? {
          assert InRange(items[0].ranges[0], s[0]);
        }
      }
    }
  }

  lemma {:induction false} CodeNeedsMore(items: seq<Item>, s: string)
    requires ItemsOk(items) && Code(items, s)
    ensures |s| >= |Sample(items)| + if EndsInTwoStars(items) then 1 else 0
    decreases |items|
  {
    if items != [] {
      var more := items[1..];
      assert |items| > 2 ==> (EndsInTwoStars(items) <==> EndsInTwoStars(more));
      if items[0] == Star {
        if more != [] {
          var k :| 0 <= k < |s| && Code(more, s[k..]);
          CodeNeedsMore(more, s[k..]);
          assert |items| == 2 && EndsInTwoStars(items) ==> more == [Star];
        }
      } else {
        CodeNeedsMore(more, s[1..]);
      }
    }
  }

  /** For every well-written pattern, the matcher agrees with the meaning of globs on all 7-bit
      strings if and only if the pattern does not end in two stars. */
  lemma MatchIffMeans(items: seq<Item>)
    requires ItemsOk(items)
    ensures (forall s :: Ascii(s) ==> (Match(s, Write(items)) <==> Means(items, s))) <==> !EndsInTwoStars(items)
  {
    if EndsInTwoStars(items) {
      var s := Sample(items);
      SampleMeans(items);
      MatchIsCode(s, items);
      if Code(items, s) {
        CodeNeedsMore(items, s);
      }
    } else {
      forall s | Ascii(s) ensures Match(s, Write(items)) <==> Means(items, s) {
        MatchIsCode(s, items);
        if Code(items, s) {
          CodeSound(items, s);
        }
        if Means(items, s) {
          CodeComplete(items, s);
        }
      }
    }
  }

  ghost function WriteAll(globs: seq<seq<Item>>): seq<string> {
    seq(|globs|, i requires 0 <= i < |globs| => Write(globs[i]))
  }

  /** A list accepts the union of its globs, and the empty list everything. */
  lemma MatchListIsUnion(globs: seq<seq<Item>>, s: string)
    requires Ascii(s) && forall i :: 0 <= i < |globs| ==> ItemsOk(globs[i]) && !EndsInTwoStars(globs[i])
    ensures MatchList(WriteAll(globs), s) <==> globs == [] || exists i :: 0 <= i < |globs| && Means(globs[i], s)
  {
    forall i | 0 <= i < |globs| ensures Match(s, WriteAll(globs)[i]) <==> Means(globs[i], s) {
      MatchIffMeans(globs[i]);
    }
    if MatchList(WriteAll(globs), s) && globs != [] {
      var i :| 0 <= i < |globs| && Match(s, WriteAll(globs)[i]);
      assert Means(globs[i], s);
    }
    if i :| 0 <= i < |globs| && Means(globs[i], s) {
      assert Match(s, WriteAll(globs)[i]);
    }
  }
}
