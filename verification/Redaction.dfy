/**
  Merging overlapping secret spans and replacing them in a text (src/security/secrets.ts).
  The order of a sort among equals is left open: nothing depends on it.
 */
module Redaction {
  import opened Common

  datatype Span = Span(start: nat, end: nat)

  const MARK := "[REDACTED]"

  ghost predicate InRange(spans: seq<Span>, length: nat) {
    forall m :: m in spans ==> m.start < m.end <= length
  }

  // ---------------------------------------------- what redaction must yield

  /** Some span holds position i. */
  ghost predicate Covered(spans: seq<Span>, i: int) {
    exists m :: m in spans && m.start <= i < m.end
  }

  /** Some span holds both position i and the one before it. */
  ghost predicate Inside(spans: seq<Span>, i: int) {
    exists m :: m in spans && m.start < i < m.end
  }

  /** A group of overlapping spans begins; spans that merely touch are different groups. */
  ghost predicate Begins(spans: seq<Span>, i: int) {
    Covered(spans, i) && !Inside(spans, i)
  }

  /** The first n positions redacted: a mark for every group, the uncovered characters in order. */
  ghost function Redacted(text: string, spans: seq<Span>, n: nat): string
    requires n <= |text|
  {
    if n == 0 then ""
    else
      Redacted(text, spans, n - 1) + (if Begins(spans, n - 1) then MARK else "") +
      (if Covered(spans, n - 1) then "" else [text[n - 1]])
  }

  /** The number of groups that begin among the first n positions. */
  ghost function Groups(spans: seq<Span>, n: nat): nat {
    if n == 0 then 0 else Groups(spans, n - 1) + if Begins(spans, n - 1) then 1 else 0
  }

  /** Same positions covered and joined: same text, same count. */
  ghost predicate SameGroups(a: seq<Span>, b: seq<Span>) {
    forall i :: (Covered(a, i) <==> Covered(b, i)) && (Inside(a, i) <==> Inside(b, i))
  }

  lemma {:induction false} SameGroupsSameText(text: string, a: seq<Span>, b: seq<Span>, n: nat)
    requires SameGroups(a, b) && n <= |text|
    ensures Redacted(text, a, n) == Redacted(text, b, n) && Groups(a, n) == Groups(b, n)
  {
    if n > 0 {
      SameGroupsSameText(text, a, b, n - 1);
    }
  }

  lemma {:induction false} SameSpansSameGroups(a: seq<Span>, b: seq<Span>)
    requires forall m :: m in a <==> m in b
    ensures SameGroups(a, b)
  {
  }

  /** A stretch that belongs to one group adds nothing. */
  lemma {:induction false} InsideStretch(text: string, spans: seq<Span>, lo: nat, hi: nat)
    requires lo <= hi <= |text| && forall i :: lo <= i < hi ==> Inside(spans, i)
    ensures Redacted(text, spans, hi) == Redacted(text, spans, lo) && Groups(spans, hi) == Groups(spans, lo)
  {
    if lo < hi {
      InsideStretch(text, spans, lo, hi - 1);
      assert Inside(spans, hi - 1);
      var m :| m in spans && m.start < hi - 1 < m.end;
      assert Covered(spans, hi - 1);
    }
  }

  /** An uncovered stretch is copied. */
  lemma {:induction false} ClearStretch(text: string, spans: seq<Span>, lo: nat, hi: nat)
    requires lo <= hi <= |text| && forall i :: lo <= i < hi ==> !Covered(spans, i)
    ensures Redacted(text, spans, hi) == Redacted(text, spans, lo) + text[lo..hi]
              && Groups(spans, hi) == Groups(spans, lo)
  {
    if lo < hi {
      ClearStretch(text, spans, lo, hi - 1);
      AppendAssoc(Redacted(text, spans, lo), text[lo..hi - 1], [text[hi - 1]]);
      assert text[lo..hi] == text[lo..hi - 1] + [text[hi - 1]];
      assert Redacted(text, spans, hi) == Redacted(text, spans, hi - 1) + "" + [text[hi - 1]];
    }
  }

  // ------------------------------------------------------------- sorting

  ghost predicate SortedByStart(spans: seq<Span>) {
    forall i, j :: 0 <= i < j < |spans| ==> spans[i].start <= spans[j].start
  }

  /** By start; the wider of two that start together may go first. */
  method SortByStart(spans: seq<Span>) returns (sorted: seq<Span>)
    ensures SortedByStart(sorted) && multiset(sorted) == multiset(spans)
    ensures forall m :: m in sorted <==> m in spans
  {
    sorted := [];
    for i := 0 to |spans|
      invariant SortedByStart(sorted) && multiset(sorted) == multiset(spans[..i])
    {
      assert spans[..i + 1] == spans[..i] + [spans[i]];
      sorted := InsertByStart(sorted, spans[i]);
    }
    assert spans[..|spans|] == spans;
    assert forall m :: m in sorted <==> m in multiset(sorted);
    assert forall m :: m in spans <==> m in multiset(spans);
  }

  lemma {:induction false} SortedAppend(a: seq<Span>, b: seq<Span>)
    requires SortedByStart(a) && SortedByStart(b)
    requires forall i, j :: 0 <= i < |a| && 0 <= j < |b| ==> a[i].start <= b[j].start
    ensures SortedByStart(a + b)
  {
  }

  lemma {:induction false} InsertKeepsOrder(sorted: seq<Span>, m: Span, k: nat)
    requires SortedByStart(sorted) && k <= |sorted|
    requires forall i :: 0 <= i < k ==> sorted[i].start <= m.start
    requires forall i :: k <= i < |sorted| ==> m.start <= sorted[i].start
    ensures SortedByStart(sorted[..k] + [m] + sorted[k..])
    ensures multiset(sorted[..k] + [m] + sorted[k..]) == multiset(sorted) + multiset{m}
  {
    SortedAppend(sorted[..k], [m]);
    SortedAppend(sorted[..k] + [m], sorted[k..]);
    assert sorted == sorted[..k] + sorted[k..];
  }

  method InsertByStart(sorted: seq<Span>, m: Span) returns (next: seq<Span>)
    requires SortedByStart(sorted)
    ensures SortedByStart(next) && multiset(next) == multiset(sorted) + multiset{m}
  {
    var k := |sorted|;
    while k > 0 && (m.start < sorted[k - 1].start || (m.start == sorted[k - 1].start && m.end > sorted[k - 1].end))
      invariant 0 <= k <= |sorted|
      invariant forall i :: k <= i < |sorted| ==> m.start <= sorted[i].start
    {
      k := k - 1;
    }
    InsertKeepsOrder(sorted, m, k);
    next := sorted[..k] + [m] + sorted[k..];
  }

  // ------------------------------------------------------------- redaction

  /** How far the spans taken so far reach, against the full sorted list. */
  ghost predicate Reached(sorted: seq<Span>, k: nat, cursor: nat) {
    && k <= |sorted|
    && (forall j :: 0 <= j < k ==> sorted[j].end <= cursor)
    && (forall j :: 0 <= j < k ==> sorted[j].start < cursor)
  }

  /** Before the next span there is nothing covered, and a new group begins with it. */
  lemma {:induction false} GapBefore(sorted: seq<Span>, k: nat, cursor: nat)
    requires SortedByStart(sorted) && Reached(sorted, k, cursor) && k < |sorted|
               && cursor <= sorted[k].start < sorted[k].end
    ensures forall i :: cursor <= i < sorted[k].start ==> !Covered(sorted, i)
    ensures Begins(sorted, sorted[k].start)
  {
    forall m | m in sorted
      ensures m.end <= cursor || m.start >= sorted[k].start
    {
      var j :| 0 <= j < |sorted| && sorted[j] == m;
    }
    assert sorted[k] in sorted;
  }

  /** A span that starts before the cursor continues the group. */
  lemma {:induction false} Continues(sorted: seq<Span>, k: nat, cursor: nat)
    requires k < |sorted| && sorted[k].start < cursor
    ensures forall i :: cursor <= i < sorted[k].end ==> Inside(sorted, i) && Covered(sorted, i)
  {
    assert sorted[k] in sorted;
    forall i | cursor <= i < sorted[k].end
      ensures Inside(sorted, i) && Covered(sorted, i)
    {
      assert sorted[k].start < i < sorted[k].end;
    }
  }

  /** After all spans nothing is covered. */
  lemma {:induction false} NothingAfter(sorted: seq<Span>, cursor: nat)
    requires Reached(sorted, |sorted|, cursor)
    ensures forall i :: cursor <= i ==> !Covered(sorted, i) && !Inside(sorted, i)
  {
    forall m | m in sorted
      ensures m.end <= cursor
    {
      var j :| 0 <= j < |sorted| && sorted[j] == m;
    }
  }

  /** The first n positions are done. */
  ghost predicate DoneTo(text: string, sorted: seq<Span>, n: nat, out: string, count: nat) {
    n <= |text| && out == Redacted(text, sorted, n) && count == Groups(sorted, n)
  }

  /** A span beyond the cursor: the clear stretch before it, then one mark for a new group. */
  lemma {:induction false} NewGroup(text: string, sorted: seq<Span>, k: nat, cursor: nat, out: string, count: nat)
    requires SortedByStart(sorted) && Reached(sorted, k, cursor) && k < |sorted|
    requires cursor <= sorted[k].start < sorted[k].end <= |text| && DoneTo(text, sorted, cursor, out, count)
    ensures DoneTo(text, sorted, sorted[k].end, out + text[cursor..sorted[k].start] + MARK, count + 1)
  {
    var m := sorted[k];
    GapBefore(sorted, k, cursor);
    ClearStretch(text, sorted, cursor, m.start);
    Continues(sorted, k, m.start + 1);
    InsideStretch(text, sorted, m.start + 1, m.end);
    assert Redacted(text, sorted, m.start + 1) == Redacted(text, sorted, m.start) + MARK + "";
  }

  lemma {:induction false} SameGroup(text: string, sorted: seq<Span>, k: nat, cursor: nat, out: string, count: nat)
    requires k < |sorted| && sorted[k].start < cursor <= sorted[k].end <= |text|
               && DoneTo(text, sorted, cursor, out, count)
    ensures DoneTo(text, sorted, sorted[k].end, out, count)
  {
    Continues(sorted, k, cursor);
    InsideStretch(text, sorted, cursor, sorted[k].end);
  }

  lemma {:induction false} LastStretch(text: string, sorted: seq<Span>, cursor: nat, out: string, count: nat)
    requires Reached(sorted, |sorted|, cursor) && DoneTo(text, sorted, cursor, out, count)
    ensures DoneTo(text, sorted, |text|, out + text[cursor..], count)
  {
    NothingAfter(sorted, cursor);
    ClearStretch(text, sorted, cursor, |text|);
    assert text[cursor..] == text[cursor..|text|];
  }

  method RedactSorted(text: string, sorted: seq<Span>) returns (out: string, count: nat)
    requires InRange(sorted, |text|) && SortedByStart(sorted)
    ensures DoneTo(text, sorted, |text|, out, count)
  {
    var cursor: nat := 0;
    out, count := "", 0;
    for k := 0 to |sorted|
      invariant Reached(sorted, k, cursor) && DoneTo(text, sorted, cursor, out, count)
    {
      var m := sorted[k];
      assert m in sorted;
      if m.start < cursor {
        if m.end > cursor {
          SameGroup(text, sorted, k, cursor, out, count);
          cursor := m.end;
        }
      } else {
        NewGroup(text, sorted, k, cursor, out, count);
        out := out + text[cursor..m.start] + MARK;
        cursor := m.end;
        count := count + 1;
      }
    }
    LastStretch(text, sorted, cursor, out, count);
    out := out + text[cursor..];
  }

  /** One mark per group of overlapping spans, whatever their order; all else is kept in order. */
  method Redact(text: string, spans: seq<Span>) returns (result: string, count: nat)
    requires InRange(spans, |text|)
    ensures result == Redacted(text, spans, |text|)
    ensures count == Groups(spans, |text|)
  {
    if |spans| == 0 {
      ClearStretch(text, spans, 0, |text|);
      assert text[0..|text|] == text;
      return text, 0;
    }
    var sorted := SortByStart(spans);
    SameSpansSameGroups(sorted, spans);
    SameGroupsSameText(text, sorted, spans, |text|);
    result, count := RedactSorted(text, sorted);
  }

  // --------------------------------------------------------------- merging

  /** In order, each ending before the next begins or where it begins. */
  ghost predicate SortedDisjoint(spans: seq<Span>) {
    && (forall i :: 0 <= i < |spans| ==> spans[i].start < spans[i].end)
    && (forall i, j :: 0 <= i < j < |spans| ==> spans[i].end <= spans[j].start)
  }

  /** The spans merged so far agree with all spans up to the cursor. */
  ghost predicate Agrees(merged: seq<Span>, sorted: seq<Span>, cursor: nat) {
    && SortedDisjoint(merged)
    && (forall m :: m in merged ==> m.end <= cursor)
    && (forall i :: 0 <= i < cursor ==>
        (Covered(merged, i) <==> Covered(sorted, i)) && (Inside(merged, i) <==> Inside(sorted, i)))
  }

  lemma {:induction false} MergeOpens(merged: seq<Span>, sorted: seq<Span>, k: nat, cursor: nat)
    requires SortedByStart(sorted) && Reached(sorted, k, cursor) && k < |sorted|
               && cursor <= sorted[k].start < sorted[k].end
    requires Agrees(merged, sorted, cursor)
    ensures Agrees(merged + [sorted[k]], sorted, sorted[k].end)
  {
    var m := sorted[k];
    GapBefore(sorted, k, cursor);
    Continues(sorted, k, m.start + 1);
    CoverSnoc(merged, m);
    forall i | 0 <= i < m.end
      ensures (Covered(merged + [m], i) <==> Covered(sorted, i)) && (Inside(merged + [m], i) <==> Inside(sorted, i))
    {
      if cursor <= i < m.start {
        assert !Covered(sorted, i);
        InsideIsCovered(sorted, i);
      }
    }
  }

  lemma {:induction false} MergeExtends(init: seq<Span>, last: Span, sorted: seq<Span>, k: nat)
    requires Agrees(init + [last], sorted, last.end)
    requires k < |sorted| && sorted[k].start < last.end < sorted[k].end
    ensures Agrees(init + [Span(last.start, sorted[k].end)], sorted, sorted[k].end)
  {
    var merged, wider := init + [last], Span(last.start, sorted[k].end);
    var next := init + [wider];
    Continues(sorted, k, last.end);
    CoverSnoc(init, last);
    CoverSnoc(init, wider);
    assert last in merged && merged[|init|] == last && next[|init|] == wider;
    assert forall j :: 0 <= j < |init| ==> merged[j] == init[j] && next[j] == init[j];
  }

  lemma {:induction false} InsideIsCovered(spans: seq<Span>, i: int)
    ensures Inside(spans, i) ==> Covered(spans, i)
  {
  }

  lemma {:induction false} CoverSnoc(spans: seq<Span>, m: Span)
    ensures forall i :: Covered(spans + [m], i) <==> Covered(spans, i) || m.start <= i < m.end
    ensures forall i :: Inside(spans + [m], i) <==> Inside(spans, i) || m.start < i < m.end
  {
    assert m in spans + [m];
    assert forall x :: x in spans + [m] <==> x in spans || x == m;
  }

  /** The merged spans are in order and disjoint and cover and join exactly what the raw ones do. */
  method Merge(matches: seq<Span>) returns (merged: seq<Span>)
    requires forall m :: m in matches ==> m.start < m.end
    ensures SortedDisjoint(merged) && SameGroups(merged, matches)
  {
    var sorted := SortByStart(matches);
    SameSpansSameGroups(sorted, matches);
    merged := [];
    ghost var cursor: nat := 0;
    for k := 0 to |sorted|
      invariant Reached(sorted, k, cursor) && Agrees(merged, sorted, cursor)
      invariant cursor == if merged == [] then 0 else merged[|merged| - 1].end
    {
      var m := sorted[k];
      assert m in matches;
      if |merged| > 0 && m.start < merged[|merged| - 1].end {
        var init, last := merged[..|merged| - 1], merged[|merged| - 1];
        assert merged == init + [last];
        if m.end > last.end {
          MergeExtends(init, last, sorted, k);
          merged := init + [Span(last.start, m.end)];
          cursor := m.end;
        }
      } else {
        MergeOpens(merged, sorted, k, cursor);
        merged := merged + [m];
        cursor := m.end;
      }
    }
    MergeEnds(merged, sorted, matches, cursor);
  }

  lemma {:induction false} MergeEnds(merged: seq<Span>, sorted: seq<Span>, matches: seq<Span>, cursor: nat)
    requires Reached(sorted, |sorted|, cursor) && Agrees(merged, sorted, cursor) && SameGroups(sorted, matches)
    ensures SameGroups(merged, matches)
  {
    NothingAfter(sorted, cursor);
    forall i
      ensures (Covered(merged, i) <==> Covered(matches, i)) && (Inside(merged, i) <==> Inside(matches, i))
    {
      assert (Covered(sorted, i) <==> Covered(matches, i)) && (Inside(sorted, i) <==> Inside(matches, i));
      if i < 0 {
        assert !Covered(merged, i) && !Covered(sorted, i);
      }
    }
  }

  // -------------------------------------------------- merging, then redacting

  lemma {:induction false} LastOf(spans: seq<Span>)
    requires SortedDisjoint(spans) && spans != []
    ensures var last := spans[|spans| - 1];
            && Covered(spans, last.end - 1) && Begins(spans, last.start)
            && (forall i :: i >= last.end ==> !Covered(spans, i))
            && (forall i :: last.start < i < last.end ==> Inside(spans, i))
  {
    var n := |spans| - 1;
    assert spans[n] in spans;
    forall m | m in spans
      ensures m == spans[n] || m.end <= spans[n].start
    {
      var k :| 0 <= k < |spans| && spans[k] == m;
    }
  }

  /** Dropping the last of disjoint spans leaves what lies before it. */
  lemma {:induction false} FrontOf(spans: seq<Span>, i: int)
    requires SortedDisjoint(spans) && spans != []
    ensures var front, last := spans[..|spans| - 1], spans[|spans| - 1];
            && SortedDisjoint(front)
            && (Covered(front, i) <==> Covered(spans, i) && i < last.start)
            && (Inside(front, i) <==> Inside(spans, i) && i < last.start)
  {
    var n := |spans| - 1;
    assert spans == spans[..n] + [spans[n]];
    CoverSnoc(spans[..n], spans[n]);
    forall m | m in spans[..n]
      ensures m.end <= spans[n].start
    {
      var k :| 0 <= k < n && spans[k] == m;
    }
  }

  lemma {:induction false} SameLast(a: seq<Span>, b: seq<Span>)
    requires SortedDisjoint(a) && SortedDisjoint(b) && SameGroups(a, b) && a != [] && b != []
    ensures a[|a| - 1] == b[|b| - 1]
  {
    var m, n := a[|a| - 1], b[|b| - 1];
    LastOf(a);
    LastOf(b);
    assert Covered(b, m.end - 1) && Covered(a, n.end - 1);
    assert m.end == n.end;
    assert Begins(b, m.start) && Begins(a, n.start);
  }

  lemma {:induction false} SameFront(a: seq<Span>, b: seq<Span>)
    requires SortedDisjoint(a) && SortedDisjoint(b) && SameGroups(a, b) && a != [] && b != []
    requires a[|a| - 1] == b[|b| - 1]
    ensures SortedDisjoint(a[..|a| - 1]) && SortedDisjoint(b[..|b| - 1]) && SameGroups(a[..|a| - 1], b[..|b| - 1])
  {
    FrontOf(a, 0);
    FrontOf(b, 0);
    var p, q := a[..|a| - 1], b[..|b| - 1];
    forall i
      ensures (Covered(p, i) <==> Covered(q, i)) && (Inside(p, i) <==> Inside(q, i))
    {
      FrontOf(a, i);
      FrontOf(b, i);
    }
  }

  /** There is only one list of disjoint spans in order with given groups: merging is canonical. */
  lemma {:induction false} MergedIsUnique(a: seq<Span>, b: seq<Span>)
    requires SortedDisjoint(a) && SortedDisjoint(b) && SameGroups(a, b)
    ensures a == b
  {
    if a != [] && b != [] {
      SameLast(a, b);
      SameFront(a, b);
      MergedIsUnique(a[..|a| - 1], b[..|b| - 1]);
      assert a == a[..|a| - 1] + [a[|a| - 1]] && b == b[..|b| - 1] + [b[|b| - 1]];
    } else if a != [] {
      LastOf(a);
    } else if b != [] {
      LastOf(b);
    }
  }

  lemma {:induction false} NoMoreGroups(spans: seq<Span>, lo: nat, hi: nat)
    requires lo <= hi && forall i :: lo <= i < hi ==> !Begins(spans, i)
    ensures Groups(spans, hi) == Groups(spans, lo)
  {
    if lo < hi {
      NoMoreGroups(spans, lo, hi - 1);
    }
  }

  lemma {:induction false} GroupsBeforeLast(merged: seq<Span>)
    requires SortedDisjoint(merged) && merged != []
    ensures var front, last := merged[..|merged| - 1], merged[|merged| - 1];
            && SortedDisjoint(front) && (forall m :: m in front ==> m.start < last.start)
            && Groups(merged, last.start) == Groups(front, last.start)
  {
    var front, last := merged[..|merged| - 1], merged[|merged| - 1];
    FrontOf(merged, 0);
    forall i | 0 <= i < last.start
      ensures Begins(merged, i) <==> Begins(front, i)
    {
      FrontOf(merged, i);
    }
    SameBeginnings(merged, front, last.start);
    forall m | m in front
      ensures m.start < last.start
    {
      var j :| 0 <= j < |front| && front[j] == m;
      assert merged[j] == m && merged[j].end <= last.start;
    }
  }

  /** Every merged span is one group. */
  lemma {:induction false} GroupsOfMerged(merged: seq<Span>, n: nat)
    requires SortedDisjoint(merged) && forall m :: m in merged ==> m.start < n
    ensures Groups(merged, n) == |merged|
    decreases |merged|
  {
    if merged == [] {
      NoMoreGroups(merged, 0, n);
    } else {
      var last := merged[|merged| - 1];
      assert last in merged;
      LastOf(merged);
      NoMoreGroups(merged, last.start + 1, n);
      GroupsBeforeLast(merged);
      GroupsOfMerged(merged[..|merged| - 1], last.start);
    }
  }

  lemma {:induction false} SameBeginnings(a: seq<Span>, b: seq<Span>, n: nat)
    requires forall i :: 0 <= i < n ==> (Begins(a, i) <==> Begins(b, i))
    ensures Groups(a, n) == Groups(b, n)
  {
    if n > 0 {
      SameBeginnings(a, b, n - 1);
    }
  }

  /** Redacting the merged spans gives the same text and count; the count is their number. */
  lemma {:induction false} RedactionOfMerged(text: string, matches: seq<Span>, merged: seq<Span>)
    requires InRange(matches, |text|) && SortedDisjoint(merged) && SameGroups(merged, matches)
    ensures InRange(merged, |text|)
    ensures Redacted(text, merged, |text|) == Redacted(text, matches, |text|)
    ensures Groups(matches, |text|) == |merged|
  {
    forall m | m in merged
      ensures m.start < m.end <= |text|
    {
      assert m.start < m.end;
      assert Covered(merged, m.end - 1) && Covered(matches, m.end - 1);
    }
    SameGroupsSameText(text, merged, matches, |text|);
    GroupsOfMerged(merged, |text|);
  }
}
