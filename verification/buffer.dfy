/**
 The playback buffer of a client (attachedstream.js): downloaded segments kept
 in ascending order of sequence number without duplicates
 (`insertIntoBuffer`), and the computation of which segments of the current
 playlist still have to be fetched to fill the window of `BufferSize`
 segments starting at the next one to play (`findMissingSegments`).
 */
module PlaybackBuffer {
  import opened Common
  import opened MediaPlaylist

  /** A segment whose download finished, with the HTTP status it finished with. */
  datatype Buffered = Buffered(segment: Segment, status: int)

  function SeqnoOf(b: Buffered): int {
    b.segment.seqno
  }

  predicate Ascending(buf: seq<Buffered>) {
    forall i, j :: 0 <= i < j < |buf| ==> SeqnoOf(buf[i]) < SeqnoOf(buf[j])
  }

  /** Some buffered segment carries number `seqno`. */
  predicate Holds(buf: seq<Buffered>, seqno: int) {
    exists i :: 0 <= i < |buf| && SeqnoOf(buf[i]) == seqno
  }

  /** Nothing buffered lies behind the next segment to play. */
  predicate NotBehind(buf: seq<Buffered>, next: int) {
    forall i :: 0 <= i < |buf| ==> SeqnoOf(buf[i]) >= next
  }

  // -----------------------------------------------------------------------
  // Insertion

  /** Place `x` before the first element with a larger number: the result of appending `x`
      and sorting by number. */
  function InsertSorted(buf: seq<Buffered>, x: Buffered): (r: seq<Buffered>)
    ensures |r| == |buf| + 1
    ensures multiset(r) == multiset(buf) + multiset{x}
    ensures forall k :: 0 <= k < |r| ==> r[k] == x || r[k] in buf
    ensures Ascending(buf) && !Holds(buf, SeqnoOf(x)) ==> Ascending(r)
  {
    if |buf| == 0 then [x]
    else if SeqnoOf(x) < SeqnoOf(buf[0]) then [x] + buf
    else
      var rest := InsertSorted(buf[1..], x);
      assert buf == [buf[0]] + buf[1..];
      InsertSortedHead(buf, x, rest);
      [buf[0]] + rest
  }

  lemma InsertSortedHead(buf: seq<Buffered>, x: Buffered, rest: seq<Buffered>)
    requires |buf| > 0 && SeqnoOf(buf[0]) <= SeqnoOf(x)
    requires forall k :: 0 <= k < |rest| ==> rest[k] == x || rest[k] in buf[1..]
    requires Ascending(buf[1..]) && !Holds(buf[1..], SeqnoOf(x)) ==> Ascending(rest)
    ensures Ascending(buf) && !Holds(buf, SeqnoOf(x)) ==> Ascending([buf[0]] + rest)
  {
    if Ascending(buf) && !Holds(buf, SeqnoOf(x)) {
      assert !Holds(buf[1..], SeqnoOf(x)) by {
        forall i | 0 <= i < |buf[1..]| ensures SeqnoOf(buf[1..][i]) != SeqnoOf(x) {
          assert buf[1..][i] == buf[i + 1];
        }
      }
      assert SeqnoOf(x) != SeqnoOf(buf[0]);
      forall k | 0 <= k < |rest| ensures SeqnoOf(buf[0]) < SeqnoOf(rest[k]) {
        if rest[k] != x {
          var m :| 0 <= m < |buf[1..]| && buf[1..][m] == rest[k];
          assert buf[1..][m] == buf[m + 1];
        }
      }
    }
  }

  /** `insertIntoBuffer`: a segment that arrives while the client reattaches, that is behind
      the next one to play, or whose number is already buffered is dropped; otherwise it is
      added, with its status, in its place. */
  function InsertIntoBuffer(buf: seq<Buffered>, seg: Segment, status: int, next: int,
                            reattaching: bool): (r: seq<Buffered>)
    ensures reattaching || seg.seqno < next || Holds(buf, seg.seqno) ==> r == buf
    ensures !(reattaching || seg.seqno < next || Holds(buf, seg.seqno)) ==>
      multiset(r) == multiset(buf) + multiset{Buffered(seg, status)}
    ensures Ascending(buf) ==> Ascending(r)
    ensures NotBehind(buf, next) ==> NotBehind(r, next)
    ensures !reattaching && seg.seqno >= next ==> Holds(r, seg.seqno)
  {
    if reattaching || seg.seqno < next || Holds(buf, seg.seqno) then buf
    else
      var r := InsertSorted(buf, Buffered(seg, status));
      assert Buffered(seg, status) in multiset(r);
      var k :| 0 <= k < |r| && r[k] == Buffered(seg, status);
      assert SeqnoOf(r[k]) == seg.seqno;
      r
  }

  /** Delivering the same segment twice buffers it once: the second delivery is dropped,
      whatever status it came with. */
  lemma InsertTwiceIsInsertOnce(buf: seq<Buffered>, seg: Segment, s1: int, s2: int, next: int)
    ensures var once := InsertIntoBuffer(buf, seg, s1, next, false);
      InsertIntoBuffer(once, seg, s2, next, false) == once
  {
  }

  // -----------------------------------------------------------------------
  // The window of missing segments

  /** One of the first `BufferSize` buffered segments carries `seqno`; the source looks no
      further into the buffer. */
  predicate HeldInFirst(buf: seq<Buffered>, seqno: int) {
    exists b :: 0 <= b < Min(BufferSize, |buf|) && SeqnoOf(buf[b]) == seqno
  }

  /** The window after the marking loop of `findMissingSegments`: slot `i` stands for number
      `next + i` and is 0 when that number is held. */
  function MarkedSeqnos(next: int, buf: seq<Buffered>): (m: seq<int>)
    ensures |m| == BufferSize
  {
    seq(BufferSize, i => if HeldInFirst(buf, next + i) then 0 else next + i)
  }

  /** The window slots as the walk reads them: `None` for a slot to skip, `Some(v)` for a
      number to look up. */
  predicate SlotsFor(slots: seq<Option<int>>, next: int) {
    forall i :: 0 <= i < |slots| && slots[i].Some? ==> slots[i].value == next + i
  }

  /** The source's window: 0 marks a slot as held, so a slot whose own number is 0 is
      skipped as well. */
  function AsWrittenSlots(next: int, buf: seq<Buffered>): (slots: seq<Option<int>>)
    ensures |slots| == BufferSize && SlotsFor(slots, next)
    ensures forall i :: 0 <= i < BufferSize ==>
      (slots[i].None? <==> HeldInFirst(buf, next + i) || next + i == 0)
  {
    var m := MarkedSeqnos(next, buf);
    seq(BufferSize, i requires 0 <= i < BufferSize => if m[i] == 0 then None else Some(m[i]))
  }

  /** The window with "held" kept apart from the numbers themselves. */
  function WindowSlots(next: int, buf: seq<Buffered>): (slots: seq<Option<int>>)
    ensures |slots| == BufferSize && SlotsFor(slots, next)
    ensures forall i :: 0 <= i < BufferSize ==> (slots[i].None? <==> HeldInFirst(buf, next + i))
  {
    seq(BufferSize, i => if HeldInFirst(buf, next + i) then None else Some(next + i))
  }

  /** The two-index walk of `findMissingSegments`: `i` runs over the window, `j` over the
      playlist. A held slot is skipped; a playlist entry behind the slot's number makes `j`
      jump ahead by the difference; otherwise the entry at `j` is reported. */
  function Walk(slots: seq<Option<int>>, segs: seq<Segment>, i: nat, j: nat): seq<Segment>
    decreases |slots| - i, |segs| - j
  {
    if i >= |slots| || j >= |segs| then []
    else match slots[i]
      case None => Walk(slots, segs, i + 1, j)
      case Some(v) =>
        if v > segs[j].seqno then Walk(slots, segs, i, j + (v - segs[j].seqno))
        else [segs[j]] + Walk(slots, segs, i + 1, j + 1)
  }

  /** `findMissingSegments` as written, with its 0 sentinel. */
  function FindMissingAsWritten(next: int, buf: seq<Buffered>, segs: seq<Segment>): seq<Segment> {
    Walk(AsWrittenSlots(next, buf), segs, 0, 0)
  }

  /** `findMissingSegments` with "held" recorded apart from the slot numbers. */
  function FindMissing(next: int, buf: seq<Buffered>, segs: seq<Segment>): seq<Segment> {
    Walk(WindowSlots(next, buf), segs, 0, 0)
  }

  // -----------------------------------------------------------------------
  // What the walk computes

  /** Playlist entries are numbered in increasing order. */
  predicate Increasing(segs: seq<Segment>) {
    forall a, b :: 0 <= a < b < |segs| ==> segs[a].seqno < segs[b].seqno
  }

  /** Every entry of `w` is numbered `n` or later. */
  predicate NumberedFrom(w: seq<Segment>, n: int) {
    forall x :: x in w ==> x.seqno >= n
  }

  /** Putting an entry in front of later-numbered, increasing entries keeps them increasing. */
  lemma IncreasingCons(s: Segment, rest: seq<Segment>)
    requires Increasing(rest) && NumberedFrom(rest, s.seqno + 1)
    ensures Increasing([s] + rest) && NumberedFrom([s] + rest, s.seqno)
  {
    var w := [s] + rest;
    forall a, b | 0 <= a < b < |w|
      ensures w[a].seqno < w[b].seqno
    {
      assert w[b] == rest[b - 1] && w[b] in rest;
    }
  }

  /** On an increasing playlist the walk reports entries in increasing order, none of them
      before the entry at `j`. */
  lemma {:induction false} WalkIncreasing(slots: seq<Option<int>>, segs: seq<Segment>, i: nat, j: nat)
    requires Increasing(segs)
    ensures Increasing(Walk(slots, segs, i, j))
    ensures j < |segs| ==> NumberedFrom(Walk(slots, segs, i, j), segs[j].seqno)
    decreases |slots| - i, |segs| - j
  {
    if i < |slots| && j < |segs| {
      match slots[i]
      case None =>
        WalkIncreasing(slots, segs, i + 1, j);
      case Some(v) =>
        if v > segs[j].seqno {
          var j' := j + (v - segs[j].seqno);
          WalkIncreasing(slots, segs, i, j');
          assert j' < |segs| ==> segs[j].seqno < segs[j'].seqno;
        } else {
          WalkIncreasing(slots, segs, i + 1, j + 1);
          assert j + 1 < |segs| ==> segs[j].seqno < segs[j + 1].seqno;
          IncreasingCons(segs[j], Walk(slots, segs, i + 1, j + 1));
        }
    }
  }

  /** Playlist entries are numbered consecutively. */
  predicate Consecutive(segs: seq<Segment>) {
    forall k :: 0 <= k < |segs| ==> segs[k].seqno == segs[0].seqno + k
  }

  /** The first playlist entry numbered `v`. */
  function Lookup(segs: seq<Segment>, v: int): (r: Option<Segment>)
    ensures r.Some? ==> r.value in segs && r.value.seqno == v
    ensures r.None? ==> forall k :: 0 <= k < |segs| ==> segs[k].seqno != v
  {
    if |segs| == 0 then None
    else if segs[0].seqno == v then Some(segs[0])
    else Lookup(segs[1..], v)
  }

  /** The intended result: for each number of the window in ascending order that is not
      buffered, the playlist entry with that number, if the playlist has one. */
  function Intended(next: int, buf: seq<Buffered>, segs: seq<Segment>, i: nat): (r: seq<Segment>)
    ensures forall k :: 0 <= k < |r| ==>
      r[k] in segs && next + i <= r[k].seqno < next + BufferSize && !Holds(buf, r[k].seqno)
    decreases BufferSize - i
  {
    if i >= BufferSize then []
    else
      var here := if !Holds(buf, next + i) && Lookup(segs, next + i).Some?
                  then [Lookup(segs, next + i).value] else [];
      here + Intended(next, buf, segs, i + 1)
  }

  /** The slot reading of the intended result: the playlist entry of every slot that is not
      skipped, when the playlist reaches that far. */
  function Pick(slots: seq<Option<int>>, segs: seq<Segment>, base: int, i: nat): seq<Segment>
    decreases |slots| - i
  {
    if i >= |slots| then []
    else
      var here := if slots[i].Some? && 0 <= slots[i].value - base < |segs|
                  then [segs[slots[i].value - base]] else [];
      here + Pick(slots, segs, base, i + 1)
  }

  /** Past the end of the playlist nothing more is picked. */
  lemma {:induction false} PickBeyond(slots: seq<Option<int>>, segs: seq<Segment>, base: int, next: int, i: nat)
    requires SlotsFor(slots, next)
    requires next + i - base >= |segs|
    ensures Pick(slots, segs, base, i) == []
    decreases |slots| - i
  {
    if i < |slots| {
      PickBeyond(slots, segs, base, next, i + 1);
    }
  }

  /** On a consecutive playlist that starts at or before the window, the walk reports exactly
      the entries of the slots it does not skip. */
  lemma {:induction false} WalkPicks(slots: seq<Option<int>>, segs: seq<Segment>, next: int, i: nat, j: nat)
    requires SlotsFor(slots, next)
    requires |segs| > 0 && Consecutive(segs)
    requires j <= next + i - segs[0].seqno
    ensures Walk(slots, segs, i, j) == Pick(slots, segs, segs[0].seqno, i)
    decreases |slots| - i, |segs| - j
  {
    var base := segs[0].seqno;
    if i >= |slots| {
    } else if j >= |segs| {
      PickBeyond(slots, segs, base, next, i);
    } else {
      assert segs[j].seqno == base + j;
      var rest := Pick(slots, segs, base, i + 1);
      match slots[i]
      case None =>
        assert Pick(slots, segs, base, i) == rest;
        WalkPicks(slots, segs, next, i + 1, j);
      case Some(v) =>
        assert v == next + i;
        if v > segs[j].seqno {
          assert Walk(slots, segs, i, j) == Walk(slots, segs, i, j + (v - segs[j].seqno));
          WalkPicks(slots, segs, next, i, j + (v - segs[j].seqno));
        } else {
          assert v - base == j;
          assert Pick(slots, segs, base, i) == [segs[j]] + rest;
          assert Walk(slots, segs, i, j) == [segs[j]] + Walk(slots, segs, i + 1, j + 1);
          WalkPicks(slots, segs, next, i + 1, j + 1);
        }
    }
  }

  lemma {:induction false} LookupConsecutive(segs: seq<Segment>, v: int)
    requires |segs| > 0 && Consecutive(segs)
    ensures 0 <= v - segs[0].seqno < |segs| ==> Lookup(segs, v) == Some(segs[v - segs[0].seqno])
    ensures !(0 <= v - segs[0].seqno < |segs|) ==> Lookup(segs, v).None?
    decreases |segs|
  {
    if |segs| > 1 && segs[0].seqno != v {
      assert Consecutive(segs[1..]) by {
        forall k | 0 <= k < |segs[1..]| ensures segs[1..][k].seqno == segs[1..][0].seqno + k {
          assert segs[1..][k] == segs[k + 1];
        }
      }
      LookupConsecutive(segs[1..], v);
    }
  }

  /** In an ascending buffer with nothing behind `next`, the `b`-th segment is at least
      `next + b`, so a number of the window can only sit among the first `BufferSize`. */
  lemma HeldMeansHeldInFirst(buf: seq<Buffered>, next: int, v: int)
    requires Ascending(buf) && NotBehind(buf, next)
    requires next <= v < next + BufferSize
    ensures HeldInFirst(buf, v) <==> Holds(buf, v)
  {
    if Holds(buf, v) {
      var b :| 0 <= b < |buf| && SeqnoOf(buf[b]) == v;
      AscendingGrows(buf, next, b);
    }
  }

  lemma {:induction false} AscendingGrows(buf: seq<Buffered>, next: int, b: nat)
    requires Ascending(buf) && NotBehind(buf, next)
    requires b < |buf|
    ensures SeqnoOf(buf[b]) >= next + b
    decreases b
  {
    if b > 0 {
      AscendingGrows(buf, next, b - 1);
    }
  }

  lemma {:induction false} PickIsIntended(next: int, buf: seq<Buffered>, segs: seq<Segment>, i: nat)
    requires |segs| > 0 && Consecutive(segs)
    requires Ascending(buf) && NotBehind(buf, next)
    ensures Pick(WindowSlots(next, buf), segs, segs[0].seqno, i) == Intended(next, buf, segs, i)
    decreases BufferSize - i
  {
    if i < BufferSize {
      var slots := WindowSlots(next, buf);
      var v := next + i;
      HeldMeansHeldInFirst(buf, next, v);
      LookupConsecutive(segs, v);
      PickIsIntended(next, buf, segs, i + 1);
      var rest := Intended(next, buf, segs, i + 1);
      assert Pick(slots, segs, segs[0].seqno, i + 1) == rest;
      if Holds(buf, v) {
        assert slots[i].None?;
        assert Pick(slots, segs, segs[0].seqno, i) == rest;
      } else {
        assert slots[i] == Some(v);
      }
    }
  }

  /** `findMissingSegments` returns, in ascending order, exactly the playlist entries whose
      numbers lie in the window `[next, next + BufferSize)` and are not buffered, provided
      the playlist is numbered consecutively from at or before `next` and the buffer keeps
      its order with nothing behind `next`. */
  lemma FindMissingIsIntended(next: int, buf: seq<Buffered>, segs: seq<Segment>)
    requires Consecutive(segs) && (|segs| == 0 || segs[0].seqno <= next)
    requires Ascending(buf) && NotBehind(buf, next)
    ensures FindMissing(next, buf, segs) == Intended(next, buf, segs, 0)
  {
    if |segs| == 0 {
      IntendedOfEmpty(next, buf, segs, 0);
    } else {
      WalkPicks(WindowSlots(next, buf), segs, next, 0, 0);
      PickIsIntended(next, buf, segs, 0);
    }
  }

  lemma {:induction false} IntendedOfEmpty(next: int, buf: seq<Buffered>, segs: seq<Segment>, i: nat)
    requires |segs| == 0
    ensures Intended(next, buf, segs, i) == []
    decreases BufferSize - i
  {
    if i < BufferSize {
      IntendedOfEmpty(next, buf, segs, i + 1);
    }
  }

  /** Away from number 0 the sentinel is harmless: both readings of the window agree. */
  lemma SentinelHarmlessAwayFromZero(next: int, buf: seq<Buffered>, segs: seq<Segment>)
    requires next > 0 || next + BufferSize <= 0
    ensures FindMissingAsWritten(next, buf, segs) == FindMissing(next, buf, segs)
  {
    assert AsWrittenSlots(next, buf) == WindowSlots(next, buf);
  }

  /** The sentinel at work: with nothing buffered and playback about to start at segment 0,
      the source leaves segment 0 out of the missing list, while the window reading reports
      it. */
  lemma SentinelDropsSegmentZero(segs: seq<Segment>)
    requires |segs| >= BufferSize && Consecutive(segs) && segs[0].seqno == 0
    ensures FindMissingAsWritten(0, [], segs) == segs[1..BufferSize]
    ensures FindMissing(0, [], segs) == segs[..BufferSize]
  {
    AsWrittenFromZero(segs);
    WindowFromZero(segs);
  }

  lemma AsWrittenFromZero(segs: seq<Segment>)
    requires |segs| >= BufferSize && Consecutive(segs) && segs[0].seqno == 0
    ensures FindMissingAsWritten(0, [], segs) == segs[1..BufferSize]
  {
    var slots := AsWrittenSlots(0, []);
    assert slots == [None, Some(1), Some(2), Some(3), Some(4)];
    WalkPicks(slots, segs, 0, 0, 0);
    assert Pick(slots, segs, 0, 3) == [segs[3], segs[4]];
    assert Pick(slots, segs, 0, 1) == [segs[1], segs[2], segs[3], segs[4]];
  }

  lemma WindowFromZero(segs: seq<Segment>)
    requires |segs| >= BufferSize && Consecutive(segs) && segs[0].seqno == 0
    ensures FindMissing(0, [], segs) == segs[..BufferSize]
  {
    var slots := WindowSlots(0, []);
    assert slots == [Some(0), Some(1), Some(2), Some(3), Some(4)];
    WalkPicks(slots, segs, 0, 0, 0);
    assert Pick(slots, segs, 0, 3) == [segs[3], segs[4]];
    assert Pick(slots, segs, 0, 0) == [segs[0], segs[1], segs[2], segs[3], segs[4]];
  }

  /** A worked window: with segments 7 and 9 buffered and 7 next to play, a playlist numbered
      from 7 yields segments 8, 10 and 11 to fetch. */
  lemma GapsInWindow(a: Buffered, b: Buffered, segs: seq<Segment>)
    requires SeqnoOf(a) == 7 && SeqnoOf(b) == 9
    requires |segs| >= BufferSize && Consecutive(segs) && segs[0].seqno == 7
    ensures FindMissing(7, [a, b], segs) == [segs[1], segs[3], segs[4]]
    ensures segs[1].seqno == 8 && segs[3].seqno == 10 && segs[4].seqno == 11
  {
    var buf := [a, b];
    var slots := WindowSlots(7, buf);
    assert Min(BufferSize, |buf|) == 2;
    assert SeqnoOf(buf[0]) == 7 && SeqnoOf(buf[1]) == 9;
    assert HeldInFirst(buf, 7) && HeldInFirst(buf, 9);
    assert slots == [None, Some(8), None, Some(10), Some(11)];
    WalkPicks(slots, segs, 7, 0, 0);
    assert Pick(slots, segs, 7, 4) == [segs[4]];
    assert Pick(slots, segs, 7, 3) == [segs[3], segs[4]];
    assert Pick(slots, segs, 7, 1) == [segs[1], segs[3], segs[4]];
  }
}
