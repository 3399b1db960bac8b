/** The batch loop of the density pipeline: series are taken in order into
    (tile column, tile row, channel) slots of the accumulation surface, one
    batch of `4 * repeatsX * repeatsY` at a time. */
module Batching {
  import opened Planner
  import opened Arith

  /** `colorMask(i)`: only channel `i % 4` is written. */
  function ColorMask(i: nat): seq<bool>
  {
    [i % 4 == 0, i % 4 == 1, i % 4 == 2, i % 4 == 3]
  }

  /** One entry of the `lines` array: the line descriptor and where it is drawn. */
  datatype Slotted<T> = Slotted(item: T, column: nat, row: nat, mask: seq<bool>)

  /** The entry the nested row / slot loops build at batch position p. */
  function SlotOf<T>(item: T, p: nat, rx: nat): Slotted<T>
    requires rx >= 1
  {
    var i := p % (4 * rx);
    Slotted(item, i / 4, p / (4 * rx), ColorMask(i))
  }

  /** Position of slot (column, row, channel) inside a batch. */
  function SlotPos(column: int, row: int, channel: int, rx: nat): int
  {
    row * (4 * rx) + column * 4 + channel
  }

  /** `lines` holds items[start..] in batch positions 0, 1, ... */
  ghost predicate WellSlotted<T>(lines: seq<Slotted<T>>, items: seq<T>, start: nat, rx: nat)
  {
    rx >= 1 && start + |lines| <= |items| &&
    forall k :: 0 <= k < |lines| ==> lines[k] == SlotOf(items[start + k], k, rx)
  }

  function Items<T>(lines: seq<Slotted<T>>): (r: seq<T>)
    ensures |r| == |lines| && forall k :: 0 <= k < |lines| ==> r[k] == lines[k].item
  {
    if |lines| == 0 then [] else Items(lines[..|lines| - 1]) + [lines[|lines| - 1].item]
  }

  function Flatten<T>(batches: seq<seq<Slotted<T>>>): seq<T>
  {
    if |batches| == 0 then [] else Flatten(batches[..|batches| - 1]) + Items(batches[|batches| - 1])
  }

  /** The slot of batch position p decodes back to p: triples within a batch are distinct. */
  lemma SlotRoundTrip<T>(item: T, p: nat, rx: nat)
    requires rx >= 1
    ensures var s := SlotOf(item, p, rx);
      s.column < rx && |s.mask| == 4 &&
      (forall c :: 0 <= c < 4 ==> (s.mask[c] <==> c == p % 4)) &&
      SlotPos(s.column, s.row, p % 4, rx) == p
  {
    var i := p % (4 * rx);
    assert p == (p / (4 * rx)) * (4 * rx) + i;
    assert i == (i / 4) * 4 + i % 4;
    assert i % 4 == p % 4 by {
      assert p == ((p / (4 * rx)) * rx + i / 4) * 4 + i % 4;
      DivMulAdd((p / (4 * rx)) * rx + i / 4, 4, i % 4);
    }
  }

  /** Conversely, the slot at position SlotPos(column, row, channel) is that slot. */
  lemma SlotPosDecodes<T>(item: T, column: nat, row: nat, channel: nat, rx: nat)
    requires rx >= 1 && column < rx && channel < 4
    ensures var p := SlotPos(column, row, channel, rx);
      p >= 0 && SlotOf(item, p, rx).column == column && SlotOf(item, p, rx).row == row && p % 4 == channel
  {
    var p := SlotPos(column, row, channel, rx);
    DivMulAdd(row, 4 * rx, column * 4 + channel);
    DivMulAdd(column, 4, channel);
    assert p == (row * rx + column) * 4 + channel;
    DivMulAdd(row * rx + column, 4, channel);
  }

  /** Distinct batch positions draw into distinct (column, row, channel) triples. */
  lemma SlotsDistinct<T>(a: T, b: T, p: nat, q: nat, rx: nat)
    requires rx >= 1 && p != q
    ensures var s, t := SlotOf(a, p, rx), SlotOf(b, q, rx);
      s.column != t.column || s.row != t.row || s.mask != t.mask
  {
    SlotRoundTrip(a, p, rx);
    SlotRoundTrip(b, q, rx);
    var s, t := SlotOf(a, p, rx), SlotOf(b, q, rx);
    if s.mask == t.mask {
      assert t.mask[p % 4];
    }
  }

  /** The items of well-slotted lines are the slice of items they were taken from. */
  lemma WellSlottedItems<T>(lines: seq<Slotted<T>>, items: seq<T>, start: nat, rx: nat)
    requires WellSlotted(lines, items, start, rx)
    ensures Items(lines) == items[start..start + |lines|]
  {
  }

  /** The nested `row` / `i` loops with `break loop` of one batch: fill
      `lines[series - finishedSeries]` for as many series as remain, at most a batch. */
  method PrepareBatch<T>(items: seq<T>, start: nat, rx: nat, ry: nat) returns (lines: array<Slotted<T>>, series: nat)
    requires rx >= 1 && ry >= 1 && start < |items|
    ensures fresh(lines)
    ensures lines.Length == Min(4 * rx * ry, |items| - start)
    ensures series == start + lines.Length
    ensures WellSlotted(lines[..], items, start, rx)
  {
    var w4 := 4 * rx;
    assert ry * w4 == 4 * rx * ry;
    var len := Min(4 * rx * ry, |items| - start);
    lines := new Slotted<T>[len](_ => Slotted(items[start], 0, 0, []));
    series := start;
    var row := 0;
    label rows:
    while row < ry
      invariant 0 <= row <= ry
      invariant series - start == row * w4 <= len
      invariant forall k :: 0 <= k < series - start ==> lines[k] == SlotOf(items[start + k], k, rx)
    {
      var i := 0;
      MulLe(w4, row + 1, ry);
      while i < w4
        invariant 0 <= i <= w4
        invariant series - start == row * w4 + i <= len
        invariant forall k :: 0 <= k < series - start ==> lines[k] == SlotOf(items[start + k], k, rx)
      {
        if series >= |items| {
          break rows;
        }
        assert series - start < len by {
          assert row * w4 + i < (row + 1) * w4 <= ry * w4;
        }
        DivMulAdd(row, w4, i);
        lines[series - start] := Slotted(items[series], i / 4, row, ColorMask(i));
        series := series + 1;
        i := i + 1;
      }
      assert (row + 1) * w4 == row * w4 + w4;
      row := row + 1;
    }
  }

  /** Batches 0 .. |batches| - 1 of the schedule of `items` with batch size bs. */
  ghost predicate Scheduled<T>(batches: seq<seq<Slotted<T>>>, items: seq<T>, bs: nat, rx: nat)
  {
    forall q :: 0 <= q < |batches| ==>
      |batches[q]| == Min(bs, |items| - q * bs) && WellSlotted(batches[q], items, q * bs, rx)
  }

  lemma ScheduledExtend<T>(prev: seq<seq<Slotted<T>>>, lines: seq<Slotted<T>>, items: seq<T>, bs: nat, rx: nat)
    requires Scheduled(prev, items, bs, rx)
    requires |lines| == Min(bs, |items| - |prev| * bs) && WellSlotted(lines, items, |prev| * bs, rx)
    ensures Scheduled(prev + [lines], items, bs, rx)
  {
    var next := prev + [lines];
    forall q | 0 <= q < |next|
      ensures |next[q]| == Min(bs, |items| - q * bs) && WellSlotted(next[q], items, q * bs, rx)
    {
      if q < |prev| {
        assert next[q] == prev[q];
      }
    }
  }

  /** After the batches starting below b: they are full, well slotted and
      hold the first Min(b, |items|) items in order. */
  ghost predicate ScheduledTo<T>(batches: seq<seq<Slotted<T>>>, items: seq<T>, bs: nat, rx: nat, b: nat)
  {
    b == |batches| * bs && (|batches| == 0 || (|batches| - 1) * bs < |items|) &&
    Flatten(batches) == items[..Min(b, |items|)] && Scheduled(batches, items, bs, rx)
  }

  /** One iteration of the batch loop keeps the schedule invariant. */
  lemma ScheduleStep<T>(items: seq<T>, prev: seq<seq<Slotted<T>>>, lines: seq<Slotted<T>>, bs: nat, rx: nat, b: nat)
    requires bs >= 1 && b < |items| && ScheduledTo(prev, items, bs, rx, b)
    requires |lines| == Min(bs, |items| - b) && WellSlotted(lines, items, b, rx)
    ensures ScheduledTo(prev + [lines], items, bs, rx, b + bs)
    ensures b + |lines| == Min(b + bs, |items|)
  {
    var next := prev + [lines];
    var e := b + |lines|;
    assert Min(b, |items|) == b && e == Min(b + bs, |items|);
    FlattenSnoc(prev, lines);
    WellSlottedItems(lines, items, b, rx);
    PrefixSplit(items, b, e);
    ScheduledExtend(prev, lines, items, bs, rx);
    MulSucc(|prev|, bs);
    assert |next| - 1 == |prev|;
  }

  lemma FlattenSnoc<T>(prev: seq<seq<Slotted<T>>>, lines: seq<Slotted<T>>)
    ensures Flatten(prev + [lines]) == Flatten(prev) + Items(lines)
  {
    assert (prev + [lines])[..|prev|] == prev;
  }

  lemma PrefixSplit<T>(items: seq<T>, b: nat, e: nat)
    requires b <= e <= |items|
    ensures items[..e] == items[..b] + items[b..e]
  {
  }

  lemma MulSucc(a: nat, m: nat)
    ensures (a + 1) * m == a * m + m
  {
  }

  /** The outer `for (b = 0; b < numSeries; b += batchSize)` loop: the whole
      slot schedule, batch by batch. Every item is drawn exactly once, in
      order, and every batch's `lines` array is completely filled. */
  method BatchSchedule<T>(items: seq<T>, rx: nat, ry: nat) returns (batches: seq<seq<Slotted<T>>>)
    requires rx >= 1 && ry >= 1
    ensures Flatten(batches) == items
    ensures |batches| == CeilDiv(|items|, 4 * rx * ry)
    ensures Scheduled(batches, items, 4 * rx * ry, rx)
  {
    var batchSize := 4 * rx * ry;
    var series := 0;
    var finishedSeries := 0;
    var b := 0;
    batches := [];
    while b < |items|
      invariant series == finishedSeries
      invariant series == Min(b, |items|)
      invariant ScheduledTo(batches, items, batchSize, rx, b)
      decreases |items| - b
    {
      var lines, next := PrepareBatch(items, series, rx, ry);
      ScheduleStep(items, batches, lines[..], batchSize, rx, b);
      batches := batches + [lines[..]];
      finishedSeries := finishedSeries + lines.Length;
      series := next;
      b := b + batchSize;
    }
    assert items[..series] == items;
    CeilDivCount(|items|, batchSize, |batches|);
  }

  /** A loop stepping by m from 0 while below n runs CeilDiv(n, m) times. */
  lemma CeilDivCount(n: nat, m: nat, count: nat)
    requires m >= 1 && count * m >= n && (count == 0 || (count - 1) * m < n)
    ensures count == CeilDiv(n, m)
  {
    CeilDivBounds(n, m);
    var q := CeilDiv(n, m);
    if count < q {
      MulLe(m, count, q - 1);
    } else if count > q {
      MulLe(m, q, count - 1);
    }
  }

  /** The position of the first series of the batch that holds position f:
      every batch before it is complete, and f lies inside its batch. */
  function BatchStart(f: nat, batchSize: nat): (s: nat)
    requires batchSize >= 1
    ensures s <= f < s + batchSize && s % batchSize == 0
  {
    var q := f / batchSize;
    assert f == q * batchSize + f % batchSize;
    DivMulAdd(q, batchSize, 0);
    q * batchSize
  }
}
