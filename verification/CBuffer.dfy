/**
  CBuffer, a ring buffer in an array of fixed length. `View` is what it holds, from the first item to the last;
  every operation is described by what it does to that sequence.
 */
module CBuffer {
  import opened Wrappers

  // ---------------------------------------------------------------------------------------------
  // Slots: positions on an endless line, wrapped around the array

  /** The array index of a position; for positions that are not negative, JavaScript's `x % length`. */
  function Slot(x: int, length: int): (s: int)
    requires length > 0
    ensures 0 <= s < length
    decreases if x >= 0 then x else length - x
  {
    if x >= length then Slot(x - length, length) else if x < 0 then Slot(x + length, length) else x
  }

  lemma {:induction false} SlotIsRemainder(x: int, length: int)
    requires x >= 0 && length > 0
    ensures Slot(x, length) == x % length
    decreases x
  {
    if x >= length {
      SlotIsRemainder(x - length, length);
      RemainderRound(x, length);
    }
  }

  lemma RemainderRound(x: int, length: int)
    requires length > 0
    ensures x % length == (x - length) % length
  {
    var k := x / length - (x - length) / length - 1;
    assert length * k == (x - length) % length - x % length;
    if k != 0 {
      MultipleIsFar(length, k);
    }
  }

  lemma MultipleIsFar(a: int, k: int)
    requires a > 0 && k != 0
    ensures a * k >= a || a * k <= -a
  {
    if k > 0 {
      assert a * k == a * (k - 1) + a && a * (k - 1) >= 0;
    } else {
      assert a * k == -a - a * (-k - 1) && a * (-k - 1) >= 0;
    }
  }

  /** Moving on from a slot is moving on from the position. */
  lemma {:induction false} SlotMoves(x: int, d: int, length: int)
    requires length > 0
    ensures Slot(Slot(x, length) + d, length) == Slot(x + d, length)
    decreases if x >= 0 then x else length - x
  {
    if x >= length {
      SlotMoves(x - length, d, length);
      SlotRound(x + d - length, length);
    } else if x < 0 {
      SlotMoves(x + length, d, length);
      SlotRound(x + d, length);
    }
  }

  lemma SlotOfIndex(x: int, length: int)
    requires 0 <= x < length
    ensures Slot(x, length) == x
  {
  }

  /** A whole round does not matter. */
  lemma SlotRound(x: int, length: int)
    requires length > 0
    ensures Slot(x + length, length) == Slot(x, length)
  {
  }

  /** Positions less than one round apart have different slots. */
  lemma {:induction false} SlotsDiffer(x: int, y: int, length: int)
    requires length > 0 && x < y < x + length
    ensures Slot(x, length) != Slot(y, length)
    decreases if x >= 0 then x else length - x
  {
    if x >= length {
      SlotsDiffer(x - length, y - length, length);
    } else if x < 0 {
      SlotsDiffer(x + length, y + length, length);
      SlotRound(x, length);
      SlotRound(y, length);
    } else if y >= length {
      SlotRound(y - length, length);
    }
  }

  /** The item `i` places after position `start`. */
  function At<T>(data: seq<T>, start: int, i: int): T
    requires |data| > 0
  {
    data[Slot(start + i, |data|)]
  }

  /** Writing one place leaves the others of the same round alone. */
  lemma WriteOne<T>(data: seq<T>, start: int, k: int, v: T, i: int)
    requires |data| > 0 && -|data| < i - k < |data|
    ensures At(data[Slot(start + k, |data|) := v], start, i) == if i == k then v else At(data, start, i)
  {
    hide Slot;
    if i < k {
      SlotsDiffer(start + i, start + k, |data|);
    } else if k < i {
      SlotsDiffer(start + k, start + i, |data|);
    }
  }

  /** `size` items from position `start` on. */
  function Window<T>(data: seq<T>, start: int, size: nat): (r: seq<T>)
    requires |data| > 0
    ensures |r| == size
  {
    if size == 0 then [] else Window(data, start, size - 1) + [At(data, start, size - 1)]
  }

  lemma {:induction false} WindowAt<T>(data: seq<T>, start: int, size: nat)
    requires |data| > 0
    ensures forall i | 0 <= i < size :: Window(data, start, size)[i] == At(data, start, i)
  {
    hide Slot;
    if size > 0 {
      WindowAt(data, start, size - 1);
    }
  }

  /** A window depends only on the slot it starts in. */
  lemma WindowMoves<T>(data: seq<T>, start: int, size: nat)
    requires |data| > 0
    ensures Window(data, Slot(start, |data|), size) == Window(data, start, size)
  {
    hide Slot;
    WindowAt(data, Slot(start, |data|), size);
    WindowAt(data, start, size);
    forall i | 0 <= i < size ensures At(data, Slot(start, |data|), i) == At(data, start, i) {
      SlotMoves(start, i, |data|);
    }
  }

  lemma {:induction false} SameSlotMoves(x: int, y: int, d: int, length: int)
    requires length > 0 && Slot(x, length) == Slot(y, length)
    ensures Slot(x + d, length) == Slot(y + d, length)
  {
    hide Slot;
    SlotMoves(x, d, length);
    SlotMoves(y, d, length);
  }

  /** Going back by a remainder is going back by the whole. */
  lemma {:induction false} SlotGoesBack(x: int, i: int, length: int)
    requires length > 0 && i >= 0
    ensures Slot(x - Slot(i, length), length) == Slot(x - i, length)
    decreases i
  {
    if i >= length {
      SlotGoesBack(x, i - length, length);
      SlotRound(x - i, length);
    }
  }

  /** JavaScript's `x % length`, which keeps the sign of x. */
  function Truncated(x: int, length: int): (r: int)
    requires length > 0
  {
    if x >= 0 then Slot(x, length) else -Slot(-x, length)
  }

  /** How `unshift` brings an index that may have become negative back up. */
  function Wrapped(x: int, length: int): int
    requires length > 0
  {
    if x < 0 then length + Truncated(x, length) else x
  }

  /** It lands in the right slot, or one whole round above slot 0. */
  lemma {:induction false} WrappedIsSameSlot(x: int, length: int)
    requires length > 0 && x <= length
    ensures Slot(Wrapped(x, length), length) == Slot(x, length)
    ensures 0 <= Wrapped(x, length) <= length
    ensures x < length ==> (Wrapped(x, length) == length <==> x < 0 && -x % length == 0)
  {
    if x < 0 {
      SlotGoesBack(0, -x, length);
      SlotRound(-Slot(-x, length), length);
      SlotIsRemainder(-x, length);
    }
  }

  // ---------------------------------------------------------------------------------------------
  // The sequences the operations are described by

  function LastOf<T>(s: seq<T>, n: nat): seq<T> {
    if |s| <= n then s else s[|s| - n..]
  }

  function FirstOf<T>(s: seq<T>, n: nat): seq<T> {
    if |s| <= n then s else s[..n]
  }

  function Reversed<T>(s: seq<T>): (r: seq<T>)
    ensures |r| == |s| && forall i | 0 <= i < |s| :: r[i] == s[|s| - 1 - i]
  {
    seq(|s|, i requires 0 <= i < |s| => s[|s| - 1 - i])
  }

  /** `end` is in the slot of the last of `size` items from `start` on. */
  predicate Aligned(start: int, end: int, size: int, length: int)
    requires length > 0
  {
    Slot(end, length) == Slot(start + size - 1, length)
  }

  /** Stepping back over `size` items from an aligned end leads to the first of them. */
  lemma StartFromEnd(end: int, size: int, length: int)
    requires length > 0 && 0 <= end < length
    ensures Aligned(Slot(length + end - size + 1, length), end, size, length)
    ensures Slot(length + end - size + 1, length) == Slot(end + 1 - size, length)
  {
    hide Slot;
    SlotRound(end - size + 1, length);
    SlotMoves(end + 1 - size, size - 1, length);
  }

  lemma PushIndexes(start: int, end: int, size: int, k: int, newSize: int, length: int)
    requires length > 0 && Aligned(start, end, size, length)
    ensures Slot(Slot(end + k, length) + 1 - newSize, length) == Slot(start + (size + k - newSize), length)
  {
    hide Slot;
    var d := k + 1 - newSize;
    SlotMoves(end + k, 1 - newSize, length);
    SameSlotMoves(end, start + size - 1, d, length);
  }

  /** Dropping the last item, whether its slot is erased or not. */
  lemma ShorterWindow<T>(data: seq<T>, start: int, size: nat, erased: T)
    requires 0 < size <= |data|
    ensures Window(data, start, size - 1) == Window(data, start, size)[..size - 1]
    ensures Window(data[Slot(start + size - 1, |data|) := erased], start, size - 1) == Window(data, start, size - 1)
    ensures data[Slot(start + size - 1, |data|)] == Window(data, start, size)[size - 1]
  {
    hide Slot;
    var after := data[Slot(start + (size - 1), |data|) := erased];
    WindowAt(data, start, size - 1);
    WindowAt(after, start, size - 1);
    forall i | 0 <= i < size - 1 ensures At(after, start, i) == At(data, start, i) {
      WriteOne(data, start, size - 1, erased, i);
    }
  }

  /** A window that starts later shows the end of the longer one. */
  lemma LaterWindow<T>(data: seq<T>, start: int, from: int, size: nat, newStart: int, all: seq<T>)
    requires |data| > 0 && 0 <= from && from + size == |all| && newStart == Slot(start + from, |data|)
    requires forall y | from <= y < |all| :: At(data, start, y) == all[y]
    ensures Window(data, newStart, size) == all[from..]
  {
    hide Slot, Window;
    WindowMoves(data, start + from, size);
    var at := start + from;
    WindowAt(data, at, size);
    forall i | 0 <= i < size ensures At(data, at, i) == all[from..][i] {
      assert At(data, at, i) == At(data, start, from + i);
    }
  }

  /** The indexes `push` computes show the last items of what was written. */
  lemma PushKeepsLast<T>(data: seq<T>, start: int, end: int, size: nat, k: nat, newEnd: int, newSize: nat, all: seq<T>)
    requires |data| > 0 && Aligned(start, end, size, |data|) && size <= |data|
    requires newEnd == Slot(end + k, |data|) && |all| == size + k
    requires newSize == if size + k > |data| then |data| else size + k
    requires forall y | 0 <= y < size + k && size + k - |data| <= y :: At(data, start, y) == all[y]
    ensures Window(data, Slot(|data| + newEnd - newSize + 1, |data|), newSize) == LastOf(all, |data|)
  {
    hide Slot;
    PushIndexes(start, end, size, k, newSize, |data|);
    StartFromEnd(newEnd, newSize, |data|);
    LaterWindow(data, start, size + k - newSize, newSize, Slot(newEnd + 1 - newSize, |data|), all);
  }

  /** The callback of `push` is given the slot of an item about to be lost iff the buffer is full. */
  lemma ReportsLostIff(start: int, size: int, k: int, i: int, length: int)
    requires 0 < size <= length && 0 < k <= length && 0 <= i < size + k - length
    ensures Slot(start + size + i, length) == Slot(start + i, length) <==> size == length
  {
    hide Slot;
    if size < length {
      SlotsDiffer(start + i, start + size + i, length);
    } else {
      SlotRound(start + i, length);
    }
  }

  /** One round after the first item of a full buffer the items come again. */
  lemma RoundIsView<T>(data: seq<T>, start: int, k: nat)
    requires |data| > 0 && k <= |data|
    ensures forall i | 0 <= i < k :: At(data, start, |data| + i) == Window(data, start, |data|)[i]
  {
    hide Slot;
    WindowAt(data, start, |data|);
    forall i | 0 <= i < k ensures At(data, start, |data| + i) == At(data, start, i) {
      SlotRound(start + i, |data|);
    }
  }

  /** The slot `i` before the end, unless that is before index 0. */
  lemma FromTheEnd(start: int, end: int, size: int, i: int, length: int)
    requires length > 0 && Aligned(start, end, size, length) && 0 <= i <= end < length
    ensures Slot(start + (size - 1 - i), length) == end - i
  {
    SameSlotMoves(end, start + size - 1, -i, length);
    SlotOfIndex(end - i, length);
  }

  /** The outer `i` items on either side are already swapped. */
  ghost predicate Mirrored<T>(data: seq<T>, start: int, view: seq<T>, i: int) {
    |data| > 0 && forall k | 0 <= k < |view| :: At(data, start, k) == HalfReversed(view, i, k)
  }

  function HalfReversed<T>(view: seq<T>, i: int, k: int): T
    requires 0 <= k < |view|
  {
    if k < i || k >= |view| - i then view[|view| - 1 - k] else view[k]
  }

  lemma MirroredOneMore<T>(data: seq<T>, start: int, view: seq<T>, i: int, a: int, b: int)
    requires Mirrored(data, start, view, i) && |view| <= |data| && 0 <= i < |view| - 1 - i
    requires a == Slot(start + i, |data|) && b == Slot(start + (|view| - i - 1), |data|)
    ensures Mirrored(data[a := data[b]][b := data[a]], start, view, i + 1)
  {
    hide Slot;
    var j := |view| - i - 1;
    assert data[a] == At(data, start, i) == view[i];
    assert data[b] == At(data, start, j);
    assert At(data, start, j) == view[j];
    var after := data[a := data[b]][b := data[a]];
    forall k | 0 <= k < |view|
      ensures At(after, start, k) == HalfReversed(view, i + 1, k)
    {
      WriteOne(data, start, i, data[b], k);
      WriteOne(data[a := data[b]], start, j, data[a], k);
    }
  }

  lemma MirroredToTheMiddle<T>(data: seq<T>, start: int, view: seq<T>, i: int)
    requires Mirrored(data, start, view, i) && i == |view| / 2
    ensures Window(data, start, |view|) == Reversed(view)
  {
    hide Slot;
    WindowAt(data, start, |view|);
    forall k | 0 <= k < |view| ensures HalfReversed(view, i, k) == view[|view| - 1 - k] {
    }
  }

  /** What `unshift` writes: `all` holds the batch, last item first, and then the old items. */
  lemma UnshiftOne<T>(data: seq<T>, start: int, all: seq<T>, k: int, i: int)
    requires |data| > 0 && 0 <= i < k <= |all| && 0 <= start
    requires forall y | k - i <= y < |all| && y < k - i + |data| :: At(data, start - k, y) == all[y]
    ensures var slot := Slot(|data| + start - Slot(i, |data|) - 1, |data|);
      forall y | k - i - 1 <= y < |all| && y < k - i - 1 + |data| ::
        At(data[slot := all[k - 1 - i]], start - k, y) == all[y]
  {
    hide Slot;
    SlotGoesBack(|data| + start - 1, i, |data|);
    SlotRound(start - 1 - i, |data|);
    var at := k - 1 - i;
    var after := data[Slot(start - k + at, |data|) := all[at]];
    forall y | at <= y < |all| && y < at + |data| ensures At(after, start - k, y) == all[y] {
      WriteOne(data, start - k, at, all[at], y);
    }
  }

  /** What the callback of `unshift` is given: the slots from the end down, and nothing for those below index 0. */
  ghost predicate Backwards<T>(reported: seq<T>, data: seq<T>, end: int, undefined: T) {
    |data| > 0 && forall i | 0 <= i < |reported| :: reported[i] == InSlot(data, end - Slot(i, |data|), undefined)
  }

  function InSlot<T>(data: seq<T>, index: int, undefined: T): T {
    if 0 <= index < |data| then data[index] else undefined
  }

  /** As long as index 0 is not passed, these are the items from the last one back. */
  lemma BackwardsIsView<T>(reported: seq<T>, data: seq<T>, start: int, end: int, size: nat, undefined: T)
    requires Backwards(reported, data, end, undefined) && |reported| <= size <= |data|
    requires 0 <= end < |data| && Aligned(start, end, size, |data|)
    ensures forall i | 0 <= i < |reported| ::
      reported[i] == if i <= end then Window(data, start, size)[size - 1 - i] else undefined
  {
    hide Slot, Aligned, Window;
    WindowAt(data, start, size);
    forall i | 0 <= i < |reported|
      ensures reported[i] == if i <= end then Window(data, start, size)[size - 1 - i] else undefined
    {
      SlotOfIndex(i, |data|);
      if i <= end {
        FromTheEnd(start, end, size, i, |data|);
        assert Window(data, start, size)[size - 1 - i] == At(data, start, size - 1 - i);
      }
    }
  }

  /** The index of the end after `unshift`: it moves only as far as the buffer overflows. */
  function EndAfter(end: int, room: int, length: int): int
    requires length > 0
  {
    if room < 0 then Wrapped(end + room, length) else end
  }

  lemma EndAfterIsSameSlot(end: int, over: int, length: int)
    requires length > 0 && 0 <= end <= length
    ensures 0 <= EndAfter(end, -over, length) <= length
    ensures Slot(EndAfter(end, -over, length), length) == Slot(if over > 0 then end - over else end, length)
    ensures end < length ==> (EndAfter(end, -over, length) == length <==> end < over && (over - end) % length == 0)
  {
    hide Slot;
    WrappedIsSameSlot(if over > 0 then end - over else end, length);
  }

  lemma UnshiftIndexes(start: int, end: int, size: int, k: int, newStart: int, newEnd: int, newSize: int, length: int)
    requires length > 0 && Aligned(start, end, size, length) && 0 <= size <= length && k >= 0
    requires newSize == if size + k > length then length else size + k
    requires Slot(newStart, length) == Slot(start - k, length)
    requires Slot(newEnd, length) == Slot(if size + k - length > 0 then end - (size + k - length) else end, length)
    ensures Aligned(newStart, newEnd, newSize, length)
  {
    hide Slot;
    SameSlotMoves(newStart, start - k, newSize - 1, length);
    if size + k > length {
      SameSlotMoves(end, start + size - 1, length - size - k, length);
    }
  }

  lemma UnshiftShows<T>(data: seq<T>, start: int, k: nat, newStart: int, newSize: nat, all: seq<T>)
    requires |data| > 0 && newSize <= |data| && newSize == (if |all| > |data| then |data| else |all|)
    requires Slot(newStart, |data|) == Slot(start - k, |data|)
    requires forall y | 0 <= y < |all| && y < |data| :: At(data, start - k, y) == all[y]
    ensures Window(data, newStart, newSize) == FirstOf(all, |data|)
  {
    hide Slot;
    WindowMoves(data, newStart, newSize);
    WindowMoves(data, start - k, newSize);
    WindowAt(data, start - k, newSize);
  }

  // ---------------------------------------------------------------------------------------------
  // Rotation

  /** One turn of `rotateLeft`: what `shift` returns is pushed, also when that is nothing. */
  function LeftTurn<T>(s: seq<T>, undefined: T): seq<T> {
    if s == [] then [undefined] else s[1..] + [s[0]]
  }

  function RightTurn<T>(s: seq<T>, undefined: T): seq<T> {
    if s == [] then [undefined] else [s[|s| - 1]] + s[..|s| - 1]
  }

  function LeftTurns<T>(s: seq<T>, n: nat, undefined: T): seq<T> {
    if n == 0 then s else LeftTurn(LeftTurns(s, n - 1, undefined), undefined)
  }

  function RightTurns<T>(s: seq<T>, n: nat, undefined: T): seq<T> {
    if n == 0 then s else RightTurn(RightTurns(s, n - 1, undefined), undefined)
  }

  lemma OneItemFirst<T>(item: T, s: seq<T>, length: nat)
    requires |s| < length
    ensures FirstOf(Reversed([item]) + s, length) == [item] + s
  {
  }

  /** Turning n times is cutting the sequence at n modulo its length. */
  lemma {:induction false} LeftTurnsRotate<T>(s: seq<T>, n: nat, undefined: T)
    requires |s| > 0
    ensures LeftTurns(s, n, undefined) == s[n % |s|..] + s[..n % |s|]
  {
    if n > 0 {
      LeftTurnsRotate(s, n - 1, undefined);
      NextRemainder(n, |s|);
      TurnCutsLater(s, (n - 1) % |s|, undefined);
    }
  }

  lemma TurnCutsLater<T>(s: seq<T>, k: nat, undefined: T)
    requires k < |s|
    ensures LeftTurn(s[k..] + s[..k], undefined) == if k == |s| - 1 then s else s[k + 1..] + s[..k + 1]
  {
    var cut := s[k..] + s[..k];
    assert cut[1..] + [cut[0]] == if k == |s| - 1 then s else s[k + 1..] + s[..k + 1];
  }

  lemma NextRemainder(n: int, length: int)
    requires n > 0 && length > 0
    ensures n % length == if (n - 1) % length == length - 1 then 0 else (n - 1) % length + 1
  {
    var r := if (n - 1) % length == length - 1 then 0 else (n - 1) % length + 1;
    var k := n / length - (n - 1) / length - if r == 0 then 1 else 0;
    assert length * k == r - n % length;
    if k != 0 {
      MultipleIsFar(length, k);
    }
  }

  lemma {:induction false} RightTurnsFirst<T>(s: seq<T>, n: nat, undefined: T)
    requires n > 0
    ensures RightTurns(s, n, undefined) == RightTurns(RightTurn(s, undefined), n - 1, undefined)
  {
    if n > 1 {
      RightTurnsFirst(s, n - 1, undefined);
    }
  }

  lemma {:induction false} LeftTurnsFirst<T>(s: seq<T>, n: nat, undefined: T)
    requires n > 0
    ensures LeftTurns(s, n, undefined) == LeftTurns(LeftTurn(s, undefined), n - 1, undefined)
  {
    if n > 1 {
      LeftTurnsFirst(s, n - 1, undefined);
    }
  }

  lemma {:induction false} TurnsKeepLength<T>(s: seq<T>, n: nat, undefined: T)
    requires |s| > 0
    ensures |LeftTurns(s, n, undefined)| == |s| && |RightTurns(s, n, undefined)| == |s|
  {
    if n > 0 {
      TurnsKeepLength(s, n - 1, undefined);
    }
  }

  lemma {:induction false} RightUndoesLeft<T>(s: seq<T>, n: nat, undefined: T)
    requires |s| > 0
    ensures RightTurns(LeftTurns(s, n, undefined), n, undefined) == s
  {
    if n > 0 {
      hide LeftTurn, RightTurn;
      var left := LeftTurns(s, n - 1, undefined);
      TurnsKeepLength(s, n - 1, undefined);
      TurnBack(left, undefined);
      RightTurnsFirst(LeftTurn(left, undefined), n, undefined);
      RightUndoesLeft(s, n - 1, undefined);
    }
  }

  lemma {:induction false} LeftUndoesRight<T>(s: seq<T>, n: nat, undefined: T)
    requires |s| > 0
    ensures LeftTurns(RightTurns(s, n, undefined), n, undefined) == s
  {
    if n > 0 {
      LeftUndoesRight(s, n - 1, undefined);
      LeftUndoesLast(s, RightTurns(s, n - 1, undefined), n, undefined);
    }
  }

  lemma LeftUndoesLast<T>(s: seq<T>, right: seq<T>, n: nat, undefined: T)
    requires |s| > 0 && n > 0 && right == RightTurns(s, n - 1, undefined)
    ensures LeftTurns(RightTurns(s, n, undefined), n, undefined) == LeftTurns(right, n - 1, undefined)
  {
    hide LeftTurn, RightTurn;
    TurnsKeepLength(s, n - 1, undefined);
    TurnBack(right, undefined);
    LeftTurnsFirst(RightTurn(right, undefined), n, undefined);
  }

  /** `rotateRight(n)` undoes `rotateLeft(n)`, and the other way round. */
  lemma RotationsUndoEachOther<T>(s: seq<T>, n: nat, undefined: T)
    requires |s| > 0
    ensures RightTurns(LeftTurns(s, n, undefined), n, undefined) == s
    ensures LeftTurns(RightTurns(s, n, undefined), n, undefined) == s
  {
    RightUndoesLeft(s, n, undefined);
    LeftUndoesRight(s, n, undefined);
  }

  lemma TurnBack<T>(s: seq<T>, undefined: T)
    requires |s| > 0
    ensures RightTurn(LeftTurn(s, undefined), undefined) == s && LeftTurn(RightTurn(s, undefined), undefined) == s
  {
    assert (s[1..] + [s[0]])[..|s| - 1] == s[1..];
    assert ([s[|s| - 1]] + s[..|s| - 1])[1..] == s[..|s| - 1];
  }

  /** An empty buffer does not stay empty: the first turn stores the missing item. */
  lemma {:induction false} TurningNothing<T>(n: nat, undefined: T)
    ensures LeftTurns([], n, undefined) == RightTurns([], n, undefined) == if n == 0 then [] else [undefined]
  {
    if n > 0 {
      TurningNothing(n - 1, undefined);
    }
  }

  // ---------------------------------------------------------------------------------------------
  // Searching a sorted view

  /** The value belongs after the item. */
  predicate After<T>(compare: (T, T) -> int, value: T, item: T) {
    compare(value, item) > 0
  }

  /** How many items of `s` the value belongs after: where a sorted sequence would take it. */
  function Rank<T>(compare: (T, T) -> int, value: T, s: seq<T>): (r: nat)
    ensures r <= |s|
  {
    if s == [] then 0 else Rank(compare, value, s[..|s| - 1]) + if After(compare, value, s[|s| - 1]) then 1 else 0
  }

  /** Once an item is not smaller than the value, no later one is. */
  ghost predicate Ordered<T>(compare: (T, T) -> int, value: T, s: seq<T>) {
    forall i, j | 0 <= i < j < |s| :: compare(value, s[j]) > 0 ==> compare(value, s[i]) > 0
  }

  /** Sorted with a comparison that is transitive on these items gives that order for the value. */
  lemma SortedIsOrdered<T>(compare: (T, T) -> int, value: T, s: seq<T>)
    requires forall i, j | 0 <= i < j < |s| :: compare(s[i], s[j]) <= 0
    requires forall a, b | a in s && b in s :: compare(value, b) > 0 && compare(a, b) <= 0 ==> compare(value, a) > 0
    ensures Ordered(compare, value, s)
  {
    forall i, j | 0 <= i < j < |s| && After(compare, value, s[j]) ensures After(compare, value, s[i]) {
      assert s[i] in s && s[j] in s;
    }
  }

  /** By the comparison, the value belongs after the items before this place and after none of the others. */
  ghost predicate IsPlace<T>(compare: (T, T) -> int, value: T, s: seq<T>, place: int) {
    && 0 <= place <= |s|
    && (forall i | 0 <= i < place :: compare(value, s[i]) > 0)
    && (forall i | place <= i < |s| :: compare(value, s[i]) <= 0)
  }

  /** The same, except that the last item may stand for the place after it. */
  ghost predicate IsPlaceOrLast<T>(compare: (T, T) -> int, value: T, s: seq<T>, place: int) {
    IsPlace(compare, value, s, place) || (place == |s| - 1 && IsPlace(compare, value, s, |s|))
  }

  /** In an ordered sequence the rank is that place. */
  lemma {:induction false} RankIsPlace<T>(compare: (T, T) -> int, value: T, s: seq<T>)
    requires Ordered(compare, value, s)
    ensures IsPlace(compare, value, s, Rank(compare, value, s))
  {
    if s != [] {
      RankIsPlace(compare, value, s[..|s| - 1]);
    }
  }

  /** Two comparisons next to each other settle the rank. */
  lemma {:induction false} RankIs<T>(compare: (T, T) -> int, value: T, s: seq<T>, r: int)
    requires Ordered(compare, value, s) && 0 <= r <= |s|
    requires r > 0 ==> After(compare, value, s[r - 1])
    requires r < |s| ==> !After(compare, value, s[r])
    ensures Rank(compare, value, s) == r
    decreases |s|
  {
    if s != [] {
      var init := s[..|s| - 1];
      if r == |s| {
        if |s| > 1 {
          assert After(compare, value, s[r - 2]);
        }
        RankIs(compare, value, init, r - 1);
      } else {
        assert r < |s| - 1 ==> !After(compare, value, s[|s| - 1]);
        RankIs(compare, value, init, r);
      }
    }
  }

  /** The same when the last item is never looked at. */
  lemma CappedRankIs<T>(compare: (T, T) -> int, value: T, s: seq<T>, r: int)
    requires Ordered(compare, value, s) && 0 <= r < |s|
    requires r > 0 ==> After(compare, value, s[r - 1])
    requires r < |s| - 1 ==> !After(compare, value, s[r])
    ensures r == if Rank(compare, value, s) < |s| then Rank(compare, value, s) else |s| - 1
  {
    RankIs(compare, value, s, if After(compare, value, s[r]) then r + 1 else r);
  }

  /** `((x % n) + n) % n` is the remainder that is not negative. */
  lemma {:induction false} TwiceTruncated(x: int, n: int)
    requires n > 0
    ensures Slot(Truncated(x, n) + n, n) == Slot(x, n)
  {
    if x < 0 {
      SlotGoesBack(n, -x, n);
      SlotRound(x, n);
    } else {
      SlotRound(Slot(x, n), n);
      SlotMoves(x, 0, n);
    }
  }

  /** The loop of `sortedIndex`: where the binary search between two slots ends. */
  function Search<T>(data: seq<T>, low: int, high: int, compare: (T, T) -> int, value: T): (r: int)
    requires 0 <= low && high <= |data|
    ensures if low > high then r == low else low <= r <= high
    ensures r > low ==> After(compare, value, data[r - 1])
    ensures low <= r < high ==> !After(compare, value, data[r])
    decreases high - low
  {
    if low >= high then low
    else
      var mid := (low + high) / 2;
      if After(compare, value, data[mid]) then Search(data, mid + 1, high, compare, value)
      else Search(data, low, mid, compare, value)
  }

  /** What `sortedIndex` searches: from the start on, or from slot 0 to the end for a value beyond one slot's item. */
  function Found<T>(data: seq<T>, start: int, end: int, size: nat, compare: (T, T) -> int, value: T): int
    requires |data| > 0 && 0 <= start <= |data| && 0 <= end <= |data| && size <= |data|
  {
    var isFull := size == |data|;
    var high := if isFull then size - 1 else size;
    var low :=
      if start != 0 && After(compare, value, data[high]) then Search(data, 0, end, compare, value)
      else Search(data, start, high, compare, value);
    if isFull then Slot(Truncated(low - start, size) + size, size) else low
  }

  /** In a full sorted buffer the search leaves out the last slot of its range. */
  lemma FoundInFull<T>(data: seq<T>, start: int, end: int, compare: (T, T) -> int, value: T)
    requires 0 <= start < |data| && 0 <= end < |data| && Aligned(start, end, |data|, |data|)
    requires Ordered(compare, value, Window(data, start, |data|))
    ensures var rank := Rank(compare, value, Window(data, start, |data|));
      Found(data, start, end, |data|, compare, value) == if rank < |data| then rank else |data| - 1
    ensures IsPlaceOrLast(compare, value, Window(data, start, |data|), Found(data, start, end, |data|, compare, value))
  {
    hide Slot, Rank, Ordered, Truncated, Window, Aligned, Search, IsPlace;
    RankIsPlace(compare, value, Window(data, start, |data|));
    var low :=
      if start != 0 && After(compare, value, data[|data| - 1]) then Search(data, 0, end, compare, value)
      else Search(data, start, |data| - 1, compare, value);
    TwiceTruncated(low - start, |data|);
    EndsInFull(data, start, end, low, compare, value);
  }

  lemma EndsInFull<T>(data: seq<T>, start: int, end: int, low: int, compare: (T, T) -> int, value: T)
    requires 0 <= start < |data| && 0 <= end < |data| && Aligned(start, end, |data|, |data|)
    requires Ordered(compare, value, Window(data, start, |data|))
    requires var rotated := start != 0 && After(compare, value, data[|data| - 1]);
      var first, last := if rotated then 0 else start, if rotated then end else |data| - 1;
      && first <= low <= last
      && (low == first || After(compare, value, data[low - 1]))
      && (low == last || !After(compare, value, data[low]))
    ensures var rank := Rank(compare, value, Window(data, start, |data|));
      Slot(low - start, |data|) == if rank < |data| then rank else |data| - 1
  {
    hide Window, Rank, Ordered;
    var view := Window(data, start, |data|);
    var r := if low < start then low - start + |data| else low - start;
    SlotRound(low - start, |data|);
    SlotOfIndex(r, |data|);
    SlotOfIndex(end, |data|);
    SlotRound(start - 1, |data|);
    if r > 0 {
      InWindow(data, start, |data|, r - 1);
    }
    InWindow(data, start, |data|, r);
    CappedRankIs(compare, value, view, r);
  }

  lemma InWindow<T>(data: seq<T>, start: int, size: nat, i: nat)
    requires 0 <= start < |data| && i < size <= |data|
    ensures Window(data, start, size)[i] == data[if start + i < |data| then start + i else start + i - |data|]
  {
    WindowAt(data, start, size);
    if start + i >= |data| {
      SlotRound(start + i - |data|, |data|);
    }
  }

  lemma FoundFromZero<T>(data: seq<T>, end: int, size: nat, compare: (T, T) -> int, value: T)
    requires size < |data| && 0 <= end <= |data| && Ordered(compare, value, Window(data, 0, size))
    ensures Found(data, 0, end, size, compare, value) == Rank(compare, value, Window(data, 0, size))
    ensures IsPlace(compare, value, Window(data, 0, size), Found(data, 0, end, size, compare, value))
  {
    RankIsPlace(compare, value, Window(data, 0, size));
    var low := Search(data, 0, size, compare, value);
    if low > 0 {
      InWindow(data, 0, size, low - 1);
    }
    if low < size {
      InWindow(data, 0, size, low);
    }
    RankIs(compare, value, Window(data, 0, size), low);
  }

  /** A value that is not beyond the item in any slot belongs first, and the search stays at the start. */
  lemma {:induction false} NothingBefore<T>(data: seq<T>, start: int, size: nat, compare: (T, T) -> int, value: T)
    requires |data| > 0 && forall i | 0 <= i < |data| :: !After(compare, value, data[i])
    ensures Rank(compare, value, Window(data, start, size)) == 0
    ensures Ordered(compare, value, Window(data, start, size))
  {
    WindowAt(data, start, size);
    if size > 0 {
      NothingBefore(data, start, size - 1, compare, value);
      assert Window(data, start, size)[..size - 1] == Window(data, start, size - 1);
    }
  }

  lemma FoundAtStart<T>(data: seq<T>, start: int, end: int, size: nat, compare: (T, T) -> int, value: T)
    requires size < |data| && 0 <= start <= |data| && 0 <= end <= |data|
    requires forall i | 0 <= i < |data| :: !After(compare, value, data[i])
    ensures Rank(compare, value, Window(data, start, size)) == 0
    ensures Found(data, start, end, size, compare, value) == 0 <==> start == 0
  {
    NothingBefore(data, start, size, compare, value);
  }

  /**
    On a buffer that is not full, `sortedIndex` finds the place of every value in every order iff the buffer starts
    at slot 0. Elsewhere it already fails where all items are equal.
   */
  lemma FoundIsRankIff<T>(data: seq<T>, start: int, end: int, size: nat)
    requires size < |data| && 0 <= start <= |data| && 0 <= end <= |data|
    ensures (forall compare: (T, T) -> int, value: T | Ordered(compare, value, Window(data, start, size)) ::
               Found(data, start, end, size, compare, value) == Rank(compare, value, Window(data, start, size))) <==>
      start == 0
  {
    hide Found, Ordered, Rank, Window;
    if start == 0 {
      forall compare: (T, T) -> int, value: T | Ordered(compare, value, Window(data, start, size))
        ensures Found(data, start, end, size, compare, value) == Rank(compare, value, Window(data, start, size))
      {
        FoundFromZero(data, end, size, compare, value);
      }
    } else {
      var same, value := (a: T, b: T) => 0, data[0];
      FoundAtStart(data, start, end, size, same, value);
      NothingBefore(data, start, size, same, value);
    }
  }

  // ---------------------------------------------------------------------------------------------
  // Slices

  /** `Array.prototype.slice`, section 22.1.3.22 of ECMA-262, 6th edition. */
  function ArraySlice<T>(s: seq<T>, from: int, to: Option<int>): seq<T> {
    var final := if to == None then |s| else Clamped(to.value, |s|);
    var k := Clamped(from, |s|);
    if k < final then s[k..final] else []
  }

  /** Bounds that agree with the clamped ones, or are as empty as they are, cut out the same slice. */
  lemma ArraySliceIs<T>(s: seq<T>, from: int, to: Option<int>, first: int, last: int, r: seq<T>)
    requires 0 <= first && last <= |s|
    requires var final := if to == None then |s| else Clamped(to.value, |s|);
      if first < last then first == Clamped(from, |s|) && last == final else Clamped(from, |s|) >= final
    requires |r| == if first < last then last - first else 0
    requires forall k | 0 <= k < |r| :: r[k] == s[first + k]
    ensures r == ArraySlice(s, from, to)
  {
    if first < last {
      assert r == s[first..last];
    }
  }

  function Clamped(relative: int, length: nat): (k: nat)
    ensures k <= length
  {
    if relative < 0 then
      if length + relative < 0 then 0 else length + relative
    else if relative < length then relative else length
  }

  /** Bounds may be given from the start or from the end, and those outside the sequence stand for its ends. */
  lemma SliceBounds<T>(s: seq<T>, i: int, j: int, beyond: int)
    requires 0 <= i <= j <= |s| <= beyond
    ensures ArraySlice(s, i, Some(j)) == s[i..j] && ArraySlice(s, j, Some(i)) == []
    ensures i < |s| ==> ArraySlice(s, i - |s|, Some(j)) == s[i..j]
    ensures j < |s| ==> ArraySlice(s, i, Some(j - |s|)) == s[i..j]
    ensures ArraySlice(s, i, None) == ArraySlice(s, i, Some(beyond)) == s[i..]
    ensures beyond > 0 ==> ArraySlice(s, -beyond, Some(j)) == s[..j]
  {
  }

  class Buffer<T> {
    const undefined: T
    const data: array<T>
    var start: int
    var end: int
    var size: nat
    /** Whether there is a callback for items about to be overwritten; its calls are the sequences reported below. */
    var overflow: bool

    /** What holds at all times. `start` or `end` may equal the length: that is where `unshift` can leave them. */
    ghost predicate Loose()
      reads this
    {
      && data.Length > 0 && size <= data.Length
      && 0 <= start <= data.Length && 0 <= end <= data.Length
      && Aligned(start, end, size, data.Length)
    }

    /** Both are indexes, which is what `shift` and `pop` need. */
    ghost predicate Valid()
      reads this
    {
      Loose() && start < data.Length && end < data.Length
    }

    ghost function View(): seq<T>
      requires data.Length > 0
      reads this, data
    {
      Window(data[..], start, size)
    }

    constructor (length: nat, undefined: T)
      requires length > 0
      ensures Valid() && View() == [] && data.Length == length && this.undefined == undefined && fresh(data)
      ensures start == 0 && end == length - 1
    {
      this.undefined := undefined;
      data := new T[length](_ => undefined);
      start, end, size, overflow := 0, length - 1, 0, false;
    }

    /** `new CBuffer(a, b, c)`: as long as the items, and filled with them. */
    constructor Of(items: seq<T>, undefined: T)
      requires items != []
      ensures Valid() && View() == items && data.Length == |items| && this.undefined == undefined && fresh(data)
    {
      this.undefined := undefined;
      data := new T[|items|](_ => undefined);
      start, end, size, overflow := 0, |items| - 1, 0, false;
      new;
      var newSize, reported := Push(items);
    }

    method Pop() returns (item: T)
      requires Loose()
      modifies this`end, this`size, data
      ensures Loose() && (|old(View())| > 0 ==> end < data.Length)
      ensures |old(View())| == 0 ==> item == undefined && View() == [] && end == old(end)
      ensures |old(View())| > 0 ==> View() == old(View())[..|old(View())| - 1]
      ensures |old(View())| > 0 ==> item == if old(end) < data.Length then old(View())[|old(View())| - 1] else undefined
      ensures data[..] ==
        if old(size) > 0 && old(end) < data.Length then old(data[..])[old(end) := undefined] else old(data[..])
    {
      hide Slot;
      if size == 0 {
        return undefined;
      }
      ShorterWindow(data[..], start, size, undefined);
      if end < data.Length {
        SlotOfIndex(end, data.Length);
      }
      if end < data.Length {
        item := data[end];
        data[end] := undefined;
      } else {
        item := undefined;
      }
      SameSlotMoves(end, start + size - 1, -1, data.Length);
      SlotRound(end - 1, data.Length);
      end := Slot(end - 1 + data.Length, data.Length);
      SlotOfIndex(end, data.Length);
      size := size - 1;
    }

    method Push(args: seq<T>) returns (newSize: nat, reported: seq<T>)
      requires Loose()
      modifies this`start, this`end, this`size, data
      ensures Valid() && newSize == size
      ensures View() == LastOf(old(View()) + args, data.Length)
      ensures end == Slot(old(end) + |args|, data.Length) && start == Slot(data.Length + end - size + 1, data.Length)
      ensures |reported| == if overflow && old(size) + |args| > data.Length then old(size) + |args| - data.Length else 0
      ensures forall i | 0 <= i < |reported| :: reported[i] == At(old(data[..]), old(start), old(size) + i)
      ensures overflow && old(size) == data.Length && |args| <= data.Length ==> reported == old(View())[..|args|]
    {
      hide Slot, At, Window, LastOf;
      reported := ReportPush(|args|);
      if size == data.Length && |args| <= data.Length {
        RoundIsView(data[..], start, |args|);
      }
      PushItems(args);
      ghost var s, e, n := start, end, size;
      if size < data.Length {
        size := if size + |args| > data.Length then data.Length else size + |args|;
      }
      end := Slot(end + |args|, data.Length);
      start := Slot(data.Length + end - size + 1, data.Length);
      newSize := size;
      StartFromEnd(end, size, data.Length);
      PushKeepsLast(data[..], s, e, n, |args|, end, size, old(View()) + args);
    }

    /** The slots after the last item, which in a full buffer are those of the first items. */
    method ReportPush(count: nat) returns (reported: seq<T>)
      requires Loose()
      ensures |reported| == if overflow && size + count > data.Length then size + count - data.Length else 0
      ensures forall i | 0 <= i < |reported| :: reported[i] == At(data[..], start, size + i)
    {
      hide Slot;
      reported := [];
      if overflow && size + count > data.Length {
        var i := 0;
        while i < size + count - data.Length
          invariant 0 <= i <= size + count - data.Length && |reported| == i
          invariant forall k | 0 <= k < i :: reported[k] == At(data[..], start, size + k)
        {
          SameSlotMoves(end, start + size - 1, i + 1, data.Length);
          assert At(data[..], start, size + i) == data[Slot(end + i + 1, data.Length)];
          reported := reported + [data[Slot(end + i + 1, data.Length)]];
          i := i + 1;
        }
      }
    }

    /** The writing loop of `push`: the items go to the places after the last one, wrapping and erasing. */
    method PushItems(args: seq<T>)
      requires Loose()
      modifies data
      ensures forall y | 0 <= y < size + |args| && size + |args| - data.Length <= y ::
        At(data[..], start, y) == (old(View()) + args)[y]
    {
      hide Slot;
      ghost var all := old(View()) + args;
      WindowAt(data[..], start, size);
      var i := 0;
      while i < |args|
        invariant 0 <= i <= |args|
        invariant forall y | 0 <= y < size + i && size + i - data.Length <= y :: At(data[..], start, y) == all[y]
      {
        ghost var before := data[..];
        SameSlotMoves(end, start + size - 1, i + 1, data.Length);
        data[Slot(end + i + 1, data.Length)] := args[i];
        assert data[..] == before[Slot(start + (size + i), data.Length) := args[i]];
        forall y | 0 <= y < size + i + 1 && size + i + 1 - data.Length <= y ensures At(data[..], start, y) == all[y] {
          WriteOne(before, start, size + i, args[i], y);
        }
        i := i + 1;
      }
    }

    method Shift() returns (item: T)
      requires Loose()
      modifies this`start, this`size
      ensures Loose() && (|old(View())| > 0 ==> start < data.Length)
      ensures |old(View())| == 0 ==> item == undefined && View() == [] && start == old(start)
      ensures |old(View())| > 0 ==> View() == old(View())[1..] && start == Slot(old(start) + 1, data.Length)
      ensures |old(View())| > 0 ==> item == if old(start) < data.Length then old(View())[0] else undefined
    {
      hide Slot;
      if size == 0 {
        return undefined;
      }
      item := if start < data.Length then data[start] else undefined;
      WindowAt(data[..], start, size);
      if start < data.Length {
        SlotOfIndex(start, data.Length);
        assert item == At(data[..], start, 0);
      }
      LaterWindow(data[..], start, 1, size - 1, Slot(start + 1, data.Length), View());
      SlotMoves(start + 1, size - 2, data.Length);
      start := Slot(start + 1, data.Length);
      size := size - 1;
    }

    method Reverse()
      requires Loose()
      modifies data
      ensures View() == Reversed(old(View()))
    {
      hide Slot;
      ghost var view := View();
      WindowAt(data[..], start, size);
      var i := 0;
      while i < size / 2
        invariant 0 <= i <= size / 2 && Mirrored(data[..], start, view, i)
      {
        var a, b := Slot(start + i, data.Length), Slot(start + (size - i - 1), data.Length);
        MirroredOneMore(data[..], start, view, i, a, b);
        Swap(a, b);
        i := i + 1;
      }
      MirroredToTheMiddle(data[..], start, view, i);
    }

    /** The loop body of `reverse`. */
    method Swap(a: int, b: int)
      requires 0 <= a < data.Length && 0 <= b < data.Length
      modifies data
      ensures data[..] == old(data[..])[a := old(data[..])[b]][b := old(data[..])[a]]
    {
      hide Slot;
      var tmp := data[a];
      data[a] := data[b];
      data[b] := tmp;
    }

    /** Adds a batch at the front; its last item ends up first. */
    method Unshift(args: seq<T>) returns (newSize: nat, reported: seq<T>)
      requires Loose()
      modifies this`start, this`end, this`size, data
      ensures Loose() && newSize == size
      ensures |reported| == if overflow && old(size) + |args| > data.Length then old(size) + |args| - data.Length else 0
      ensures Backwards(reported, old(data[..]), old(end), undefined)
      ensures |args| <= data.Length && old(end) < data.Length ==> forall i | 0 <= i < |reported| ::
        reported[i] == if i <= old(end) then old(View())[old(size) - 1 - i] else undefined
      ensures View() == FirstOf(Reversed(args) + old(View()), data.Length)
      ensures old(start) < data.Length ==>
        (start == data.Length <==> old(start) < |args| && (|args| - old(start)) % data.Length == 0)
      ensures old(end) < data.Length ==>
        (end == data.Length <==>
          var over := old(size) + |args| - data.Length; old(end) < over && (over - old(end)) % data.Length == 0)
    {
      hide Slot, At, Window, FirstOf, Wrapped, EndAfter, Backwards, Aligned;
      reported := ReportUnshift(|args|);
      ghost var all := Reversed(args) + View();
      UnshiftItems(args);
      ghost var s, e, n, written := start, end, size, data[..];
      assert forall y | 0 <= y < |all| && y < |written| :: At(written, s - |args|, y) == all[y];
      newSize := MoveBack(|args|);
      WrappedIsSameSlot(s - |args|, data.Length);
      EndAfterIsSameSlot(e, n + |args| - data.Length, data.Length);
      UnshiftIndexes(s, e, n, |args|, start, end, size, data.Length);
      UnshiftShows(written, s, |args|, start, size, all);
      assert data[..] == written;
    }

    /** The items from the last one back; beyond index 0 there is nothing, for the index is not wrapped around. */
    method ReportUnshift(count: nat) returns (reported: seq<T>)
      requires Loose()
      ensures |reported| == if overflow && size + count > data.Length then size + count - data.Length else 0
      ensures Backwards(reported, data[..], end, undefined)
      ensures count <= data.Length && end < data.Length ==> forall i | 0 <= i < |reported| ::
        reported[i] == if i <= end then View()[size - 1 - i] else undefined
    {
      hide Slot, Aligned, Window;
      reported := [];
      if overflow && size + count > data.Length {
        var i := 0;
        while i < size + count - data.Length
          invariant 0 <= i <= size + count - data.Length && |reported| == i
          invariant Backwards(reported, data[..], end, undefined)
        {
          var index := end - Slot(i, data.Length);
          reported := reported + [if 0 <= index < data.Length then data[index] else undefined];
          i := i + 1;
        }
      }
      if count <= data.Length && end < data.Length {
        BackwardsIsView(reported, data[..], start, end, size, undefined);
      }
    }

    /** The index updates of `unshift`. */
    method MoveBack(k: nat) returns (newSize: nat)
      requires data.Length > 0 && size <= data.Length
      modifies this`start, this`end, this`size
      ensures newSize == size == if old(size) + k > data.Length then data.Length else old(size) + k
      ensures start == Wrapped(old(start) - k, data.Length)
      ensures end == EndAfter(old(end), data.Length - old(size) - k, data.Length)
    {
      hide Slot;
      if data.Length - size - k < 0 {
        end := end + (data.Length - size - k);
        if end < 0 {
          end := data.Length + Truncated(end, data.Length);
        }
      }
      if size < data.Length {
        size := if size + k > data.Length then data.Length else size + k;
      }
      start := start - k;
      if start < 0 {
        start := data.Length + Truncated(start, data.Length);
      }
      newSize := size;
    }

    /** The writing loop of `unshift`: the items go to the places before the first one. */
    method UnshiftItems(args: seq<T>)
      requires Loose()
      modifies data
      ensures forall y | 0 <= y < |args| + size && y < data.Length ::
        At(data[..], start - |args|, y) == (Reversed(args) + old(View()))[y]
    {
      hide Slot;
      ghost var all := Reversed(args) + View();
      WindowAt(data[..], start, size);
      var i := 0;
      assert forall y | |args| <= y < |all| :: all[y] == At(data[..], start, y - |args|);
      while i < |args|
        invariant 0 <= i <= |args|
        invariant forall y | |args| - i <= y < |all| && y < |args| - i + data.Length ::
          At(data[..], start - |args|, y) == all[y]
      {
        UnshiftOne(data[..], start, all, |args|, i);
        data[Slot(data.Length + start - Slot(i, data.Length) - 1, data.Length)] := args[i];
        i := i + 1;
      }
    }

    /** What `shift` sees: an item that starts beyond the array is lost. */
    ghost function FromStart(): (s: seq<T>)
      requires data.Length > 0
      reads this, data
    {
      if start < data.Length || size == 0 then View() else View()[0 := undefined]
    }

    /** What `pop` sees. */
    ghost function FromEnd(): (s: seq<T>)
      requires data.Length > 0
      reads this, data
    {
      if end < data.Length || size == 0 then View() else View()[size - 1 := undefined]
    }

    method RotateLeft(count: int)
      requires Loose()
      modifies this, data
      ensures count <= 0 ==> View() == old(View()) && start == old(start)
      ensures count > 0 ==> Valid() && View() == LeftTurns(old(FromStart()), count, undefined)
      ensures Loose()
    {
      hide Slot, Aligned, Window, LeftTurn;
      ghost var seen := FromStart();
      var cntr := count - 1;
      while cntr >= 0
        invariant cntr < count && (count > 0 ==> cntr >= -1) && Loose()
        invariant count > 0 ==> FromStart() == LeftTurns(seen, count - 1 - cntr, undefined)
        invariant cntr < count - 1 ==> Valid()
        invariant cntr == count - 1 ==> View() == old(View()) && start == old(start)
        invariant count <= 0 ==> cntr == count - 1
      {
        TurnLeft();
        cntr := cntr - 1;
      }
    }

    /** The loop body of `rotateLeft`. */
    method TurnLeft()
      requires Loose()
      modifies this, data
      ensures Valid() && View() == LeftTurn(old(FromStart()), undefined)
    {
      hide Slot, Aligned, Window, FirstOf, Reversed;
      var item := Shift();
      var newSize, reported := Push([item]);
    }

    method RotateRight(count: int)
      requires Loose()
      modifies this, data
      ensures Loose() && (old(Valid()) && data.Length > 1 ==> Valid())
      ensures count <= 0 ==> unchanged(this) && unchanged(data)
      ensures count > 0 ==> View() == RightTurns(old(FromEnd()), count, undefined)
    {
      hide Slot, Aligned, Window, RightTurn;
      var cntr := count - 1;
      while cntr >= 0
        invariant cntr < count && (count > 0 ==> cntr >= -1) && (count <= 0 ==> cntr == count - 1)
        invariant Loose() && (old(Valid()) && data.Length > 1 ==> Valid())
        invariant cntr == count - 1 ==> unchanged(this) && unchanged(data)
        invariant cntr < count - 1 ==> View() == FromEnd() == RightTurns(old(FromEnd()), count - 1 - cntr, undefined)
      {
        TurnRight();
        cntr := cntr - 1;
      }
    }

    /** The loop body of `rotateRight`. */
    method TurnRight()
      requires Loose()
      modifies this, data
      ensures Loose() && View() == FromEnd() == RightTurn(old(FromEnd()), undefined)
      ensures old(Valid()) && data.Length > 1 ==> Valid()
    {
      hide Slot, Aligned, Window, FirstOf, LastOf, Reversed;
      var item := Pop();
      OneItemFirst(item, View(), data.Length);
      if start < 1 < data.Length {
        SlotIsRemainder(1 - start, data.Length);
      }
      var newSize, reported := Unshift([item]);
    }

    /** The loop of `sortedIndex`. */
    method BinarySearch(first: int, last: int, value: T, compare: (T, T) -> int) returns (low: int)
      requires 0 <= first && last <= data.Length
      ensures low == Search(data[..], first, last, compare, value)
    {
      low := first;
      var high := last;
      while low < high
        invariant 0 <= low && high <= data.Length
        invariant Search(data[..], low, high, compare, value) == Search(data[..], first, last, compare, value)
      {
        var mid := (low + high) / 2;
        if compare(value, data[mid]) > 0 {
          low := mid + 1;
        } else {
          high := mid;
        }
      }
    }

    /** `value` is compared with what is in the array, wherever the view starts. */
    method SortedIndex(value: T, compare: (T, T) -> int) returns (index: int)
      requires Loose()
      ensures index == Found(data[..], start, end, size, compare, value)
      ensures Valid() && size == data.Length && Ordered(compare, value, View()) ==>
        && index == (if Rank(compare, value, View()) < size then Rank(compare, value, View()) else size - 1)
        && IsPlaceOrLast(compare, value, View(), index)
      ensures size < data.Length && start == 0 && Ordered(compare, value, View()) ==>
        index == Rank(compare, value, View()) && IsPlace(compare, value, View(), index)
    {
      hide Slot, Truncated, Window, Rank, Ordered, Search, IsPlace, IsPlaceOrLast;
      var isFull := data.Length == size;
      var low := start;
      var high := if isFull then size - 1 else size;
      if low != 0 && compare(value, data[high]) > 0 {
        low, high := 0, end;
      }
      low := BinarySearch(low, high, value, compare);
      index := if !isFull then low else Slot(Truncated(low - start, size) + size, size);
      if Valid() && isFull && Ordered(compare, value, View()) {
        FoundInFull(data[..], start, end, compare, value);
      }
      if !isFull && start == 0 && Ordered(compare, value, View()) {
        FoundFromZero(data[..], end, size, compare, value);
      }
    }

    method Slice(from: int, to: Option<int>) returns (result: array<T>)
      requires Loose()
      ensures fresh(result) && result[..] == ArraySlice(View(), from, to)
    {
      hide Slot;
      var first, last := from, size;
      if first < 0 {
        if to != None && first >= to.value {
          return new T[0];
        }
        first := if -first > size then 0 else size + first;
      }
      if to != None && to.value <= size {
        last := if to.value < 0 then to.value + size else to.value;
      }
      var length := if first < last then last - first else 0;
      result := new T[length](_ => undefined);
      ghost var view := View();
      WindowAt(data[..], start, size);
      var index := 0;
      while index < length
        invariant 0 <= index <= length
        invariant forall k | 0 <= k < index :: result[k] == view[first + k]
      {
        assert At(data[..], start, first + index) == view[first + index];
        result[index] := data[Slot(start + first + index, data.Length)];
        index := index + 1;
      }
      ArraySliceIs(view, from, to, first, last, result[..]);
    }
  }

  /** With one slot, `unshift` leaves the start at the length, and `shift` then returns nothing. */
  method ShiftLosesTheItem<T>(undefined: T, item: T) returns (shifted: T)
    ensures shifted == undefined
  {
    hide Slot, At, Backwards;
    var buffer := new Buffer(1, undefined);
    var size, reported := buffer.Unshift([item]);
    shifted := buffer.Shift();
  }
  /** With one slot, `unshift` on a full buffer leaves the end at the length, and `pop` then returns nothing. */
  method PopLosesTheItem<T>(undefined: T, item: T, other: T) returns (popped: T)
    ensures popped == undefined
  {
    hide Slot, At, Backwards;
    var buffer := new Buffer(1, undefined);
    var size, reported := buffer.Push([other]);
    size, reported := buffer.Unshift([item]);
    popped := buffer.Pop();
  }

  /** A buffer that is not full loses `b`, and the callback is given `a`, which had been taken out before. */
  method PushReportsAnother<T>(undefined: T, a: T, b: T, c: T, d: T, e: T) returns (reported: seq<T>, view: seq<T>)
    ensures reported == [a] && view == [c, d, e]
  {
    hide Backwards, Aligned, Window;
    var buffer := new Buffer(3, undefined);
    buffer.overflow := true;
    var size, none := buffer.Push([a, b, c]);
    assert buffer.start == 0 && buffer.View() == [a, b, c];
    WindowAt(buffer.data[..], 0, 3);
    assert At(buffer.data[..], 0, 0) == a;
    var first := buffer.Shift();
    assert buffer.start == 1 && buffer.View() == [b, c];
    assert At(buffer.data[..], 1, 2) == a;
    size, reported := buffer.Push([d, e]);
    assert [b, c] + [d, e] == [b, c, d, e];
    var items := buffer.Slice(0, None);
    view := items[..];
  }

  /** In the buffer [2] that starts at slot 1, the place of 0 comes out as index 1. */
  method SortedIndexIsWrong() returns (view: seq<int>, index: int)
    ensures view == [2] && index == 1 && Rank((a, b) => a - b, 0, view) == 0
  {
    var buffer := new Buffer(3, 0);
    var size, reported := buffer.Push([1, 2]);
    var first := buffer.Shift();
    WindowAt(buffer.data[..], buffer.start, 1);
    index := buffer.SortedIndex(0, (a, b) => a - b);
    var items := buffer.Slice(0, None);
    view := items[..];
  }
}
