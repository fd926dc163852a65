/**
 * The byte source: the file as a Node.js `Blob` and its `slice(start, end)`.
 * The part loop passes the plan's offsets to `slice` unchecked, so the
 * model keeps `slice`'s own treatment of offsets: a negative offset counts
 * back from the end, every offset is clamped to `[0, size]`, and a range
 * whose end precedes its start is empty.
 */
module Blob {

  newtype byte = b: int | 0 <= b < 256

  /** Where `slice` places one offset in a blob of `size` bytes. */
  function RelativeOffset(offset: int, size: nat): (r: nat)
    ensures r <= size
    ensures 0 <= offset <= size ==> r == offset
    ensures 0 <= size + offset && offset < 0 ==> r == size + offset
    ensures offset >= size ==> r == size
    ensures size + offset <= 0 ==> r == 0
  {
    if offset < 0 then (if size + offset > 0 then size + offset else 0)
    else if offset < size then offset
    else size
  }

  /** `blob.slice(start, end)`. */
  function Slice(data: seq<byte>, start: int, end: int): (r: seq<byte>)
    ensures |r| <= |data|
    ensures r <= data[RelativeOffset(start, |data|)..]
    ensures |r| == if RelativeOffset(end, |data|) > RelativeOffset(start, |data|)
                   then RelativeOffset(end, |data|) - RelativeOffset(start, |data|) else 0
  {
    var from := RelativeOffset(start, |data|);
    var to := RelativeOffset(end, |data|);
    var span := if to > from then to - from else 0;
    data[from..from + span]
  }

  /** Within bounds the slice is exactly the bytes at offsets `start` to `end - 1`. */
  lemma SliceInRange(data: seq<byte>, start: int, end: int)
    requires 0 <= start <= end <= |data|
    ensures Slice(data, start, end) == data[start..end]
    ensures |Slice(data, start, end)| == end - start
    ensures forall k :: 0 <= k < end - start ==> Slice(data, start, end)[k] == data[start + k]
  {
  }

  /** A range whose clamped end does not pass its clamped start is empty: nothing is wrapped. */
  lemma SliceInverted(data: seq<byte>, start: int, end: int)
    requires RelativeOffset(end, |data|) <= RelativeOffset(start, |data|)
    ensures Slice(data, start, end) == []
  {
  }

  /** Offsets past the end are clamped, so the slice stops at the last byte. */
  lemma SliceClampsEnd(data: seq<byte>, start: int, end: int)
    requires 0 <= start <= |data| <= end
    ensures Slice(data, start, end) == data[start..]
  {
  }

  /** Adjacent in-range slices concatenate to the slice of the combined range. */
  lemma SliceAdjacent(data: seq<byte>, a: int, b: int, c: int)
    requires 0 <= a <= b <= c <= |data|
    ensures Slice(data, a, b) + Slice(data, b, c) == Slice(data, a, c)
  {
    assert data[a..b] + data[b..c] == data[a..c];
  }
}
