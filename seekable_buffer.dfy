/**
 * `SeekableBuffer` (src/backend/py3/include/_00_seekable_buffer.py), the
 * byte buffer generated programs write into: a window `[startPos, endPos)`
 * of an underlying bytearray with a read pointer `ptr`. Positions follow
 * Python's rules: slices clamp, and a single-byte write at a negative
 * position counts from the end.
 */
module SeekableBuffers {
  import opened Results
  import opened Bytes

  /** `data[j] = 0` for `j` in `range(lo, hi)`, one write at a time; a position outside the data raises IndexError. */
  function FillZero(d: seq<byte>, lo: int, hi: int): (r: Result<seq<byte>>)
    ensures r.Ok? ==> |r.value| == |d|
    ensures r.Err? ==> r.error == IndexError
    decreases hi - lo
  {
    if lo >= hi then Ok(d)
    else
      var d' :- PySet(d, lo, 0);
      FillZero(d', lo + 1, hi)
  }

  /** Inside the data, the fill zeroes exactly the positions `[lo, hi)`. */
  lemma {:induction false} FillZeroInside(d: seq<byte>, lo: int, hi: int)
    requires 0 <= lo <= hi <= |d|
    ensures FillZero(d, lo, hi).Ok?
    ensures forall j :: 0 <= j < |d| ==> FillZero(d, lo, hi).value[j] == if lo <= j < hi then 0 else d[j]
    decreases hi - lo
  {
    if lo < hi {
      FillZeroInside(d[lo := 0], lo + 1, hi);
    }
  }

  /** A fill that reaches past the end of the data raises IndexError. */
  lemma {:induction false} FillZeroPastEnd(d: seq<byte>, lo: int, hi: int)
    requires 0 <= lo < hi && |d| < hi
    ensures FillZero(d, lo, hi) == Err(IndexError)
    decreases hi - lo
  {
    if lo < |d| {
      FillZeroPastEnd(d[lo := 0], lo + 1, hi);
    }
  }

  /** How many bytes the copy of `_move_data` writes: it stops at the end of the source and before `end`. */
  function CopyCount(srcLen: nat, dst: int, end: int): (k: nat)
    ensures k <= srcLen && (k > 0 ==> dst + k <= end)
  {
    if end - dst <= 0 then 0 else if srcLen < end - dst then srcLen else end - dst
  }

  /** `d` with `src[..k]` written from position `dst` on. */
  function Copied(d: seq<byte>, src: seq<byte>, dst: nat, k: nat): (r: seq<byte>)
    requires k <= |src| && (k > 0 ==> dst + k <= |d|)
    ensures |r| == |d|
    ensures forall j :: 0 <= j < |d| ==> r[j] == if dst <= j < dst + k then src[j - dst] else d[j]
  {
    seq(|d|, j requires 0 <= j < |d| => if dst <= j < dst + k then src[j - dst] else d[j])
  }

  /**
   * The new data of `_move_data(offset, writeNull)` on a valid window: the
   * bytes from `ptr` on are copied `offset` places over, as far as they fit
   * before `end`, then the vacated places are zeroed: `[ptr, ptr + offset)`
   * for a positive offset, `[end + offset, end)` for a negative one.
   */
  function Moved(d: seq<byte>, ptr: int, start: nat, end: nat, offset: int, writeNull: bool): (r: Result<seq<byte>>)
    requires start <= end <= |d|
    ensures r.Err? <==> (offset != 0 && ptr + offset < start) || (r.Err? && r.error == IndexError)
    ensures r.Ok? ==> |r.value| == |d|
  {
    if offset == 0 then Ok(d)
    else if ptr + offset < start then Err(ValueError("Cannot move data beyond the start of the buffer"))
    else
      var src := Slice(d, Some(ptr), None);
      var copied := Copied(d, src, ptr + offset, CopyCount(|src|, ptr + offset, end));
      if !writeNull then Ok(copied)
      else if offset > 0 then FillZero(copied, ptr, ptr + offset)
      else FillZero(copied, end + offset, end)
  }

  /** The copy of `_move_data` never writes at or beyond `end`. */
  lemma CopyStaysInWindow(d: seq<byte>, ptr: int, start: nat, end: nat, offset: int)
    requires start <= end <= |d| && offset != 0 && ptr + offset >= start
    ensures var src := Slice(d, Some(ptr), None);
            Copied(d, src, ptr + offset, CopyCount(|src|, ptr + offset, end))[end..] == d[end..]
  {
  }

  /**
   * Moving right on a buffer whose pointer is inside the window, with room
   * for the zeroes: the bytes from `ptr` land `offset` places later, cut at
   * `end`, and `[ptr, ptr + offset)` becomes zero.
   */
  lemma MoveRight(d: seq<byte>, ptr: int, start: nat, end: nat, offset: int)
    requires start <= ptr <= end <= |d| && 0 < offset && ptr + offset <= end
    ensures Moved(d, ptr, start, end, offset, true).Ok?
    ensures var r := Moved(d, ptr, start, end, offset, true).value;
            && (forall j :: ptr <= j < ptr + offset ==> r[j] == 0)
            && (forall j :: ptr + offset <= j < end ==> r[j] == d[j - offset])
            && r[..ptr] == d[..ptr] && r[end..] == d[end..]
  {
    var src := Slice(d, Some(ptr), None);
    assert src == d[ptr..];
    var copied := Copied(d, src, ptr + offset, CopyCount(|src|, ptr + offset, end));
    FillZeroInside(copied, ptr, ptr + offset);
  }

  /**
   * The bounds `SeekableBuffer.__init__` settles on: a given start at or
   * past the end of the data raises ValueError (even 0 on empty data), so
   * does an end before the start; then a missing or negative start becomes
   * 0 and a missing end or one past the data becomes the data's length.
   */
  function Window(d: Option<seq<byte>>, start: Option<int>, end: Option<int>): (r: Result<(seq<byte>, int, int)>)
    ensures var data := if d.None? then [] else d.value;
            var s := if start.None? || start.value < 0 then 0 else start.value;
            && (r.Err? <==> (start.Some? && start.value >= |data|) || (end.Some? && end.value < s))
            && (r.Ok? ==> && r.value.0 == data && r.value.1 == s
                          && r.value.2 == (if end.None? || end.value > |data| then |data| else end.value)
                          && 0 <= r.value.1 <= r.value.2 <= |data|)
    ensures r.Err? ==> r.error.ValueError?
  {
    var data := if d.None? then [] else d.value;
    if start.Some? && start.value >= |data| then
      Err(ValueError("Start position cannot be greater than or equal to the length of the underlying data"))
    else
      var s := if start.None? || start.value < 0 then 0 else start.value;
      if end.Some? && end.value < s then
        Err(ValueError("End position cannot be less than the start position"))
      else
        Ok((data, s, if end.None? || end.value > |data| then |data| else end.value))
  }

  class SeekableBuffer {
    var data: seq<byte>
    var startPos: int
    var endPos: int
    var ptr: int

    /** The window lies inside the data. */
    predicate Valid()
      reads this
    {
      0 <= startPos <= endPos <= |data|
    }

    /** The pointer lies inside the window. */
    predicate PtrInRange()
      reads this
    {
      startPos <= ptr <= endPos
    }

    constructor Init(d: seq<byte>, s: nat, e: nat)
      requires s <= e <= |d|
      ensures data == d && startPos == s && endPos == e && ptr == s
      ensures Valid() && PtrInRange()
    {
      data := d;
      startPos := s;
      endPos := e;
      ptr := s;
    }

    /**
     * `SeekableBuffer(data, start_pos, end_pos)`: the buffer over `Window`'s
     * data and bounds, its pointer at the start; the constructor's
     * ValueErrors are `Window`'s.
     */
    static method Create(d: Option<seq<byte>>, start: Option<int>, end: Option<int>) returns (r: Result<SeekableBuffer>)
      ensures r.Err? <==> Window(d, start, end).Err?
      ensures r.Ok? ==> var (data, s, e) := Window(d, start, end).value;
                        && fresh(r.value) && r.value.data == data && r.value.startPos == s
                        && r.value.endPos == e && r.value.ptr == s
                        && r.value.Valid() && r.value.PtrInRange()
    {
      var w := Window(d, start, end);
      if w.Err? {
        return Err(w.error);
      }
      var (data, s, e) := w.value;
      var b := new SeekableBuffer.Init(data, s, e);
      r := Ok(b);
    }

    /** `__len__`: the size of the window. */
    function Len(): (r: int)
      reads this
      ensures Valid() ==> 0 <= r <= |data|
      ensures r == 0 <==> startPos == endPos
    {
      endPos - startPos
    }

    /** `get_full_data`: a copy of the window, as long as the buffer. */
    function GetFullData(): (r: seq<byte>)
      reads this
      ensures Valid() ==> r == data[startPos..endPos] && |r| == Len()
    {
      Slice(data, Some(startPos), Some(endPos))
    }

    /** `is_eos`: the pointer is at the end of the window. */
    predicate IsEos()
      reads this
    {
      ptr == endPos
    }

    /** `is_subbuffer`: the window is not the whole data. */
    function IsSubbuffer(): (r: bool)
      reads this
      ensures Valid() ==> (!r <==> startPos == 0 && endPos == |data|)
    {
      Len() != |data|
    }

    /**
     * `get_data(n_bytes)`: the bytes from the pointer up to `ptr + n` (to
     * the end when `n` is None), cut at the end of the window; the pointer
     * moves to that bound. Reading a non-negative count keeps the pointer
     * in the window, and reading everything reaches the end.
     */
    method GetData(n: Option<int>) returns (r: seq<byte>)
      modifies this
      ensures var e := if n.None? || old(ptr) + n.value > endPos then endPos else old(ptr) + n.value;
              r == Slice(data, Some(old(ptr)), Some(e)) && ptr == e
      ensures data == old(data) && startPos == old(startPos) && endPos == old(endPos)
      ensures Valid() && old(PtrInRange()) && (n.None? || n.value >= 0) ==>
                PtrInRange() && r == data[old(ptr)..ptr]
      ensures n.None? ==> IsEos()
    {
      var e := if n.Some? then ptr + n.value else endPos;
      if e > endPos {
        e := endPos;
      }
      r := Slice(data, Some(ptr), Some(e));
      ptr := e;
    }

    /**
     * `seek(offset)`: a negative offset raises ValueError; otherwise the
     * pointer moves `offset` places past the start, stopping at the end.
     */
    method Seek(offset: int) returns (r: Result<()>)
      modifies this
      ensures r.Err? <==> offset < 0
      ensures r.Err? ==> ptr == old(ptr)
      ensures r.Ok? ==> ptr == if startPos + offset > endPos then endPos else startPos + offset
      ensures r.Ok? && startPos <= endPos ==> PtrInRange()
      ensures r.Ok? ==> (IsEos() <==> offset >= Len())
      ensures data == old(data) && startPos == old(startPos) && endPos == old(endPos)
    {
      if offset < 0 {
        return Err(ValueError("Offset cannot be negative"));
      }
      var p := offset + startPos;
      if p > endPos {
        p := endPos;
      }
      ptr := p;
      return Ok(());
    }

    /**
     * `append(buffer)`: the bytes go to the end of the data and the window
     * end moves by their number; the start and the pointer stay.
     */
    method Append(buffer: seq<byte>)
      modifies this
      ensures data == old(data) + buffer && endPos == old(endPos) + |buffer|
      ensures startPos == old(startPos) && ptr == old(ptr)
      ensures old(Valid()) ==> Valid() && Len() == old(Len()) + |buffer|
    {
      data := data + buffer;
      endPos := endPos + |buffer|;
    }

    /** `write(buffer)`: a stub; it has no effect. */
    method Write(buffer: seq<byte>) {
    }

    /**
     * `_grow_buf(n)`: a sub-buffer raises BufferError; otherwise `n` zero
     * bytes are added to the data (none for `n <= 0`) and the window end
     * moves by `n`.
     */
    method GrowBuf(n: int) returns (r: Result<()>)
      modifies this
      ensures r.Err? <==> old(IsSubbuffer())
      ensures r.Err? ==> r.error.BufferError? && data == old(data) && endPos == old(endPos)
      ensures r.Ok? ==> data == old(data) + seq(if n < 0 then 0 else n, _ => 0) && endPos == old(endPos) + n
      ensures startPos == old(startPos) && ptr == old(ptr)
      ensures r.Ok? && old(Valid()) && n >= 0 ==> Valid() && !IsSubbuffer()
    {
      if IsSubbuffer() {
        return Err(BufferError("Sub-buffer cannot be grown"));
      }
      data := data + seq(if n < 0 then 0 else n, _ => 0);
      endPos := endPos + n;
      return Ok(());
    }

    /**
     * `_move_data(offset, write_null_bytes)`: the data becomes `Moved(...)`;
     * an offset of 0 changes nothing, and one that would move data before
     * the start raises ValueError. The pointer and the window never change.
     */
    method MoveData(offset: int, writeNull: bool) returns (r: Result<()>)
      requires Valid()
      modifies this
      ensures var m := Moved(old(data), old(ptr), old(startPos), old(endPos), offset, writeNull);
              (r.Ok? <==> m.Ok?) && (r.Ok? ==> data == m.value) && (r.Err? ==> r.error == m.error)
      ensures ptr == old(ptr) && startPos == old(startPos) && endPos == old(endPos)
    {
      if offset == 0 {
        return Ok(());
      }
      if ptr + offset < startPos {
        return Err(ValueError("Cannot move data beyond the start of the buffer"));
      }
      var src := Slice(data, Some(ptr), None);
      var dst := ptr + offset;
      var k := CopyCount(|src|, dst, endPos);
      CopyLoop(src, dst, k);
      if writeNull {
        var lo, hi := if offset > 0 then ptr else endPos + offset, if offset > 0 then ptr + offset else endPos;
        r := FillLoop(lo, hi);
      } else {
        r := Ok(());
      }
    }

    /** The copy loop of `_move_data`: `src[i]` goes to `dst + i` until the window end. */
    method CopyLoop(src: seq<byte>, dst: nat, k: nat)
      requires k <= |src| && (k > 0 ==> dst + k <= |data|)
      modifies this
      ensures data == Copied(old(data), src, dst, k)
      ensures ptr == old(ptr) && startPos == old(startPos) && endPos == old(endPos)
    {
      ghost var d0 := data;
      for i := 0 to k
        invariant |data| == |d0|
        invariant forall j :: 0 <= j < |d0| ==> data[j] == if dst <= j < dst + i then src[j - dst] else d0[j]
        invariant ptr == old(ptr) && startPos == old(startPos) && endPos == old(endPos)
      {
        data := data[dst + i := src[i]];
      }
    }

    /** The zero-fill loop of `_move_data`: one Python item assignment per position. */
    method FillLoop(lo: int, hi: int) returns (r: Result<()>)
      modifies this
      ensures var f := FillZero(old(data), lo, hi);
              (r.Ok? <==> f.Ok?) && (r.Ok? ==> data == f.value) && (r.Err? ==> r.error == IndexError)
      ensures ptr == old(ptr) && startPos == old(startPos) && endPos == old(endPos)
    {
      var i := lo;
      while i < hi
        invariant FillZero(data, i, hi) == FillZero(old(data), lo, hi)
        invariant ptr == old(ptr) && startPos == old(startPos) && endPos == old(endPos)
        decreases hi - i
      {
        var w := PySet(data, i, 0);
        if w.Err? {
          return Err(IndexError);
        }
        data := w.value;
        i := i + 1;
      }
      return Ok(());
    }
  }
}
