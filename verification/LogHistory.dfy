/** Bounded histories: the ring buffer behind the log monitor and the naive capped
    append of benchmark output, both against "the last n of everything written".
    The ring overwrites its oldest bytes in place; the append cuts off the front. */
module LogHistory {

  newtype byte = x: int | 0 <= x < 256

  const LOG_BUFFER_SIZE := 100 * 1024

  function Suffix<T>(s: seq<T>, n: nat): seq<T> {
    if |s| <= n then s else s[|s| - n..]
  }

  /** Forgetting early forgets nothing that is kept. */
  lemma SuffixAbsorbs<T>(a: seq<T>, b: seq<T>, n: nat)
    ensures Suffix(Suffix(a, n) + b, n) == Suffix(a + b, n)
  {
    if |a| > n {
      var k := |a| - n;
      assert a == a[..k] + a[k..];
      assert a + b == a[..k] + (a[k..] + b);
      if |b| > n {
        assert Suffix(a[k..] + b, n) == b[|b| - n..] == Suffix(a + b, n);
      }
    }
  }

  lemma SuffixOfLong<T>(a: seq<T>, b: seq<T>, n: nat)
    requires |b| >= n
    ensures Suffix(a + b, n) == b[|b| - n..]
  {
  }

  // ------------------------------------------------------------ the ring buffer

  /** The last `size` elements of a ring, read backward from `head`. */
  function RingContents(data: seq<byte>, head: nat, size: nat): (r: seq<byte>)
    requires head <= |data| && size <= |data|
    ensures |r| == size
  {
    if size <= head then data[head - size..head]
    else data[|data| - (size - head)..] + data[..head]
  }

  /** Where the `i`-th oldest byte lies. */
  function Slot(cap: nat, head: nat, size: nat, i: nat): (slot: nat)
    requires head <= cap && size <= cap && i < size
    ensures slot < cap
  {
    if size <= head + i then head + i - size else cap + head + i - size
  }

  /** x % n for x in [0, 2n). */
  lemma ModOnce(x: nat, n: nat)
    requires x < 2 * n
    ensures x % n == if x < n then x else x - n
  {
    if x >= n {
      assert x == n + (x - n);
    }
  }

  class CircularBuffer {
    var data: array<byte>
    var head: nat
    var size: nat

    ghost predicate Valid()
      reads this
    {
      && size <= data.Length
      && (if data.Length == 0 then head == 0 else head < data.Length)
    }

    ghost function Contents(): seq<byte>
      requires Valid()
      reads this, data
    {
      RingContents(data[..], head, size)
    }

    constructor (capacity: nat)
      ensures Valid() && Contents() == [] && data.Length == capacity && fresh(data)
    {
      data := new byte[capacity];
      head, size := 0, 0;
    }

    /** copy(data[at:], p). */
    method CopyIn(at: nat, p: seq<byte>)
      requires at + |p| <= data.Length
      modifies data
      ensures forall i :: 0 <= i < data.Length ==> data[i] == if at <= i < at + |p| then p[i - at] else old(data[i])
    {
      forall i | 0 <= i < |p| {
        data[at + i] := p[i];
      }
    }

    /** Write keeps exactly the last `capacity` bytes of what was kept plus `p`, in the
        same array, whatever the position of the head and the length of `p`. */
    method Write(p: seq<byte>)
      requires Valid()
      modifies this`head, this`size, data
      ensures Valid()
      ensures Contents() == Suffix(old(Contents()) + p, data.Length)
    {
      if |p| == 0 {
        assert old(Contents()) + p == old(Contents());
        return;
      }
      var cap := data.Length;
      ghost var before := Contents();
      ghost var d0, h0, s0 := data[..], head, size;
      if |p| >= cap {
        CopyIn(0, p[|p| - cap..]);
        head, size := 0, cap;
        assert data[..] == p[|p| - cap..];
        SuffixOfLong(before, p, cap);
        return;
      }
      ModOnce(head + |p|, cap);
      WriteShort(p);
      WriteKeepsSuffix(d0, h0, s0, p, data[..], head, size);
    }

    /** The two copying branches of Write, for less than a bufferful. */
    method WriteShort(p: seq<byte>)
      requires Valid() && 0 < |p| < data.Length
      modifies this`head, this`size, data
      ensures Overwritten(old(data[..]), old(head), p, data[..])
      ensures head == if old(head) + |p| < data.Length then old(head) + |p| else old(head) + |p| - data.Length
      ensures size == if old(size) + |p| > data.Length then data.Length else old(size) + |p|
    {
      var cap := data.Length;
      ModOnce(head + |p|, cap);
      var firstPart := cap - head;
      if firstPart >= |p| {
        CopyIn(head, p);
        head := (head + |p|) % cap;
      } else {
        CopyIn(head, p[..firstPart]);
        CopyIn(0, p[firstPart..]);
        head := |p| - firstPart;
      }
      size := size + |p|;
      if size > cap {
        size := cap;
      }
    }

    /** GetHistory reads the contents out in order, into a new array. */
    method GetHistory() returns (result: seq<byte>)
      requires Valid()
      ensures result == Contents()
    {
      if size == 0 {
        return [];
      }
      var cap := data.Length;
      ModOnce(head - size + cap, cap);
      var start := (head - size + cap) % cap;
      if start + size <= cap {
        result := data[start..start + size];
      } else {
        var firstPart := cap - start;
        result := data[start..] + data[..size - firstPart];
      }
    }
  }

  /** What a short write leaves in the array: `p` from the head on, wrapping at the end. */
  ghost predicate Overwritten(d: seq<byte>, head: nat, p: seq<byte>, d': seq<byte>) {
    && |d'| == |d| && head <= |d|
    && forall i :: 0 <= i < |d| ==>
         d'[i] == if head <= i < head + |p| then p[i - head]
                  else if i + |d| < head + |p| then p[i + |d| - head] else d[i]
  }

  lemma WriteAt(d: seq<byte>, head: nat, size: nat, p: seq<byte>, d': seq<byte>, head': nat, size': nat, i: nat)
    requires Overwritten(d, head, p, d') && head < |d| && size <= |d| && |p| < |d|
    requires size' == (if size + |p| > |d| then |d| else size + |p|) && i < size'
    requires head' == if head + |p| < |d| then head + |p| else head + |p| - |d|
    ensures var j := size + |p| - size' + i;
            d'[Slot(|d|, head', size', i)] == if j < size then d[Slot(|d|, head, size, j)] else p[j - size]
  {
  }

  lemma WriteKeepsSuffix(d: seq<byte>, head: nat, size: nat, p: seq<byte>, d': seq<byte>, head': nat, size': nat)
    requires Overwritten(d, head, p, d') && head < |d| && size <= |d| && |p| < |d|
    requires size' == if size + |p| > |d| then |d| else size + |p|
    requires head' == if head + |p| < |d| then head + |p| else head + |p| - |d|
    ensures RingContents(d', head', size') == Suffix(RingContents(d, head, size) + p, |d|)
  {
    var kept := RingContents(d, head, size);
    var r, q := RingContents(d', head', size'), Suffix(kept + p, |d|);
    assert |r| == |q|;
    forall i | 0 <= i < size' ensures r[i] == q[i] {
      WriteAt(d, head, size, p, d', head', size', i);
      assert q[i] == (kept + p)[size + |p| - size' + i];
    }
  }

  // ------------------------------------------------------------ the log monitor

  class LogMonitor {
    var buffer: CircularBuffer?
    // everything accepted since creation or the last Clear
    ghost var written: seq<byte>

    ghost predicate Valid()
      reads this, buffer, if buffer == null then {} else {buffer.data}
    {
      if buffer == null then written == []
      else buffer.Valid() && buffer.data.Length == LOG_BUFFER_SIZE && buffer.Contents() == Suffix(written, LOG_BUFFER_SIZE)
    }

    constructor ()
      ensures Valid() && written == []
    {
      buffer, written := null, [];
    }

    /** Write passes `p` on to stdout first; if that fails nothing is kept. */
    method Write(p: seq<byte>, stdoutOk: bool) returns (ok: bool)
      requires Valid()
      modifies this, buffer, if buffer == null then {} else {buffer.data}
      ensures Valid()
      ensures ok == (p == [] || stdoutOk)
      ensures written == if ok then old(written) + p else old(written)
    {
      if |p| == 0 {
        assert written + p == written;
        return true;
      }
      if !stdoutOk {
        return false;
      }
      if buffer == null {
        buffer := new CircularBuffer(LOG_BUFFER_SIZE);
      }
      SuffixAbsorbs(written, p, LOG_BUFFER_SIZE);
      buffer.Write(p);
      written := written + p;
      ok := true;
    }

    /** After any history of writes and clears: the last 100 KiB since the last Clear. */
    method GetHistory() returns (result: seq<byte>)
      requires Valid()
      ensures result == Suffix(written, 102_400)
    {
      if buffer == null {
        return [];
      }
      result := buffer.GetHistory();
    }

    method Clear()
      requires Valid()
      modifies this
      ensures Valid() && written == []
    {
      buffer, written := null, [];
    }
  }

  // ------------------------------------------------------------ the capped append

  function AppendCapped<T>(prev: seq<T>, chunk: seq<T>, maxBytes: int): seq<T> {
    if chunk == [] then prev
    else if maxBytes <= 0 then prev + chunk
    else if |chunk| >= maxBytes then chunk[|chunk| - maxBytes..]
    else
      var combined := prev + chunk;
      if |combined| > maxBytes then combined[|combined| - maxBytes..] else combined
  }

  function Concat<T>(chunks: seq<seq<T>>): seq<T> {
    if chunks == [] then [] else Concat(chunks[..|chunks| - 1]) + chunks[|chunks| - 1]
  }

  function AppendAll<T>(chunks: seq<seq<T>>, maxBytes: int): seq<T> {
    if chunks == [] then [] else AppendCapped(AppendAll(chunks[..|chunks| - 1], maxBytes), chunks[|chunks| - 1], maxBytes)
  }

  /** Appending chunk by chunk keeps the last maxBytes of everything, like the ring
      buffer; a bound of zero or less means no bound at all. */
  lemma {:induction false} AppendAllIsSuffix<T>(chunks: seq<seq<T>>, maxBytes: int)
    ensures AppendAll(chunks, maxBytes) == if maxBytes <= 0 then Concat(chunks) else Suffix(Concat(chunks), maxBytes)
  {
    if chunks == [] {
    } else {
      var init, chunk := chunks[..|chunks| - 1], chunks[|chunks| - 1];
      AppendAllIsSuffix(init, maxBytes);
      if chunk == [] {
        assert Concat(init) + chunk == Concat(init);
      } else if maxBytes > 0 {
        SuffixAbsorbs(Concat(init), chunk, maxBytes);
        if |chunk| >= maxBytes {
          SuffixOfLong(Suffix(Concat(init), maxBytes), chunk, maxBytes);
        }
      }
    }
  }

  /** The two bounded histories agree on every sequence of writes of any lengths. */
  method RingAgreesWithAppend(chunks: seq<seq<byte>>, capacity: nat) returns (history: seq<byte>)
    requires capacity > 0
    ensures history == Suffix(Concat(chunks), capacity) == AppendAll(chunks, capacity)
  {
    var ring := new CircularBuffer(capacity);
    var i := 0;
    while i < |chunks|
      invariant 0 <= i <= |chunks| && ring.Valid() && ring.data.Length == capacity && fresh(ring.data)
      invariant ring.Contents() == Suffix(Concat(chunks[..i]), capacity)
    {
      assert chunks[..i + 1][..i] == chunks[..i];
      SuffixAbsorbs(Concat(chunks[..i]), chunks[i], capacity);
      ring.Write(chunks[i]);
      i := i + 1;
    }
    assert chunks[..i] == chunks;
    history := ring.GetHistory();
    AppendAllIsSuffix(chunks, capacity);
  }
}
