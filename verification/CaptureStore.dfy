/** The request/response captures of the metrics monitor: a map with first-in-first-out
    eviction by total size. */
module CaptureStore {

  datatype Capture = Capture(
    id: int, reqPath: string, reqHeaders: seq<(string, string)>, reqBody: string,
    respHeaders: seq<(string, string)>, respBody: string)

  function HeaderBytes(headers: seq<(string, string)>): nat {
    if headers == [] then 0 else |headers[0].0| + |headers[0].1| + HeaderBytes(headers[1..])
  }

  /** ReqRespCapture.Size. */
  function Size(c: Capture): nat {
    |c.reqPath| + |c.reqBody| + |c.respBody| + HeaderBytes(c.reqHeaders) + HeaderBytes(c.respHeaders)
  }

  function HeaderText(headers: seq<(string, string)>): string {
    if headers == [] then "" else headers[0].0 + headers[0].1 + HeaderText(headers[1..])
  }

  /** All the text that a capture holds. */
  function Bytes(c: Capture): string {
    c.reqPath + c.reqBody + c.respBody + HeaderText(c.reqHeaders) + HeaderText(c.respHeaders)
  }

  lemma {:induction false} HeaderBytesIs(headers: seq<(string, string)>)
    ensures HeaderBytes(headers) == |HeaderText(headers)|
  {
    if headers == [] {
    } else {
      HeaderBytesIs(headers[1..]);
    }
  }

  /** The size of a capture is the length of all its text. */
  lemma SizeIsBytes(c: Capture)
    ensures Size(c) == |Bytes(c)|
  {
    HeaderBytesIs(c.reqHeaders);
    HeaderBytesIs(c.respHeaders);
  }

  /** Every field counts, by its own length: a size is 0 for the empty capture, grows by what a
      field grows, and by a header's name and value when one is added. */
  lemma EveryFieldCounts(c: Capture, text: string, name: string)
    ensures Size(Capture(c.id, "", [], "", [], "")) == 0
    ensures Size(c.(reqPath := text)) - |text| == Size(c) - |c.reqPath|
    ensures Size(c.(reqBody := text)) - |text| == Size(c) - |c.reqBody|
    ensures Size(c.(respBody := text)) - |text| == Size(c) - |c.respBody|
    ensures Size(c.(reqHeaders := [(name, text)] + c.reqHeaders)) == Size(c) + |name| + |text|
    ensures Size(c.(respHeaders := [(name, text)] + c.respHeaders)) == Size(c) + |name| + |text|
  {
    assert ([(name, text)] + c.reqHeaders)[1..] == c.reqHeaders;
    assert ([(name, text)] + c.respHeaders)[1..] == c.respHeaders;
  }

  function AllBytes(cs: seq<Capture>): string {
    if cs == [] then "" else Bytes(cs[0]) + AllBytes(cs[1..])
  }

  lemma {:induction false} TotalIsBytes(cs: seq<Capture>)
    ensures Total(cs) == |AllBytes(cs)|
  {
    if cs == [] {
    } else {
      SizeIsBytes(cs[0]);
      TotalIsBytes(cs[1..]);
    }
  }

  function Total(cs: seq<Capture>): nat {
    if cs == [] then 0 else Size(cs[0]) + Total(cs[1..])
  }

  lemma {:induction false} TotalConcat(a: seq<Capture>, b: seq<Capture>)
    ensures Total(a + b) == Total(a) + Total(b)
  {
    if a == [] {
      assert a + b == b;
    } else {
      TotalConcat(a[1..], b);
      assert (a + b)[1..] == a[1..] + b;
    }
  }

  ghost predicate DistinctIds(cs: seq<Capture>) {
    forall i, j :: 0 <= i < j < |cs| ==> cs[i].id != cs[j].id
  }

  ghost function Ids(cs: seq<Capture>): seq<int> {
    seq(|cs|, i requires 0 <= i < |cs| => cs[i].id)
  }

  lemma OneMoreId(held: seq<Capture>, c: Capture)
    requires DistinctIds(held) && forall k <- held :: k.id != c.id
    ensures DistinctIds(held + [c]) && Ids(held + [c]) == Ids(held) + [c.id] && c.id !in Ids(held)
  {
    assert forall i :: 0 <= i < |held| ==> held[i] in held;
  }

  /** The captures that addCapture does not refuse outright. */
  function Storable(cs: seq<Capture>, max: int): seq<Capture> {
    if cs == [] then []
    else
      var c := cs[|cs| - 1];
      Storable(cs[..|cs| - 1], max) + (if Size(c) > max then [] else [c])
  }

  /** From `start` on `all` fits into `max` bytes, and from no earlier element. */
  ghost predicate FitsFrom(all: seq<Capture>, start: nat, max: int)
    requires start <= |all|
  {
    && Total(all[start..]) <= max
    && (start > 0 ==> Total(all[start - 1..]) > max)
  }

  /** `kept` is the longest suffix of `all` that fits into `max` bytes. */
  ghost predicate LongestFittingSuffix(kept: seq<Capture>, all: seq<Capture>, max: int) {
    |kept| <= |all| && kept == all[|all| - |kept|..] && FitsFrom(all, |all| - |kept|, max)
  }

  /** The last `max` of the IDs 0, 1, ..., n - 1. */
  function Newest(n: nat, max: nat): seq<int> {
    var k := if n <= max then n else max;
    seq(k, i => n - k + i)
  }

  lemma NewestStep(n: nat, max: nat)
    ensures var grown := Newest(n, max) + [n];
            Newest(n + 1, max) == if |grown| > max then grown[|grown| - max..] else grown
  {
  }

  class MetricsMonitor {
    const maxMetrics: nat
    var metrics: seq<int>   // the IDs of the metrics kept in memory
    var nextID: nat
    const enableCaptures: bool
    const maxCaptureSize: int
    var captures: map<int, Capture>
    var captureOrder: seq<int>
    var captureSize: int

    // the captures held, oldest first, and every capture offered so far
    ghost var kept: seq<Capture>
    ghost var offered: seq<Capture>
    // IDs handed out by addMetrics for which no capture was offered yet
    ghost var issued: set<int>

    ghost predicate Represents(held: seq<Capture>)
      reads this
    {
      && DistinctIds(held)
      && captureOrder == Ids(held)
      && (forall id :: id in captures <==> id in captureOrder)
      && (forall i :: 0 <= i < |held| ==> held[i].id in captures && captures[held[i].id] == held[i])
      && captureSize == Total(held)
    }

    ghost predicate IdsValid()
      reads this
    {
      && (forall id <- issued :: 0 <= id < nextID)
      && (forall c <- offered :: 0 <= c.id < nextID && c.id !in issued)
      && metrics == Newest(nextID, maxMetrics)
    }

    ghost predicate CapturesValid()
      reads this
    {
      && Represents(kept)
      && maxCaptureSize >= 0
      && (if enableCaptures then LongestFittingSuffix(kept, Storable(offered, maxCaptureSize), maxCaptureSize) else kept == [])
    }

    ghost predicate Valid()
      reads this
    {
      IdsValid() && CapturesValid()
    }

    constructor (maxMetrics: nat, captureBufferMB: nat)
      ensures Valid() && offered == [] && issued == {} && maxCaptureSize == captureBufferMB * 1024 * 1024
      ensures enableCaptures == (captureBufferMB > 0)
    {
      enableCaptures, maxCaptureSize := captureBufferMB > 0, captureBufferMB * 1024 * 1024;
      captures, captureOrder, captureSize := map[], [], 0;
      kept, offered, issued := [], [], {};
      this.maxMetrics, metrics, nextID := maxMetrics, [], 0;
    }

    /** addMetrics: a fresh ID; the newest maxMetrics metrics stay in memory. */
    method AddMetrics() returns (id: int)
      requires Valid()
      modifies this`metrics, this`nextID, this`issued
      ensures Valid() && issued == old(issued) + {id}
      ensures id !in old(issued) && forall c <- offered :: c.id != id
    {
      id := nextID;
      NewestStep(nextID, maxMetrics);
      nextID := nextID + 1;
      metrics := metrics + [id];
      if |metrics| > maxMetrics {
        metrics := metrics[|metrics| - maxMetrics..];
      }
      issued := issued + {id};
    }

    method DropOldest()
      requires Represents(kept) && |captureOrder| > 0
      modifies this`captures, this`captureOrder, this`captureSize, this`kept
      ensures Represents(kept) && kept == old(kept)[1..]
    {
      var oldestID := captureOrder[0];
      assert kept[0].id == oldestID && oldestID in captures;
      captureOrder := captureOrder[1..];
      if oldestID in captures {
        captureSize := captureSize - Size(captures[oldestID]);
        captures := captures - {oldestID};
      }
      kept := kept[1..];
    }

    /** The eviction loop: drop oldest captures until `size` more bytes fit. */
    method Evict(size: nat) returns (ghost dropped: nat)
      requires Represents(kept) && maxCaptureSize >= 0
      modifies this`captures, this`captureOrder, this`captureSize, this`kept
      ensures Represents(kept)
      ensures dropped <= old(|kept|) && kept == old(kept)[dropped..]
      ensures kept == [] || Total(kept) + size <= maxCaptureSize
      ensures dropped > 0 ==> Total(old(kept)[dropped - 1..]) + size > maxCaptureSize
    {
      dropped := 0;
      while captureSize + size > maxCaptureSize && |captureOrder| > 0
        invariant Represents(kept)
        invariant dropped <= |old(kept)| && kept == old(kept)[dropped..]
        invariant dropped > 0 ==> Total(old(kept)[dropped - 1..]) + size > maxCaptureSize
        decreases |captureOrder|
      {
        DropOldest();
        dropped := dropped + 1;
      }
    }

    method Store(c: Capture)
      requires Represents(kept) && forall k <- kept :: k.id != c.id
      modifies this`captures, this`captureOrder, this`captureSize, this`kept
      ensures Represents(kept) && kept == old(kept) + [c]
    {
      OneMoreId(kept, c);
      captures := captures[c.id := c];
      captureOrder := captureOrder + [c.id];
      captureSize := captureSize + Size(c);
      TotalConcat(kept, [c]);
      kept := kept + [c];
    }

    /** addCapture. Whatever the sizes, what is held afterwards is the longest suffix of
        the storable captures offered so far that fits. */
    method Offer(c: Capture)
      requires CapturesValid() && forall d <- offered :: d.id != c.id
      modifies this`captures, this`captureOrder, this`captureSize, this`kept, this`offered
      ensures CapturesValid() && offered == old(offered) + [c]
      ensures |AllBytes(kept)| <= maxCaptureSize
      ensures c in kept <==> enableCaptures && |Bytes(c)| <= maxCaptureSize
    {
      SizeIsBytes(c);
      HeldWereOffered();
      StorableStep(offered, c, maxCaptureSize);
      if enableCaptures {
        if Size(c) <= maxCaptureSize {
          Replace(c, Storable(offered, maxCaptureSize));
        } else {
          assert Storable(offered, maxCaptureSize) + [] == Storable(offered, maxCaptureSize);
        }
      }
      offered := offered + [c];
      HeldFit();
    }

    lemma HeldFit()
      requires CapturesValid()
      ensures |AllBytes(kept)| <= maxCaptureSize
    {
      TotalIsBytes(kept);
    }

    /** The part of addCapture that makes room and stores the capture. */
    method Replace(c: Capture, ghost before: seq<Capture>)
      requires Represents(kept) && maxCaptureSize >= Size(c)
      requires LongestFittingSuffix(kept, before, maxCaptureSize) && forall d <- kept :: d.id != c.id
      modifies this`captures, this`captureOrder, this`captureSize, this`kept
      ensures Represents(kept) && LongestFittingSuffix(kept, before + [c], maxCaptureSize) && c in kept
    {
      ghost var held := kept;
      ghost var dropped := Evict(Size(c));
      SuffixGrows(held, before, c, dropped, maxCaptureSize);
      assert forall d <- kept :: d in held;
      Store(c);
    }

    /** addCapture as the handler calls it, with the ID that addMetrics returned. */
    method AddCapture(c: Capture)
      requires Valid() && c.id in issued
      modifies this`captures, this`captureOrder, this`captureSize, this`kept, this`offered, this`issued
      ensures Valid() && offered == old(offered) + [c] && issued == old(issued) - {c.id}
      ensures |AllBytes(kept)| <= maxCaptureSize
      ensures c in kept <==> enableCaptures && |Bytes(c)| <= maxCaptureSize
    {
      Offer(c);
      issued := issued - {c.id};
    }

    lemma HeldWereOffered()
      requires CapturesValid()
      ensures forall k <- kept :: k in offered
    {
      StorableOffered(offered, maxCaptureSize);
    }

    /** getCaptureByID finds a capture exactly when it is held. */
    method GetCaptureByID(id: int) returns (found: bool, c: Capture)
      requires Valid()
      ensures found <==> exists k :: k in kept && k.id == id
      ensures found ==> c in kept && c.id == id
    {
      if id in captures {
        ghost var i :| 0 <= i < |captureOrder| && captureOrder[i] == id;
        assert kept[i].id == id;
        return true, captures[id];
      }
      found, c := false, Capture(id, "", [], "", [], "");
      forall k | k in kept ensures k.id != id {
        var i :| 0 <= i < |kept| && kept[i] == k;
        assert captureOrder[i] == k.id;
      }
    }
  }

  lemma StorableStep(cs: seq<Capture>, c: Capture, max: int)
    ensures Storable(cs + [c], max) == Storable(cs, max) + (if Size(c) > max then [] else [c])
  {
    assert (cs + [c])[..|cs|] == cs;
  }

  lemma {:induction false} StorableOffered(cs: seq<Capture>, max: int)
    ensures forall c <- Storable(cs, max) :: c in cs
  {
    if cs == [] {
    } else {
      StorableOffered(cs[..|cs| - 1], max);
    }
  }

  lemma {:induction false} TotalSuffix(cs: seq<Capture>, i: nat, j: nat)
    requires i <= j <= |cs|
    ensures Total(cs[j..]) <= Total(cs[i..])
    decreases j - i
  {
    if i < j {
      TotalSuffix(cs, i + 1, j);
      assert cs[i..][1..] == cs[i + 1..];
    }
  }

  /** Retention is optimal: no longer suffix fits. */
  lemma NoLongerSuffixFits(kept: seq<Capture>, all: seq<Capture>, max: int, n: nat)
    requires LongestFittingSuffix(kept, all, max) && |kept| < n <= |all|
    ensures Total(all[|all| - n..]) > max
  {
    TotalSuffix(all, |all| - n, |all| - |kept| - 1);
  }

  lemma SuffixPlusOne(all: seq<Capture>, c: Capture, n: nat)
    requires n <= |all|
    ensures (all + [c])[n..] == all[n..] + [c]
    ensures Total((all + [c])[n..]) == Total(all[n..]) + Size(c)
  {
    assert (all + [c])[n..] == all[n..] + [c];
    TotalConcat(all[n..], [c]);
    assert [c][1..] == [];
  }

  lemma FitsFromGrows(all: seq<Capture>, c: Capture, start: nat, max: int)
    requires start <= |all| && Total(all[start..]) + Size(c) <= max
    requires start > 0 ==> Total(all[start - 1..]) + Size(c) > max
    ensures FitsFrom(all + [c], start, max)
  {
    SuffixPlusOne(all, c, start);
    if start > 0 {
      SuffixPlusOne(all, c, start - 1);
    }
  }

  /** Evicting from the longest fitting suffix until one more fits gives the longest
      fitting suffix again. */
  lemma SuffixGrows(held: seq<Capture>, all: seq<Capture>, c: Capture, dropped: nat, max: int)
    requires LongestFittingSuffix(held, all, max) && dropped <= |held| && Size(c) <= max
    requires var rest := held[dropped..]; rest == [] || Total(rest) + Size(c) <= max
    requires dropped > 0 ==> Total(held[dropped - 1..]) + Size(c) > max
    ensures LongestFittingSuffix(held[dropped..] + [c], all + [c], max)
  {
    var start := |all| - |held| + dropped;
    FitsFromGrows(all, c, start, max);
    SuffixPlusOne(all, c, start);
  }
}
