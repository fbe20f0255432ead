/**
 Model of the bounded trade buffer: a FIFO of at most `maxSize` trades that
 evicts the oldest trade when a new one arrives while it is full, as a Python
 `deque` with `maxlen` does.
 */
module DataBuffer {
  import opened Wrappers

  const DefaultBufferSize: nat := 1000

  datatype Buffer<T> = Buffer(maxSize: nat, items: seq<T>)

  /** The deque never holds more than its maximum length. */
  predicate Valid<T>(b: Buffer<T>) {
    |b.items| <= b.maxSize
  }

  /** The last `n` elements of `s` (all of `s` when it is shorter). */
  function Newest<T>(s: seq<T>, n: nat): (r: seq<T>)
    ensures |r| == if |s| <= n then |s| else n
    ensures r == s[|s| - |r|..]
  {
    if |s| <= n then s else s[|s| - n..]
  }

  /** Taking the newest `n` twice, with more elements appended in between, loses nothing. */
  lemma NewestOfNewest<T>(s: seq<T>, t: seq<T>, n: nat)
    ensures Newest(Newest(s, n) + t, n) == Newest(s + t, n)
  {
    var m := Newest(s, n);
    var k := |Newest(s + t, n)|;
    assert |Newest(m + t, n)| == k;
    forall i | 0 <= i < k
      ensures Newest(m + t, n)[i] == Newest(s + t, n)[i]
    {
      var j := |t| - k + i;
      if j >= 0 {
        assert Newest(m + t, n)[i] == t[j] == Newest(s + t, n)[i];
      } else {
        assert Newest(m + t, n)[i] == m[|m| + j];
        assert Newest(s + t, n)[i] == s[|s| + j];
      }
    }
  }

  /**
   A new buffer. Without a configuration the default maximum length is used; a
   negative maximum length is refused, as the deque constructor does.
   */
  function Create<T>(config: Option<int>): (r: Option<Buffer<T>>)
    ensures config == None ==> r == Some(Buffer(DefaultBufferSize, []))
    ensures config.Some? ==> (r.Some? <==> config.value >= 0)
    ensures r.Some? ==> Valid(r.value) && r.value.items == []
    ensures r.Some? && config.Some? ==> r.value.maxSize == config.value
  {
    var maxSize := if config.Some? then config.value else DefaultBufferSize as int;
    if maxSize < 0 then None else Some(Buffer(maxSize, []))
  }

  /** One `append` on the bounded deque. */
  function AppendOne<T>(b: Buffer<T>, x: T): (r: Buffer<T>)
    requires Valid(b)
    ensures Valid(r) && r.maxSize == b.maxSize
    ensures r.items == Newest(b.items + [x], b.maxSize)
  {
    if |b.items| < b.maxSize then b.(items := b.items + [x])
    else if b.maxSize == 0 then b
    else b.(items := b.items[1..] + [x])
  }

  /**
   Push a batch one trade at a time. The result holds the newest `maxSize`
   trades of the old contents followed by the batch, in arrival order.
   */
  function Push<T>(b: Buffer<T>, trades: seq<T>): (r: Buffer<T>)
    requires Valid(b)
    ensures Valid(r) && r.maxSize == b.maxSize
    ensures r.items == Newest(b.items + trades, b.maxSize)
    decreases |trades|
  {
    if trades == [] then
      assert b.items + trades == b.items;
      b
    else
      var b1 := AppendOne(b, trades[0]);
      NewestOfNewest(b.items + [trades[0]], trades[1..], b.maxSize);
      assert b.items + [trades[0]] + trades[1..] == b.items + trades;
      Push(b1, trades[1..])
  }

  /** A copy of the buffered trades, oldest first. */
  function Snapshot<T>(b: Buffer<T>): (r: seq<T>)
    requires Valid(b)
    ensures |r| == Size(b) <= b.maxSize
    ensures r == b.items
  {
    b.items
  }

  function Size<T>(b: Buffer<T>): (n: nat)
    requires Valid(b)
    ensures n <= b.maxSize
  {
    |b.items|
  }

  /** Full exactly when no room is left for another trade without an eviction. */
  predicate Full<T>(b: Buffer<T>)
    requires Valid(b)
    ensures Full(b) <==> !(|b.items| < b.maxSize)
  {
    Size(b) == b.maxSize
  }

  /** An append grows the buffer exactly when it is not full; on a full buffer it evicts the oldest trade. */
  lemma AppendGrowsUnlessFull<T>(b: Buffer<T>, x: T)
    requires Valid(b)
    ensures |AppendOne(b, x).items| == |b.items| + 1 <==> !Full(b)
    ensures Full(b) && b.maxSize > 0 ==> AppendOne(b, x).items == b.items[1..] + [x]
  {
  }

  /** The snapshot after a push is the newest trades of the old snapshot followed by the batch. */
  lemma {:induction false} SnapshotAfterPush<T>(b: Buffer<T>, trades: seq<T>)
    requires Valid(b)
    ensures Snapshot(Push(b, trades)) == Newest(Snapshot(b) + trades, b.maxSize)
    ensures Snapshot(Push(b, trades)) == (b.items + trades)[|b.items + trades| - Size(Push(b, trades))..]
  {
    var r := Push(b, trades);
    assert r.items == Newest(b.items + trades, b.maxSize);
  }

  function Clear<T>(b: Buffer<T>): (r: Buffer<T>)
    ensures Valid(r) && r.maxSize == b.maxSize
    ensures Size(r) == 0 && Snapshot(r) == []
  {
    b.(items := [])
  }

  /** An empty batch leaves the buffer as it was. */
  lemma PushEmptyUnchanged<T>(b: Buffer<T>)
    requires Valid(b)
    ensures Push(b, []) == b
  {
  }

  /** A full buffer stays full under any push; only `Clear` empties it. */
  lemma FullStaysFull<T>(b: Buffer<T>, trades: seq<T>)
    requires Valid(b) && Full(b)
    ensures Full(Push(b, trades))
  {
  }

  /**
   A push that overflows the buffer evicts the oldest trades first: what is
   left is exactly the last `maxSize` trades received, and when the batch alone
   fills the buffer none of the old contents survive.
   */
  lemma PushEvictsOldest<T>(b: Buffer<T>, trades: seq<T>)
    requires Valid(b)
    ensures |b.items| + |trades| > b.maxSize ==> Full(Push(b, trades))
    ensures |trades| >= b.maxSize ==> Push(b, trades).items == trades[|trades| - b.maxSize..]
    ensures |b.items| + |trades| <= b.maxSize ==> Push(b, trades).items == b.items + trades
  {
    var r := Push(b, trades);
    NewestOfConcat(b.items, trades, b.maxSize);
    assert |r.items| == b.maxSize <==> Full(r);
  }

  /** What the newest `n` of a concatenation are, by how long its parts are. */
  lemma NewestOfConcat<T>(a: seq<T>, t: seq<T>, n: nat)
    ensures |a| + |t| > n ==> |Newest(a + t, n)| == n
    ensures |t| >= n ==> Newest(a + t, n) == t[|t| - n..]
    ensures |a| + |t| <= n ==> Newest(a + t, n) == a + t
  {
    if |t| >= n {
      SuffixOfConcat(a, t, n);
    }
  }

  /** A suffix no longer than the second part of a concatenation lies inside that part. */
  lemma SuffixOfConcat<T>(a: seq<T>, t: seq<T>, n: nat)
    requires n <= |t|
    ensures (a + t)[|a + t| - n..] == t[|t| - n..]
  {
    var all := a + t;
    assert all[|a|..] == t;
    assert all[|all| - n..] == all[|a|..][|t| - n..];
  }

  lemma ConcatAssoc<T>(a: seq<T>, b: seq<T>, c: seq<T>)
    ensures a + b + c == a + (b + c)
  {}

  /** Pushing in two batches is the same as pushing their concatenation. */
  lemma PushConcat<T>(b: Buffer<T>, xs: seq<T>, ys: seq<T>)
    requires Valid(b)
    ensures Push(Push(b, xs), ys) == Push(b, xs + ys)
  {
    var twice := Push(Push(b, xs), ys);
    NewestOfNewest(b.items + xs, ys, b.maxSize);
    ConcatAssoc(b.items, xs, ys);
    assert twice.items == Push(b, xs + ys).items;
  }
}
