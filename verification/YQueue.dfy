/** `yqueue_t`: a queue kept in a list of chunks of N slots, which allocates by the chunk and keeps one used chunk
    for reuse. */
module YQueue {

  class Chunk<T> {
    var values: seq<T>
    var prev: Chunk?<T>
    var next: Chunk?<T>

    constructor (n: nat, junk: T)
      ensures |values| == n && prev == null && next == null
    {
      values := seq(n, _ => junk);
      prev, next := null, null;
    }
  }

  /** The slots of the chunks in order, up to `end` in the last one. */
  ghost function Flat<T>(table: seq<seq<T>>, end: nat): (s: seq<T>)
    requires |table| > 0 && end <= |table[|table| - 1]|
    ensures |table| == 1 ==> |s| == end
    ensures |table| > 1 ==> |s| >= |table[0]| + end
  {
    if |table| == 1 then table[0][..end] else table[0] + Flat(table[1..], end)
  }

  lemma {:induction false} FlatGrow<T>(table: seq<seq<T>>, end: nat)
    requires |table| > 0 && end < |table[|table| - 1]|
    ensures Flat(table, end + 1) == Flat(table, end) + [table[|table| - 1][end]]
    decreases |table|
  {
    if |table| == 1 {
      assert table[0][..end + 1] == table[0][..end] + [table[0][end]];
    } else {
      FlatGrow(table[1..], end);
    }
  }

  lemma {:induction false} FlatChunk<T>(table: seq<seq<T>>, x: seq<T>)
    requires |table| > 0
    ensures Flat(table + [x], 0) == Flat(table, |table[|table| - 1]|)
    decreases |table|
  {
    assert (table + [x])[1..] == table[1..] + [x];
    if |table| == 1 {
      assert Flat([x], 0) == [];
      assert table[1..] + [x] == [x];
    } else {
      FlatChunk(table[1..], x);
    }
  }

  lemma {:induction false} FlatSame<T>(a: seq<seq<T>>, b: seq<seq<T>>, end: nat)
    requires |a| == |b| > 0 && end <= |a[|a| - 1]| && end <= |b[|b| - 1]|
    requires a[..|a| - 1] == b[..|b| - 1] && a[|a| - 1][..end] == b[|b| - 1][..end]
    ensures Flat(a, end) == Flat(b, end)
    decreases |a|
  {
    if |a| > 1 {
      assert a[0] == a[..|a| - 1][0] == b[..|b| - 1][0] == b[0];
      assert a[1..][..|a| - 2] == a[..|a| - 1][1..] == b[..|b| - 1][1..] == b[1..][..|b| - 2];
      FlatSame(a[1..], b[1..], end);
    }
  }

  class YQueue<T> {
    const N: nat
    const junk: T
    var beginChunk: Chunk<T>
    var beginPos: nat
    var backChunk: Chunk?<T>
    var backPos: nat
    var endChunk: Chunk<T>
    var endPos: nat
    var spare: Chunk?<T>

    /** The chunks from begin to end, and the values in them; the chunks given back to the allocator. */
    ghost var chunks: seq<Chunk<T>>
    ghost var table: seq<seq<T>>
    ghost var freed: set<Chunk<T>>
    ghost var allocs: nat

    ghost predicate Links()
      reads this, chunks
    {
      && |chunks| > 0 && beginChunk == chunks[0] && endChunk == chunks[|chunks| - 1]
      && (forall i, j :: 0 <= i < j < |chunks| ==> chunks[i] != chunks[j])
      && (forall i :: 0 <= i < |chunks| - 1 ==> chunks[i].next == chunks[i + 1] && chunks[i + 1].prev == chunks[i])
    }

    ghost predicate Valid()
      reads this, chunks, spare
    {
      Almost() && endPos < N
    }

    /** Valid, but the last chunk may be full. */
    ghost predicate Almost()
      reads this, chunks, spare
    {
      && N > 0 && Links()
      && |table| == |chunks|
      && (forall i :: 0 <= i < |chunks| ==> chunks[i].values == table[i] && |table[i]| == N)
      && beginPos < N && endPos <= N && (|chunks| == 1 ==> beginPos <= endPos)
      && (spare != null ==> spare !in chunks && spare !in freed && |spare.values| == N)
      && (forall c :: c in chunks ==> c !in freed)
    }

    /** The elements of the queue; the last one is the slot that `push` made and `back` refers to. */
    ghost function Contents(): seq<T>
      requires Almost()
      reads this, chunks, spare
    {
      Flat(table, endPos)[beginPos..]
    }

    /** `back` refers to the last element. */
    ghost predicate BackSet()
      reads this
    {
      if endPos > 0 then backChunk == endChunk && backPos == endPos - 1
      else |chunks| > 1 && backChunk == chunks[|chunks| - 2] && backPos == N - 1
    }

    constructor (n: nat, junk: T)
      requires n > 0
      ensures Valid() && Contents() == [] && fresh(chunks) && spare == null && freed == {} && allocs == 1 && N == n
    {
      N, this.junk := n, junk;
      var c := new Chunk<T>(n, junk);
      beginChunk, beginPos, backChunk, backPos, endChunk, endPos, spare := c, 0, null, 0, c, 0, null;
      chunks, table, freed, allocs := [c], [c.values], {}, 1;
    }

    method Front() returns (v: T)
      requires Valid() && |Contents()| > 0
      ensures v == Contents()[0]
    {
      FrontAt(table, beginPos, endPos);
      v := beginChunk.values[beginPos];
    }

    /** Add a slot at the back, whatever it holds. Only the push that fills a chunk looks for another, and
        allocates it only if there is no spare one. */
    method Push()
      requires Valid()
      modifies this, endChunk, spare
      ensures Valid() && BackSet()
      ensures Contents() == old(Contents()) + [old(endChunk.values[endPos])]
      ensures freed == old(freed)
      ensures allocs == old(allocs) + if old(endPos) == N - 1 && old(spare) == null then 1 else 0
      ensures old(endPos) < N - 1 ==> chunks == old(chunks) && spare == old(spare)
      ensures old(endPos) == N - 1 ==> spare == null && |chunks| > 1 && chunks[..|chunks| - 1] == old(chunks)
      ensures forall c :: c in chunks ==> c in old(chunks) || c == old(spare) || fresh(c)
    {
      Fill();
      hide *;
      if endPos == N {
        NextChunk();
      }
    }

    /** Take the next slot of the last chunk. */
    method Fill()
      requires Valid()
      modifies this`backChunk, this`backPos, this`endPos
      ensures Almost() && backChunk == endChunk && backPos == endPos - 1 && endPos == old(endPos) + 1
      ensures Contents() == old(Contents()) + [endChunk.values[backPos]]
    {
      backChunk := endChunk;
      backPos := endPos;
      FlatGrow(table, endPos);
      FlatLong(table, beginPos, endPos);
      hide Flat, Links;
      endPos := endPos + 1;
    }

    /** Store into the last element. */
    method SetBack(v: T)
      requires Valid() && BackSet() && |Contents()| > 0
      modifies backChunk, this`table
      ensures Valid() && BackSet() && |old(Contents())| > 0
      ensures Contents() == old(Contents())[|old(Contents())| - 1 := v]
    {
      ghost var i := if endPos > 0 then |chunks| - 1 else |chunks| - 2;
      FlatBack(table, endPos, N, i, v);
      FlatLong(table, beginPos, endPos);
      SetInTail(Flat(table, endPos), beginPos, v);
      hide Flat;
      StoreBack(v, i);
    }

    method StoreBack(v: T, ghost i: nat)
      requires Valid() && i < |chunks| && backChunk == chunks[i] && backPos < N
      modifies backChunk`values, this`table
      ensures Valid() && table == old(table)[i := old(table)[i][backPos := v]]
    {
      backChunk.values := backChunk.values[backPos := v];
      table := table[i := table[i][backPos := v]];
    }

    /** Take back the last slot. A chunk that becomes empty is freed, not kept. */
    method Unpush()
      requires Valid() && BackSet() && |Contents()| > 0
      modifies this`backChunk, this`backPos, this`endChunk, this`endPos, this`freed, this`chunks, this`table, chunks`next
      ensures Valid() && Contents() == old(Contents())[..|old(Contents())| - 1]
      ensures |Contents()| > 0 ==> BackSet()
      ensures chunks == if old(endPos) > 0 then old(chunks) else old(chunks)[..|old(chunks)| - 1]
      ensures freed == old(freed) + if old(endPos) > 0 then {} else {old(endChunk)}
    {
      Length();
      hide Flat, Links;
      StepBack();
      if endPos > 0 {
        Empty();
      } else {
        DropLast();
      }
    }

    /** The queue is empty where begin meets end. */
    lemma Length()
      requires Valid()
      ensures |Contents()| == 0 <==> |chunks| == 1 && beginPos == endPos
    {
    }

    /** Move `back` one slot backwards; when the queue has become empty it may end up anywhere. */
    method StepBack()
      requires Valid() && BackSet()
      modifies this`backChunk, this`backPos
      ensures var i := if endPos > 0 then |chunks| - 1 else |chunks| - 2;
              if old(backPos) > 0 then backChunk == old(backChunk) && backPos == old(backPos) - 1
              else backPos == N - 1 && (i > 0 ==> backChunk == chunks[i - 1])
    {
      hide Flat;
      ghost var i := if endPos > 0 then |chunks| - 1 else |chunks| - 2;
      assert i > 0 ==> chunks[i].prev == chunks[i - 1] by {
        if i > 0 { assert chunks[i - 1].next == chunks[i]; }
      }
      if backPos > 0 {
        backPos := backPos - 1;
      } else {
        backPos := N - 1;
        backChunk := backChunk.prev;
      }
    }

    /** Give up the last slot of the last chunk. */
    method Empty()
      requires Valid() && endPos > 0 && |Contents()| > 0
      modifies this`endPos
      ensures Valid() && Contents() == old(Contents())[..|old(Contents())| - 1] && endPos == old(endPos) - 1
    {
      FlatGrow(table, endPos - 1);
      FlatLong(table, beginPos, endPos);
      hide Flat, Links;
      endPos := endPos - 1;
    }

    method DropLast()
      requires Valid() && endPos == 0 && |chunks| > 1
      modifies this`endChunk, this`endPos, this`freed, this`chunks, this`table, chunks`next
      ensures Valid() && |old(Contents())| > 0 && Contents() == old(Contents())[..|old(Contents())| - 1]
      ensures endPos == N - 1 && chunks == old(chunks)[..|old(chunks)| - 1]
      ensures freed == old(freed) + {old(endChunk)}
    {
      ghost var n := |chunks|;
      FlatDropLast(table, beginPos, N);
      hide Flat;
      endPos := N - 1;
      assert chunks[n - 2].next == chunks[n - 1];
      endChunk := endChunk.prev;
      assert endChunk == chunks[n - 2];
      freed := freed + {endChunk.next};
      endChunk.next := null;
      chunks := chunks[..n - 1];
      table := table[..n - 1];
    }

    /** Remove the first element. A chunk used up becomes the spare one. */
    method Pop()
      requires Valid() && |Contents()| > 0
      modifies this`beginChunk, this`beginPos, this`spare, this`chunks, this`table, this`freed, chunks`prev
      ensures Valid() && Contents() == old(Contents())[1..]
      ensures old(BackSet()) && |Contents()| > 0 ==> BackSet()
      ensures old(beginPos) < N - 1 ==> chunks == old(chunks) && spare == old(spare) && freed == old(freed)
      ensures old(beginPos) == N - 1 ==> chunks == old(chunks)[1..] && spare == old(beginChunk)
      ensures old(beginPos) == N - 1 ==> freed == old(freed) + if old(spare) == null then {} else {old(spare)}
    {
      FlatLong(table, beginPos, endPos);
      if beginPos + 1 == N {
        DropFirst();
      } else {
        hide Flat;
        beginPos := beginPos + 1;
      }
    }

    method DropFirst()
      requires Valid() && |Contents()| > 0 && beginPos + 1 == N
      modifies this`beginChunk, this`beginPos, this`spare, this`chunks, this`table, this`freed, chunks`prev
      ensures Valid() && Contents() == old(Contents())[1..]
      ensures chunks == old(chunks)[1..] && spare == old(beginChunk) && beginPos == 0
      ensures freed == old(freed) + if old(spare) == null then {} else {old(spare)}
      ensures old(BackSet()) && |Contents()| > 0 ==> BackSet()
    {
      FlatRest(table, endPos, N);
      hide Flat;
      var o := Unlink();
      hide *;
      Recycle(o);
    }

    method Unlink() returns (o: Chunk<T>)
      requires Valid() && |chunks| > 1
      modifies this`beginChunk, this`beginPos, this`chunks, this`table, chunks`prev
      ensures Valid() && beginPos == 0
      ensures chunks == old(chunks)[1..] && table == old(table)[1..]
      ensures o == old(beginChunk) && o !in chunks && o !in freed && o != spare && |o.values| == N
    {
      hide Flat;
      o := beginChunk;
      assert chunks[0].next == chunks[1];
      beginChunk := beginChunk.next;
      beginChunk.prev := null;
      beginPos := 0;
      chunks := chunks[1..];
      table := table[1..];
    }

    /** Keep the chunk as the spare one, and free the one that was. */
    method Recycle(o: Chunk<T>)
      requires Valid() && o !in chunks && o !in freed && o != spare && |o.values| == N
      modifies this`spare, this`freed
      ensures Valid() && Contents() == old(Contents()) && spare == o
      ensures freed == old(freed) + if old(spare) == null then {} else {old(spare)}
    {
      hide Flat;
      var cs := spare;
      spare := o;
      if cs != null {
        freed := freed + {cs};
      }
    }

    /** The last chunk is full: continue in the spare chunk or in a new one. */
    method NextChunk()
      requires Almost() && endPos == N
      modifies this`spare, this`endChunk, this`endPos, this`chunks, this`table, this`allocs, endChunk, spare
      ensures Valid() && Contents() == old(Contents()) && endPos == 0 && spare == null
      ensures |chunks| > 1 && chunks[..|chunks| - 1] == old(chunks)
      ensures if old(spare) == null then fresh(endChunk) else endChunk == old(spare)
      ensures allocs == old(allocs) + if old(spare) == null then 1 else 0
      ensures forall c :: c in chunks ==> c in old(chunks) || c == endChunk
      ensures endChunk == chunks[|chunks| - 1] && old(endChunk) == chunks[|chunks| - 2]
    {
      var sc := spare;
      spare := null;
      if sc == null {
        sc := new Chunk<T>(N, junk);
        allocs := allocs + 1;
      }
      Link(sc);
    }

    method Link(sc: Chunk<T>)
      requires Almost() && endPos == N && sc !in chunks && sc !in freed && |sc.values| == N && spare == null
      modifies this`endChunk, this`endPos, this`chunks, this`table, endChunk, sc
      ensures Valid() && Contents() == old(Contents()) && endPos == 0
      ensures chunks == old(chunks) + [sc]
    {
      FlatChunk(table, sc.values);
      hide Flat;
      endChunk.next := sc;
      sc.prev := endChunk;
      endChunk := sc;
      endPos := 0;
      chunks := chunks + [sc];
      table := table + [sc.values];
    }
  }

  /** Dropping the first chunk, of which one value was left. */
  lemma FlatRest<T>(table: seq<seq<T>>, end: nat, n: nat)
    requires |table| > 1 && n > 0 && |table[0]| == n && end <= |table[|table| - 1]|
    ensures |Flat(table, end)| >= n && Flat(table, end)[n - 1..][1..] == Flat(table[1..], end)[0..]
  {
  }

  /** Dropping the last, empty chunk. */
  lemma FlatShrink<T>(table: seq<seq<T>>)
    requires |table| > 1
    ensures Flat(table, 0) == Flat(table[..|table| - 1], |table[|table| - 2]|)
  {
    var m := |table| - 1;
    FlatChunk(table[..m], table[m]);
    assert table[..m] + [table[m]] == table;
  }

  /** Dropping the last, empty chunk and the last value before it. */
  lemma FlatDropLast<T>(table: seq<seq<T>>, begin: nat, n: nat)
    requires |table| > 1 && n > 0 && begin < n && forall j :: 0 <= j < |table| ==> |table[j]| == n
    ensures var f := Flat(table, 0);
            |f| > begin && Flat(table[..|table| - 1], n - 1)[begin..] == f[begin..][..|f| - begin - 1]
  {
    var t := table[..|table| - 1];
    FlatShrink(table);
    FlatGrow(t, n - 1);
    FlatLong(t, begin, n - 1);
  }

  /** Changing the last value. */
  lemma FlatSet<T>(table: seq<seq<T>>, end: nat, v: T)
    requires |table| > 0 && 0 < end <= |table[|table| - 1]|
    ensures var n := |table| - 1;
            var f := Flat(table, end);
            |f| > 0 && Flat(table[n := table[n][end - 1 := v]], end) == f[|f| - 1 := v]
  {
    var n := |table| - 1;
    var t := table[n := table[n][end - 1 := v]];
    FlatGrow(table, end - 1);
    FlatGrow(t, end - 1);
    FlatSame(table, t, end - 1);
  }

  /** Changing the last value, which is in chunk `i`. */
  lemma FlatBack<T>(table: seq<seq<T>>, end: nat, n: nat, i: nat, v: T)
    requires |table| > 0 && n > 0 && end <= n && forall j :: 0 <= j < |table| ==> |table[j]| == n
    requires if end > 0 then i == |table| - 1 else |table| > 1 && i == |table| - 2
    ensures var f := Flat(table, end);
            var pos := if end > 0 then end - 1 else n - 1;
            |f| > 0 && Flat(table[i := table[i][pos := v]], end) == f[|f| - 1 := v]
  {
    if end > 0 {
      FlatSet(table, end, v);
    } else {
      var t := table[i := table[i][n - 1 := v]];
      FlatShrink(table);
      FlatSet(table[..i + 1], n, v);
      FlatShrink(t);
      assert t[..i + 1] == table[..i + 1][i := table[i][n - 1 := v]];
    }
  }

  lemma SetInTail<T>(s: seq<T>, i: nat, v: T)
    requires i < |s|
    ensures s[|s| - 1 := v][i..] == s[i..][|s| - 1 - i := v]
  {
  }

  lemma FlatLong<T>(table: seq<seq<T>>, begin: nat, end: nat)
    requires |table| > 0 && end <= |table[|table| - 1]| && begin <= |table[0]|
    requires |table| == 1 ==> begin <= end
    ensures begin <= |Flat(table, end)|
  {
  }

  lemma FrontAt<T>(table: seq<seq<T>>, begin: nat, end: nat)
    requires |table| > 0 && end <= |table[|table| - 1]| && begin < |table[0]|
    requires |Flat(table, end)| > begin
    ensures Flat(table, end)[begin] == table[0][begin]
  {
  }
}
