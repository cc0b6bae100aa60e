/** `array_t`: an array of pipes, each of which knows its own place in it. */
module PipeArray {
  import opened Arrays
  import opened Message

  /** Whether a pipe is going to accept the next message, what was written to it, how many of these messages are
      visible to the peer, and how often somebody wanted to write. */
  datatype Box = Box(accepts: bool, written: seq<Val>, flushed: nat, attempts: nat)

  /** The message is accepted or not; the last part of a message is flushed. */
  function Offered(b: Box, v: Val): Box {
    var t := b.(attempts := b.attempts + 1);
    if !b.accepts then t
    else t.(written := b.written + [v], flushed := if HasMore(v) then b.flushed else |b.written| + 1)
  }

  /** Whoever accepts has the message behind what was written before; the last part of a message makes all of it visible
      to the peer, a part with more to come makes nothing visible. Whoever refuses has what it had. */
  ghost predicate Tried(b: Box, b': Box, v: Val) {
    && b'.attempts == b.attempts + 1 && b'.accepts == b.accepts
    && (b.accepts ==> b'.written == b.written + [v])
    && (b.accepts && !HasMore(v) ==> b'.flushed == |b'.written|)
    && (b.accepts && HasMore(v) ==> b'.flushed == b.flushed)
    && (!b.accepts ==> b'.written == b.written && b'.flushed == b.flushed)
  }

  lemma DeliveredMeans(bs: map<Pipe, Box>, v: Val, tried: set<Pipe>)
    ensures Delivered(bs, v, tried).Keys == bs.Keys
    ensures forall q :: q in bs && q in tried ==> Tried(bs[q], Delivered(bs, v, tried)[q], v)
    ensures forall q :: q in bs && q !in tried ==> Delivered(bs, v, tried)[q] == bs[q]
  {
  }

  /** The pipes in `tried` are offered the message, the others are not. */
  ghost function Delivered(bs: map<Pipe, Box>, v: Val, tried: set<Pipe>): map<Pipe, Box> {
    map q | q in bs :: if q in tried then Offered(bs[q], v) else bs[q]
  }

  lemma DeliveredNone(bs: map<Pipe, Box>, v: Val)
    ensures Delivered(bs, v, {}) == bs
  {
  }

  lemma DeliveredOne(bs: map<Pipe, Box>, v: Val, tried: set<Pipe>, p: Pipe)
    requires p in bs && p !in tried
    ensures Delivered(bs, v, tried)[p] == bs[p]
    ensures Delivered(bs, v, tried)[p := Offered(bs[p], v)] == Delivered(bs, v, tried + {p})
  {
  }

  ghost function Takers(bs: map<Pipe, Box>): set<Pipe> {
    set q | q in bs && bs[q].accepts
  }

  /** What the schedulers see of a pipe. */
  class Pipe {
    var index: nat
    var box: Box

    constructor ()
      ensures box == Box(true, [], 0, 0)
    {
      index, box := 0, Box(true, [], 0, 0);
    }

    method Write(v: Val) returns (ok: bool)
      modifies this`box
      ensures ok == old(box).accepts
      ensures box == old(box).(attempts := old(box).attempts + 1,
                               written := if ok then old(box).written + [v] else old(box).written)
    {
      box := box.(attempts := box.attempts + 1);
      if !box.accepts {
        return false;
      }
      box := box.(written := box.written + [v]);
      return true;
    }

    method Flush()
      modifies this`box
      ensures box == old(box).(flushed := |old(box).written|)
    {
      box := box.(flushed := |box.written|);
    }
  }

  class PipeArray {
    var items: seq<Pipe>
    ghost var owned: set<Pipe>

    /** Every item knows its place, so no item is there twice. */
    ghost predicate Valid()
      reads this, owned`index
    {
      && (forall i :: 0 <= i < |items| ==> items[i] in owned && items[i].index == i)
      && (forall p :: p in owned ==> p.index < |items| && items[p.index] == p)
    }

    ghost function Boxes(): map<Pipe, Box>
      reads this`owned, owned`box
    {
      map p | p in owned :: p.box
    }

    lemma BoxAt()
      ensures Boxes().Keys == owned && forall q :: q in owned ==> Boxes()[q] == q.box
    {
    }

    twostate lemma OneBox(p: Pipe)
      requires owned == old(owned) && p in owned && forall q :: q in owned && q != p ==> q.box == old(q.box)
      ensures Boxes() == old(Boxes())[p := p.box]
    {
    }

    constructor ()
      ensures Valid() && items == [] && owned == {}
    {
      items, owned := [], {};
    }

    method PushBack(p: Pipe)
      requires Valid() && p !in owned
      modifies this, p`index
      ensures Valid() && items == old(items) + [p] && owned == old(owned) + {p}
    {
      p.index := |items|;
      items, owned := items + [p], owned + {p};
    }

    method Swap(i: nat, j: nat)
      requires Valid() && i < |items| && j < |items|
      modifies this`items, owned`index
      ensures Valid() && items == Swapped(old(items), i, j) && items[j] == old(items[i])
    {
      items[i].index := j;
      items[j].index := i;
      items := items[i := items[j]][j := items[i]];
    }

    method Erase(p: Pipe)
      requires Valid() && p in owned
      modifies this, owned`index
      ensures Valid() && items == Erased(old(items), old(p.index)) && owned == old(owned) - {p}
    {
      var i := p.index;
      var last := items[|items| - 1];
      last.index := i;
      items, owned := items[i := last][..|items| - 1], owned - {p};
    }

    function Index(p: Pipe): (i: nat)
      requires Valid() && p in owned
      reads this, owned`index, p
      ensures i < |items| && items[i] == p
    {
      p.index
    }

    lemma Owned()
      requires Valid()
      ensures Distinct(items) && All(items) == owned
    {
      forall i, j | 0 <= i < |items| && 0 <= j < |items| && items[i] == items[j] ensures i == j {
        assert items[i].index == i && items[j].index == j;
      }
    }
  }
}
