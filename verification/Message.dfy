/** `msg_t`: a handle to a small message, which it contains, or to a large one, which it may share with other
    handles. */
module Message {
  import opened Bytes

  const MAX_VSM_SIZE := 29

  /** The shared part of a large message. */
  class Content {
    const data: seq<Byte>
    var refcnt: int
    /** How often it was given back. */
    var frees: nat
    /** How many handles there are, counting references that were added in advance; whether they know of
        each other. */
    ghost var live: nat
    ghost var shared: bool

    constructor (data: seq<Byte>)
      ensures Ok() && live == 1 && !shared && this.data == data
    {
      this.data, refcnt, frees, live, shared := data, 0, 0, 1, false;
    }

    /** The reference count is right where it is used, and the content is given back once, when the last
        handle goes. */
    ghost predicate Ok()
      reads this
    {
      && (if shared then refcnt == live else live <= 1)
      && frees == if live == 0 then 1 else 0
    }

    method Free()
      modifies this`frees
      ensures frees == old(frees) + 1
    {
      frees := frees + 1;
    }
  }

  /** What a handle contains; handles are copied bit by bit. */
  datatype Val =
    | Invalid
    | Vsm(small: seq<Byte>, more: bool)
    | Long(content: Content, shared: bool, more: bool)
    | Delimiter

  /** The handle may be used. */
  ghost predicate Holds(v: Val)
    reads if v.Long? then {v.content} else {}
  {
    v.Long? ==> v.content.Ok() && v.content.live > 0 && v.shared == v.content.shared
  }

  function HasMore(v: Val): bool {
    (v.Vsm? || v.Long?) && v.more
  }

  ghost function Contents(v: Val): set<Content> {
    if v.Long? then {v.content} else {}
  }

  class Msg {
    var u: Val

    constructor ()
      ensures u == Vsm([], false)
    {
      u := Vsm([], false);
    }

    method Init()
      modifies this
      ensures u == Vsm([], false)
    {
      u := Vsm([], false);
    }

    /** A message of the given bytes. */
    method InitSize(data: seq<Byte>)
      modifies this
      ensures Holds(u)
      ensures |data| <= MAX_VSM_SIZE ==> u == Vsm(data, false)
      ensures |data| > MAX_VSM_SIZE ==>
                u.Long? && fresh(u.content) && u.content.data == data && u.content.live == 1 && !u.more
    {
      if |data| <= MAX_VSM_SIZE {
        u := Vsm(data, false);
      } else {
        var c := new Content(data);
        u := Long(c, false, false);
      }
    }

    /** Give up the handle, and with the last one the content. */
    method Close() returns (rc: int)
      requires Holds(u)
      modifies this, Contents(u)
      ensures rc == (if old(u).Invalid? then -1 else 0) && u == Invalid
      ensures old(u).Long? ==>
                var c := old(u).content;
                && c.Ok() && c.live == old(c.live) - 1 && c.shared == old(c.shared)
                && (c.frees > old(c.frees) <==> old(c.live) == 1)
    {
      if u.Invalid? {
        return -1;
      }
      if u.Long? {
        var c := u.content;
        c.live := c.live - 1;
        if u.shared {
          c.refcnt := c.refcnt - 1;
          if c.refcnt == 0 {
            c.Free();
          }
        } else {
          c.Free();
        }
      }
      u := Invalid;
      return 0;
    }

    /** Two handles to the same content count twice. */
    ghost predicate Apart(m: Msg)
      reads this, m, Contents(u)
    {
      u.Long? && m.u.Long? && u.content == m.u.content ==> u.content.live >= 2
    }

    /** Take over the message of `src`, leaving it empty. */
    method Move(src: Msg) returns (rc: int)
      requires Holds(u) && Holds(src.u) && src != this && !u.Invalid?
      requires Apart(src)
      modifies this, src, Contents(u)
      ensures rc == if old(src.u).Invalid? then -1 else 0
      ensures rc == -1 ==> u == old(u) && src.u == old(src.u)
      ensures rc == 0 ==> u == old(src.u) && src.u == Vsm([], false) && Holds(u)
      ensures rc == 0 && old(u).Long? ==> var c := old(u).content; c.Ok() && c.live == old(c.live) - 1
    {
      if src.u.Invalid? {
        return -1;
      }
      rc := Close();
      u := src.u;
      src.Init();
      return 0;
    }

    /** Share the message of `src`: one handle more. */
    method Copy(src: Msg) returns (rc: int)
      requires Holds(u) && Holds(src.u) && src != this && !u.Invalid?
      requires Apart(src)
      modifies this, src, Contents(u), Contents(src.u)
      ensures rc == if old(src.u).Invalid? then -1 else 0
      ensures rc == -1 ==> u == old(u) && src.u == old(src.u)
      ensures rc == 0 ==> u == src.u && Holds(u)
      ensures rc == 0 && old(src.u).Long? ==>
                src.u == old(src.u).(shared := true) && src.u.content.live == old(src.u.content.live) + if Contents(old(u)) == Contents(src.u) then 0 else 1
      ensures rc == 0 && !old(src.u).Long? ==> src.u == old(src.u)
      ensures rc == 0 && old(u).Long? && old(u).content !in Contents(src.u) ==>
                var c := old(u).content; c.Ok() && c.live == old(c.live) - 1
    {
      if src.u.Invalid? {
        return -1;
      }
      rc := Close();
      if src.u.Long? {
        var c := src.u.content;
        if src.u.shared {
          c.refcnt := c.refcnt + 1;
        } else {
          src.u := src.u.(shared := true);
          c.refcnt := 2;
        }
        c.live := c.live + 1;
        c.shared := true;
      }
      u := src.u;
      return 0;
    }

    /** Add references in advance, for bitwise copies of the handle to come. */
    method AddRefs(refs: nat)
      requires Holds(u)
      modifies this, Contents(u)
      ensures Holds(u)
      ensures !old(u).Long? || refs == 0 ==> u == old(u)
      ensures old(u).Long? ==>
                && u == old(u).(shared := old(u).shared || refs > 0)
                && u.content.live == old(u.content.live) + refs
    {
      if refs == 0 {
        return;
      }
      if u.Long? {
        var c := u.content;
        if u.shared {
          c.refcnt := c.refcnt + refs;
        } else {
          c.refcnt := refs + 1;
          u := u.(shared := true);
        }
        c.live := c.live + refs;
        c.shared := true;
      }
    }

    /** Take references back; are there any left? */
    method RmRefs(refs: nat) returns (left: bool)
      requires Holds(u) && (u.Long? ==> refs <= u.content.live)
      modifies this, Contents(u)
      ensures refs == 0 ==> left && u == old(u)
      ensures !old(u).Long? && refs > 0 ==> !left && u == Invalid
      ensures old(u).Long? ==>
                var c := old(u).content;
                && c.Ok() && c.live == old(c.live) - refs && c.shared == old(c.shared)
                && (left <==> c.live > 0)
                && (left ==> u == old(u))
    {
      if refs == 0 {
        return true;
      }
      if !u.Long? || !u.shared {
        var rc := Close();
        return false;
      }
      var c := u.content;
      c.refcnt := c.refcnt - refs;
      c.live := c.live - refs;
      if c.refcnt == 0 {
        c.Free();
        return false;
      }
      return true;
    }
  }
}
