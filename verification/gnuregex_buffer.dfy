/** The pattern buffer and its in-place stores and insertions. */
module RegexBuffer {
  import opened RegexLanguage
  import opened RegexCode

  const INIT_BUF_SIZE := 32
  const MAX_BUF_SIZE := 0x10000

  /** `store_op1` */
  method StoreOp1(buf: array<Byte>, op: Byte, loc: nat, arg: int)
    requires loc + 3 <= buf.Length
    modifies buf
    ensures buf[..] == old(buf[..loc]) + Jump(op, arg) + old(buf[loc + 3..])
  {
    buf[loc] := op;
    buf[loc + 1] := Low(arg);
    buf[loc + 2] := High(arg);
  }

  /** `insert_op1`: the bytes from loc to end move up by three, from the last one down. */
  method InsertOp1(buf: array<Byte>, op: Byte, loc: nat, arg: int, end: nat)
    requires loc <= end && end + 3 <= buf.Length
    modifies buf
    ensures buf[..] == old(buf[..loc]) + Jump(op, arg) + old(buf[loc..end]) + old(buf[end + 3..])
  {
    var pfrom, pto := end, end + 3;
    while pfrom != loc
      invariant loc <= pfrom <= end && pto == pfrom + 3
      invariant forall i {:trigger buf[i]} :: 0 <= i < pto ==> buf[i] == old(buf[i])
      invariant forall i {:trigger buf[i]} :: end + 3 <= i < buf.Length ==> buf[i] == old(buf[i])
      invariant forall i, j {:trigger buf[i], old(buf[j])} :: pto <= i < end + 3 && j == i - 3 ==> buf[i] == old(buf[j])
    {
      pto := pto - 1;
      pfrom := pfrom - 1;
      buf[pto] := buf[pfrom];
    }
    ghost var moved := buf[..];
    StoreOp1(buf, op, loc, arg);
    InsertedBytes(old(buf[..]), moved, buf[..], op, loc, arg, end);
  }

  lemma InsertedBytes(was: Code, moved: Code, now: Code, op: Byte, loc: nat, arg: int, end: nat)
    requires loc <= end && end + 3 <= |was| == |moved|
    requires moved[..loc] == was[..loc] && moved[end + 3..] == was[end + 3..]
    requires forall i, j {:trigger moved[i], was[j]} :: loc + 3 <= i < end + 3 && j == i - 3 ==> moved[i] == was[j]
    requires now == moved[..loc] + Jump(op, arg) + moved[loc + 3..]
    ensures now == was[..loc] + Jump(op, arg) + was[loc..end] + was[end + 3..]
  {
    var u, v := moved[loc + 3..], was[loc..end] + was[end + 3..];
    forall i {:trigger u[i]} | 0 <= i < |u|
      ensures u[i] == v[i]
    {
      if i < end - loc {
        assert moved[loc + 3 + i] == was[loc + i];
      } else {
        assert moved[end + 3..][i - (end - loc)] == was[end + 3..][i - (end - loc)];
      }
    }
    assert u == v;
  }

  /** The bytes laid out so far, with room that grows by doubling. */
  class PatternBuffer {
    var buffer: array<Byte>
    var b: nat

    ghost predicate Ready()
      reads this
    {
      b <= buffer.Length && 0 < buffer.Length <= MAX_BUF_SIZE
    }

    ghost function Contents(): Code
      requires Ready()
      reads this, buffer
    {
      buffer[..b]
    }

    constructor ()
      ensures Ready() && Contents() == [] && fresh(buffer)
    {
      buffer := new Byte[INIT_BUF_SIZE];
      b := 0;
    }

    /** `GET_BUFFER_SPACE`: fails when the code would outgrow the largest buffer. */
    method GetSpace(n: nat) returns (ok: bool)
      requires Ready()
      modifies this`buffer
      ensures Ready() && Contents() == old(Contents()) && (buffer == old(buffer) || fresh(buffer))
      ensures ok <==> b + n <= MAX_BUF_SIZE
      ensures ok ==> b + n <= buffer.Length
    {
      while b + n > buffer.Length
        invariant Ready() && Contents() == old(Contents()) && (buffer == old(buffer) || fresh(buffer))
        invariant old(buffer.Length) <= buffer.Length
        decreases MAX_BUF_SIZE - buffer.Length
      {
        if buffer.Length == MAX_BUF_SIZE {
          return false;
        }
        var size := if 2 * buffer.Length > MAX_BUF_SIZE then MAX_BUF_SIZE else 2 * buffer.Length;
        var larger := new Byte[size];
        forall i | 0 <= i < buffer.Length {
          larger[i] := buffer[i];
        }
        assert larger[..b] == buffer[..b];
        buffer := larger;
      }
      return true;
    }

    /** `BUF_PUSH`, once there is room. */
    method Push(x: Byte)
      requires Ready() && b < buffer.Length
      modifies this`b, buffer
      ensures Ready() && Contents() == old(Contents()) + [x] && b == old(b) + 1
    {
      buffer[b] := x;
      b := b + 1;
    }

    /** `STORE_JUMP` over three bytes of the code. */
    method StoreJump(op: Byte, loc: nat, to: int)
      requires Ready() && loc + 3 <= b
      modifies buffer
      ensures Ready() && Contents() == old(Contents()[..loc]) + Jump(op, to - loc - 3) + old(Contents()[loc + 3..])
    {
      StoreOp1(buffer, op, loc, to - loc - 3);
      assert buffer[..][..b] == buffer[..b];
      Trimmed(old(buffer[..]), buffer[..], Jump(op, to - loc - 3), loc, b);
    }

    /** `STORE_JUMP` at the end, and past it. */
    method AppendJump(op: Byte, to: int)
      requires Ready() && b + 3 <= buffer.Length
      modifies this`b, buffer
      ensures Ready() && b == old(b) + 3 && Contents() == old(Contents()) + Jump(op, to - old(b) - 3)
    {
      StoreOp1(buffer, op, b, to - b - 3);
      b := b + 3;
    }

    /** `INSERT_JUMP` */
    method InsertJump(op: Byte, loc: nat, to: int)
      requires Ready() && loc <= b && b + 3 <= buffer.Length
      modifies this`b, buffer
      ensures Ready() && b == old(b) + 3
      ensures Contents() == old(Contents()[..loc]) + Jump(op, to - loc - 3) + old(Contents()[loc..])
    {
      ghost var was := buffer[..];
      InsertOp1(buffer, op, loc, to - loc - 3, b);
      b := b + 3;
      InsertTrimmed(was, buffer[..], Jump(op, to - loc - 3), loc, old(b));
    }

    /** Three bytes are left to be filled in later. */
    method Reserve()
      requires Ready() && b + 3 <= buffer.Length
      modifies this`b
      ensures Ready() && b == old(b) + 3 && |Contents()| == b && Contents()[..old(b)] == old(Contents())
    {
      b := b + 3;
      assert buffer[..b][..old(b)] == old(buffer[..b]);
    }

    /** `BUF_PUSH_3` of a group mark, for the groups that have one. */
    method PushMark(op: Byte, reg: nat, inner: Byte) returns (ok: bool)
      requires Ready()
      modifies this, buffer
      ensures Ready() && fresh({buffer} - {old(buffer)})
      ensures b <= old(b) + 3 && (!ok ==> old(b) + 3 > MAX_BUF_SIZE)
      ensures ok ==> Contents() == old(Contents()) + Memory(op, reg, inner) && b == old(b) + |Memory(op, reg, inner)|
    {
      ok := true;
      if reg <= MAX_REGNUM {
        ok := GetSpace(3);
        if ok {
          Push(op);
          Push(reg);
          Push(inner);
        }
      }
    }

    lemma Length()
      requires Ready()
      ensures |Contents()| == b
    {
    }

    method SetByte(i: nat, x: Byte)
      requires Ready() && i < b
      modifies buffer
      ensures Ready() && Contents() == old(Contents())[i := x]
    {
      buffer[i] := x;
    }
  }

  lemma Trimmed(was: Code, now: Code, j: Code, loc: nat, b: nat)
    requires |j| == 3 && loc + 3 <= b <= |was| && now == was[..loc] + j + was[loc + 3..]
    ensures now[..b] == was[..b][..loc] + j + was[..b][loc + 3..]
  {
  }

  lemma InsertTrimmed(was: Code, now: Code, j: Code, loc: nat, b: nat)
    requires |j| == 3 && loc <= b && b + 3 <= |was| && now == was[..loc] + j + was[loc..b] + was[b + 3..]
    ensures now[..b + 3] == was[..b][..loc] + j + was[..b][loc..]
  {
  }
}
