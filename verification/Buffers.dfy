/** Transfer buffers and their trip through the kernel (src/transfer/buffer.rs, src/transfer/mod.rs,
    src/platform/linux_usbfs/transfer.rs). */
module Buffers {
  import opened Wrappers
  import opened Multiples
  import opened Framing

  const U32_LIMIT := 0x1_0000_0000
  const I32_LIMIT := 0x8000_0000

  datatype Direction = Out | In

  datatype TransferError = Cancelled | Stall | Disconnected | Fault | InvalidArgument | Unknown(code: nat)

  type Status = Result<(), TransferError>

  /** A buffer as its owner sees it: the initialised bytes, the length requested for an IN transfer,
      and the capacity. */
  datatype Buffer = Buffer(bytes: Bytes, requestedLen: nat, capacity: nat)

  predicate Wf(b: Buffer) {
    |b.bytes| <= b.capacity < U32_LIMIT && b.requestedLen <= b.capacity
  }

  /** `Buffer::new`, from an allocator that gives what it is asked for, and `Buffer::mmap`. */
  function NewBuffer(requestedLen: nat): Buffer {
    Buffer([], requestedLen, requestedLen)
  }

  function RemainingCapacity(b: Buffer): nat
    requires Wf(b)
  {
    b.capacity - |b.bytes|
  }

  /** The memory behind a buffer, written in place. */
  class BufferMemory {
    var memory: array<byte>
    var len: nat
    var requestedLen: nat

    ghost predicate Valid()
      reads this, memory
    {
      len <= memory.Length && Wf(View())
    }

    ghost function View(): Buffer
      reads this, memory
      requires len <= memory.Length
    {
      Buffer(memory[..len], requestedLen, memory.Length)
    }

    /** `Buffer::new`; the allocator may give `spare` bytes more than were asked for. */
    constructor (requested: nat, spare: nat)
      requires requested + spare < U32_LIMIT  // otherwise "length overflow" or "capacity overflow"
      ensures Valid() && fresh(memory) && View() == Buffer([], requested, requested + spare)
    {
      memory := new byte[requested + spare];
      len, requestedLen := 0, requested;
    }

    method Clear()
      requires Valid()
      modifies this`len
      ensures Valid() && View() == old(View()).(bytes := [])
    {
      len := 0;
    }

    method SetRequestedLen(n: nat)
      requires Valid() && n <= memory.Length  // otherwise "length exceeds capacity"
      modifies this`requestedLen
      ensures Valid() && View() == old(View()).(requestedLen := n)
    {
      requestedLen := n;
    }

    method ExtendFromSlice(slice: Bytes)
      requires Valid() && |slice| <= RemainingCapacity(View())  // otherwise "length exceeds capacity"
      modifies this`len, memory
      ensures Valid() && memory == old(memory)
      ensures View() == old(View()).(bytes := old(View()).bytes + slice)
    {
      forall i | 0 <= i < |slice| {
        memory[len + i] := slice[i];
      }
      len := len + |slice|;
    }

    method ExtendFill(n: nat, value: byte)
      requires Valid() && n <= RemainingCapacity(View())
      modifies this`len, memory
      ensures Valid() && memory == old(memory)
      ensures View() == old(View()).(bytes := old(View()).bytes + seq(n, _ => value))
    {
      forall i | 0 <= i < n {
        memory[len + i] := value;
      }
      len := len + n;
    }
  }

  // -------- The URB --------

  type i32 = x: int | -I32_LIMIT <= x < I32_LIMIT
  type u32 = x: int | 0 <= x < U32_LIMIT

  /** `as i32` and `as u32`, which keep the bits. */
  function AsI32(n: u32): i32 {
    if n < I32_LIMIT then n else n - U32_LIMIT
  }

  function AsU32(n: i32): (r: u32)
    ensures forall m: u32 :: AsI32(m) == n ==> m == r
  {
    if n < 0 then n + U32_LIMIT else n
  }

  /** The URB fields that a buffer passes through; `data` is what the kernel sends, or has received. */
  datatype Urb = Urb(data: Bytes, capacity: nat, bufferLength: i32, actualLength: nat, status: Status)

  const EMPTY_URB := Urb([], 0, 0, 0, Ok(()))

  datatype Completion = Completion(buffer: Buffer, actualLen: nat, status: Status)

  /** `set_buffer`; the status is left as it was. */
  function Load(u: Urb, dir: Direction, b: Buffer): Urb
    requires Wf(b)
  {
    Urb(b.bytes, b.capacity, AsI32(if dir == Out then |b.bytes| else b.requestedLen), 0, u.status)
  }

  /** The kernel is done: it received `received` into an IN buffer, or sent part of an OUT buffer,
      and never more than the length it was given. */
  function Transferred(u: Urb, dir: Direction, received: Bytes, status: Status): Urb {
    var limit := AsU32(u.bufferLength);
    var n := if |received| <= limit then |received| else limit;
    if dir == In then u.(data := received[..n], actualLength := n, status := status)
    else u.(actualLength := n, status := status)
  }

  /** The submit call failed, or the length was refused before it: nothing was transferred. */
  function Refused(u: Urb, error: TransferError): Urb {
    u.(actualLength := 0, status := Err(error))
  }

  /** `take_completion`: what the owner gets back, and the emptied URB. */
  function Taken(u: Urb, dir: Direction): Completion
    requires dir == In ==> u.actualLength <= |u.data|
  {
    var bytes := if dir == Out then u.data else u.data[..u.actualLength];
    Completion(Buffer(bytes, AsU32(u.bufferLength), u.capacity), u.actualLength, u.status)
  }

  function Emptied(u: Urb): Urb {
    Urb([], 0, 0, 0, u.status)
  }

  /** What survives the trip: the capacity; for OUT also the bytes, while the requested length
      becomes their number; for IN the requested length, so that the buffer can be used again. */
  predicate Returns(dir: Direction, b: Buffer, c: Completion) {
    && c.buffer.capacity == b.capacity
    && Wf(c.buffer)
    && match dir
       case Out => c.buffer.bytes == b.bytes && c.buffer.requestedLen == |b.bytes| && c.actualLen <= |b.bytes|
       case In => c.buffer.requestedLen == b.requestedLen && c.actualLen == |c.buffer.bytes| <= b.requestedLen
  }

  /** How a submitted transfer ended: the kernel completed it with what it received, or it never got
      to the kernel. */
  datatype Outcome = Received(data: Bytes, status: Status) | NotSubmitted(error: TransferError)

  function Settle(u: Urb, dir: Direction, o: Outcome): (r: Urb)
    ensures dir == In ==> r.actualLength <= |r.data|
  {
    match o
    case Received(data, status) => Transferred(u, dir, data, status)
    case NotSubmitted(error) => Refused(u, error)
  }

  /** The completion that a buffer comes back in, given how its transfer ended. */
  function Finished(dir: Direction, b: Buffer, o: Outcome): Completion
    requires Wf(b)
  {
    Taken(Settle(Load(EMPTY_URB, dir, b), dir, o), dir)
  }

  /** Nothing of an earlier use of the URB shows. */
  lemma TripForgetsUrb(u: Urb, dir: Direction, b: Buffer, o: Outcome)
    requires Wf(b) && u.(status := Ok(())) == Load(EMPTY_URB, dir, b).(status := Ok(()))
    ensures Taken(Settle(u, dir, o), dir) == Finished(dir, b, o)
  {
  }

  /** The buffer survives the trip, however it ends; the number of bytes transferred comes back with
      it, at most the length the kernel was given; an IN buffer brings what was received for it,
      cut to what it asked for, and a transfer that was not submitted brings nothing. */
  lemma TripReturnsBuffer(dir: Direction, b: Buffer, o: Outcome)
    requires Wf(b)
    ensures Returns(dir, b, Finished(dir, b, o))
    ensures Finished(dir, b, o).status == match o { case Received(_, s) => s case NotSubmitted(e) => Err(e) }
    ensures Finished(dir, b, o).actualLen ==
              match o {
                case Received(data, _) => Min(|data|, if dir == Out then |b.bytes| else b.requestedLen)
                case NotSubmitted(_) => 0
              }
    ensures dir == In ==>
              Finished(dir, b, o).buffer.bytes ==
                match o {
                  case Received(data, _) => if |data| <= b.requestedLen then data else data[..b.requestedLen]
                  case NotSubmitted(_) => []
                }
  {
    var u := Load(EMPTY_URB, dir, b);
    assert AsU32(u.bufferLength) == if dir == Out then |b.bytes| else b.requestedLen;
    match o {
      case Received(data, status) =>
        var v := Transferred(u, dir, data, status);
        assert v.data[..v.actualLength] == v.data || dir == Out;
      case NotSubmitted(_) =>
    }
  }

  /** `TransferData`: the URB fields, overwritten in place. */
  class TransferData {
    const dir: Direction
    var data: Bytes
    var capacity: nat
    var bufferLength: i32
    var actualLength: nat
    var status: Status

    ghost function View(): Urb
      reads this
    {
      Urb(data, capacity, bufferLength, actualLength, status)
    }

    constructor (dir: Direction)
      ensures this.dir == dir && View() == EMPTY_URB
    {
      this.dir := dir;
      data, capacity, bufferLength, actualLength, status := [], 0, 0, 0, Ok(());
    }

    method SetBuffer(b: Buffer)
      requires capacity == 0 && Wf(b)
      modifies this
      ensures View() == Load(old(View()), dir, b)
    {
      capacity, data := b.capacity, b.bytes;
      actualLength := 0;
      bufferLength := AsI32(match dir { case Out => |b.bytes| case In => b.requestedLen });
    }

    method TakeCompletion() returns (c: Completion)
      requires dir == In ==> actualLength <= |data|
      modifies this
      ensures c == Taken(old(View()), dir) && View() == Emptied(old(View()))
    {
      var requestedLen := AsU32(bufferLength);
      var bytes := match dir { case Out => data case In => data[..actualLength] };
      c := Completion(Buffer(bytes, requestedLen, capacity), actualLength, status);
      data, capacity, bufferLength, actualLength := [], 0, 0, 0;
    }
  }
}
