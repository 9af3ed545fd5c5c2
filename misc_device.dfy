/**
 * The misc-device sample: every open of the device gets one i32 cell,
 * starting at 0, that ioctl commands read and write. The lock around the
 * cell makes each ioctl one atomic step, so the model is sequential.
 */
module RustMiscDevice {
  import opened Kernel

  /** Direction bits of an ioctl number (asm-generic layout). */
  const IOC_NONE: nat := 0
  const IOC_WRITE: nat := 1
  const IOC_READ: nat := 2

  /** `_IOC(dir, type, nr, size)`: dir in bits 30-31, size in 16-29, type in 8-15, nr in 0-7. */
  function Ioc(dir: nat, kind: nat, nr: nat, size: nat): (cmd: u32)
    requires dir < 4 && kind < 0x100 && nr < 0x100 && size < 0x4000
  {
    dir * 0x4000_0000 + size * 0x1_0000 + kind * 0x100 + nr
  }

  /** The ioctl type byte of the sample, the character '|'. */
  const MAGIC: nat := '|' as nat

  /** Size of an i32 argument in bytes. */
  const I32_SIZE: nat := 4

  const RUST_MISC_DEV_HELLO: u32 := Ioc(IOC_NONE, MAGIC, 0x80, 0)
  const RUST_MISC_DEV_GET_VALUE: u32 := Ioc(IOC_READ, MAGIC, 0x81, I32_SIZE)
  const RUST_MISC_DEV_SET_VALUE: u32 := Ioc(IOC_WRITE, MAGIC, 0x82, I32_SIZE)

  /**
   * The user memory an ioctl argument points at, as the copies see it:
   * the i32 a read would fetch (`None` if copying from user space faults)
   * and whether a write of an i32 would succeed.
   */
  datatype UserSlice = UserSlice(readable: Option<i32>, writable: bool)

  /** `UserSliceReader::read::<i32>`. */
  function ReadI32(reader: UserSlice): (r: Result<i32>)
    ensures r.Ok? <==> reader.readable.Some?
    ensures r.Ok? ==> r.value == reader.readable.value
    ensures r.Err? ==> r.error == EFAULT
  {
    match reader.readable
    case Some(x) => Ok(x)
    case None => Err(EFAULT)
  }

  /** What one ioctl does: its return value, the new cell value and the i32 copied out to user space. */
  datatype Outcome = Outcome(ret: Result<int>, value: i32, copiedOut: Option<i32>)

  /**
   * The effect of `ioctl(cmd, arg)` on a device whose cell holds `value`:
   * success always returns 0; only a SET_VALUE whose argument reads can
   * change the cell, only GET_VALUE copies anything out, and it copies out
   * the cell; a failed call changes nothing; ENOTTY means an unknown command.
   */
  function Step(value: i32, cmd: u32, arg: UserSlice): (r: Outcome)
    ensures r.ret.Ok? ==> r.ret.value == 0
    ensures r.value != value ==> cmd == RUST_MISC_DEV_SET_VALUE && arg.readable == Some(r.value)
    ensures r.copiedOut.Some? ==> cmd == RUST_MISC_DEV_GET_VALUE && r.copiedOut == Some(value) && r.ret.Ok?
    ensures r.ret.Err? ==> r.value == value && r.copiedOut.None?
    ensures r.ret == Err(ENOTTY) <==>
      cmd !in {RUST_MISC_DEV_HELLO, RUST_MISC_DEV_GET_VALUE, RUST_MISC_DEV_SET_VALUE}
  {
    if cmd == RUST_MISC_DEV_GET_VALUE then
      if arg.writable then Outcome(Ok(0), value, Some(value)) else Outcome(Err(EFAULT), value, None)
    else if cmd == RUST_MISC_DEV_SET_VALUE then
      match ReadI32(arg)
      case Ok(x) => Outcome(Ok(0), x, None)
      case Err(e) => Outcome(Err(e), value, None)
    else if cmd == RUST_MISC_DEV_HELLO then
      Outcome(Ok(0), value, None)
    else
      Outcome(Err(ENOTTY), value, None)
  }

  /** The state behind one open file of the device. */
  class Device {
    var value: i32

    /** `open`: a fresh cell holding 0. */
    constructor Open()
      ensures value == 0
    {
      value := 0;
    }

    /** `set_value`: read an i32 from user space, then store it; a faulting read changes nothing. */
    method SetValue(reader: UserSlice) returns (r: Result<int>)
      modifies this
      ensures r == if reader.readable.Some? then Ok(0) else Err(EFAULT)
      ensures value == if reader.readable.Some? then reader.readable.value else old(value)
    {
      var read := ReadI32(reader);
      if read.Err? {
        return Err(read.error);
      }
      value := read.value;
      r := Ok(0);
    }

    /** `get_value`: copy the cell to user space; the cell is never changed. */
    method GetValue(writer: UserSlice) returns (r: Result<int>, copiedOut: Option<i32>)
      ensures writer.writable ==> r == Ok(0) && copiedOut == Some(value)
      ensures !writer.writable ==> r == Err(EFAULT) && copiedOut == None
    {
      var v := value;
      if !writer.writable {
        return Err(EFAULT), None;
      }
      r, copiedOut := Ok(0), Some(v);
    }

    /** `hello`: only logs, and succeeds. */
    method Hello() returns (r: Result<int>)
      ensures r == Ok(0)
    {
      r := Ok(0);
    }

    /** `ioctl`: dispatch on the command number; unknown commands fail with ENOTTY. */
    method Ioctl(cmd: u32, arg: UserSlice) returns (r: Result<int>, copiedOut: Option<i32>)
      modifies this
      ensures Outcome(r, value, copiedOut) == Step(old(value), cmd, arg)
    {
      copiedOut := None;
      if cmd == RUST_MISC_DEV_GET_VALUE {
        r, copiedOut := GetValue(arg);
      } else if cmd == RUST_MISC_DEV_SET_VALUE {
        r := SetValue(arg);
      } else if cmd == RUST_MISC_DEV_HELLO {
        r := Hello();
      } else {
        return Err(ENOTTY), None;
      }
      if r.Ok? {
        r := Ok(0);
      }
    }
  }

  /** The three command numbers are distinct. */
  lemma CommandsDistinct()
    ensures RUST_MISC_DEV_HELLO != RUST_MISC_DEV_GET_VALUE
    ensures RUST_MISC_DEV_HELLO != RUST_MISC_DEV_SET_VALUE
    ensures RUST_MISC_DEV_GET_VALUE != RUST_MISC_DEV_SET_VALUE
  {
  }

  /** A successful SET_VALUE followed by GET_VALUE hands back the value set. */
  lemma SetThenGet(value: i32, x: i32, setArg: UserSlice, getArg: UserSlice)
    requires setArg.readable == Some(x) && getArg.writable
    ensures var s := Step(value, RUST_MISC_DEV_SET_VALUE, setArg);
      s.ret == Ok(0) &&
      Step(s.value, RUST_MISC_DEV_GET_VALUE, getArg) == Outcome(Ok(0), x, Some(x))
  {
    CommandsDistinct();
  }

  /** Neither a faulting SET_VALUE nor a faulting GET_VALUE changes the cell. */
  lemma FaultsKeepValue(value: i32, arg: UserSlice)
    ensures arg.readable.None? ==> Step(value, RUST_MISC_DEV_SET_VALUE, arg) == Outcome(Err(EFAULT), value, None)
    ensures !arg.writable ==> Step(value, RUST_MISC_DEV_GET_VALUE, arg) == Outcome(Err(EFAULT), value, None)
  {
    CommandsDistinct();
  }

  /** HELLO succeeds and changes nothing; every command but the three fails with ENOTTY and changes nothing. */
  lemma OtherCommands(value: i32, cmd: u32, arg: UserSlice)
    ensures Step(value, RUST_MISC_DEV_HELLO, arg) == Outcome(Ok(0), value, None)
    ensures cmd !in {RUST_MISC_DEV_HELLO, RUST_MISC_DEV_GET_VALUE, RUST_MISC_DEV_SET_VALUE} ==>
      Step(value, cmd, arg) == Outcome(Err(ENOTTY), value, None)
  {
    CommandsDistinct();
  }

  /** One ioctl call of a session. */
  datatype Call = Call(cmd: u32, arg: UserSlice)

  /** The cell after a session of calls, in order. */
  function Run(value: i32, calls: seq<Call>): i32
    decreases calls
  {
    if calls == [] then value else Run(Step(value, calls[0].cmd, calls[0].arg).value, calls[1..])
  }

  /** The i32 delivered by the last successful SET_VALUE of a session, if any. */
  function LastSet(calls: seq<Call>): Option<i32>
  {
    if calls == [] then None
    else
      var c := calls[|calls| - 1];
      if c.cmd == RUST_MISC_DEV_SET_VALUE && c.arg.readable.Some? then c.arg.readable
      else LastSet(calls[..|calls| - 1])
  }

  lemma {:induction false} LastSetCons(calls: seq<Call>)
    requires calls != []
    ensures LastSet(calls) ==
      if LastSet(calls[1..]).Some? then LastSet(calls[1..])
      else if calls[0].cmd == RUST_MISC_DEV_SET_VALUE then calls[0].arg.readable
      else None
  {
    if |calls| > 1 {
      var init := calls[..|calls| - 1];
      LastSetCons(init);
      assert init[1..] == calls[1..][..|calls[1..]| - 1];
    } else {
      assert calls[..0] == [];
    }
  }

  /**
   * Whatever the session, the cell holds the value of its last successful
   * SET_VALUE, or what it held before when there was none.
   */
  lemma {:induction false} RunKeepsLastSet(value: i32, calls: seq<Call>)
    ensures Run(value, calls) == match LastSet(calls) case Some(x) => x case None => value
    decreases calls
  {
    if calls != [] {
      CommandsDistinct();
      RunKeepsLastSet(Step(value, calls[0].cmd, calls[0].arg).value, calls[1..]);
      LastSetCons(calls);
    }
  }

  /**
   * The userspace test program's session: HELLO, read the initial value,
   * write it back plus one, read it again, then try an unknown command.
   */
  method UserspaceSession() returns (initial: Option<i32>, fetched: Option<i32>, failed: Result<int>)
    ensures initial == Some(0) && fetched == Some(1)
    ensures failed == Err(ENOTTY)
  {
    CommandsDistinct();
    var dev := new Device.Open();
    var r, out := dev.Ioctl(RUST_MISC_DEV_HELLO, UserSlice(None, false));
    r, initial := dev.Ioctl(RUST_MISC_DEV_GET_VALUE, UserSlice(None, true));
    r, out := dev.Ioctl(RUST_MISC_DEV_SET_VALUE, UserSlice(Some(initial.value + 1), false));
    r, fetched := dev.Ioctl(RUST_MISC_DEV_GET_VALUE, UserSlice(None, true));
    var fail := Ioc(IOC_NONE, MAGIC, 0, 0);
    failed, out := dev.Ioctl(fail, UserSlice(None, false));
  }
}
