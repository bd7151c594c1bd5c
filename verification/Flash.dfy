/**
 * The variable store's flash chip: the device as its users see it, and the boot ROM's
 * command handler with its read and write states.
 */
module Flash {
  import opened Bytes

  const BLOCK_SIZE: nat := 0x4_0000
  /** Write machine ready, reported in both halves of the status word. */
  const READY: nat := 0x80_0080

  datatype View = Array | Status | Id

  /** What the chip is waiting for; while it waits, reads see the status. */
  datatype Mode =
    | Idle(view: View)
    | AwaitByte
    | AwaitCount
    | Buffered(left: nat)
    | AwaitErase
    | AwaitLock

  /** visible: the guest reads the array directly, without trapping. */
  datatype Device = Device(mem: seq<byte>, mode: Mode, visible: bool, attached: bool)

  function ViewOf(m: Mode): View { if m.Idle? then m.view else Status }

  function Ones(n: nat): (bs: seq<byte>)
    ensures |bs| == n && forall i :: 0 <= i < n ==> bs[i] == 0xff
  {
    seq(n, i => 0xff)
  }

  function EraseLength(size: nat, at: nat): nat
    requires at <= size
  {
    if BLOCK_SIZE < size - at then BLOCK_SIZE else size - at
  }

  // ---- the device

  /** The mode a command leads to; commands the chip does not know change nothing. */
  function Command(v: View, cmd: byte): Mode {
    if cmd == 0x70 then Idle(Status)
    else if cmd == 0x90 then Idle(Id)
    else if cmd == 0xff || cmd == 0xf0 then Idle(Array)
    else if cmd == 0x10 || cmd == 0x40 then AwaitByte
    else if cmd == 0x20 then AwaitErase
    else if cmd == 0xe8 then AwaitCount
    else if cmd == 0x60 then AwaitLock
    else Idle(v)
  }

  /** Direct reads are asked for by the two read-array commands and turned off by the other known ones. */
  function Wanted(visible: bool, cmd: byte): bool {
    if cmd == 0xff || cmd == 0xf0 then true
    else if cmd in {0x70, 0x90, 0x50, 0x10, 0x40, 0x20, 0xe8, 0x60} then false
    else visible
  }

  /** Asking the host to show or hide the array works only when ok. */
  function Shown(d: Device, want: bool, ok: bool): bool {
    if d.attached && ok then want else d.visible
  }

  /** A guest write; None when the virtual machine stops on it. */
  function Written(d: Device, at: nat, val: nat, size: nat, ok: bool): (r: Option<Device>)
    requires size > 0 && at + size <= |d.mem|
    ensures r.Some? ==> |r.value.mem| == |d.mem| && r.value.attached == d.attached
  {
    match d.mode
    case Idle(v) =>
      var cmd := val % 256;
      if cmd == 0 then None
      else Some(d.(mode := Command(v, cmd), visible := Shown(d, Wanted(d.visible, cmd), ok)))
    case AwaitByte => Some(d.(mem := Over(d.mem, at, Le(val, size)), mode := Idle(Status)))
    case AwaitCount => Some(d.(mode := Buffered(val % 0x1_0000 + 1)))
    case Buffered(left) =>
      if size != 4 then None
      else
        Some(d.(mem := Over(d.mem, at, Le(val, 4)), mode := if left <= 1 then Idle(Status) else Buffered(left - 1)))
    case AwaitErase => Some(d.(mem := Over(d.mem, at, Ones(EraseLength(|d.mem|, at))), mode := Idle(Status)))
    case AwaitLock => Some(d.(mode := Idle(Status)))
  }

  /** What a trapped read gives. */
  function ReadValue(d: Device, at: nat, size: nat): nat
    requires at + size <= |d.mem|
  {
    match ViewOf(d.mode)
    case Array => LeDec(d.mem[at..at + size])
    case Status => READY
    case Id => 0
  }

  function Restarted(d: Device, ok: bool): Device {
    d.(mode := Idle(Array), visible := Shown(d, d.mem != [], ok))
  }

  /** The direct read path may be open only while trapped reads would see the array too. */
  ghost predicate Coherent(d: Device) {
    (d.visible ==> d.mode == Idle(Array)) && (d.mode.Buffered? ==> d.mode.left >= 1)
  }

  // ---- the handler

  datatype WriteState = WIdle | WByte | WProgLen | WEraseConfirm | WConfirm | WLockConfirm

  class VarStore {
    const mem: array<byte>
    const gpa: nat
    const attached: bool
    var status: nat
    var readState: View
    var writeState: WriteState
    var progLen: nat
    var visible: bool

    ghost predicate Valid()
      reads this
    {
      status == READY && gpa < U64 && mem.Length < U64 / 2 && (mem.Length == 0 ==> !visible) &&
      (writeState != WIdle ==> readState == Status) &&
      (writeState == WConfirm ==> progLen >= 1)
    }

    ghost function Mode(): Mode
      reads this
    {
      match writeState
      case WIdle => Idle(readState)
      case WByte => AwaitByte
      case WProgLen => AwaitCount
      case WEraseConfirm => AwaitErase
      case WConfirm => Buffered(progLen)
      case WLockConfirm => AwaitLock
    }

    ghost function Chip(): Device
      reads this, mem
    {
      Device(mem[..], Mode(), visible, attached)
    }

    method SetVisible(want: bool, ok: bool)
      modifies `visible
      ensures visible == if mem.Length > 0 then Shown(old(Chip()), want, ok) else old(visible)
    {
      if !attached || mem.Length == 0 || visible == want { return; }
      if !ok { return; }
      visible := want;
    }

    method Reset(ok: bool)
      requires Valid()
      modifies this
      ensures Valid() && Chip() == Restarted(old(Chip()), ok)
    {
      status, readState, writeState, progLen := READY, Array, WIdle, 0;
      SetVisible(true, ok);
    }

    method Read(offset: nat, size: nat) returns (val: nat)
      requires Valid() && offset + size <= mem.Length
      ensures val == ReadValue(Chip(), offset, size)
    {
      val := 0;
      match readState {
        case Array => val := LeDec(mem[offset..offset + size]);
        case Status => val := status;
        case Id =>
      }
    }

    method Store(offset: nat, bs: seq<byte>)
      requires offset + |bs| <= mem.Length
      modifies mem
      ensures mem[..] == Over(old(mem[..]), offset, bs)
    {
      forall k | 0 <= k < |bs| { mem[offset + k] := bs[k]; }
    }

    /** The write handler does what the device does. */
    method Write(offset: nat, val: nat, size: nat, ok: bool) returns (alive: bool)
      requires Valid() && 0 < size && offset + size <= mem.Length
      modifies this, mem
      ensures alive <==> Written(old(Chip()), offset, val, size, ok).Some?
      ensures alive ==> Valid() && Chip() == Written(old(Chip()), offset, val, size, ok).value
    {
      var cmd := val % 256;
      match writeState {
        case WByte =>
          Store(offset, Le(val, size));
          status, writeState, readState := READY, WIdle, Status;
          return true;
        case WProgLen =>
          progLen := val % 0x1_0000 + 1;
          writeState, readState := WConfirm, Status;
          return true;
        case WEraseConfirm =>
          Store(offset, Ones(EraseLength(mem.Length, offset)));
          status, writeState, readState := READY, WIdle, Status;
          return true;
        case WConfirm =>
          // The handler's branch for no words left is never taken: there is always one.
          if progLen == 0 { assert false; }
          if size != 4 { return false; }
          Store(offset, Le(val, size));
          progLen := progLen - 1;
          if progLen == 0 { writeState, readState := WIdle, Status; }
          return true;
        case WLockConfirm =>
          status, writeState, readState := READY, WIdle, Status;
          return true;
        case WIdle =>
      }
      alive := Execute(cmd, ok);
    }

    /** The second switch: a command byte. */
    method Execute(cmd: byte, ok: bool) returns (alive: bool)
      requires Valid() && writeState == WIdle && mem.Length > 0
      modifies this
      ensures alive == (cmd != 0)
      ensures alive ==> Valid() && Mode() == Command(old(readState), cmd)
      ensures alive ==> visible == Shown(old(Chip()), Wanted(old(visible), cmd), ok)
    {
      if cmd == 0x70 {
        SetVisible(false, ok);
        readState := Status;
      } else if cmd == 0x90 {
        SetVisible(false, ok);
        readState := Id;
      } else if cmd == 0x50 {
        SetVisible(false, ok);
        status := READY;
      } else if cmd == 0x10 || cmd == 0x40 {
        SetVisible(false, ok);
        writeState, readState := WByte, Status;
      } else if cmd == 0x20 {
        SetVisible(false, ok);
        status, writeState, readState := READY, WEraseConfirm, Status;
      } else if cmd == 0xd0 {
      } else if cmd == 0xe8 {
        SetVisible(false, ok);
        status, writeState, readState := READY, WProgLen, Status;
      } else if cmd == 0x60 {
        SetVisible(false, ok);
        status, writeState, readState := READY, WLockConfirm, Status;
      } else if cmd == 0xff || cmd == 0xf0 {
        readState := Array;
        SetVisible(true, ok);
      } else if cmd == 0 {
        return false;
      }
      alive := true;
    }

    /** After the store's file is mapped and its slot set up. */
    constructor (file: array<byte>, at: nat)
      requires at < U64 && 0 < file.Length < U64 / 2
      ensures Valid() && mem == file && gpa == at && Chip() == Device(file[..], Idle(Array), true, true)
    {
      mem, gpa, attached := file, at, true;
      status, readState, writeState, progLen, visible := READY, Array, WIdle, 0, true;
    }

    /** The access handler: the offset is the address difference as a signed 64-bit number. */
    method Handle(write: bool, addr: nat, size: int, val: nat, ok: bool)
      returns (error: bool, alive: bool, result: seq<byte>)
      requires Valid() && addr < U64 && size <= 8 && val < U64
      modifies this, mem
      ensures error <==> !InStore(addr, gpa, size, mem.Length)
      ensures error ==> alive && Valid() && Chip() == old(Chip())
      ensures !error && write ==>
        var r := Written(old(Chip()), (addr - gpa) % U64, val, size, ok);
        (alive <==> r.Some?) && (alive ==> Valid() && Chip() == r.value)
      ensures !error && !write ==> alive && Valid() && Chip() == old(Chip())
      ensures !error && !write ==> result == Le(ReadValue(old(Chip()), (addr - gpa) % U64, size), size)
    {
      error, alive, result := false, true, [];
      var d := (addr - gpa) % U64;
      var offset := if d < U64 / 2 then d else d - U64;
      if offset + size > mem.Length || offset < 0 || offset + size <= offset {
        return true, true, [];
      }
      if write {
        alive := Write(offset, val, size, ok);
      } else {
        var v := Read(offset, size);
        result := Le(v, size);
      }
    }
  }

  /** The access lies in the store, addresses taken modulo 2^64. */
  predicate InStore(addr: nat, gpa: nat, size: int, length: nat) {
    size > 0 && (addr - gpa) % U64 + size <= length
  }

  // ---- runs

  datatype Access =
    | Load(at: nat, size: nat)
    | Save(at: nat, val: nat, size: nat, ok: bool)
    | Reboot(ok: bool)

  predicate InRange(a: Access, length: nat) {
    match a
    case Load(at, size) => at + size <= length
    case Save(at, _, size, _) => size > 0 && at + size <= length
    case Reboot(_) => true
  }

  function Step(d: Device, a: Access): (r: Option<Device>)
    requires InRange(a, |d.mem|)
    ensures r.Some? ==> |r.value.mem| == |d.mem|
  {
    match a
    case Load(_, _) => Some(d)
    case Save(at, val, size, ok) => Written(d, at, val, size, ok)
    case Reboot(ok) => Some(Restarted(d, ok))
  }

  predicate AllInRange(run: seq<Access>, length: nat) {
    forall a :: a in run ==> InRange(a, length)
  }

  function Run(d: Device, run: seq<Access>): (r: Option<Device>)
    requires AllInRange(run, |d.mem|)
    ensures r.Some? ==> |r.value.mem| == |d.mem|
    decreases |run|
  {
    if run == [] then Some(d)
    else
      var next := Step(d, run[0]);
      if next.None? then None else Run(next.value, run[1..])
  }

  /** The access asks for direct reads to be turned off and the host refuses. */
  predicate HideFails(d: Device, a: Access) {
    d.visible && d.attached && a.Save? && !a.ok && d.mode.Idle? && Command(Array, a.val % 256) != Idle(Array)
  }

  /** One access keeps the direct path honest exactly when it is not a refused hide. */
  lemma {:induction false} StepCoherent(d: Device, a: Access)
    requires InRange(a, |d.mem|) && Coherent(d) && d.attached && Step(d, a).Some?
    ensures Coherent(Step(d, a).value) <==> !HideFails(d, a)
  {
  }

  ghost predicate NoHideFails(d: Device, run: seq<Access>)
    requires AllInRange(run, |d.mem|)
    decreases |run|
  {
    run != [] && Step(d, run[0]).Some? ==>
      !HideFails(d, run[0]) && NoHideFails(Step(d, run[0]).value, run[1..])
  }

  /** The direct path is honest at the start and after every access of the run. */
  ghost predicate StaysCoherent(d: Device, run: seq<Access>)
    requires AllInRange(run, |d.mem|)
    decreases |run|
  {
    Coherent(d) && (run != [] && Step(d, run[0]).Some? ==> StaysCoherent(Step(d, run[0]).value, run[1..]))
  }

  /** It stays so exactly when no hide is refused on the way. */
  lemma {:induction false} RunCoherent(d: Device, run: seq<Access>)
    requires AllInRange(run, |d.mem|) && Coherent(d) && d.attached
    ensures StaysCoherent(d, run) <==> NoHideFails(d, run)
    ensures NoHideFails(d, run) && Run(d, run).Some? ==> Coherent(Run(d, run).value)
    decreases |run|
  {
    if run != [] && Step(d, run[0]).Some? {
      StepCoherent(d, run[0]);
      if !HideFails(d, run[0]) { RunCoherent(Step(d, run[0]).value, run[1..]); }
    }
  }

  /** After any run from power-up, a direct read gives what a trapped read would. */
  lemma {:induction false} DirectReads(file: seq<byte>, run: seq<Access>, at: nat, size: nat)
    requires AllInRange(run, |file|) && at + size <= |file|
    requires NoHideFails(Device(file, Idle(Array), true, true), run)
    ensures var r := Run(Device(file, Idle(Array), true, true), run);
      r.Some? && r.value.visible ==> ReadValue(r.value, at, size) == LeDec(r.value.mem[at..at + size])
  {
    RunCoherent(Device(file, Idle(Array), true, true), run);
  }

  /** A refused hide really opens a gap: the guest would read the array where the status is due. */
  lemma {:induction false} RefusedHide()
    ensures var d := Device([7], Idle(Array), true, true);
      var r := Run(d, [Save(0, 0x70, 1, false)]);
      r.Some? && r.value.visible && ReadValue(r.value, 0, 1) != LeDec(r.value.mem[0..1])
  {
    var d := Device([7], Idle(Array), true, true);
    var e := d.(mode := Idle(Status));
    assert Step(d, Save(0, 0x70, 1, false)) == Some(e);
    assert LeDec([7]) == 7 + 256 * LeDec([]);
    assert e.mem[0..1] == [7];
  }

  // ---- commands

  /** What an idle chip shows after a command: nothing but the view changes, and some commands do not change that. */
  lemma {:induction false} CommandShows(d: Device, a: Access, at: nat, size: nat)
    requires d.mode.Idle? && a.Save? && InRange(a, |d.mem|) && at + size <= |d.mem|
    ensures Step(d, a).None? <==> a.val % 256 == 0
    ensures Step(d, a).Some? ==>
      var e, cmd := Step(d, a).value, a.val % 256;
      && e.mem == d.mem && e.attached == d.attached
      && (cmd == 0xff || cmd == 0xf0 ==> e.mode.Idle? && ReadValue(e, at, size) == LeDec(d.mem[at..at + size]))
      && (cmd == 0x70 ==> e.mode.Idle? && ReadValue(e, at, size) == 0x80_0080)
      && (cmd == 0x90 ==> e.mode.Idle? && ReadValue(e, at, size) == 0)
      && (cmd in {0x10, 0x20, 0x40, 0x60, 0xe8} ==> !e.mode.Idle? && ReadValue(e, at, size) == 0x80_0080)
      && (cmd !in {0x10, 0x20, 0x40, 0x60, 0x70, 0x90, 0xe8, 0xf0, 0xff} ==> e.mode == d.mode)
  {
    hide LeDec;
  }

  /** A chip that is done: idle, showing the status. */
  predicate Done(d: Device) { d.mode == Idle(Status) }

  /** The erase command and any write after it set the block from there on to ones, and nothing else. */
  lemma {:induction false} EraseBlock(d: Device, setup: Access, confirm: Access)
    requires d.mode.Idle? && setup.Save? && confirm.Save? && setup.val % 256 == 0x20
    requires InRange(setup, |d.mem|) && InRange(confirm, |d.mem|)
    ensures AllInRange([setup, confirm], |d.mem|)
    ensures var r := Run(d, [setup, confirm]);
      && r.Some? && Done(r.value)
      && forall i :: 0 <= i < |d.mem| ==>
           r.value.mem[i] == if confirm.at <= i < confirm.at + 0x4_0000 then 0xff else d.mem[i]
  {
    var run := [setup, confirm];
    var e := Step(d, setup).value;
    assert e.mode == AwaitErase && e.mem == d.mem;
    assert run[1..] == [confirm] && [confirm][1..] == [];
    assert Run(d, run) == Run(e, [confirm]);
    assert Run(e, [confirm]) == Step(e, confirm);
    ErasedBytes(d.mem, confirm.at);
  }

  lemma {:induction false} ErasedBytes(mem: seq<byte>, at: nat)
    requires at < |mem|
    ensures var r := Over(mem, at, Ones(EraseLength(|mem|, at)));
      forall i :: 0 <= i < |mem| ==> r[i] == if at <= i < at + 0x4_0000 then 0xff else mem[i]
  {
  }

  /** A program command and a value: its low bytes are stored there, and nothing else changes. */
  lemma {:induction false} ProgramOne(d: Device, setup: Access, data: Access)
    requires d.mode.Idle? && setup.Save? && data.Save? && setup.val % 256 in {0x10, 0x40}
    requires InRange(setup, |d.mem|) && InRange(data, |d.mem|)
    ensures AllInRange([setup, data], |d.mem|)
    ensures var r := Run(d, [setup, data]);
      && r.Some? && Done(r.value)
      && LeDec(r.value.mem[data.at..data.at + data.size]) == data.val % Span(data.size)
      && forall i :: 0 <= i < |d.mem| && !(data.at <= i < data.at + data.size) ==> r.value.mem[i] == d.mem[i]
  {
    hide LeDec, Le, Span;
    var run := [setup, data];
    var e := Step(d, setup).value;
    assert e.mode == AwaitByte && e.mem == d.mem;
    assert run[1..] == [data] && [data][1..] == [];
    assert Run(d, run) == Run(e, [data]);
    assert Run(e, [data]) == Step(e, data);
    OverSlices(d.mem, data.at, Le(data.val, data.size), data.at, data.at);
    LeRoundTrip(data.val, data.size);
  }

  /** Locking and unlocking change nothing but end with the status shown. */
  lemma {:induction false} LockBlock(d: Device, setup: Access, what: Access)
    requires d.mode.Idle? && setup.Save? && what.Save? && setup.val % 256 == 0x60
    requires InRange(setup, |d.mem|) && InRange(what, |d.mem|)
    ensures AllInRange([setup, what], |d.mem|)
    ensures var r := Run(d, [setup, what]); r.Some? && Done(r.value) && r.value.mem == d.mem
  {
    var run := [setup, what];
    var e := Step(d, setup).value;
    assert run[1..] == [what] && [what][1..] == [];
    assert Run(d, run) == Run(e, [what]);
    assert Run(e, [what]) == Step(e, what);
  }

  /** A reset ends whatever was going on; the array is kept and shown. */
  lemma {:induction false} RebootShows(d: Device, ok: bool, at: nat, size: nat)
    requires at + size <= |d.mem|
    ensures var r := Step(d, Reboot(ok));
      r.Some? && r.value.mem == d.mem && r.value.mode.Idle? &&
      ReadValue(r.value, at, size) == LeDec(d.mem[at..at + size]) &&
      (d.attached && ok && d.mem != [] ==> r.value.visible)
  {
    hide LeDec;
  }

  // ---- programming

  /** A word write: where, and the four-byte value. */
  datatype Word = Word(at: nat, val: nat, ok: bool)

  function Saves(ws: seq<Word>): (run: seq<Access>)
    ensures |run| == |ws|
    ensures forall i :: 0 <= i < |ws| ==> run[i] == Save(ws[i].at, ws[i].val, 4, ws[i].ok)
  {
    seq(|ws|, i requires 0 <= i < |ws| => Save(ws[i].at, ws[i].val, 4, ws[i].ok))
  }

  predicate WordsFit(ws: seq<Word>, length: nat) {
    forall i :: 0 <= i < |ws| ==> ws[i].at + 4 <= length
  }

  function PutAll(mem: seq<byte>, ws: seq<Word>): (r: seq<byte>)
    requires WordsFit(ws, |mem|)
    ensures |r| == |mem|
    decreases |ws|
  {
    if ws == [] then mem else PutAll(Over(mem, ws[0].at, Le(ws[0].val, 4)), ws[1..])
  }

  lemma {:induction false} ProgramWords(d: Device, ws: seq<Word>)
    requires WordsFit(ws, |d.mem|) && d.mode.Buffered? && 0 < |ws| <= d.mode.left
    ensures AllInRange(Saves(ws), |d.mem|)
    ensures Run(d, Saves(ws)) ==
      Some(d.(mem := PutAll(d.mem, ws), mode := if |ws| == d.mode.left then Idle(Status) else Buffered(d.mode.left - |ws|)))
    decreases |ws|
  {
    var e := Step(d, Saves(ws)[0]).value;
    assert Saves(ws)[1..] == Saves(ws[1..]);
    if |ws| > 1 {
      ProgramWords(e, ws[1..]);
    }
  }

  /**
   * Setup, a count of n, then words.  Whatever their values, the first n words leave the chip
   * busy and the next one makes it idle; the array holds exactly the words written.
   */
  lemma {:induction false} ProgramBuffer(d: Device, setup: Access, count: Access, ws: seq<Word>)
    requires d.mode.Idle? && setup.Save? && count.Save? && setup.val % 256 == 0xe8
    requires InRange(setup, |d.mem|) && InRange(count, |d.mem|) && WordsFit(ws, |d.mem|)
    requires 0 < |ws| <= count.val % 0x1_0000 + 1
    ensures AllInRange([setup, count] + Saves(ws), |d.mem|)
    ensures var n := count.val % 0x1_0000;
      Run(d, [setup, count] + Saves(ws)) ==
      Some(Device(PutAll(d.mem, ws), if |ws| == n + 1 then Idle(Status) else Buffered(n + 1 - |ws|), Shown(d, false, setup.ok), d.attached))
  {
    var run := [setup, count] + Saves(ws);
    var e := Step(d, setup).value;
    var f := Step(e, count).value;
    ProgramWords(f, ws);
    assert run[1..] == [count] + Saves(ws);
    assert run[1..][1..] == Saves(ws);
    assert Run(e, run[1..]) == Run(f, Saves(ws));
  }

  predicate Apart(v: Word, w: Word) { v.at + 4 <= w.at || w.at + 4 <= v.at }

  /** Bytes no word covers keep their value. */
  lemma {:induction false} PutAllFrame(mem: seq<byte>, ws: seq<Word>, i: nat)
    requires WordsFit(ws, |mem|) && i < |mem|
    requires forall k :: 0 <= k < |ws| ==> i < ws[k].at || ws[k].at + 4 <= i
    ensures PutAll(mem, ws)[i] == mem[i]
    decreases |ws|
  {
    if ws != [] {
      PutAllFrame(Over(mem, ws[0].at, Le(ws[0].val, 4)), ws[1..], i);
    }
  }

  /** A word that no later word overlaps is there after programming. */
  lemma {:induction false} PutAllHas(mem: seq<byte>, ws: seq<Word>, j: nat)
    requires WordsFit(ws, |mem|) && j < |ws|
    requires forall k :: j < k < |ws| ==> Apart(ws[j], ws[k])
    ensures PutAll(mem, ws)[ws[j].at..ws[j].at + 4] == Le(ws[j].val, 4)
    decreases |ws|
  {
    var next := Over(mem, ws[0].at, Le(ws[0].val, 4));
    if j > 0 {
      PutAllHas(next, ws[1..], j - 1);
    } else {
      var a := ws[0].at;
      forall i | a <= i < a + 4 ensures PutAll(mem, ws)[i] == next[i] {
        PutAllFrame(next, ws[1..], i);
      }
      assert PutAll(mem, ws)[a..a + 4] == next[a..a + 4];
    }
  }

  /** Program a full buffer, go back to reading the array: every word reads back. */
  lemma {:induction false} ProgramReadBack(d: Device, setup: Access, count: Access, ws: seq<Word>, back: Access, j: nat)
    requires d.mode.Idle? && setup.Save? && count.Save? && setup.val % 256 == 0xe8
    requires InRange(setup, |d.mem|) && InRange(count, |d.mem|) && WordsFit(ws, |d.mem|)
    requires |ws| == count.val % 0x1_0000 + 1 && j < |ws| && ws[j].val < U32
    requires forall k :: j < k < |ws| ==> Apart(ws[j], ws[k])
    requires back.Save? && InRange(back, |d.mem|) && back.val % 256 == 0xff
    ensures AllInRange([setup, count] + Saves(ws), |d.mem|)
    ensures var r := Run(d, [setup, count] + Saves(ws));
      r.Some? && Step(r.value, back).Some? && ReadValue(Step(r.value, back).value, ws[j].at, 4) == ws[j].val
  {
    hide Run, PutAll, Over, Le, LeDec, Saves;
    ProgramBuffer(d, setup, count, ws);
    PutAllHas(d.mem, ws, j);
    SpanValues();
    LeRoundTrip(ws[j].val, 4);
  }
}
