/** The self-contained parts of the system-call layer: the `fibonacci` and
    `sum_of_four_int` calls, the per-thread file-descriptor table kept by
    `open`, `close` and `exit`, and the way `read` and `write` classify a
    descriptor. The file system, the console and the keyboard are outside
    the model: what they return is a parameter. */
module Syscall {
  import opened CInt

  // ---------------------------------------------------------------------
  // fibonacci

  /** The Fibonacci numbers, the reference the system call is checked
      against: `Fib(0) = 0`, `Fib(1) = 1`. */
  function Fib(n: nat): (f: nat)
  {
    if n < 2 then n else Fib(n - 1) + Fib(n - 2)
  }

  /** `k` steps of the pair update `(a, b) := (b, a + b)`, the update the
      loop of `fibonacci` performs on `n1` and `n2`. */
  function FibSteps(k: nat, a: nat, b: nat): (r: nat)
  {
    if k == 0 then a else FibSteps(k - 1, b, a + b)
  }

  /** Starting the pair update from two consecutive Fibonacci numbers walks
      along the sequence. */
  lemma {:induction false} FibStepsIsFib(k: nat, i: nat, a: nat, b: nat)
    requires a == Fib(i) && b == Fib(i + 1)
    ensures FibSteps(k, a, b) == Fib(i + k)
  {
    if k > 0 {
      FibStepsIsFib(k - 1, i + 1, b, a + b);
    }
  }

  lemma {:induction false} FibMonotone(i: nat, j: nat)
    requires i <= j
    ensures Fib(i) <= Fib(j)
    decreases j
  {
    if i < j {
      FibMonotone(i, j - 1);
    }
  }

  /** The pair update run from `(0, 1)`, ten steps at a time. */
  lemma FibStepsFrom0To47()
    ensures FibSteps(46, 0, 1) == 1836311903
    ensures FibSteps(47, 0, 1) == 2971215073
  {
    assert FibSteps(46, 0, 1) == FibSteps(36, 55, 89);
    assert FibSteps(36, 55, 89) == FibSteps(26, 6765, 10946);
    assert FibSteps(26, 6765, 10946) == FibSteps(16, 832040, 1346269);
    assert FibSteps(16, 832040, 1346269) == FibSteps(6, 102334155, 165580141);
    assert FibSteps(47, 0, 1) == FibSteps(37, 55, 89);
    assert FibSteps(37, 55, 89) == FibSteps(27, 6765, 10946);
    assert FibSteps(27, 6765, 10946) == FibSteps(17, 832040, 1346269);
    assert FibSteps(17, 832040, 1346269) == FibSteps(7, 102334155, 165580141);
  }

  /** `Fib(46)` is the largest Fibonacci number that fits in an `int`:
      the call is free of overflow exactly for `n <= 46`. */
  lemma LargestInt32Fib()
    ensures Fib(46) == 1836311903 <= INT32_MAX
    ensures Fib(47) == 2971215073 > INT32_MAX
  {
    FibStepsFrom0To47();
    FibStepsIsFib(46, 0, 0, 1);
    FibStepsIsFib(47, 0, 0, 1);
  }

  lemma FibFitsInt32(n: nat)
    requires n <= 46
    ensures Fib(n) <= INT32_MAX
  {
    FibMonotone(n, 46);
    LargestInt32Fib();
  }

  /** `fibonacci(n)`: 0 for `n = 0`, 1 for every other `n < 3` (negative
      ones included), and `Fib(n)` from there on. The loop's sums stay in
      `int` range exactly when `n <= 46`. */
  method Fibonacci(n: int) returns (result: int)
    requires n <= 46
    ensures IsInt32(result)
    ensures n == 0 ==> result == 0
    ensures n < 0 ==> result == 1
    ensures n > 0 ==> result == Fib(n)
  {
    var n1, n2, n3 := 1, 1, 0;
    if n == 0 {
      result := 0;
    } else if n < 3 {
      result := 1;
    } else {
      var i := 2;
      while i < n
        invariant 2 <= i <= n
        invariant n1 == Fib(i - 1) && n2 == Fib(i)
        invariant i > 2 ==> n3 == Fib(i)
      {
        FibFitsInt32(i + 1);
        n3 := n2 + n1;
        n1 := n2;
        n2 := n3;
        i := i + 1;
      }
      result := n3;
      FibFitsInt32(n);
    }
  }

  // ---------------------------------------------------------------------
  // sum_of_four_int

  /** `a + b + c + d`, evaluated left to right in `int`: every partial sum
      must fit. */
  function SumOfFourInt(a: int, b: int, c: int, d: int): (r: int)
    requires IsInt32(a) && IsInt32(b) && IsInt32(c) && IsInt32(d)
    requires IsInt32(a + b) && IsInt32(a + b + c) && IsInt32(a + b + c + d)
    ensures IsInt32(r)
  {
    a + b + c + d
  }

  /** Four arguments below `2^29` in magnitude never overflow, and the
      result is their sum in any order. */
  lemma SumOfFourSmallInts(a: int, b: int, c: int, d: int)
    requires Abs(a) < 0x2000_0000 && Abs(b) < 0x2000_0000
    requires Abs(c) < 0x2000_0000 && Abs(d) < 0x2000_0000
    ensures IsInt32(a + b) && IsInt32(a + b + c) && IsInt32(a + b + c + d)
    ensures IsInt32(d + c) && IsInt32(d + c + b) && IsInt32(d + c + b + a)
    ensures SumOfFourInt(a, b, c, d) == SumOfFourInt(d, c, b, a) == a + b + c + d
  {
  }

  // ---------------------------------------------------------------------
  // read and write: where a descriptor leads

  /** The number of slots of a thread's descriptor table. */
  const FD_SLOTS: int := 128

  /** What a descriptor passed to `read` or `write` refers to: the console
      (the keyboard for `read`, the screen for `write`), a slot of the
      descriptor table, or nothing, in which case the call returns -1. */
  datatype Target = Console | TableSlot(slot: nat) | BadDescriptor

  /** `read`: descriptor 0 is the keyboard, 3 to 127 are table slots, and
      every other descriptor, 1 and 2 included, fails. */
  function ReadTarget(fd: int): (t: Target)
    ensures t == Console <==> fd == 0
    ensures t.TableSlot? <==> 3 <= fd < FD_SLOTS
    ensures t.TableSlot? ==> t.slot == fd
  {
    if fd == 0 then Console
    else if 3 <= fd < FD_SLOTS then TableSlot(fd)
    else BadDescriptor
  }

  /** `write`: descriptor 1 is the screen, 3 to 127 are table slots, and
      every other descriptor, 0 and 2 included, fails. */
  function WriteTarget(fd: int): (t: Target)
    ensures t == Console <==> fd == 1
    ensures t.TableSlot? <==> 3 <= fd < FD_SLOTS
    ensures t.TableSlot? ==> t.slot == fd
  {
    if fd == 1 then Console
    else if fd < 3 || fd >= FD_SLOTS then BadDescriptor
    else TableSlot(fd)
  }

  /** `read` and `write` agree on which descriptors are table slots; they
      differ only on the console, and no descriptor is the console for both. */
  lemma ReadAndWriteTargets(fd: int)
    ensures ReadTarget(fd).TableSlot? <==> WriteTarget(fd).TableSlot?
    ensures ReadTarget(fd).TableSlot? ==> ReadTarget(fd) == WriteTarget(fd)
    ensures !(ReadTarget(fd) == Console && WriteTarget(fd) == Console)
    ensures ReadTarget(fd) != WriteTarget(fd) <==> fd == 0 || fd == 1
  {
  }

  // ---------------------------------------------------------------------
  // The descriptor table

  /** A `struct file *`: NULL or an open file, named by an opaque number. */
  datatype FileRef = Null | Handle(file: nat)

  /** A `const char *` file name: NULL or a string. */
  datatype Path = NullPath | Path(name: string)

  /** The table after `exit` has closed every file: slots 0 to 2 are kept,
      every other slot is NULL. */
  function AfterExit(table: seq<FileRef>): (r: seq<FileRef>)
    ensures |r| == |table|
    ensures forall i :: 0 <= i < |r| && i < 3 ==> r[i] == table[i]
    ensures forall i :: 3 <= i < |r| ==> r[i] == Null
  {
    seq(|table|, i requires 0 <= i < |table| => if i < 3 then table[i] else Null)
  }

  /** Closing every file is idempotent: a second `exit` finds nothing left
      to close. */
  lemma AfterExitIdempotent(table: seq<FileRef>)
    ensures AfterExit(AfterExit(table)) == AfterExit(table)
  {
  }

  /** The descriptor-table fields of `struct thread`. */
  class Process {
    /** `fd`, the descriptor table. */
    const fdTable: array<FileRef>
    /** `file_cnt`, the descriptor the next `open` hands out. */
    var fileCnt: int
    /** `exit_status`. */
    var exitStatus: int
    /** Whether `thread_exit` has been called. */
    var exited: bool

    predicate Valid()
      reads this
    {
      fdTable.Length == FD_SLOTS
    }

    /** A thread with an empty table whose first `open` returns `firstFd`. */
    constructor (firstFd: int)
      ensures Valid() && fresh(fdTable)
      ensures forall i :: 0 <= i < fdTable.Length ==> fdTable[i] == Null
      ensures fileCnt == firstFd && !exited
    {
      fdTable := new FileRef[FD_SLOTS](_ => Null);
      fileCnt := firstFd;
      exitStatus := 0;
      exited := false;
    }

    /** `open`, where `handle` is what `filesys_open` returned. A NULL name
        or a failed open gives -1 and changes nothing; otherwise the file is
        stored at slot `file_cnt`, whose old value is the result. `open`
        never checks that `file_cnt` is still a valid slot: the caller must
        ensure it. */
    method Open(name: Path, handle: FileRef) returns (fd: int)
      requires Valid()
      requires name.Path? && handle.Handle? ==> 0 <= fileCnt < FD_SLOTS
      modifies `fileCnt, fdTable
      ensures name.NullPath? || handle.Null? ==>
        fd == -1 && fileCnt == old(fileCnt) && fdTable[..] == old(fdTable[..])
      ensures name.Path? && handle.Handle? ==>
        && fd == old(fileCnt) && fileCnt == old(fileCnt) + 1
        && fdTable[..] == old(fdTable[..])[fd := handle]
    {
      if name.NullPath? {
        return -1;
      }
      if handle.Null? {
        return -1;
      }
      fd := fileCnt;
      fdTable[fd] := handle;
      fileCnt := fileCnt + 1;
    }

    /** `close`: an open slot becomes NULL; closing a NULL slot makes the
        thread exit with status -1. `close` never range-checks `fd`: the
        caller must. */
    method Close(fd: int)
      requires Valid() && 0 <= fd < FD_SLOTS
      modifies `exitStatus, `exited, fdTable
      ensures old(fdTable[fd]).Handle? ==>
        && fdTable[..] == old(fdTable[..])[fd := Null]
        && exitStatus == old(exitStatus) && exited == old(exited)
      ensures old(fdTable[fd]).Null? ==>
        exitStatus == -1 && exited && fdTable[..] == AfterExit(old(fdTable[..]))
      decreases if fdTable[fd].Null? then 2 else 0
    {
      if fdTable[fd].Null? {
        Exit(-1);
      } else {
        fdTable[fd] := Null;
      }
    }

    /** `exit`: the status is recorded, every file in slots 3 to 127 is
        closed, and the thread ends. `file_cnt` is left as it was. */
    method Exit(status: int)
      requires Valid()
      modifies `exitStatus, `exited, fdTable
      ensures exitStatus == status && exited
      ensures fdTable[..] == AfterExit(old(fdTable[..]))
      decreases 1
    {
      exitStatus := status;
      ghost var before := fdTable[..];
      var i := 3;
      while i < FD_SLOTS
        invariant 3 <= i <= FD_SLOTS && exitStatus == status
        invariant forall j :: 0 <= j < 3 ==> fdTable[j] == before[j]
        invariant forall j :: 3 <= j < i ==> fdTable[j] == Null
        invariant forall j :: i <= j < FD_SLOTS ==> fdTable[j] == before[j]
      {
        if fdTable[i].Handle? {
          Close(i);
          fdTable[i] := Null;
        }
        i := i + 1;
      }
      exited := true;
    }

    /** `read`, where `size` is the `unsigned` byte count and `fileResult`
        is what `file_read` returned. Reading the keyboard counts `size`
        characters with an `int` counter, which must not overflow, so `size`
        is at most `INT32_MAX` there and comes back unchanged; a table slot that is NULL makes the thread exit
        with status -1 (the result is then never seen). */
    method Read(fd: int, size: int, fileResult: int) returns (r: int)
      requires Valid() && 0 <= size < UINT32_LIMIT
      requires fd == 0 ==> size <= INT32_MAX
      modifies `exitStatus, `exited, fdTable
      ensures ReadTarget(fd) == Console ==> r == UnsignedToInt(size) == size
      ensures ReadTarget(fd) == BadDescriptor ==> r == -1
      ensures ReadTarget(fd).TableSlot? && old(fdTable[fd]).Handle? ==> r == fileResult
      ensures ReadTarget(fd).TableSlot? && old(fdTable[fd]).Null? ==>
        exitStatus == -1 && exited && fdTable[..] == AfterExit(old(fdTable[..]))
      ensures !(ReadTarget(fd).TableSlot? && old(fdTable[fd]).Null?) ==>
        && fdTable[..] == old(fdTable[..])
        && exitStatus == old(exitStatus) && exited == old(exited)
    {
      r := -1;
      if fd == 0 {
        r := UnsignedToInt(size);
      } else if 3 <= fd < FD_SLOTS {
        if fdTable[fd].Null? {
          Exit(-1);
          return;
        }
        r := fileResult;
      } else {
        return -1;
      }
    }

    /** `write`, where `fileResult` is what `file_write` returned. Writing
        to the screen returns `size` converted to `int`; a table slot that
        is NULL makes the thread exit with status -1. */
    method Write(fd: int, size: int, fileResult: int) returns (r: int)
      requires Valid() && 0 <= size < UINT32_LIMIT
      modifies `exitStatus, `exited, fdTable
      ensures WriteTarget(fd) == Console ==> r == UnsignedToInt(size)
      ensures WriteTarget(fd) == BadDescriptor ==> r == -1
      ensures WriteTarget(fd).TableSlot? && old(fdTable[fd]).Handle? ==> r == fileResult
      ensures WriteTarget(fd).TableSlot? && old(fdTable[fd]).Null? ==>
        exitStatus == -1 && exited && fdTable[..] == AfterExit(old(fdTable[..]))
      ensures !(WriteTarget(fd).TableSlot? && old(fdTable[fd]).Null?) ==>
        && fdTable[..] == old(fdTable[..])
        && exitStatus == old(exitStatus) && exited == old(exited)
    {
      r := -1;
      if fd == 1 {
        r := UnsignedToInt(size);
      } else {
        if fd < 3 || fd >= FD_SLOTS {
          return -1;
        }
        if fdTable[fd].Null? {
          Exit(-1);
          return;
        }
        r := fileResult;
      }
    }
  }
}
