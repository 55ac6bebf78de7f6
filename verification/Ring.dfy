/** The message ring: index arithmetic, the sequential queue, and the protocol its one writer and
    its readers follow when their steps interleave. */
module Ring {
  import opened Wrappers

  // ---- positions ----

  predicate Positions(size: nat, write: nat, read: nat) {
    write < size && read < size
  }

  predicate IsEmpty(write: nat, read: nat) {
    write == read
  }

  predicate IsFull(size: nat, write: nat, read: nat)
    requires size > 0
  {
    (write + 1) % size == read
  }

  function SizeOf(size: nat, write: nat, read: nat): int {
    if write >= read then write - read else write + size - read
  }

  /** position++, back to 0 at the end. */
  function Advance(size: nat, p: nat): nat {
    if p + 1 >= size then 0 else p + 1
  }

  /** What is queued, oldest first. */
  function Queued<T>(slots: seq<T>, write: nat, read: nat): seq<T>
    requires Positions(|slots|, write, read)
  {
    if write >= read then slots[read..write] else slots[read..] + slots[..write]
  }

  lemma QueuedSize<T>(slots: seq<T>, write: nat, read: nat)
    requires Positions(|slots|, write, read)
    ensures |Queued(slots, write, read)| == SizeOf(|slots|, write, read) < |slots|
    ensures IsEmpty(write, read) <==> Queued(slots, write, read) == []
    ensures IsFull(|slots|, write, read) <==> |Queued(slots, write, read)| == |slots| - 1
  {
  }

  lemma QueuedWrite<T>(slots: seq<T>, write: nat, read: nat, x: T)
    requires Positions(|slots|, write, read) && !IsFull(|slots|, write, read)
    ensures Positions(|slots|, Advance(|slots|, write), read)
    ensures Queued(slots[write := x], write, read) == Queued(slots, write, read)
    ensures Queued(slots[write := x], Advance(|slots|, write), read) == Queued(slots, write, read) + [x]
  {
    if write < read {
      QueuedWriteBelow(slots, write, read, x);
    } else if write + 1 < |slots| {
      QueuedWriteAbove(slots, write, read, x);
    } else {
      QueuedWriteLast(slots, write, read, x);
    }
  }

  lemma QueuedWriteBelow<T>(slots: seq<T>, write: nat, read: nat, x: T)
    requires write < read < |slots| && write + 1 != read
    ensures Queued(slots[write := x], write, read) == Queued(slots, write, read)
    ensures Queued(slots[write := x], write + 1, read) == Queued(slots, write, read) + [x]
  {
    var slots' := slots[write := x];
    assert slots'[read..] == slots[read..] && slots'[..write] == slots[..write];
    assert slots'[..write + 1] == slots[..write] + [x];
  }

  lemma QueuedWriteAbove<T>(slots: seq<T>, write: nat, read: nat, x: T)
    requires read <= write && write + 1 < |slots|
    ensures Queued(slots[write := x], write, read) == Queued(slots, write, read)
    ensures Queued(slots[write := x], write + 1, read) == Queued(slots, write, read) + [x]
  {
    var slots' := slots[write := x];
    assert slots'[read..write] == slots[read..write];
    assert slots'[read..write + 1] == slots[read..write] + [x];
  }

  lemma QueuedWriteLast<T>(slots: seq<T>, write: nat, read: nat, x: T)
    requires 0 < read <= write && write + 1 == |slots|
    ensures Queued(slots[write := x], write, read) == Queued(slots, write, read)
    ensures Queued(slots[write := x], 0, read) == Queued(slots, write, read) + [x]
  {
    var slots' := slots[write := x];
    assert slots'[read..write] == slots[read..write];
    assert slots'[read..] == slots[read..write] + [x];
    assert slots'[..0] == [];
  }

  lemma QueuedRead<T>(slots: seq<T>, write: nat, read: nat)
    requires Positions(|slots|, write, read) && !IsEmpty(write, read)
    ensures Positions(|slots|, write, Advance(|slots|, read))
    ensures Queued(slots, write, read) == [slots[read]] + Queued(slots, write, Advance(|slots|, read))
  {
  }

  // ---- the queue as one thread sees it ----

  class MsgQueue<T(0)> {
    var msgQueue: array<T>
    var writePosition: nat
    var readPosition: nat

    ghost predicate Valid()
      reads this
    {
      Positions(msgQueue.Length, writePosition, readPosition)
    }

    ghost function Contents(): seq<T>
      requires Valid()
      reads this, msgQueue
    {
      Queued(msgQueue[..], writePosition, readPosition)
    }

    constructor (length: nat)
      requires length > 0
      ensures Valid() && Contents() == [] && msgQueue.Length == length && fresh(msgQueue)
    {
      msgQueue := new T[length];
      writePosition, readPosition := 0, 0;
    }

    /** WriteToMsgQueue: false on a full queue. */
    method Write(x: T) returns (ok: bool)
      requires Valid()
      modifies this`writePosition, msgQueue
      ensures Valid() && ok == (|old(Contents())| < msgQueue.Length - 1)
      ensures Contents() == if ok then old(Contents()) + [x] else old(Contents())
    {
      QueuedSize(msgQueue[..], writePosition, readPosition);
      if IsFull(msgQueue.Length, writePosition, readPosition) {
        return false;
      }
      QueuedWrite(msgQueue[..], writePosition, readPosition, x);
      ghost var before := msgQueue[..];
      msgQueue[writePosition] := x;
      assert msgQueue[..] == before[writePosition := x];
      writePosition := Advance(msgQueue.Length, writePosition);
      ok := true;
    }

    /** ReadAndDeleteFromMsgQueue: nothing on an empty queue. */
    method Read() returns (r: Option<T>)
      requires Valid()
      modifies this`readPosition
      ensures Valid()
      ensures old(Contents()) == [] ==> r == None && Contents() == []
      ensures old(Contents()) != [] ==> r == Some(old(Contents())[0]) && Contents() == old(Contents())[1..]
    {
      QueuedSize(msgQueue[..], writePosition, readPosition);
      if IsEmpty(writePosition, readPosition) {
        return None;
      }
      QueuedRead(msgQueue[..], writePosition, readPosition);
      r := Some(msgQueue[readPosition]);
      readPosition := Advance(msgQueue.Length, readPosition);
    }

    method Size() returns (n: int)
      requires Valid()
      ensures n == |Contents()|
    {
      QueuedSize(msgQueue[..], writePosition, readPosition);
      n := SizeOf(msgQueue.Length, writePosition, readPosition);
    }
  }

  // ---- the queue as its threads see it ----

  /** Where the writer is: outside, past the Full test with a value in hand, or past the copy. */
  datatype Writer<T> = Outside | Tested(x: T) | Copied(x: T)

  /** Where a reader is: waiting for read_sem_ or outside, holding it, past the Empty test, or past
      the copy out of the slot. */
  datatype Reader<T> = Free | Holding | Nonempty | Taken(y: T)

  /** The shared ring, the threads' places, and the history of what was written and read. */
  datatype Shared<T> = Shared(
    slots: seq<T>, write: nat, read: nat,
    readSem: bool,
    writer: Writer<T>,
    readers: seq<Reader<T>>,
    written: seq<T>,
    taken: seq<T>)

  datatype Step<T> =
    | TestFull(x: T) | CopyIn | AdvanceWrite
    | Wait(r: nat) | TestEmpty(r: nat) | GiveUp(r: nat) | CopyOut(r: nat) | AdvanceRead(r: nat)

  ghost predicate Init<T>(s: Shared<T>) {
    && |s.slots| > 0 && s.write == 0 && s.read == 0 && s.readSem && s.writer == Outside
    && (forall r | 0 <= r < |s.readers| :: s.readers[r] == Free) && s.written == [] && s.taken == []
  }

  /** One step of one thread. The writer passes the test only on a ring that is not full at that
      moment, a reader only on one that is not empty; copies and advances come later. */
  ghost predicate Next<T>(s: Shared<T>, s': Shared<T>, step: Step<T>) {
    Positions(|s.slots|, s.write, s.read) &&
    match step
    case TestFull(x) =>
      s.writer == Outside && !IsFull(|s.slots|, s.write, s.read) && s' == s.(writer := Tested(x))
    case CopyIn =>
      s.writer.Tested? && s' == s.(slots := s.slots[s.write := s.writer.x], writer := Copied(s.writer.x))
    case AdvanceWrite =>
      s.writer.Copied? &&
      s' == s.(write := Advance(|s.slots|, s.write), writer := Outside, written := s.written + [s.writer.x])
    case Wait(r) =>
      r < |s.readers| && s.readers[r] == Free && s.readSem
      && s' == s.(readSem := false, readers := s.readers[r := Holding])
    case TestEmpty(r) =>
      r < |s.readers| && s.readers[r] == Holding && !IsEmpty(s.write, s.read)
      && s' == s.(readers := s.readers[r := Nonempty])
    case GiveUp(r) =>
      r < |s.readers| && s.readers[r] == Holding && IsEmpty(s.write, s.read)
      && s' == s.(readSem := true, readers := s.readers[r := Free])
    case CopyOut(r) =>
      r < |s.readers| && s.readers[r] == Nonempty && s' == s.(readers := s.readers[r := Taken(s.slots[s.read])])
    case AdvanceRead(r) =>
      r < |s.readers| && s.readers[r].Taken?
      && s' == s.(read := Advance(|s.slots|, s.read), readSem := true, readers := s.readers[r := Free],
                  taken := s.taken + [s.readers[r].y])
  }

  /** Values taken followed by values queued are the values written; a reader past the test has a
      value to take, and past the copy it has taken the front one; only one reader is inside; a
      writer past the test has room. */
  ghost predicate Inv<T>(s: Shared<T>) {
    && Positions(|s.slots|, s.write, s.read)
    && s.taken + Queued(s.slots, s.write, s.read) == s.written
    && (s.writer != Outside ==> !IsFull(|s.slots|, s.write, s.read))
    && (s.writer.Copied? ==> s.slots[s.write] == s.writer.x)
    && (forall r | 0 <= r < |s.readers| && s.readers[r] != Free :: !s.readSem)
    && (forall q, r | 0 <= q < r < |s.readers| :: s.readers[q] == Free || s.readers[r] == Free)
    && (forall r | 0 <= r < |s.readers| && (s.readers[r] == Nonempty || s.readers[r].Taken?) :: !IsEmpty(s.write, s.read))
    && (forall r | 0 <= r < |s.readers| && s.readers[r].Taken? :: s.readers[r].y == s.slots[s.read])
  }

  ghost predicate IsRun<T>(run: seq<Shared<T>>, steps: seq<Step<T>>) {
    && |run| == |steps| + 1 && Init(run[0])
    && forall k | 0 <= k < |steps| :: Next(run[k], run[k + 1], steps[k])
  }

  lemma AdvanceNotFull(size: nat, write: nat, read: nat)
    requires Positions(size, write, read) && !IsFull(size, write, read)
    ensures Advance(size, write) != read
  {
  }

  lemma NextKeepsInv<T>(s: Shared<T>, s': Shared<T>, step: Step<T>)
    requires Inv(s) && Next(s, s', step)
    ensures Inv(s')
  {
    match step
    case TestFull(x) =>
    case CopyIn => QueuedWrite(s.slots, s.write, s.read, s.writer.x);
    case AdvanceWrite => WriterAdvances(s, s');
    case Wait(r) =>
    case TestEmpty(r) =>
    case GiveUp(r) =>
    case CopyOut(r) =>
    case AdvanceRead(r) => ReaderAdvances(s, s', r);
  }

  lemma WriterAdvances<T>(s: Shared<T>, s': Shared<T>)
    requires Inv(s) && Next(s, s', AdvanceWrite)
    ensures Inv(s')
  {
    QueuedWrite(s.slots, s.write, s.read, s.writer.x);
    assert s.slots[s.write := s.writer.x] == s.slots;
    assert s.taken + (Queued(s.slots, s.write, s.read) + [s.writer.x]) == s.written + [s.writer.x];
    AdvanceNotFull(|s.slots|, s.write, s.read);
  }

  lemma ReadMakesRoom(size: nat, write: nat, read: nat)
    requires Positions(size, write, read) && !IsEmpty(write, read)
    ensures Positions(size, write, Advance(size, read)) && !IsFull(size, write, Advance(size, read))
  {
    Wrap(size, write);
  }

  lemma Wrap(size: nat, p: nat)
    requires p < size
    ensures (p + 1) % size == Advance(size, p)
  {
  }

  lemma ReaderAdvances<T>(s: Shared<T>, s': Shared<T>, r: nat)
    requires Inv(s) && Next(s, s', AdvanceRead(r))
    ensures Inv(s')
  {
    hide Queued, IsFull, Advance;
    QueuedRead(s.slots, s.write, s.read);
    ReadMakesRoom(|s.slots|, s.write, s.read);
    var rest := Queued(s.slots, s.write, s'.read);
    assert s'.taken + rest == s.taken + ([s.slots[s.read]] + rest);
  }

  /** In every reachable state the ring is a bounded first-in first-out queue: what was read,
      followed by what is queued, is what was written; at most size-1 values are queued. */
  lemma {:induction false} RingIsFifo<T>(run: seq<Shared<T>>, steps: seq<Step<T>>, k: nat)
    requires IsRun(run, steps) && k < |run|
    ensures var s := run[k];
            && Inv(s)
            && s.taken + Queued(s.slots, s.write, s.read) == s.written
            && |Queued(s.slots, s.write, s.read)| < |s.slots|
  {
    if k > 0 {
      RingIsFifo(run, steps, k - 1);
      NextKeepsInv(run[k - 1], run[k], steps[k - 1]);
    }
    QueuedSize(run[k].slots, run[k].write, run[k].read);
  }

  /** The slot the writer copies into is never the slot a reader copies out of, nor any queued
      slot. */
  lemma SlotsApart<T>(run: seq<Shared<T>>, steps: seq<Step<T>>, k: nat, r: nat, x: T)
    requires IsRun(run, steps) && k < |run| && r < |run[k].readers|
    requires run[k].writer.Tested? && (run[k].readers[r] == Nonempty || run[k].readers[r].Taken?)
    ensures var s := run[k];
            && Positions(|s.slots|, s.write, s.read) && s.write != s.read
            && Queued(s.slots[s.write := x], s.write, s.read) == Queued(s.slots, s.write, s.read)
  {
    RingIsFifo(run, steps, k);
    QueuedWrite(run[k].slots, run[k].write, run[k].read, x);
  }
}
