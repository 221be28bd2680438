module Channel {
  // The bounded channel.  Each function below is the block one operation runs
  // while it holds the channel's lock; the class further down runs the same
  // blocks over the ring array and the two waiter queues.

  import opened Prelude

  datatype Chan<T> = Chan(
    capacity: nat,
    items: seq<T>,
    writeReserved: nat,   // slots promised to woken writers
    readReserved: nat,    // items promised to woken readers
    closed: bool,
    readers: seq<nat>,    // suspended readers, oldest first
    writers: seq<nat>)    // suspended writers, oldest first

  // `wake` is the coroutine to schedule once the lock is released.
  datatype WriteOutcome = WriteClosed | WriteDone(wake: Option<nat>) | WriteBlocked
  datatype ReadOutcome<T> = ReadValue(value: T, wake: Option<nat>) | ReadEof | ReadBlocked

  function WakeReader<T>(c: Chan<T>): (Chan<T>, Option<nat>) {
    if c.readers == [] then (c, None)
    else (c.(readReserved := c.readReserved + 1, readers := c.readers[1..]), Some(c.readers[0]))
  }

  function WakeWriter<T>(c: Chan<T>): (Chan<T>, Option<nat>) {
    if c.writers == [] then (c, None)
    else (c.(writeReserved := c.writeReserved + 1, writers := c.writers[1..]), Some(c.writers[0]))
  }

  function Store<T>(c: Chan<T>, v: T): (Chan<T>, WriteOutcome) {
    var (c', wake) := WakeReader(c.(items := c.items + [v]));
    (c', WriteDone(wake))
  }

  function Fetch<T>(c: Chan<T>): (Chan<T>, ReadOutcome<T>)
    requires c.items != []
  {
    var (c', wake) := WakeWriter(c.(items := c.items[1..]));
    (c', ReadValue(c.items[0], wake))
  }

  // WriteAwaitable::await_ready
  function WriteReady<T>(c: Chan<T>, v: T): (Chan<T>, WriteOutcome) {
    if c.closed then (c, WriteClosed)
    else if |c.items| + c.writeReserved < c.capacity then Store(c, v)
    else (c, WriteBlocked)
  }

  // WriteAwaitable::await_suspend of coroutine h
  function WriteSuspend<T>(c: Chan<T>, h: nat, v: T): (Chan<T>, WriteOutcome) {
    if c.closed then (c, WriteClosed)
    else if |c.items| + c.writeReserved < c.capacity then Store(c, v)
    else (c.(writers := c.writers + [h]), WriteBlocked)
  }

  // WriteAwaitable::await_resume of a woken writer
  function WriteResume<T>(c: Chan<T>, v: T): (Chan<T>, WriteOutcome)
    requires c.writeReserved > 0
  {
    if c.closed then (c.(writeReserved := c.writeReserved - 1), WriteClosed)
    else Store(c.(writeReserved := c.writeReserved - 1), v)
  }

  function TryWrite<T>(c: Chan<T>, v: T): (Chan<T>, WriteOutcome) {
    if c.closed || |c.items| + c.writeReserved >= c.capacity then (c, WriteBlocked) else Store(c, v)
  }

  // ReadAwaitable::await_ready
  function ReadReady<T>(c: Chan<T>): (Chan<T>, ReadOutcome<T>) {
    if |c.items| > c.readReserved then Fetch(c)
    else if c.closed then (c, ReadEof)
    else (c, ReadBlocked)
  }

  // ReadAwaitable::await_suspend of coroutine h
  function ReadSuspend<T>(c: Chan<T>, h: nat): (Chan<T>, ReadOutcome<T>) {
    if |c.items| > c.readReserved then Fetch(c)
    else if c.closed then (c, ReadEof)
    else (c.(readers := c.readers + [h]), ReadBlocked)
  }

  // ReadAwaitable::await_resume of a woken reader; ReadBlocked stands for the
  // branch with no data on a live channel.
  function ReadResume<T>(c: Chan<T>): (Chan<T>, ReadOutcome<T>)
    requires c.readReserved > 0
  {
    if c.items != [] then Fetch(c.(readReserved := c.readReserved - 1))
    else if c.closed then (c.(readReserved := c.readReserved - 1), ReadEof)
    else (c, ReadBlocked)
  }

  function TryRead<T>(c: Chan<T>): (Chan<T>, ReadOutcome<T>) {
    if |c.items| <= c.readReserved then (c, ReadBlocked) else Fetch(c)
  }

  function Close<T>(c: Chan<T>): Chan<T> {
    c.(closed := true, readers := [], writers := [],
       readReserved := c.readReserved + |c.readers|,
       writeReserved := c.writeReserved + |c.writers|)
  }

  function Wrap(i: nat, capacity: nat): int {
    if i < capacity then i else i - capacity
  }

  // The count items of a ring array from readPos on.
  function RingItems<T>(data: seq<T>, readPos: nat, count: nat): (s: seq<T>)
    requires readPos < |data| && count <= |data|
    ensures |s| == count
    ensures forall i: nat | i < count :: s[i] == data[Wrap(readPos + i, |data|)]
  {
    seq(count, (i: nat) requires i < count => data[Wrap(readPos + i, |data|)])
  }

  // The channel object: a ring array with wrapping positions.
  class ChannelObject<T> {
    const buffer: array<T>
    var writePos: nat
    var readPos: nat
    var count: nat
    var writeReserved: nat
    var readReserved: nat
    var closed: bool
    var readers: seq<nat>
    var writers: seq<nat>

    ghost predicate Valid()
      reads `writePos, `readPos, `count
    {
      && buffer.Length > 0
      && readPos < buffer.Length
      && count <= buffer.Length
      && writePos == Wrap(readPos + count, buffer.Length)
    }

    ghost function Items(): seq<T>
      reads `writePos, `readPos, `count, buffer
      requires Valid()
    {
      RingItems(buffer[..], readPos, count)
    }

    ghost function View(): Chan<T>
      reads this, buffer
      requires Valid()
    {
      Chan(buffer.Length, Items(), writeReserved, readReserved, closed, readers, writers)
    }

    constructor (capacity: nat, blank: T)
      requires capacity > 0
      ensures Valid() && fresh(buffer) && View() == Chan(capacity, [], 0, 0, false, [], [])
    {
      buffer := new T[capacity](_ => blank);
      writePos, readPos, count, writeReserved, readReserved := 0, 0, 0, 0, 0;
      closed, readers, writers := false, [], [];
    }

    // do_write_nolock followed by wake_one_reader_nolock
    method StoreAndWake(v: T) returns (o: WriteOutcome)
      requires Valid() && count < buffer.Length
      modifies this, buffer
      ensures Valid() && (View(), o) == Store(old(View()), v)
    {
      ghost var was := Items();
      buffer[writePos] := v;
      writePos := writePos + 1;
      if writePos >= buffer.Length {
        writePos := 0;
      }
      count := count + 1;
      assert Items() == was + [v];
      if readers != [] {
        readReserved := readReserved + 1;
        o := WriteDone(Some(readers[0]));
        readers := readers[1..];
      } else {
        o := WriteDone(None);
      }
    }

    // do_read_nolock followed by wake_one_writer_nolock
    method FetchAndWake() returns (o: ReadOutcome<T>)
      requires Valid() && count > 0
      modifies this
      ensures Valid() && (View(), o) == Fetch(old(View()))
    {
      ghost var was := Items();
      var v := buffer[readPos];
      readPos := readPos + 1;
      if readPos >= buffer.Length {
        readPos := 0;
      }
      count := count - 1;
      assert Items() == was[1..];
      if writers != [] {
        writeReserved := writeReserved + 1;
        o := ReadValue(v, Some(writers[0]));
        writers := writers[1..];
      } else {
        o := ReadValue(v, None);
      }
    }

    method AwaitWriteReady(v: T) returns (o: WriteOutcome)
      requires Valid()
      modifies this, buffer
      ensures Valid() && (View(), o) == WriteReady(old(View()), v)
    {
      if closed {
        o := WriteClosed;
      } else if count + writeReserved < buffer.Length {
        o := StoreAndWake(v);
      } else {
        o := WriteBlocked;
      }
    }

    method AwaitWriteSuspend(h: nat, v: T) returns (o: WriteOutcome)
      requires Valid()
      modifies this, buffer
      ensures Valid() && (View(), o) == WriteSuspend(old(View()), h, v)
    {
      if closed {
        o := WriteClosed;
      } else if count + writeReserved < buffer.Length {
        o := StoreAndWake(v);
      } else {
        writers := writers + [h];
        o := WriteBlocked;
      }
    }

    // The caller holds a write reservation.
    method AwaitWriteResume(v: T) returns (o: WriteOutcome)
      requires Valid() && writeReserved > 0 && (closed || count < buffer.Length)
      modifies this, buffer
      ensures Valid() && (View(), o) == WriteResume(old(View()), v)
    {
      writeReserved := writeReserved - 1;
      if closed {
        o := WriteClosed;
      } else {
        o := StoreAndWake(v);
      }
    }

    method TryWriteNow(v: T) returns (o: WriteOutcome)
      requires Valid()
      modifies this, buffer
      ensures Valid() && (View(), o) == TryWrite(old(View()), v)
    {
      if closed || count + writeReserved >= buffer.Length {
        o := WriteBlocked;
      } else {
        o := StoreAndWake(v);
      }
    }

    method AwaitReadReady() returns (o: ReadOutcome<T>)
      requires Valid()
      modifies this
      ensures Valid() && (View(), o) == ReadReady(old(View()))
    {
      if count > readReserved {
        o := FetchAndWake();
      } else if closed {
        o := ReadEof;
      } else {
        o := ReadBlocked;
      }
    }

    method AwaitReadSuspend(h: nat) returns (o: ReadOutcome<T>)
      requires Valid()
      modifies this
      ensures Valid() && (View(), o) == ReadSuspend(old(View()), h)
    {
      if count > readReserved {
        o := FetchAndWake();
      } else if closed {
        o := ReadEof;
      } else {
        readers := readers + [h];
        o := ReadBlocked;
      }
    }

    // The caller holds a read reservation.
    method AwaitReadResume() returns (o: ReadOutcome<T>)
      requires Valid() && readReserved > 0
      modifies this
      ensures Valid() && (View(), o) == ReadResume(old(View()))
    {
      if count > 0 {
        readReserved := readReserved - 1;
        o := FetchAndWake();
      } else if closed {
        readReserved := readReserved - 1;
        o := ReadEof;
      } else {
        o := ReadBlocked;
      }
    }

    method TryReadNow() returns (o: ReadOutcome<T>)
      requires Valid()
      modifies this
      ensures Valid() && (View(), o) == TryRead(old(View()))
    {
      if count <= readReserved {
        o := ReadBlocked;
      } else {
        o := FetchAndWake();
      }
    }

    // Returns the waiters to schedule, readers first.
    method CloseNow() returns (woken: seq<nat>)
      requires Valid()
      modifies this
      ensures Valid() && View() == Close(old(View()))
      ensures woken == old(readers) + old(writers)
    {
      closed := true;
      var wasReaders, wasWriters := readers, writers;
      readers, writers := [], [];
      readReserved := readReserved + |wasReaders|;
      writeReserved := writeReserved + |wasWriters|;
      woken := [];
      while wasReaders != []
        invariant woken + wasReaders == old(readers)
        invariant Valid() && View() == Close(old(View()))
        decreases |wasReaders|
      {
        woken := woken + [wasReaders[0]];
        wasReaders := wasReaders[1..];
      }
      while wasWriters != []
        invariant woken + wasWriters == old(readers) + old(writers)
        invariant Valid() && View() == Close(old(View()))
        decreases |wasWriters|
      {
        woken := woken + [wasWriters[0]];
        wasWriters := wasWriters[1..];
      }
    }
  }
}
