/** The streaming entry: a growing buffer with a completion flag, and readers that follow it. */
module Streaming {
  import opened Common

  datatype Stream = Stream(buf: string, complete: bool, err: Option<string>)

  const EMPTY: Stream := Stream("", false, None)

  /** A write after close is refused and changes nothing. */
  function AfterWrite(s: Stream, p: string): (r: Stream) {
    if s.complete then s else s.(buf := s.buf + p)
  }

  /** Only the first close counts. */
  function AfterClose(s: Stream, err: Option<string>): (r: Stream) {
    if s.complete then s else s.(complete := true, err := err)
  }

  /** What one pass of a reader's loop finds at its offset with room for `size` bytes. */
  datatype ReadResult = Data(bytes: string) | Eof | Failed(reason: string) | Block

  function ReadAt(s: Stream, offset: nat, size: nat): (r: ReadResult) {
    if offset < |s.buf| then Data(s.buf[offset..if offset + size < |s.buf| then offset + size else |s.buf|])
    else if !s.complete then Block
    else if s.err.Some? then Failed(s.err.value)
    else Eof
  }

  /** The bytes of the permanent entry; none for a failed download. */
  function ToEntry(s: Stream): (r: Option<string>)
    requires s.complete
  {
    if s.err.Some? then None else Some(s.buf)
  }

  /** What happens to an entry, in order. */
  datatype Op = Append(bytes: string) | Finish(err: Option<string>)

  function After(ops: seq<Op>): (s: Stream) {
    if ops == [] then EMPTY
    else
      var s, last := After(ops[..|ops| - 1]), ops[|ops| - 1];
      if last.Append? then AfterWrite(s, last.bytes) else AfterClose(s, last.err)
  }

  /** All bytes written. */
  function Written(ops: seq<Op>): (r: string) {
    if ops == [] then ""
    else Written(ops[..|ops| - 1]) + (if ops[|ops| - 1].Append? then ops[|ops| - 1].bytes else "")
  }

  /** Whatever is done to an entry, it holds what was written before the first close, with that close's error; without a
      close it is open and holds everything written. */
  lemma {:induction false} EntryHolds(ops: seq<Op>, k: nat)
    requires k <= |ops| && (k < |ops| ==> ops[k].Finish?) && forall i :: 0 <= i < k ==> ops[i].Append?
    ensures After(ops) == Stream(Written(ops[..k]), k < |ops|, if k < |ops| then ops[k].err else None)
    decreases |ops|
  {
    if ops != [] {
      var n := |ops| - 1;
      var before := ops[..n];
      assert forall i :: 0 <= i < n ==> before[i] == ops[i];
      if k <= n {
        EntryHolds(before, k);
        assert before[..k] == ops[..k];
      } else {
        EntryHolds(before, n);
        assert before[..n] == before && ops[..k] == ops;
      }
    }
  }

  /** A complete entry becomes a permanent one with its bytes, unless its download failed. */
  lemma {:induction false} Converts(ops: seq<Op>, k: nat)
    requires k < |ops| && ops[k].Finish? && forall i :: 0 <= i < k ==> ops[i].Append?
    ensures After(ops).complete
    ensures ToEntry(After(ops)) == if ops[k].err.None? then Some(Written(ops[..k])) else None
  {
    EntryHolds(ops, k);
  }

  class Entry {
    var buf: string
    var complete: bool
    var err: Option<string>

    ghost function View(): (s: Stream)
      reads this
    {
      Stream(buf, complete, err)
    }

    constructor ()
      ensures View() == EMPTY
    {
      buf, complete, err := "", false, None;
    }

    method Write(p: string) returns (n: Option<nat>)
      modifies this
      ensures View() == AfterWrite(old(View()), p)
      ensures n == if old(complete) then None else Some(|p|)
    {
      if complete { return None; }
      buf := buf + p;
      return Some(|p|);
    }

    method Close(e: Option<string>)
      modifies this
      ensures View() == AfterClose(old(View()), e)
    {
      if complete { return; }
      complete := true;
      err := e;
    }
  }

  /** A reader at an offset of one entry; `Block` stands for the wait on the condition variable. */
  class Reader {
    const entry: Entry
    var offset: nat

    constructor (entry: Entry, offset: nat)
      ensures this.entry == entry && this.offset == offset
    {
      this.entry := entry;
      this.offset := offset;
    }

    method Read(size: nat) returns (r: ReadResult)
      modifies this
      ensures r == ReadAt(entry.View(), old(offset), size)
      ensures offset == old(offset) + (if r.Data? then |r.bytes| else 0)
    {
      if offset < |entry.buf| {
        var end := offset + size;
        if end > |entry.buf| { end := |entry.buf|; }
        r := Data(entry.buf[offset..end]);
        offset := end;
        return;
      }
      if entry.complete {
        if entry.err.Some? { return Failed(entry.err.value); }
        return Eof;
      }
      return Block;
    }
  }

  /** The handler's chunk size. */
  const CHUNK: nat := 32768

  /** The fetcher's chunk loop: a fresh entry ends complete and holds exactly the body. */
  method StreamBody(se: Entry, body: string)
    requires se.View() == EMPTY
    modifies se
    ensures se.View() == Stream(body, true, None)
  {
    var off := 0;
    while off < |body|
      invariant 0 <= off && !se.complete && se.err == None
      invariant se.buf == if off <= |body| then body[..off] else body
    {
      var end := off + CHUNK;
      if end > |body| { end := |body|; }
      var _ := se.Write(body[off..end]);
      off := off + CHUNK;
    }
    assert se.buf == body;
    se.Close(None);
  }

  /** A waiter's loop up to its first blocking Read: it has sent the whole buffer, and blocks only on an open entry. */
  method ServeStreaming(se: Entry) returns (out: string, last: ReadResult)
    ensures out == se.buf
    ensures last == if !se.complete then Block else if se.err.Some? then Failed(se.err.value) else Eof
  {
    var reader := new Reader(se, 0);
    out := "";
    last := Data("");
    while last.Data?
      invariant reader.entry == se && fresh(reader)
      invariant reader.offset == |out| <= |se.buf| && out == se.buf[..|out|]
      invariant !last.Data? ==> |out| == |se.buf| && last == ReadAt(se.View(), |out|, CHUNK)
      decreases if last.Data? then 1 else 0, |se.buf| - |out|
    {
      last := reader.Read(CHUNK);
      if last.Data? { out := out + last.bytes; }
    }
  }
}
