/** The embedded assets' compressed files: random access over a gzip stream that only goes forward.
    A file remembers where the stream should be (`grPos`) and where the caller wants to read
    (`seekPos`); Read rewinds or skips to bring the two together. */
module CompressedFiles {

  type byte = bv8

  datatype Status = Ok | Eof

  datatype Whence = SeekStart | SeekCurrent | SeekEnd

  /** Offsets of an open file: where the stream really is, where the file believes it is, and where
      the next Read should happen. */
  datatype Offsets = Offsets(stream: nat, grPos: nat, seekPos: int)

  /** A call on an open file. `n` is the number of bytes the stream delivers when Read reaches it. */
  datatype Op = Seek(offset: int, whence: Whence) | Read(len: nat, n: nat)

  /** What a reader positioned at `pos` of a stream of `size` bytes may deliver for a buffer of
      `len` bytes: any shorter chunk, but something if there is room and data. */
  predicate MayDeliver(size: nat, pos: nat, len: nat, n: nat) {
    && n <= len
    && pos + n <= size
    && (len > 0 && pos < size ==> n > 0)
  }

  // ---- The code, as a function of the offsets ----

  function SeekTarget(size: nat, seekPos: int, offset: int, whence: Whence): int {
    match whence
    case SeekStart => offset
    case SeekCurrent => seekPos + offset
    case SeekEnd => size + offset
  }

  /** The rewind of Read, if the stream is believed to be past the wanted position. */
  function Rewound(o: Offsets): Offsets {
    if o.grPos > o.seekPos then Offsets(0, 0, o.seekPos) else o
  }

  /** The skip of Read cannot be completed: the stream ends first. */
  predicate SkipFails(size: nat, o: Offsets) {
    o.grPos < o.seekPos && o.stream + (o.seekPos - o.grPos) > size
  }

  /** The offsets once rewind and skip are done; a skip that fails leaves `grPos` as it was. */
  function Positioned(size: nat, o: Offsets): Offsets {
    var r := Rewound(o);
    if SkipFails(size, r) then r.(stream := size)
    else if r.grPos < r.seekPos then Offsets(r.stream + (r.seekPos - r.grPos), r.seekPos, r.seekPos)
    else r
  }

  predicate ReadFails(size: nat, o: Offsets) { SkipFails(size, Rewound(o)) }

  predicate Possible(size: nat, o: Offsets, op: Op) {
    match op
    case Seek(_, _) => true
    case Read(len, n) => ReadFails(size, o) || MayDeliver(size, Positioned(size, o).stream, len, n)
  }

  function Step(size: nat, o: Offsets, op: Op): Offsets {
    match op
    case Seek(offset, whence) => o.(seekPos := SeekTarget(size, o.seekPos, offset, whence))
    case Read(_, n) =>
      var p := Positioned(size, o);
      if ReadFails(size, o) then p else Offsets(p.stream + n, p.grPos + n, p.grPos + n)
  }

  function Output(content: seq<byte>, o: Offsets, op: Op): seq<byte>
    requires o.stream <= |content| && Possible(|content|, o, op)
  {
    if op.Seek? || ReadFails(|content|, o) then []
    else
      var at := Positioned(|content|, o).stream;
      content[at..at + op.n]
  }

  // ---- The reference: a flat byte array with a position ----

  predicate FlatPossible(size: nat, pos: int, op: Op) {
    op.Read? ==> 0 <= pos <= size && MayDeliver(size, pos, op.len, op.n)
  }

  function FlatStep(size: nat, pos: int, op: Op): int {
    match op
    case Seek(offset, SeekStart) => offset
    case Seek(offset, SeekCurrent) => pos + offset
    case Seek(offset, SeekEnd) => size + offset
    case Read(_, n) => pos + n
  }

  function FlatOutput(content: seq<byte>, pos: int, op: Op): seq<byte>
    requires FlatPossible(|content|, pos, op)
  {
    if op.Seek? then [] else content[pos..pos + op.n]
  }

  ghost predicate FlatRunPossible(size: nat, pos: int, ops: seq<Op>)
    decreases ops
  {
    ops == [] || (FlatPossible(size, pos, ops[0]) && FlatRunPossible(size, FlatStep(size, pos, ops[0]), ops[1..]))
  }

  /** Every Read of the run happens between the first byte and the end of the content. */
  ghost predicate ReadsInRange(size: nat, pos: int, ops: seq<Op>)
    decreases ops
  {
    ops == [] || ((ops[0].Read? ==> 0 <= pos <= size) && ReadsInRange(size, FlatStep(size, pos, ops[0]), ops[1..]))
  }

  ghost function FlatRun(content: seq<byte>, pos: int, ops: seq<Op>): seq<seq<byte>>
    requires FlatRunPossible(|content|, pos, ops)
    decreases ops
  {
    if ops == [] then []
    else [FlatOutput(content, pos, ops[0])] + FlatRun(content, FlatStep(|content|, pos, ops[0]), ops[1..])
  }

  // ---- Runs of the code ----

  ghost predicate RunPossible(size: nat, o: Offsets, ops: seq<Op>)
    decreases ops
  {
    ops == [] || (Possible(size, o, ops[0]) && RunPossible(size, Step(size, o, ops[0]), ops[1..]))
  }

  ghost function RunEnd(size: nat, o: Offsets, ops: seq<Op>): Offsets
    decreases ops
  {
    if ops == [] then o else RunEnd(size, Step(size, o, ops[0]), ops[1..])
  }

  ghost function Run(content: seq<byte>, o: Offsets, ops: seq<Op>): seq<seq<byte>>
    requires o.stream <= |content| && RunPossible(|content|, o, ops)
    decreases ops
  {
    if ops == [] then []
    else
      StaysInside(|content|, o, ops[0]);
      [Output(content, o, ops[0])] + Run(content, Step(|content|, o, ops[0]), ops[1..])
  }

  lemma StaysInside(size: nat, o: Offsets, op: Op)
    requires o.stream <= size && Possible(size, o, op)
    ensures Step(size, o, op).stream <= size
  {
  }

  /** The stream is where the file believes it is. */
  predicate Synced(size: nat, o: Offsets) { o.stream == o.grPos <= size }

  /** Holds in every state a file can reach: a desynchronised stream is an exhausted one. */
  predicate SyncedOrExhausted(size: nat, o: Offsets) {
    o.grPos <= o.stream <= size && (o.stream == o.grPos || o.stream == size)
  }

  lemma {:induction false} ReachableOffsets(size: nat, o: Offsets, ops: seq<Op>)
    requires SyncedOrExhausted(size, o) && RunPossible(size, o, ops)
    ensures SyncedOrExhausted(size, RunEnd(size, o, ops))
    decreases ops
  {
    if ops != [] { ReachableOffsets(size, Step(size, o, ops[0]), ops[1..]); }
  }

  /** Refinement: as long as reads stay within the content, an open file cannot be told from the
      flat array: same chunks, same position, for every run and every choice of short reads. */
  lemma {:induction false} FileRefinesFlatArray(content: seq<byte>, o: Offsets, ops: seq<Op>)
    requires Synced(|content|, o)
    requires RunPossible(|content|, o, ops) && ReadsInRange(|content|, o.seekPos, ops)
    ensures FlatRunPossible(|content|, o.seekPos, ops)
    ensures Run(content, o, ops) == FlatRun(content, o.seekPos, ops)
    ensures Synced(|content|, RunEnd(|content|, o, ops))
    decreases ops
  {
    if ops != [] {
      var size := |content|;
      assert Step(size, o, ops[0]).seekPos == FlatStep(size, o.seekPos, ops[0]);
      FileRefinesFlatArray(content, Step(size, o, ops[0]), ops[1..]);
    }
  }

  /** Conversely every run of the flat array is a run of the file. */
  lemma {:induction false} FlatArrayRefinesFile(content: seq<byte>, o: Offsets, ops: seq<Op>)
    requires Synced(|content|, o) && FlatRunPossible(|content|, o.seekPos, ops)
    ensures RunPossible(|content|, o, ops)
    decreases ops
  {
    if ops != [] {
      var size := |content|;
      assert Step(size, o, ops[0]).seekPos == FlatStep(size, o.seekPos, ops[0]);
      FlatArrayRefinesFile(content, Step(size, o, ops[0]), ops[1..]);
    }
  }

  /** In particular a read after a seek delivers what stands at the byte sought. */
  lemma SeekThenRead(content: seq<byte>, o: Offsets, offset: int, whence: Whence, len: nat, n: nat)
    requires Synced(|content|, o)
    requires var at := Step(|content|, o, Seek(offset, whence)); Possible(|content|, at, Read(len, n))
    ensures var at := Step(|content|, o, Seek(offset, whence));
      && (whence == SeekStart && 0 <= offset <= |content| ==>
            Output(content, at, Read(len, n)) <= content[offset..])
      && (whence == SeekCurrent && 0 <= o.seekPos + offset <= |content| ==>
            Output(content, at, Read(len, n)) <= content[o.seekPos + offset..])
      && (whence == SeekEnd && 0 <= |content| + offset <= |content| ==>
            Output(content, at, Read(len, n)) <= content[|content| + offset..])
  {
  }

  // ---- Reads past the end ----

  /** A read loses the correspondence exactly when it is aimed past the end of the content and the
      stream was not already at its end. */
  lemma ReadKeepsSyncIff(size: nat, o: Offsets, len: nat, n: nat)
    requires Synced(size, o) && Possible(size, o, Read(len, n))
    ensures Synced(size, Step(size, o, Read(len, n))) <==> o.seekPos <= size || o.grPos == size
  {
  }

  /** The bytes a read at 0..size owes its caller. */
  predicate RightAnswer(content: seq<byte>, pos: int, len: nat, bytes: seq<byte>)
    requires 0 <= pos <= |content|
  {
    MayDeliver(|content|, pos, len, |bytes|) && bytes == content[pos..pos + |bytes|]
  }

  /** In a reachable state a read within the content answers rightly exactly when the file is
      synchronised, or the read rewinds, or nothing is asked for or left to deliver. */
  lemma ReadIsRightIff(content: seq<byte>, o: Offsets, len: nat, n: nat)
    requires SyncedOrExhausted(|content|, o) && 0 <= o.seekPos <= |content|
    requires Possible(|content|, o, Read(len, n))
    ensures RightAnswer(content, o.seekPos, len, Output(content, o, Read(len, n)))
       <==> Synced(|content|, o) || o.seekPos < o.grPos || o.seekPos == |content| || len == 0
  {
  }

  /** A caller can tell: a reachable state is synchronised exactly when one byte read back at any
      position inside the content is always the right byte. */
  lemma SyncedIffEveryByteReadsBack(content: seq<byte>, o: Offsets)
    requires SyncedOrExhausted(|content|, o)
    ensures Synced(|content|, o) <==>
            forall pos, n :: 0 <= pos < |content| && Possible(|content|, o.(seekPos := pos), Read(1, n)) ==>
              RightAnswer(content, pos, 1, Output(content, o.(seekPos := pos), Read(1, n)))
  {
    var size := |content|;
    forall pos, n | 0 <= pos < size && Possible(size, o.(seekPos := pos), Read(1, n)) && Synced(size, o)
      ensures RightAnswer(content, pos, 1, Output(content, o.(seekPos := pos), Read(1, n)))
    {
      ReadIsRightIff(content, o.(seekPos := pos), 1, n);
    }
    if !Synced(size, o) {
      var at := o.(seekPos := o.grPos);
      assert Possible(size, at, Read(1, 0));
      ReadIsRightIff(content, at, 1, 0);
    }
  }

  lemma RunOfCons(content: seq<byte>, o: Offsets, op: Op, rest: seq<Op>)
    requires o.stream <= |content| && Possible(|content|, o, op)
    requires Step(|content|, o, op).stream <= |content| && RunPossible(|content|, Step(|content|, o, op), rest)
    ensures RunPossible(|content|, o, [op] + rest)
    ensures Run(content, o, [op] + rest) == [Output(content, o, op)] + Run(content, Step(|content|, o, op), rest)
  {
    assert ([op] + rest)[1..] == rest;
  }

  /** The failing case in full: read past the end of a fresh file, seek back to the start, and the
      first byte is gone. */
  lemma ReadPastEndLosesTheStart(content: seq<byte>)
    requires content != []
    ensures var ops := [Seek(|content| + 1, SeekStart)] + ([Read(1, 0)] + ([Seek(0, SeekStart)] + [Read(1, 0)]));
            RunPossible(|content|, Offsets(0, 0, 0), ops) && Run(content, Offsets(0, 0, 0), ops) == [[], [], [], []]
  {
    var size := |content|;
    var past, none, back := Seek(size + 1, SeekStart), Read(1, 0), Seek(0, SeekStart);
    assert [none] == [none] + [];
    RunOfCons(content, Offsets(size, 0, 0), none, []);
    RunOfCons(content, Offsets(size, 0, size + 1), back, [none]);
    RunOfCons(content, Offsets(0, 0, size + 1), none, [back] + [none]);
    RunOfCons(content, Offsets(0, 0, 0), past, [none] + ([back] + [none]));
  }

  // ---- The objects ----

  /** gzip.Reader from outside: it delivers the decompressed content front to back in chunks of its
      own choosing and can only be put back to the start. */
  class GzipReader {
    const content: seq<byte>
    var pos: nat

    ghost predicate Valid()
      reads this
    {
      pos <= |content|
    }

    constructor (content: seq<byte>)
      ensures Valid() && this.content == content && pos == 0
    {
      this.content := content;
      pos := 0;
    }

    method Reset()
      modifies this
      ensures Valid() && pos == 0
    {
      pos := 0;
    }

    method Read(len: nat) returns (bytes: seq<byte>, status: Status)
      requires Valid()
      modifies this
      ensures Valid() && pos == old(pos) + |bytes|
      ensures MayDeliver(|content|, old(pos), len, |bytes|)
      ensures bytes == content[old(pos)..pos]
      ensures status == Eof ==> pos == |content|
      ensures len > 0 && old(pos) == |content| ==> status == Eof
    {
      var most := if len <= |content| - pos then len else |content| - pos;
      var n: nat :| n <= most && (most > 0 ==> n > 0);
      var early: bool :| true;
      bytes := content[pos..pos + n];
      pos := pos + n;
      status := if pos == |content| && len > 0 && (n == 0 || early) then Eof else Ok;
    }
  }

  /** io.CopyN(ioutil.Discard, gr, k): skips k bytes, chunk by chunk, or all there is. */
  method Discard(gr: GzipReader, k: nat, bufferSize: nat) returns (status: Status)
    requires gr.Valid() && bufferSize > 0
    modifies gr
    ensures gr.Valid()
    ensures status == Ok <==> old(gr.pos) + k <= |gr.content|
    ensures gr.pos == if status == Ok then old(gr.pos) + k else |gr.content|
  {
    var written, ended := 0, false;
    while written < k && !ended
      invariant gr.Valid() && written <= k && gr.pos == old(gr.pos) + written
      invariant ended ==> gr.pos == |gr.content|
      decreases k - written, !ended
    {
      var chunk, st := gr.Read(if k - written < bufferSize then k - written else bufferSize);
      written := written + |chunk|;
      ended := st == Eof;
    }
    status := if written == k then Ok else Eof;
  }

  class CompressedFile {
    const gr: GzipReader
    const uncompressedSize: nat
    var grPos: nat
    var seekPos: int

    ghost predicate Valid()
      reads this, gr
    {
      gr.Valid() && uncompressedSize == |gr.content| && SyncedOrExhausted(uncompressedSize, View())
    }

    ghost function View(): Offsets
      reads this, gr
    {
      Offsets(gr.pos, grPos, seekPos)
    }

    /** Opening a file of the asset table, whose recorded size is the size of its content. */
    constructor (content: seq<byte>)
      ensures Valid() && fresh(gr) && gr.content == content && View() == Offsets(0, 0, 0)
    {
      gr := new GzipReader(content);
      uncompressedSize := |content|;
      grPos, seekPos := 0, 0;
    }

    method Read(len: nat) returns (bytes: seq<byte>, status: Status)
      requires Valid()
      modifies this, gr
      ensures Valid()
      ensures Possible(uncompressedSize, old(View()), Op.Read(len, |bytes|))
      ensures View() == Step(uncompressedSize, old(View()), Op.Read(len, |bytes|))
      ensures bytes == Output(gr.content, old(View()), Op.Read(len, |bytes|))
      ensures old(ReadFails(uncompressedSize, View())) ==> status == Eof
      ensures status == Eof ==> gr.pos == uncompressedSize
      ensures len > 0 && old(Positioned(uncompressedSize, View()).stream) == uncompressedSize ==> status == Eof
    {
      if grPos > seekPos {
        gr.Reset();
        grPos := 0;
      }
      if grPos < seekPos {
        var skipped := Discard(gr, seekPos - grPos, 8192);
        if skipped == Eof {
          return [], Eof;
        }
        grPos := seekPos;
      }
      bytes, status := gr.Read(len);
      grPos := grPos + |bytes|;
      seekPos := grPos;
    }

    method Seek(offset: int, whence: Whence) returns (pos: int)
      requires Valid()
      modifies this
      ensures Valid() && pos == seekPos
      ensures View() == Step(uncompressedSize, old(View()), Op.Seek(offset, whence))
    {
      match whence {
        case SeekStart => seekPos := 0 + offset;
        case SeekCurrent => seekPos := seekPos + offset;
        case SeekEnd => seekPos := uncompressedSize + offset;
      }
      pos := seekPos;
    }
  }
}
