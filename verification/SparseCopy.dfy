/** The sparse copy: a loop that reads blocks, skips over the ones that are all zero by seeking, and
    writes the others. */
module SparseCopy {

  type Byte = b: int | 0 <= b < 256

  const BUFFER_SIZE: nat := 4096

  function Zeros(n: nat): (r: seq<Byte>)
    ensures |r| == n
  {
    seq(n, _ => 0)
  }

  predicate AllZero(s: seq<Byte>) {
    forall i :: 0 <= i < |s| ==> s[i] == 0
  }

  /** The contents of a file after writing at an offset; a gap before the offset reads as zeros. */
  function WriteAt(contents: seq<Byte>, offset: nat, data: seq<Byte>): (r: seq<Byte>)
    ensures data != [] ==> |r| == if offset + |data| > |contents| then offset + |data| else |contents|
  {
    if data == [] then contents
    else if offset >= |contents| then contents + Zeros(offset - |contents|) + data
    else if offset + |data| >= |contents| then contents[..offset] + data
    else contents[..offset] + data + contents[offset + |data|..]
  }

  /** The source file. A regular file fills the buffer while it can; other files may return less.
      Any read may fail, unless the source is sound; failed remembers it. */
  class Source {
    const data: seq<Byte>
    const regular: bool
    const sound: bool
    var offset: nat
    ghost var failed: bool

    constructor (data: seq<Byte>, regular: bool, sound: bool)
      ensures this.data == data && this.regular == regular && this.sound == sound && offset == 0 && !failed
    {
      this.data, this.regular, this.sound, offset, failed := data, regular, sound, 0, false;
    }

    /** read: -1 on failure, 0 only at end of file. */
    method Read(limit: nat) returns (count: int, buffer: seq<Byte>)
      requires limit > 0 && offset <= |data|
      modifies this
      ensures offset <= |data| && count <= limit && failed == (old(failed) || count < 0)
      ensures count < 0 ==> count == -1 && offset == old(offset) && !sound
      ensures count >= 0 ==> |buffer| == count && offset == old(offset) + count &&
                             buffer == data[old(offset)..offset] &&
                             (count == 0 <==> old(offset) == |data|)
      ensures count >= 0 && regular ==> count == limit || offset == |data|
    {
      var failure: bool := *;
      if failure && !sound {
        failed := true;
        return -1, [];
      }
      var most := if |data| - offset < limit then |data| - offset else limit;
      count := most;
      if !regular && most > 0 {
        count :| 1 <= count <= most;
      }
      buffer := data[offset..offset + count];
      offset := offset + count;
    }
  }

  /** The destination, opened with truncation. A pipe or a terminal cannot seek. Any write may be
      short, unless the destination is full-writing, or fail, unless it is sound; failed remembers it. */
  class Destination {
    const seekable: bool
    const full: bool
    const sound: bool
    var contents: seq<Byte>
    var offset: nat
    ghost var failed: bool

    constructor (seekable: bool, full: bool, sound: bool)
      ensures this.seekable == seekable && this.full == full && this.sound == sound
      ensures contents == [] && offset == 0 && !failed
    {
      this.seekable, this.full, this.sound := seekable, full, sound;
      contents, offset, failed := [], 0, false;
    }

    /** write: any number of bytes from the front of the buffer or, on failure, -1 and nothing. */
    method Write(buffer: seq<Byte>) returns (count: int)
      modifies this
      ensures -1 <= count <= |buffer| && failed == (old(failed) || count == -1)
      ensures count == -1 ==> contents == old(contents) && offset == old(offset) && !sound
      ensures count >= 0 && full ==> count == |buffer|
      ensures count >= 0 ==> contents == WriteAt(old(contents), old(offset), buffer[..count]) &&
                             offset == old(offset) + count
    {
      count :| -1 <= count <= |buffer| && (sound ==> count >= 0) && (full && count >= 0 ==> count == |buffer|);
      if count >= 0 {
        contents := WriteAt(contents, offset, buffer[..count]);
        offset := offset + count;
      } else {
        failed := true;
      }
    }

    /** lseek from the current position; the program does not look at its result. */
    method SeekForward(n: nat)
      modifies this
      ensures contents == old(contents) && failed == old(failed)
      ensures offset == old(offset) + if seekable then n else 0
    {
      if seekable {
        offset := offset + n;
      }
    }
  }

  datatype Outcome = Copied | ReadFailed | WriteFailed

  /** The copy stands for a prefix of the source when only zeros are missing at its end. */
  ghost predicate StandsFor(contents: seq<Byte>, source: seq<Byte>) {
    |contents| <= |source| && source == contents + Zeros(|source| - |contents|)
  }

  lemma ExtendByHole(contents: seq<Byte>, source: seq<Byte>, from: nat, to: nat)
    requires from <= to <= |source| && StandsFor(contents, source[..from]) && AllZero(source[from..to])
    ensures StandsFor(contents, source[..to])
  {
    forall i | 0 <= i < to ensures source[..to][i] == (contents + Zeros(to - |contents|))[i] {
      if i < from {
        assert source[..from][i] == (contents + Zeros(from - |contents|))[i];
      } else {
        assert source[from..to][i - from] == 0;
      }
    }
  }

  lemma ExtendByData(contents: seq<Byte>, source: seq<Byte>, from: nat, to: nat)
    requires from < to <= |source| && StandsFor(contents, source[..from])
    ensures WriteAt(contents, from, source[from..to]) == source[..to]
  {
    assert source[..to] == source[..from] + source[from..to];
  }

  /** What holds between blocks: the copy stands for the part of the source counted so far, and is
      that part itself exactly when the last block was not a hole. */
  ghost predicate CopiedSoFar(contents: seq<Byte>, source: seq<Byte>, total: nat, last: nat) {
    && last <= total <= |source| && (last == 0 <==> total == 0)
    && StandsFor(contents, source[..total])
    && (contents == source[..total] <==> total == 0 || !AllZero(source[total - last..total]))
  }

  lemma AfterHole(contents: seq<Byte>, source: seq<Byte>, from: nat, to: nat, last: nat)
    requires CopiedSoFar(contents, source, from, last)
    requires from < to <= |source| && AllZero(source[from..to])
    ensures CopiedSoFar(contents, source, to, to - from)
  {
    ExtendByHole(contents, source, from, to);
    assert |contents| <= from;
  }

  lemma AfterData(contents: seq<Byte>, source: seq<Byte>, from: nat, to: nat, last: nat)
    requires CopiedSoFar(contents, source, from, last)
    requires from < to <= |source| && !AllZero(source[from..to])
    ensures CopiedSoFar(WriteAt(contents, from, source[from..to]), source, to, to - from)
  {
    ExtendByData(contents, source, from, to);
  }

  /** The length of the last block of a file read in full buffers. */
  function LastBlock(length: nat): nat {
    if length == 0 then 0 else (length - 1) % BUFFER_SIZE + 1
  }

  /** For a regular file: a read in progress starts after full blocks and fills a block or reaches the
      end, and after the last read the last block is what lies beyond the full ones. */
  ghost predicate Aligned(length: nat, total: nat, bytesRead: int, last: nat) {
    && (bytesRead > 0 ==> total % BUFFER_SIZE == 0 && (bytesRead == BUFFER_SIZE || total + bytesRead == length))
    && (bytesRead == 0 ==> last <= length && (length - last) % BUFFER_SIZE == 0)
  }

  lemma AlignedNext(length: nat, total: nat, bytesRead: nat, last: nat, next: int)
    requires bytesRead > 0 && Aligned(length, total, bytesRead, last) && total + bytesRead <= length
    requires next == 0 ==> total + bytesRead == length
    requires next > 0 ==> total + bytesRead < length && (next == BUFFER_SIZE || total + bytesRead + next == length)
    ensures Aligned(length, total + bytesRead, next, bytesRead)
  {
  }

  lemma LastBlockOf(length: nat, last: nat)
    requires last <= length && (length - last) % BUFFER_SIZE == 0
    requires last <= BUFFER_SIZE && (last == 0 <==> length == 0)
    ensures last == LastBlock(length)
  {
    if last != 0 {
      var full := (length - last) / BUFFER_SIZE;
      assert length - 1 == BUFFER_SIZE * full + (last - 1);
    }
  }

  /** The inner loop: is the block a hole? */
  method DetectHole(buffer: seq<Byte>) returns (hole: bool)
    ensures hole <==> AllZero(buffer)
  {
    for i := 0 to |buffer|
      invariant AllZero(buffer[..i])
    {
      if buffer[i] != 0 {
        return false;
      }
    }
    assert buffer[..|buffer|] == buffer;
    return true;
  }

  /** The number of bytes that are not zero. */
  function NonZero(s: seq<Byte>): nat {
    if s == [] then 0 else NonZero(s[..|s| - 1]) + if s[|s| - 1] != 0 then 1 else 0
  }

  lemma {:induction false} NonZeroFacts(s: seq<Byte>)
    ensures NonZero(s) <= |s| && (NonZero(s) == 0 <==> AllZero(s))
  {
    if s == [] {
    } else {
      NonZeroFacts(s[..|s| - 1]);
      assert AllZero(s) <==> AllZero(s[..|s| - 1]) && s[|s| - 1] == 0;
    }
  }

  lemma {:induction false} NonZeroConcat(s: seq<Byte>, t: seq<Byte>)
    ensures NonZero(s + t) == NonZero(s) + NonZero(t)
  {
    if t == [] {
      assert s + t == s;
    } else {
      NonZeroConcat(s, t[..|t| - 1]);
      assert (s + t)[..|s + t| - 1] == s + t[..|t| - 1];
    }
  }

  /** Every byte that is not zero is counted as data, and every data block contains one. */
  ghost predicate DataCounted(source: seq<Byte>, total: nat, data: nat)
    requires total <= |source|
  {
    NonZero(source[..total]) <= data <= BUFFER_SIZE * NonZero(source[..total])
  }

  lemma CountBlock(source: seq<Byte>, from: nat, to: nat, data: nat)
    requires from < to <= |source| && to - from <= BUFFER_SIZE && DataCounted(source, from, data)
    ensures DataCounted(source, to, if AllZero(source[from..to]) then data else data + (to - from))
  {
    assert source[..to] == source[..from] + source[from..to];
    NonZeroConcat(source[..from], source[from..to]);
    NonZeroFacts(source[from..to]);
  }

  lemma PrefixAllZero(source: seq<Byte>, from: nat, to: nat)
    requires from <= to <= |source|
    ensures AllZero(source[..to]) <==> AllZero(source[..from]) && AllZero(source[from..to])
  {
    assert source[..to] == source[..from] + source[from..to];
    if AllZero(source[..to]) {
      forall i | 0 <= i < from ensures source[..from][i] == 0 {
        assert source[..to][i] == 0;
      }
      forall i | 0 <= i < to - from ensures source[from..to][i] == 0 {
        assert source[..to][from + i] == 0;
      }
    }
  }

  /** As long as the source has only zeros nothing is written. */
  ghost predicate ZerosSkipped(source: seq<Byte>, contents: seq<Byte>, total: nat, data: nat, hole: nat)
    requires total <= |source|
  {
    AllZero(source[..total]) ==> contents == [] && data == 0 && hole == total
  }

  /** Everything the loop keeps about the destination and the counters after total bytes read. As
      long as the counters add up to the bytes read no write was short; then the data is counted
      exactly, and if no seek failed either the copy is in step. */
  ghost predicate Tally(source: seq<Byte>, contents: seq<Byte>, offset: nat, seekable: bool,
                        total: nat, data: nat, hole: nat, last: nat)
  {
    && data + hole <= total <= |source| && last <= total
    && (if seekable then |contents| <= offset == data + hole else |contents| == offset == data)
    && ZerosSkipped(source, contents, total, data, hole)
    && (data + hole == total ==> DataCounted(source, total, data))
    && (data + hole == total && (seekable || hole == 0) ==> CopiedSoFar(contents, source, total, last))
  }

  lemma TallyAtStart(source: seq<Byte>, seekable: bool)
    ensures Tally(source, [], 0, seekable, 0, 0, 0, 0)
  {
    assert source[..0] == [];
  }

  lemma TallyHole(source: seq<Byte>, contents: seq<Byte>, offset: nat, seekable: bool,
                  total: nat, data: nat, hole: nat, last: nat, n: nat)
    requires Tally(source, contents, offset, seekable, total, data, hole, last)
    requires 0 < n <= BUFFER_SIZE && total + n <= |source| && AllZero(source[total..total + n])
    ensures Tally(source, contents, if seekable then offset + n else offset, seekable, total + n, data, hole + n, n)
  {
    PrefixAllZero(source, total, total + n);
    if data + hole == total {
      CountBlock(source, total, total + n, data);
      if seekable {
        AfterHole(contents, source, total, total + n, last);
      }
    }
  }

  lemma TallyFullWrite(source: seq<Byte>, contents: seq<Byte>, offset: nat, seekable: bool,
                       total: nat, data: nat, hole: nat, last: nat, n: nat)
    requires Tally(source, contents, offset, seekable, total, data, hole, last)
    requires 0 < n <= BUFFER_SIZE && total + n <= |source| && !AllZero(source[total..total + n])
    ensures Tally(source, WriteAt(contents, offset, source[total..total + n]), offset + n,
                  seekable, total + n, data + n, hole, n)
  {
    PrefixAllZero(source, total, total + n);
    if data + hole == total {
      CountBlock(source, total, total + n, data);
      assert DataCounted(source, total + n, data + n);
      if seekable || hole == 0 {
        assert offset == total;
        AfterData(contents, source, total, total + n, last);
      }
    }
  }

  /** After a short write the counters never add up again. */
  lemma TallyShortWrite(source: seq<Byte>, contents: seq<Byte>, offset: nat, seekable: bool,
                        total: nat, data: nat, hole: nat, last: nat, n: nat, written: seq<Byte>)
    requires Tally(source, contents, offset, seekable, total, data, hole, last)
    requires 0 < n && total + n <= |source| && !AllZero(source[total..total + n]) && |written| < n
    ensures Tally(source, WriteAt(contents, offset, written), offset + |written|,
                  seekable, total + n, data + |written|, hole, n)
  {
    PrefixAllZero(source, total, total + n);
  }

  /** The body of the loop: seek over a hole or write a block of data, and count it. */
  method CopyBlock(dst: Destination, buffer: seq<Byte>, data0: nat, hole0: nat,
                   ghost source: seq<Byte>, ghost total: nat, ghost last: nat)
    returns (ok: bool, data: nat, hole: nat)
    requires 0 < |buffer| <= BUFFER_SIZE && total + |buffer| <= |source|
    requires buffer == source[total..total + |buffer|]
    requires Tally(source, dst.contents, dst.offset, dst.seekable, total, data0, hole0, last) && !dst.failed
    modifies dst
    ensures ok <==> !dst.failed
    ensures !ok ==> !dst.sound && data == data0 && hole == hole0 &&
                    dst.contents == old(dst.contents) && dst.offset == old(dst.offset)
    ensures AllZero(buffer) ==>
      ok && data == data0 && hole == hole0 + |buffer| && dst.contents == old(dst.contents)
    ensures ok && !AllZero(buffer) ==>
      && hole == hole0 && data0 <= data <= data0 + |buffer| && (dst.full ==> data == data0 + |buffer|)
      && dst.contents == WriteAt(old(dst.contents), old(dst.offset), buffer[..data - data0])
    ensures ok ==> Tally(source, dst.contents, dst.offset, dst.seekable, total + |buffer|, data, hole, |buffer|)
  {
    hide Tally, AllZero;
    ok, data, hole := true, data0, hole0;
    ghost var contents, offset := dst.contents, dst.offset;
    var holeDetected := DetectHole(buffer);
    if holeDetected {
      hole := hole + |buffer|;
      dst.SeekForward(|buffer|);
      TallyHole(source, contents, offset, dst.seekable, total, data0, hole0, last, |buffer|);
    } else {
      var bytesWritten := dst.Write(buffer);
      if bytesWritten < 0 {
        return false, data, hole;
      }
      data := data + bytesWritten;
      if bytesWritten < |buffer| {
        TallyShortWrite(source, contents, offset, dst.seekable, total, data0, hole0, last, |buffer|,
                        buffer[..bytesWritten]);
      } else {
        assert buffer[..bytesWritten] == buffer;
        TallyFullWrite(source, contents, offset, dst.seekable, total, data0, hole0, last, |buffer|);
      }
    }
  }

  /** What the tally says of a copy that reached the end of the source. */
  ghost predicate CopyResult(source: seq<Byte>, contents: seq<Byte>, seekable: bool,
                             data: nat, hole: nat, last: nat)
  {
    && last <= |source| && data + hole <= |source|
    && (contents == source <==>
          data + hole == |source| &&
          if seekable then source == [] || !AllZero(source[|source| - last..]) else hole == 0)
    && (data + hole == |source| && seekable ==> StandsFor(contents, source))
    && (data + hole == |source| ==> NonZero(source) <= data <= BUFFER_SIZE * NonZero(source))
  }

  lemma CopyEnds(source: seq<Byte>, contents: seq<Byte>, offset: nat, seekable: bool,
                 data: nat, hole: nat, last: nat)
    requires Tally(source, contents, offset, seekable, |source|, data, hole, last)
    ensures CopyResult(source, contents, seekable, data, hole, last)
  {
    var total := |source|;
    assert source[..total] == source && source[total - last..total] == source[total - last..];
  }

  /** The whole copy, for every chunking of the reads, every short write, a destination that may not
      seek, and a failure anywhere. The ghost results are the bytes of the blocks dealt with and the
      size of the last of them. */
  method Copy(src: Source, dst: Destination)
    returns (outcome: Outcome, total: nat, data: nat, hole: nat, ghost counted: nat, ghost last: nat)
    requires src.offset == 0 && dst.contents == [] && dst.offset == 0 && !src.failed && !dst.failed
    modifies src, dst
    ensures counted <= total && (outcome != WriteFailed ==> counted == total)
    ensures (outcome == ReadFailed <==> src.failed) && (outcome == WriteFailed <==> dst.failed)
    ensures (src.failed ==> !src.sound) && (dst.failed ==> !dst.sound)
    ensures outcome == Copied && dst.full ==> data + hole == total
    ensures Tally(src.data, dst.contents, dst.offset, dst.seekable, counted, data, hole, last)
    ensures outcome == Copied ==>
      && total == |src.data| && (src.regular ==> last == LastBlock(total))
      && CopyResult(src.data, dst.contents, dst.seekable, data, hole, last)
  {
    hide Tally, CopyResult, AllZero, WriteAt;
    total, data, hole, counted, last := 0, 0, 0, 0, 0;
    ghost var length := |src.data|;
    TallyAtStart(src.data, dst.seekable);
    var bytesRead, buffer := src.Read(BUFFER_SIZE);
    while bytesRead > 0
      invariant -1 <= bytesRead <= BUFFER_SIZE && src.offset <= length
      invariant src.offset == total + if bytesRead > 0 then bytesRead else 0
      invariant bytesRead == 0 ==> total == length
      invariant bytesRead > 0 ==> |buffer| == bytesRead && buffer == src.data[total..src.offset]
      invariant dst.full ==> data + hole == total
      invariant src.failed == (bytesRead < 0) && (src.failed ==> !src.sound) && !dst.failed
      invariant counted == total && last <= BUFFER_SIZE && (last == 0 <==> total == 0)
      invariant Tally(src.data, dst.contents, dst.offset, dst.seekable, total, data, hole, last)
      invariant src.regular ==> Aligned(length, total, bytesRead, last)
      decreases length - total
    {
      total := total + bytesRead;
      var ok;
      ok, data, hole := CopyBlock(dst, buffer, data, hole, src.data, counted, last);
      if !ok {
        return WriteFailed, total, data, hole, counted, last;
      }
      ghost var before, previous := counted, last;
      counted, last := total, bytesRead;
      bytesRead, buffer := src.Read(BUFFER_SIZE);
      if src.regular {
        AlignedNext(length, before, last, previous, bytesRead);
      }
    }
    if bytesRead < 0 {
      return ReadFailed, total, data, hole, counted, last;
    }
    if src.regular {
      LastBlockOf(length, last);
    }
    CopyEnds(src.data, dst.contents, dst.offset, dst.seekable, data, hole, last);
    return Copied, total, data, hole, counted, last;
  }

  /** Where the last block of a file begins, counting in blocks of 4096 bytes. */
  function LastBlockStart(length: nat): nat {
    if length == 0 then 0 else (length - 1) / 4096 * 4096
  }

  lemma LastBlockBegins(length: nat)
    ensures length - LastBlock(length) == LastBlockStart(length)
  {
  }

  /** A regular file into a regular file. The counters the program prints tell whether anything was
      lost on the way, and where no call fails and no write is short nothing is; then the copy is the
      file exactly when the file's last block is not a hole: a condition on the file alone. */
  method CopyRegular(bytes: seq<Byte>, healthy: bool) returns (complete: bool, copy: seq<Byte>)
    ensures healthy ==> complete
    ensures complete ==> StandsFor(copy, bytes)
    ensures complete ==> (copy == bytes <==> bytes == [] || !AllZero(bytes[LastBlockStart(|bytes|)..]))
  {
    var src := new Source(bytes, true, healthy);
    var dst := new Destination(true, healthy, healthy);
    var outcome, total, data, hole, _, last := Copy(src, dst);
    LastBlockBegins(|bytes|);
    return outcome == Copied && data + hole == total, dst.contents;
  }

  /** A file of zeros, of any length and kind, to any destination, whether or not calls fail: the
      copy is empty, and the counters report every byte of a finished one as part of a hole. */
  method CopyZeros(bytes: seq<Byte>, regular: bool, seekable: bool, healthy: bool)
    returns (outcome: Outcome, data: nat, hole: nat, copy: seq<Byte>)
    requires AllZero(bytes)
    ensures copy == [] && data == 0 && (healthy ==> outcome == Copied)
    ensures outcome == Copied ==> hole == |bytes|
  {
    var src := new Source(bytes, regular, healthy);
    var dst := new Destination(seekable, healthy, healthy);
    var total;
    ghost var counted, last;
    outcome, total, data, hole, counted, last := Copy(src, dst);
    copy := dst.contents;
    PrefixAllZero(bytes, counted, |bytes|);
    assert bytes[..|bytes|] == bytes;
  }
}
