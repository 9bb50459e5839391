/**
 The receiver's disk and the operations of resumable.rs on it: a transfer in progress lives
 in a residue beside its final path, written in place, and is renamed when it is complete.
 Operations are assumed to succeed unless the code's own branches say otherwise.
 */
module Disk {
  import opened Bytes
  import opened Names

  function Zeros(n: nat): (z: seq<byte>)
    ensures |z| == n
  {
    seq(n, i => 0)
  }

  /** Seek to `offset`, write `data`; a gap reads as zeros, but nothing written leaves no gap. */
  function WriteAt(content: seq<byte>, offset: nat, data: seq<byte>): (r: seq<byte>)
    ensures |r| == if data != [] && offset + |data| > |content| then offset + |data| else |content|
  {
    if data == [] then content
    else if offset > |content| then content + Zeros(offset - |content|) + data
    else content[..offset] + data + (if offset + |data| < |content| then content[offset + |data|..] else [])
  }

  lemma WriteAtEnd(content: seq<byte>, data: seq<byte>)
    ensures WriteAt(content, |content|, data) == content + data
  {
    assert content[..|content|] == content;
  }

  /** Byte by byte: what was written, around it what was there, and zeros in a gap. */
  lemma WriteAtPoint(content: seq<byte>, offset: nat, data: seq<byte>, k: nat)
    requires k < |WriteAt(content, offset, data)|
    ensures WriteAt(content, offset, data)[k]
         == if offset <= k < offset + |data| then data[k - offset] else if k < |content| then content[k] else 0
  {
  }

  function LengthOf(files: Files, p: Path): nat {
    if p in files then |files[p]| else 0
  }

  /** A residue longer than the whole file is thrown away. */
  function Validated(files: Files, partial: Path, size: nat): Files {
    if LengthOf(files, partial) > size then files - {partial} else files
  }

  /** The residue a transfer of `size` bytes goes on from. */
  function Resumed(files: Files, partial: Path, size: nat): (base: seq<byte>)
    ensures |base| == LengthOf(Validated(files, partial, size), partial) <= size
  {
    if partial in files && |files[partial]| <= size then files[partial] else []
  }

  function Opened(files: Files, partial: Path): Files {
    if partial in files then files else files[partial := []]
  }

  /** Rename over whatever was at the final path. */
  function Finalized(files: Files, partial: Path, final: Path): Files
    requires partial in files && partial != final
  {
    (files - {partial})[final := files[partial]]
  }

  class Disk {
    var files: Files

    constructor (files: Files)
      ensures this.files == files
    {
      this.files := files;
    }

    method ResumeOffset(partial: Path) returns (n: nat)
      ensures n == LengthOf(files, partial)
    {
      if partial !in files {
        return 0;
      }
      return |files[partial]|;
    }

    method ValidateResume(partial: Path, size: nat) returns (offset: nat)
      modifies this
      ensures files == Validated(old(files), partial, size)
      ensures offset == LengthOf(files, partial) && offset <= size
    {
      offset := ResumeOffset(partial);
      if offset > size {
        files := files - {partial};
        return 0;
      }
    }

    method OpenPartial(partial: Path)
      modifies this
      ensures files == Opened(old(files), partial)
    {
      if partial !in files {
        files := files[partial := []];
      }
    }

    method WriteChunk(partial: Path, data: seq<byte>, offset: nat)
      requires partial in files
      modifies this
      ensures files == old(files)[partial := WriteAt(old(files)[partial], offset, data)]
    {
      files := files[partial := WriteAt(files[partial], offset, data)];
    }

    /** Fails, after the old file is gone, when there is nothing to rename. */
    method Finalize(partial: Path, final: Path) returns (ok: bool)
      requires partial != final
      modifies this
      ensures ok <==> partial in old(files)
      ensures ok ==> files == Finalized(old(files), partial, final)
      ensures !ok ==> files == old(files) - {final}
    {
      if final in files {
        files := files - {final};
      }
      if partial !in files {
        return false;
      }
      files := (files - {partial})[final := files[partial]];
      return true;
    }
  }
}
