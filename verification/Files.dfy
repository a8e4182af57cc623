/** `files_equal`: a lock-step comparison of two files through bounded reads. */
module Files {
  import opened Bytes

  const BUFFER_SIZE := 16 * 1024

  /** An open file; one `Read` may return fewer bytes than the buffer holds. */
  class FileReader {
    const contents: bytes
    var position: nat

    ghost predicate Valid()
      reads this
    {
      position <= |contents|
    }

    constructor (contents: bytes)
      ensures Valid() && this.contents == contents && position == 0
    {
      this.contents := contents;
      position := 0;
    }

    method Read(full: bool) returns (chunk: bytes)
      requires Valid()
      modifies this
      ensures Valid() && position == old(position) + |chunk|
      ensures chunk == contents[old(position)..position] && |chunk| <= BUFFER_SIZE
      ensures chunk == [] <==> old(position) == |contents|
      ensures full ==> |chunk| == BUFFER_SIZE || position == |contents|
    {
      var remaining := |contents| - position;
      var limit := if remaining < BUFFER_SIZE then remaining else BUFFER_SIZE;
      var n: nat := limit;
      if !full && limit > 0 {
        n :| 1 <= n <= limit;
      }
      chunk := contents[position..position + n];
      position := position + n;
    }
  }

  /**
    Equal is never reported of different files, however short the reads are; when reads
    fill the buffer the answer is exact.
   */
  method FilesEqual(left: bytes, right: bytes, fullReads: bool) returns (same: bool)
    ensures same ==> left == right
    ensures fullReads && left == right ==> same
  {
    if |left| != |right| {
      return false;
    }
    var l := new FileReader(left);
    var r := new FileReader(right);
    while true
      invariant l.Valid() && r.Valid() && l.contents == left && r.contents == right
      invariant l.position == r.position && left[..l.position] == right[..l.position]
      decreases |left| - l.position
    {
      var at := l.position;
      var leftChunk := l.Read(fullReads);
      var rightChunk := r.Read(fullReads);
      if |leftChunk| != |rightChunk| {
        return false;
      }
      if leftChunk == [] {
        assert left == left[..at] && right == right[..at];
        return true;
      }
      if leftChunk != rightChunk {
        return false;
      }
      assert left[..l.position] == left[..at] + leftChunk;
      assert right[..l.position] == right[..at] + rightChunk;
    }
  }
}
