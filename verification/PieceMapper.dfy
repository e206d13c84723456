/** The two ways the client maps pieces to files: on demand by binary search, and eagerly into a table. */
module PieceMapper {
  import opened Common
  import opened PieceLayout

  /** The lengths named by a torrent, as its single-file or multi-file form gives them. */
  datatype Torrent = SingleFile(length: nat) | MultiFile(lengths: seq<nat>)
  {
    function Sizes(): seq<nat> {
      match this
      case SingleFile(length) => [length]
      case MultiFile(lengths) => lengths
    }
  }

  datatype FileRange = FileRange(startByte: nat, endByte: nat)

  lemma StartStep(sizes: seq<nat>, i: nat)
    requires i < |sizes|
    ensures Start(sizes, i + 1) == Start(sizes, i) + sizes[i]
  {
    assert sizes[..i + 1][..i] == sizes[..i];
  }

  lemma {:induction false} StartsGrow(sizes: seq<nat>, i: nat, j: nat)
    requires i <= j <= |sizes|
    ensures Start(sizes, i) <= Start(sizes, j)
    decreases j
  {
    if i < j {
      StartsGrow(sizes, i, j - 1);
      StartStep(sizes, j - 1);
    }
  }

  lemma RunsStep(sizes: seq<nat>, i: nat, lo: nat, hi: nat)
    requires i < |sizes|
    ensures Runs(sizes[..i + 1], lo, hi) == Runs(sizes[..i], lo, hi) + Cut(i, Start(sizes, i), sizes[i], lo, hi)
  {
    assert sizes[..i + 1][..i] == sizes[..i];
  }

  /** Files that end before the piece begins add no run. */
  lemma {:induction false} NothingBefore(sizes: seq<nat>, lo: nat, hi: nat)
    requires Total(sizes) <= lo
    ensures Runs(sizes, lo, hi) == []
  {
    if sizes != [] {
      NothingBefore(sizes[..|sizes| - 1], lo, hi);
    }
  }

  /** Files that start after the piece ends add no run. */
  lemma {:induction false} NothingAfter(sizes: seq<nat>, i: nat, lo: nat, hi: nat)
    requires i <= |sizes| && (i == |sizes| || hi <= Start(sizes, i) || hi <= lo)
    ensures Runs(sizes, lo, hi) == Runs(sizes[..i], lo, hi)
    decreases |sizes| - i
  {
    if i == |sizes| {
      assert sizes[..i] == sizes;
    } else {
      RunsStep(sizes, i, lo, hi);
      StartStep(sizes, i);
      NothingAfter(sizes, i + 1, lo, hi);
    }
  }

  /** What is left of a piece of `length` bytes at `mark` once the first `covered` bytes of the download are placed. */
  function Left(covered: nat, mark: nat, length: nat): nat {
    if covered <= mark then length
    else if covered <= mark + length then mark + length - covered
    else 0
  }

  lemma NothingTaken(covered: nat, mark: nat, length: nat)
    requires covered <= mark
    ensures Left(covered, mark, length) == length
  {
  }

  lemma LeftIsZero(covered: nat, mark: nat, length: nat)
    ensures Left(covered, mark, length) == 0 ==> mark + length <= covered || length == 0
  {
  }

  lemma FirstStart(sizes: seq<nat>)
    ensures Start(sizes, 0) == 0
  {
  }

  /** What one file gives to a piece that is not yet complete, in the terms the search computes it in. */
  lemma CutIsTaken(file: nat, start: nat, end: nat, mark: nat, length: nat)
    requires start <= end && mark <= end && Left(start, mark, length) > 0
    ensures var available := if mark > start then end - mark else end - start;
            var writable := Min(available, Left(start, mark, length));
            if start == end || mark == end then
              && Cut(file, start, end - start, mark, mark + length) == []
              && Left(end, mark, length) == Left(start, mark, length)
            else
              && Cut(file, start, end - start, mark, mark + length)
              == [FilePiece(file, if mark > start then mark - start else 0, writable)]
              && Left(end, mark, length) == Left(start, mark, length) - writable
  {
  }

  /** `piece_mapper_t`: a table of where each file starts and ends, searched piece by piece. */
  class PieceMapper {
    const pieceLength: nat
    const fileRanges: array<FileRange>
    ghost const sizes: seq<nat>

    ghost predicate Valid()
      reads fileRanges
    {
      && fileRanges.Length == |sizes|
      && forall i :: 0 <= i < |sizes| ==> fileRanges[i] == FileRange(Start(sizes, i), Start(sizes, i) + sizes[i])
    }

    constructor (torrent: Torrent, pieceLength: nat)
      ensures Valid() && fresh(fileRanges)
      ensures sizes == torrent.Sizes() && this.pieceLength == pieceLength
    {
      this.pieceLength := pieceLength;
      this.sizes := torrent.Sizes();
      var ranges := new FileRange[|torrent.Sizes()|](_ => FileRange(0, 0));
      fileRanges := ranges;
      new;
      match torrent
      case SingleFile(length) =>
        ranges[0] := FileRange(0, length);
      case MultiFile(files) =>
        var startByte := 0;
        for fileIndex := 0 to |files|
          invariant startByte == Start(files, fileIndex)
          invariant forall i :: 0 <= i < fileIndex ==>
            ranges[i] == FileRange(Start(files, i), Start(files, i) + files[i])
        {
          StartStep(files, fileIndex);
          ranges[fileIndex] := FileRange(startByte, files[fileIndex] + startByte);
          startByte := startByte + files[fileIndex];
        }
    }

    ghost predicate ReachesFrom(mark: nat, first: nat)
      reads fileRanges
    {
      forall k :: first <= k < fileRanges.Length ==> mark <= fileRanges[k].endByte
    }

    lemma RangeAt(mark: nat, i: nat)
      requires Valid() && ReachesFrom(mark, i) && i < fileRanges.Length
      ensures fileRanges.Length == |sizes| && mark <= fileRanges[i].endByte && ReachesFrom(mark, i + 1)
      ensures fileRanges[i] == FileRange(Start(sizes, i), Start(sizes, i + 1))
    {
      StartStep(sizes, i);
    }

    /** `std::lower_bound` on the ends: the first file that does not end before `mark`. */
    method LowerBound(mark: nat) returns (first: nat)
      requires Valid()
      ensures first <= fileRanges.Length
      ensures forall k :: 0 <= k < first ==> fileRanges[k].endByte < mark
      ensures ReachesFrom(mark, first)
    {
      EndsAreSorted();
      first := 0;
      var count: nat := fileRanges.Length;
      while count > 0
        invariant first + count <= fileRanges.Length
        invariant forall k :: 0 <= k < first ==> fileRanges[k].endByte < mark
        invariant forall k :: first + count <= k < fileRanges.Length ==> mark <= fileRanges[k].endByte
      {
        var step := count / 2;
        var middle := first + step;
        if fileRanges[middle].endByte < mark {
          first := middle + 1;
          count := count - (step + 1);
        } else {
          count := step;
        }
      }
    }

    lemma EndsAreSorted()
      requires Valid()
      ensures forall j, k :: 0 <= j <= k < fileRanges.Length ==> fileRanges[j].endByte <= fileRanges[k].endByte
    {
      forall j, k | 0 <= j <= k < fileRanges.Length
        ensures fileRanges[j].endByte <= fileRanges[k].endByte
      {
        StartStep(sizes, j);
        StartStep(sizes, k);
        StartsGrow(sizes, j + 1, k + 1);
      }
    }

    method FilesFor(pieceIndex: nat) returns (files: seq<FilePiece>)
      requires Valid()
      ensures files == Runs(sizes, pieceIndex * pieceLength, (pieceIndex + 1) * pieceLength)
    {
      Next(pieceIndex, pieceLength);
      files := FilesAt(pieceIndex * pieceLength);
    }

    /** The rest of `files_for`, once the piece's first byte is known. */
    method FilesAt(mark: nat) returns (files: seq<FilePiece>)
      requires Valid()
      ensures files == Runs(sizes, mark, mark + pieceLength)
    {
      hide Runs, Total, Cut, Left, ReachesFrom;
      ghost var hi := mark + pieceLength;
      var fileIdx := LowerBound(mark);
      files := [];
      var remaining: nat := pieceLength;
      if fileIdx == 0 {
        FirstStart(sizes);
      } else {
        StartStep(sizes, fileIdx - 1);
      }
      NothingBefore(sizes[..fileIdx], mark, hi);
      NothingTaken(Start(sizes, fileIdx), mark, pieceLength);
      hide Valid;
      while fileIdx < fileRanges.Length && remaining != 0
        invariant fileIdx <= fileRanges.Length == |sizes|
        invariant files == Runs(sizes[..fileIdx], mark, hi)
        invariant remaining == Left(Start(sizes, fileIdx), mark, pieceLength)
        invariant ReachesFrom(mark, fileIdx)
      {
        RangeAt(mark, fileIdx);
        var range := fileRanges[fileIdx];
        var fileStart := 0;
        var available := range.endByte - range.startByte;
        RunsStep(sizes, fileIdx, mark, hi);
        StartStep(sizes, fileIdx);
        CutIsTaken(fileIdx, range.startByte, range.endByte, mark, pieceLength);
        if available == 0 || mark == range.endByte {
          fileIdx := fileIdx + 1;
          continue;
        }
        if mark > range.startByte {
          fileStart := mark - range.startByte;
          available := range.endByte - mark;
        }
        var writable := Min(available, remaining);
        files := files + [FilePiece(fileIdx, fileStart, writable)];
        remaining := remaining - writable;
        fileIdx := fileIdx + 1;
      }
      LeftIsZero(Start(sizes, fileIdx), mark, pieceLength);
      NothingAfter(sizes, fileIdx, mark, hi);
    }
  }

  // The eager table.

  /** Entry by entry, the table holds the runs of a download of these sizes. */
  ghost predicate Filled(pieceMap: seq<seq<FilePiece>>, sizes: seq<nat>, length: nat) {
    forall q :: 0 <= q < |pieceMap| ==> pieceMap[q] == Runs(sizes, q * length, (q + 1) * length)
  }

  /** One more chunk of a file goes to the piece it lies in as a run of its own. */
  lemma ChunkIsARun(front: seq<nat>, offset: nat, chunk: nat, lo: nat, hi: nat)
    requires 0 < chunk
    requires lo <= Total(front) + offset && (offset == 0 || Total(front) + offset == lo)
    requires Total(front) + offset + chunk <= hi
    ensures Runs(front + [offset + chunk], lo, hi)
         == Runs(front + [offset], lo, hi) + [FilePiece(|front|, offset, chunk)]
  {
    assert (front + [offset + chunk])[..|front|] == front;
    assert (front + [offset])[..|front|] == front;
  }

  /** It changes nothing for the others. */
  lemma ChunkIsElsewhere(front: seq<nat>, offset: nat, chunk: nat, lo: nat, hi: nat)
    requires hi <= Total(front) + offset || Total(front) + offset + chunk <= lo
    ensures Runs(front + [offset + chunk], lo, hi) == Runs(front + [offset], lo, hi)
  {
    assert (front + [offset + chunk])[..|front|] == front;
    assert (front + [offset])[..|front|] == front;
  }

  lemma Monotone(a: nat, b: nat, n: nat)
    requires a <= b
    ensures a * n <= b * n
  {
  }

  lemma BelowIsBelow(a: nat, b: nat, n: nat)
    requires a * n < b * n
    ensures a < b
  {
    if b <= a { Monotone(b, a, n); }
  }

  /** A chunk of the file after `front`, from `offset` on, lies in piece `current` and starts a run there. */
  ghost predicate Fits(front: seq<nat>, offset: nat, chunk: nat, current: nat, length: nat) {
    && 0 < chunk
    && current * length <= Total(front) + offset
    && (offset == 0 || Total(front) + offset == current * length)
    && Total(front) + offset + chunk <= (current + 1) * length
  }

  lemma PushOnce(front: seq<nat>, offset: nat, chunk: nat, current: nat, length: nat, q: nat)
    requires Fits(front, offset, chunk, current, length)
    ensures var lo, hi := q * length, (q + 1) * length;
            Runs(front + [offset + chunk], lo, hi)
              == Runs(front + [offset], lo, hi) + if q == current then [FilePiece(|front|, offset, chunk)] else []
  {
    hide Runs, Total;
    var lo, hi := q * length, (q + 1) * length;
    if q == current {
      ChunkIsARun(front, offset, chunk, lo, hi);
    } else {
      if q < current {
        Monotone(q + 1, current, length);
      } else {
        Monotone(current + 1, q, length);
      }
      ChunkIsElsewhere(front, offset, chunk, lo, hi);
    }
  }

  lemma PushKeeps(pieceMap: seq<seq<FilePiece>>, front: seq<nat>, offset: nat, chunk: nat, current: nat, length: nat)
    requires Filled(pieceMap, front + [offset], length) && current < |pieceMap|
    requires Fits(front, offset, chunk, current, length)
    ensures Filled(pieceMap[current := pieceMap[current] + [FilePiece(|front|, offset, chunk)]],
                   front + [offset + chunk], length)
  {
    hide Runs, Fits;
    var pushed := pieceMap[current := pieceMap[current] + [FilePiece(|front|, offset, chunk)]];
    forall q | 0 <= q < |pushed|
      ensures pushed[q] == Runs(front + [offset + chunk], q * length, (q + 1) * length)
    {
      PushOnce(front, offset, chunk, current, length, q);
    }
  }

  /** An empty file at the end changes no run. */
  lemma EmptyFileKeeps(pieceMap: seq<seq<FilePiece>>, front: seq<nat>, length: nat)
    requires Filled(pieceMap, front, length)
    ensures Filled(pieceMap, front + [0], length)
  {
    assert (front + [0])[..|front|] == front;
  }

  /** Where the walk stands: `remainder` bytes of the current piece are already in earlier files. */
  ghost predicate Standing(position: nat, current: nat, remainder: nat, length: nat) {
    && remainder < length
    && (remainder == 0 ==> position == current * length)
    && (remainder > 0 ==> position + remainder == (current + 1) * length)
  }

  /** A chunk that stays in the current piece fits, and its piece is one the torrent counts. */
  lemma ChunkFits(front: seq<nat>, offset: nat, chunk: nat, current: nat, remainder: nat, length: nat, total: nat)
    requires Standing(Total(front) + offset, current, remainder, length)
    requires 0 < chunk <= (if remainder == 0 then length else remainder)
    requires remainder == 0 || offset == 0
    requires Total(front) + offset + chunk <= total
    ensures Fits(front, offset, chunk, current, length)
    ensures current < CeilDiv(total, length)
  {
    CeilDivCovers(total, length);
    Next(current, length);
    BelowIsBelow(current, CeilDiv(total, length), length);
  }

  /** Where the walk stands after that chunk. */
  lemma ChunkMoves(position: nat, chunk: nat, current: nat, remainder: nat, length: nat)
    requires Standing(position, current, remainder, length)
    requires 0 < chunk <= (if remainder == 0 then length else remainder)
    ensures var left := (if remainder == 0 then length else remainder) - chunk;
            if left == 0 then Standing(position + chunk, current + 1, 0, length)
            else Standing(position + chunk, current, left, length)
  {
    Next(current, length);
  }

  /**
   * The multi-file branch of `create_piece_map`. That every index is in range, and that no entry is missed, is
   * what a valid torrent's piece count is for.
   */
  method CreatePieceMap(sizes: seq<nat>, length: nat, pieceCount: nat) returns (pieceMap: seq<seq<FilePiece>>)
    requires 0 < length && pieceCount == CeilDiv(Total(sizes), length)
    ensures |pieceMap| == pieceCount
    ensures forall p :: 0 <= p < pieceCount ==> pieceMap[p] == Runs(sizes, p * length, (p + 1) * length)
  {
    pieceMap := seq(pieceCount, _ => []);
    var current, prevRemainder := 0, 0;
    assert 0 * length == 0;
    for fileIndex := 0 to |sizes|
      invariant |pieceMap| == pieceCount
      invariant Filled(pieceMap, sizes[..fileIndex], length)
      invariant Standing(Start(sizes, fileIndex), current, prevRemainder, length)
    {
      pieceMap, current, prevRemainder := MapFile(sizes, fileIndex, length, pieceMap, current, prevRemainder);
    }
    assert sizes[..|sizes|] == sizes;
  }

  /** One turn of the walk over the files. */
  method MapFile(sizes: seq<nat>, fileIndex: nat, length: nat, pieceMap0: seq<seq<FilePiece>>, current0: nat,
                 prevRemainder0: nat)
    returns (pieceMap: seq<seq<FilePiece>>, current: nat, prevRemainder: nat)
    requires 0 < length && fileIndex < |sizes| && |pieceMap0| == CeilDiv(Total(sizes), length)
    requires Filled(pieceMap0, sizes[..fileIndex], length)
    requires prevRemainder0 < length && Standing(Start(sizes, fileIndex), current0, prevRemainder0, length)
    ensures |pieceMap| == |pieceMap0|
    ensures Filled(pieceMap, sizes[..fileIndex + 1], length)
    ensures Standing(Start(sizes, fileIndex + 1), current, prevRemainder, length)
  {
    hide Filled, Total, Standing, Fits;
    pieceMap, current, prevRemainder := pieceMap0, current0, prevRemainder0;
    var fileSize := sizes[fileIndex];
    var offset: nat, remaining: nat := 0, fileSize;
    ghost var front, total := sizes[..fileIndex], Total(sizes);
    FileIsInside(sizes, fileIndex);
    EmptyFileKeeps(pieceMap, front, length);
    if prevRemainder != 0 && remaining >= prevRemainder {
      ChunkFits(front, offset, prevRemainder, current, prevRemainder, length, total);
      ChunkMoves(Total(front) + offset, prevRemainder, current, prevRemainder, length);
      PushKeeps(pieceMap, front, offset, prevRemainder, current, length);
      pieceMap := pieceMap[current := pieceMap[current] + [FilePiece(fileIndex, offset, prevRemainder)]];
      current := current + 1;
      remaining := remaining - prevRemainder;
      offset := offset + prevRemainder;
      prevRemainder := 0;
    }
    while remaining >= length
      invariant |pieceMap| == |pieceMap0| && offset + remaining == fileSize
      invariant Filled(pieceMap, front + [offset], length)
      invariant Standing(Total(front) + offset, current, prevRemainder, length)
      invariant prevRemainder == 0 || (offset == 0 && remaining < prevRemainder < length)
    {
      ChunkFits(front, offset, length, current, prevRemainder, length, total);
      ChunkMoves(Total(front) + offset, length, current, prevRemainder, length);
      PushKeeps(pieceMap, front, offset, length, current, length);
      pieceMap := pieceMap[current := pieceMap[current] + [FilePiece(fileIndex, offset, length)]];
      current := current + 1;
      offset := offset + length;
      remaining := remaining - length;
    }
    if remaining != 0 {
      ChunkFits(front, offset, remaining, current, prevRemainder, length, total);
      ChunkMoves(Total(front) + offset, remaining, current, prevRemainder, length);
      PushKeeps(pieceMap, front, offset, remaining, current, length);
      pieceMap := pieceMap[current := pieceMap[current] + [FilePiece(fileIndex, offset, remaining)]];
      prevRemainder := (if prevRemainder != 0 then prevRemainder else length) - remaining;
    }
    assert front + [fileSize] == sizes[..fileIndex + 1];
  }

  lemma FileIsInside(sizes: seq<nat>, i: nat)
    requires i < |sizes|
    ensures Start(sizes, i + 1) == Total(sizes[..i]) + sizes[i] <= Total(sizes)
  {
    StartStep(sizes, i);
    StartsGrow(sizes, i + 1, |sizes|);
    assert sizes[..|sizes|] == sizes;
  }

  /** The table and the search agree on every piece of every valid multi-file torrent. */
  method TableAndSearchAgree(sizes: seq<nat>, length: nat, pieceIndex: nat)
    returns (entry: seq<FilePiece>, found: seq<FilePiece>)
    requires 0 < length && pieceIndex < CeilDiv(Total(sizes), length)
    ensures entry == found == Runs(sizes, pieceIndex * length, (pieceIndex + 1) * length)
  {
    var table := CreatePieceMap(sizes, length, CeilDiv(Total(sizes), length));
    var mapper := new PieceMapper(MultiFile(sizes), length);
    entry := table[pieceIndex];
    found := mapper.FilesFor(pieceIndex);
  }

  // One file.

  /** A full-length run from piece `p` on is what the piece covers exactly when the piece is a full one. */
  lemma FullRun(total: nat, length: nat, p: nat)
    requires 0 < length && p * length < total
    ensures [FilePiece(0, p * length, length)] == Runs([total], p * length, (p + 1) * length)
        <==> (p + 1) * length <= total
  {
    Next(p, length);
    assert [total][..0] == [];
    assert Runs([total], p * length, (p + 1) * length) == Cut(0, 0, total, p * length, (p + 1) * length);
  }

  lemma CountedPieceStarts(total: nat, length: nat, p: nat)
    requires 0 < length && p < CeilDiv(total, length)
    ensures p * length < total
  {
    CeilDivCovers(total, length);
    Monotone(p, CeilDiv(total, length) - 1, length);
  }

  lemma LastIsFull(total: nat, length: nat)
    requires 0 < length && total > 0
    ensures var last := CeilDiv(total, length) - 1;
            last >= 0 && ((last + 1) * length <= total <==> total % length == 0)
  {
    var q, r := total / length, total % length;
    assert total == q * length + r;
    Next(q, length);
  }

  /**
   * The single-file branch of `create_piece_map`. Every entry but a short last one is the runs of its piece, so
   * the table is right exactly when the length is a whole number of pieces.
   */
  method CreateSinglePieceMap(total: nat, length: nat, pieceCount: nat) returns (pieceMap: seq<seq<FilePiece>>)
    requires 0 < length && pieceCount == CeilDiv(total, length)
    ensures |pieceMap| == pieceCount
    ensures forall p :: 0 <= p < pieceCount ==> pieceMap[p] == [FilePiece(0, p * length, length)]
    ensures forall p :: 0 <= p < pieceCount ==>
      (pieceMap[p] == Runs([total], p * length, (p + 1) * length) <==> (p + 1) * length <= total)
    ensures Filled(pieceMap, [total], length) <==> total % length == 0
  {
    pieceMap := seq(pieceCount, _ => []);
    for pieceIdx := 0 to pieceCount
      invariant |pieceMap| == pieceCount
      invariant forall p :: 0 <= p < pieceIdx ==> pieceMap[p] == [FilePiece(0, p * length, length)]
      invariant forall p :: pieceIdx <= p < pieceCount ==> pieceMap[p] == []
    {
      pieceMap := pieceMap[pieceIdx := pieceMap[pieceIdx] + [FilePiece(0, pieceIdx * length, length)]];
    }
    UntrimmedTable(pieceMap, total, length);
  }

  lemma UntrimmedTable(pieceMap: seq<seq<FilePiece>>, total: nat, length: nat)
    requires 0 < length && |pieceMap| == CeilDiv(total, length)
    requires forall p :: 0 <= p < |pieceMap| ==> pieceMap[p] == [FilePiece(0, p * length, length)]
    ensures forall p :: 0 <= p < |pieceMap| ==>
      (pieceMap[p] == Runs([total], p * length, (p + 1) * length) <==> (p + 1) * length <= total)
    ensures Filled(pieceMap, [total], length) <==> total % length == 0
  {
    hide Runs, CeilDiv;
    forall p | 0 <= p < |pieceMap|
      ensures pieceMap[p] == Runs([total], p * length, (p + 1) * length) <==> (p + 1) * length <= total
      ensures (p + 1) * length <= |pieceMap| * length
    {
      Monotone(p + 1, |pieceMap|, length);
      CountedPieceStarts(total, length, p);
      FullRun(total, length, p);
    }
    if total > 0 {
      LastIsFull(total, length);
      var last := |pieceMap| - 1;
      assert pieceMap[last] == [FilePiece(0, last * length, length)];
    } else {
      NoPieces(length);
    }
  }

  lemma NoPieces(length: nat)
    requires 0 < length
    ensures CeilDiv(0, length) == 0 && 0 % length == 0
  {
  }
}
