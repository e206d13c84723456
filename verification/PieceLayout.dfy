/** Where the bytes of a download lie: files one after the other, pieces of equal length across them. */
module PieceLayout {
  import opened Common

  /** A run of bytes inside one file. */
  datatype FilePiece = FilePiece(file: nat, offset: nat, size: nat)

  /** One byte of the download: its file and its place in it. */
  datatype Place = Place(file: nat, offset: nat)

  function Total(sizes: seq<nat>): nat {
    if sizes == [] then 0 else Total(sizes[..|sizes| - 1]) + sizes[|sizes| - 1]
  }

  /** Where file `i` starts. */
  function Start(sizes: seq<nat>, i: nat): nat
    requires i <= |sizes|
  {
    Total(sizes[..i])
  }

  function Bytes(file: nat, offset: nat, size: nat): (places: seq<Place>)
    ensures |places| == size && forall k :: 0 <= k < size ==> places[k] == Place(file, offset + k)
  {
    seq(size, k requires 0 <= k => Place(file, offset + k))
  }

  /** The whole download, byte by byte. */
  function Layout(sizes: seq<nat>): (places: seq<Place>)
    ensures |places| == Total(sizes)
  {
    if sizes == [] then []
    else Layout(sizes[..|sizes| - 1]) + Bytes(|sizes| - 1, 0, sizes[|sizes| - 1])
  }

  /** Runs spelled out byte by byte. */
  function Expand(runs: seq<FilePiece>): seq<Place> {
    if runs == [] then []
    else Expand(runs[..|runs| - 1]) +
         Bytes(runs[|runs| - 1].file, runs[|runs| - 1].offset, runs[|runs| - 1].size)
  }

  function Max(a: nat, b: nat): nat { if a <= b then b else a }

  /** What the bytes `lo` to `hi` of the download have in common with a file of `size` bytes at `start`. */
  function Cut(file: nat, start: nat, size: nat, lo: nat, hi: nat): seq<FilePiece> {
    var from, to := Max(lo, start), Min(hi, start + size);
    if from < to then [FilePiece(file, from - start, to - from)] else []
  }

  /** The runs that make up the bytes `lo` to `hi`, in file order. */
  function Runs(sizes: seq<nat>, lo: nat, hi: nat): seq<FilePiece> {
    if sizes == [] then []
    else
      var n := |sizes| - 1;
      Runs(sizes[..n], lo, hi) + Cut(n, Total(sizes[..n]), sizes[n], lo, hi)
  }

  lemma ExpandAppend(runs: seq<FilePiece>, r: FilePiece)
    ensures Expand(runs + [r]) == Expand(runs) + Bytes(r.file, r.offset, r.size)
  {
    assert (runs + [r])[..|runs|] == runs;
  }

  /** The runs are exactly the bytes of the layout from `lo` to `hi`. */
  lemma {:induction false} RunsAreTheLayout(sizes: seq<nat>, lo: nat, hi: nat)
    requires lo <= hi
    ensures Expand(Runs(sizes, lo, hi)) == Layout(sizes)[Min(lo, Total(sizes))..Min(hi, Total(sizes))]
  {
    if sizes != [] {
      var n := |sizes| - 1;
      var start, size := Total(sizes[..n]), sizes[n];
      RunsAreTheLayout(sizes[..n], lo, hi);
      hide Runs, Expand, Layout;
      CutIsTheLayout(sizes, lo, hi);
    }
  }

  lemma LastFile(sizes: seq<nat>, lo: nat, hi: nat)
    requires sizes != []
    ensures var n := |sizes| - 1;
            && Total(sizes) == Total(sizes[..n]) + sizes[n]
            && Layout(sizes) == Layout(sizes[..n]) + Bytes(n, 0, sizes[n])
            && Runs(sizes, lo, hi) == Runs(sizes[..n], lo, hi) + Cut(n, Total(sizes[..n]), sizes[n], lo, hi)
  {
  }

  lemma CutIsTheLayout(sizes: seq<nat>, lo: nat, hi: nat)
    requires sizes != [] && lo <= hi
    requires var front := sizes[..|sizes| - 1];
             Expand(Runs(front, lo, hi)) == Layout(front)[Min(lo, Total(front))..Min(hi, Total(front))]
    ensures Expand(Runs(sizes, lo, hi)) == Layout(sizes)[Min(lo, Total(sizes))..Min(hi, Total(sizes))]
  {
    hide Expand, Layout, Runs, Total, Cut;
    var n := |sizes| - 1;
    var start, size := Total(sizes[..n]), sizes[n];
    LastFile(sizes, lo, hi);
    CutOnce(Runs(sizes[..n], lo, hi), n, start, size, lo, hi);
    SliceOfTwo(Layout(sizes[..n]), n, size, lo, hi);
  }

  function CutBytes(file: nat, start: nat, size: nat, lo: nat, hi: nat): seq<Place> {
    var from, to := Max(lo, start), Min(hi, start + size);
    if from < to then Bytes(file, from - start, to - from) else []
  }

  lemma CutOnce(runs: seq<FilePiece>, file: nat, start: nat, size: nat, lo: nat, hi: nat)
    ensures Expand(runs + Cut(file, start, size, lo, hi)) == Expand(runs) + CutBytes(file, start, size, lo, hi)
  {
    hide Expand;
    var from, to := Max(lo, start), Min(hi, start + size);
    if from < to {
      ExpandAppend(runs, FilePiece(file, from - start, to - from));
    } else {
      assert runs + [] == runs;
    }
  }

  lemma SliceOfTwo(front: seq<Place>, file: nat, size: nat, lo: nat, hi: nat)
    requires lo <= hi
    ensures var start := |front|;
            (front + Bytes(file, 0, size))[Min(lo, start + size)..Min(hi, start + size)]
              == front[Min(lo, start)..Min(hi, start)] + CutBytes(file, start, size, lo, hi)
  {
  }

  /** Runs name different files in order, are never empty, and stay inside their files. */
  ghost predicate Proper(sizes: seq<nat>, runs: seq<FilePiece>) {
    && (forall k :: 0 <= k < |runs| ==>
        runs[k].file < |sizes| && 0 < runs[k].size && runs[k].offset + runs[k].size <= sizes[runs[k].file])
    && (forall j, k :: 0 <= j < k < |runs| ==> runs[j].file < runs[k].file)
  }

  lemma {:induction false} RunsAreProper(sizes: seq<nat>, lo: nat, hi: nat)
    ensures Proper(sizes, Runs(sizes, lo, hi))
  {
    if sizes != [] {
      RunsAreProper(sizes[..|sizes| - 1], lo, hi);
    }
  }

  // Pieces.

  /** `utils::ceil_div`. */
  function CeilDiv(a: nat, b: nat): nat
    requires 0 < b
  {
    a / b + if a % b != 0 then 1 else 0
  }

  lemma CeilDivCovers(a: nat, b: nat)
    requires 0 < b
    ensures CeilDiv(a, b) * b >= a
    ensures CeilDiv(a, b) > 0 ==> (CeilDiv(a, b) - 1) * b < a
  {
    var q := a / b;
    assert a == q * b + a % b;
    if a % b != 0 {
      assert (q + 1) * b == q * b + b;
    } else if q > 0 {
      assert (q - 1) * b == q * b - b;
    }
  }

  lemma Next(p: nat, length: nat)
    ensures (p + 1) * length == p * length + length
  {
  }

  /** Everything the pieces before `p` cover, in order. */
  ghost function Covered(sizes: seq<nat>, length: nat, p: nat): seq<Place> {
    if p == 0 then [] else Covered(sizes, length, p - 1) + Expand(Runs(sizes, (p - 1) * length, p * length))
  }

  lemma {:induction false} PiecesCover(sizes: seq<nat>, length: nat, p: nat)
    ensures Covered(sizes, length, p) == Layout(sizes)[..Min(p * length, Total(sizes))]
  {
    hide Layout, Runs, Expand, Total;
    if p == 0 {
      assert 0 * length == 0;
    } else {
      var lo, hi, total := (p - 1) * length, p * length, Total(sizes);
      PiecesCover(sizes, length, p - 1);
      Next(p - 1, length);
      RunsAreTheLayout(sizes, lo, hi);
      Joined(Layout(sizes), Min(lo, total), Min(hi, total));
    }
  }

  lemma Joined(s: seq<Place>, i: nat, j: nat)
    requires i <= j <= |s|
    ensures s[..i] + s[i..j] == s[..j]
  {
  }

  /** All the pieces of a download, laid end to end, are every byte of every file exactly once. */
  lemma EveryByteOnce(sizes: seq<nat>, length: nat)
    requires 0 < length
    ensures Covered(sizes, length, CeilDiv(Total(sizes), length)) == Layout(sizes)
    ensures Distinct(Layout(sizes))
    ensures forall file, offset :: 0 <= file < |sizes| && 0 <= offset < sizes[file] ==>
      Place(file, offset) in Layout(sizes)
  {
    var count := CeilDiv(Total(sizes), length);
    CeilDivCovers(Total(sizes), length);
    PiecesCover(sizes, length, count);
    assert Layout(sizes)[..Total(sizes)] == Layout(sizes);
    LayoutIsDistinct(sizes);
    forall file, offset | 0 <= file < |sizes| && 0 <= offset < sizes[file]
      ensures Place(file, offset) in Layout(sizes)
    {
      EveryPlaceIsThere(sizes, file, offset);
    }
  }

  /** The layout holds byte `offset` of file `file` at the file's start plus that offset, and nothing else. */
  lemma {:induction false} LayoutPlaces(sizes: seq<nat>, k: nat)
    requires k < Total(sizes)
    ensures var place := Layout(sizes)[k];
            place.file < |sizes| && place.offset < sizes[place.file] && k == Start(sizes, place.file) + place.offset
  {
    var n := |sizes| - 1;
    if k < Total(sizes[..n]) {
      LayoutPlaces(sizes[..n], k);
      var place := Layout(sizes)[k];
      assert place == Layout(sizes[..n])[k];
      assert sizes[..n][..place.file] == sizes[..place.file];
    }
  }

  lemma {:induction false} EveryPlaceIsThere(sizes: seq<nat>, file: nat, offset: nat)
    requires file < |sizes| && offset < sizes[file]
    ensures Start(sizes, file) + offset < Total(sizes)
    ensures Layout(sizes)[Start(sizes, file) + offset] == Place(file, offset)
  {
    var n := |sizes| - 1;
    if file < n {
      EveryPlaceIsThere(sizes[..n], file, offset);
      assert sizes[..n][..file] == sizes[..file];
    }
  }

  lemma LayoutIsDistinct(sizes: seq<nat>)
    ensures Distinct(Layout(sizes))
  {
    forall j, k | 0 <= j < k < Total(sizes)
      ensures Layout(sizes)[j] != Layout(sizes)[k]
    {
      LayoutPlaces(sizes, j);
      LayoutPlaces(sizes, k);
    }
  }
}
