/** Putting the strips of a scrambled image back in order. Only whole rows move, so an image is its rows. */
module Images {
  import opened Arithmetic

  type Row = seq<int>

  /** How an image of some height is cut: `segments` strips of `piece` rows, the first one `over` rows longer. */
  datatype Layout = Layout(segments: nat, piece: nat, over: nat)

  function LayoutOf(height: nat, segments: nat): (l: Layout)
    requires segments > 0
    ensures l.segments == segments && l.over < segments && Height(l) == height
  {
    Layout(segments, height / segments, height % segments)
  }

  function Height(l: Layout): nat {
    l.piece * l.segments + l.over
  }

  function Move(l: Layout, i: nat): nat {
    if i == 0 then l.piece + l.over else l.piece
  }

  function DestinationY(l: Layout, i: nat): nat {
    if i == 0 then 0 else l.piece * i + l.over
  }

  function SourceY(l: Layout, i: nat): int {
    Height(l) - l.piece * (i + 1) - l.over
  }

  /** The strip that a row of the rearranged image belongs to. */
  function StripAt(l: Layout, y: nat): nat
    requires y < Height(l)
  {
    if y < l.piece + l.over then 0
    else
      PieceNotEmpty(l, y);
      (y - l.over) / l.piece
  }

  lemma PieceNotEmpty(l: Layout, y: nat)
    requires l.piece + l.over <= y < Height(l)
    ensures l.piece > 0
  {
  }

  /** The row of the scrambled image that row y of the rearranged image comes from. */
  function RowMap(l: Layout, y: nat): int
    requires y < Height(l)
  {
    var i := StripAt(l, y);
    SourceY(l, i) + (y - DestinationY(l, i))
  }

  predicate InStrip(l: Layout, i: nat, y: int) {
    i < l.segments && DestinationY(l, i) <= y < DestinationY(l, i) + Move(l, i)
  }

  /** Every row of the rearranged image lies in exactly one strip, so the strip loop writes it exactly once. */
  lemma OneStripPerRow(l: Layout, i: nat, y: nat)
    requires l.segments > 0 && y < Height(l)
    ensures InStrip(l, i, y) <==> i == StripAt(l, y)
  {
    if y >= l.piece + l.over {
      PieceNotEmpty(l, y);
      var q := (y - l.over) / l.piece;
      var r := (y - l.over) % l.piece;
      assert y - l.over == l.piece * q + r;
      assert q >= 1 by { if q < 1 { MulNotPositive(l.piece, q); } }
      assert q < l.segments by { if q >= l.segments { MulLess(l.piece, l.segments, q); } }
      if InStrip(l, i, y) && i > 0 {
        QuotientIs(l.piece, i, y - l.over);
      }
    } else if i > 0 {
      MulLess(l.piece, 1, i);
    }
  }

  /** The strips tile the rearranged image in order. */
  lemma StripsTile(l: Layout, i: nat)
    requires i < l.segments
    ensures DestinationY(l, i) + Move(l, i) == DestinationY(l, i + 1) <= Height(l)
    ensures DestinationY(l, l.segments) == Height(l)
    ensures 0 <= SourceY(l, i) && SourceY(l, i) + Move(l, i) <= Height(l)
  {
    MulLess(l.piece, i, l.segments);
    MulLess(l.piece, i + 1, l.segments);
    assert l.piece * (i + 1) == l.piece * i + l.piece;
    MulLess(l.piece, 1, i + 1);
  }

  // ----- the rows are permuted -----

  /** The strip that a row of the scrambled image is copied with. */
  function SourceStripAt(l: Layout, s: nat): nat
    requires l.segments > 0 && s < Height(l)
  {
    if s >= l.piece * (l.segments - 1) then 0
    else
      SourcePieceNotEmpty(l, s);
      l.segments - 1 - s / l.piece
  }

  lemma SourcePieceNotEmpty(l: Layout, s: nat)
    requires l.segments > 0 && s < l.piece * (l.segments - 1)
    ensures l.piece > 0 && s / l.piece < l.segments - 1
  {
    var p, n := l.piece, l.segments - 1;
    assert p > 0;
    assert s == p * (s / p) + s % p;
    if s / p >= n {
      MulLess(p, n, s / p);
    }
  }

  predicate InSourceStrip(l: Layout, i: nat, s: int) {
    i < l.segments && SourceY(l, i) <= s < SourceY(l, i) + Move(l, i)
  }

  lemma SourceYIs(l: Layout, i: nat)
    requires i < l.segments
    ensures SourceY(l, i) == l.piece * (l.segments - 1 - i)
  {
    assert l.piece * l.segments == l.piece * (i + 1) + l.piece * (l.segments - 1 - i);
  }

  /** Every row of the scrambled image is copied with exactly one strip. */
  lemma OneStripPerSourceRow(l: Layout, i: nat, s: nat)
    requires l.segments > 0 && s < Height(l)
    ensures InSourceStrip(l, i, s) <==> i == SourceStripAt(l, s)
  {
    SourceStripHolds(l, s);
    if InSourceStrip(l, i, s) {
      SourceStripUnique(l, i, s);
    }
  }

  lemma SourceStripHolds(l: Layout, s: nat)
    requires l.segments > 0 && s < Height(l)
    ensures InSourceStrip(l, SourceStripAt(l, s), s)
  {
    var p, n := l.piece, l.segments - 1;
    SourceYIs(l, SourceStripAt(l, s));
    if s >= p * n {
      assert p * (n + 1) == p * n + p;
    } else {
      SourcePieceNotEmpty(l, s);
      assert s == p * (s / p) + s % p;
    }
  }

  lemma SourceStripUnique(l: Layout, i: nat, s: nat)
    requires l.segments > 0 && s < Height(l) && InSourceStrip(l, i, s)
    ensures i == SourceStripAt(l, s)
  {
    hide Height;
    var p, n := l.piece, l.segments - 1;
    SourceYIs(l, i);
    if i > 0 {
      MulLess(p, n - i, n);
      QuotientIs(p, n - i, s);
    }
  }

  /** The row of the rearranged image that row s of the scrambled image goes to. */
  function RowUnmap(l: Layout, s: nat): int
    requires l.segments > 0 && s < Height(l)
  {
    var i := SourceStripAt(l, s);
    DestinationY(l, i) + (s - SourceY(l, i))
  }

  /** The row map is a bijection on the rows: RowUnmap undoes it. */
  lemma RowMapIsBijection(l: Layout, y: nat)
    requires l.segments > 0 && y < Height(l)
    ensures 0 <= RowMap(l, y) < Height(l) && RowUnmap(l, RowMap(l, y)) == y
  {
    var i := StripAt(l, y);
    OneStripPerRow(l, i, y);
    StripsTile(l, i);
    OneStripPerSourceRow(l, i, RowMap(l, y));
  }

  lemma RowUnmapIsBijection(l: Layout, s: nat)
    requires l.segments > 0 && s < Height(l)
    ensures 0 <= RowUnmap(l, s) < Height(l) && RowMap(l, RowUnmap(l, s)) == s
  {
    var i := SourceStripAt(l, s);
    OneStripPerSourceRow(l, i, s);
    StripsTile(l, i);
    OneStripPerRow(l, i, RowUnmap(l, s));
  }

  // ----- applying it twice -----

  /** Every row returns to its place when the image is rearranged twice. */
  ghost predicate TwiceIsIdentity(l: Layout)
    requires l.segments > 0
  {
    forall y: nat :: y < Height(l) ==> RowMapTwice(l, y) == y
  }

  function RowMapTwice(l: Layout, y: nat): int
    requires l.segments > 0 && y < Height(l)
  {
    RowMapIsBijection(l, y);
    RowMap(l, RowMap(l, y))
  }

  /** Without a remainder the strips are equal and their order is reversed, which undoes itself. */
  lemma EqualStripsReverse(l: Layout, y: nat)
    requires l.segments > 0 && l.over == 0 && y < Height(l)
    ensures RowMapTwice(l, y) == y
  {
    var i := StripAt(l, y);
    OneStripPerRow(l, i, y);
    RowMapIsBijection(l, y);
    var s, n := RowMap(l, y), l.segments - 1;
    assert InStrip(l, n - i, s) by {
      SourceYIs(l, i);
      if n == i { assert SourceY(l, i) == 0; }
    }
    OneStripPerRow(l, n - i, s);
    SourceYIs(l, n - i);
  }

  /** The top row goes to the end of the image, and does not come back when the first strip is longer. */
  lemma LongerStripDoesNotReturn(l: Layout)
    requires l.segments > 1 && l.over > 0 && l.piece > 0
    ensures Height(l) > 0 && RowMapTwice(l, 0) != 0
  {
    var n := l.segments - 1;
    MulLess(l.piece, 1, l.segments);
    RowMapIsBijection(l, 0);
    var s := RowMap(l, 0);
    SourceYIs(l, 0);
    assert s == l.piece * n;
    MulLess(l.piece, 1, n);
    RowMapIsBijection(l, s);
    var i := StripAt(l, s);
    OneStripPerRow(l, i, s);
    SourceYIs(l, i);
    if i > 0 {
      MulLess(l.piece, i, n);
      MulNotNegative(l.piece, n - i);
    }
  }

  lemma MulNotNegative(p: nat, q: int)
    requires q >= 0
    ensures p * q >= 0
  {
  }

  /** Rearranging twice restores every image of a height exactly when the strips are equal or there is but one. */
  lemma TwiceIsIdentityExactly(height: nat, segments: nat)
    requires segments > 0
    ensures TwiceIsIdentity(LayoutOf(height, segments)) <==> height % segments == 0 || height < segments
  {
    var l := LayoutOf(height, segments);
    if l.over == 0 {
      forall y: nat | y < Height(l) ensures RowMapTwice(l, y) == y {
        EqualStripsReverse(l, y);
      }
    } else if l.piece == 0 {
      assert height == l.over;
      forall y: nat | y < Height(l) ensures RowMapTwice(l, y) == y {
        RowMapIsBijection(l, y);
      }
    } else {
      MulLess(l.piece, 1, segments);
      MulLess(segments, 1, l.piece);
      LongerStripDoesNotReturn(l);
    }
  }

  // ----- the loop -----

  function Permuted(src: seq<Row>, l: Layout): (dst: seq<Row>)
    requires l.segments > 0 && Height(l) == |src|
    ensures |dst| == |src|
  {
    seq(|src|, y requires 0 <= y < |src| => RowOf(src, l, y))
  }

  /** The rearranged image; it is left alone when the segment count is not positive. */
  function Rearranged(src: seq<Row>, segments: int): (dst: seq<Row>)
    ensures |dst| == |src|
  {
    if segments <= 0 then src else Permuted(src, LayoutOf(|src|, segments))
  }

  function RowOf(src: seq<Row>, l: Layout, y: nat): Row
    requires l.segments > 0 && Height(l) == |src| && y < |src|
  {
    RowMapIsBijection(l, y);
    src[RowMap(l, y)]
  }

  /**
   * Strip i of the image: its rows come, in their order, from the i-th strip counted from the bottom. All strips have
   * height / segments rows; the first has the remaining rows as well.
   */
  predicate StripInPlace(src: seq<Row>, dst: seq<Row>, segments: nat, i: nat)
    requires i < segments && |dst| == |src|
  {
    var height := |src|;
    var piece, over := height / segments, height % segments;
    var move := if i == 0 then piece + over else piece;
    var sourceY := height - piece * (i + 1) - over;
    var destinationY := if i == 0 then 0 else piece * i + over;
    Copied(src, dst, sourceY, destinationY, move)
  }

  /** A band of rows of one image is found in the other. */
  predicate Copied(src: seq<Row>, dst: seq<Row>, sourceY: int, destinationY: int, move: nat) {
    && 0 <= sourceY && sourceY + move <= |src| && 0 <= destinationY && destinationY + move <= |dst|
    && dst[destinationY..destinationY + move] == src[sourceY..sourceY + move]
  }

  lemma StripsInPlace(src: seq<Row>, segments: nat, i: nat)
    requires i < segments
    ensures StripInPlace(src, Rearranged(src, segments), segments, i)
  {
    var l := LayoutOf(|src|, segments);
    var dst := Rearranged(src, segments);
    StripsTile(l, i);
    forall y | DestinationY(l, i) <= y < DestinationY(l, i) + Move(l, i)
      ensures dst[y] == src[SourceY(l, i) + (y - DestinationY(l, i))]
    {
      OneStripPerRow(l, i, y);
    }
    var d, s, m := DestinationY(l, i), SourceY(l, i), Move(l, i);
    assert dst[d..d + m] == src[s..s + m];
  }

  /** How many strips an image was cut into; `last` is the last hexadecimal digit of the digest of id and file name. */
  function SegmentationNum(scrambleID: int, aid: int, last: char): int {
    if aid < scrambleID then 0
    else if aid < 268850 then 10
    else (last as int % (if aid >= 421926 then 8 else 10)) * 2 + 2
  }

  /** Images older than the scrambling are left alone, and all others are cut into an even number of strips, up to 20. */
  lemma SegmentCounts(scrambleID: int, aid: int, last: char, src: seq<Row>)
    ensures var segments := SegmentationNum(scrambleID, aid, last);
            && (aid < scrambleID ==> Rearranged(src, segments) == src)
            && (aid >= scrambleID ==> 2 <= segments <= 20 && segments % 2 == 0)
            && (aid >= scrambleID && aid < 268850 ==> segments == 10)
            && (aid >= scrambleID && aid >= 421926 ==> segments <= 16)
            && (aid >= scrambleID && aid >= 268850 ==> (segments / 2 - 1) == last as int % (if aid < 421926 then 10 else 8))
  {
  }

  lemma RowOfStrip(src: seq<Row>, l: Layout, i: nat, y: nat)
    requires l.segments > 0 && Height(l) == |src| && y < |src|
    ensures InStrip(l, i, y) ==>
              var at := SourceY(l, i) + (y - DestinationY(l, i));
              0 <= at < |src| && RowOf(src, l, y) == src[at]
  {
    OneStripPerRow(l, i, y);
    RowMapIsBijection(l, y);
  }

  lemma AllStripsInPlace(src: seq<Row>, segments: nat)
    requires segments > 0
    ensures forall i :: 0 <= i < segments ==> StripInPlace(src, Rearranged(src, segments), segments, i)
  {
    hide StripInPlace, Rearranged;
    forall i | 0 <= i < segments ensures StripInPlace(src, Rearranged(src, segments), segments, i) {
      StripsInPlace(src, segments, i);
    }
  }

  /** Copies a band of rows. */
  method DrawRows(dst: array<Row>, destinationY: nat, src: seq<Row>, sourceY: nat, move: nat)
    requires destinationY + move <= dst.Length && sourceY + move <= |src|
    modifies dst
    ensures forall y :: 0 <= y < dst.Length ==>
              dst[y] == if destinationY <= y < destinationY + move then src[sourceY + (y - destinationY)] else old(dst[y])
  {
    for k := 0 to move
      invariant forall y :: 0 <= y < dst.Length ==>
                  dst[y] == if destinationY <= y < destinationY + k then src[sourceY + (y - destinationY)] else old(dst[y])
    {
      dst[destinationY + k] := src[sourceY + k];
    }
  }

  method RearrangeImage(src: seq<Row>, segments: int) returns (result: seq<Row>)
    ensures result == Rearranged(src, segments)
    ensures segments <= 0 ==> result == src
    ensures segments > 0 ==> |result| == |src| && forall i :: 0 <= i < segments ==> StripInPlace(src, result, segments, i)
  {
    hide StripInPlace, RowMap;
    if segments <= 0 {
      return src;
    }
    var height := |src|;
    var over := height % segments;
    var piece := height / segments;
    ghost var l := LayoutOf(height, segments);
    var dst := new Row[height](_ => []);
    for i := 0 to segments
      invariant DestinationY(l, i) <= height
      invariant forall y :: 0 <= y < DestinationY(l, i) ==> dst[y] == RowOf(src, l, y)
    {
      var move := piece;
      var sourceY := height - piece * (i + 1) - over;
      var destinationY := piece * i;
      if i == 0 {
        move := move + over;
      } else {
        destinationY := destinationY + over;
      }
      StripsTile(l, i);
      DrawRows(dst, destinationY, src, sourceY, move);
      forall y | 0 <= y < DestinationY(l, i + 1) ensures dst[y] == RowOf(src, l, y) {
        RowOfStrip(src, l, i, y);
      }
    }
    StripsTile(l, segments - 1);
    result := dst[..];
    AllStripsInPlace(src, segments);
  }

  /** No row is lost or doubled: row y of the result and the row it came from determine each other. */
  lemma RowsArePermuted(src: seq<Row>, segments: int, s: nat)
    requires segments > 0 && s < |src|
    ensures var y := RowUnmap(LayoutOf(|src|, segments), s);
            0 <= y < |src| && Rearranged(src, segments)[y] == src[s]
  {
    RowUnmapIsBijection(LayoutOf(|src|, segments), s);
  }

  lemma PermutedTwiceAt(src: seq<Row>, l: Layout, y: nat)
    requires l.segments > 0 && Height(l) == |src| && y < |src|
    ensures 0 <= RowMapTwice(l, y) < |src| && Permuted(Permuted(src, l), l)[y] == src[RowMapTwice(l, y)]
  {
    hide RowMap, Height;
    RowMapIsBijection(l, y);
    RowMapIsBijection(l, RowMap(l, y));
  }

  lemma PermutedTwice(src: seq<Row>, l: Layout)
    requires l.segments > 0 && Height(l) == |src| && TwiceIsIdentity(l)
    ensures Permuted(Permuted(src, l), l) == src
  {
    hide RowMap, Height, Permuted, RowMapTwice;
    PermutedSize(src, l);
    forall y | 0 <= y < |src| ensures Permuted(Permuted(src, l), l)[y] == src[y] {
      PermutedTwiceAt(src, l, y);
      assert RowMapTwice(l, y) == y;
    }
  }

  lemma PermutedSize(src: seq<Row>, l: Layout)
    requires l.segments > 0 && Height(l) == |src|
    ensures |Permuted(src, l)| == |src| && |Permuted(Permuted(src, l), l)| == |src|
  {
    hide RowMap, Height;
  }

  /** An image whose rows are all different. */
  function Numbered(height: nat): (src: seq<Row>)
    ensures |src| == height && forall y :: 0 <= y < height ==> src[y] == [y]
  {
    seq(height, y requires 0 <= y < height => [y])
  }

  /** When longer and shorter strips meet, the image of numbered rows is not restored: its first row is another. */
  lemma NumberedIsNotRestored(l: Layout)
    requires l.segments > 1 && l.over > 0 && l.piece > 0
    ensures Height(l) > 0 && Permuted(Permuted(Numbered(Height(l)), l), l) != Numbered(Height(l))
  {
    hide Permuted, RowMapTwice;
    LongerStripDoesNotReturn(l);
    PermutedTwiceAt(Numbered(Height(l)), l, 0);
  }

  ghost predicate TwiceRestores(height: nat, segments: int)
    requires segments > 0
  {
    forall src: seq<Row> :: |src| == height ==> Rearranged(Rearranged(src, segments), segments) == src
  }

  /** Rearranging twice restores every image of a height exactly when the segment count divides the height or exceeds it. */
  lemma TwiceRestoresExactly(height: nat, segments: int)
    requires segments > 0
    ensures TwiceRestores(height, segments) <==> height % segments == 0 || height < segments
  {
    hide Permuted, RowMap;
    var l := LayoutOf(height, segments);
    TwiceIsIdentityExactly(height, segments);
    if TwiceIsIdentity(l) {
      forall src: seq<Row> | |src| == height ensures Rearranged(Rearranged(src, segments), segments) == src {
        PermutedTwice(src, l);
      }
    } else {
      assert l.over > 0 && l.segments > 1;
      assert l.piece > 0 by { PieceFits(height, segments); }
      NumberedIsNotRestored(l);
      assert Rearranged(Rearranged(Numbered(height), segments), segments) != Numbered(height);
    }
  }

  lemma PieceFits(height: nat, segments: nat)
    requires segments > 0 && height >= segments
    ensures height / segments > 0
  {
  }
}
