/**
 Removing a seam from an RGBA frame, byte by byte, and the whole effect: ten
 seams, each chosen on the frame that is left by the previous removals.
 */
module SeamRemoval {
  import opened Options
  import opened SeamPaths
  import opened SeamCarving
  import opened Subsequences
  import opened RowMajor

  /** Java's signed byte. */
  newtype byte = x: int | -128 <= x < 128

  const SEAMS: nat := 10

  /** An 8-bit matrix of four channels: `rows[row]` holds 4 * cols bytes. */
  datatype Frame = Frame(cols: nat, rows: seq<seq<byte>>) {
    ghost predicate Valid() {
      HaveWidth(rows, 4 * cols)
    }
  }

  // ---------- one row ----------

  /** The int that the source computes with: the byte read as unsigned. */
  function Unsigned(b: byte): int {
    if b < 0 then b as int + 256 else b as int
  }

  /** The narrowing cast of an int that fits in eight bits. */
  function ToByte(n: int): byte
    requires 0 <= n < 256
  {
    if n < 128 then n as byte else (n - 256) as byte
  }

  function Average(a: byte, b: byte): byte {
    ToByte((Unsigned(a) + Unsigned(b)) / 2)
  }

  /** One channel of a pixel of the row without its seam pixel: colours beside the seam are blended with it. */
  ghost function CarvedByte(row: seq<byte>, seam: nat, pixel: nat, channel: nat): byte
    requires 4 * seam < |row| && |row| % 4 == 0 && 4 * pixel < |row| - 4 && channel < 4
  {
    var kept := row[4 * (if pixel < seam then pixel else pixel + 1) + channel];
    if channel < 3 && (pixel == seam || pixel + 1 == seam) then Average(row[4 * seam + channel], kept) else kept
  }

  ghost function CarvedRow(row: seq<byte>, seam: nat): (r: seq<byte>)
    requires 4 * seam < |row| && |row| % 4 == 0
    ensures |r| == |row| - 4
  {
    seq(|row| - 4, j requires 0 <= j < |row| - 4 => CarvedByte(row, seam, j / 4, j % 4))
  }

  /** `s` with `part` written over it from `at` on. */
  ghost function Spliced(s: seq<byte>, at: nat, part: seq<byte>): (r: seq<byte>)
    requires at + |part| <= |s|
    ensures |r| == |s|
  {
    s[..at] + part + s[at + |part|..]
  }

  lemma SplicedAt(s: seq<byte>, at: nat, part: seq<byte>, k: nat)
    requires at + |part| <= |s| && k < |s|
    ensures Spliced(s, at, part)[k] == if at <= k < at + |part| then part[k - at] else s[k]
  {
  }

  lemma SliceOfRow(s: seq<byte>, start: nat, row: seq<byte>, from: nat, to: nat)
    requires start + |row| <= |s| && row == s[start..start + |row|] && from <= to <= |row|
    ensures s[start + from..start + to] == row[from..to]
  {
    forall k | 0 <= k < to - from
      ensures s[start + from..start + to][k] == row[from..to][k]
    {
      assert s[start..start + |row|][from + k] == row[from + k];
    }
  }

  lemma SpliceNext(s: seq<byte>, at: nat, a: seq<byte>, b: seq<byte>)
    requires at + |a| + |b| <= |s|
    ensures Spliced(Spliced(s, at, a), at + |a|, b) == Spliced(s, at, a + b)
  {
  }

  lemma SpliceInside(s: seq<byte>, at: nat, a: seq<byte>, k: nat, b: seq<byte>)
    requires at + |a| <= |s| && k + |b| <= |a|
    ensures Spliced(Spliced(s, at, a), at + k, b) == Spliced(s, at, Spliced(a, k, b))
  {
  }

  /** System.arraycopy between two different arrays. */
  method ArrayCopy(src: array<byte>, srcPos: nat, dst: array<byte>, dstPos: nat, length: nat)
    requires src != dst && srcPos + length <= src.Length && dstPos + length <= dst.Length
    modifies dst
    ensures dst[..] == Spliced(old(dst[..]), dstPos, src[srcPos..srcPos + length])
  {
    forall k | 0 <= k < length {
      dst[dstPos + k] := src[srcPos + k];
    }
  }

  /** The three colour bytes that two pixels blend into. */
  ghost function BlendedColours(row: seq<byte>, seam: nat, side: nat): (r: seq<byte>)
    requires 4 * seam + 3 <= |row| && 4 * side + 3 <= |row|
    ensures |r| == 3
  {
    [Average(row[4 * seam], row[4 * side]),
     Average(row[4 * seam + 1], row[4 * side + 1]),
     Average(row[4 * seam + 2], row[4 * side + 2])]
  }

  /** Writes the blend of two pixels of a source row at `at`. */
  method Blend(original: array<byte>, neo: array<byte>, start: nat, seam: nat, side: nat, at: nat, ghost row: seq<byte>)
    requires original != neo && start + |row| <= original.Length && row == original[start..start + |row|]
    requires 4 * seam + 3 <= |row| && 4 * side + 3 <= |row| && at + 3 <= neo.Length
    modifies neo
    ensures neo[..] == Spliced(old(neo[..]), at, BlendedColours(row, seam, side))
  {
    hide Average, Unsigned, ToByte;
    neo[at] := Blend1(original[start + 4 * seam], original[start + 4 * side]);
    neo[at + 1] := Blend1(original[start + 4 * seam + 1], original[start + 4 * side + 1]);
    neo[at + 2] := Blend1(original[start + 4 * seam + 2], original[start + 4 * side + 2]);
  }

  /** One byte of a blend, computed on ints as the source does. */
  method Blend1(a: byte, b: byte) returns (r: byte)
    ensures r == Average(a, b)
  {
    var byte1, byte2: int := a as int, b as int;
    if byte1 < 0 {
      byte1 := byte1 + 256;
    }
    if byte2 < 0 {
      byte2 := byte2 + 256;
    }
    r := ToByte((byte1 + byte2) / 2);
  }

  /** What two copies and up to two blends make of a row of `width` pixels. */
  ghost function Rebuilt(row: seq<byte>, width: nat, seam: nat): (out: seq<byte>)
    requires seam < width && |row| == 4 * width
    ensures |out| == |row| - 4
  {
    var copied := row[..4 * seam] + row[4 * (seam + 1)..];
    var right := if seam + 1 < width then Spliced(copied, 4 * seam, BlendedColours(row, seam, seam + 1)) else copied;
    if seam >= 1 then Spliced(right, 4 * (seam - 1), BlendedColours(row, seam, seam - 1)) else right
  }

  lemma RebuiltByte(row: seq<byte>, width: nat, seam: nat, pixel: nat, channel: nat)
    requires seam < width && |row| == 4 * width && |row| % 4 == 0 && pixel < width - 1 && channel < 4
    requires 4 * pixel + channel < |row| - 4
    ensures Rebuilt(row, width, seam)[4 * pixel + channel] == CarvedByte(row, seam, pixel, channel)
  {
    hide Average, Spliced;
    var copied := row[..4 * seam] + row[4 * (seam + 1)..];
    var right := copied;
    if seam + 1 < width {
      var blend := BlendedColours(row, seam, seam + 1);
      SplicedAt(copied, 4 * seam, blend, 4 * pixel + channel);
      right := Spliced(copied, 4 * seam, blend);
    }
    if seam >= 1 {
      SplicedAt(right, 4 * (seam - 1), BlendedColours(row, seam, seam - 1), 4 * pixel + channel);
    }
    assert copied[4 * pixel + channel] == row[4 * (if pixel < seam then pixel else pixel + 1) + channel];
  }

  lemma RebuiltIsCarved(row: seq<byte>, width: nat, seam: nat)
    requires seam < width && |row| == 4 * width
    ensures Rebuilt(row, width, seam) == CarvedRow(row, seam)
  {
    hide Rebuilt, CarvedByte;
    forall j | 0 <= j < |row| - 4
      ensures Rebuilt(row, width, seam)[j] == CarvedRow(row, seam)[j]
    {
      assert j == 4 * (j / 4) + j % 4;
      RebuiltByte(row, width, seam, j / 4, j % 4);
    }
  }

  /** Rebuilds one row, given where it starts in both buffers; the rest of the new buffer is untouched. */
  method RemovePixel(original: array<byte>, neo: array<byte>, width: nat, originRowStart: nat,
                       newRowStart: nat, minCol: nat,
                     ghost row: seq<byte>)
    requires original != neo && minCol < width && |row| == 4 * width
    requires originRowStart + 4 * width <= original.Length && row == original[originRowStart..originRowStart + |row|]
    requires newRowStart + 4 * (width - 1) <= neo.Length
    modifies neo
    ensures neo[..] == Spliced(old(neo[..]), newRowStart, CarvedRow(row, minCol))
  {
    hide Spliced, CarvedRow, BlendedColours;
    ghost var was, left, right := neo[..], row[..4 * minCol], row[4 * (minCol + 1)..];
    var firstNum := minCol * 4;
    ArrayCopy(original, originRowStart, neo, newRowStart, firstNum);
    SliceOfRow(original[..], originRowStart, row, 0, firstNum);
    var originRowMid := originRowStart + (minCol + 1) * 4;
    var newRowMid := newRowStart + minCol * 4;
    var secondNum := (width - 1) * 4 - firstNum;
    ArrayCopy(original, originRowMid, neo, newRowMid, secondNum);
    SliceOfRow(original[..], originRowStart, row, firstNum + 4, |row|);
    SpliceNext(was, newRowStart, left, right);
    ghost var rebuilt := left + right;

    var leftPixel, rightPixel := minCol - 1, minCol + 1;
    if rightPixel < width {
      Blend(original, neo, originRowStart, minCol, rightPixel, newRowStart + minCol * 4, row);
      SpliceInside(was, newRowStart, rebuilt, 4 * minCol, BlendedColours(row, minCol, rightPixel));
      rebuilt := Spliced(rebuilt, 4 * minCol, BlendedColours(row, minCol, rightPixel));
    }
    if leftPixel >= 0 {
      Blend(original, neo, originRowStart, minCol, leftPixel, newRowStart + leftPixel * 4, row);
      SpliceInside(was, newRowStart, rebuilt, 4 * leftPixel, BlendedColours(row, minCol, leftPixel));
      rebuilt := Spliced(rebuilt, 4 * leftPixel, BlendedColours(row, minCol, leftPixel));
    }
    RebuiltIsCarved(row, width, minCol);
  }

  // ---------- the whole frame ----------

  /** One column for every row of the frame. */
  ghost predicate Cuts(f: Frame, seam: seq<nat>) {
    |seam| == |f.rows| && forall row :: 0 <= row < |seam| ==> seam[row] < f.cols
  }

  /** The frame without the seam: one column narrower, every row carved at its own column. */
  ghost function Carved(f: Frame, seam: seq<nat>): (g: Frame)
    requires f.Valid() && Cuts(f, seam) && 0 < f.cols
    ensures g.Valid() && |g.rows| == |f.rows| && g.cols == f.cols - 1
  {
    Frame(f.cols - 1, seq(|f.rows|, row requires 0 <= row < |f.rows| => CarvedRow(f.rows[row], seam[row])))
  }

  /** The scan for the least intensity of the bottom row. */
  method FindSeamStart(ghost d: EnergyMap, buffPath: seq<real>, rows: nat, cols: nat) returns (minCol: nat)
    requires d.HasCells() && buffPath == Flatten(d.grid) && rows == d.Rows() && cols == d.cols
    ensures minCol == LeftmostMin(d, cols)
  {
    RowSlice(d.grid, cols, rows - 1);
    ghost var bottom := buffPath[RowStart(rows - 1, cols)..][..cols];
    var minImportance := buffPath[RowStart(rows - 1, cols)];
    minCol := 0;
    assert minImportance == bottom[0];
    for col := 1 to cols
      invariant minCol == LeftmostMin(d, col) && minImportance == Bottom(d, minCol)
    {
      var currPixel := buffPath[RowStart(rows - 1, cols) + col];
      assert currPixel == bottom[col] == Bottom(d, col);
      if currPixel < minImportance {
        minCol := col;
        minImportance := currPixel;
      }
    }
  }

  lemma IntensityInBuffer(d: EnergyMap, buff: seq<real>, row: nat, col: int)
    requires d.Valid() && row < d.Rows() && buff == Flatten(d.grid)
    ensures RowStart(row, d.cols) + d.cols <= |buff|
    ensures Intensity(buff, col, row, d.cols) == IntensityAt(d, row, col)
  {
    RowSlice(d.grid, d.cols, row);
    if 0 <= col < d.cols {
      assert buff[RowStart(row, d.cols) + col] == buff[RowStart(row, d.cols)..][..d.cols][col];
    }
  }

  /** Going up one row, the seam steps as the source's path following does. */
  lemma {:induction false} SeamSteps(d: EnergyMap, last: nat, col: nat, row: nat)
    requires BelowSentinel(d) && row < last < d.Rows() && col < d.cols
    ensures |Backtrack(d, last, col)| == last + 1 && Backtrack(d, last, col)[last] == col
    ensures Backtrack(d, last, col)[row + 1] < d.cols && d.Get(row, Backtrack(d, last, col)[row + 1]) < FLOAT_MAX
    ensures Backtrack(d, last, col)[row] == StepUp(d, row, Backtrack(d, last, col)[row + 1])
    decreases last
  {
    BacktrackIsSeam(d, last, col);
    var next := StepUp(d, last - 1, col);
    BacktrackIsSeam(d, last - 1, next);
    if row < last - 1 {
      SeamSteps(d, last - 1, next, row);
    }
  }

  /** One step of the path following. */
  method FollowPath(ghost d: EnergyMap, buffPath: seq<real>, row: nat, cols: nat, below: nat) returns (minCol: nat)
    requires d.Valid() && row < d.Rows() && below < d.cols && d.Get(row, below) < FLOAT_MAX
    requires buffPath == Flatten(d.grid) && cols == d.cols
    ensures minCol == StepUp(d, row, below)
  {
    IntensityInBuffer(d, buffPath, row, below - 1);
    IntensityInBuffer(d, buffPath, row, below);
    IntensityInBuffer(d, buffPath, row, below + 1);
    var p1 := Intensity(buffPath, below - 1, row, cols);
    var p2 := Intensity(buffPath, below, row, cols);
    var p3 := Intensity(buffPath, below + 1, row, cols);
    minCol := below;
    if p1 < p2 && p1 < p3 {
      minCol := minCol - 1;
    } else if p3 < p1 && p3 < p2 {
      minCol := minCol + 1;
    }
  }

  /** Carves one row into the new buffer when all rows below it are done. */
  method CarveRow(
    ghost f: Frame, ghost seam: seq<nat>, buffOrigin: array<byte>, buffNew: array<byte>, cols: nat, row: nat,
    minCol: nat
  )
    requires f.Valid() && Cuts(f, seam) && row < |f.rows| && cols == f.cols && minCol == seam[row]
    requires buffOrigin != buffNew
    requires buffOrigin[..] == Flatten(f.rows) && buffNew.Length == RowStart(|f.rows|, 4 * (cols - 1))
    requires RowStart(row + 1, 4 * (cols - 1)) <= buffNew.Length
    requires buffNew[RowStart(row + 1, 4 * (cols - 1))..] == Flatten(Carved(f, seam).rows[row + 1..])
    modifies buffNew
    ensures RowStart(row, 4 * (cols - 1)) <= buffNew.Length
    ensures buffNew[RowStart(row, 4 * (cols - 1))..] == Flatten(Carved(f, seam).rows[row..])
  {
    hide Flatten, RowStart, CarvedRow, CarvedByte;
    ghost var carved := Carved(f, seam).rows;
    RowSlice(f.rows, 4 * cols, row);
    RowSlice(carved, 4 * (cols - 1), row);
    SplitAt(carved, 4 * (cols - 1), row);
    RemovePixel(buffOrigin, buffNew, cols, RowStart(row, 4 * cols), RowStart(row, 4 * (cols - 1)), minCol, f.rows[row]);
    assert carved[row] == CarvedRow(f.rows[row], minCol);
  }

  /** The path following: every row is carved at the column where the seam passes. */
  method CarveAlongSeam(ghost f: Frame, ghost d: EnergyMap, buffPath: seq<real>,
                          buffOrigin: array<byte>, buffNew: array<byte>,
                        rows: nat, cols: nat, start: nat)
    requires f.Valid() && BelowSentinel(d) && rows == |f.rows| == d.Rows() && cols == f.cols == d.cols
    requires buffPath == Flatten(d.grid) && buffOrigin != buffNew && buffOrigin[..] == Flatten(f.rows)
    requires start == LeftmostMin(d, cols) && buffNew.Length == RowStart(rows, 4 * (cols - 1))
    modifies buffNew
    ensures Cuts(f, LeastImportantSeam(d)) && buffNew[..] == Flatten(Carved(f, LeastImportantSeam(d)).rows)
  {
    assert Flatten<byte>([]) == [];
    hide Flatten, RowStart, CarvedRow, Backtrack, StepUp, LeftmostMin;
    ghost var seam := LeastImportantSeam(d);
    BacktrackIsSeam(d, rows - 1, start);
    ghost var carved := Carved(f, seam).rows;
    assert carved[rows..] == [] && carved[0..] == carved;
    var minCol: nat := start;
    CarveRow(f, seam, buffOrigin, buffNew, cols, rows - 1, minCol);
    var row: nat := rows - 1;
    while row > 0
      invariant 0 <= row < rows && minCol == seam[row]
      invariant buffOrigin[..] == Flatten(f.rows)
      invariant RowStart(row, 4 * (cols - 1)) <= buffNew.Length
      invariant buffNew[RowStart(row, 4 * (cols - 1))..] == Flatten(carved[row..])
    {
      row := row - 1;
      SeamSteps(d, rows - 1, start, row);
      minCol := FollowPath(d, buffPath, row, cols, minCol);
      CarveRow(f, seam, buffOrigin, buffNew, cols, row, minCol);
    }
    RowStartIsProduct(0, 4 * (cols - 1));
  }

  /** No frame comes back exactly for a frame without pixels. */
  method RemoveLeastImportantPath(original: Frame, importanceMap: EnergyMap) returns (newMat: Option<Frame>)
    requires original.Valid() && importanceMap.Valid()
    requires |original.rows| == importanceMap.Rows() && original.cols == importanceMap.cols
    requires importanceMap.HasCells() ==> BelowSentinel(importanceMap)
    ensures importanceMap.HasCells() ==> Cuts(original, LeastImportantSeam(importanceMap))
    ensures
      newMat
      == if importanceMap.HasCells() then Some(Carved(original, LeastImportantSeam(importanceMap))) else None
    ensures newMat.Some? ==> IsCutAlong(original, newMat.value, LeastImportantSeam(importanceMap))
  {
    hide IsCutAlong;
    var rows, cols := |original.rows|, original.cols;
    var buffPath := Flatten(importanceMap.grid);
    var bytes := Flatten(original.rows);
    FlatLength(importanceMap.grid, cols);
    FlatLength(original.rows, 4 * cols);
    RowStartIsZero(rows, cols);
    if |buffPath| == 0 || |bytes| == 0 {
      RowStartIsZero(rows, 4 * cols);
      return None;
    }
    newMat := CarveBuffers(original, importanceMap, buffPath, bytes);
    CarvedAlong(original, LeastImportantSeam(importanceMap));
  }

  /** The frame rebuilt in a new buffer. */
  method CarveBuffers(
    original: Frame, importanceMap: EnergyMap, buffPath: seq<real>, bytes: seq<byte>
  ) returns (newMat: Option<Frame>)
    requires original.Valid() && BelowSentinel(importanceMap)
    requires |original.rows| == importanceMap.Rows() && original.cols == importanceMap.cols
    requires buffPath == Flatten(importanceMap.grid) && bytes == Flatten(original.rows)
    ensures Cuts(original, LeastImportantSeam(importanceMap))
    ensures newMat == Some(Carved(original, LeastImportantSeam(importanceMap)))
  {
    hide Flatten, Unflatten, RowStart, Backtrack, LeftmostMin;
    var rows, cols := |original.rows|, original.cols;
    var buffOrigin := new byte[|bytes|](i requires 0 <= i < |bytes| => bytes[i]);
    assert buffOrigin[..] == bytes;
    var buffNew := new byte[RowStart(rows, 4 * (cols - 1))];
    var minCol: nat := FindSeamStart(importanceMap, buffPath, rows, cols);
    CarveAlongSeam(original, importanceMap, buffPath, buffOrigin, buffNew, rows, cols, minCol);
    UnflattenFlatten(Carved(original, LeastImportantSeam(importanceMap)).rows, 4 * (cols - 1));
    newMat := Some(Frame(cols - 1, Unflatten(buffNew[..], rows, 4 * (cols - 1))));
  }

  // ---------- the whole effect ----------

  /** Any energy map of the frame's shape stands for the Sobel gradient. */
  ghost predicate IsGradient(gradient: Frame -> EnergyMap) {
    forall f: Frame {:trigger gradient(f)} :: f.Valid() && |f.rows| <= MAX_ROWS ==>
      gradient(f).Bounded() && gradient(f).Rows() == |f.rows| && gradient(f).cols == f.cols
  }

  /** Such maps exist: a frame without any edges has this gradient. */
  function FlatGradient(f: Frame): EnergyMap {
    EnergyMap(f.cols, seq(|f.rows|, row => seq(f.cols, col => 0.0)))
  }

  lemma GradientsExist()
    ensures IsGradient(FlatGradient)
  {
  }

  ghost function CarveOnce(gradient: Frame -> EnergyMap, f: Frame): (g: Frame)
    requires IsGradient(gradient) && f.Valid() && 0 < |f.rows| <= MAX_ROWS && 0 < f.cols
    ensures g.Valid() && |g.rows| == |f.rows| && g.cols == f.cols - 1
  {
    var d := PathIntensities(gradient(f));
    PathIntensitiesBelowSentinel(gradient(f));
    BacktrackIsSeam(d, d.Rows() - 1, LeftmostMin(d, d.cols));
    Carved(f, LeastImportantSeam(d))
  }

  ghost function CarveTimes(gradient: Frame -> EnergyMap, f: Frame, n: nat): (g: Frame)
    requires IsGradient(gradient) && f.Valid() && 0 < |f.rows| <= MAX_ROWS && n <= f.cols
    ensures g.Valid() && |g.rows| == |f.rows| && g.cols == f.cols - n
  {
    if n == 0 then f else CarveOnce(gradient, CarveTimes(gradient, f, n - 1))
  }

  /** `h` is what one round makes of `g`: it cuts the least important seam of the gradient of `g`. */
  ghost predicate IsRound(gradient: Frame -> EnergyMap, g: Frame, h: Frame) {
    var e := gradient(g);
    && g.Valid() && h.Valid() && e.HasCells() && e.Bounded() && BelowSentinel(PathIntensities(e))
    && IsFullSeam(e, LeastImportantSeam(PathIntensities(e)))
    && IsCutAlong(g, h, LeastImportantSeam(PathIntensities(e)))
  }

  lemma CarveOnceIsRound(gradient: Frame -> EnergyMap, f: Frame)
    requires IsGradient(gradient) && f.Valid() && 0 < |f.rows| <= MAX_ROWS && 0 < f.cols
    ensures IsRound(gradient, f, CarveOnce(gradient, f))
  {
    hide IsCutAlong, Carved, Backtrack;
    var e := gradient(f);
    var d := PathIntensities(e);
    PathIntensitiesBelowSentinel(e);
    BacktrackIsSeam(d, d.Rows() - 1, LeftmostMin(d, d.cols));
    CarvedAlong(f, LeastImportantSeam(d));
  }

  /** The frames of the effect, from the one it is given to the one it returns: ten rounds, or none. */
  ghost predicate AreRounds(gradient: Frame -> EnergyMap, frames: seq<Frame>) {
    frames != [] && forall n :: 0 <= n < |frames| - 1 ==> IsRound(gradient, frames[n], frames[n + 1])
  }

  lemma OneMoreRound(gradient: Frame -> EnergyMap, frames: seq<Frame>, g: Frame)
    requires AreRounds(gradient, frames) && IsRound(gradient, frames[|frames| - 1], g)
    ensures AreRounds(gradient, frames + [g])
  {
    hide IsRound;
  }

  /** Ten seams, or the frame itself when it has fewer than ten columns or no rows. */
  method ApplyTo(frame: Frame, gradient: Frame -> EnergyMap) returns (r: Frame, ghost rounds: seq<Frame>)
    requires IsGradient(gradient) && frame.Valid() && |frame.rows| <= MAX_ROWS
    ensures r == if |frame.rows| == 0 || frame.cols < SEAMS then frame else CarveTimes(gradient, frame, SEAMS)
    ensures r.Valid() && AlphaFrom(r, frame)
    ensures r.cols == if |frame.rows| == 0 || frame.cols < SEAMS then frame.cols else frame.cols - SEAMS
    ensures AreRounds(gradient, rounds) && rounds[0] == frame && rounds[|rounds| - 1] == r
    ensures |rounds| == if |frame.rows| == 0 || frame.cols < SEAMS then 1 else SEAMS + 1
  {
    hide AlphaFrom, IsRound, CarveOnce;
    AlphaFromReflexive(frame);
    var newFrame := frame;
    rounds := [frame];
    for i := 0 to SEAMS
      invariant i > 0 ==> 0 < |frame.rows| && i <= frame.cols
      invariant newFrame == if i == 0 then frame else CarveTimes(gradient, frame, i)
      invariant |rounds| == i + 1 && rounds[0] == frame && rounds[i] == newFrame && AreRounds(gradient, rounds)
    {
      var gradientMagnitude := gradient(newFrame);
      var pathIntensityMat := ComputePathIntensityMat(gradientMagnitude);
      if pathIntensityMat == None {
        return frame, [frame];
      }
      PathIntensitiesBelowSentinel(gradientMagnitude);
      var carved := RemoveLeastImportantPath(newFrame, pathIntensityMat.value);
      if carved == None {
        return frame, [frame];
      }
      CarveOnceIs(gradient, newFrame);
      CarveOnceIsRound(gradient, newFrame);
      OneMoreRound(gradient, rounds, carved.value);
      newFrame := carved.value;
      rounds := rounds + [newFrame];
    }
    AlphaIsSubsequence(gradient, frame, SEAMS);
    return newFrame, rounds;
  }

  lemma CarveOnceIs(gradient: Frame -> EnergyMap, f: Frame)
    requires IsGradient(gradient) && f.Valid() && 0 < |f.rows| <= MAX_ROWS && 0 < f.cols
    ensures BelowSentinel(PathIntensities(gradient(f)))
    ensures Cuts(f, LeastImportantSeam(PathIntensities(gradient(f))))
    ensures CarveOnce(gradient, f) == Carved(f, LeastImportantSeam(PathIntensities(gradient(f))))
  {
    var d := PathIntensities(gradient(f));
    PathIntensitiesBelowSentinel(gradient(f));
    BacktrackIsSeam(d, d.Rows() - 1, LeftmostMin(d, d.cols));
  }

  // ---------- what the effect does to a frame ----------

  /** The alpha bytes of a row. */
  ghost function Alpha(row: seq<byte>): seq<byte> {
    seq(|row| / 4, pixel requires 0 <= pixel < |row| / 4 => row[4 * pixel + 3])
  }

  /** Alpha is never blended: carving a row deletes exactly the seam's alpha byte. */
  lemma AlphaIsDeleted(row: seq<byte>, seam: nat)
    requires 4 * seam < |row| && |row| % 4 == 0
    ensures Alpha(CarvedRow(row, seam)) == Alpha(row)[..seam] + Alpha(row)[seam + 1..]
  {
    forall pixel | 0 <= pixel < |row| / 4 - 1
      ensures Alpha(CarvedRow(row, seam))[pixel] == (Alpha(row)[..seam] + Alpha(row)[seam + 1..])[pixel]
    {
      assert CarvedRow(row, seam)[4 * pixel + 3] == CarvedByte(row, seam, pixel, 3);
    }
  }

  /** A colour byte away from the seam is kept; beside the seam it lies between the two bytes that are blended. */
  lemma ColourBetween(row: seq<byte>, seam: nat, pixel: nat, channel: nat)
    requires 4 * seam < |row| && |row| % 4 == 0 && 4 * pixel < |row| - 4 && channel < 3
    ensures
      var kept := row[4 * (if pixel < seam then pixel else pixel + 1) + channel];
      var removed := row[4 * seam + channel];
      var carved := CarvedRow(row, seam)[4 * pixel + channel];
      if pixel == seam || pixel + 1 == seam
      then (Unsigned(kept) <= Unsigned(carved) <= Unsigned(removed)
            || Unsigned(removed) <= Unsigned(carved) <= Unsigned(kept))
           && Unsigned(kept) + Unsigned(removed) - 2 * Unsigned(carved) in {0, 1}
      else carved == kept
  {
    assert CarvedRow(row, seam)[4 * pixel + channel] == CarvedByte(row, seam, pixel, channel);
  }

  /**
   What cutting a row at one column leaves of it: the alpha values of the other columns, and their colours, those beside
   the cut as the average with the colour that was cut, rounded down.
   */
  ghost predicate IsCut(row: seq<byte>, out: seq<byte>, column: nat) {
    && |row| % 4 == 0 && 4 * column < |row| && |out| == |row| - 4
    && Alpha(out) == Alpha(row)[..column] + Alpha(row)[column + 1..]
    && forall pixel, channel :: 0 <= pixel < |out| / 4 && 0 <= channel < 3 ==>
         IsCutColour(row, out, column, pixel, channel)
  }

  ghost predicate IsCutColour(row: seq<byte>, out: seq<byte>, column: nat, pixel: nat, channel: nat)
    requires |row| % 4 == 0 && 4 * column < |row| && |out| == |row| - 4 && pixel < |out| / 4 && channel < 3
  {
    var kept := row[4 * (if pixel < column then pixel else pixel + 1) + channel];
    var removed := row[4 * column + channel];
    var left := out[4 * pixel + channel];
    if pixel == column || pixel + 1 == column then Unsigned(kept) + Unsigned(removed) - 2 * Unsigned(left) in {0, 1}
    else left == kept
  }

  lemma CarvedIsCut(row: seq<byte>, column: nat)
    requires 4 * column < |row| && |row| % 4 == 0
    ensures IsCut(row, CarvedRow(row, column), column)
  {
    AlphaIsDeleted(row, column);
    forall pixel, channel | 0 <= pixel < |row| / 4 - 1 && 0 <= channel < 3
      ensures IsCutColour(row, CarvedRow(row, column), column, pixel, channel)
    {
      ColourBetween(row, column, pixel, channel);
    }
    hide Alpha, CarvedRow;
  }

  /** Every row of the frame is cut where the seam passes. */
  ghost predicate IsCutAlong(f: Frame, g: Frame, seam: seq<nat>) {
    && |g.rows| == |f.rows| == |seam| && g.cols == f.cols - 1
    && forall row :: 0 <= row < |seam| ==> IsCut(f.rows[row], g.rows[row], seam[row])
  }

  lemma CarvedAlong(f: Frame, seam: seq<nat>)
    requires f.Valid() && Cuts(f, seam) && 0 < f.cols
    ensures IsCutAlong(f, Carved(f, seam), seam)
  {
    hide IsCut, CarvedRow;
    forall row | 0 <= row < |seam|
      ensures IsCut(f.rows[row], Carved(f, seam).rows[row], seam[row])
    {
      CarvedIsCut(f.rows[row], seam[row]);
    }
  }

  /** A byte as Java's int computation sees it. */
  lemma UnsignedByte(b: byte)
    ensures 0 <= Unsigned(b) < 256 && (Unsigned(b) - b as int) % 256 == 0 && ToByte(Unsigned(b)) == b
  {
  }

  /** Row by row, the alpha values of `g` are a subsequence of those of `f`. */
  ghost predicate AlphaFrom(g: Frame, f: Frame) {
    |g.rows| == |f.rows| && forall row :: 0 <= row < |f.rows| ==> IsSubsequence(Alpha(g.rows[row]), Alpha(f.rows[row]))
  }

  lemma AlphaFromReflexive(f: Frame)
    ensures AlphaFrom(f, f)
  {
    forall row | 0 <= row < |f.rows|
      ensures IsSubsequence(Alpha(f.rows[row]), Alpha(f.rows[row]))
    {
      Reflexive(Alpha(f.rows[row]));
    }
  }

  lemma AlphaFromTransitive(h: Frame, g: Frame, f: Frame)
    requires AlphaFrom(h, g) && AlphaFrom(g, f)
    ensures AlphaFrom(h, f)
  {
    forall row | 0 <= row < |f.rows|
      ensures IsSubsequence(Alpha(h.rows[row]), Alpha(f.rows[row]))
    {
      Transitive(Alpha(h.rows[row]), Alpha(g.rows[row]), Alpha(f.rows[row]));
    }
  }

  /** One removal deletes one alpha value from every row. */
  lemma AlphaStep(f: Frame, seam: seq<nat>)
    requires f.Valid() && Cuts(f, seam) && 0 < f.cols
    ensures AlphaFrom(Carved(f, seam), f)
  {
    forall row | 0 <= row < |f.rows|
      ensures IsSubsequence(Alpha(Carved(f, seam).rows[row]), Alpha(f.rows[row]))
    {
      var c, alpha := seam[row], Alpha(f.rows[row]);
      assert Carved(f, seam).rows[row] == CarvedRow(f.rows[row], c);
      AlphaIsDeleted(f.rows[row], c);
      DeleteOne(alpha[..c], alpha[c], alpha[c + 1..]);
      assert alpha == alpha[..c] + [alpha[c]] + alpha[c + 1..];
    }
  }

  lemma AlphaRound(gradient: Frame -> EnergyMap, g: Frame)
    requires IsGradient(gradient) && g.Valid() && 0 < |g.rows| <= MAX_ROWS && 0 < g.cols
    ensures AlphaFrom(CarveOnce(gradient, g), g)
  {
    var d := PathIntensities(gradient(g));
    PathIntensitiesBelowSentinel(gradient(g));
    BacktrackIsSeam(d, d.Rows() - 1, LeftmostMin(d, d.cols));
    AlphaStep(g, LeastImportantSeam(d));
  }

  /** Over any number of seams, each row's alpha values are a subsequence of the original row's. */
  lemma {:induction false} AlphaIsSubsequence(gradient: Frame -> EnergyMap, f: Frame, n: nat)
    requires IsGradient(gradient) && f.Valid() && 0 < |f.rows| <= MAX_ROWS && n <= f.cols
    ensures AlphaFrom(CarveTimes(gradient, f, n), f)
    decreases n
  {
    hide CarveOnce, AlphaFrom;
    if n == 0 {
      AlphaFromReflexive(f);
    } else {
      AlphaIsSubsequence(gradient, f, n - 1);
      AlphaNext(gradient, f, n - 1);
    }
  }

  /** Where the alpha values of a row come from: columns of the original row, from left to right. */
  lemma AlphaColumns(gradient: Frame -> EnergyMap, f: Frame, n: nat, row: nat) returns (columns: seq<nat>)
    requires IsGradient(gradient) && f.Valid() && 0 < |f.rows| <= MAX_ROWS && n <= f.cols && row < |f.rows|
    ensures |columns| == f.cols - n
    ensures forall k :: 0 <= k < |columns| ==> columns[k] < f.cols
    ensures forall j, k :: 0 <= j < k < |columns| ==> columns[j] < columns[k]
    ensures forall k :: 0 <= k < |columns| ==>
              Alpha(CarveTimes(gradient, f, n).rows[row])[k] == Alpha(f.rows[row])[columns[k]]
  {
    AlphaIsSubsequence(gradient, f, n);
    var g := CarveTimes(gradient, f, n);
    columns := SubsequencePositions(Alpha(g.rows[row]), Alpha(f.rows[row]));
    assert |Alpha(f.rows[row])| == f.cols && |Alpha(g.rows[row])| == f.cols - n;
    hide CarveTimes, IsSubsequence, Alpha;
  }

  lemma AlphaNext(gradient: Frame -> EnergyMap, f: Frame, n: nat)
    requires IsGradient(gradient) && f.Valid() && 0 < |f.rows| <= MAX_ROWS && n < f.cols
    requires AlphaFrom(CarveTimes(gradient, f, n), f)
    ensures AlphaFrom(CarveTimes(gradient, f, n + 1), f)
  {
    var g := CarveTimes(gradient, f, n);
    assert CarveTimes(gradient, f, n + 1) == CarveOnce(gradient, g);
    hide *;
    AlphaRound(gradient, g);
    AlphaFromTransitive(CarveOnce(gradient, g), g, f);
  }

  /**
   Every round removes a full seam of the frame it starts from, and a cheapest one exactly when no side tie is met.
   */
  lemma StepRemovesSeam(gradient: Frame -> EnergyMap, f: Frame, n: nat)
    requires IsGradient(gradient) && f.Valid() && 0 < |f.rows| <= MAX_ROWS && n < f.cols
    ensures
      var g := CarveTimes(gradient, f, n);
      var e := gradient(g);
      && e.HasCells() && e.Bounded() && BelowSentinel(PathIntensities(e))
      && var d, seam := PathIntensities(e), LeastImportantSeam(PathIntensities(e));
      && IsFullSeam(e, seam) && IsFullSeam(d, seam) && Cuts(g, seam)
      && CarveTimes(gradient, f, n + 1) == Carved(g, seam) && IsCutAlong(g, CarveTimes(gradient, f, n + 1), seam)
      && (IsCheapest(e, seam) <==> !TieOnSeam(d, seam))
  {
    var g := CarveTimes(gradient, f, n);
    var e := gradient(g);
    SeamIsCheapestIff(e);
    CarvedAlong(g, LeastImportantSeam(PathIntensities(e)));
    hide IsCutAlong;
  }
}
