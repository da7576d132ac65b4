/**
 Flat row-major buffers, as a matrix copies its rows into and out of them. The start of a
 row, which the source writes as a product, is defined by repeated addition; RowStartIsProduct
 relates the two.
 */
module RowMajor {

  /** Where `row` starts in a buffer whose rows have `width` elements. */
  function RowStart(row: nat, width: nat): nat {
    if row == 0 then 0 else RowStart(row - 1, width) + width
  }

  lemma {:induction false} RowStartIsProduct(row: nat, width: nat)
    ensures RowStart(row, width) == row * width
  {
    if row > 0 {
      RowStartIsProduct(row - 1, width);
    }
  }

  lemma {:induction false} RowStartIsZero(row: nat, width: nat)
    ensures RowStart(row, width) == 0 <==> row == 0 || width == 0
  {
    if row > 0 {
      RowStartIsZero(row - 1, width);
    }
  }

  /** The rows one after the other: what a matrix copies into a buffer. */
  function Flatten<T>(rows: seq<seq<T>>): seq<T> {
    if rows == [] then [] else Flatten(rows[..|rows| - 1]) + rows[|rows| - 1]
  }

  ghost predicate HaveWidth<T>(rows: seq<seq<T>>, width: nat) {
    forall i :: 0 <= i < |rows| ==> |rows[i]| == width
  }

  lemma {:induction false} FlatLength<T>(rows: seq<seq<T>>, width: nat)
    requires HaveWidth(rows, width)
    ensures |Flatten(rows)| == RowStart(|rows|, width)
    decreases |rows|
  {
    if rows != [] {
      FlatLength(rows[..|rows| - 1], width);
    }
  }

  /** A buffer splits at the start of every row. */
  lemma {:induction false} SplitAt<T>(rows: seq<seq<T>>, width: nat, row: nat)
    requires HaveWidth(rows, width) && row <= |rows|
    ensures RowStart(row, width) <= |Flatten(rows)| == RowStart(|rows|, width)
    ensures Flatten(rows)[..RowStart(row, width)] == Flatten(rows[..row])
    ensures Flatten(rows)[RowStart(row, width)..] == Flatten(rows[row..])
    decreases |rows|
  {
    FlatLength(rows, width);
    var n := |rows|;
    if row == n {
      assert rows[..n] == rows && rows[n..] == [];
    } else {
      var front := rows[..n - 1];
      SplitAt(front, width, row);
      assert front[..row] == rows[..row];
      assert rows[row..][..n - row - 1] == front[row..] && rows[row..][n - row - 1] == rows[n - 1];
    }
  }

  /** Row `row` of the matrix is the slice of the buffer that starts at RowStart. */
  lemma RowSlice<T>(rows: seq<seq<T>>, width: nat, row: nat)
    requires HaveWidth(rows, width) && row < |rows|
    ensures RowStart(row, width) + width == RowStart(row + 1, width) <= |Flatten(rows)| == RowStart(|rows|, width)
    ensures Flatten(rows)[RowStart(row, width)..][..width] == rows[row]
    ensures Flatten(rows)[..RowStart(row, width)] == Flatten(rows[..row])
    ensures Flatten(rows)[RowStart(row, width)..] == rows[row] + Flatten(rows[row + 1..])
  {
    SplitAt(rows, width, row);
    SplitAt(rows, width, row + 1);
    SplitAt(rows[row..], width, 1);
    assert rows[row..][..1] == [rows[row]] && rows[row..][1..] == rows[row + 1..];
    assert [rows[row]][..0] == [] && Flatten([rows[row]]) == rows[row];
    assert Flatten(rows[row..]) == Flatten(rows[row..])[..width] + Flatten(rows[row..])[width..];
  }

  /** The rows that a buffer holds: what a matrix copies out of it. */
  function Unflatten<T>(buff: seq<T>, height: nat, width: nat): (rows: seq<seq<T>>)
    requires |buff| == RowStart(height, width)
    ensures |rows| == height && HaveWidth(rows, width)
    decreases height
  {
    if height == 0 then []
    else Unflatten(buff[..RowStart(height - 1, width)], height - 1, width) + [buff[RowStart(height - 1, width)..]]
  }

  lemma {:induction false} UnflattenFlatten<T>(rows: seq<seq<T>>, width: nat)
    requires HaveWidth(rows, width)
    ensures |Flatten(rows)| == RowStart(|rows|, width)
    ensures Unflatten(Flatten(rows), |rows|, width) == rows
    decreases |rows|
  {
    FlatLength(rows, width);
    if rows != [] {
      var front := rows[..|rows| - 1];
      UnflattenFlatten(front, width);
      assert Flatten(rows)[..|Flatten(front)|] == Flatten(front);
      assert Flatten(rows)[|Flatten(front)|..] == rows[|rows| - 1];
      assert rows == front + [rows[|rows| - 1]];
    }
  }
}
