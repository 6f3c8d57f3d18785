/**
 * The row-to-byte packing inside `displayImageOnLed` of 6/labProgram6.py:
 * each lit pixel i of a row sets bit 7-i of the row's byte with
 * `byte |= 1 << (7 - i)`; a lit pixel at column 8 or beyond asks for a
 * negative shift, which Python rejects with an exception.
 */
module ImageDisplay {
  import opened Wrappers
  import opened Bits
  import ProcessImage

  /** `1 << (7 - i)` with a negative count raised on the row with this index. */
  datatype PackError = NegativeShift(row: nat)

  /** 1 where the pixel is lit (`pixel > 0`), 0 elsewhere. */
  function Lit(row: seq<nat>): (b: seq<nat>)
    ensures |b| == |row| && ProcessImage.IsBitRow(b)
    ensures forall i :: 0 <= i < |row| ==> (b[i] == 1 <==> row[i] > 0)
  {
    seq(|row|, i requires 0 <= i < |row| => if row[i] > 0 then 1 else 0)
  }

  /** No pixel at column 8 or beyond is lit, so no shift count is negative. */
  predicate FitsByte(row: seq<nat>)
  {
    forall k :: ProcessImage.ROW_BITS <= k < |row| ==> row[k] == 0
  }

  /** The byte a row packs to: its lit pixels read most significant first, padded to 8. */
  function PackedRow(row: seq<nat>): (r: Option<nat>)
    ensures r.Some? <==> FitsByte(row)
  {
    if FitsByte(row) then
      var r8 := ProcessImage.Row8(Lit(row));
      MsbValueRange(r8);
      Some(MsbValue(r8))
    else None
  }

  /** Bit j of a row's byte is set iff j < 8 and pixel 7-j exists and is lit; the byte lies in 0..255. */
  lemma PackedRowBits(row: seq<nat>, j: nat)
    requires FitsByte(row)
    ensures PackedRow(row).Some? && PackedRow(row).value < 256
    ensures Bit(PackedRow(row).value, j) <==> j < 8 && 7 - j < |row| && row[7 - j] > 0
  {
    var r8 := ProcessImage.Row8(Lit(row));
    MsbValueRange(r8);
    if j < 8 {
      MsbValueBits(r8, 7 - j);
    } else {
      SmallHasNoHighBits(MsbValue(r8), 8, j);
    }
  }

  /** The inner loop over one row: `byte |= 1 << (7 - i)` for every lit pixel i. */
  method PackRow(row: seq<nat>) returns (byte: Option<nat>)
    ensures byte == PackedRow(row)
  {
    var b: nat := 0;
    forall j: nat
      ensures !Bit(b, j)
    {
      BitOfZero(j);
    }
    for i := 0 to |row|
      invariant forall j: nat :: Bit(b, j) <==> j < 8 && 7 - j < i && row[7 - j] > 0
      invariant forall k :: ProcessImage.ROW_BITS <= k < i ==> row[k] == 0
    {
      if row[i] > 0 {
        if i >= ProcessImage.ROW_BITS {
          return None;
        }
        var p := Pow2(7 - i);
        forall j: nat
          ensures Bit(Or(b, p), j) <==> j < 8 && 7 - j < i + 1 && row[7 - j] > 0
        {
          OrBits(b, p, j);
          BitOfPow2(7 - i, j);
        }
        b := Or(b, p);
      } else {
        forall j: nat
          ensures Bit(b, j) <==> j < 8 && 7 - j < i + 1 && row[7 - j] > 0
        {
        }
      }
    }
    forall j: nat
      ensures Bit(b, j) == Bit(PackedRow(row).value, j)
    {
      PackedRowBits(row, j);
    }
    BitsDetermine(b, PackedRow(row).value);
    byte := Some(b);
  }

  /** The packed image, or the first row that raises. */
  function PackedRows(rows: seq<seq<nat>>): (r: Result<seq<nat>, PackError>)
    ensures r.Success? ==> |r.value| == |rows|
    ensures r.Failure? ==> r.error.row < |rows|
  {
    if |rows| == 0 then Success([])
    else
      match PackedRows(rows[..|rows| - 1])
      case Failure(e) => Failure(e)
      case Success(vs) =>
        match PackedRow(rows[|rows| - 1])
        case None => Failure(NegativeShift(|rows| - 1))
        case Some(v) => Success(vs + [v])
  }

  /** The packing succeeds iff every row fits a byte, and then gives one byte per row, in row order. */
  lemma {:induction false} PackedRowsSpec(rows: seq<seq<nat>>)
    ensures PackedRows(rows).Success? <==> forall i :: 0 <= i < |rows| ==> FitsByte(rows[i])
    ensures PackedRows(rows).Success? ==> |PackedRows(rows).value| == |rows|
    ensures PackedRows(rows).Success? ==> forall i :: 0 <= i < |rows| ==> PackedRow(rows[i]) == Some(PackedRows(rows).value[i])
    ensures PackedRows(rows).Failure? ==> PackedRows(rows).error.row < |rows| && !FitsByte(rows[PackedRows(rows).error.row])
  {
    if |rows| > 0 {
      var init := rows[..|rows| - 1];
      assert forall i :: 0 <= i < |init| ==> init[i] == rows[i];
      PackedRowsSpec(init);
    }
  }

  lemma {:induction false} PackedRowsFailureSticks(rows: seq<seq<nat>>, k: nat)
    requires k <= |rows| && PackedRows(rows[..k]).Failure?
    ensures PackedRows(rows) == PackedRows(rows[..k])
    decreases |rows| - k
  {
    if k < |rows| {
      assert rows[..k + 1][..k] == rows[..k];
      PackedRowsFailureSticks(rows, k + 1);
    } else {
      assert rows[..k] == rows;
    }
  }

  /** The packing loop of `displayImageOnLed`: one byte appended to `pattern_data` per row. */
  method PackImage(binaryImage: seq<seq<nat>>) returns (r: Result<seq<nat>, PackError>)
    ensures r == PackedRows(binaryImage)
  {
    var patternData: seq<nat> := [];
    var i := 0;
    while i < |binaryImage|
      invariant 0 <= i <= |binaryImage|
      invariant PackedRows(binaryImage[..i]) == Success(patternData)
    {
      var byte := PackRow(binaryImage[i]);
      assert binaryImage[..i + 1][..i] == binaryImage[..i];
      if byte.None? {
        PackedRowsFailureSticks(binaryImage, i + 1);
        return Failure(NegativeShift(i));
      }
      patternData := patternData + [byte.value];
      i := i + 1;
    }
    assert binaryImage[..i] == binaryImage;
    r := Success(patternData);
  }

  /** On 0/1 rows of at most 8 pixels, a row packs to the value 6/processImage.py's `convertToHex` gives it. */
  lemma PackedRowAgreesWithHex(row: seq<nat>)
    requires ProcessImage.IsBitRow(row) && |row| <= ProcessImage.ROW_BITS
    ensures PackedRow(row) == ProcessImage.RowHex(row)
  {
    assert Lit(row) == row;
    ProcessImage.BitRowValue(row);
  }

  /** On images of 0/1 rows of at most 8 pixels, the packing and `convertToHex` both succeed with the same bytes. */
  lemma {:induction false} PackedRowsAgreeWithHex(rows: seq<seq<nat>>)
    requires forall i :: 0 <= i < |rows| ==> ProcessImage.IsBitRow(rows[i]) && |rows[i]| <= ProcessImage.ROW_BITS
    ensures PackedRows(rows).Success? && ProcessImage.HexRows(rows).Success?
    ensures PackedRows(rows).value == ProcessImage.HexRows(rows).value
  {
    if |rows| > 0 {
      var init := rows[..|rows| - 1];
      assert forall i :: 0 <= i < |init| ==> init[i] == rows[i];
      PackedRowsAgreeWithHex(init);
      PackedRowAgreesWithHex(rows[|rows| - 1]);
    }
  }
}
