/**
 * 6/imageToData.py: thresholding a grey-scale image to 0/1 and the same
 * row-to-byte conversion as 6/processImage.py, which here also reports
 * each row's bit string and value.
 */
module ImageToData {
  import opened Wrappers
  import opened Bits
  import opened ProcessImage

  const DEFAULT_THRESHOLD: int := 127

  /** One pixel through a binary threshold with maximum value 1. */
  function ThresholdPixel(pixel: nat, threshold: int): (b: nat)
    ensures b <= 1
    ensures b == 1 <==> pixel > threshold
  {
    if pixel > threshold then 1 else 0
  }

  /** `convertToBinary`: values above the threshold become 1, all others 0. */
  function ConvertToBinary(image: seq<seq<nat>>, threshold: int): (b: seq<seq<nat>>)
    ensures |b| == |image|
    ensures forall i :: 0 <= i < |image| ==> |b[i]| == |image[i]| && IsBitRow(b[i])
    ensures forall i, j :: 0 <= i < |image| && 0 <= j < |image[i]| ==> (b[i][j] == 1 <==> image[i][j] > threshold)
  {
    seq(|image|, i requires 0 <= i < |image| =>
      seq(|image[i]|, j requires 0 <= j < |image[i]| => ThresholdPixel(image[i][j], threshold)))
  }

  /** The line reported for a converted row: its index, its bit string and its value. */
  datatype ReportLine = ReportLine(rowIdx: nat, bits: string, value: nat)

  /** The lines reported before `convertToHex` returns or raises. */
  function Report(rows: seq<seq<nat>>): seq<ReportLine>
  {
    if |rows| == 0 then []
    else
      var init := rows[..|rows| - 1];
      match HexRows(init)
      case Failure(_) => Report(init)
      case Success(_) =>
        match RowHex(rows[|rows| - 1])
        case None => Report(init)
        case Some(v) => Report(init) + [ReportLine(|rows| - 1, BitString(Row8(rows[|rows| - 1])), v)]
  }

  /** `convertToHex`: the values of 6/processImage.py's `convertToHex`, and one report line per converted row. */
  method ConvertToHex(binaryImage: seq<seq<nat>>) returns (r: Result<seq<nat>, HexError>, report: seq<ReportLine>)
    ensures r == HexRows(binaryImage)
    ensures report == Report(binaryImage)
  {
    var hexData: seq<nat> := [];
    report := [];
    var i := 0;
    while i < |binaryImage|
      invariant 0 <= i <= |binaryImage|
      invariant HexRows(binaryImage[..i]) == Success(hexData)
      invariant Report(binaryImage[..i]) == report
    {
      var hexValue := ConvertRow(binaryImage[i]);
      HexRowsStep(binaryImage, i, hexData);
      assert binaryImage[..i + 1][..i] == binaryImage[..i];
      if hexValue.None? {
        HexRowsFailureSticks(binaryImage, i + 1);
        ReportFailureSticks(binaryImage, i + 1);
        return Failure(NotBinary(i)), report;
      }
      hexData := hexData + [hexValue.value];
      report := report + [ReportLine(i, BitString(Row8(binaryImage[i])), hexValue.value)];
      i := i + 1;
    }
    assert binaryImage[..i] == binaryImage;
    r := Success(hexData);
  }

  /** After the row that raises, nothing more is reported. */
  lemma {:induction false} ReportFailureSticks(rows: seq<seq<nat>>, k: nat)
    requires k <= |rows| && HexRows(rows[..k]).Failure?
    ensures Report(rows) == Report(rows[..k])
    decreases |rows| - k
  {
    if k < |rows| {
      assert rows[..k + 1][..k] == rows[..k];
      HexRowsFailureSticks(rows, k + 1);
      ReportFailureSticks(rows, k + 1);
    } else {
      assert rows[..k] == rows;
    }
  }

  /** When every row converts, row i is reported with index i, its 8 bits and the value returned for it. */
  lemma {:induction false} ReportOnSuccess(rows: seq<seq<nat>>)
    requires HexRows(rows).Success?
    ensures |Report(rows)| == |rows| && |HexRows(rows).value| == |rows|
    ensures forall i :: 0 <= i < |rows| ==> Report(rows)[i] == ReportLine(i, BitString(Row8(rows[i])), HexRows(rows).value[i])
  {
    if |rows| > 0 {
      var init := rows[..|rows| - 1];
      var last := rows[|rows| - 1];
      assert HexRows(init).Success?;
      var v := RowHex(last).value;
      assert HexRows(rows).value == HexRows(init).value + [v];
      assert Report(rows) == Report(init) + [ReportLine(|rows| - 1, BitString(Row8(last)), v)];
      ReportOnSuccess(init);
      forall i | 0 <= i < |init|
        ensures Report(rows)[i] == ReportLine(i, BitString(Row8(rows[i])), HexRows(rows).value[i])
      {
        assert init[i] == rows[i];
      }
    }
  }

  /**
   * A thresholded image always converts: one value per row, in 0..255, whose
   * bit 7-j is set iff pixel j of the row is among the first 8 and above the threshold.
   */
  lemma ThresholdedImageConverts(image: seq<seq<nat>>, threshold: int)
    ensures HexRows(ConvertToBinary(image, threshold)).Success?
    ensures |HexRows(ConvertToBinary(image, threshold)).value| == |image|
    ensures forall i :: 0 <= i < |image| ==> HexRows(ConvertToBinary(image, threshold)).value[i] < 256
  {
    var b := ConvertToBinary(image, threshold);
    forall i | 0 <= i < |b|
      ensures RowHex(b[i]) == Some(MsbValue(Row8(b[i]))) && MsbValue(Row8(b[i])) < 256
    {
      BitRowValue(b[i]);
    }
    HexRowsSpec(b);
  }

  lemma ThresholdedPixelBit(image: seq<seq<nat>>, threshold: int, i: nat, j: nat)
    requires i < |image| && j < ROW_BITS
    ensures HexRows(ConvertToBinary(image, threshold)).Success?
    ensures |HexRows(ConvertToBinary(image, threshold)).value| == |image|
    ensures Bit(HexRows(ConvertToBinary(image, threshold)).value[i], 7 - j) <==> j < |image[i]| && image[i][j] > threshold
  {
    var b := ConvertToBinary(image, threshold);
    ThresholdedImageConverts(image, threshold);
    HexRowsSpec(b);
    BitRowBit(b[i], j);
  }
}
