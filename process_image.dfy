/**
 * Row-to-byte conversion of 6/processImage.py: each image row is cut or
 * zero-padded to 8 entries, the entries are written out in decimal and
 * joined, and the joined string is read as a base-2 numeral.
 */
module ProcessImage {
  import opened Wrappers
  import opened Bits

  const ROW_BITS: nat := 8

  /** `int(bits, 2)` raised on the row with this index. */
  datatype HexError = NotBinary(row: nat)

  /** The first 8 entries of a row, or the row padded with zeros on the right to 8. */
  function Row8(row: seq<nat>): (r: seq<nat>)
    ensures |r| == ROW_BITS
    ensures forall i :: 0 <= i < ROW_BITS ==> r[i] == if i < |row| then row[i] else 0
  {
    if |row| > ROW_BITS then row[..ROW_BITS] else row + seq(ROW_BITS - |row|, _ => 0)
  }

  function DigitChar(d: nat): (c: char)
    requires d < 10
    ensures '0' <= c <= '9'
    ensures (c == '0') == (d == 0) && (c == '1') == (d == 1)
  {
    (('0' as int) + d) as char
  }

  /** `str(n)` for a non-negative integer. */
  function DecimalString(n: nat): (s: string)
    ensures 1 <= |s|
    ensures forall i :: 0 <= i < |s| ==> '0' <= s[i] <= '9'
    ensures n < 10 <==> |s| == 1
  {
    if n < 10 then [DigitChar(n)] else DecimalString(n / 10) + [DigitChar(n % 10)]
  }

  /** The entries of a row written in decimal and concatenated. */
  function BitString(row: seq<nat>): (s: string)
    ensures |s| >= |row|
  {
    if |row| == 0 then "" else BitString(row[..|row| - 1]) + DecimalString(row[|row| - 1])
  }

  predicate BinaryDigits(s: string)
  {
    forall i :: 0 <= i < |s| ==> s[i] == '0' || s[i] == '1'
  }

  function DigitsOf(s: string): (d: seq<int>)
    ensures |d| == |s| && IsBinary(d)
  {
    seq(|s|, i requires 0 <= i < |s| => if s[i] == '1' then 1 else 0)
  }

  /** `int(s, 2)` on a string of decimal digits; `None` where Python raises. */
  function ParseBinary(s: string): (r: Option<nat>)
    ensures r.Some? <==> |s| > 0 && BinaryDigits(s)
    ensures r.Some? ==> r.value < Pow2(|s|)
  {
    if |s| > 0 && BinaryDigits(s) then
      MsbValueRange(DigitsOf(s));
      Some(MsbValue(DigitsOf(s)))
    else None
  }

  /** The value `convertToHex` computes for one row. */
  function RowHex(row: seq<nat>): Option<nat>
  {
    ParseBinary(BitString(Row8(row)))
  }

  /**
   * `row.flatten()` on a row that holds one channel list per pixel, as the
   * rows of a colour image do: the channels, pixel by pixel.
   */
  function FlatRow(pixels: seq<seq<nat>>): seq<nat>
  {
    if |pixels| == 0 then [] else FlatRow(pixels[..|pixels| - 1]) + pixels[|pixels| - 1]
  }

  /** In a row of three-channel pixels, entry 3p+ch of the flattened row is channel ch of pixel p. */
  lemma {:induction false} FlatRowLayout(pixels: seq<seq<nat>>)
    requires forall p :: 0 <= p < |pixels| ==> |pixels[p]| == 3
    ensures |FlatRow(pixels)| == 3 * |pixels|
    ensures forall p, ch :: 0 <= p < |pixels| && 0 <= ch < 3 ==> FlatRow(pixels)[3 * p + ch] == pixels[p][ch]
  {
    if |pixels| > 0 {
      var init := pixels[..|pixels| - 1];
      FlatRowLayout(init);
      assert FlatRow(pixels) == FlatRow(init) + pixels[|pixels| - 1];
    }
  }

  /**
   * A colour row is not read pixel by pixel: the 8 entries `convertToHex`
   * takes are channels 0, 1, 2 of pixel 0, the same of pixel 1, then
   * channels 0 and 1 of pixel 2.
   */
  lemma ColourRowHex(pixels: seq<seq<nat>>)
    requires |pixels| >= 3 && forall p :: 0 <= p < |pixels| ==> |pixels[p]| == 3
    ensures RowHex(FlatRow(pixels)) ==
              RowHex([pixels[0][0], pixels[0][1], pixels[0][2], pixels[1][0], pixels[1][1], pixels[1][2],
                      pixels[2][0], pixels[2][1]])
  {
    FlatRowLayout(pixels);
    var flat := FlatRow(pixels);
    assert flat[0] == pixels[0][0] && flat[1] == pixels[0][1] && flat[2] == pixels[0][2];
    assert flat[3] == pixels[1][0] && flat[4] == pixels[1][1] && flat[5] == pixels[1][2];
    assert flat[3 * 2 + 0] == pixels[2][0] && flat[3 * 2 + 1] == pixels[2][1];
    assert Row8(flat) == Row8([pixels[0][0], pixels[0][1], pixels[0][2], pixels[1][0], pixels[1][1], pixels[1][2],
                               pixels[2][0], pixels[2][1]]);
  }

  /** What `convertToHex` returns, or the row on which it raises. */
  function HexRows(rows: seq<seq<nat>>): Result<seq<nat>, HexError>
  {
    if |rows| == 0 then Success([])
    else
      match HexRows(rows[..|rows| - 1])
      case Failure(e) => Failure(e)
      case Success(vs) =>
        match RowHex(rows[|rows| - 1])
        case None => Failure(NotBinary(|rows| - 1))
        case Some(v) => Success(vs + [v])
  }

  /**
   * `convertToHex` succeeds iff every row parses; it then returns one value
   * per row, in row order, and otherwise fails on the first row that does not.
   */
  lemma HexRowsSpec(rows: seq<seq<nat>>)
    ensures HexRows(rows).Success? <==> forall i :: 0 <= i < |rows| ==> RowHex(rows[i]).Some?
    ensures HexRows(rows).Success? ==> |HexRows(rows).value| == |rows|
    ensures HexRows(rows).Success? ==> forall i :: 0 <= i < |rows| ==> RowHex(rows[i]) == Some(HexRows(rows).value[i])
    ensures HexRows(rows).Failure? ==> HexRows(rows).error.row < |rows| && RowHex(rows[HexRows(rows).error.row]).None?
    ensures HexRows(rows).Failure? ==> forall i :: 0 <= i < HexRows(rows).error.row ==> RowHex(rows[i]).Some?
  {
    HexRowsSucceeds(rows);
    if HexRows(rows).Success? {
      HexRowsValues(rows);
    }
    HexRowsError(rows);
  }

  lemma HexRowsSucceeds(rows: seq<seq<nat>>)
    ensures HexRows(rows).Success? <==> forall i :: 0 <= i < |rows| ==> RowHex(rows[i]).Some?
  {
    if HexRows(rows).Success? {
      HexRowsOnlyConverting(rows);
    } else if forall i :: 0 <= i < |rows| ==> RowHex(rows[i]).Some? {
      HexRowsAllConverting(rows);
    }
  }

  lemma {:induction false} HexRowsOnlyConverting(rows: seq<seq<nat>>)
    requires HexRows(rows).Success?
    ensures forall i :: 0 <= i < |rows| ==> RowHex(rows[i]).Some?
  {
    if |rows| > 0 {
      var init := rows[..|rows| - 1];
      HexRowsOnlyConverting(init);
      forall i | 0 <= i < |rows|
        ensures RowHex(rows[i]).Some?
      {
        if i < |init| {
          assert rows[i] == init[i];
        }
      }
    }
  }

  lemma {:induction false} HexRowsAllConverting(rows: seq<seq<nat>>)
    requires forall i :: 0 <= i < |rows| ==> RowHex(rows[i]).Some?
    ensures HexRows(rows).Success?
  {
    if |rows| > 0 {
      var init := rows[..|rows| - 1];
      forall i | 0 <= i < |init|
        ensures RowHex(init[i]).Some?
      {
        assert init[i] == rows[i];
      }
      HexRowsAllConverting(init);
    }
  }

  lemma {:induction false} HexRowsValues(rows: seq<seq<nat>>)
    requires HexRows(rows).Success?
    ensures |HexRows(rows).value| == |rows|
    ensures forall i :: 0 <= i < |rows| ==> RowHex(rows[i]) == Some(HexRows(rows).value[i])
  {
    if |rows| > 0 {
      var init := rows[..|rows| - 1];
      HexRowsValues(init);
      var vs := HexRows(init).value;
      assert HexRows(rows).value == vs + [RowHex(rows[|rows| - 1]).value];
      forall i | 0 <= i < |init|
        ensures RowHex(rows[i]) == Some(HexRows(rows).value[i])
      {
        assert rows[i] == init[i];
      }
    }
  }

  lemma {:induction false} HexRowsError(rows: seq<seq<nat>>)
    ensures HexRows(rows).Failure? ==> HexRows(rows).error.row < |rows| && RowHex(rows[HexRows(rows).error.row]).None?
    ensures HexRows(rows).Failure? ==> forall i :: 0 <= i < HexRows(rows).error.row ==> RowHex(rows[i]).Some?
  {
    if |rows| > 0 {
      var init := rows[..|rows| - 1];
      assert forall i :: 0 <= i < |init| ==> init[i] == rows[i];
      HexRowsError(init);
      HexRowsSucceeds(init);
    }
  }

  /** One row of `convertToHex`: cut or pad to 8, join the decimal entries, parse base 2. */
  method ConvertRow(row: seq<nat>) returns (hexValue: Option<nat>)
    ensures hexValue == RowHex(row)
  {
    var row8 := if |row| > ROW_BITS then row[..ROW_BITS] else row;
    if |row8| < ROW_BITS {
      row8 := row8 + seq(ROW_BITS - |row8|, _ => 0);
    }
    assert row8 == Row8(row);
    var bits := "";
    for j := 0 to |row8|
      invariant bits == BitString(row8[..j])
    {
      assert row8[..j + 1][..j] == row8[..j];
      bits := bits + DecimalString(row8[j]);
    }
    assert row8[..|row8|] == row8;
    hexValue := ParseBinary(bits);
  }

  /** `convertToHex`: one value per row, in row order, raising on the first row that does not parse. */
  method ConvertToHex(binaryImage: seq<seq<nat>>) returns (r: Result<seq<nat>, HexError>)
    ensures r == HexRows(binaryImage)
  {
    var hexData: seq<nat> := [];
    var i := 0;
    while i < |binaryImage|
      invariant 0 <= i <= |binaryImage|
      invariant HexRows(binaryImage[..i]) == Success(hexData)
    {
      var hexValue := ConvertRow(binaryImage[i]);
      HexRowsStep(binaryImage, i, hexData);
      if hexValue.None? {
        HexRowsFailureSticks(binaryImage, i + 1);
        return Failure(NotBinary(i));
      }
      hexData := hexData + [hexValue.value];
      i := i + 1;
    }
    assert binaryImage[..i] == binaryImage;
    r := Success(hexData);
  }

  /** Extending the rows by one either appends that row's value or fails on it. */
  lemma HexRowsStep(rows: seq<seq<nat>>, i: nat, vs: seq<nat>)
    requires i < |rows| && HexRows(rows[..i]) == Success(vs)
    ensures RowHex(rows[i]).None? ==> HexRows(rows[..i + 1]) == Failure(NotBinary(i))
    ensures RowHex(rows[i]).Some? ==> HexRows(rows[..i + 1]) == Success(vs + [RowHex(rows[i]).value])
  {
    assert rows[..i + 1][..i] == rows[..i];
  }

  /** Once a prefix of the rows fails, the whole image fails the same way. */
  lemma {:induction false} HexRowsFailureSticks(rows: seq<seq<nat>>, k: nat)
    requires k <= |rows| && HexRows(rows[..k]).Failure?
    ensures HexRows(rows) == HexRows(rows[..k])
    decreases |rows| - k
  {
    if k < |rows| {
      assert rows[..k + 1][..k] == rows[..k];
      HexRowsFailureSticks(rows, k + 1);
    } else {
      assert rows[..k] == rows;
    }
  }

  predicate IsBitRow(row: seq<nat>)
  {
    forall i :: 0 <= i < |row| ==> row[i] <= 1
  }

  /** A 0/1 row is written out as one '0' or '1' per entry. */
  lemma {:induction false} BitRowString(row: seq<nat>)
    requires IsBitRow(row)
    ensures |BitString(row)| == |row|
    ensures forall i :: 0 <= i < |row| ==> BitString(row)[i] == if row[i] == 1 then '1' else '0'
  {
    if |row| > 0 {
      BitRowString(row[..|row| - 1]);
    }
  }

  /** On a 0/1 row, `convertToHex` reads the padded row most significant bit first. */
  lemma BitRowValue(row: seq<nat>)
    requires IsBitRow(row)
    ensures RowHex(row) == Some(MsbValue(Row8(row)))
    ensures MsbValue(Row8(row)) < 256
  {
    var r8 := Row8(row);
    BitRowString(r8);
    var s := BitString(r8);
    assert DigitsOf(s) == r8;
    MsbValueRange(r8);
  }

  /**
   * On a 0/1 row, bit 7-i of the value is pixel i: the first pixel is the
   * most significant bit, and the padding positions are clear.
   */
  lemma BitRowBit(row: seq<nat>, i: nat)
    requires IsBitRow(row) && i < ROW_BITS
    ensures RowHex(row).Some?
    ensures Bit(RowHex(row).value, 7 - i) <==> i < |row| && row[i] == 1
  {
    BitRowValue(row);
    MsbValueBits(Row8(row), i);
  }

  /** Concatenation commutes with writing a row out. */
  lemma {:induction false} BitStringAppend(a: seq<nat>, b: seq<nat>)
    ensures BitString(a + b) == BitString(a) + BitString(b)
    decreases |b|
  {
    if |b| == 0 {
      assert a + b == a;
    } else {
      var b' := b[..|b| - 1];
      var last := DecimalString(b[|b| - 1]);
      assert (a + b)[..|a + b| - 1] == a + b';
      assert BitString(a + b) == BitString(a + b') + last;
      assert BitString(b) == BitString(b') + last;
      BitStringAppend(a, b');
    }
  }

  /** A single-digit entry from 2 to 9 among the first 8 makes `int(bits, 2)` raise. */
  lemma NonBinaryDigitRaises(row: seq<nat>, j: nat)
    requires j < |row| && j < ROW_BITS && 2 <= row[j] <= 9
    ensures RowHex(row).None?
  {
    var r8 := Row8(row);
    assert r8 == r8[..j] + [r8[j]] + r8[j + 1..];
    BitStringAppend(r8[..j] + [r8[j]], r8[j + 1..]);
    BitStringAppend(r8[..j], [r8[j]]);
    assert BitString([r8[j]]) == [] + DecimalString(r8[j]);
    var s := BitString(r8);
    assert s[|BitString(r8[..j])|] == DigitChar(r8[j]);
  }

  lemma TenWrittenOut()
    ensures BitString(Row8([10])) == "100000000"
  {
    var zeros: seq<nat> := [0, 0, 0, 0, 0, 0, 0];
    assert Row8([10]) == [10] + zeros;
    BitStringAppend([10], zeros);
    assert DecimalString(10) == "10";
    assert BitString([10]) == "" + "10";
    BitRowString(zeros);
  }

  lemma {:induction false} LeadingOneValue(d: seq<int>, n: nat)
    requires |d| == n + 1 && d[0] == 1 && forall k :: 1 <= k <= n ==> d[k] == 0
    ensures MsbValue(d) == Pow2(n)
  {
    if n > 0 {
      LeadingOneValue(d[..n], n - 1);
    }
  }

  /** An entry whose decimal form is itself a binary numeral is not rejected: `[10]` reads as 256. */
  lemma TenReadsAsTwoHundredFiftySix()
    ensures RowHex([10]) == Some(256)
  {
    TenWrittenOut();
    var d := DigitsOf("100000000");
    LeadingOneValue(d, 8);
  }
}
