/**
 The generator from file to file: decode the source icon, scale it to a square,
 encode the result.
 */
module AssetGenerator {
  import opened Bytes
  import opened Checksums
  import opened ScanlineFilter
  import opened Png
  import opened PngRoundTrip
  import opened PngEncoding
  import PngEncoder
  import PngDecoder
  import opened BoxFilter
  import opened BoxScaling

  const MAX_TARGET := 4096

  datatype RenderError = TargetSize | Source(error: DecodeError)

  lemma DecodedIsPicture(data: seq<byte>, inflate: Inflate, crc: Check)
    requires Decode(data, inflate, crc).Ok?
    ensures var p := Decode(data, inflate, crc).value; IsPicture(p) && GoodSize(p.width, p.height)
  {
    ShowsWhatItDecodes(data, inflate, crc);
  }

  function Rendered(sourcePng: seq<byte>, targetSize: int, inflate: Inflate,
                    crc: Check): Result<seq<byte>, RenderError> {
    if targetSize < 1 || targetSize > MAX_TARGET then Err(TargetSize)
    else match Decode(sourcePng, inflate, crc)
      case Err(e) => Err(Source(e))
      case Ok(p) =>
        DecodedIsPicture(sourcePng, inflate, crc);
        Ok(Encode(Scaled(p, targetSize, targetSize).pixels, targetSize, targetSize, crc))
  }

  /** Reading a generated asset gives the scaled source image, whatever
      decompressor reads it. */
  lemma AssetShowsScaledSource(sourcePng: seq<byte>, targetSize: int, inflate: Inflate, reader: Inflate, crc: Check)
    requires Rendered(sourcePng, targetSize, inflate, crc).Ok? && Conforms(reader)
    ensures Decode(sourcePng, inflate, crc).Ok?
    ensures var p := Decode(sourcePng, inflate, crc).value;
            IsPicture(p) && targetSize >= 1
            && Decode(Rendered(sourcePng, targetSize, inflate, crc).value, reader, crc)
              == Ok(Scaled(p, targetSize, targetSize))
  {
    DecodedIsPicture(sourcePng, inflate, crc);
    var p := Decode(sourcePng, inflate, crc).value;
    var image := Scaled(p, targetSize, targetSize);
    SizeIsProduct(targetSize, targetSize * 4);
    DecodeUndoesEncode(image.pixels, targetSize, targetSize, reader, crc);
  }

  /** An asset is made exactly of a readable source and a size from 1 to 4096. */
  lemma RenderedExactly(sourcePng: seq<byte>, targetSize: int, inflate: Inflate, crc: Check)
    ensures Rendered(sourcePng, targetSize, inflate, crc).Ok?
       <==> 1 <= targetSize <= 4096 && Decode(sourcePng, inflate, crc).Ok?
  {
  }

  method Render(table: array<Word>, sourcePng: seq<byte>, targetSize: int, inflate: Inflate, ghost crc: Check)
    returns (r: Result<seq<byte>, RenderError>)
    requires IsTable(table) && IsCrc32(crc)
    ensures r == Rendered(sourcePng, targetSize, inflate, crc)
  {
    if targetSize < 1 || targetSize > MAX_TARGET { return Err(TargetSize); }
    var decoded := PngDecoder.DecodeRgba8Png(table, sourcePng, inflate, crc);
    if decoded.Err? { return Err(Source(decoded.error)); }
    DecodedIsPicture(sourcePng, inflate, crc);
    var targetPixels := ScaleBoxRgba(decoded.value, targetSize, targetSize);
    SizeIsProduct(targetSize, targetSize * 4);
    var png := PngEncoder.EncodeRgba8Png(table, targetPixels[..], targetSize, targetSize, crc);
    r := Ok(png);
  }
}
