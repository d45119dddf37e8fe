/**
 * The name under which the compressed image is offered for download,
 * `bild_{width}x{height}_q{quality}.jpg`, and a reader for such names: the
 * name records the target size and the JPEG quality and gives them back.
 */
module Download {
  import opened Wrappers
  import opened Decimal

  /** Bounds of the JPEG quality slider, and its initial value. */
  const MinQuality: int := 10
  const MaxQuality: int := 100
  const DefaultQuality: int := 85

  predicate ValidQuality(q: int) {
    MinQuality <= q <= MaxQuality
  }

  /** The quality slider starts at 85, a value inside its own range. */
  lemma DefaultQualityInRange()
    ensures ValidQuality(DefaultQuality)
  {
  }

  const Prefix: string := "bild_"
  const Separator: string := "x"
  const QualityTag: string := "_q"
  const Extension: string := ".jpg"

  /** The download file name for a target size and a quality taken from the quality slider. */
  function FileName(width: nat, height: nat, quality: nat): (name: string)
    requires ValidQuality(quality)
    ensures |name| > |Prefix| + |Extension|
    ensures name[..|Prefix|] == Prefix
    ensures name[|name| - |Extension|..] == Extension
  {
    Prefix + (NatToString(width) + (Separator + (NatToString(height) + (QualityTag + (NatToString(quality) + Extension)))))
  }

  /** Strips `lit` from the front of `s`, if `s` starts with it. */
  function ReadLiteral(lit: string, s: string): (r: Option<string>)
    ensures r.Some? <==> |lit| <= |s| && s[..|lit|] == lit
    ensures r.Some? ==> r.value == s[|lit|..]
  {
    if |lit| <= |s| && s[..|lit|] == lit then Some(s[|lit|..]) else None
  }

  /** Reads width, height and quality back from a download file name; None for any other string. */
  function ParseFileName(name: string): (r: Option<(nat, nat, nat)>)
    ensures r.Some? ==> |Prefix| < |name| && name[..|Prefix|] == Prefix
  {
    match ReadLiteral(Prefix, name)
    case None => None
    case Some(rest) => ParseDimensions(rest)
  }

  /** Reads `{width}x{height}_q{quality}.jpg`. */
  function ParseDimensions(s: string): (r: Option<(nat, nat, nat)>) {
    var width := ReadNumber(s);
    if width.None? then None else
    var rest := ReadLiteral(Separator, width.value.1);
    if rest.None? then None else
    var hq := ParseHeightAndQuality(rest.value);
    if hq.None? then None else Some((width.value.0, hq.value.0, hq.value.1))
  }

  /** Reads `{height}_q{quality}.jpg`. */
  function ParseHeightAndQuality(s: string): (r: Option<(nat, nat)>) {
    var height := ReadNumber(s);
    if height.None? then None else
    var rest := ReadLiteral(QualityTag, height.value.1);
    if rest.None? then None else
    var quality := ParseQuality(rest.value);
    if quality.None? then None else Some((height.value.0, quality.value))
  }

  /** Reads `{quality}.jpg`. */
  function ParseQuality(s: string): (r: Option<nat>) {
    var quality := ReadNumber(s);
    if quality.None? || quality.value.1 != Extension then None else Some(quality.value.0)
  }

  /** Reading a literal and then what follows it. */
  lemma ReadLiteralThen(lit: string, rest: string)
    ensures ReadLiteral(lit, lit + rest) == Some(rest)
  {
    assert (lit + rest)[..|lit|] == lit;
    assert (lit + rest)[|lit|..] == rest;
  }

  lemma ParseQualityOf(quality: nat)
    ensures ParseQuality(NatToString(quality) + Extension) == Some(quality)
  {
    ReadNumberRoundTrip(quality, Extension);
  }

  lemma ParseHeightAndQualityOf(height: nat, quality: nat)
    ensures ParseHeightAndQuality(NatToString(height) + (QualityTag + (NatToString(quality) + Extension)))
      == Some((height, quality))
  {
    var tail := NatToString(quality) + Extension;
    var s := NatToString(height) + (QualityTag + tail);
    ReadNumberRoundTrip(height, QualityTag + tail);
    assert ReadNumber(s) == Some((height, QualityTag + tail));
    ReadLiteralThen(QualityTag, tail);
    ParseQualityOf(quality);
  }

  lemma ParseDimensionsOf(width: nat, height: nat, quality: nat)
    ensures ParseDimensions(NatToString(width) + (Separator + (NatToString(height)
      + (QualityTag + (NatToString(quality) + Extension))))) == Some((width, height, quality))
  {
    var tail := NatToString(height) + (QualityTag + (NatToString(quality) + Extension));
    var s := NatToString(width) + (Separator + tail);
    ReadNumberRoundTrip(width, Separator + tail);
    assert ReadNumber(s) == Some((width, Separator + tail));
    ReadLiteralThen(Separator, tail);
    ParseHeightAndQualityOf(height, quality);
  }

  /** The file name gives back the size and quality it was made from. */
  lemma FileNameRoundTrip(width: nat, height: nat, quality: nat)
    requires ValidQuality(quality)
    ensures ParseFileName(FileName(width, height, quality)) == Some((width, height, quality))
  {
    var w, h, q := NatToString(width), NatToString(height), NatToString(quality);
    var tail := w + (Separator + (h + (QualityTag + (q + Extension))));
    assert FileName(width, height, quality) == Prefix + tail;
    ReadLiteralThen(Prefix, tail);
    ParseDimensionsOf(width, height, quality);
  }

  /** Different sizes or qualities never share a download file name. */
  lemma FileNameInjective(w1: nat, h1: nat, q1: nat, w2: nat, h2: nat, q2: nat)
    requires ValidQuality(q1) && ValidQuality(q2)
    requires FileName(w1, h1, q1) == FileName(w2, h2, q2)
    ensures w1 == w2 && h1 == h2 && q1 == q2
  {
    FileNameRoundTrip(w1, h1, q1);
    FileNameRoundTrip(w2, h2, q2);
  }
}
