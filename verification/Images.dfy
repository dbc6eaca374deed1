/** sanitize_uploaded_image of src/server/avatars.rs: the three strippers tried in turn. */
module Images {
  import opened Wrappers
  import opened BanchoTypes
  import Png
  import Jpeg
  import WebP

  function Sanitize(s: bytes): Option<bytes> {
    if Png.Strip(s).Some? then Png.Strip(s)
    else if Jpeg.Strip(s).Some? then Jpeg.Strip(s)
    else WebP.Strip(s)
  }

  // At most one of the three accepts any input.
  lemma OneFormat(s: bytes)
    ensures Png.Strip(s).Some? ==> Jpeg.Strip(s).None? && WebP.Strip(s).None?
    ensures Jpeg.Strip(s).Some? ==> WebP.Strip(s).None?
  {
    hide Png.Remainder; hide Jpeg.Remainder; hide WebP.Remainder;
    assert Png.Strip(s).Some? ==> s[0] == Png.SIGNATURE[0];
    assert Jpeg.Strip(s).Some? ==> s[0] == Jpeg.SOI[0];
    assert WebP.Strip(s).Some? ==> s[0] == s[..4][0] == WebP.RIFF[0];
  }

  // Sanitizing what sanitizing returned changes nothing, and nothing grows.
  lemma SanitizeTwice(s: bytes)
    requires Sanitize(s).Some?
    ensures Sanitize(Sanitize(s).value) == Sanitize(s) && |Sanitize(s).value| <= |s|
  {
    hide Png.Strip; hide Jpeg.Strip; hide WebP.Strip;
    if Png.Strip(s).Some? {
      Png.StripTwice(s);
      Png.StripIsShorter(s);
    } else if Jpeg.Strip(s).Some? {
      Jpeg.StripTwice(s);
      Jpeg.StripIsShorter(s);
      OneFormat(Jpeg.Strip(s).value);
    } else {
      WebP.StripTwice(s);
      WebP.StripResult(s);
      OneFormat(WebP.Strip(s).value);
    }
  }

  method SanitizeUploadedImage(input: bytes) returns (r: Option<bytes>)
    ensures r == Sanitize(input)
  {
    r := Png.StripPng(input);
    if r.None? { r := Jpeg.StripJpeg(input); }
    if r.None? { r := WebP.StripWebP(input); }
  }
}
