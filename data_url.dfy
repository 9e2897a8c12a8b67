/**
 * Removal of a `data:` URL header (section 3 of RFC 2397) from a base64
 * image string, as both Socket.IO backends do it: when the string holds a
 * comma, `s.split(',')[1]` is kept.
 */
module DataUrl {
  import opened Text

  /** `s.split(',')[1] if ',' in s else s`. */
  function StripDataUrl(s: string): (r: string)
    ensures ',' !in r
    ensures ',' !in s ==> r == s
    // with a comma: the comma-free stretch right after the first comma,
    // up to the second comma or the end of the string
    ensures ',' in s ==>
      var i := IndexOf(s, ',');
      i + 1 + |r| <= |s| && r == s[i + 1..i + 1 + |r|] &&
      (i + 1 + |r| == |s| || s[i + 1 + |r|] == ',')
  {
    if ',' in s then
      SplitSecond(s, ',');
      Split(s, ',')[1]
    else s
  }

  /** The result holds no comma, so stripping twice is stripping once. */
  lemma StripIdempotent(s: string)
    ensures StripDataUrl(StripDataUrl(s)) == StripDataUrl(s)
  {
  }

  /** A typical header `data:image/jpeg;base64,` is removed completely. */
  lemma StripHeader(header: string, payload: string)
    requires ',' !in header && ',' !in payload
    ensures StripDataUrl(header + "," + payload) == payload
  {
    var s := header + "," + payload;
    assert s[|header|] == ',';
    assert s[..|header|] == header;
    var i := IndexOf(s, ',');
    assert i == |header|;
    assert s[i + 1..] == payload;
  }
}
