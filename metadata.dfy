/**
  Requests and their header map, as far as the interceptor looks at them.

  A header value is kept as a sequence of characters; a character at or above
  U+0080 stands for its UTF-8 bytes, all of which are at or above 0x80. For the
  two checks the http crate makes on values (`HeaderValue::to_str` and
  `HeaderValue::from_str`) only "is this byte visible ASCII" and "is this byte
  a control character" matter, and both answers carry over from the bytes to
  the character exactly.
 */
module Metadata {
  import opened Wrappers

  /** The header that carries the raw token (no "Bearer " prefix is stripped). */
  const Authorization: string := "authorization"

  /**
    The metadata key the verified identity is written under (METADATA_USER_ID).
    Its value is defined outside the modelled files; this placeholder is only
    required to differ from `Authorization`.
   */
  const MetadataUserId: string := "x-user-id"

  datatype HeaderValue = HeaderValue(chars: string)

  /** A request: its header map (lower-case names, one value per name) and an opaque body. */
  datatype Request = Request(headers: map<string, HeaderValue>, body: seq<bv8>)

  /** Bytes `to_str` accepts: horizontal tab and the printable ASCII range. */
  predicate VisibleAscii(c: char) {
    c == '\t' || (' ' <= c && c <= '~')
  }

  /** Bytes `from_str` accepts: anything but a control character, tab excepted. */
  predicate FieldChar(c: char) {
    c == '\t' || (' ' <= c && c as int != 0x7F)
  }

  predicate IsAscii(s: string) {
    forall i :: 0 <= i < |s| ==> s[i] as int < 0x80
  }

  /** `HeaderValue::to_str`: the value as text, if every byte is visible ASCII. */
  function ToStr(v: HeaderValue): (r: Option<string>)
    ensures r.Some? <==> forall i :: 0 <= i < |v.chars| ==> VisibleAscii(v.chars[i])
    ensures r.Some? ==> r.value == v.chars
  {
    if forall i :: 0 <= i < |v.chars| ==> VisibleAscii(v.chars[i]) then Some(v.chars) else None
  }

  /** `HeaderValue::from_str`: a header value holding `s`, if `s` has no control character but tab. */
  function FromStr(s: string): (r: Option<HeaderValue>)
    ensures r.Some? <==> forall i :: 0 <= i < |s| ==> FieldChar(s[i])
    ensures r.Some? ==> r.value.chars == s
  {
    if forall i :: 0 <= i < |s| ==> FieldChar(s[i]) then Some(HeaderValue(s)) else None
  }

  /**
    A value built by `from_str` reads back through `to_str` exactly when it is
    plain ASCII; any character at or above U+0080 makes `to_str` fail.
   */
  lemma FromStrThenToStr(s: string)
    requires FromStr(s).Some?
    ensures ToStr(FromStr(s).value) == (if IsAscii(s) then Some(s) else None)
  {
    if IsAscii(s) {
      forall i | 0 <= i < |s| ensures VisibleAscii(s[i]) {
        assert FieldChar(s[i]);
      }
    } else {
      var i :| 0 <= i < |s| && s[i] as int >= 0x80;
      assert !VisibleAscii(FromStr(s).value.chars[i]);
    }
  }
}
