/** The white space of JavaScript's regular expressions and of `trim`. */
module Spaces {
  predicate IsSpace(c: char) {
    || c in "\t\n\r \U{000B}\U{000C}\U{00A0}\U{FEFF}\U{1680}\U{2028}\U{2029}\U{202F}\U{205F}\U{3000}"
    || '\U{2000}' <= c <= '\U{200A}'
  }

  /** White space, by code points. */
  lemma SpaceIs(c: char)
    ensures
      var n := c as int;
      IsSpace(c) <==>
        || 9 <= n <= 13 || n == 32 || n == 0xA0 || n == 0x1680 || 0x2000 <= n <= 0x200A
        || n == 0x2028 || n == 0x2029 || n == 0x202F || n == 0x205F || n == 0x3000 || n == 0xFEFF
  {
    var listed := "\t\n\r \U{000B}\U{000C}\U{00A0}\U{FEFF}\U{1680}\U{2028}\U{2029}\U{202F}\U{205F}\U{3000}";
    assert |listed| == 14;
    assert c in listed <==>
      c == listed[0] || c == listed[1] || c == listed[2] || c == listed[3] || c == listed[4] || c == listed[5] || c == listed[6]
      || c == listed[7] || c == listed[8] || c == listed[9] || c == listed[10] || c == listed[11] || c == listed[12] || c == listed[13];
  }
}
