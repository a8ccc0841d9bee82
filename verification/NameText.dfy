// The characters names are made of, by code point, and how long names are in UTF-8.
module NameText {
  import Names
  import Utf8Order

  // White_Space of the Unicode standard.
  predicate White(n: int) {
    || 9 <= n <= 13 || n == 32 || n == 133 || n == 160 || n == 5760
    || 8192 <= n <= 8202 || n == 8232 || n == 8233 || n == 8239 || n == 8287 || n == 12288
  }

  lemma SpaceIs(c: char)
    ensures Names.IsSpace(c) <==> White(c as int)
  {}

  // The category Cc.
  lemma ControlIs(c: char)
    ensures Names.IsControl(c) <==> c as int <= 31 || 127 <= c as int <= 159
  {}

  // The limit of a name counts bytes.
  lemma {:induction false} LengthIs(s: string)
    ensures Names.Utf8Length(s) == |Utf8Order.Utf8(s)|
    decreases |s|
  {
    if s != "" {
      LengthIs(s[1..]);
      Utf8Order.EncodingIsUtf8(s[0]);
    }
  }

  // A name is valid exactly if something but white space is in it, no slash,
  // backslash or control character is, it takes at most 240 bytes, and it is not
  // one of the names paths use for themselves.
  lemma ValidIff(s: string)
    ensures Names.Valid(s) <==>
              && (exists c :: c in s && !White(c as int)) && |Utf8Order.Utf8(s)| <= 240 && s != "." && s != ".."
              && forall c :: c in s ==> c != '/' && c != '\\' && 32 <= c as int && !(127 <= c as int <= 159)
  {
    LengthIs(s);
    forall c ensures Names.IsSpace(c) <==> White(c as int) { SpaceIs(c); }
    if Names.Valid(s) {
      var c :| c in s && !Names.IsSpace(c);
    }
  }
}
