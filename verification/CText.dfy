/** Data that is appended to a C string: a NUL ends it. */
module CText {

  predicate NulFree(s: string) { '\0' !in s }

  function CString(s: string): string {
    if s == "" || s[0] == '\0' then "" else [s[0]] + CString(s[1..])
  }

  lemma {:induction false} CStringWhole(s: string)
    requires NulFree(s)
    ensures CString(s) == s
  {
    if s != "" {
      assert s[0] in s && forall c :: c in s[1..] ==> c in s;
      CStringWhole(s[1..]);
    }
  }

  /** Appending a text piece by piece. */
  lemma NextPiece(text: string, taken: nat, n: nat, collected: string)
    requires taken + n <= |text|
    requires NulFree(text[..taken]) ==> collected == text[..taken]
    ensures NulFree(text[..taken + n]) ==> collected + CString(text[taken..taken + n]) == text[..taken + n]
  {
    var before, piece, now := text[..taken], text[taken..taken + n], text[..taken + n];
    assert now == before + piece;
    if NulFree(now) {
      assert NulFree(before) && NulFree(piece);
      CStringWhole(piece);
    }
  }
}
