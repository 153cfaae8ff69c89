/** The character classes and trimming Python applies to text, as the program relies on them. */
module PythonText {

  /** `str.isspace` for one character, which `str.strip` and the pattern `\s` agree on. */
  predicate IsSpace(c: char) {
    || '\U{0009}' <= c <= '\U{000d}' || '\U{001c}' <= c <= '\U{0020}'
    || c == '\U{0085}' || c == '\U{00a0}' || c == '\U{1680}' || '\U{2000}' <= c <= '\U{200a}'
    || c == '\U{2028}' || c == '\U{2029}' || c == '\U{202f}' || c == '\U{205f}' || c == '\U{3000}'
  }

  /** The control characters no stored text may hold: all but tab, newline and carriage return. */
  predicate IsDisallowed(c: char) {
    || c <= '\U{0008}' || c == '\U{000b}' || c == '\U{000c}'
    || '\U{000e}' <= c <= '\U{001f}' || '\U{007f}' <= c <= '\U{009f}'
  }

  /** The two classes by code point: the white space of Unicode, and the C0 and C1 controls with delete. */
  lemma CharacterClasses(c: char)
    ensures IsSpace(c) <==> c as int in {9, 10, 11, 12, 13, 28, 29, 30, 31, 32, 133, 160, 5760, 8232, 8233, 8239, 8287,
                                         12288}
                            || 8192 <= c as int <= 8202
    ensures IsDisallowed(c) <==> (c as int < 32 || 127 <= c as int <= 159) && c !in "\t\n\r"
  {
  }

  predicate HasControl(s: string) {
    exists i :: 0 <= i < |s| && IsDisallowed(s[i])
  }

  predicate Blank(s: string) {
    forall i :: 0 <= i < |s| ==> IsSpace(s[i])
  }

  /** How many characters `strip` takes off the front. */
  function LeadingSpace(s: string): (n: nat)
    ensures n <= |s| && Blank(s[..n]) && (n < |s| ==> !IsSpace(s[n]))
  {
    if s == "" || !IsSpace(s[0]) then 0 else 1 + LeadingSpace(s[1..])
  }

  /** Where the text ends once the spaces at the end are gone. */
  function TrimmedEnd(s: string): (n: nat)
    ensures n <= |s| && Blank(s[n..]) && (0 < n ==> !IsSpace(s[n - 1]))
  {
    if s == "" || !IsSpace(s[|s| - 1]) then |s| else TrimmedEnd(s[..|s| - 1])
  }

  function Strip(s: string): string {
    var rest := s[LeadingSpace(s)..];
    rest[..TrimmedEnd(rest)]
  }

  predicate Trimmed(s: string) {
    s != "" ==> !IsSpace(s[0]) && !IsSpace(s[|s| - 1])
  }

  lemma BlankSlice(s: string, i: nat, j: nat)
    requires i <= j <= |s|
    ensures Blank(s[i..j]) <==> forall k :: i <= k < j ==> IsSpace(s[k])
  {
    if Blank(s[i..j]) {
      forall k | i <= k < j ensures IsSpace(s[k]) {
        assert s[i..j][k - i] == s[k];
      }
    }
  }

  /** Stripping takes spaces off both ends, all of them, and nothing else. */
  lemma StripIsTheMiddle(s: string) returns (i: nat, j: nat)
    ensures i <= j <= |s| && Strip(s) == s[i..j] && Blank(s[..i]) && Blank(s[j..])
    ensures Trimmed(Strip(s))
  {
    i := LeadingSpace(s);
    var rest := s[i..];
    j := i + TrimmedEnd(rest);
    assert Strip(s) == s[i..j];
    assert s[j..] == rest[TrimmedEnd(rest)..];
    if i < j {
      assert Strip(s)[0] == s[i];
      assert rest[TrimmedEnd(rest) - 1] == Strip(s)[|Strip(s)| - 1];
    }
  }

  lemma StripIsEmptyForBlanks(s: string)
    ensures Strip(s) == "" <==> Blank(s)
  {
    var i, j := StripIsTheMiddle(s);
    BlankSlice(s, 0, i);
    BlankSlice(s, j, |s|);
    assert s[0..i] == s[..i] && s[j..|s|] == s[j..];
    if i < j {
      assert Strip(s)[0] == s[i];
    }
  }

  lemma StrippedStays(s: string)
    requires Trimmed(s)
    ensures Strip(s) == s
  {
    if s != "" {
      assert LeadingSpace(s) == 0 && s[0..] == s;
      assert TrimmedEnd(s) == |s|;
    }
  }
}
