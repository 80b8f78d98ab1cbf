/** The string operations of the language the sources are written in, on characters. */
module Strings {
  predicate StartsWith(text: string, prefix: string) {
    prefix <= text
  }

  predicate EndsWith(text: string, suffix: string) {
    |suffix| <= |text| && text[|text| - |suffix|..] == suffix
  }

  /** The first occurrence, or -1. */
  function IndexOf(text: string, c: char): (i: int)
    ensures -1 <= i < |text|
    ensures i >= 0 ==> text[i] == c && c !in text[..i]
    ensures i < 0 ==> c !in text
  {
    if text == "" then -1
    else if text[0] == c then 0
    else
      var i := IndexOf(text[1..], c);
      if i == -1 then -1
      else
        assert text[..i + 1] == [text[0]] + text[1..][..i];
        i + 1
  }

  lemma {:induction false} IndexAfter(prefix: string, c: char, more: string)
    requires c !in prefix
    ensures IndexOf(prefix + [c] + more, c) == |prefix|
  {
    if prefix == "" {
      assert (prefix + [c] + more)[0] == c;
    } else {
      assert (prefix + [c] + more)[0] == prefix[0];
      assert (prefix + [c] + more)[1..] == prefix[1..] + [c] + more;
      IndexAfter(prefix[1..], c, more);
    }
  }

  /** What `trim` takes for blank: white space and line terminators. */
  predicate IsSpace(c: char) {
    var n := c as int;
    || 9 <= n <= 13 || n == 32 || n == 160 || n == 0x1680 || 0x2000 <= n <= 0x200A
    || n == 0x2028 || n == 0x2029 || n == 0x202F || n == 0x205F || n == 0x3000 || n == 0xFEFF
  }

  function TrimStart(text: string): string {
    if text != [] && IsSpace(text[0]) then TrimStart(text[1..]) else text
  }

  function TrimEnd(text: string): string {
    if text != [] && IsSpace(text[|text| - 1]) then TrimEnd(text[..|text| - 1]) else text
  }

  function Trim(text: string): string {
    TrimEnd(TrimStart(text))
  }

  predicate Blank(text: string) {
    forall i :: 0 <= i < |text| ==> IsSpace(text[i])
  }

  /** `core` is `text` without blanks at its ends. */
  predicate Strips(text: string, before: string, core: string, after: string) {
    && text == before + core + after && Blank(before) && Blank(after)
    && (core != "" ==> !IsSpace(core[0]) && !IsSpace(core[|core| - 1]))
  }

  lemma {:induction false} StartStrips(text: string) returns (before: string)
    ensures text == before + TrimStart(text) && Blank(before)
    ensures TrimStart(text) != "" ==> !IsSpace(TrimStart(text)[0])
  {
    before := "";
    if text != "" && IsSpace(text[0]) {
      var more := StartStrips(text[1..]);
      before := [text[0]] + more;
      assert text == [text[0]] + text[1..];
    }
  }

  lemma {:induction false} EndStrips(text: string) returns (after: string)
    ensures text == TrimEnd(text) + after && Blank(after)
    ensures TrimEnd(text) != "" ==> !IsSpace(TrimEnd(text)[|TrimEnd(text)| - 1])
  {
    after := "";
    if text != "" && IsSpace(text[|text| - 1]) {
      var n := |text| - 1;
      var more := EndStrips(text[..n]);
      after := more + [text[n]];
      assert text == text[..n] + [text[n]];
    }
  }

  /** Trimming takes away the blanks at both ends and nothing else. */
  lemma TrimStrips(text: string)
    ensures exists before, after :: Strips(text, before, Trim(text), after)
  {
    var before := StartStrips(text);
    var after := EndStrips(TrimStart(text));
    assert TrimStart(text) == Trim(text) + after;
    assert Trim(text) != "" ==> Trim(text)[0] == TrimStart(text)[0];
    assert Strips(text, before, Trim(text), after);
  }
}
