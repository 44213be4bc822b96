/** Character-level helpers shared by the models of text handling code. */
module Text {

  datatype Option<+T> = None | Some(value: T)

  /** The characters of Unicode property White_Space, which `trim` and `split_whitespace` use. */
  predicate IsWhitespace(c: char) {
    var n := c as int;
    || 0x09 <= n <= 0x0D || n == 0x20 || n == 0x85 || n == 0xA0 || n == 0x1680
    || 0x2000 <= n <= 0x200A || n == 0x2028 || n == 0x2029 || n == 0x202F
    || n == 0x205F || n == 0x3000
  }

  /** They are these twenty-five. */
  lemma WhitespaceByCode(c: char)
    ensures IsWhitespace(c) <==>
      c as int in {9, 10, 11, 12, 13, 32, 133, 160, 5760, 8192, 8193, 8194, 8195, 8196, 8197, 8198, 8199, 8200, 8201,
                   8202, 8232, 8233, 8239, 8287, 12288}
  {
  }

  function TrimStart(s: string): string {
    if s != [] && IsWhitespace(s[0]) then TrimStart(s[1..]) else s
  }

  function TrimEnd(s: string): string {
    if s != [] && IsWhitespace(s[|s| - 1]) then TrimEnd(s[..|s| - 1]) else s
  }

  function Trim(s: string): string {
    TrimEnd(TrimStart(s))
  }

  function AsciiLowerChar(c: char): char {
    if 'A' <= c <= 'Z' then (c as int + 32) as char else c
  }

  function AsciiLower(s: string): (lower: string)
    ensures |lower| == |s|
  {
    if s == [] then [] else [AsciiLowerChar(s[0])] + AsciiLower(s[1..])
  }

  /** The last dot of a name, or -1. */
  function LastDot(name: string): (i: int)
    ensures -1 <= i < |name|
    ensures i >= 0 ==> name[i] == '.'
  {
    if name == [] then -1 else if name[|name| - 1] == '.' then |name| - 1 else LastDot(name[..|name| - 1])
  }

  lemma {:induction false} NoDotAfterTheLast(name: string)
    ensures forall j | LastDot(name) < j < |name| :: name[j] != '.'
  {
    if name != [] && name[|name| - 1] != '.' {
      NoDotAfterTheLast(name[..|name| - 1]);
    }
  }

  predicate AllWhitespace(s: string) {
    forall i | 0 <= i < |s| :: IsWhitespace(s[i])
  }

  /** Not even at its ends. */
  predicate NoEdgeWhitespace(s: string) {
    s != [] ==> !IsWhitespace(s[0]) && !IsWhitespace(s[|s| - 1])
  }

  lemma {:induction false} TrimStartTrims(s: string) returns (before: string)
    ensures AllWhitespace(before) && s == before + TrimStart(s)
    ensures TrimStart(s) != [] ==> !IsWhitespace(TrimStart(s)[0])
  {
    before := "";
    if s != [] && IsWhitespace(s[0]) {
      before := TrimStartTrims(s[1..]);
      before := [s[0]] + before;
      assert s == [s[0]] + s[1..];
    }
  }

  lemma {:induction false} TrimEndTrims(s: string) returns (after: string)
    ensures AllWhitespace(after) && s == TrimEnd(s) + after
    ensures TrimEnd(s) != [] ==> !IsWhitespace(TrimEnd(s)[|TrimEnd(s)| - 1])
  {
    after := "";
    if s != [] && IsWhitespace(s[|s| - 1]) {
      after := TrimEndTrims(s[..|s| - 1]);
      after := after + [s[|s| - 1]];
      assert s == s[..|s| - 1] + [s[|s| - 1]];
    }
  }

  /** Trimming takes away white space at both ends, all of it and nothing else. */
  lemma TrimTrims(s: string) returns (before: string, after: string)
    ensures AllWhitespace(before) && AllWhitespace(after) && s == before + Trim(s) + after
    ensures NoEdgeWhitespace(Trim(s))
  {
    before := TrimStartTrims(s);
    after := TrimEndTrims(TrimStart(s));
    assert Trim(s) <= TrimStart(s);
  }

  /** Lower-casing changes the letters from A to Z only, each to its own small letter. */
  lemma {:induction false} AsciiLowerAt(s: string, i: nat)
    requires i < |s|
    ensures AsciiLower(s)[i] == if 'A' <= s[i] <= 'Z' then "abcdefghijklmnopqrstuvwxyz"[s[i] as int - 65] else s[i]
  {
    if |s| > 1 {
      AsciiLowerAt(s[1..], if i > 0 then i - 1 else 0);
    }
  }
}
