/**
 Printing a document as YAML between two marks and a body, and taking it apart again: once into YAML
 and body, for templates, and once line by line into the body alone, for search.
 */
module Frontmatter {
  import opened Text

  const OPENING := "---\n"
  const MARK := "\n---\n"

  /** A rendered document, or a template file. */
  function Print(yaml: string, body: string): string {
    OPENING + yaml + OPENING + body
  }

  // ---- Splitting ----

  predicate OccursAt(pattern: string, s: string, i: nat) {
    i + |pattern| <= |s| && s[i..i + |pattern|] == pattern
  }

  /** The first occurrence at or after `from`. */
  function FindFrom(pattern: string, s: string, from: nat): (i: Option<nat>)
    ensures i.Some? ==> from <= i.value && OccursAt(pattern, s, i.value)
    decreases |s| - from
  {
    if OccursAt(pattern, s, from) then Some(from)
    else if from >= |s| then None
    else FindFrom(pattern, s, from + 1)
  }

  predicate StartsWith(s: string, prefix: string) {
    prefix <= s
  }

  datatype Parts = Parts(yaml: string, body: string)

  function SplitAt(source: string, mark: string): Option<Parts> {
    var i := FindFrom(mark, source, 0);
    if i.None? then None else Some(Parts(source[..i.value], source[i.value + |mark|..]))
  }

  function SplitFrontmatter(source: string): Option<Parts> {
    if StartsWith(source, OPENING) then SplitAt(source[|OPENING|..], MARK)
    else if StartsWith(source, "---\r\n") then SplitAt(source[5..], "\r\n---\r\n")
    else None
  }

  /** The first occurrence is the one there is with none before it. */
  lemma {:induction false} FirstOccurrence(pattern: string, s: string, from: nat, i: nat)
    requires from <= i && OccursAt(pattern, s, i)
    ensures FindFrom(pattern, s, from).Some? && FindFrom(pattern, s, from).value <= i
    ensures (forall j: nat | from <= j < i :: !OccursAt(pattern, s, j)) ==> FindFrom(pattern, s, from) == Some(i)
    decreases i - from
  {
    if !OccursAt(pattern, s, from) {
      FirstOccurrence(pattern, s, from + 1, i);
    }
  }

  /** YAML as it is emitted: not empty, and its last line is ended. */
  predicate Ended(yaml: string) {
    yaml != [] && yaml[|yaml| - 1] == '\n'
  }

  ghost predicate Occurs(pattern: string, s: string) {
    exists i: nat :: OccursAt(pattern, s, i)
  }

  /** The mark in a printed document is the printed one, unless the YAML has one. */
  lemma MarkIsPrinted(yaml: string, body: string)
    requires Ended(yaml)
    ensures var source := yaml + OPENING + body;
      && OccursAt(MARK, source, |yaml| - 1)
      && forall j: nat | j < |yaml| - 1 :: OccursAt(MARK, source, j) <==> OccursAt(MARK, yaml, j)
  {
    var source := yaml + OPENING + body;
    assert source[|yaml| - 1..|yaml| + 4] == MARK;
    forall j: nat | j < |yaml| - 1 ensures OccursAt(MARK, source, j) <==> OccursAt(MARK, yaml, j) {
      if j + 5 <= |yaml| {
        assert source[j..j + 5] == yaml[j..j + 5];
      } else {
        assert source[j + 4] == OPENING[j + 4 - |yaml|] == '-';
        assert MARK[4] == '\n';
      }
    }
  }

  /**
   Printing and splitting gives the YAML, without its last line break, and the body: exactly when the YAML
   has no mark inside.
   */
  lemma SplitAfterPrint(yaml: string, body: string)
    requires Ended(yaml)
    ensures SplitFrontmatter(Print(yaml, body)) == Some(Parts(yaml[..|yaml| - 1], body)) <==> !Occurs(MARK, yaml)
  {
    var source := yaml + OPENING + body;
    assert Print(yaml, body)[..4] == OPENING && Print(yaml, body)[4..] == source;
    MarkIsPrinted(yaml, body);
    FirstOccurrence(MARK, source, 0, |yaml| - 1);
    assert source[..|yaml| - 1] == yaml[..|yaml| - 1] && source[|yaml| + 4..] == body;
    if Occurs(MARK, yaml) {
      var j: nat :| OccursAt(MARK, yaml, j);
      assert j < |yaml| - 1;
      FirstOccurrence(MARK, source, 0, j);
      var k := FindFrom(MARK, source, 0).value;
      assert |source[..k]| == k;
    } else {
      forall j: nat | j < |yaml| - 1 ensures !OccursAt(MARK, source, j) {
        assert !OccursAt(MARK, yaml, j);
      }
    }
  }

  // ---- The body, line by line ----

  /** The first line, with the line break that ends it. */
  function FirstLine(s: string): (line: string)
    ensures line <= s && (s != [] ==> line != [])
  {
    if s == [] || s[0] == '\n' then s[..if s == [] then 0 else 1] else [s[0]] + FirstLine(s[1..])
  }

  function WithoutLineBreak(line: string): string {
    if line != [] && (line[|line| - 1] == '\r' || line[|line| - 1] == '\n') then WithoutLineBreak(line[..|line| - 1])
    else line
  }

  predicate IsDelimiter(line: string) {
    WithoutLineBreak(line) == "---" || WithoutLineBreak(line) == "..."
  }

  /** What follows the first delimiting line, or nothing. */
  function AfterDelimiter(s: string): string {
    if s == [] then ""
    else
      var line := FirstLine(s);
      if IsDelimiter(line) then s[|line|..] else AfterDelimiter(s[|line|..])
  }

  function BodyOf(markdown: string): string {
    if markdown == [] || WithoutLineBreak(FirstLine(markdown)) != "---" then markdown
    else AfterDelimiter(markdown[|FirstLine(markdown)|..])
  }

  /** One line on. */
  lemma AfterLine(s: string, offset: nat)
    requires offset < |s|
    ensures var line := FirstLine(s[offset..]);
      && 0 < |line| <= |s| - offset
      && AfterDelimiter(s[offset..])
         == if IsDelimiter(line) then s[offset + |line|..] else AfterDelimiter(s[offset + |line|..])
  {
    var line := FirstLine(s[offset..]);
    assert s[offset..][|line|..] == s[offset + |line|..];
  }

  method MarkdownBody(markdown: string) returns (body: string)
    ensures body == BodyOf(markdown)
  {
    if markdown == "" {
      return markdown;
    }
    var first := FirstLine(markdown);
    if WithoutLineBreak(first) != "---" {
      return markdown;
    }
    var offset := |first|;
    while offset < |markdown|
      invariant offset <= |markdown|
      invariant AfterDelimiter(markdown[|first|..]) == AfterDelimiter(markdown[offset..])
    {
      var line := FirstLine(markdown[offset..]);
      AfterLine(markdown, offset);
      offset := offset + |line|;
      if IsDelimiter(line) {
        return markdown[offset..];
      }
    }
    body := "";
  }

  predicate HasDelimiter(s: string) {
    s != [] && (IsDelimiter(FirstLine(s)) || HasDelimiter(s[|FirstLine(s)|..]))
  }

  lemma {:induction false} FirstLineOfMore(s: string, more: string)
    requires Ended(s)
    ensures FirstLine(s + more) == FirstLine(s)
    ensures var rest := s[|FirstLine(s)|..]; rest == [] || Ended(rest)
  {
    if s[0] != '\n' {
      assert (s + more)[1..] == s[1..] + more;
      FirstLineOfMore(s[1..], more);
      assert s[|FirstLine(s)|..] == s[1..][|FirstLine(s[1..])|..];
    }
  }

  /** A body found too early is longer, so it is not the printed one. */
  lemma {:induction false} AfterPrinted(yaml: string, body: string)
    requires yaml == [] || Ended(yaml)
    ensures HasDelimiter(yaml) ==> |AfterDelimiter(yaml + OPENING + body)| > |body|
    ensures !HasDelimiter(yaml) ==> AfterDelimiter(yaml + OPENING + body) == body
    decreases |yaml|
  {
    var source := yaml + OPENING + body;
    if yaml == [] {
      assert source == OPENING + body;
      OpeningIsDelimiter();
      FirstLineOfMore(OPENING, body);
      assert source[4..] == body;
    } else {
      var line := FirstLine(yaml);
      assert source == yaml + (OPENING + body);
      FirstLineOfMore(yaml, OPENING + body);
      assert source[|line|..] == yaml[|line|..] + OPENING + body;
      if !IsDelimiter(line) {
        AfterPrinted(yaml[|line|..], body);
      }
    }
  }

  lemma OpeningIsDelimiter()
    ensures FirstLine(OPENING) == OPENING && WithoutLineBreak(OPENING) == "---"
  {
    assert OPENING[1..] == "--\n" && OPENING[2..] == "-\n" && OPENING[3..] == "\n";
    assert FirstLine("\n") == "\n" && FirstLine("-\n") == "-\n" && FirstLine("--\n") == "--\n";
    assert OPENING[..3] == "---";
  }

  /** Search sees exactly the printed body: if and only if no line of the YAML is a delimiter. */
  lemma BodyAfterPrint(yaml: string, body: string)
    requires yaml == [] || Ended(yaml)
    ensures BodyOf(Print(yaml, body)) == body <==> !HasDelimiter(yaml)
  {
    var source := Print(yaml, body);
    assert source == OPENING + (yaml + OPENING + body);
    OpeningIsDelimiter();
    FirstLineOfMore(OPENING, yaml + OPENING + body);
    assert source[4..] == yaml + OPENING + body;
    AfterPrinted(yaml, body);
  }

  /** YAML with a mark inside has a delimiting line. */
  lemma {:induction false} MarkIsDelimiter(yaml: string, j: nat)
    requires OccursAt(MARK, yaml, j)
    ensures HasDelimiter(yaml)
    decreases |yaml|
  {
    var line := FirstLine(yaml);
    LineBreaksOnlyAtEnd(yaml);
    assert yaml[j..j + 5][0] == yaml[j];
    var rest := yaml[|line|..];
    if j + 1 > |line| {
      assert rest[j - |line|..j - |line| + 5] == yaml[j..j + 5];
      MarkIsDelimiter(rest, j - |line|);
    } else {
      assert j + 1 == |line|;
      assert rest[..4] == yaml[j + 1..j + 5] == yaml[j..j + 5][1..] == OPENING;
      assert rest == OPENING + rest[4..];
      OpeningIsDelimiter();
      FirstLineOfMore(OPENING, rest[4..]);
      assert HasDelimiter(rest);
    }
  }

  lemma MarksAreDelimiters(yaml: string)
    ensures Occurs(MARK, yaml) ==> HasDelimiter(yaml)
  {
    if Occurs(MARK, yaml) {
      var j: nat :| OccursAt(MARK, yaml, j);
      MarkIsDelimiter(yaml, j);
    }
  }

  lemma {:induction false} LineBreaksOnlyAtEnd(s: string)
    ensures forall i | 0 <= i < |FirstLine(s)| - 1 :: s[i] != '\n'
    ensures FirstLine(s) != s ==> Ended(FirstLine(s))
  {
    if s != [] && s[0] != '\n' {
      LineBreaksOnlyAtEnd(s[1..]);
      forall i | 0 <= i < |FirstLine(s)| - 1 ensures s[i] != '\n' {
        assert i == 0 || s[1..][i - 1] == s[i];
      }
    }
  }

  /** Both ways of taking a printed document apart give its body back, for YAML without delimiting lines. */
  lemma PrintThenSplit(yaml: string, body: string)
    requires Ended(yaml) && !HasDelimiter(yaml)
    ensures SplitFrontmatter(Print(yaml, body)) == Some(Parts(yaml[..|yaml| - 1], body))
    ensures BodyOf(Print(yaml, body)) == body
  {
    MarksAreDelimiters(yaml);
    SplitAfterPrint(yaml, body);
    BodyAfterPrint(yaml, body);
  }

  // ---- Documents that were not printed ----

  predicate AllLineBreaks(s: string) {
    forall i | 0 <= i < |s| :: s[i] == '\r' || s[i] == '\n'
  }

  lemma {:induction false} LineBreaksGo(text: string, breaks: string)
    requires AllLineBreaks(breaks) && (text == [] || (text[|text| - 1] != '\r' && text[|text| - 1] != '\n'))
    ensures WithoutLineBreak(text + breaks) == text
    decreases |breaks|
  {
    if breaks == [] {
      assert text + breaks == text;
    } else {
      assert (text + breaks)[..|text + breaks| - 1] == text + breaks[..|breaks| - 1];
      LineBreaksGo(text, breaks[..|breaks| - 1]);
    }
  }

  /** A line is a delimiter if it is three dashes or three dots, however it is ended, and nothing else. */
  lemma DelimiterIsDashesOrDots(text: string, breaks: string)
    requires AllLineBreaks(breaks) && (text == [] || (text[|text| - 1] != '\r' && text[|text| - 1] != '\n'))
    ensures IsDelimiter(text + breaks) <==> text == "---" || text == "..."
  {
    LineBreaksGo(text, breaks);
  }

  /** The first line goes up to the first line break, or to the end. */
  lemma {:induction false} FirstLineGoesToTheBreak(s: string)
    ensures FirstLine(s) == s || (Ended(FirstLine(s)) && FirstLine(s) < s)
    ensures forall i | 0 <= i < |FirstLine(s)| - 1 :: s[i] != '\n'
  {
    LineBreaksOnlyAtEnd(s);
  }

  /** A document that does not begin with a line of three dashes is all body. */
  lemma NoFrontmatterIsAllBody(line: string, breaks: string, rest: string)
    requires (forall i | 0 <= i < |line| :: line[i] != '\n' && line[i] != '\r') && line != "---"
    requires breaks == "\n" || breaks == "\r\n"
    ensures BodyOf(line + breaks + rest) == line + breaks + rest && BodyOf(line) == line
  {
    LineEnds(line + breaks);
    FirstLineOfMore(line + breaks, rest);
    LineBreaksGo(line, breaks);
    LineIsWhole(line);
    LineBreaksGo(line, []);
    assert line + [] == line;
  }

  lemma {:induction false} LineEnds(s: string)
    requires Ended(s) && forall i | 0 <= i < |s| - 1 :: s[i] != '\n'
    ensures FirstLine(s) == s
  {
    if s[0] != '\n' {
      LineEnds(s[1..]);
    }
  }

  lemma {:induction false} LineIsWhole(s: string)
    requires forall i | 0 <= i < |s| :: s[i] != '\n'
    ensures FirstLine(s) == s
  {
    if s != [] {
      LineIsWhole(s[1..]);
    }
  }

  /** Frontmatter that is never closed leaves no body. */
  lemma {:induction false} UnclosedFrontmatterHasNoBody(rest: string)
    requires !HasDelimiter(rest)
    ensures BodyOf(OPENING + rest) == ""
  {
    OpeningIsDelimiter();
    FirstLineOfMore(OPENING, rest);
    assert (OPENING + rest)[4..] == rest;
    NothingAfter(rest);
  }

  lemma {:induction false} NothingAfter(s: string)
    requires !HasDelimiter(s)
    ensures AfterDelimiter(s) == ""
    decreases |s|
  {
    if s != [] {
      NothingAfter(s[|FirstLine(s)|..]);
    }
  }

  const CRLF_OPENING := "---\r\n"
  const CRLF_MARK := "\r\n---\r\n"

  /** Templates with the other kind of line ends are split at their first mark. */
  lemma CrlfSplits(yaml: string, body: string)
    requires forall j: nat | j < |yaml| :: !OccursAt(CRLF_MARK, yaml + CRLF_MARK + body, j)
    ensures SplitFrontmatter(CRLF_OPENING + yaml + CRLF_MARK + body) == Some(Parts(yaml, body))
  {
    var source := CRLF_OPENING + yaml + CRLF_MARK + body;
    var rest := yaml + CRLF_MARK + body;
    assert source == CRLF_OPENING + rest && source[5..] == rest;
    assert source[3] == '\r' && OPENING[3] == '\n';
    assert rest[|yaml|..|yaml| + 7] == CRLF_MARK;
    FirstOccurrence(CRLF_MARK, rest, 0, |yaml|);
    assert rest[..|yaml|] == yaml && rest[|yaml| + 7..] == body;
  }

  /** And without frontmatter, or without its end, there is nothing to split. */
  lemma NothingToSplit(source: string)
    requires !(OPENING <= source) && !(CRLF_OPENING <= source)
    ensures SplitFrontmatter(source).None?
  {
  }
}
