/**
 File names for new documents: bringing a name into normal form, and suggesting a free one when the
 name is taken. Unicode normalization is not modelled; names are taken to be in form C.
 */
module FileNames {
  import opened Text
  import opened SetFacts

  predicate IsAscii(c: char) {
    c as int < 128
  }

  predicate IsAsciiAlphanumeric(c: char) {
    '0' <= c <= '9' || 'A' <= c <= 'Z' || 'a' <= c <= 'z'
  }

  /** Which characters are alphanumeric. */
  type Letters = f: char -> bool
    | forall c :: (IsAscii(c) ==> (f(c) <==> IsAsciiAlphanumeric(c))) && (f(c) ==> !IsWhitespace(c))
    witness IsAsciiAlphanumeric

  /** Lower-casing of one character. */
  type Lowering = f: char -> string | forall c :: IsAscii(c) ==> f(c) == [AsciiLowerChar(c)]
    witness (c: char) => [AsciiLowerChar(c)]

  const MAX_FILE_STEM_BYTES := 200

  // ---- Bytes ----

  function Utf8Length(c: char): (n: nat)
    ensures 1 <= n <= 4
  {
    var code := c as int;
    if code < 0x80 then 1 else if code < 0x800 then 2 else if code < 0x10000 then 3 else 4
  }

  function Bytes(s: string): (n: nat)
    ensures |s| <= n <= 4 * |s|
  {
    if s == [] then 0 else Bytes(s[..|s| - 1]) + Utf8Length(s[|s| - 1])
  }

  /** As many characters as fit. */
  function Truncated(s: string, n: nat): (t: string)
    ensures t <= s && Bytes(t) <= n
    ensures t == s || Bytes(s) > n
  {
    if Bytes(s) <= n then s else Truncated(s[..|s| - 1], n)
  }

  predicate IsCharBoundary(s: string, end: nat) {
    end == Bytes(s) || (s != [] && IsCharBoundary(s[..|s| - 1], end))
  }

  lemma {:induction false} BoundaryBelow(s: string, n: nat, end: nat)
    requires Bytes(Truncated(s, n)) <= end <= n && end <= Bytes(s)
    ensures IsCharBoundary(s, Bytes(Truncated(s, n)))
    ensures IsCharBoundary(s, end) ==> end == Bytes(Truncated(s, n))
  {
    if Bytes(s) > n {
      if end <= Bytes(s[..|s| - 1]) {
        BoundaryBelow(s[..|s| - 1], n, end);
      } else {
        BoundaryBelow(s[..|s| - 1], n, Bytes(Truncated(s, n)));
        NoBoundaryAbove(s[..|s| - 1], end);
      }
    }
  }

  lemma {:induction false} NoBoundaryAbove(s: string, end: nat)
    requires end > Bytes(s)
    ensures !IsCharBoundary(s, end)
  {
    if s != [] {
      NoBoundaryAbove(s[..|s| - 1], end);
    }
  }

  /** The last character boundary at or below `n` bytes. */
  method TruncationPoint(s: string, n: nat) returns (end: nat)
    ensures end == Bytes(Truncated(s, n))
  {
    end := if Bytes(s) <= n then Bytes(s) else n;
    BoundaryBelow(s, n, end);
    while !IsCharBoundary(s, end)
      invariant Bytes(Truncated(s, n)) <= end <= n && end <= Bytes(s)
      decreases end
    {
      BoundaryBelow(s, n, end);
      end := end - 1;
    }
    BoundaryBelow(s, n, end);
  }

  // ---- Normal form ----

  datatype Slug = Slug(stem: string, pending: bool)

  /** Alphanumeric runs, in lower case as far as ASCII goes, with single dashes between them. */
  function SlugOf(letters: Letters, s: string): Slug {
    if s == [] then Slug("", false)
    else
      var before, c := SlugOf(letters, s[..|s| - 1]), s[|s| - 1];
      if letters(c) then
        var dash := if before.pending && before.stem != [] then "-" else "";
        Slug(before.stem + dash + [AsciiLowerChar(c)], false)
      else Slug(before.stem, true)
  }

  method MakeStem(letters: Letters, s: string) returns (stem: string)
    ensures stem == SlugOf(letters, s).stem
  {
    stem := "";
    var separatorPending := false;
    for i := 0 to |s|
      invariant SlugOf(letters, s[..i]) == Slug(stem, separatorPending)
    {
      assert s[..i + 1][..i] == s[..i];
      if letters(s[i]) {
        if separatorPending && stem != "" {
          stem := stem + "-";
        }
        separatorPending := false;
        stem := stem + [AsciiLowerChar(s[i])];
      } else {
        separatorPending := true;
      }
    }
    assert s[..|s|] == s;
  }

  predicate IsStemChar(letters: Letters, c: char) {
    c == '-' || (letters(c) && AsciiLowerChar(c) == c)
  }

  /** Runs of lower-case alphanumerics with single dashes after them. */
  predicate Dashed(letters: Letters, s: string) {
    && (forall i | 0 <= i < |s| :: IsStemChar(letters, s[i]))
    && (forall i, j | 0 <= i < |s| && 0 <= j < |s| && j == i + 1 :: s[j] == '-' ==> s[i] != '-')
    && (s != [] ==> s[0] != '-')
  }

  /** A stem in normal form. */
  predicate IsNormal(letters: Letters, s: string) {
    Dashed(letters, s) && s != [] && s[|s| - 1] != '-'
  }

  lemma LowerIsLetter(letters: Letters, c: char)
    ensures letters(c) ==>
      letters(AsciiLowerChar(c)) && IsStemChar(letters, AsciiLowerChar(c)) && AsciiLowerChar(c) != '-'
  {
  }

  lemma {:induction false} SlugIsNormal(letters: Letters, s: string)
    ensures SlugOf(letters, s).stem == [] || IsNormal(letters, SlugOf(letters, s).stem)
  {
    if s != [] {
      SlugIsNormal(letters, s[..|s| - 1]);
      LowerIsLetter(letters, s[|s| - 1]);
    }
  }

  lemma DashedFront(letters: Letters, s: string)
    requires Dashed(letters, s) && s != []
    ensures Dashed(letters, s[..|s| - 1])
    ensures s[|s| - 1] == '-' ==> |s| > 1 && s[..|s| - 1][|s| - 2] != '-'
    ensures s[|s| - 1] != '-' ==> letters(s[|s| - 1]) && AsciiLowerChar(s[|s| - 1]) == s[|s| - 1]
  {
  }

  lemma SlugStep(letters: Letters, s: string, c: char)
    ensures var before := SlugOf(letters, s);
      SlugOf(letters, s + [c]) ==
        if !letters(c) then Slug(before.stem, true)
        else if before.pending && before.stem != [] then Slug(before.stem + "-" + [AsciiLowerChar(c)], false)
        else Slug(before.stem + [AsciiLowerChar(c)], false)
  {
    assert (s + [c])[..|s|] == s;
  }

  lemma SlugAfterDash(letters: Letters, front: string, c: char)
    requires |front| > 1 && front[|front| - 1] == '-' && letters(c) && AsciiLowerChar(c) == c
    requires SlugOf(letters, front) == Slug(front[..|front| - 1], true)
    ensures SlugOf(letters, front + [c]) == Slug(front + [c], false)
  {
    SlugStep(letters, front, c);
    assert front == front[..|front| - 1] + "-";
  }

  lemma SlugAfterLetter(letters: Letters, front: string, c: char)
    requires SlugOf(letters, front) == Slug(front, false)
    ensures SlugOf(letters, front + [c]) ==
      if letters(c) then Slug(front + [AsciiLowerChar(c)], false) else Slug(front, true)
  {
    SlugStep(letters, front, c);
  }

  /** Text in normal form is its own slug, and so is one with a dash behind it, less the dash. */
  lemma {:induction false} SlugOfDashed(letters: Letters, s: string)
    requires Dashed(letters, s)
    ensures SlugOf(letters, s) ==
      if s != [] && s[|s| - 1] == '-' then Slug(s[..|s| - 1], true) else Slug(s, false)
  {
    if s != [] {
      var front, c := s[..|s| - 1], s[|s| - 1];
      DashedFront(letters, s);
      SlugOfDashed(letters, front);
      assert s == front + [c];
      if front != [] && front[|front| - 1] == '-' {
        SlugAfterDash(letters, front, c);
      } else {
        SlugAfterLetter(letters, front, c);
      }
    }
  }

  // ---- Names ----

  function TrimDashStart(s: string): string {
    if s != [] && s[0] == '-' then TrimDashStart(s[1..]) else s
  }

  function TrimDashEnd(s: string): string {
    if s != [] && s[|s| - 1] == '-' then TrimDashEnd(s[..|s| - 1]) else s
  }

  /** The parts of a path between its slashes. */
  function PathParts(s: string): (parts: seq<string>)
    ensures parts != []
  {
    if s == [] then [""]
    else
      var parts := PathParts(s[..|s| - 1]);
      if s[|s| - 1] == '/' then parts + [""]
      else parts[..|parts| - 1] + [parts[|parts| - 1] + [s[|s| - 1]]]
  }

  /** The last part that is a name; the empty part and the dot are none. */
  function LastName(parts: seq<string>): Option<string> {
    if parts == [] then None
    else
      var last := parts[|parts| - 1];
      if last == "" || last == "." then LastName(parts[..|parts| - 1]) else if last == ".." then None else Some(last)
  }

  function Extension(path: string): Option<string> {
    var name := LastName(PathParts(path));
    if name.None? || LastDot(name.value) <= 0 then None else Some(name.value[LastDot(name.value) + 1..])
  }

  predicate EndsInMd(name: string) {
    |name| >= 3 && AsciiLower(name[|name| - 3..]) == ".md"
  }

  function AsciiUpperChar(c: char): char {
    if 'a' <= c <= 'z' then (c as int - 32) as char else c
  }

  function AsciiUpper(s: string): string {
    seq(|s|, i requires 0 <= i < |s| => AsciiUpperChar(s[i]))
  }

  predicate IsWindowsReservedName(stem: string) {
    var upper := AsciiUpper(stem);
    upper == "CON" || upper == "PRN" || upper == "AUX" || upper == "NUL"
    || (|upper| == 4 && (upper[..3] == "COM" || upper[..3] == "LPT") && '1' <= upper[3] <= '9')
  }

  /** The slug of a name without its extension. */
  function StemOf(letters: Letters, name: string): string {
    var withoutExtension := if EndsInMd(name) then name[..|name| - 3] else name;
    TrimDashEnd(TrimDashStart(SlugOf(letters, withoutExtension).stem))
  }

  function NormalizeFileName(letters: Letters, input: string): Option<string> {
    var name := Trim(input);
    var extension := Extension(name);
    if extension.Some? && AsciiLower(extension.value) != "md" then None
    else
      var stem := StemOf(letters, name);
      if stem in {"", ".", ".."} || IsWindowsReservedName(stem) || Bytes(stem) > MAX_FILE_STEM_BYTES then None
      else Some(stem + ".md")
  }

  /** A stem that a file name may have. */
  predicate IsFileStem(letters: Letters, stem: string) {
    IsNormal(letters, stem) && !IsWindowsReservedName(stem) && Bytes(stem) <= MAX_FILE_STEM_BYTES
  }

  lemma NormalIsTrimmed(letters: Letters, stem: string)
    requires stem == [] || IsNormal(letters, stem)
    ensures TrimDashEnd(TrimDashStart(stem)) == stem
  {
  }

  /** Every normalized name has such a stem. */
  lemma NormalizedIsNormal(letters: Letters, input: string)
    requires NormalizeFileName(letters, input).Some?
    ensures var name := NormalizeFileName(letters, input).value;
      && EndsInMd(name) && name == name[..|name| - 3] + ".md"
      && IsFileStem(letters, name[..|name| - 3]) && Bytes(name[..|name| - 3]) <= 200
  {
    var stem := StemOf(letters, Trim(input));
    StemOfIsNormal(letters, Trim(input));
    MdIsMd(stem);
  }

  lemma StemOfIsNormal(letters: Letters, name: string)
    ensures StemOf(letters, name) == [] || IsNormal(letters, StemOf(letters, name))
  {
    var withoutExtension := if EndsInMd(name) then name[..|name| - 3] else name;
    SlugIsNormal(letters, withoutExtension);
    NormalIsTrimmed(letters, SlugOf(letters, withoutExtension).stem);
  }

  lemma MdIsLower()
    ensures AsciiLower("md") == "md" && AsciiLower(".md") == ".md"
  {
    assert "d"[1..] == "" && AsciiLower("d") == "d";
    assert "md"[1..] == "d" && ".md"[1..] == "md";
  }

  lemma MdIsMd(stem: string)
    ensures EndsInMd(stem + ".md") && (stem + ".md")[..|stem|] == stem
  {
    assert (stem + ".md")[|stem|..] == ".md";
    MdIsLower();
  }

  lemma {:induction false} OnePart(s: string)
    requires forall i | 0 <= i < |s| :: s[i] != '/'
    ensures PathParts(s) == [s]
  {
    if s != [] {
      OnePart(s[..|s| - 1]);
      assert s == s[..|s| - 1] + [s[|s| - 1]];
    }
  }

  lemma MdExtension(stem: string)
    requires stem != [] && forall i | 0 <= i < |stem| :: stem[i] != '/'
    ensures Extension(stem + ".md") == Some("md") && AsciiLower("md") == "md"
  {
    assert stem + "." + "md" == stem + ".md" && |stem + ".md"| > 2;
    ExtensionIsAfterTheDot("", stem, "md");
    MdIsLower();
  }

  /** A name with such a stem is already normalized. */
  lemma FileStemIsFixed(letters: Letters, stem: string)
    requires IsFileStem(letters, stem)
    ensures NormalizeFileName(letters, stem + ".md") == Some(stem + ".md")
  {
    var name := stem + ".md";
    assert stem[0] != '-' && letters(stem[0]) && name[0] == stem[0];
    assert TrimStart(name) == name && TrimEnd(name) == name;
    forall i | 0 <= i < |stem| ensures stem[i] != '/' && stem[i] != '.' {
      assert IsStemChar(letters, stem[i]);
    }
    MdExtension(stem);
    MdIsMd(stem);
    SlugOfDashed(letters, stem);
    NormalIsTrimmed(letters, stem);
  }

  /** Normalizing twice is normalizing once; the fixed points are exactly the names with a stem in normal form. */
  lemma NormalizeIsIdempotent(letters: Letters, input: string)
    ensures var name := NormalizeFileName(letters, input); name.Some? ==> NormalizeFileName(letters, name.value) == name
    ensures NormalizeFileName(letters, input) == Some(input)
      <==> |input| >= 3 && input == input[..|input| - 3] + ".md" && IsFileStem(letters, input[..|input| - 3])
  {
    var name := NormalizeFileName(letters, input);
    if name.Some? {
      NormalizedIsNormal(letters, input);
      FileStemIsFixed(letters, name.value[..|name.value| - 3]);
    }
    if |input| >= 3 && input == input[..|input| - 3] + ".md" && IsFileStem(letters, input[..|input| - 3]) {
      FileStemIsFixed(letters, input[..|input| - 3]);
    }
  }

  // ---- Numbers ----

  function Digit(d: nat): char
    requires d < 10
  {
    ('0' as int + d) as char
  }

  function Decimal(n: nat): (s: string)
    ensures s != [] && forall i | 0 <= i < |s| :: '0' <= s[i] <= '9'
  {
    if n < 10 then [Digit(n)] else Decimal(n / 10) + [Digit(n % 10)]
  }

  lemma {:induction false} DecimalTells(m: nat, n: nat)
    requires Decimal(m) == Decimal(n)
    ensures m == n
  {
    if m < 10 || n < 10 {
    } else {
      assert Decimal(m)[..|Decimal(m)| - 1] == Decimal(m / 10) && Decimal(n)[..|Decimal(n)| - 1] == Decimal(n / 10);
      DecimalTells(m / 10, n / 10);
      assert Decimal(m)[|Decimal(m)| - 1] == Digit(m % 10) && Decimal(n)[|Decimal(n)| - 1] == Digit(n % 10);
    }
  }

  function PowerOfTen(k: nat): nat {
    if k == 0 then 1 else 10 * PowerOfTen(k - 1)
  }

  lemma {:induction false} DecimalLength(n: nat, k: nat)
    requires 0 < k && n < PowerOfTen(k)
    ensures |Decimal(n)| <= k
  {
    if n >= 10 {
      DecimalLength(n / 10, k - 1);
    }
  }

  // ---- Suggestions ----

  function Suffix(n: nat): string {
    "-" + Decimal(n)
  }

  /** The suffix numbers are 32-bit. */
  const MAX_SUFFIX := 0x7FFF_FFFF

  lemma SuffixFits(n: nat)
    requires n <= MAX_SUFFIX
    ensures |Suffix(n)| <= 11
  {
    assert PowerOfTen(10) == 10000000000 by {
      assert PowerOfTen(2) == 100 && PowerOfTen(4) == 10000 && PowerOfTen(6) == 1000000 && PowerOfTen(8) == 100000000;
    }
    DecimalLength(n, 10);
  }

  function CandidateStem(stem: string, n: nat): string
    requires n <= MAX_SUFFIX
  {
    SuffixFits(n);
    TrimDashEnd(Truncated(stem, MAX_FILE_STEM_BYTES - |Suffix(n)|)) + Suffix(n)
  }

  function Candidate(stem: string, n: nat): string
    requires n <= MAX_SUFFIX
  {
    CandidateStem(stem, n) + ".md"
  }

  lemma {:induction false} BytesConcat(a: string, b: string)
    ensures Bytes(a + b) == Bytes(a) + Bytes(b)
    decreases |b|
  {
    if b == [] {
      assert a + b == a;
    } else {
      assert (a + b)[..|a + b| - 1] == a + b[..|b| - 1];
      BytesConcat(a, b[..|b| - 1]);
    }
  }

  lemma {:induction false} AsciiBytes(s: string)
    requires forall i | 0 <= i < |s| :: IsAscii(s[i])
    ensures Bytes(s) == |s|
  {
    if s != [] {
      AsciiBytes(s[..|s| - 1]);
    }
  }

  /** A stem in normal form, cut off somewhere, keeps its first character, and at most one dash is left to trim. */
  lemma {:induction false} CutIsNormal(letters: Letters, stem: string, n: nat)
    requires IsNormal(letters, stem) && n >= 4
    ensures var cut := TrimDashEnd(Truncated(stem, n)); IsNormal(letters, cut) && Bytes(cut) <= n
  {
    var t := Truncated(stem, n);
    assert Bytes(stem[..1]) <= 4 by {
      assert stem[..1][..0] == [];
    }
    if t == [] {
      TruncatedIsLongest(stem, n, 1);
    }
    assert Dashed(letters, t);
    if t[|t| - 1] == '-' {
      assert |t| > 1 && t[|t| - 2] != '-';
      assert t == t[..|t| - 1] + [t[|t| - 1]];
      assert TrimDashEnd(t) == t[..|t| - 1];
      assert IsNormal(letters, t[..|t| - 1]);
    }
  }

  lemma {:induction false} TruncatedIsLongest(s: string, n: nat, k: nat)
    requires k <= |s| && Bytes(s[..k]) <= n
    ensures |Truncated(s, n)| >= k
  {
    assert s[..|s|] == s;
    if Bytes(s) > n {
      assert s[..|s| - 1][..k] == s[..k];
      TruncatedIsLongest(s[..|s| - 1], n, k);
    }
  }

  lemma NumberedIsNormal(letters: Letters, cut: string, digits: string)
    requires IsNormal(letters, cut) && digits != [] && forall i | 0 <= i < |digits| :: '0' <= digits[i] <= '9'
    ensures IsNormal(letters, cut + "-" + digits)
  {
    var whole := cut + "-" + digits;
    forall i | 0 <= i < |whole|
      ensures IsStemChar(letters, whole[i]) && (i > 0 && whole[i] == '-' ==> whole[i - 1] != '-')
    {
      if i > |cut| {
        assert whole[i] == digits[i - |cut| - 1];
      }
    }
    assert whole[|whole| - 1] == digits[|digits| - 1];
  }

  /** No reserved name has a dash. */
  lemma NumberedIsNotReserved(cut: string, digits: string)
    ensures !IsWindowsReservedName(cut + "-" + digits)
  {
    assert AsciiUpper(cut + "-" + digits)[|cut|] == '-';
  }

  lemma SuffixBytes(n: nat)
    ensures Bytes(Suffix(n)) == |Suffix(n)|
  {
    AsciiBytes(Suffix(n));
  }

  /** What is left of the stem in front of the number. */
  lemma CandidateParts(letters: Letters, stem: string, n: nat) returns (cut: string)
    requires IsNormal(letters, stem) && n <= MAX_SUFFIX
    ensures IsNormal(letters, cut) && Bytes(cut) + |Suffix(n)| <= MAX_FILE_STEM_BYTES
    ensures CandidateStem(stem, n) == cut + Suffix(n)
  {
    SuffixFits(n);
    CutIsNormal(letters, stem, MAX_FILE_STEM_BYTES - |Suffix(n)|);
    cut := TrimDashEnd(Truncated(stem, MAX_FILE_STEM_BYTES - |Suffix(n)|));
  }

  /** A suggestion has a stem that a file name may have, so it is in normal form already. */
  lemma CandidateIsFixed(letters: Letters, stem: string, n: nat)
    requires IsNormal(letters, stem) && n <= MAX_SUFFIX
    ensures IsFileStem(letters, CandidateStem(stem, n))
    ensures NormalizeFileName(letters, Candidate(stem, n)) == Some(Candidate(stem, n))
  {
    var cut := CandidateParts(letters, stem, n);
    assert cut + Suffix(n) == cut + "-" + Decimal(n);
    NumberedIsNormal(letters, cut, Decimal(n));
    NumberedIsNotReserved(cut, Decimal(n));
    BytesConcat(cut, Suffix(n));
    SuffixBytes(n);
    FileStemIsFixed(letters, cut + Suffix(n));
  }

  // ---- Collisions ----

  /** Names are compared without regard to case. */
  function Key(lower: Lowering, s: string): string {
    if s == [] then [] else Key(lower, s[..|s| - 1]) + lower(s[|s| - 1])
  }

  lemma {:induction false} KeyOfTail(lower: Lowering, a: string, t: string)
    requires forall i | 0 <= i < |t| :: IsAscii(t[i]) && AsciiLowerChar(t[i]) == t[i]
    ensures Key(lower, a + t) == Key(lower, a) + t
    decreases |t|
  {
    if t == [] {
      assert a + t == a;
    } else {
      assert (a + t)[..|a + t| - 1] == a + t[..|t| - 1];
      KeyOfTail(lower, a, t[..|t| - 1]);
    }
  }

  lemma LastDashSplits(a: string, d: string, b: string, e: string)
    requires a + "-" + d == b + "-" + e
    requires (forall i | 0 <= i < |d| :: d[i] != '-') && (forall i | 0 <= i < |e| :: e[i] != '-')
    ensures d == e
  {
    var x, y := a + "-" + d, b + "-" + e;
    if |a| < |b| {
      DashApart(a, d, b, e);
    } else if |b| < |a| {
      DashApart(b, e, a, d);
    }
    assert x[|a| + 1..] == d && y[|b| + 1..] == e;
  }

  lemma DashApart(a: string, d: string, b: string, e: string)
    requires |a| < |b| <= |a| + |d| && forall i | 0 <= i < |d| :: d[i] != '-'
    ensures a + "-" + d != b + "-" + e
  {
    assert (a + "-" + d)[|b|] == d[|b| - |a| - 1];
    assert (b + "-" + e)[|b|] == '-';
  }

  /** Candidates with different numbers never collide with each other. */
  lemma CandidatesDiffer(lower: Lowering, stem: string, m: nat, n: nat)
    requires m <= MAX_SUFFIX && n <= MAX_SUFFIX
    requires Key(lower, Candidate(stem, m)) == Key(lower, Candidate(stem, n))
    ensures m == n
  {
    var a := CandidateKey(lower, stem, m);
    var b := CandidateKey(lower, stem, n);
    LastDashSplits(a, Decimal(m) + ".md", b, Decimal(n) + ".md");
    assert Decimal(m) == (Decimal(m) + ".md")[..|Decimal(m)|] && Decimal(n) == (Decimal(n) + ".md")[..|Decimal(n)|];
    DecimalTells(m, n);
  }

  function Tail(n: nat): string {
    "-" + (Decimal(n) + ".md")
  }

  lemma TailIsPlain(n: nat)
    ensures forall i | 0 <= i < |Tail(n)| :: IsAscii(Tail(n)[i]) && AsciiLowerChar(Tail(n)[i]) == Tail(n)[i]
  {
  }

  lemma CandidateKey(lower: Lowering, stem: string, n: nat) returns (front: string)
    requires n <= MAX_SUFFIX
    ensures Key(lower, Candidate(stem, n)) == front + "-" + (Decimal(n) + ".md")
  {
    SuffixFits(n);
    var cut := TrimDashEnd(Truncated(stem, MAX_FILE_STEM_BYTES - |Suffix(n)|));
    assert Candidate(stem, n) == cut + Tail(n);
    TailIsPlain(n);
    KeyOfTail(lower, cut, Tail(n));
    front := Key(lower, cut);
  }

  predicate Collides(lower: Lowering, names: seq<string>, name: string) {
    exists i :: 0 <= i < |names| && Key(lower, names[i]) == Key(lower, name)
  }

  /** A name collides with another that has the same key, wherever that stands. */
  lemma CollidesWithAny(lower: Lowering, names: seq<string>, name: string)
    ensures Collides(lower, names, name) <==> exists other :: other in names && Key(lower, other) == Key(lower, name)
  {
    if other :| other in names && Key(lower, other) == Key(lower, name) {
      var i :| 0 <= i < |names| && names[i] == other;
    }
  }

  function Keys(lower: Lowering, names: seq<string>): set<string> {
    set i | 0 <= i < |names| :: Key(lower, names[i])
  }

  lemma {:induction false} FewKeys(lower: Lowering, names: seq<string>)
    ensures |Keys(lower, names)| <= |names|
  {
    if names != [] {
      var front := names[..|names| - 1];
      FewKeys(lower, front);
      var last := Key(lower, names[|names| - 1]);
      forall k | k in Keys(lower, names) ensures k in Keys(lower, front) + {last} {
        var i :| 0 <= i < |names| && k == Key(lower, names[i]);
        assert i < |front| ==> front[i] == names[i];
      }
      CoverSize(Keys(lower, names), Keys(lower, front), {last});
    } else {
      assert Keys(lower, names) == {};
    }
  }

  /** The keys of the candidates numbered from 2 up to `end`. */
  ghost function CandidateKeys(lower: Lowering, stem: string, end: nat): set<string>
    requires 2 <= end <= MAX_SUFFIX
  {
    if end == 2 then {} else CandidateKeys(lower, stem, end - 1) + {Key(lower, Candidate(stem, end - 1))}
  }

  lemma {:induction false} KeyOfSome(lower: Lowering, stem: string, end: nat, key: string) returns (n: nat)
    requires 2 <= end <= MAX_SUFFIX && key in CandidateKeys(lower, stem, end)
    ensures 2 <= n < end && key == Key(lower, Candidate(stem, n))
  {
    if key == Key(lower, Candidate(stem, end - 1)) {
      n := end - 1;
    } else {
      n := KeyOfSome(lower, stem, end - 1, key);
    }
  }

  lemma NextKeyIsNew(lower: Lowering, stem: string, end: nat)
    requires 2 <= end < MAX_SUFFIX
    ensures Key(lower, Candidate(stem, end)) !in CandidateKeys(lower, stem, end)
  {
    if Key(lower, Candidate(stem, end)) in CandidateKeys(lower, stem, end) {
      var n := KeyOfSome(lower, stem, end, Key(lower, Candidate(stem, end)));
      CandidatesDiffer(lower, stem, n, end);
    }
  }

  lemma {:induction false} ManyKeys(lower: Lowering, stem: string, end: nat)
    requires 2 <= end <= MAX_SUFFIX
    ensures |CandidateKeys(lower, stem, end)| == end - 2
  {
    if end > 2 {
      ManyKeys(lower, stem, end - 1);
      NextKeyIsNew(lower, stem, end - 1);
    }
  }

  /** As long as all candidates so far are taken, there are no more of them than existing names. */
  lemma TakenAreFew(lower: Lowering, names: seq<string>, stem: string, end: nat)
    requires 2 <= end <= MAX_SUFFIX
    requires forall n | 2 <= n < end :: Collides(lower, names, Candidate(stem, n))
    ensures end - 2 <= |names|
  {
    forall key | key in CandidateKeys(lower, stem, end) ensures key in Keys(lower, names) {
      var n := KeyOfSome(lower, stem, end, key);
      assert Collides(lower, names, Candidate(stem, n));
      var i :| 0 <= i < |names| && Key(lower, names[i]) == key;
    }
    SubsetSize(CandidateKeys(lower, stem, end), Keys(lower, names));
    ManyKeys(lower, stem, end);
    FewKeys(lower, names);
  }

  /** The least free number, found within one more try than there are names. */
  method SuggestName(lower: Lowering, names: seq<string>, stem: string) returns (suggestion: string, ghost number: nat)
    requires |names| + 3 <= MAX_SUFFIX
    ensures 2 <= number <= |names| + 2 && suggestion == Candidate(stem, number)
    ensures !Collides(lower, names, suggestion)
    ensures forall n | 2 <= n < number :: Collides(lower, names, Candidate(stem, n))
  {
    var suffix := 2;
    suggestion := Candidate(stem, suffix);
    while Collides(lower, names, suggestion)
      invariant 2 <= suffix <= |names| + 2 && suggestion == Candidate(stem, suffix)
      invariant forall n | 2 <= n < suffix :: Collides(lower, names, Candidate(stem, n))
      decreases |names| + 2 - suffix
    {
      TakenAreFew(lower, names, stem, suffix + 1);
      suffix := suffix + 1;
      suggestion := Candidate(stem, suffix);
    }
    number := suffix;
  }

  // ---- Validation ----

  datatype Validation = Validation(name: string, hasCollision: bool, suggested: Option<string>)

  function TrimEndMatches(s: string, ending: string): string
    requires ending != []
  {
    if |s| >= |ending| && s[|s| - |ending|..] == ending then TrimEndMatches(s[..|s| - |ending|], ending) else s
  }

  /** Checking a name against those in the folder. */
  method ValidateName(letters: Letters, lower: Lowering, names: seq<string>, input: string)
    returns (v: Option<Validation>)
    requires |names| + 3 <= MAX_SUFFIX
    ensures v.Some? <==> NormalizeFileName(letters, input).Some?
    ensures v.Some? ==>
      && v.value.name == NormalizeFileName(letters, input).value
      && (v.value.hasCollision <==> Collides(lower, names, v.value.name))
      && (v.value.suggested.Some? <==> v.value.hasCollision)
      && (v.value.hasCollision ==>
            var s := v.value.suggested.value;
            && !Collides(lower, names, s)
            && NormalizeFileName(letters, s) == Some(s)
            && EndsInMd(s) && Bytes(s[..|s| - 3]) <= MAX_FILE_STEM_BYTES)
  {
    var normalized := NormalizeFileName(letters, input);
    if normalized.None? {
      return None;
    }
    var name := normalized.value;
    if !Collides(lower, names, name) {
      return Some(Validation(name, false, None));
    }
    var stem := TrimEndMatches(name, ".md");
    NormalizedIsNormal(letters, input);
    StemIsTrimmed(letters, name[..|name| - 3]);
    ghost var number: nat;
    var suggestion;
    suggestion, number := SuggestName(lower, names, stem);
    CandidateIsFixed(letters, stem, number);
    MdIsMd(CandidateStem(stem, number));
    v := Some(Validation(name, true, Some(suggestion)));
  }

  lemma StemIsTrimmed(letters: Letters, stem: string)
    requires IsNormal(letters, stem)
    ensures TrimEndMatches(stem + ".md", ".md") == stem
  {
    var name := stem + ".md";
    assert name[|name| - 3..] == ".md" && name[..|name| - 3] == stem;
    if |stem| >= 3 {
      assert IsStemChar(letters, stem[|stem| - 3]) && stem[|stem| - 3..][0] == stem[|stem| - 3];
      assert ".md"[0] == '.';
    }
  }

  /**
   Adding a document tries at most 64 suggestions; when the folder does not change, the first one
   settles it: the name is free and never the name of an existing file.
   */
  method ChooseName(letters: Letters, lower: Lowering, names: seq<string>, input: string)
    returns (name: Option<string>, ghost tries: nat)
    requires |names| + 3 <= MAX_SUFFIX
    ensures name.Some? <==> NormalizeFileName(letters, input).Some?
    ensures name.Some? ==> !Collides(lower, names, name.value) && NormalizeFileName(letters, name.value) == name
    ensures tries <= 1
    ensures name.Some? && !Collides(lower, names, NormalizeFileName(letters, input).value) ==>
      name == NormalizeFileName(letters, input)
  {
    tries := 0;
    var v := ValidateName(letters, lower, names, input);
    NormalizeIsIdempotent(letters, input);
    if v.None? {
      return None, tries;
    }
    var validation := v.value;
    for i := 0 to 64
      invariant NormalizeFileName(letters, input).Some?
      invariant NormalizeFileName(letters, validation.name) == Some(validation.name)
      invariant validation.hasCollision <==> Collides(lower, names, validation.name)
      invariant validation.suggested.Some? <==> validation.hasCollision
      invariant validation.hasCollision ==> !Collides(lower, names, validation.suggested.value)
      invariant validation.hasCollision ==>
        NormalizeFileName(letters, validation.suggested.value) == validation.suggested
      invariant tries == (if i == 0 || validation.name == NormalizeFileName(letters, input).value then 0 else 1)
      invariant i > 0 ==> !validation.hasCollision
      invariant !Collides(lower, names, NormalizeFileName(letters, input).value) ==>
        validation.name == NormalizeFileName(letters, input).value
      invariant i == 0 ==> validation.name == NormalizeFileName(letters, input).value
    {
      if !validation.hasCollision {
        break;
      }
      var again := ValidateName(letters, lower, names, validation.suggested.value);
      validation := again.value;
      tries := tries + 1;
    }
    name := if validation.hasCollision then None else Some(validation.name);
  }

  // ---- What a slug keeps ----

  lemma {:induction false} SlugOfWord(letters: Letters, a: string, w: string)
    requires w != [] && forall i | 0 <= i < |w| :: letters(w[i])
    ensures SlugOf(letters, a + w) ==
      Slug(SlugOf(letters, a).stem
           + (if SlugOf(letters, a).pending && SlugOf(letters, a).stem != [] then "-" else "") + AsciiLower(w), false)
    decreases |w|
  {
    var front, c := w[..|w| - 1], w[|w| - 1];
    assert (a + w)[..|a + w| - 1] == a + front;
    LowerOfLast(w);
    if front == [] {
      assert a + front == a;
    } else {
      SlugOfWord(letters, a, front);
    }
  }

  lemma {:induction false} LowerOfLast(w: string)
    requires w != []
    ensures AsciiLower(w) == AsciiLower(w[..|w| - 1]) + [AsciiLowerChar(w[|w| - 1])]
  {
    if |w| > 1 {
      LowerOfLast(w[1..]);
      assert w[1..][..|w| - 2] == w[..|w| - 1][1..];
    }
  }

  lemma SlugOfBreak(letters: Letters, a: string, c: char)
    requires !letters(c)
    ensures SlugOf(letters, a + [c]) == Slug(SlugOf(letters, a).stem, true)
  {
    assert (a + [c])[..|a|] == a;
  }

  lemma SlugOfOneWord(letters: Letters, w: string)
    requires w != [] && forall i | 0 <= i < |w| :: letters(w[i])
    ensures SlugOf(letters, w).stem == AsciiLower(w)
  {
    SlugOfWord(letters, [], w);
    assert [] + w == w;
    assert SlugOf(letters, []) == Slug("", false);
  }

  /** Words stay, in lower case as far as ASCII goes, and whatever stands between two of them becomes one dash. */
  lemma SlugJoinsWords(letters: Letters, a: string, c: char, w: string)
    requires !letters(c) && w != [] && forall i | 0 <= i < |w| :: letters(w[i])
    ensures SlugOf(letters, a + [c]).stem == SlugOf(letters, a).stem
    ensures var before := SlugOf(letters, a).stem;
      SlugOf(letters, a + [c] + w).stem == (if before == [] then "" else before + "-") + AsciiLower(w)
  {
    SlugOfBreak(letters, a, c);
    SlugOfWord(letters, a + [c], w);
  }

  // ---- Extensions ----

  /** A name with another extension is refused; with the extension md, in any case, or none, it gets that one. */
  lemma ExtensionsDecide(letters: Letters, w: string, e: string)
    requires w != [] && e != [] && (forall i | 0 <= i < |w| :: letters(w[i]))
    requires (forall i | 0 <= i < |e| :: letters(e[i]))
    requires !IsWindowsReservedName(AsciiLower(w)) && Bytes(AsciiLower(w)) <= 200
    ensures AsciiLower(e) != "md" ==> NormalizeFileName(letters, w + "." + e) == None
    ensures AsciiLower(e) == "md" ==> NormalizeFileName(letters, w + "." + e) == Some(AsciiLower(w) + ".md")
    ensures NormalizeFileName(letters, w) == Some(AsciiLower(w) + ".md")
  {
    WithAnExtension(letters, w, e);
    WithoutExtension(letters, w);
  }

  lemma {:induction false} LastDotOfWords(w: string, e: string)
    requires forall i | 0 <= i < |e| :: e[i] != '.'
    ensures LastDot(w + "." + e) == |w|
    decreases |e|
  {
    if e == [] {
      assert w + "." + e == w + "." && (w + ".")[|w|] == '.';
    } else {
      assert (w + "." + e)[..|w + "." + e| - 1] == w + "." + e[..|e| - 1];
      LastDotOfWords(w, e[..|e| - 1]);
    }
  }

  lemma {:induction false} NoDot(w: string)
    requires forall i | 0 <= i < |w| :: w[i] != '.'
    ensures LastDot(w) == -1
  {
    if w != [] {
      NoDot(w[..|w| - 1]);
    }
  }

  lemma LettersAreOrdinary(letters: Letters, w: string)
    requires forall i | 0 <= i < |w| :: letters(w[i])
    ensures forall i | 0 <= i < |w| :: w[i] != '.' && w[i] != '/' && w[i] != '-' && !IsWhitespace(w[i])
  {
  }

  lemma TrimOfWord(s: string)
    requires s != [] && !IsWhitespace(s[0]) && !IsWhitespace(s[|s| - 1])
    ensures Trim(s) == s
  {
  }

  lemma NameOfWord(s: string)
    requires s != [] && s[|s| - 1] != '.' && forall i | 0 <= i < |s| :: s[i] != '/'
    ensures LastName(PathParts(s)) == Some(s)
  {
    OnePart(s);
  }

  lemma NormalHasNoDot(letters: Letters, stem: string)
    requires IsNormal(letters, stem)
    ensures stem !in {"", ".", ".."}
  {
    assert IsStemChar(letters, stem[0]);
  }

  lemma StemOfWord(letters: Letters, w: string)
    requires w != [] && forall i | 0 <= i < |w| :: letters(w[i])
    ensures TrimDashEnd(TrimDashStart(SlugOf(letters, w).stem)) == AsciiLower(w)
    ensures AsciiLower(w) !in {"", ".", ".."}
  {
    SlugOfOneWord(letters, w);
    SlugIsNormal(letters, w);
    var stem := SlugOf(letters, w).stem;
    NormalIsTrimmed(letters, stem);
    AsciiLowerAt(w, 0);
    assert stem != [];
    NormalHasNoDot(letters, stem);
  }

  lemma WordHasNoExtension(letters: Letters, w: string)
    requires w != [] && forall i | 0 <= i < |w| :: letters(w[i])
    ensures Trim(w) == w && Extension(w) == None
  {
    LettersAreOrdinary(letters, w);
    TrimOfWord(w);
    NameOfWord(w);
    NoDot(w);
  }

  lemma WithoutExtension(letters: Letters, w: string)
    requires w != [] && forall i | 0 <= i < |w| :: letters(w[i])
    requires !IsWindowsReservedName(AsciiLower(w)) && Bytes(AsciiLower(w)) <= 200
    ensures NormalizeFileName(letters, w) == Some(AsciiLower(w) + ".md")
  {
    WordHasNoExtension(letters, w);
    NotMd(letters, w);
    StemOfWord(letters, w);
    assert StemOf(letters, w) == AsciiLower(w);
  }

  lemma NotMd(letters: Letters, w: string)
    requires forall i | 0 <= i < |w| :: letters(w[i])
    ensures !EndsInMd(w)
  {
    LettersAreOrdinary(letters, w);
    if |w| >= 3 {
      AsciiLowerAt(w[|w| - 3..], 0);
      assert ".md"[0] == '.';
    }
  }

  lemma ExtensionOfWords(letters: Letters, w: string, e: string)
    requires w != [] && e != [] && (forall i | 0 <= i < |w| :: letters(w[i]))
    requires (forall i | 0 <= i < |e| :: letters(e[i]))
    ensures Trim(w + "." + e) == w + "." + e && Extension(w + "." + e) == Some(e)
  {
    var name := w + "." + e;
    LettersAreOrdinary(letters, w);
    LettersAreOrdinary(letters, e);
    TrimOfWord(name);
    NameOfWord(name);
    LastDotOfWords(w, e);
    assert name[|w| + 1..] == e;
  }

  lemma MdOfWords(w: string, e: string)
    requires AsciiLower(e) == "md"
    ensures EndsInMd(w + "." + e) && (w + "." + e)[..|w|] == w
  {
    var ending := "." + e;
    assert (w + "." + e)[|w|..] == ending && ending[1..] == e;
    assert AsciiLower(ending) == ['.'] + AsciiLower(e);
  }

  lemma WithAnExtension(letters: Letters, w: string, e: string)
    requires w != [] && e != [] && (forall i | 0 <= i < |w| :: letters(w[i]))
    requires (forall i | 0 <= i < |e| :: letters(e[i]))
    requires !IsWindowsReservedName(AsciiLower(w)) && Bytes(AsciiLower(w)) <= 200
    ensures NormalizeFileName(letters, w + "." + e) ==
      if AsciiLower(e) == "md" then Some(AsciiLower(w) + ".md") else None
  {
    ExtensionOfWords(letters, w, e);
    if AsciiLower(e) == "md" {
      MdOfWords(w, e);
      StemOfWord(letters, w);
      assert StemOf(letters, w + "." + e) == AsciiLower(w);
    }
  }

  /** Parts of a path that are no names do not hide the one before. */
  lemma NoNamesAreSkipped(parts: seq<string>)
    ensures LastName(parts + [""]) == LastName(parts) && LastName(parts + ["."]) == LastName(parts)
    ensures LastName(parts + [".."]) == None
  {
    assert (parts + [""])[..|parts|] == parts && (parts + ["."])[..|parts|] == parts;
  }

  predicate Lacks(s: string, c: char) {
    forall i | 0 <= i < |s| :: s[i] != c
  }

  lemma {:induction false} PartsOfJoined(folder: string, name: string)
    requires Lacks(name, '/')
    ensures PathParts(folder + "/" + name) == PathParts(folder) + [name]
  {
    var path := folder + "/" + name;
    if name == "" {
      assert path[..|path| - 1] == folder;
    } else {
      assert path[..|path| - 1] == folder + "/" + name[..|name| - 1];
      PartsOfJoined(folder, name[..|name| - 1]);
      assert name[..|name| - 1] + [name[|name| - 1]] == name;
    }
  }

  lemma NameWins(parts: seq<string>, name: string)
    requires name !in {"", ".", ".."}
    ensures LastName(parts + [name]) == Some(name)
  {
    assert (parts + [name])[|parts|] == name;
  }

  lemma NameIsLast(folder: string, name: string)
    requires Lacks(name, '/') && name !in {"", ".", ".."}
    ensures LastName(PathParts(name)) == LastName(PathParts(folder + "/" + name)) == Some(name)
  {
    OnePart(name);
    assert [] + [name] == [name];
    NameWins([], name);
    PartsOfJoined(folder, name);
    NameWins(PathParts(folder), name);
  }

  /** The extension is what follows the last dot of the name, in whatever folder. */
  lemma ExtensionIsAfterTheDot(folder: string, stem: string, e: string)
    requires stem != "" && Lacks(stem, '/') && Lacks(e, '/') && Lacks(e, '.') && stem + "." + e != ".."
    ensures var name := stem + "." + e; Extension(name) == Extension(folder + "/" + name) == Some(e)
  {
    var name := stem + "." + e;
    LastDotOfWords(stem, e);
    assert |name| > 1 && name[|stem| + 1..] == e;
    NameIsLast(folder, name);
  }

  /** A dot that begins the name begins no extension, and a dot of a folder's name does not count. */
  lemma LeadingDotIsNone(folder: string, w: string)
    requires w != "" && Lacks(w, '/') && Lacks(w, '.')
    ensures Extension("." + w) == Extension(folder + "/" + ("." + w)) == None
    ensures Extension(w) == Extension(folder + "/" + w) == None
  {
    LastDotOfWords("", w);
    assert "" + "." + w == "." + w && ("." + w)[1] == w[0] != '.';
    NameIsLast(folder, "." + w);
    NoDot(w);
    NameIsLast(folder, w);
  }

  /** The ASCII letters and digits, by their codes. */
  lemma AsciiLetters(c: char)
    ensures IsAsciiAlphanumeric(c) <==> 48 <= c as int <= 57 || 65 <= c as int <= 90 || 97 <= c as int <= 122
  {
  }

  // ---- Reserved names and lengths ----

  predicate IsDeviceName(lower: string) {
    lower == "con" || lower == "prn" || lower == "aux" || lower == "nul"
    || (|lower| == 4 && lower[..3] in {"com", "lpt"} && '1' <= lower[3] <= '9')
  }

  /** The reserved names are the device names, in any case: four of their own, and two with a number from 1 to 9. */
  lemma ReservedNames(stem: string)
    ensures IsWindowsReservedName(stem) <==> IsDeviceName(AsciiLower(stem))
  {
    if |stem| == 3 {
      ThreeLetters(stem);
    } else if |stem| == 4 {
      FourLetters(stem);
    }
  }

  lemma ThreeLetters(stem: string)
    requires |stem| == 3
    ensures IsWindowsReservedName(stem) <==> IsDeviceName(AsciiLower(stem))
  {
    SameName(stem, 'C', 'O', 'N');
    SameName(stem, 'P', 'R', 'N');
    SameName(stem, 'A', 'U', 'X');
    SameName(stem, 'N', 'U', 'L');
  }

  lemma SameName(stem: string, a: char, b: char, c: char)
    requires |stem| == 3 && 'A' <= a <= 'Z' && 'A' <= b <= 'Z' && 'A' <= c <= 'Z'
    ensures AsciiUpper(stem) == [a, b, c]
      <==> AsciiLower(stem) == [AsciiLowerChar(a), AsciiLowerChar(b), AsciiLowerChar(c)]
  {
    SameIgnoringCase(stem, a, b, c);
    assert AsciiUpper(stem)[..3] == AsciiUpper(stem) && AsciiLower(stem)[..3] == AsciiLower(stem);
  }

  lemma FourLetters(stem: string)
    requires |stem| == 4
    ensures IsWindowsReservedName(stem) <==> IsDeviceName(AsciiLower(stem))
  {
    SameIgnoringCase(stem, 'C', 'O', 'M');
    SameIgnoringCase(stem, 'L', 'P', 'T');
    LowerCharAt(stem, 3);
  }

  lemma SameIgnoringCase(stem: string, a: char, b: char, c: char)
    requires |stem| >= 3 && 'A' <= a <= 'Z' && 'A' <= b <= 'Z' && 'A' <= c <= 'Z'
    ensures AsciiUpper(stem)[..3] == [a, b, c]
      <==> AsciiLower(stem)[..3] == [AsciiLowerChar(a), AsciiLowerChar(b), AsciiLowerChar(c)]
  {
    LowerCharAt(stem, 0);
    LowerCharAt(stem, 1);
    LowerCharAt(stem, 2);
    SameLetter(stem[0], a);
    SameLetter(stem[1], b);
    SameLetter(stem[2], c);
    ThreeByThree(AsciiUpper(stem)[..3], [a, b, c]);
    ThreeByThree(AsciiLower(stem)[..3], [AsciiLowerChar(a), AsciiLowerChar(b), AsciiLowerChar(c)]);
  }

  /** The two cases of a letter tell it apart from every other character alike. */
  lemma SameLetter(c: char, upper: char)
    requires 'A' <= upper <= 'Z'
    ensures AsciiUpperChar(c) == upper <==> AsciiLowerChar(c) == AsciiLowerChar(upper)
  {
  }

  lemma ThreeByThree(a: string, b: string)
    requires |a| == 3 && |b| == 3
    ensures a == b <==> a[0] == b[0] && a[1] == b[1] && a[2] == b[2]
  {
  }

  lemma {:induction false} LowerCharAt(s: string, i: nat)
    requires i < |s|
    ensures AsciiLower(s)[i] == AsciiLowerChar(s[i])
  {
    if i > 0 {
      LowerCharAt(s[1..], i - 1);
    }
  }

  /** How many code points a UTF-8 sequence of this length can tell apart, with those of the shorter ones. */
  function Capacity(length: nat): nat {
    if length == 0 then 0
    else if length == 1 then 128                 // 7 bits
    else if length == 2 then 32 * 64             // 5 and 6 bits
    else if length == 3 then 16 * 64 * 64        // 4, 6 and 6 bits
    else 8 * 64 * 64 * 64                        // 3, 6, 6 and 6 bits
  }

  /** A character takes as few bytes as its code point fits in. */
  lemma Utf8IsShortest(c: char)
    ensures var n := Utf8Length(c); Capacity(n - 1) <= c as int < Capacity(n)
  {
  }

  // ---- What a suggestion keeps ----

  function ValueOf(digits: string): nat
    requires forall i | 0 <= i < |digits| :: '0' <= digits[i] <= '9'
  {
    if digits == [] then 0 else 10 * ValueOf(digits[..|digits| - 1]) + (digits[|digits| - 1] as int - '0' as int)
  }

  /** Numbers are written in decimal notation. */
  lemma {:induction false} DecimalIsTheNumber(n: nat)
    ensures ValueOf(Decimal(n)) == n
  {
    if n >= 10 {
      DecimalIsTheNumber(n / 10);
      assert Decimal(n)[..|Decimal(n)| - 1] == Decimal(n / 10);
    } else {
      assert Decimal(n)[..0] == [];
    }
  }

  /** A suggestion is the stem with the number behind it, cut as little as the limit asks. */
  lemma CandidateKeepsTheStem(letters: Letters, stem: string, n: nat) returns (cut: string)
    requires IsNormal(letters, stem) && n <= MAX_SUFFIX
    ensures CandidateStem(stem, n) == cut + Suffix(n) && Suffix(n) == "-" + Decimal(n)
    ensures cut <= stem && (Bytes(stem) + |Suffix(n)| <= MAX_FILE_STEM_BYTES ==> cut == stem)
    ensures forall k: nat | k <= |stem| && Bytes(stem[..k]) + |Suffix(n)| <= MAX_FILE_STEM_BYTES :: k <= |cut| + 1
  {
    SuffixFits(n);
    var room := MAX_FILE_STEM_BYTES - |Suffix(n)|;
    var t := Truncated(stem, room);
    cut := TrimDashEnd(t);
    OneDashAtMost(letters, stem, t);
    forall k: nat | k <= |stem| && Bytes(stem[..k]) <= room ensures k <= |cut| + 1 {
      TruncatedIsLongest(stem, room, k);
    }
  }

  lemma OneDashAtMost(letters: Letters, stem: string, t: string)
    requires IsNormal(letters, stem) && t <= stem
    ensures TrimDashEnd(t) <= t && |t| <= |TrimDashEnd(t)| + 1 && (t == stem ==> TrimDashEnd(t) == t)
  {
    if t != [] && t[|t| - 1] == '-' {
      assert |t| > 1 && t[|t| - 2] != '-';
      assert t[..|t| - 1][|t| - 2] == t[|t| - 2];
    }
  }

  /** Keys compare names character by character, each lower-cased. */
  lemma {:induction false} KeyOfConcat(lower: Lowering, a: string, b: string)
    ensures Key(lower, a + b) == Key(lower, a) + Key(lower, b)
    decreases |b|
  {
    if b == [] {
      assert a + b == a;
    } else {
      var front, last := Key(lower, b[..|b| - 1]), lower(b[|b| - 1]);
      KeyOfConcat(lower, a, b[..|b| - 1]);
      assert Key(lower, a + b) == Key(lower, a + b[..|b| - 1]) + last by {
        assert (a + b)[..|a + b| - 1] == a + b[..|b| - 1];
      }
      assert (Key(lower, a) + front) + last == Key(lower, a) + (front + last);
    }
  }

  lemma KeyOfChar(lower: Lowering, c: char)
    ensures Key(lower, [c]) == lower(c) && Key(lower, []) == []
  {
    assert [c][..0] == [];
  }
}
