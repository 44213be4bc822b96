/**
 How a search query is matched against a title, a path or a body: case is folded by a mapping that
 may change length, the query's words are looked for greedily from left to right, and the match is
 mapped back to the original text. Positions are counted in characters.
 */
module SearchMatch {
  import opened Text

  /** Lower-casing of one character; it may yield several characters but never none. */
  type Lowering = f: char -> string | forall c :: f(c) != []
    witness (c: char) => [c]

  // ---- Folding ----

  function Fold(lower: Lowering, s: string): string {
    if s == [] then []
    else
      var n := |s| - 1;
      Fold(lower, s[..n]) + lower(s[n])
  }

  /** For each folded character, the position of the original character it comes from. */
  function Origins(lower: Lowering, s: string): (o: seq<nat>)
    ensures |o| == |Fold(lower, s)|
    ensures forall j | 0 <= j < |o| :: o[j] < |s|
  {
    if s == [] then []
    else
      var n := |s| - 1;
      Origins(lower, s[..n]) + seq(|lower(s[n])|, _ => n)
  }

  datatype Span = Span(start: nat, end: nat)

  datatype FoldedText = FoldedText(text: string, origins: seq<nat>) {

    /** The original character the folded character at `foldedStart` comes from. */
    function OriginalStart(foldedStart: nat): Option<nat> {
      if foldedStart < |origins| then Some(origins[foldedStart]) else None
    }

    /** Just after the original character that the folded character before `foldedEnd` comes from. */
    function OriginalEnd(foldedEnd: nat): Option<nat> {
      if 0 < foldedEnd <= |origins| then Some(origins[foldedEnd - 1] + 1) else None
    }
  }

  method NewFoldedText(lower: Lowering, value: string) returns (f: FoldedText)
    ensures f == FoldedText(Fold(lower, value), Origins(lower, value))
  {
    var text, origins := [], [];
    for i := 0 to |value|
      invariant text == Fold(lower, value[..i])
      invariant origins == Origins(lower, value[..i])
    {
      assert value[..i + 1][..i] == value[..i];
      var folded := lower(value[i]);
      for j := 0 to |folded|
        invariant text == Fold(lower, value[..i]) + folded[..j]
        invariant origins == Origins(lower, value[..i]) + seq(j, _ => i)
      {
        text := text + [folded[j]];
        origins := origins + [i];
      }
      assert folded[..|folded|] == folded;
    }
    assert value[..|value|] == value;
    return FoldedText(text, origins);
  }

  lemma {:induction false} FoldConcat(lower: Lowering, a: string, b: string)
    ensures Fold(lower, a + b) == Fold(lower, a) + Fold(lower, b)
  {
    if b == [] {
      assert a + b == a;
    } else {
      var n := |b| - 1;
      FoldConcat(lower, a, b[..n]);
      var front, last := Fold(lower, b[..n]), lower(b[n]);
      assert Fold(lower, a + b) == Fold(lower, a + b[..n]) + last by {
        assert (a + b)[..|a| + n] == a + b[..n] && (a + b)[|a| + n] == b[n];
      }
      assert (Fold(lower, a) + front) + last == Fold(lower, a) + (front + last);
    }
  }

  /** A folded character lies in the folded form of its original character. */
  lemma {:induction false} OriginBrackets(lower: Lowering, s: string, j: nat)
    requires j < |Origins(lower, s)|
    ensures var o := Origins(lower, s)[j];
      |Fold(lower, s[..o])| <= j < |Fold(lower, s[..o + 1])|
  {
    var n := |s| - 1;
    if j < |Origins(lower, s[..n])| {
      OriginBrackets(lower, s[..n], j);
      var o := Origins(lower, s)[j];
      assert s[..n][..o] == s[..o] && s[..n][..o + 1] == s[..o + 1];
    } else {
      assert s[..n + 1] == s;
    }
  }

  lemma {:induction false} OriginsAscend(lower: Lowering, s: string, i: nat, j: nat)
    requires i <= j < |Origins(lower, s)|
    ensures Origins(lower, s)[i] <= Origins(lower, s)[j]
  {
    var n := |s| - 1;
    if j < |Origins(lower, s[..n])| {
      OriginsAscend(lower, s[..n], i, j);
    }
  }

  // ---- Words ----

  predicate OccursAt(text: string, part: string, p: nat) {
    p + |part| <= |text| && text[p..p + |part|] == part
  }

  /** The parts occur in `text` from `from` on, in order and without overlap. */
  ghost predicate InOrder(parts: seq<string>, text: string, from: nat) {
    parts == [] ||
    exists p: nat :: from <= p && OccursAt(text, parts[0], p) && InOrder(parts[1..], text, p + |parts[0]|)
  }

  /** Leftmost occurrence at or after `from`. */
  function Find(text: string, part: string, from: nat): (r: Option<nat>)
    ensures r.Some? ==> from <= r.value && OccursAt(text, part, r.value)
    decreases |text| - from
  {
    if from + |part| > |text| then None
    else if OccursAt(text, part, from) then Some(from)
    else Find(text, part, from + 1)
  }

  lemma {:induction false} FindIsLeftmost(text: string, part: string, from: nat, p: nat)
    requires from <= p && OccursAt(text, part, p)
    ensures Find(text, part, from).Some? && Find(text, part, from).value <= p
    decreases p - from
  {
    if !OccursAt(text, part, from) {
      FindIsLeftmost(text, part, from + 1, p);
    }
  }

  predicate NoneEmpty(parts: seq<string>) {
    forall i | 0 <= i < |parts| :: parts[i] != []
  }

  /** The longest prefix without white space. */
  function LeadingWord(s: string): (w: string)
    ensures w <= s
  {
    if s == [] || IsWhitespace(s[0]) then [] else [s[0]] + LeadingWord(s[1..])
  }

  /** The words of a text, split at runs of white space. */
  function Words(s: string): (ws: seq<string>)
    ensures NoneEmpty(ws)
    decreases |s|
  {
    if s == [] then []
    else if IsWhitespace(s[0]) then Words(s[1..])
    else
      var w := LeadingWord(s);
      [w] + Words(s[|w|..])
  }

  lemma {:induction false} LeadingWordEnds(w: string, rest: string)
    requires (forall i | 0 <= i < |w| :: !IsWhitespace(w[i])) && (rest == [] || IsWhitespace(rest[0]))
    ensures LeadingWord(w + rest) == w
  {
    if w == [] {
      assert w + rest == rest;
    } else {
      assert (w + rest)[1..] == w[1..] + rest;
      LeadingWordEnds(w[1..], rest);
    }
  }

  /**
   Words are what stands between white space: the first one ends at the first white space, and the rest are
   the rest's.
   */
  lemma WordsSplit(w: string, c: char, b: string)
    requires (forall i | 0 <= i < |w| :: !IsWhitespace(w[i])) && IsWhitespace(c)
    ensures Words(w) == if w == [] then [] else [w]
    ensures Words(w + [c] + b) == (if w == [] then [] else [w]) + Words(b)
  {
    LeadingWordEnds(w, []);
    assert w + [] == w;
    var s := w + [c] + b;
    assert s == w + ([c] + b);
    LeadingWordEnds(w, [c] + b);
    assert s[|w|..] == [c] + b && ([c] + b)[1..] == b;
    if w == [] {
      assert s[1..] == b;
    }
  }

  function FoldAll(lower: Lowering, words: seq<string>): (r: seq<string>)
    ensures |r| == |words|
    ensures NoneEmpty(words) ==> NoneEmpty(r)
  {
    if words == [] then [] else
      assert words[0] != [] ==> Fold(lower, words[0]) != [];
      [Fold(lower, words[0])] + FoldAll(lower, words[1..])
  }

  // ---- Matching ----

  /** Start of the first and end of the last part, each part taken leftmost after the one before. */
  function Greedy(parts: seq<string>, text: string, from: nat): Option<Span> {
    if parts == [] then None
    else
      var p := Find(text, parts[0], from);
      if p.None? then None
      else
        var end := p.value + |parts[0]|;
        if |parts| == 1 then Some(Span(p.value, end))
        else
          var rest := Greedy(parts[1..], text, end);
          if rest.None? then None else Some(Span(p.value, rest.value.end))
  }

  /**
   Look for the parts one after the other from `searchFrom` on, mapping each find back; `first` is
   where the match starts in the original text, once known, and `last` where it ends so far.
   */
  function Scan(folded: FoldedText, parts: seq<string>, searchFrom: nat, first: Option<nat>, last: nat): Option<Span> {
    if parts == [] then
      if first.Some? then Some(Span(first.value, last)) else None
    else
      var p := Find(folded.text, parts[0], searchFrom);
      if p.None? then None
      else
        var end := p.value + |parts[0]|;
        var originalStart, originalEnd := folded.OriginalStart(p.value), folded.OriginalEnd(end);
        if originalStart.None? || originalEnd.None? then None
        else Scan(folded, parts[1..], end, if first.Some? then first else originalStart, originalEnd.value)
  }

  function FoldedOf(lower: Lowering, value: string): FoldedText {
    FoldedText(Fold(lower, value), Origins(lower, value))
  }

  /** The match in the original text. */
  function MatchSpan(lower: Lowering, value: string, query: string): Option<Span> {
    Scan(FoldedOf(lower, value), FoldAll(lower, Words(query)), 0, None, 0)
  }

  lemma {:induction false} InOrderEarlier(parts: seq<string>, text: string, from: nat, earlier: nat)
    requires InOrder(parts, text, from) && earlier <= from
    ensures InOrder(parts, text, earlier)
  {
    if parts != [] {
      var p: nat :| from <= p && OccursAt(text, parts[0], p) && InOrder(parts[1..], text, p + |parts[0]|);
    }
  }

  lemma InOrderStep(parts: seq<string>, text: string, from: nat, p: nat)
    requires parts != [] && from <= p && OccursAt(text, parts[0], p) && InOrder(parts[1..], text, p + |parts[0]|)
    ensures InOrder(parts, text, from)
  {
  }

  lemma InOrderFirst(parts: seq<string>, text: string, from: nat) returns (p: nat)
    requires parts != [] && InOrder(parts, text, from)
    ensures from <= p && OccursAt(text, parts[0], p) && InOrder(parts[1..], text, p + |parts[0]|)
  {
    p :| from <= p && OccursAt(text, parts[0], p) && InOrder(parts[1..], text, p + |parts[0]|);
  }

  /** The first part may as well be taken leftmost. */
  lemma LeftmostFirst(parts: seq<string>, text: string, from: nat)
    requires parts != [] && InOrder(parts, text, from)
    ensures var p := Find(text, parts[0], from); p.Some? && InOrder(parts[1..], text, p.value + |parts[0]|)
  {
    var q := InOrderFirst(parts, text, from);
    FindIsLeftmost(text, parts[0], from, q);
    InOrderEarlier(parts[1..], text, q + |parts[0]|, Find(text, parts[0], from).value + |parts[0]|);
  }

  lemma {:induction false} GreedyIsInOrder(parts: seq<string>, text: string, from: nat)
    requires Greedy(parts, text, from).Some?
    ensures InOrder(parts, text, from)
  {
    var p := Find(text, parts[0], from).value;
    if |parts| > 1 {
      GreedyIsInOrder(parts[1..], text, p + |parts[0]|);
    }
    InOrderStep(parts, text, from, p);
  }

  lemma {:induction false} GreedyFinds(parts: seq<string>, text: string, from: nat)
    requires parts != [] && InOrder(parts, text, from)
    ensures Greedy(parts, text, from).Some?
  {
    LeftmostFirst(parts, text, from);
    if |parts| > 1 {
      GreedyFinds(parts[1..], text, Find(text, parts[0], from).value + |parts[0]|);
    }
  }

  /** Taking each part leftmost never misses a match. */
  lemma GreedySuffices(parts: seq<string>, text: string, from: nat)
    requires parts != []
    ensures Greedy(parts, text, from).Some? <==> InOrder(parts, text, from)
  {
    if Greedy(parts, text, from).Some? {
      GreedyIsInOrder(parts, text, from);
    }
    if InOrder(parts, text, from) {
      GreedyFinds(parts, text, from);
    }
  }

  lemma {:induction false} GreedyBounds(parts: seq<string>, text: string, from: nat)
    requires NoneEmpty(parts)
    requires Greedy(parts, text, from).Some?
    ensures var m := Greedy(parts, text, from).value; from <= m.start < m.end <= |text|
  {
    if |parts| > 1 {
      GreedyBounds(parts[1..], text, Find(text, parts[0], from).value + |parts[0]|);
    }
  }

  /** `m` is the stretch `g` of the folded text, mapped back; it starts at `first` if that is known. */
  ghost predicate MapsBack(folded: FoldedText, m: Option<Span>, g: Option<Span>, searchFrom: nat, first: Option<nat>)
    requires |folded.origins| == |folded.text|
  {
    if g.None? then m.None?
    else
      && searchFrom <= g.value.start < g.value.end <= |folded.text|
      && m == Some(Span(if first.Some? then first.value else folded.origins[g.value.start],
                        folded.origins[g.value.end - 1] + 1))
  }

  lemma ScanStep(folded: FoldedText, parts: seq<string>, searchFrom: nat, first: Option<nat>, last: nat)
    requires parts != [] && parts[0] != [] && |folded.origins| == |folded.text|
    requires Find(folded.text, parts[0], searchFrom).Some?
    ensures var p := Find(folded.text, parts[0], searchFrom).value;
      var end := p + |parts[0]|;
      && p < end <= |folded.text|
      && Scan(folded, parts, searchFrom, first, last)
         == Scan(folded, parts[1..], end, if first.Some? then first else Some(folded.origins[p]),
                 folded.origins[end - 1] + 1)
  {
  }

  lemma GreedyStep(parts: seq<string>, text: string, from: nat)
    requires |parts| > 1 && Find(text, parts[0], from).Some?
    ensures var p := Find(text, parts[0], from).value;
      var rest := Greedy(parts[1..], text, p + |parts[0]|);
      Greedy(parts, text, from) == if rest.None? then None else Some(Span(p, rest.value.end))
  {
  }

  /** A stretch that is mapped back may begin with one part more. */
  lemma MapsBackStep(
      folded: FoldedText, m: Option<Span>, rest: Option<Span>, from: nat, p: nat, end: nat, first: Option<nat>)
    requires |folded.origins| == |folded.text| && from <= p < end <= |folded.text|
    requires MapsBack(folded, m, rest, end, if first.Some? then first else Some(folded.origins[p]))
    ensures MapsBack(folded, m, if rest.None? then None else Some(Span(p, rest.value.end)), from, first)
  {
  }

  /** Scanning is the greedy match with its ends mapped back. */
  lemma {:induction false} ScanIsGreedy(
      folded: FoldedText, parts: seq<string>, searchFrom: nat, first: Option<nat>, last: nat)
    requires parts != [] && NoneEmpty(parts) && |folded.origins| == |folded.text|
    ensures MapsBack(folded, Scan(folded, parts, searchFrom, first, last), Greedy(parts, folded.text, searchFrom),
      searchFrom, first)
  {
    var p := Find(folded.text, parts[0], searchFrom);
    if p.Some? {
      var end := p.value + |parts[0]|;
      ScanStep(folded, parts, searchFrom, first, last);
      if |parts| > 1 {
        var start := if first.Some? then first else Some(folded.origins[p.value]);
        var last' := folded.origins[end - 1] + 1;
        assert NoneEmpty(parts[1..]);
        ScanIsGreedy(folded, parts[1..], end, start, last');
        GreedyStep(parts, folded.text, searchFrom);
        MapsBackStep(folded, Scan(folded, parts[1..], end, start, last'), Greedy(parts[1..], folded.text, end),
                     searchFrom, p.value, end, first);
      } else {
        assert parts[1..] == [];
      }
    }
  }

  lemma OccursInside(text: string, part: string, p: nat, low: nat, high: nat)
    requires OccursAt(text, part, p) && low <= p && p + |part| <= high <= |text|
    ensures OccursAt(text[low..high], part, p - low)
  {
    var stretch := text[low..high];
    forall i | 0 <= i < |part| ensures stretch[p - low..p - low + |part|][i] == part[i] {
      assert text[p..p + |part|][i] == text[p + i];
    }
  }

  /** The matched stretch alone still holds the parts in order. */
  lemma {:induction false} GreedyInside(parts: seq<string>, text: string, from: nat, low: nat, high: nat)
    requires NoneEmpty(parts)
    requires Greedy(parts, text, from).Some?
    requires low <= from && Greedy(parts, text, from).value.end <= high <= |text|
    requires from <= high
    ensures InOrder(parts, text[low..high], from - low)
  {
    GreedyBounds(parts, text, from);
    var p := Find(text, parts[0], from).value;
    var end := p + |parts[0]|;
    if |parts| > 1 {
      GreedyBounds(parts[1..], text, end);
      GreedyInside(parts[1..], text, end, low, high);
    }
    OccursInside(text, parts[0], p, low, high);
    InOrderStep(parts, text[low..high], from - low, p - low);
  }

  lemma {:induction false} GreedyFromFirst(parts: seq<string>, text: string, from: nat)
    requires Greedy(parts, text, from).Some?
    ensures var m := Greedy(parts, text, from).value;
      Greedy(parts, text, m.start) == Some(m)
  {
    var p := Find(text, parts[0], from).value;
    assert Find(text, parts[0], p) == Some(p);
  }

  /**
   A query matches exactly when its folded words occur in order, without overlap, in the folded
   text; taking each leftmost is enough, and mapping back never fails.
   */
  lemma MatchIsWordsInOrder(lower: Lowering, value: string, query: string)
    ensures MatchSpan(lower, value, query).Some? <==>
            Words(query) != [] && InOrder(FoldAll(lower, Words(query)), Fold(lower, value), 0)
  {
    var parts := FoldAll(lower, Words(query));
    if parts != [] {
      ScanIsGreedy(FoldedOf(lower, value), parts, 0, None, 0);
      GreedySuffices(parts, Fold(lower, value), 0);
    }
  }

  lemma FoldOfRange(lower: Lowering, value: string, start: nat, end: nat)
    requires start <= end <= |value|
    ensures var low, high := |Fold(lower, value[..start])|, |Fold(lower, value[..end])|;
      low <= high <= |Fold(lower, value)| && Fold(lower, value[start..end]) == Fold(lower, value)[low..high]
  {
    assert value == value[..end] + value[end..];
    FoldConcat(lower, value[..end], value[end..]);
    assert value[..end] == value[..start] + value[start..end];
    FoldConcat(lower, value[..start], value[start..end]);
  }

  /** Mapping a stretch of folded text back covers it. */
  lemma OriginalCovers(lower: Lowering, value: string, g: Span)
    requires g.start < g.end <= |Fold(lower, value)|
    ensures var o := Origins(lower, value);
      var start, end := o[g.start], o[g.end - 1] + 1;
      start < end <= |value| && |Fold(lower, value[..start])| <= g.start && g.end <= |Fold(lower, value[..end])|
  {
    OriginsAscend(lower, value, g.start, g.end - 1);
    OriginBrackets(lower, value, g.start);
    OriginBrackets(lower, value, g.end - 1);
  }

  /**
   The range given back is a non-empty range of the original text whose own folded form holds the
   query's folded words in order, even where folding changes lengths.
   */
  lemma MatchedRangeMatches(lower: Lowering, value: string, query: string)
    requires MatchSpan(lower, value, query).Some?
    ensures var m := MatchSpan(lower, value, query).value;
      && m.start < m.end <= |value|
      && InOrder(FoldAll(lower, Words(query)), Fold(lower, value[m.start..m.end]), 0)
  {
    var parts, text := FoldAll(lower, Words(query)), Fold(lower, value);
    ScanIsGreedy(FoldedOf(lower, value), parts, 0, None, 0);
    var g := Greedy(parts, text, 0).value;
    var m := MatchSpan(lower, value, query).value;
    OriginalCovers(lower, value, g);
    FoldOfRange(lower, value, m.start, m.end);
    var low, high := |Fold(lower, value[..m.start])|, |Fold(lower, value[..m.end])|;
    GreedyFromFirst(parts, text, 0);
    GreedyInside(parts, text, g.start, low, high);
    InOrderEarlier(parts, text[low..high], g.start - low, 0);
  }

  lemma FoldsNext(lower: Lowering, words: seq<string>, i: nat)
    requires i < |words|
    ensures var parts := FoldAll(lower, words[i..]);
      parts != [] && parts[0] == Fold(lower, words[i]) && parts[1..] == FoldAll(lower, words[i + 1..])
  {
    assert words[i..][0] == words[i] && words[i..][1..] == words[i + 1..];
  }

  /** The matcher as it runs: one pass over the words, remembering where to search from. */
  method ComputeMatchSpan(lower: Lowering, value: string, query: string) returns (span: Option<Span>)
    ensures span == MatchSpan(lower, value, query)
  {
    var folded := NewFoldedText(lower, value);
    var words := Words(query);
    var searchFrom: nat := 0;
    var first: Option<nat> := None;
    var last: nat := 0;
    for i := 0 to |words|
      invariant Scan(folded, FoldAll(lower, words[i..]), searchFrom, first, last) == MatchSpan(lower, value, query)
    {
      var part := Fold(lower, words[i]);
      FoldsNext(lower, words, i);
      var found := Find(folded.text, part, searchFrom);
      if found.None? {
        return None;
      }
      var start, end := folded.OriginalStart(found.value), folded.OriginalEnd(found.value + |part|);
      if start.None? || end.None? {
        return None;
      }
      last := end.value;
      if first.None? {
        first := start;
      }
      searchFrom := found.value + |part|;
    }
    return if first.Some? then Some(Span(first.value, last)) else None;
  }

  // ---- Ranking and reporting ----

  function MatchRank(lower: Lowering, title: string, path: string, body: string, query: string): nat {
    if Fold(lower, title) == Fold(lower, query) then 0
    else if MatchSpan(lower, title, query).Some? then 1
    else if MatchSpan(lower, path, query).Some? then 2
    else if MatchSpan(lower, body, query).Some? then 3
    else 4
  }

  datatype MatchField = Title | Path | Body

  datatype SearchResult = SearchResult(field: MatchField, span: Span)

  /** Which field is reported as matching, and where; a body without a match is reported at its start. */
  function Report(lower: Lowering, title: string, path: string, body: string, query: string): SearchResult {
    var inTitle, inPath := MatchSpan(lower, title, query), MatchSpan(lower, path, query);
    var inBody := MatchSpan(lower, body, query);
    if inTitle.Some? then SearchResult(Title, inTitle.value)
    else if inPath.Some? then SearchResult(Path, inPath.value)
    else SearchResult(Body, if inBody.Some? then inBody.value else Span(0, 0))
  }

  function Field(r: SearchResult, title: string, path: string, body: string): string {
    match r.field
    case Title => title
    case Path => path
    case Body => body
  }

  lemma {:induction false} InOrderShifted(parts: seq<string>, before: string, text: string, from: nat)
    requires InOrder(parts, text, from)
    ensures InOrder(parts, before + text, |before| + from)
  {
    if parts != [] {
      var p: nat :| from <= p && OccursAt(text, parts[0], p) && InOrder(parts[1..], text, p + |parts[0]|);
      InOrderShifted(parts[1..], before, text, p + |parts[0]|);
      var q := |before| + p;
      forall i | 0 <= i < |parts[0]| ensures (before + text)[q..q + |parts[0]|][i] == parts[0][i] {
        assert text[p..p + |parts[0]|][i] == text[p + i];
      }
      InOrderStep(parts, before + text, |before| + from, q);
    }
  }

  /** A text holds its own words in order. */
  lemma {:induction false} HoldsOwnWords(lower: Lowering, s: string)
    ensures InOrder(FoldAll(lower, Words(s)), Fold(lower, s), 0)
    decreases |s|
  {
    if s == [] {
    } else if IsWhitespace(s[0]) {
      HoldsOwnWords(lower, s[1..]);
      SplitOff(lower, [s[0]], s[1..]);
      assert s == [s[0]] + s[1..];
    } else {
      var w := LeadingWord(s);
      var rest := s[|w|..];
      HoldsOwnWords(lower, rest);
      assert s == w + rest;
      var parts := FoldAll(lower, Words(s));
      assert Words(s) == [w] + Words(rest);
      assert parts[0] == Fold(lower, w) && parts[1..] == FoldAll(lower, Words(rest));
      FoldConcat(lower, w, rest);
      InOrderShifted(parts[1..], Fold(lower, w), Fold(lower, rest), 0);
      InOrderStep(parts, Fold(lower, s), 0, 0);
    }
  }

  lemma SplitOff(lower: Lowering, before: string, rest: string)
    requires InOrder(FoldAll(lower, Words(rest)), Fold(lower, rest), 0)
    ensures InOrder(FoldAll(lower, Words(rest)), Fold(lower, before + rest), 0)
  {
    FoldConcat(lower, before, rest);
    InOrderShifted(FoldAll(lower, Words(rest)), Fold(lower, before), Fold(lower, rest), 0);
    InOrderEarlier(FoldAll(lower, Words(rest)), Fold(lower, before + rest), |Fold(lower, before)|, 0);
  }

  /**
   For a query with a word in it, rank and report agree: a rank below 4 means the reported field
   matches, and it is the title for ranks 0 and 1, the path for 2, the body for 3. Rank 0 says that
   the title is the query, but for case.
   */
  lemma RankAndReportAgree(lower: Lowering, title: string, path: string, body: string, query: string)
    requires Words(query) != []
    ensures var rank := MatchRank(lower, title, path, body, query);
      var r := Report(lower, title, path, body, query);
      && (rank <= 1 <==> r.field == Title)
      && (rank == 2 <==> r.field == Path)
      && (rank >= 3 <==> r.field == Body)
      && (rank < 4 <==> MatchSpan(lower, Field(r, title, path, body), query) == Some(r.span))
      && (rank <= 4 && (rank == 4 ==> r.span == Span(0, 0)))
      && (rank == 0 <==> Fold(lower, title) == Fold(lower, query))
  {
    if Fold(lower, title) == Fold(lower, query) {
      HoldsOwnWords(lower, query);
      MatchIsWordsInOrder(lower, title, query);
    }
  }

  // ---- Which match it is ----

  /** A character folds to what it is lower-cased to; with `FoldConcat` this says what folding is. */
  lemma FoldOfChar(lower: Lowering, c: char)
    ensures Fold(lower, [c]) == lower(c) && Fold(lower, []) == []
  {
    assert [c][..0] == [];
  }

  lemma OccursEarlier(text: string, part: string, p: nat, end: nat)
    requires end <= |text| && OccursAt(text[..end], part, p)
    ensures OccursAt(text, part, p)
  {
    assert text[..end][p..p + |part|] == text[p..p + |part|];
  }

  /** Of all matches the greedy one starts at the first occurrence of the first part. */
  lemma GreedyStartsFirst(parts: seq<string>, text: string, from: nat, p: nat)
    requires parts != [] && Greedy(parts, text, from).Some? && from <= p && OccursAt(text, parts[0], p)
    ensures var m := Greedy(parts, text, from).value; m.start <= p && OccursAt(text, parts[0], m.start)
  {
    FindIsLeftmost(text, parts[0], from, p);
  }

  lemma FoundEarlier(text: string, part: string, from: nat, p: nat, end: nat)
    requires end <= |text| && from <= p && OccursAt(text[..end], part, p)
    ensures var q := Find(text, part, from); q.Some? && q.value <= p
  {
    OccursEarlier(text, part, p, end);
    FindIsLeftmost(text, part, from, p);
  }

  /** And no match ends before it. */
  lemma {:induction false} GreedyEndsFirst(parts: seq<string>, text: string, from: nat, end: nat)
    requires parts != [] && end <= |text| && InOrder(parts, text[..end], from)
    ensures var m := Greedy(parts, text, from); m.Some? && m.value.end <= end
  {
    var p := InOrderFirst(parts, text[..end], from);
    FoundEarlier(text, parts[0], from, p, end);
    var q := Find(text, parts[0], from).value;
    if |parts| > 1 {
      InOrderEarlier(parts[1..], text[..end], p + |parts[0]|, q + |parts[0]|);
      GreedyEndsFirst(parts[1..], text, q + |parts[0]|, end);
      GreedyStep(parts, text, from);
    }
  }

  /** And the match in the original text is that one, mapped back. */
  lemma MatchIsTheGreedyOne(lower: Lowering, value: string, query: string)
    requires MatchSpan(lower, value, query).Some?
    ensures var g := Greedy(FoldAll(lower, Words(query)), Fold(lower, value), 0);
      && g.Some? && g.value.start < g.value.end <= |Origins(lower, value)|
      && MatchSpan(lower, value, query)
         == Some(Span(Origins(lower, value)[g.value.start], Origins(lower, value)[g.value.end - 1] + 1))
  {
    var parts := FoldAll(lower, Words(query));
    ScanIsGreedy(FoldedOf(lower, value), parts, 0, None, 0);
  }
}
