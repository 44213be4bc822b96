/**
 What building the board computes, as functions of values: counting hidden descendants,
 expanding one item under the depth limit and the node budget, and collecting the forest.
 */
module BoardSpec {
  import opened Text
  import opened BoardModel

  // ---- Counting hidden descendants ----

  /** A work list of items to scan, the URLs seen so far, how many were newly seen. */
  datatype Scan = Scan(stack: seq<Item>, seen: set<Url>, count: nat, capped: bool)

  /** Scan one item's sub-issues: count the new ones, queue those that are listed. */
  function ScanSubs(index: Index, subs: seq<SubIssue>, stack: seq<Item>, seen: set<Url>, count: nat): Scan
  {
    if subs == [] then Scan(stack, seen, count, false)
    else
      var u := subs[0].url;
      if u in seen then ScanSubs(index, subs[1..], stack, seen, count)
      else if count + 1 >= MAX_COUNT_NODES then Scan(stack, seen + {u}, count + 1, true)
      else
        ScanSubs(index, subs[1..], if u in index then stack + [index[u]] else stack, seen + {u}, count + 1)
  }

  lemma {:induction false} ScanSubsProgress(
      index: Index, subs: seq<SubIssue>, stack: seq<Item>, seen: set<Url>, count: nat)
    ensures var s := ScanSubs(index, subs, stack, seen, count);
      && seen <= s.seen
      && (s.stack == stack || index.Keys - s.seen < index.Keys - seen)
  {
    if subs == [] {
    } else {
      var u := subs[0].url;
      if u in seen {
        ScanSubsProgress(index, subs[1..], stack, seen, count);
      } else if count + 1 < MAX_COUNT_NODES {
        ScanSubsProgress(index, subs[1..], if u in index then stack + [index[u]] else stack, seen + {u}, count + 1);
        if u in index {
          assert u in index.Keys - seen;
        }
      }
    }
  }

  /** Scan from the top of the stack until it is empty or the count reaches its budget. */
  function ScanAll(index: Index, stack: seq<Item>, seen: set<Url>, count: nat): Scan
    decreases index.Keys - seen, |stack|
  {
    if stack == [] then Scan([], seen, count, false)
    else
      var top, below := stack[|stack| - 1], stack[..|stack| - 1];
      var s := ScanSubs(index, top.subIssues, below, seen, count);
      ScanSubsProgress(index, top.subIssues, below, seen, count);
      assert s.stack == below || index.Keys - s.seen < index.Keys - seen;
      if s.capped then s else
      assert index.Keys - s.seen <= index.Keys - seen;
      ScanAll(index, s.stack, s.seen, s.count)
  }

  /** The result of counting below `item`, with `seen` already accounted for. */
  function CountBelow(index: Index, item: Item, seen: set<Url>): Scan {
    ScanAll(index, [item], seen, 0)
  }

  // ---- Expanding one item ----

  /** The shared accumulators of one synchronisation. */
  datatype Acc = Acc(skipped: nat, truncated: bool, rendered: set<Url>, capped: bool, count: nat)

  datatype Built = Built(trees: seq<Issue>, cut: bool, acc: Acc)

  function Entered(item: Item, acc: Acc): Acc {
    acc.(count := acc.count + 1, rendered := acc.rendered + {item.url})
  }

  /** The node budget is used up: the item and what is below it are only counted. */
  function OverBudget(index: Index, item: Item, acc: Acc): Built {
    var s := CountBelow(index, item, acc.rendered);
    Built([], true, acc.(skipped := acc.skipped + s.count + 1, rendered := s.seen, truncated := true, capped := true))
  }

  /** The depth limit is reached: what is below the item is only counted. */
  function CutBelow(index: Index, item: Item, acc: Acc): Acc {
    var s := CountBelow(index, item, acc.rendered);
    acc.(skipped := acc.skipped + s.count,
         rendered := s.seen,
         truncated := acc.truncated || item.subIssues != [],
         capped := acc.capped || s.capped)
  }

  /** An item without a recognised status is dropped and its children take its place. */
  function Finish(item: Item, hidden: bool, below: Built): Built {
    if StatusOf(item).Some?
    then Built([Shown(item, below.trees, hidden || below.cut)], below.cut, below.acc)
    else below.(acc := below.acc.(skipped := below.acc.skipped + 1))
  }

  function Build(index: Index, item: Item, visiting: set<Url>, depth: nat, acc: Acc): Built
    decreases MAX_TREE_DEPTH - depth, 1, 0
  {
    var acc := Entered(item, acc);
    if acc.count > MAX_COUNT_NODES then OverBudget(index, item, acc)
    else if depth >= MAX_TREE_DEPTH then
      Finish(item, item.subIssues != [], Built([], false, CutBelow(index, item, acc)))
    else
      Finish(item, false, BuildChildren(index, item.subIssues, visiting, depth, acc))
  }

  function BuildChildren(index: Index, subs: seq<SubIssue>, visiting: set<Url>, depth: nat, acc: Acc): Built
    requires depth < MAX_TREE_DEPTH
    decreases MAX_TREE_DEPTH - depth, 0, |subs|
  {
    if subs == [] then Built([], false, acc)
    else
      var u := subs[0].url;
      if u in visiting || u !in index then
        BuildChildren(index, subs[1..], visiting, depth, acc.(skipped := acc.skipped + 1))
      else
        var first := Build(index, index[u], visiting + {u}, depth + 1, acc);
        var rest := BuildChildren(index, subs[1..], visiting, depth, first.acc);
        Built(first.trees + rest.trees, first.cut || rest.cut, rest.acc)
  }

  // ---- Collecting the forest ----

  function SubUrls(subs: seq<SubIssue>): set<Url> {
    set s | s in subs :: s.url
  }

  function ItemUrls(items: seq<Item>): set<Url> {
    set i | i in items :: i.url
  }

  /** The URLs that are somebody's sub-issue. */
  function ChildUrls(items: seq<Item>): set<Url> {
    set i, s | i in items && s in i.subIssues :: s.url
  }

  /** Items by URL; of several items with one URL the last is kept. */
  function IndexOf(items: seq<Item>): (index: Index)
    ensures forall u | u in index :: index[u] in items
    ensures forall i | i in items :: i.url in index
  {
    if items == [] then map[]
    else
      var n := |items| - 1;
      assert items == items[..n] + [items[n]];
      IndexOf(items[..n])[items[n].url := items[n]]
  }

  /** Forest collected so far. */
  datatype Pass = Pass(issues: seq<Issue>, acc: Acc)

  /** Expand one item as a root. */
  function BuildRoot(index: Index, item: Item, acc: Acc): Built {
    Build(index, item, {item.url}, 0, acc.(rendered := acc.rendered + {item.url}))
  }

  /** Expand, in order, every item outside `excluded` that was not reached before. */
  function RootPass(index: Index, items: seq<Item>, excluded: set<Url>, acc: Acc): Pass {
    if items == [] then Pass([], acc)
    else if items[0].url in excluded || items[0].url in acc.rendered then
      RootPass(index, items[1..], excluded, acc)
    else
      var first := BuildRoot(index, items[0], acc);
      var rest := RootPass(index, items[1..], excluded, first.acc);
      Pass(first.trees + rest.issues, rest.acc)
  }

  /** How many entries of the list were never reached. */
  function Unreached(items: seq<Item>, rendered: set<Url>): nat {
    if items == [] then 0
    else (if items[0].url in rendered then 0 else 1) + Unreached(items[1..], rendered)
  }

  /** Roots are expanded first; then, if the budget held, the first unreached items in order. */
  function Collect(items: seq<Item>, skipped: nat, truncated: bool): Pass {
    var index := IndexOf(items);
    var first := RootPass(index, items, ChildUrls(items), Acc(skipped, truncated, {}, false, 0));
    if first.acc.capped then
      Pass(first.issues, first.acc.(skipped := first.acc.skipped + Unreached(items, first.acc.rendered)))
    else
      var second := RootPass(index, items, {}, first.acc);
      Pass(first.issues + second.issues, second.acc)
  }

  /** Of several items with one URL the last one is looked up. */
  lemma {:induction false} IndexKeepsTheLast(items: seq<Item>, i: nat)
    requires i < |items| && forall j | i < j < |items| :: items[j].url != items[i].url
    ensures items[i].url in IndexOf(items) && IndexOf(items)[items[i].url] == items[i]
  {
    var n := |items| - 1;
    if i < n {
      IndexKeepsTheLast(items[..n], i);
    }
  }
}
