/** Nothing disappears from the board without being counted. */
module BoardAccounting {
  import opened Text
  import opened BoardModel
  import opened BoardSpec
  import opened SetFacts

  // ---- Counting hidden descendants ----

  lemma SubUrlsStep(subs: seq<SubIssue>)
    requires subs != []
    ensures SubUrls(subs) == {subs[0].url} + SubUrls(subs[1..])
  {
    assert subs == [subs[0]] + subs[1..];
  }

  /** What a scan sees, and that a scan within the budget sees every sub-issue. */
  lemma {:induction false} ScanSubsSees(index: Index, subs: seq<SubIssue>, stack: seq<Item>, seen: set<Url>, count: nat)
    ensures var s := ScanSubs(index, subs, stack, seen, count);
      && seen <= s.seen <= seen + SubUrls(subs)
      && (!s.capped ==> s.seen == seen + SubUrls(subs))
  {
    if subs != [] {
      var u := subs[0].url;
      SubUrlsStep(subs);
      if u in seen {
        ScanSubsSees(index, subs[1..], stack, seen, count);
      } else if count + 1 < MAX_COUNT_NODES {
        ScanSubsSees(index, subs[1..], if u in index then stack + [index[u]] else stack, seen + {u}, count + 1);
      }
    }
  }

  /** Every URL newly put in `seen` is counted once. */
  lemma {:induction false} ScanSubsCounts(
      index: Index, subs: seq<SubIssue>, stack: seq<Item>, seen: set<Url>, count: nat)
    requires count < MAX_COUNT_NODES
    ensures var s := ScanSubs(index, subs, stack, seen, count);
      && s.count == count + |s.seen - seen| <= MAX_COUNT_NODES
      && (s.capped <==> s.count == MAX_COUNT_NODES)
  {
    if subs == [] {
      assert seen - seen == {};
    } else {
      var u := subs[0].url;
      if u in seen {
        ScanSubsCounts(index, subs[1..], stack, seen, count);
      } else if count + 1 >= MAX_COUNT_NODES {
        assert seen + {u} - seen == {u};
      } else {
        var stack' := if u in index then stack + [index[u]] else stack;
        var s := ScanSubs(index, subs[1..], stack', seen + {u}, count + 1);
        ScanSubsCounts(index, subs[1..], stack', seen + {u}, count + 1);
        ScanSubsSees(index, subs[1..], stack', seen + {u}, count + 1);
        DifferenceStep(s.seen, seen, u);
      }
    }
  }

  lemma {:induction false} ScanAllCounts(index: Index, stack: seq<Item>, seen: set<Url>, count: nat)
    requires count < MAX_COUNT_NODES
    ensures var s := ScanAll(index, stack, seen, count);
      && seen <= s.seen
      && s.count == count + |s.seen - seen|
      && s.count <= MAX_COUNT_NODES
      && (s.capped <==> s.count == MAX_COUNT_NODES)
    decreases index.Keys - seen, |stack|
  {
    if stack == [] {
      assert seen - seen == {};
    } else {
      var top, below := stack[|stack| - 1], stack[..|stack| - 1];
      var s := ScanSubs(index, top.subIssues, below, seen, count);
      ScanSubsProgress(index, top.subIssues, below, seen, count);
      ScanSubsSees(index, top.subIssues, below, seen, count);
      ScanSubsCounts(index, top.subIssues, below, seen, count);
      if !s.capped {
        ScanAllCounts(index, s.stack, s.seen, s.count);
        var t := ScanAll(index, s.stack, s.seen, s.count);
        assert t.seen - seen == (t.seen - s.seen) + (s.seen - seen);
      }
    }
  }

  /** The count is the number of URLs newly recorded, and it stops exactly at the budget. */
  lemma CountBelowIsExact(index: Index, item: Item, seen: set<Url>)
    ensures var s := CountBelow(index, item, seen);
      && seen <= s.seen
      && s.count == |s.seen - seen| <= MAX_COUNT_NODES
      && (s.capped <==> s.count == MAX_COUNT_NODES)
      && (item.subIssues == [] ==> s == Scan([], seen, 0, false))
  {
    ScanAllCounts(index, [item], seen, 0);
    if item.subIssues == [] {
      assert [item][..0] == [];
    }
  }

  /** Below `item`, `c` leaves only through `seen`. */
  ghost predicate ClosedBelow(index: Index, item: Item, seen: set<Url>, c: set<Url>) {
    && SubUrls(item.subIssues) <= c + seen
    && forall u | u in c && u in index :: SubUrls(index[u].subIssues) <= c + seen
  }

  /** Scanning queues exactly the listed items among the newly seen URLs. */
  lemma {:induction false} ScanSubsQueues(
      index: Index, subs: seq<SubIssue>, stack: seq<Item>, seen: set<Url>, count: nat)
    ensures var s := ScanSubs(index, subs, stack, seen, count);
      && (forall i | i in stack :: i in s.stack)
      && (forall i | i in s.stack :: i in stack || (i.url in s.seen - seen && i.url in index && index[i.url] == i))
      && (!s.capped ==> forall u | u in s.seen - seen && u in index :: index[u] in s.stack)
  {
    if subs != [] {
      var u := subs[0].url;
      if u in seen {
        ScanSubsQueues(index, subs[1..], stack, seen, count);
      } else if count + 1 < MAX_COUNT_NODES {
        var stack' := if u in index then stack + [index[u]] else stack;
        ScanSubsQueues(index, subs[1..], stack', seen + {u}, count + 1);
        ScanSubsSees(index, subs[1..], stack', seen + {u}, count + 1);
      }
    }
  }

  lemma {:induction false} ScanAllCloses(index: Index, stack: seq<Item>, seen: set<Url>, count: nat)
    requires !ScanAll(index, stack, seen, count).capped
    ensures var s := ScanAll(index, stack, seen, count);
      && seen <= s.seen
      && (forall i | i in stack :: SubUrls(i.subIssues) <= s.seen)
      && (forall u | u in s.seen - seen && u in index :: SubUrls(index[u].subIssues) <= s.seen)
    decreases index.Keys - seen, |stack|
  {
    if stack != [] {
      var top, below := stack[|stack| - 1], stack[..|stack| - 1];
      var s := ScanSubs(index, top.subIssues, below, seen, count);
      ScanSubsProgress(index, top.subIssues, below, seen, count);
      ScanSubsSees(index, top.subIssues, below, seen, count);
      ScanSubsQueues(index, top.subIssues, below, seen, count);
      ScanAllCloses(index, s.stack, s.seen, s.count);
      assert forall i | i in stack :: i == top || i in below;
    }
  }

  lemma {:induction false} ScanAllStaysInside(index: Index, stack: seq<Item>, seen: set<Url>, count: nat, c: set<Url>)
    requires forall i | i in stack :: SubUrls(i.subIssues) <= c
    requires forall u | u in c - seen && u in index :: SubUrls(index[u].subIssues) <= c
    requires seen <= c
    ensures ScanAll(index, stack, seen, count).seen <= c
    decreases index.Keys - seen, |stack|
  {
    if stack != [] {
      var top, below := stack[|stack| - 1], stack[..|stack| - 1];
      var s := ScanSubs(index, top.subIssues, below, seen, count);
      ScanSubsProgress(index, top.subIssues, below, seen, count);
      ScanSubsSees(index, top.subIssues, below, seen, count);
      ScanSubsQueues(index, top.subIssues, below, seen, count);
      if !s.capped {
        ScanAllStaysInside(index, s.stack, s.seen, s.count, c);
      }
    }
  }

  /**
   Within the budget, the newly recorded URLs are exactly those reachable from the item through
   nodes not seen before: they are closed under that reachability and lie in every closed set.
   */
  lemma CountBelowIsReachability(index: Index, item: Item, seen: set<Url>)
    ensures var s := CountBelow(index, item, seen);
      && (!s.capped ==> ClosedBelow(index, item, seen, s.seen - seen))
      && (forall c | ClosedBelow(index, item, seen, c) :: s.seen - seen <= c)
  {
    var s := CountBelow(index, item, seen);
    CountBelowIsExact(index, item, seen);
    if !s.capped {
      ScanAllCloses(index, [item], seen, 0);
      assert item in [item];
    }
    forall c | ClosedBelow(index, item, seen, c) ensures s.seen - seen <= c {
      ScanAllStaysInside(index, [item], seen, 0, c + seen);
    }
  }

  // ---- Expanding one item ----

  /** Rendering only records more, and everything shown is recorded. */
  lemma {:induction false} BuildRecords(index: Index, item: Item, visiting: set<Url>, depth: nat, acc: Acc)
    ensures var b := Build(index, item, visiting, depth, acc);
      && acc.rendered + {item.url} + Urls(b.trees) <= b.acc.rendered
    decreases MAX_TREE_DEPTH - depth, 1, 0
  {
    var entered := Entered(item, acc);
    CountBelowIsExact(index, item, entered.rendered);
    if entered.count <= MAX_COUNT_NODES && depth < MAX_TREE_DEPTH {
      BuildChildrenRecords(index, item.subIssues, visiting, depth, entered);
    }
  }

  lemma {:induction false} BuildChildrenRecords(
      index: Index, subs: seq<SubIssue>, visiting: set<Url>, depth: nat, acc: Acc)
    requires depth < MAX_TREE_DEPTH
    ensures var b := BuildChildren(index, subs, visiting, depth, acc);
      && acc.rendered + Urls(b.trees) <= b.acc.rendered
    decreases MAX_TREE_DEPTH - depth, 0, |subs|
  {
    if subs != [] {
      var u := subs[0].url;
      if u in visiting || u !in index {
        BuildChildrenRecords(index, subs[1..], visiting, depth, acc.(skipped := acc.skipped + 1));
      } else {
        BuildRecords(index, index[u], visiting + {u}, depth + 1, acc);
        var first := Build(index, index[u], visiting + {u}, depth + 1, acc);
        BuildChildrenRecords(index, subs[1..], visiting, depth, first.acc);
        UrlsConcat(first.trees, BuildChildren(index, subs[1..], visiting, depth, first.acc).trees);
      }
    }
  }

  /** What was newly recorded but is not shown. */
  ghost function Lost(before: set<Url>, b: Built): set<Url> {
    (b.acc.rendered - before) - Urls(b.trees)
  }

  /** Dropping an item for want of a status costs one more; showing it costs nothing. */
  lemma FinishPays(item: Item, hidden: bool, below: Built, before: set<Url>, skipped: nat)
    requires skipped <= below.acc.skipped
    requires |Lost(before + {item.url}, below)| <= below.acc.skipped - skipped
    ensures var b := Finish(item, hidden, below);
      |Lost(before, b) + ({item.url} - Urls(b.trees))| <= b.acc.skipped - skipped
  {
    var b := Finish(item, hidden, below);
    var lost, lostBelow := Lost(before, b) + ({item.url} - Urls(b.trees)), Lost(before + {item.url}, below);
    FinishUrls(item, hidden, below);
    if StatusOf(item).Some? {
      assert lost <= lostBelow;
      SubsetSize(lost, lostBelow);
    } else {
      assert lost <= lostBelow + {item.url};
      CoverSize(lost, lostBelow, {item.url});
    }
  }

  lemma FinishUrls(item: Item, hidden: bool, below: Built)
    ensures var b := Finish(item, hidden, below);
      && b.acc.rendered == below.acc.rendered
      && Urls(b.trees) == if StatusOf(item).Some? then {item.url} + Urls(below.trees) else Urls(below.trees)
  {
    if StatusOf(item).Some? {
      SingleIssue(Shown(item, below.trees, hidden));
    }
  }

  /** Every URL an expansion reaches and does not show is paid for in `skipped`, the item's own included. */
  lemma {:induction false} BuildPays(index: Index, item: Item, visiting: set<Url>, depth: nat, acc: Acc)
    ensures var b := Build(index, item, visiting, depth, acc);
      |Lost(acc.rendered, b) + ({item.url} - Urls(b.trees))| <= b.acc.skipped - acc.skipped
    decreases MAX_TREE_DEPTH - depth, 1, 0
  {
    var b := Build(index, item, visiting, depth, acc);
    var entered := Entered(item, acc);
    if entered.count > MAX_COUNT_NODES || depth >= MAX_TREE_DEPTH {
      var s := CountBelow(index, item, entered.rendered);
      CountBelowIsExact(index, item, entered.rendered);
      if entered.count > MAX_COUNT_NODES {
        CoverSize(Lost(acc.rendered, b) + ({item.url} - Urls(b.trees)), s.seen - entered.rendered, {item.url});
      } else {
        var below := Built([], false, CutBelow(index, item, entered));
        assert Lost(entered.rendered, below) == s.seen - entered.rendered;
        FinishPays(item, item.subIssues != [], below, acc.rendered, acc.skipped);
      }
    } else {
      BuildChildrenPays(index, item.subIssues, visiting, depth, entered);
      FinishPays(item, false, BuildChildren(index, item.subIssues, visiting, depth, entered), acc.rendered,
        acc.skipped);
    }
  }

  lemma {:induction false} BuildChildrenPays(
      index: Index, subs: seq<SubIssue>, visiting: set<Url>, depth: nat, acc: Acc)
    requires depth < MAX_TREE_DEPTH
    ensures var b := BuildChildren(index, subs, visiting, depth, acc);
      |Lost(acc.rendered, b)| <= b.acc.skipped - acc.skipped
    decreases MAX_TREE_DEPTH - depth, 0, |subs|
  {
    var b := BuildChildren(index, subs, visiting, depth, acc);
    if subs == [] {
      assert Lost(acc.rendered, b) == {};
    } else {
      var u := subs[0].url;
      if u in visiting || u !in index {
        BuildChildrenPays(index, subs[1..], visiting, depth, acc.(skipped := acc.skipped + 1));
      } else {
        var first := Build(index, index[u], visiting + {u}, depth + 1, acc);
        var rest := BuildChildren(index, subs[1..], visiting, depth, first.acc);
        BuildPays(index, index[u], visiting + {u}, depth + 1, acc);
        BuildChildrenPays(index, subs[1..], visiting, depth, first.acc);
        UrlsConcat(first.trees, rest.trees);
        SubsetSize(Lost(acc.rendered, first), Lost(acc.rendered, first) + ({u} - Urls(first.trees)));
        CoverSize(Lost(acc.rendered, b), Lost(acc.rendered, first), Lost(first.acc.rendered, rest));
      }
    }
  }

  // ---- The whole board ----

  /** One pass reaches every item it does not exclude and pays for what it does not show. */
  lemma {:induction false} RootPassPays(index: Index, items: seq<Item>, excluded: set<Url>, acc: Acc)
    ensures var p := RootPass(index, items, excluded, acc);
      && acc.rendered + Urls(p.issues) <= p.acc.rendered
      && ItemUrls(items) - excluded <= p.acc.rendered
      && |(p.acc.rendered - acc.rendered) - Urls(p.issues)| <= p.acc.skipped - acc.skipped
  {
    var p := RootPass(index, items, excluded, acc);
    if items == [] {
      assert (p.acc.rendered - acc.rendered) - Urls(p.issues) == {};
    } else {
      var u := items[0].url;
      assert ItemUrls(items) == {u} + ItemUrls(items[1..]) by {
        assert items == [items[0]] + items[1..];
      }
      if u in excluded || u in acc.rendered {
        RootPassPays(index, items[1..], excluded, acc);
      } else {
        var start := acc.(rendered := acc.rendered + {u});
        var first := BuildRoot(index, items[0], acc);
        var rest := RootPass(index, items[1..], excluded, first.acc);
        BuildRecords(index, items[0], {u}, 0, start);
        BuildPays(index, items[0], {u}, 0, start);
        RootPassPays(index, items[1..], excluded, first.acc);
        UrlsConcat(first.trees, rest.issues);
        CoverSize((p.acc.rendered - acc.rendered) - Urls(p.issues),
                  Lost(start.rendered, first) + ({u} - Urls(first.trees)),
                  (rest.acc.rendered - first.acc.rendered) - Urls(rest.issues));
      }
    }
  }

  lemma {:induction false} UnreachedCovers(items: seq<Item>, rendered: set<Url>)
    ensures |ItemUrls(items) - rendered| <= Unreached(items, rendered)
  {
    if items == [] {
      assert ItemUrls(items) - rendered == {};
    } else {
      UnreachedCovers(items[1..], rendered);
      assert items == [items[0]] + items[1..];
      CoverSize(ItemUrls(items) - rendered, {items[0].url} - rendered, ItemUrls(items[1..]) - rendered);
    }
  }

  /**
   No item is lost silently: for every list of items, whatever cycles, shared children, duplicate
   URLs or unlisted sub-issues it holds and whether or not a limit was hit, the items that are not
   on the board number at most the growth of `skipped`.
   */
  lemma NoItemIsLostSilently(items: seq<Item>, skipped: nat, truncated: bool)
    ensures var p := Collect(items, skipped, truncated);
      |ItemUrls(items) - Urls(p.issues)| <= p.acc.skipped - skipped
  {
    var index := IndexOf(items);
    var start := Acc(skipped, truncated, {}, false, 0);
    var first := RootPass(index, items, ChildUrls(items), start);
    var p := Collect(items, skipped, truncated);
    var lost := ItemUrls(items) - Urls(p.issues);
    RootPassPays(index, items, ChildUrls(items), start);
    if first.acc.capped {
      UnreachedCovers(items, first.acc.rendered);
      CoverSize(lost, (first.acc.rendered - {}) - Urls(first.issues), ItemUrls(items) - first.acc.rendered);
    } else {
      var second := RootPass(index, items, {}, first.acc);
      RootPassPays(index, items, {}, first.acc);
      UrlsConcat(first.issues, second.issues);
      CoverSize(lost, (first.acc.rendered - {}) - Urls(first.issues),
                (second.acc.rendered - first.acc.rendered) - Urls(second.issues));
    }
  }
}
