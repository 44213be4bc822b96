/** The limits the board keeps, and that every cut is announced. */
module BoardBounds {
  import opened Text
  import opened BoardModel
  import opened BoardSpec
  import BoardAccounting

  function Min(a: nat, b: nat): nat {
    if a < b then a else b
  }

  // ---- Size and depth ----

  /** Nodes shown never outnumber the visits paid from the shared budget. */
  lemma {:induction false} BuildFitsBudget(index: Index, item: Item, visiting: set<Url>, depth: nat, acc: Acc)
    ensures var b := Build(index, item, visiting, depth, acc);
      && acc.count < b.acc.count
      && Size(b.trees) + Min(acc.count, MAX_COUNT_NODES) <= Min(b.acc.count, MAX_COUNT_NODES)
      && (depth <= MAX_TREE_DEPTH ==> Height(b.trees) <= MAX_TREE_DEPTH - depth + 1)
    decreases MAX_TREE_DEPTH - depth, 1, 0
  {
    var entered := Entered(item, acc);
    if entered.count <= MAX_COUNT_NODES && depth < MAX_TREE_DEPTH {
      BuildChildrenFitsBudget(index, item.subIssues, visiting, depth, entered);
    }
  }

  lemma {:induction false} BuildChildrenFitsBudget(
      index: Index, subs: seq<SubIssue>, visiting: set<Url>, depth: nat, acc: Acc)
    requires depth < MAX_TREE_DEPTH
    ensures var b := BuildChildren(index, subs, visiting, depth, acc);
      && acc.count <= b.acc.count
      && Size(b.trees) + Min(acc.count, MAX_COUNT_NODES) <= Min(b.acc.count, MAX_COUNT_NODES)
      && Height(b.trees) <= MAX_TREE_DEPTH - depth
    decreases MAX_TREE_DEPTH - depth, 0, |subs|
  {
    if subs != [] {
      var u := subs[0].url;
      if u in visiting || u !in index {
        BuildChildrenFitsBudget(index, subs[1..], visiting, depth, acc.(skipped := acc.skipped + 1));
      } else {
        var first := Build(index, index[u], visiting + {u}, depth + 1, acc);
        BuildFitsBudget(index, index[u], visiting + {u}, depth + 1, acc);
        BuildChildrenFitsBudget(index, subs[1..], visiting, depth, first.acc);
        UrlsConcat(first.trees, BuildChildren(index, subs[1..], visiting, depth, first.acc).trees);
      }
    }
  }

  // ---- No URL twice on a path ----

  lemma {:induction false} PathsSimpleWeaken(forest: seq<Issue>, above: set<Url>, fewer: set<Url>)
    requires PathsSimple(forest, above) && fewer <= above
    ensures PathsSimple(forest, fewer)
  {
    if forest != [] {
      PathsSimpleWeaken(forest[0].children, above + {forest[0].url}, fewer + {forest[0].url});
      PathsSimpleWeaken(forest[1..], above, fewer);
    }
  }

  lemma {:induction false} BuildPathsSimple(index: Index, item: Item, visiting: set<Url>, depth: nat, acc: Acc)
    requires item.url in visiting
    ensures PathsSimple(Build(index, item, visiting, depth, acc).trees, visiting - {item.url})
    decreases MAX_TREE_DEPTH - depth, 1, 0
  {
    var entered := Entered(item, acc);
    var above := visiting - {item.url};
    assert above + {item.url} == visiting;
    if entered.count <= MAX_COUNT_NODES && depth < MAX_TREE_DEPTH {
      BuildChildrenPathsSimple(index, item.subIssues, visiting, depth, entered);
      PathsSimpleWeaken(BuildChildren(index, item.subIssues, visiting, depth, entered).trees, visiting, above);
    }
  }

  lemma {:induction false} BuildChildrenPathsSimple(
      index: Index, subs: seq<SubIssue>, visiting: set<Url>, depth: nat, acc: Acc)
    requires depth < MAX_TREE_DEPTH
    ensures PathsSimple(BuildChildren(index, subs, visiting, depth, acc).trees, visiting)
    decreases MAX_TREE_DEPTH - depth, 0, |subs|
  {
    if subs != [] {
      var u := subs[0].url;
      if u in visiting || u !in index {
        BuildChildrenPathsSimple(index, subs[1..], visiting, depth, acc.(skipped := acc.skipped + 1));
      } else {
        var first := Build(index, index[u], visiting + {u}, depth + 1, acc);
        BuildPathsSimple(index, index[u], visiting + {u}, depth + 1, acc);
        assert visiting + {u} - {u} == visiting;
        BuildChildrenPathsSimple(index, subs[1..], visiting, depth, first.acc);
        PathsSimpleConcat(first.trees, BuildChildren(index, subs[1..], visiting, depth, first.acc).trees, visiting);
      }
    }
  }

  // ---- Flags ----

  /** Every sign of a cut comes with the board-wide flag, which is never taken back. */
  ghost predicate FlagsTold(before: Acc, b: Built) {
    && (before.truncated || b.cut || SomeFlagged(b.trees) ==> b.acc.truncated)
    && (b.acc.capped ==> before.capped || b.acc.truncated)
  }

  lemma {:induction false} BuildFlagsTold(index: Index, item: Item, visiting: set<Url>, depth: nat, acc: Acc)
    ensures FlagsTold(acc, Build(index, item, visiting, depth, acc))
    decreases MAX_TREE_DEPTH - depth, 1, 0
  {
    var entered := Entered(item, acc);
    BoardAccounting.CountBelowIsExact(index, item, entered.rendered);
    if entered.count <= MAX_COUNT_NODES {
      if depth < MAX_TREE_DEPTH {
        BuildChildrenFlagsTold(index, item.subIssues, visiting, depth, entered);
      }
      if StatusOf(item).Some? {
        SingleIssue(Build(index, item, visiting, depth, acc).trees[0]);
      }
    }
  }

  lemma {:induction false} BuildChildrenFlagsTold(
      index: Index, subs: seq<SubIssue>, visiting: set<Url>, depth: nat, acc: Acc)
    requires depth < MAX_TREE_DEPTH
    ensures FlagsTold(acc, BuildChildren(index, subs, visiting, depth, acc))
    decreases MAX_TREE_DEPTH - depth, 0, |subs|
  {
    if subs != [] {
      var u := subs[0].url;
      if u in visiting || u !in index {
        BuildChildrenFlagsTold(index, subs[1..], visiting, depth, acc.(skipped := acc.skipped + 1));
      } else {
        var first := Build(index, index[u], visiting + {u}, depth + 1, acc);
        BuildFlagsTold(index, index[u], visiting + {u}, depth + 1, acc);
        BuildChildrenFlagsTold(index, subs[1..], visiting, depth, first.acc);
        UrlsConcat(first.trees, BuildChildren(index, subs[1..], visiting, depth, first.acc).trees);
      }
    }
  }

  // ---- The whole board ----

  ghost predicate WithinLimits(before: Acc, p: Pass) {
    && Size(p.issues) + Min(before.count, MAX_COUNT_NODES) <= Min(p.acc.count, MAX_COUNT_NODES)
    && Height(p.issues) <= MAX_TREE_DEPTH + 1
    && PathsSimple(p.issues, {})
    && (before.truncated || SomeFlagged(p.issues) ==> p.acc.truncated)
    && (p.acc.capped ==> before.capped || p.acc.truncated)
  }

  lemma {:induction false} RootPassWithinLimits(index: Index, items: seq<Item>, excluded: set<Url>, acc: Acc)
    ensures WithinLimits(acc, RootPass(index, items, excluded, acc))
  {
    if items != [] {
      if items[0].url in excluded || items[0].url in acc.rendered {
        RootPassWithinLimits(index, items[1..], excluded, acc);
      } else {
        var u := items[0].url;
        var start := acc.(rendered := acc.rendered + {u});
        var first := BuildRoot(index, items[0], acc);
        var rest := RootPass(index, items[1..], excluded, first.acc);
        BuildFitsBudget(index, items[0], {u}, 0, start);
        BuildPathsSimple(index, items[0], {u}, 0, start);
        BuildFlagsTold(index, items[0], {u}, 0, start);
        assert {u} - {u} == {};
        RootPassWithinLimits(index, items[1..], excluded, first.acc);
        UrlsConcat(first.trees, rest.issues);
        PathsSimpleConcat(first.trees, rest.issues, {});
      }
    }
  }

  /**
   For every list of items: the board has at most the budgeted number of nodes over all roots, at
   most ten levels below a root and no URL twice on a path; and a hidden-children mark on any node,
   or an exhausted budget, is always announced by the board-wide flag, which is never reset.
   */
  lemma BoardWithinLimits(items: seq<Item>, skipped: nat, truncated: bool)
    ensures var p := Collect(items, skipped, truncated);
      && Size(p.issues) <= MAX_COUNT_NODES
      && Height(p.issues) <= MAX_TREE_DEPTH + 1
      && PathsSimple(p.issues, {})
      && (truncated || SomeFlagged(p.issues) || p.acc.capped ==> p.acc.truncated)
  {
    var index := IndexOf(items);
    var start := Acc(skipped, truncated, {}, false, 0);
    var first := RootPass(index, items, ChildUrls(items), start);
    RootPassWithinLimits(index, items, ChildUrls(items), start);
    if !first.acc.capped {
      RootPassWithinLimits(index, items, {}, first.acc);
      var second := RootPass(index, items, {}, first.acc);
      UrlsConcat(first.issues, second.issues);
      PathsSimpleConcat(first.issues, second.issues, {});
    }
  }

  /** Shown issues, each among the children of the one before, the first among the given ones. */
  predicate IsChain(forest: seq<Issue>, chain: seq<Issue>) {
    chain != [] ==> chain[0] in forest && IsChain(chain[0].children, chain[1..])
  }

  lemma {:induction false} ChainsFit(forest: seq<Issue>, chain: seq<Issue>, above: set<Url>)
    requires IsChain(forest, chain)
    ensures |chain| <= Height(forest)
    ensures PathsSimple(forest, above) ==>
      && (forall i | 0 <= i < |chain| :: chain[i].url !in above)
      && (forall i, j | 0 <= i < j < |chain| :: chain[i].url != chain[j].url)
    decreases forest
  {
    if chain != [] {
      if chain[0] == forest[0] {
        ChainsFit(forest[0].children, chain[1..], above + {forest[0].url});
        assert forall i | 0 < i < |chain| :: chain[i] == chain[1..][i - 1];
      } else {
        ChainsFit(forest[1..], chain, above);
      }
    }
  }

  /** So on every board a chain of shown issues has at most eleven of them, all different. */
  lemma ChainsOnTheBoard(items: seq<Item>, skipped: nat, truncated: bool, chain: seq<Issue>)
    requires IsChain(Collect(items, skipped, truncated).issues, chain)
    ensures |chain| <= 11 && forall i, j | 0 <= i < j < |chain| :: chain[i].url != chain[j].url
  {
    BoardWithinLimits(items, skipped, truncated);
    ChainsFit(Collect(items, skipped, truncated).issues, chain, {});
  }
}
