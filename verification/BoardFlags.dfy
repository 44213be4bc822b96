/**
 What the marks on single nodes say: a node that is not marked shows every child that can be shown, and a
 node is marked only where a limit was hit.
 */
module BoardFlags {
  import opened Text
  import opened BoardModel
  import opened BoardSpec
  import BoardAccounting
  import BoardUnfolding

  predicate HasUrl(forest: seq<Issue>, u: Url) {
    exists i :: 0 <= i < |forest| && forest[i].url == u
  }

  /**
   What the forest must hold for `item`, entered at `depth`: the item itself; or, if it has no status, what
   takes its place. Of an item without a status at the depth limit nothing is left.
   */
  predicate ItemStands(index: Index, item: Item, visiting: set<Url>, depth: nat, forest: seq<Issue>)
    decreases MAX_TREE_DEPTH - depth, 1, 0
  {
    if StatusOf(item).Some? then HasUrl(forest, item.url)
    else depth < MAX_TREE_DEPTH ==> SubsStand(index, item.subIssues, visiting, depth, forest)
  }

  /** Every sub-issue that is listed and no ancestor stands in the forest. */
  predicate SubsStand(index: Index, subs: seq<SubIssue>, visiting: set<Url>, depth: nat, forest: seq<Issue>)
    requires depth < MAX_TREE_DEPTH
    decreases MAX_TREE_DEPTH - depth, 0, |subs|
  {
    subs != [] ==>
      var u := subs[0].url;
      && (u !in visiting && u in index ==> ItemStands(index, index[u], visiting + {u}, depth + 1, forest))
      && SubsStand(index, subs[1..], visiting, depth, forest)
  }

  predicate Within(forest: seq<Issue>, more: seq<Issue>) {
    forall i | 0 <= i < |forest| :: forest[i] in more
  }

  lemma {:induction false} ItemStandsIn(
      index: Index, item: Item, visiting: set<Url>, depth: nat, forest: seq<Issue>, more: seq<Issue>)
    requires ItemStands(index, item, visiting, depth, forest) && Within(forest, more)
    ensures ItemStands(index, item, visiting, depth, more)
    decreases MAX_TREE_DEPTH - depth, 1, 0
  {
    if StatusOf(item).Some? {
      var i :| 0 <= i < |forest| && forest[i].url == item.url;
      assert forest[i] in more;
    } else if depth < MAX_TREE_DEPTH {
      SubsStandIn(index, item.subIssues, visiting, depth, forest, more);
    }
  }

  lemma {:induction false} SubsStandIn(
      index: Index, subs: seq<SubIssue>, visiting: set<Url>, depth: nat, forest: seq<Issue>, more: seq<Issue>)
    requires depth < MAX_TREE_DEPTH && SubsStand(index, subs, visiting, depth, forest) && Within(forest, more)
    ensures SubsStand(index, subs, visiting, depth, more)
    decreases MAX_TREE_DEPTH - depth, 0, |subs|
  {
    if subs != [] {
      var u := subs[0].url;
      if u !in visiting && u in index {
        ItemStandsIn(index, index[u], visiting + {u}, depth + 1, forest, more);
      }
      SubsStandIn(index, subs[1..], visiting, depth, forest, more);
    }
  }

  /** Whatever is expanded without a cut stands. */
  lemma {:induction false} UncutStands(index: Index, item: Item, visiting: set<Url>, depth: nat, acc: Acc)
    requires !Build(index, item, visiting, depth, acc).cut
    ensures ItemStands(index, item, visiting, depth, Build(index, item, visiting, depth, acc).trees)
    decreases MAX_TREE_DEPTH - depth, 1, 0
  {
    var b := Build(index, item, visiting, depth, acc);
    if StatusOf(item).Some? {
      assert b.trees[0].url == item.url;
    } else if depth < MAX_TREE_DEPTH {
      UncutChildrenStand(index, item.subIssues, visiting, depth, Entered(item, acc));
    }
  }

  lemma {:induction false} UncutChildrenStand(
      index: Index, subs: seq<SubIssue>, visiting: set<Url>, depth: nat, acc: Acc)
    requires depth < MAX_TREE_DEPTH && !BuildChildren(index, subs, visiting, depth, acc).cut
    ensures SubsStand(index, subs, visiting, depth, BuildChildren(index, subs, visiting, depth, acc).trees)
    decreases MAX_TREE_DEPTH - depth, 0, |subs|
  {
    if subs != [] {
      var u := subs[0].url;
      if u in visiting || u !in index {
        UncutChildrenStand(index, subs[1..], visiting, depth, acc.(skipped := acc.skipped + 1));
      } else {
        var first := Build(index, index[u], visiting + {u}, depth + 1, acc);
        var rest := BuildChildren(index, subs[1..], visiting, depth, first.acc);
        UncutStands(index, index[u], visiting + {u}, depth + 1, acc);
        UncutChildrenStand(index, subs[1..], visiting, depth, first.acc);
        ItemStandsIn(index, index[u], visiting + {u}, depth + 1, first.trees, first.trees + rest.trees);
        SubsStandIn(index, subs[1..], visiting, depth, rest.trees, first.trees + rest.trees);
      }
    }
  }

  /** A cut is reported exactly when the node budget was used up here, and so to everything above. */
  lemma {:induction false} CutExactlyOverBudget(index: Index, item: Item, visiting: set<Url>, depth: nat, acc: Acc)
    ensures var b := Build(index, item, visiting, depth, acc);
      (b.cut <==> b.acc.count > MAX_COUNT_NODES) && acc.count < b.acc.count
    decreases MAX_TREE_DEPTH - depth, 1, 0
  {
    if acc.count + 1 <= MAX_COUNT_NODES && depth < MAX_TREE_DEPTH {
      ChildrenCutExactlyOverBudget(index, item.subIssues, visiting, depth, Entered(item, acc));
    }
  }

  lemma {:induction false} ChildrenCutExactlyOverBudget(
      index: Index, subs: seq<SubIssue>, visiting: set<Url>, depth: nat, acc: Acc)
    requires depth < MAX_TREE_DEPTH
    ensures var b := BuildChildren(index, subs, visiting, depth, acc);
      (b.cut <==> b.acc.count > MAX_COUNT_NODES && b.acc.count > acc.count) && acc.count <= b.acc.count
    decreases MAX_TREE_DEPTH - depth, 0, |subs|
  {
    if subs != [] {
      var u := subs[0].url;
      if u in visiting || u !in index {
        ChildrenCutExactlyOverBudget(index, subs[1..], visiting, depth, acc.(skipped := acc.skipped + 1));
      } else {
        CutExactlyOverBudget(index, index[u], visiting + {u}, depth + 1, acc);
        var first := Build(index, index[u], visiting + {u}, depth + 1, acc);
        ChildrenCutExactlyOverBudget(index, subs[1..], visiting, depth, first.acc);
      }
    }
  }

  /**
   An item with a status, within the budget, becomes one node. If that node is not marked, every sub-issue
   that is listed and no ancestor stands among its children, directly or by what takes its place; and it is
   marked exactly if it stands at the depth limit and has sub-issues, or the budget was used up below it.
   */
  lemma UnmarkedNodesAreWhole(index: Index, item: Item, visiting: set<Url>, depth: nat, acc: Acc)
    requires StatusOf(item).Some? && acc.count < MAX_COUNT_NODES
    ensures var b := Build(index, item, visiting, depth, acc);
      && |b.trees| == 1 && b.trees[0].url == item.url
      && var t := b.trees[0];
         if depth >= MAX_TREE_DEPTH then t.children == [] && (t.childrenTruncated <==> item.subIssues != [])
         else
           && (!t.childrenTruncated ==> SubsStand(index, item.subIssues, visiting, depth, t.children))
           && (t.childrenTruncated <==> b.acc.count > MAX_COUNT_NODES)
  {
    if depth < MAX_TREE_DEPTH {
      var below := BuildChildren(index, item.subIssues, visiting, depth, Entered(item, acc));
      if !below.cut {
        UncutChildrenStand(index, item.subIssues, visiting, depth, Entered(item, acc));
      }
      ChildrenCutExactlyOverBudget(index, item.subIssues, visiting, depth, Entered(item, acc));
    }
  }

  // ---- Over the whole board ----

  /**
   Every node of the forest that is not marked has among its children every sub-issue that is listed, has a
   status and is not shown above it.
   */
  predicate AllTold(index: Index, forest: seq<Issue>, above: set<Url>) {
    forest != [] ==>
      var t := forest[0];
      && t.url in index
      && (!t.childrenTruncated ==> ChildrenThere(index, index[t.url].subIssues, above + {t.url}, t.children))
      && AllTold(index, t.children, above + {t.url})
      && AllTold(index, forest[1..], above)
  }

  predicate ChildrenThere(index: Index, subs: seq<SubIssue>, above: set<Url>, children: seq<Issue>) {
    forall i | 0 <= i < |subs| && subs[i].url in index && StatusOf(index[subs[i].url]).Some? ::
      subs[i].url in above || HasUrl(children, subs[i].url)
  }

  lemma {:induction false} AllToldConcat(index: Index, a: seq<Issue>, b: seq<Issue>, above: set<Url>)
    requires AllTold(index, a, above) && AllTold(index, b, above)
    ensures AllTold(index, a + b, above)
  {
    if a == [] {
      assert a + b == b;
    } else {
      assert (a + b)[1..] == a[1..] + b;
      AllToldConcat(index, a[1..], b, above);
    }
  }

  /** Ancestors with a status are shown. */
  predicate AncestorsShown(index: Index, visiting: set<Url>, above: set<Url>) {
    forall u | u in visiting :: u in index && (StatusOf(index[u]).Some? ==> u in above)
  }

  lemma {:induction false} StandingChildrenAreThere(
      index: Index, subs: seq<SubIssue>, visiting: set<Url>, depth: nat, forest: seq<Issue>, above: set<Url>)
    requires depth < MAX_TREE_DEPTH && SubsStand(index, subs, visiting, depth, forest)
    requires AncestorsShown(index, visiting, above)
    ensures ChildrenThere(index, subs, above, forest)
  {
    if subs != [] {
      StandingChildrenAreThere(index, subs[1..], visiting, depth, forest, above);
      forall i | 0 <= i < |subs| && subs[i].url in index && StatusOf(index[subs[i].url]).Some?
        ensures subs[i].url in above || HasUrl(forest, subs[i].url)
      {
        assert i > 0 ==> subs[i] == subs[1..][i - 1];
      }
    }
  }

  lemma {:induction false} BuildTellsAll(
      index: Index, item: Item, visiting: set<Url>, depth: nat, acc: Acc, above: set<Url>)
    requires item.url in index && index[item.url] == item && item.url in visiting
    requires AncestorsShown(index, visiting, above + {item.url})
    requires StatusOf(item).None? ==> AncestorsShown(index, visiting, above)
    ensures AllTold(index, Build(index, item, visiting, depth, acc).trees, above)
    decreases MAX_TREE_DEPTH - depth, 1, 0
  {
    var entered := Entered(item, acc);
    if entered.count <= MAX_COUNT_NODES {
      var inside := if StatusOf(item).Some? then above + {item.url} else above;
      if depth < MAX_TREE_DEPTH {
        BuildChildrenTellAll(index, item.subIssues, visiting, depth, entered, inside);
      }
      if StatusOf(item).Some? {
        UnmarkedNodesAreWhole(index, item, visiting, depth, acc);
        var t := Build(index, item, visiting, depth, acc).trees[0];
        if !t.childrenTruncated && depth < MAX_TREE_DEPTH {
          StandingChildrenAreThere(index, item.subIssues, visiting, depth, t.children, inside);
        }
      }
    }
  }

  lemma {:induction false} BuildChildrenTellAll(
      index: Index, subs: seq<SubIssue>, visiting: set<Url>, depth: nat, acc: Acc, above: set<Url>)
    requires depth < MAX_TREE_DEPTH && AncestorsShown(index, visiting, above)
    ensures AllTold(index, BuildChildren(index, subs, visiting, depth, acc).trees, above)
    decreases MAX_TREE_DEPTH - depth, 0, |subs|
  {
    if subs != [] {
      var u := subs[0].url;
      if u in visiting || u !in index {
        BuildChildrenTellAll(index, subs[1..], visiting, depth, acc.(skipped := acc.skipped + 1), above);
      } else {
        var first := Build(index, index[u], visiting + {u}, depth + 1, acc);
        BuildTellsAll(index, index[u], visiting + {u}, depth + 1, acc, above);
        BuildChildrenTellAll(index, subs[1..], visiting, depth, first.acc, above);
        var rest := BuildChildren(index, subs[1..], visiting, depth, first.acc);
        AllToldConcat(index, first.trees, rest.trees, above);
      }
    }
  }

  lemma {:induction false} RootPassTellsAll(index: Index, items: seq<Item>, excluded: set<Url>, acc: Acc)
    requires forall i | i in items :: i.url in index && index[i.url] == i
    ensures AllTold(index, RootPass(index, items, excluded, acc).issues, {})
  {
    if items != [] {
      if items[0].url in excluded || items[0].url in acc.rendered {
        RootPassTellsAll(index, items[1..], excluded, acc);
      } else {
        var first := BuildRoot(index, items[0], acc);
        assert items[0] in items;
        BuildTellsAll(index, items[0], {items[0].url}, 0, acc.(rendered := acc.rendered + {items[0].url}), {});
        RootPassTellsAll(index, items[1..], excluded, first.acc);
        AllToldConcat(index, first.trees, RootPass(index, items[1..], excluded, first.acc).issues, {});
      }
    }
  }

  /**
   On every board of items with distinct URLs, whatever limits were hit: a node without a mark shows below
   it every sub-issue that is listed, has a status and is not shown above it.
   */
  lemma UnmarkedNodesShowTheirChildren(items: seq<Item>, skipped: nat, truncated: bool)
    requires BoardUnfolding.DistinctUrls(items)
    ensures AllTold(IndexOf(items), Collect(items, skipped, truncated).issues, {})
  {
    var index := IndexOf(items);
    BoardUnfolding.IndexFindsItself(items);
    var start := Acc(skipped, truncated, {}, false, 0);
    var first := RootPass(index, items, ChildUrls(items), start);
    RootPassTellsAll(index, items, ChildUrls(items), start);
    if !first.acc.capped {
      RootPassTellsAll(index, items, {}, first.acc);
      AllToldConcat(index, first.issues, RootPass(index, items, {}, first.acc).issues, {});
    }
  }

  // ---- Hidden without a mark ----

  function Plain(url: Url, status: Option<string>, subIssues: seq<SubIssue>): Item {
    Item(0, "", url, [], status, None, None, None, subIssues)
  }

  /**
   An item without a status at the depth limit is dropped with all that is below it, and no node is marked
   for it: only the board-wide flag tells.
   */
  lemma HiddenWithoutAMark(visiting: set<Url>, acc: Acc)
    requires acc.count + 2 <= MAX_COUNT_NODES && visiting == {"a"}
    ensures var c := Plain("c", Some("done"), []);
      var b := Plain("b", None, [SubIssue(0, "", "c")]);
      var a := Plain("a", Some("done"), [SubIssue(0, "", "b")]);
      var built := Build(map["a" := a, "b" := b, "c" := c], a, visiting, MAX_TREE_DEPTH - 1, acc);
      && |built.trees| == 1 && built.trees[0].children == [] && !built.trees[0].childrenTruncated
      && built.acc.truncated
  {
    var c := Plain("c", Some("done"), []);
    var b := Plain("b", None, [SubIssue(0, "", "c")]);
    var a := Plain("a", Some("done"), [SubIssue(0, "", "b")]);
    var index: Index := map["a" := a, "b" := b, "c" := c];
    DoneIsAStatus();
    var entered := Entered(a, acc);
    assert a.subIssues[1..] == [];
    var first := Build(index, b, visiting + {"b"}, MAX_TREE_DEPTH, entered);
    assert first.trees == [] && !first.cut && first.acc.truncated;
    assert BuildChildren(index, a.subIssues, visiting, MAX_TREE_DEPTH - 1, entered) == Built([], false, first.acc);
  }

  lemma DoneIsAStatus()
    ensures MapStatus("done") == Some(Done)
  {
    assert Trim("done") == "done" by {
      assert TrimStart("done") == "done";
      assert TrimEnd("done") == "done";
    }
    var d, o, n, e := AsciiLowerChar('d'), AsciiLowerChar('o'), AsciiLowerChar('n'), AsciiLowerChar('e');
    assert "done"[1..] == "one" && "one"[1..] == "ne" && "ne"[1..] == "e" && "e"[1..] == "";
    assert AsciiLower("e") == [e] + AsciiLower("") == "e";
    assert AsciiLower("ne") == [n] + AsciiLower("e") == "ne";
    assert AsciiLower("one") == [o] + AsciiLower("ne") == "one";
    assert AsciiLower("done") == [d] + AsciiLower("one") == "done";
  }

  // ---- At the limits ----

  /** What was newly recorded below an item that is only counted: what can be reached through nodes not seen before. */
  ghost predicate Counted(index: Index, item: Item, before: set<Url>, after: set<Url>) {
    && before <= after
    && (forall c | BoardAccounting.ClosedBelow(index, item, before, c) :: after - before <= c)
    && (|after - before| < MAX_COUNT_NODES ==> BoardAccounting.ClosedBelow(index, item, before, after - before))
  }

  /** With the budget used up, an item is hidden with all that is below it, and each of them is counted once. */
  lemma OverBudgetHides(index: Index, item: Item, visiting: set<Url>, depth: nat, acc: Acc)
    requires acc.count >= MAX_COUNT_NODES
    ensures var b := Build(index, item, visiting, depth, acc);
      var entered := acc.rendered + {item.url};
      && b.trees == [] && b.cut && b.acc.truncated && b.acc.capped
      && Counted(index, item, entered, b.acc.rendered)
      && b.acc.skipped == acc.skipped + 1 + |b.acc.rendered - entered|
  {
    BoardAccounting.CountBelowIsExact(index, item, acc.rendered + {item.url});
    BoardAccounting.CountBelowIsReachability(index, item, acc.rendered + {item.url});
  }

  /** At the depth limit, what is below an item is hidden, and each of it is counted once. */
  lemma DepthLimitHides(index: Index, item: Item, visiting: set<Url>, depth: nat, acc: Acc)
    requires acc.count < MAX_COUNT_NODES && depth >= MAX_TREE_DEPTH
    ensures var b := Build(index, item, visiting, depth, acc);
      var entered := acc.rendered + {item.url};
      && !b.cut && (b.acc.truncated <==> acc.truncated || item.subIssues != [])
      && Counted(index, item, entered, b.acc.rendered)
      && (b.acc.capped <==> acc.capped || |b.acc.rendered - entered| == MAX_COUNT_NODES)
      && b.acc.skipped == acc.skipped + |b.acc.rendered - entered| + if StatusOf(item).Some? then 0 else 1
  {
    BoardAccounting.CountBelowIsExact(index, item, acc.rendered + {item.url});
    BoardAccounting.CountBelowIsReachability(index, item, acc.rendered + {item.url});
  }

  /** Every visit is shown or skipped, however often an item is visited. */
  lemma {:induction false} VisitsAreShownOrSkipped(
      index: Index, item: Item, visiting: set<Url>, depth: nat, acc: Acc)
    ensures var b := Build(index, item, visiting, depth, acc);
      b.acc.count - acc.count <= Size(b.trees) + (b.acc.skipped - acc.skipped)
    decreases MAX_TREE_DEPTH - depth, 1, 0
  {
    if acc.count + 1 <= MAX_COUNT_NODES && depth < MAX_TREE_DEPTH {
      ChildVisitsAreShownOrSkipped(index, item.subIssues, visiting, depth, Entered(item, acc));
    }
  }

  lemma {:induction false} ChildVisitsAreShownOrSkipped(
      index: Index, subs: seq<SubIssue>, visiting: set<Url>, depth: nat, acc: Acc)
    requires depth < MAX_TREE_DEPTH
    ensures var b := BuildChildren(index, subs, visiting, depth, acc);
      b.acc.count - acc.count <= Size(b.trees) + (b.acc.skipped - acc.skipped)
    decreases MAX_TREE_DEPTH - depth, 0, |subs|
  {
    if subs != [] {
      var u := subs[0].url;
      if u in visiting || u !in index {
        ChildVisitsAreShownOrSkipped(index, subs[1..], visiting, depth, acc.(skipped := acc.skipped + 1));
      } else {
        var first := Build(index, index[u], visiting + {u}, depth + 1, acc);
        VisitsAreShownOrSkipped(index, index[u], visiting + {u}, depth + 1, acc);
        ChildVisitsAreShownOrSkipped(index, subs[1..], visiting, depth, first.acc);
        UrlsConcat(first.trees, BuildChildren(index, subs[1..], visiting, depth, first.acc).trees);
      }
    }
  }

  /** Unreached entries are counted one by one. */
  lemma {:induction false} UnreachedOneByOne(a: seq<Item>, b: seq<Item>, item: Item, rendered: set<Url>)
    ensures Unreached(a + b, rendered) == Unreached(a, rendered) + Unreached(b, rendered)
    ensures Unreached([item], rendered) == (if item.url in rendered then 0 else 1) && Unreached([], rendered) == 0
  {
    assert [item][1..] == [];
    if a == [] {
      assert a + b == b;
    } else {
      assert (a + b)[1..] == a[1..] + b;
      UnreachedOneByOne(a[1..], b, item, rendered);
    }
  }

  /** Once the budget is used up by the roots, nothing more is expanded: what was not reached is only counted. */
  lemma CappedBoardsStop(items: seq<Item>, skipped: nat, truncated: bool)
    ensures var roots := RootPass(IndexOf(items), items, ChildUrls(items), Acc(skipped, truncated, {}, false, 0));
      var p := Collect(items, skipped, truncated);
      roots.acc.capped ==>
        p.issues == roots.issues && p.acc.skipped == roots.acc.skipped + Unreached(items, roots.acc.rendered)
  {
  }
}
