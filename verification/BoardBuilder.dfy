/** The board builder: the same computation, step by step on shared sets and counters. */
module BoardBuilder {
  import opened Text
  import opened BoardModel
  import opened BoardSpec
  import BoardAccounting
  import BoardBounds

  /** A mutable set of URLs. */
  class UrlSet {
    var urls: set<Url>

    constructor (urls: set<Url>)
      ensures this.urls == urls
    {
      this.urls := urls;
    }

    method Insert(u: Url) returns (isNew: bool)
      modifies this
      ensures isNew <==> u !in old(urls)
      ensures urls == old(urls) + {u}
    {
      isNew := u !in urls;
      urls := urls + {u};
    }

    method Remove(u: Url)
      modifies this
      ensures urls == old(urls) - {u}
    {
      urls := urls - {u};
    }
  }

  /** What all expansions of one synchronisation share. */
  class TreeBuildCtx {
    const index: Index
    const rendered: UrlSet
    var skipped: nat
    var truncated: bool
    var capped: bool
    var count: nat

    constructor (index: Index, skipped: nat, truncated: bool)
      ensures this.index == index && fresh(rendered)
      ensures Value() == Acc(skipped, truncated, {}, false, 0)
    {
      this.index := index;
      this.skipped, this.truncated := skipped, truncated;
      capped, count := false, 0;
      rendered := new UrlSet({});
    }

    function Value(): Acc
      reads this, rendered
    {
      Acc(skipped, truncated, rendered.urls, capped, count)
    }
  }

  /** Queue the listed sub-issues of one item that were not seen before, counting every new one. */
  method ScanSubIssues(index: Index, item: Item, seen: UrlSet, stack: seq<Item>, count: nat)
    returns (scanned: Scan)
    modifies seen
    ensures scanned == ScanSubs(index, item.subIssues, stack, old(seen.urls), count)
    ensures seen.urls == scanned.seen
  {
    var stack, count: nat := stack, count;
    var subs := item.subIssues;
    ghost var whole := ScanSubs(index, subs, stack, seen.urls, count);
    for i := 0 to |subs|
      invariant ScanSubs(index, subs[i..], stack, seen.urls, count) == whole
    {
      ghost var before := seen.urls;
      assert subs[i..][1..] == subs[i + 1..];
      var isNew := seen.Insert(subs[i].url);
      if !isNew {
        assert seen.urls == before;
        continue;
      }
      count := count + 1;
      if count >= MAX_COUNT_NODES {
        return Scan(stack, seen.urls, count, true);
      }
      if subs[i].url in index {
        stack := stack + [index[subs[i].url]];
      }
    }
    return Scan(stack, seen.urls, count, false);
  }

  /** Count everything below `item` that `seen` does not hold yet, recording it there. */
  method CountDescendants(item: Item, index: Index, seen: UrlSet) returns (count: nat, capped: bool)
    modifies seen
    ensures var s := CountBelow(index, item, old(seen.urls));
      count == s.count && capped == s.capped && seen.urls == s.seen
  {
    ghost var whole := CountBelow(index, item, seen.urls);
    assert [item][..0] == [];
    var scanned := ScanSubIssues(index, item, seen, [], 0);
    if scanned.capped {
      return scanned.count, true;
    }
    while scanned.stack != []
      invariant seen.urls == scanned.seen && !scanned.capped
      invariant ScanAll(index, scanned.stack, scanned.seen, scanned.count) == whole
      decreases index.Keys - seen.urls, |scanned.stack|
    {
      var top := scanned.stack[|scanned.stack| - 1];
      ScanSubsProgress(index, top.subIssues, scanned.stack[..|scanned.stack| - 1], scanned.seen, scanned.count);
      scanned := ScanSubIssues(index, top, seen, scanned.stack[..|scanned.stack| - 1], scanned.count);
      if scanned.capped {
        return scanned.count, true;
      }
    }
    return scanned.count, false;
  }

  /** Above the budget or below the depth limit: count what is hidden and raise the flags. */
  method HideBelow(item: Item, overBudget: bool, ctx: TreeBuildCtx)
    modifies ctx, ctx.rendered
    ensures ctx.Value() ==
            if overBudget then OverBudget(ctx.index, item, old(ctx.Value())).acc
            else CutBelow(ctx.index, item, old(ctx.Value()))
  {
    var subCount, subCapped := CountDescendants(item, ctx.index, ctx.rendered);
    ctx.skipped := ctx.skipped + subCount;
    if overBudget {
      ctx.skipped := ctx.skipped + 1;
      ctx.truncated := true;
      ctx.capped := true;
    } else {
      if item.subIssues != [] {
        ctx.truncated := true;
      }
      if subCapped {
        ctx.capped := true;
      }
    }
  }

  /**
   Expand one item. `visiting` holds the URLs on the path from the root, this item's included;
   it is changed on the way down and back to what it was on return.
   */
  method BuildTree(item: Item, visiting: UrlSet, depth: nat, ctx: TreeBuildCtx)
    returns (trees: seq<Issue>, cut: bool)
    requires visiting != ctx.rendered
    modifies ctx, ctx.rendered, visiting
    ensures Built(trees, cut, ctx.Value()) == Build(ctx.index, item, old(visiting.urls), depth, old(ctx.Value()))
    ensures visiting.urls == old(visiting.urls)
    decreases MAX_TREE_DEPTH - depth, 1
  {
    ctx.count := ctx.count + 1;
    var _ := ctx.rendered.Insert(item.url);
    if ctx.count > MAX_COUNT_NODES {
      HideBelow(item, true, ctx);
      return [], true;
    }
    var isCut := depth >= MAX_TREE_DEPTH;
    var children, childCut := [], false;
    if isCut {
      HideBelow(item, false, ctx);
    } else {
      children, childCut := ExpandSubIssues(item.subIssues, visiting, depth, ctx);
    }
    if StatusOf(item).None? {
      ctx.skipped := ctx.skipped + 1;
      return children, childCut;
    }
    return [Shown(item, children, (isCut && item.subIssues != []) || childCut)], childCut;
  }

  /** Expand the sub-issues of one item in order, dropping back edges and unlisted URLs. */
  method ExpandSubIssues(subs: seq<SubIssue>, visiting: UrlSet, depth: nat, ctx: TreeBuildCtx)
    returns (children: seq<Issue>, childCut: bool)
    requires visiting != ctx.rendered
    requires depth < MAX_TREE_DEPTH
    modifies ctx, ctx.rendered, visiting
    ensures Built(children, childCut, ctx.Value())
         == BuildChildren(ctx.index, subs, old(visiting.urls), depth, old(ctx.Value()))
    ensures visiting.urls == old(visiting.urls)
    decreases MAX_TREE_DEPTH - depth, 0
  {
    children, childCut := [], false;
    ghost var whole := BuildChildren(ctx.index, subs, visiting.urls, depth, ctx.Value());
    for i := 0 to |subs|
      invariant visiting.urls == old(visiting.urls)
      invariant Continues(whole, children, childCut,
                          BuildChildren(ctx.index, subs[i..], visiting.urls, depth, ctx.Value()))
    {
      ghost var path := visiting.urls;
      assert subs[i..][0] == subs[i] && subs[i..][1..] == subs[i + 1..];
      var u := subs[i].url;
      var isNew := visiting.Insert(u);
      if !isNew {
        assert visiting.urls == path;
        ctx.skipped := ctx.skipped + 1;
        continue;
      }
      if u in ctx.index {
        ghost var before := ctx.Value();
        var found, foundCut := BuildTree(ctx.index[u], visiting, depth + 1, ctx);
        ContinuesStep(whole, children, childCut, Built(found, foundCut, ctx.Value()),
                      BuildChildren(ctx.index, subs[i + 1..], path, depth, ctx.Value()));
        childCut := childCut || foundCut;
        children := children + found;
      } else {
        ctx.skipped := ctx.skipped + 1;
      }
      visiting.Remove(u);
      assert visiting.urls == path;
    }
  }

  /** `whole` is what is collected so far followed by `rest`. */
  ghost predicate Continues(whole: Built, children: seq<Issue>, childCut: bool, rest: Built) {
    whole == Built(children + rest.trees, childCut || rest.cut, rest.acc)
  }

  lemma ContinuesStep(whole: Built, children: seq<Issue>, childCut: bool, next: Built, rest: Built)
    requires Continues(whole, children, childCut, Built(next.trees + rest.trees, next.cut || rest.cut, rest.acc))
    ensures Continues(whole, children + next.trees, childCut || next.cut, rest)
  {
    assert children + (next.trees + rest.trees) == children + next.trees + rest.trees;
  }

  /** Record every URL of a tree. */
  method RecordRendered(issue: Issue, rendered: UrlSet)
    modifies rendered
    ensures rendered.urls == old(rendered.urls) + Urls([issue])
  {
    var stack := [issue];
    while stack != []
      invariant rendered.urls + Urls(stack) == old(rendered.urls) + Urls([issue])
      decreases Size(stack)
    {
      var n := |stack| - 1;
      var current, below := stack[n], stack[..n];
      UrlsConcat(below, [current]);
      assert stack == below + [current];
      SingleIssue(current);
      UrlsConcat(below, current.children);
      stack := below + current.children;
      var _ := rendered.Insert(current.url);
    }
  }

  /** Expand as roots, in order, the items outside `excluded` that are not recorded yet. */
  method ExpandRoots(items: seq<Item>, excluded: set<Url>, ctx: TreeBuildCtx) returns (issues: seq<Issue>)
    modifies ctx, ctx.rendered
    ensures Pass(issues, ctx.Value()) == RootPass(ctx.index, items, excluded, old(ctx.Value()))
  {
    issues := [];
    ghost var whole := RootPass(ctx.index, items, excluded, ctx.Value());
    for i := 0 to |items|
      invariant var rest := RootPass(ctx.index, items[i..], excluded, ctx.Value());
        whole == Pass(issues + rest.issues, rest.acc)
    {
      assert items[i..][0] == items[i] && items[i..][1..] == items[i + 1..];
      var u := items[i].url;
      if u in excluded || u in ctx.rendered.urls {
        continue;
      }
      ghost var before := ctx.Value();
      var _ := ctx.rendered.Insert(u);
      var visiting := new UrlSet({u});
      var trees, _ := BuildTree(items[i], visiting, 0, ctx);
      ghost var after := ctx.Value();
      BoardAccounting.BuildRecords(ctx.index, items[i], {u}, 0, before.(rendered := before.rendered + {u}));
      RecordAll(trees, ctx);
      assert ctx.rendered.urls == after.rendered;
      issues := issues + trees;
    }
  }

  /** Record every URL of a forest; for what `BuildTree` returns this adds nothing. */
  method RecordAll(trees: seq<Issue>, ctx: TreeBuildCtx)
    modifies ctx.rendered
    ensures ctx.rendered.urls == old(ctx.rendered.urls) + Urls(trees)
  {
    for i := 0 to |trees|
      invariant ctx.rendered.urls == old(ctx.rendered.urls) + Urls(trees[..i])
    {
      UrlsConcat(trees[..i], [trees[i]]);
      assert trees[..i + 1] == trees[..i] + [trees[i]];
      RecordRendered(trees[i], ctx.rendered);
    }
    assert trees[..|trees|] == trees;
  }

  method CollectChildUrls(items: seq<Item>) returns (urls: set<Url>)
    ensures urls == ChildUrls(items)
  {
    urls := {};
    for i := 0 to |items|
      invariant urls == ChildUrls(items[..i])
    {
      var subs := items[i].subIssues;
      for j := 0 to |subs|
        invariant urls == ChildUrls(items[..i]) + SubUrls(subs[..j])
      {
        assert subs[..j + 1] == subs[..j] + [subs[j]];
        urls := urls + {subs[j].url};
      }
      assert subs[..|subs|] == subs;
      assert items[..i + 1] == items[..i] + [items[i]];
    }
    assert items[..|items|] == items;
  }

  lemma IndexStep(items: seq<Item>, i: nat)
    requires i < |items|
    ensures IndexOf(items[..i + 1]) == IndexOf(items[..i])[items[i].url := items[i]]
  {
    assert items[..i + 1][..i] == items[..i];
  }

  method BuildIndex(items: seq<Item>) returns (index: Index)
    ensures index == IndexOf(items)
  {
    index := map[];
    for i := 0 to |items|
      invariant index == IndexOf(items[..i])
    {
      IndexStep(items, i);
      index := index[items[i].url := items[i]];
    }
    assert items[..|items|] == items;
  }

  /** Count the entries of the list that were never reached. */
  method CountUnreached(items: seq<Item>, rendered: UrlSet) returns (count: nat)
    ensures count == Unreached(items, rendered.urls)
  {
    count := 0;
    for i := 0 to |items|
      invariant count + Unreached(items[i..], rendered.urls) == Unreached(items, rendered.urls)
    {
      assert items[i..][1..] == items[i + 1..];
      if items[i].url !in rendered.urls {
        count := count + 1;
      }
    }
  }

  /** Gather the flat list of items into a forest, adding to `skipped` and raising `truncated`. */
  method CollectIssueTrees(items: seq<Item>, skipped: nat, truncated: bool)
    returns (issues: seq<Issue>, skipped': nat, truncated': bool)
    ensures var p := Collect(items, skipped, truncated);
      issues == p.issues && skipped' == p.acc.skipped && truncated' == p.acc.truncated
    ensures |ItemUrls(items) - Urls(issues)| <= skipped' - skipped
    ensures Size(issues) <= MAX_COUNT_NODES && Height(issues) <= MAX_TREE_DEPTH + 1 && PathsSimple(issues, {})
  {
    var childUrls := CollectChildUrls(items);
    var index := BuildIndex(items);
    var ctx := new TreeBuildCtx(index, skipped, truncated);
    issues := ExpandRoots(items, childUrls, ctx);
    if ctx.capped {
      var unreached := CountUnreached(items, ctx.rendered);
      ctx.skipped := ctx.skipped + unreached;
    } else {
      var promoted := ExpandRoots(items, {}, ctx);
      issues := issues + promoted;
    }
    BoardAccounting.NoItemIsLostSilently(items, skipped, truncated);
    BoardBounds.BoardWithinLimits(items, skipped, truncated);
    return issues, ctx.skipped, ctx.truncated;
  }
}
