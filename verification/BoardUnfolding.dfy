/**
 The board without its limits: each root unfolds along sub-issue edges until it meets an ancestor.
 The limited builder agrees with it exactly when the unfolding fits the limits.
 */
module BoardUnfolding {
  import opened Text
  import opened BoardModel
  import opened BoardSpec
  import BoardAccounting
  import BoardBounds

  /**
   An unlimited unfolding: the forest shown, how many nodes and edges it drops, the URLs it reaches,
   how many nodes it visits and the length of the longest edge path, dropped last edges included.
   */
  datatype Unfolding = Unfolding(forest: seq<Issue>, dropped: nat, reached: set<Url>, visits: nat, levels: nat)

  const NOTHING := Unfolding([], 0, {}, 0, 0)

  function Max(a: nat, b: nat): nat {
    if a > b then a else b
  }

  function Join(a: Unfolding, b: Unfolding): Unfolding {
    Unfolding(a.forest + b.forest, a.dropped + b.dropped, a.reached + b.reached, a.visits + b.visits,
      Max(a.levels, b.levels))
  }

  function Unfold(index: Index, item: Item, path: set<Url>): Unfolding
    decreases index.Keys - path, 1, 0
  {
    var below := UnfoldChildren(index, item.subIssues, path);
    var shown := StatusOf(item).Some?;
    Unfolding(
      if shown then [Shown(item, below.forest, false)] else below.forest,
      below.dropped + if shown then 0 else 1,
      below.reached + {item.url},
      below.visits + 1,
      if item.subIssues == [] then 0 else below.levels + 1)
  }

  function UnfoldChildren(index: Index, subs: seq<SubIssue>, path: set<Url>): Unfolding
    decreases index.Keys - path, 0, |subs|
  {
    if subs == [] then NOTHING
    else
      var u := subs[0].url;
      var rest := UnfoldChildren(index, subs[1..], path);
      if u in path || u !in index then rest.(dropped := rest.dropped + 1)
      else
        assert u in index.Keys - path;
        Join(Unfold(index, index[u], path + {u}), rest)
  }

  /** Unfold, in order, every item outside `excluded` that was not reached before. */
  function UnfoldPass(index: Index, items: seq<Item>, excluded: set<Url>, reached: set<Url>): Unfolding {
    if items == [] then NOTHING
    else if items[0].url in excluded || items[0].url in reached then
      UnfoldPass(index, items[1..], excluded, reached)
    else
      var first := Unfold(index, items[0], {items[0].url});
      Join(first, UnfoldPass(index, items[1..], excluded, reached + first.reached))
  }

  /** First the items that are nobody's sub-issue, then the first unreached items in order. */
  function UnfoldBoard(items: seq<Item>): Unfolding {
    var index := IndexOf(items);
    var first := UnfoldPass(index, items, ChildUrls(items), {});
    Join(first, UnfoldPass(index, items, {}, first.reached))
  }

  // ---- Agreement ----

  ghost predicate Fits(u: Unfolding, depth: nat, count: nat) {
    depth + u.levels <= MAX_TREE_DEPTH && count + u.visits <= MAX_COUNT_NODES
  }

  ghost function Advance(acc: Acc, u: Unfolding): Acc {
    Acc(acc.skipped + u.dropped, acc.truncated, acc.rendered + u.reached, acc.capped, acc.count + u.visits)
  }

  /** Either nothing is cut and the result is the unfolding, or the cut is announced. */
  ghost predicate Agrees(before: Acc, u: Unfolding, depth: nat, trees: seq<Issue>, after: Acc) {
    if !before.truncated && Fits(u, depth, before.count)
    then trees == u.forest && after == Advance(before, u)
    else after.truncated
  }

  lemma AgreesJoin(
      before: Acc, a: Unfolding, depth: nat, trees: seq<Issue>, mid: Acc, b: Unfolding, more: seq<Issue>,
      after: Acc)
    requires Agrees(before, a, depth, trees, mid)
    requires mid.truncated ==> after.truncated
    requires !mid.truncated ==> Agrees(mid, b, depth, more, after)
    ensures Agrees(before, Join(a, b), depth, trees + more, after)
  {
    assert before.rendered + a.reached + b.reached == before.rendered + (a.reached + b.reached);
  }

  /** Announced cuts: no cut is reported upwards unless the flag is up. */
  ghost predicate NoSecretCut(b: Built) {
    b.cut ==> b.acc.truncated
  }

  lemma FinishAgrees(item: Item, acc: Acc, below: Unfolding, u: Unfolding, depth: nat, b: Built)
    requires acc.count < MAX_COUNT_NODES
    requires depth < MAX_TREE_DEPTH
    requires Agrees(Entered(item, acc), below, depth + 1, b.trees, b.acc) && NoSecretCut(b)
    requires item.subIssues == [] ==> below.levels == 0
    requires u.forest == if StatusOf(item).Some? then [Shown(item, below.forest, false)] else below.forest
    requires u.dropped == below.dropped + if StatusOf(item).Some? then 0 else 1
    requires u.reached == below.reached + {item.url} && u.visits == below.visits + 1
    requires u.levels == if item.subIssues == [] then 0 else below.levels + 1
    ensures var f := Finish(item, false, b);
      Agrees(acc, u, depth, f.trees, f.acc) && NoSecretCut(f)
  {
    assert acc.rendered + {item.url} + below.reached == acc.rendered + u.reached;
  }

  /** At a limit: what the unfolding has below does not fit, unless there is nothing below. */
  lemma LimitAgrees(index: Index, item: Item, visiting: set<Url>, depth: nat, acc: Acc)
    requires acc.count >= MAX_COUNT_NODES || depth == MAX_TREE_DEPTH
    ensures var b := Build(index, item, visiting, depth, acc);
      Agrees(acc, Unfold(index, item, visiting), depth, b.trees, b.acc) && NoSecretCut(b)
  {
    var entered := Entered(item, acc);
    if entered.count <= MAX_COUNT_NODES {
      BoardAccounting.CountBelowIsExact(index, item, entered.rendered);
    }
  }

  lemma {:induction false} BuildAgrees(index: Index, item: Item, visiting: set<Url>, depth: nat, acc: Acc)
    requires depth <= MAX_TREE_DEPTH
    ensures var b := Build(index, item, visiting, depth, acc);
      Agrees(acc, Unfold(index, item, visiting), depth, b.trees, b.acc) && NoSecretCut(b)
    decreases MAX_TREE_DEPTH - depth, 1, 0
  {
    if acc.count >= MAX_COUNT_NODES || depth == MAX_TREE_DEPTH {
      LimitAgrees(index, item, visiting, depth, acc);
    } else {
      var entered := Entered(item, acc);
      BuildChildrenAgrees(index, item.subIssues, visiting, depth, entered);
      FinishAgrees(item, acc, UnfoldChildren(index, item.subIssues, visiting), Unfold(index, item, visiting), depth,
                   BuildChildren(index, item.subIssues, visiting, depth, entered));
    }
  }

  lemma {:induction false} BuildChildrenAgrees(
      index: Index, subs: seq<SubIssue>, visiting: set<Url>, depth: nat, acc: Acc)
    requires depth < MAX_TREE_DEPTH && acc.count <= MAX_COUNT_NODES
    ensures var b := BuildChildren(index, subs, visiting, depth, acc);
      Agrees(acc, UnfoldChildren(index, subs, visiting), depth + 1, b.trees, b.acc) && NoSecretCut(b)
    decreases MAX_TREE_DEPTH - depth, 0, |subs|
  {
    if subs == [] {
      assert acc.rendered + {} == acc.rendered;
    } else {
      var u := subs[0].url;
      if u in visiting || u !in index {
        BuildChildrenAgrees(index, subs[1..], visiting, depth, acc.(skipped := acc.skipped + 1));
      } else {
        var first := Build(index, index[u], visiting + {u}, depth + 1, acc);
        var rest := BuildChildren(index, subs[1..], visiting, depth, first.acc);
        BuildAgrees(index, index[u], visiting + {u}, depth + 1, acc);
        BoardBounds.BuildChildrenFlagsTold(index, subs[1..], visiting, depth, first.acc);
        if !first.acc.truncated {
          BuildChildrenAgrees(index, subs[1..], visiting, depth, first.acc);
        }
        AgreesJoin(acc, Unfold(index, index[u], visiting + {u}), depth + 1, first.trees, first.acc,
                   UnfoldChildren(index, subs[1..], visiting), rest.trees, rest.acc);
      }
    }
  }

  lemma {:induction false} RootPassAgrees(index: Index, items: seq<Item>, excluded: set<Url>, acc: Acc)
    requires acc.count <= MAX_COUNT_NODES
    ensures var p := RootPass(index, items, excluded, acc);
      Agrees(acc, UnfoldPass(index, items, excluded, acc.rendered), 0, p.issues, p.acc)
  {
    if items == [] {
      assert acc.rendered + {} == acc.rendered;
    } else if items[0].url in excluded || items[0].url in acc.rendered {
      RootPassAgrees(index, items[1..], excluded, acc);
    } else {
      var v := items[0].url;
      var start := acc.(rendered := acc.rendered + {v});
      var first := BuildRoot(index, items[0], acc);
      var rest := RootPass(index, items[1..], excluded, first.acc);
      var one := Unfold(index, items[0], {v});
      BuildAgrees(index, items[0], {v}, 0, start);
      assert acc.rendered + {v} + one.reached == acc.rendered + one.reached;
      BoardBounds.RootPassWithinLimits(index, items[1..], excluded, first.acc);
      if !first.acc.truncated {
        RootPassAgrees(index, items[1..], excluded, first.acc);
      }
      if !acc.truncated && Fits(one, 0, acc.count) {
        assert first.acc.rendered == acc.rendered + one.reached;
      }
      AgreesJoin(acc, one, 0, first.trees, first.acc,
                 UnfoldPass(index, items[1..], excluded, acc.rendered + one.reached), rest.issues, rest.acc);
    }
  }

  /**
   The flag stays down exactly when the unlimited unfolding visits at most the budgeted number of
   nodes and no path has more than ten edges; the board is then that unfolding, and `skipped` has
   grown by exactly the nodes and edges it drops.
   */
  lemma UntruncatedBoardIsTheUnfolding(items: seq<Item>, skipped: nat, truncated: bool)
    ensures var p := Collect(items, skipped, truncated);
      var u := UnfoldBoard(items);
      && (!p.acc.truncated <==> !truncated && u.visits <= MAX_COUNT_NODES && u.levels <= MAX_TREE_DEPTH)
      && (!p.acc.truncated ==>
        p.issues == u.forest && p.acc.skipped == skipped + u.dropped && p.acc.rendered == u.reached)
  {
    var index := IndexOf(items);
    var start := Acc(skipped, truncated, {}, false, 0);
    var first := RootPass(index, items, ChildUrls(items), start);
    RootPassAgrees(index, items, ChildUrls(items), start);
    BoardBounds.RootPassWithinLimits(index, items, ChildUrls(items), start);
    BoardBounds.RootPassWithinLimits(index, items, {}, first.acc);
    var one := UnfoldPass(index, items, ChildUrls(items), {});
    if !first.acc.truncated {
      assert {} + one.reached == one.reached;
      RootPassAgrees(index, items, {}, first.acc);
    }
  }

  // ---- What the unfolding reaches and shows ----

  /** The node standing at `u` when `item` is the root. */
  function NodeAt(index: Index, item: Item, u: Url): Item
    requires u == item.url || u in index
  {
    if u == item.url then item else index[u]
  }

  /** `c` holds the root and, with any node, the listed sub-issues of it. */
  ghost predicate ClosedFrom(index: Index, item: Item, c: set<Url>) {
    && item.url in c
    && forall u | u in c && (u == item.url || u in index) ::
      SubUrls(NodeAt(index, item, u).subIssues) * index.Keys <= c
  }

  /** Below `path`, everything reached leads only to what is reached or to an ancestor. */
  ghost predicate Leads(index: Index, subs: seq<SubIssue>, path: set<Url>, reached: set<Url>) {
    && SubUrls(subs) * index.Keys <= reached + path
    && reached <= index.Keys - path
    && forall u | u in reached :: SubUrls(index[u].subIssues) * index.Keys <= reached + path
  }

  lemma {:induction false} UnfoldLeads(index: Index, item: Item, path: set<Url>)
    requires item.url in path
    ensures Leads(index, item.subIssues, path, UnfoldChildren(index, item.subIssues, path).reached)
    decreases index.Keys - path, 1, 0
  {
    UnfoldChildrenLeads(index, item.subIssues, path);
  }

  lemma {:induction false} UnfoldChildrenLeads(index: Index, subs: seq<SubIssue>, path: set<Url>)
    ensures Leads(index, subs, path, UnfoldChildren(index, subs, path).reached)
    decreases index.Keys - path, 0, |subs|
  {
    if subs != [] {
      var u := subs[0].url;
      BoardAccounting.SubUrlsStep(subs);
      UnfoldChildrenLeads(index, subs[1..], path);
      if u !in path && u in index {
        assert u in index.Keys - path;
        UnfoldLeads(index, index[u], path + {u});
      }
    }
  }

  lemma {:induction false} UnfoldChildrenStaysInside(
      index: Index, item: Item, subs: seq<SubIssue>, path: set<Url>, c: set<Url>)
    requires ClosedFrom(index, item, c) && item.url in path
    requires SubUrls(subs) * index.Keys <= c
    ensures UnfoldChildren(index, subs, path).reached <= c
    decreases index.Keys - path, |subs|
  {
    if subs != [] {
      var u := subs[0].url;
      BoardAccounting.SubUrlsStep(subs);
      UnfoldChildrenStaysInside(index, item, subs[1..], path, c);
      if u !in path && u in index {
        assert u in index.Keys - path;
        assert NodeAt(index, item, u) == index[u];
        UnfoldChildrenStaysInside(index, item, index[u].subIssues, path + {u}, c);
      }
    }
  }

  /**
   Though it backtracks and stops at ancestors, unfolding a root reaches exactly the URLs that
   sub-issue edges reach from it: a closed set, inside every closed set.
   */
  lemma UnfoldReachesTheReachable(index: Index, item: Item)
    ensures var reached := Unfold(index, item, {item.url}).reached;
      && ClosedFrom(index, item, reached)
      && forall c | ClosedFrom(index, item, c) :: reached <= c
  {
    UnfoldLeads(index, item, {item.url});
    forall c | ClosedFrom(index, item, c) ensures Unfold(index, item, {item.url}).reached <= c {
      assert NodeAt(index, item, item.url) == item;
      UnfoldChildrenStaysInside(index, item, item.subIssues, {item.url}, c);
    }
  }

  /** The listed URLs among `s` whose item has a recognised status. */
  ghost function WithStatus(index: Index, s: set<Url>): set<Url> {
    set u | u in s && u in index && StatusOf(index[u]).Some?
  }

  lemma {:induction false} UnfoldShows(index: Index, item: Item, path: set<Url>)
    requires item.url in index && index[item.url] == item
    ensures var u := Unfold(index, item, path);
      Urls(u.forest) == WithStatus(index, u.reached) && u.reached <= index.Keys
    decreases index.Keys - path, 1, 0
  {
    UnfoldChildrenShows(index, item.subIssues, path);
    if StatusOf(item).Some? {
      SingleIssue(Unfold(index, item, path).forest[0]);
    }
  }

  lemma {:induction false} UnfoldChildrenShows(index: Index, subs: seq<SubIssue>, path: set<Url>)
    ensures var u := UnfoldChildren(index, subs, path);
      Urls(u.forest) == WithStatus(index, u.reached) && u.reached <= index.Keys
    decreases index.Keys - path, 0, |subs|
  {
    if subs != [] {
      var u := subs[0].url;
      UnfoldChildrenShows(index, subs[1..], path);
      if u !in path && u in index {
        assert u in index.Keys - path;
        UnfoldShows(index, index[u], path + {u});
        UrlsConcat(Unfold(index, index[u], path + {u}).forest, UnfoldChildren(index, subs[1..], path).forest);
      }
    }
  }

  ghost predicate DistinctUrls(items: seq<Item>) {
    forall i, j | 0 <= i < j < |items| :: items[i].url != items[j].url
  }

  /** A pass shows the items with a status among those it reaches, and reaches all it may. */
  lemma {:induction false} UnfoldPassShows(index: Index, items: seq<Item>, excluded: set<Url>, reached: set<Url>)
    requires forall i | i in items :: i.url in index && index[i.url] == i
    ensures var u := UnfoldPass(index, items, excluded, reached);
      && Urls(u.forest) == WithStatus(index, u.reached)
      && u.reached <= index.Keys
  {
    if items != [] {
      assert items[0] in items;
      if items[0].url in excluded || items[0].url in reached {
        UnfoldPassShows(index, items[1..], excluded, reached);
      } else {
        var first := Unfold(index, items[0], {items[0].url});
        var rest := UnfoldPass(index, items[1..], excluded, reached + first.reached);
        UnfoldShows(index, items[0], {items[0].url});
        UnfoldPassShows(index, items[1..], excluded, reached + first.reached);
        UrlsConcat(first.forest, rest.forest);
        assert WithStatus(index, first.reached + rest.reached)
            == WithStatus(index, first.reached) + WithStatus(index, rest.reached);
      }
    }
  }

  lemma {:induction false} UnfoldPassReachesAll(index: Index, items: seq<Item>, excluded: set<Url>, reached: set<Url>)
    ensures forall i | i in items && i.url !in excluded ::
      i.url in reached + UnfoldPass(index, items, excluded, reached).reached
  {
    if items != [] {
      if items[0].url in excluded || items[0].url in reached {
        UnfoldPassReachesAll(index, items[1..], excluded, reached);
      } else {
        var first := Unfold(index, items[0], {items[0].url});
        UnfoldPassReachesAll(index, items[1..], excluded, reached + first.reached);
      }
    }
  }

  lemma {:induction false} IndexFindsItself(items: seq<Item>)
    requires DistinctUrls(items)
    ensures forall i | i in items :: i.url in IndexOf(items) && IndexOf(items)[i.url] == i
  {
    if items != [] {
      var n := |items| - 1;
      assert items == items[..n] + [items[n]];
      IndexFindsItself(items[..n]);
    }
  }

  /**
   A board whose flag is down shows every item with a recognised status, and nothing else, when no
   two items share a URL; cycles and shared sub-issues do not matter.
   */
  lemma UntruncatedBoardIsComplete(items: seq<Item>, skipped: nat)
    requires DistinctUrls(items)
    requires !Collect(items, skipped, false).acc.truncated
    ensures Urls(Collect(items, skipped, false).issues) == set i | i in items && StatusOf(i).Some? :: i.url
  {
    var index := IndexOf(items);
    UntruncatedBoardIsTheUnfolding(items, skipped, false);
    IndexFindsItself(items);
    var first := UnfoldPass(index, items, ChildUrls(items), {});
    var second := UnfoldPass(index, items, {}, first.reached);
    UnfoldPassShows(index, items, ChildUrls(items), {});
    UnfoldPassShows(index, items, {}, first.reached);
    UnfoldPassReachesAll(index, items, {}, first.reached);
    UrlsConcat(first.forest, second.forest);
    ShownAreTheItems(items, first.reached + second.reached);
    assert WithStatus(index, first.reached + second.reached)
        == WithStatus(index, first.reached) + WithStatus(index, second.reached);
  }

  lemma ShownAreTheItems(items: seq<Item>, reached: set<Url>)
    requires DistinctUrls(items)
    requires forall i | i in items :: i.url in reached
    ensures WithStatus(IndexOf(items), reached) == set i | i in items && StatusOf(i).Some? :: i.url
  {
    var index := IndexOf(items);
    var shown := set i | i in items && StatusOf(i).Some? :: i.url;
    IndexFindsItself(items);
    forall u | u in WithStatus(index, reached) ensures u in shown {
      assert index[u] in items && index[u].url == u;
    }
  }
}
