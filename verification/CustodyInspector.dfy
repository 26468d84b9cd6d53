/** The inspector's loops, each proved against what acceptance means. */
module CustodyInspector {
  import opened Wrappers
  import opened CustodyPaths
  import opened CustodyArchive

  function Paths(items: seq<Item>): set<Path> {
    set i | i in items :: i.path
  }

  function FoldedPaths(fold: Fold, items: seq<Item>): set<Path> {
    set i | i in items :: Folded(fold, i.path)
  }

  // What the first loop demands.
  ghost predicate Listed(fold: Fold, items: seq<Item>) {
    && Total(items) <= MAX_TOTAL && Distinct(fold, items)
    && forall i :: 0 <= i < |items| ==> ValidItem(items[i])
  }

  lemma PathsNext(fold: Fold, items: seq<Item>, item: Item)
    ensures Paths(items + [item]) == Paths(items) + {item.path}
    ensures FoldedPaths(fold, items + [item]) == FoldedPaths(fold, items) + {Folded(fold, item.path)}
    ensures Total(items + [item]) == Total(items) + item.size
  {
    assert (items + [item])[..|items|] == items;
  }

  lemma DistinctNext(fold: Fold, items: seq<Item>, item: Item)
    requires Distinct(fold, items)
    ensures Distinct(fold, items + [item]) <==> Folded(fold, item.path) !in FoldedPaths(fold, items)
  {
    var longer := items + [item];
    if Folded(fold, item.path) in FoldedPaths(fold, items) {
      var i :| 0 <= i < |items| && Folded(fold, items[i].path) == Folded(fold, item.path);
      assert longer[i] == items[i] && longer[|items|] == item;
    } else {
      forall i, j | 0 <= i < j < |longer|
        ensures Folded(fold, longer[i].path) != Folded(fold, longer[j].path)
      {
        assert longer[i] == items[i] && items[i] in items;
        assert j < |items| ==> longer[j] == items[j];
      }
    }
  }

  lemma ListedNext(fold: Fold, items: seq<Item>, item: Item)
    requires Listed(fold, items)
    ensures Listed(fold, items + [item]) <==>
              ValidItem(item) && Folded(fold, item.path) !in FoldedPaths(fold, items) && Total(items) + item.size <= MAX_TOTAL
  {
    var longer := items + [item];
    PathsNext(fold, items, item);
    DistinctNext(fold, items, item);
    assert longer[|items|] == item && forall i :: 0 <= i < |items| ==> longer[i] == items[i];
  }

  lemma LinksNext(fold: Fold, items: seq<Item>, item: Item)
    requires forall i :: 0 <= i < |items| ==> items[i].path != []
    requires item.path != []
    ensures Links(fold, items + [item]) ==
              if item.kind.Symlink? then Links(fold, items)[Folded(fold, item.path) := Link(Up(item.path), item.kind.target)]
              else Links(fold, items)
  {
    assert (items + [item])[..|items|] == items;
  }

  lemma {:induction false} ListedPrefix(fold: Fold, items: seq<Item>, k: nat)
    requires Listed(fold, items) && k <= |items|
    ensures Listed(fold, items[..k])
  {
    if k == |items| {
      assert items[..k] == items;
    } else {
      var before := items[..|items| - 1];
      assert Total(before) <= Total(items);
      ListedPrefix(fold, before, k);
      assert before[..k] == items[..k];
    }
  }

  // What the first loop knows of the members it has read.
  ghost predicate Scanned(fold: Fold, read: seq<Item>, seen: set<Path>, foldedSeen: set<Path>, total: nat, links: map<Path, Link>) {
    && Listed(fold, read) && seen == Paths(read) && foldedSeen == FoldedPaths(fold, read)
    && total == Total(read) && links == Links(fold, read)
  }

  lemma ScansNext(fold: Fold, items: seq<Item>, k: nat, seen: set<Path>, foldedSeen: set<Path>, total: nat, links: map<Path, Link>)
    requires k < |items| && Scanned(fold, items[..k], seen, foldedSeen, total, links)
    ensures var item := items[k];
            var fits := ValidItem(item) && item.path !in seen && Folded(fold, item.path) !in foldedSeen && total + item.size <= MAX_TOTAL;
            && (!fits ==> !Listed(fold, items))
            && (fits ==> Scanned(fold, items[..k + 1], seen + {item.path}, foldedSeen + {Folded(fold, item.path)}, total + item.size,
                                 if item.kind.Symlink? then links[Folded(fold, item.path) := Link(Up(item.path), item.kind.target)] else links))
  {
    var item := items[k];
    assert items[..k + 1] == items[..k] + [item];
    ListedNext(fold, items[..k], item);
    PathsNext(fold, items[..k], item);
    assert item.path in seen ==> Folded(fold, item.path) in foldedSeen;
    if Listed(fold, items) {
      ListedPrefix(fold, items, k + 1);
    }
    if Listed(fold, items[..k + 1]) {
      LinksNext(fold, items[..k], item);
      assert items[..k + 1][..k] == items[..k];
    }
  }

  /** The first loop: every member is valid, none repeats another, and the total is bounded. */
  method ScanItems(fold: Fold, items: seq<Item>) returns (ok: bool, seen: set<Path>, links: map<Path, Link>)
    ensures ok <==> Listed(fold, items)
    ensures ok ==> seen == Paths(items) && links == Links(fold, items)
  {
    var foldedSeen: set<Path>, total: nat := {}, 0;
    seen, links := {}, map[];
    for k := 0 to |items|
      invariant Scanned(fold, items[..k], seen, foldedSeen, total, links)
    {
      var item := items[k];
      ScansNext(fold, items, k, seen, foldedSeen, total, links);
      if !ValidItem(item) || item.path in seen || Folded(fold, item.path) in foldedSeen || total + item.size > MAX_TOTAL {
        return false, seen, links;
      }
      seen, foldedSeen, total := seen + {item.path}, foldedSeen + {Folded(fold, item.path)}, total + item.size;
      if item.kind.Symlink? {
        links := links[Folded(fold, item.path) := Link(Up(item.path), item.kind.target)];
      }
    }
    assert items[..|items|] == items;
    ok := true;
  }

  /** The second loop: no member lies behind a link. */
  method CheckParents(fold: Fold, seen: set<Path>, links: map<Path, Link>) returns (ok: bool)
    requires [] !in seen
    ensures ok <==> forall p :: p in seen ==> Direct(fold, links, p)
  {
    var rest := seen;
    while rest != {}
      invariant rest <= seen && forall p :: p in seen && p !in rest ==> Direct(fold, links, p)
      decreases rest
    {
      var name :| name in rest;
      for i := 1 to |name|
        invariant forall k :: 0 < k < i ==> Folded(fold, name[..k]) !in links
      {
        if Folded(fold, name[..i]) in links {
          assert !Direct(fold, links, name);
          return false;
        }
      }
      rest := rest - {name};
    }
    ok := true;
  }

  /** One link of the last loop: its target is walked on a stack that must neither empty nor meet a link. */
  method WalkTarget(fold: Fold, links: map<Path, Link>, parent: Path, target: Path) returns (ok: bool)
    requires parent != []
    ensures ok <==> StaysInside(fold, links, parent, target)
  {
    var stack := parent;
    for k := 0 to |target|
      invariant stack != [] && (StaysInside(fold, links, parent, target) <==> StaysInside(fold, links, stack, target[k..]))
    {
      var part := target[k];
      assert target[k..][1..] == target[k + 1..];
      if part == ".." {
        if |stack| <= 1 {
          return false;
        }
        stack := Up(stack);
      } else if !Skipped(part) {
        stack := stack + [part];
        if Folded(fold, stack) in links {
          return false;
        }
      }
    }
    ok := true;
  }

  method CheckLinks(fold: Fold, links: map<Path, Link>) returns (ok: bool)
    ensures ok <==> forall p :: p in links ==> LinkInside(fold, links, links[p])
  {
    var rest := links.Keys;
    while rest != {}
      invariant rest <= links.Keys && forall p :: p in links && p !in rest ==> LinkInside(fold, links, links[p])
      decreases rest
    {
      var name :| name in rest;
      var link := links[name];
      ok := WalkTarget(fold, links, if link.parent == [] then [""] else link.parent, link.target);
      if !ok {
        return;
      }
      rest := rest - {name};
    }
    ok := true;
  }

  /** The inspection accepts exactly the archives that the theorems are about. */
  method Inspect(fold: Fold, items: seq<Item>) returns (ok: bool)
    ensures ok <==> Accepted(fold, items)
  {
    if items == [] || |items| > MAX_ITEMS {
      return false;
    }
    var seen: set<Path>, links: map<Path, Link>;
    ok, seen, links := ScanItems(fold, items);
    if !ok {
      return;
    }
    SeenIsListed(fold, items);
    if forall p | p in seen :: p[0] != APP {
      return false;
    }
    ok := CheckParents(fold, seen, links);
    if ok { ok := CheckLinks(fold, links); }
  }

  lemma SeenIsListed(fold: Fold, items: seq<Item>)
    requires Listed(fold, items)
    ensures forall p :: p in Paths(items) ==> p != [] && exists i :: 0 <= i < |items| && items[i].path == p
    ensures forall i :: 0 <= i < |items| ==> items[i].path in Paths(items)
  {
    forall p | p in Paths(items)
      ensures p != [] && exists i :: 0 <= i < |items| && items[i].path == p
    {
      var i :| 0 <= i < |items| && items[i].path == p;
      assert ValidItem(items[i]);
    }
    forall i | 0 <= i < |items|
      ensures items[i].path in Paths(items)
    {
      assert items[i] in items;
    }
  }
}
