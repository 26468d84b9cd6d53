/**
 The inspection of an application archive before it is extracted, and what an accepted archive's links
 do once it is: exactly the links other than the application itself lead, in one step, into the application.
 */
module CustodyArchive {
  import opened Wrappers
  import opened CustodyPaths

  const MAX_ITEMS := 100000
  const MAX_TOTAL := 4 * 1024 * 1024 * 1024
  const MAX_TARGET := 4096
  const RESOURCES := "__MACOSX"

  datatype Kind = Plainfile | Directory | Symlink(target: Path) | Other

  // A member: its name split at '/', without trailing separators.
  datatype Item = Item(path: Path, size: nat, kind: Kind)

  predicate ValidPath(p: Path) {
    && p != [] && (p[0] == APP || p[0] == RESOURCES)
    && forall i | 0 <= i < |p| :: Plain(p[i]) && '\\' !in p[i]
  }

  predicate Below(p: Path) {
    |p| > 1 && p[0] == APP
  }

  predicate ValidItem(i: Item) {
    && ValidPath(i.path) && !i.kind.Other?
    && (i.kind.Symlink? ==>
          && i.path[0] == APP && i.size <= MAX_TARGET && !Absolute(i.kind.target)
          && Below(Normalised(Up(i.path), i.kind.target)))
  }

  function Total(items: seq<Item>): nat {
    if items == [] then 0 else Total(items[..|items| - 1]) + items[|items| - 1].size
  }

  // The links recorded for the first members.
  function Links(fold: Fold, items: seq<Item>): map<Path, Link>
    requires forall i :: 0 <= i < |items| ==> items[i].path != []
  {
    if items == [] then map[]
    else
      var last, before := items[|items| - 1], Links(fold, items[..|items| - 1]);
      if last.kind.Symlink? then before[Folded(fold, last.path) := Link(Up(last.path), last.kind.target)] else before
  }

  ghost predicate Distinct(fold: Fold, items: seq<Item>) {
    forall i, j :: 0 <= i < j < |items| ==> Folded(fold, items[i].path) != Folded(fold, items[j].path)
  }

  // No directory on the way to the member is a link.
  ghost predicate Direct(fold: Fold, links: map<Path, Link>, p: Path) {
    forall k :: 0 < k < |p| ==> Folded(fold, p[..k]) !in links
  }

  ghost predicate LinkInside(fold: Fold, links: map<Path, Link>, l: Link) {
    StaysInside(fold, links, if l.parent == [] then [""] else l.parent, l.target)
  }

  ghost predicate Accepted(fold: Fold, items: seq<Item>) {
    && 0 < |items| <= MAX_ITEMS && Total(items) <= MAX_TOTAL
    && (forall i :: 0 <= i < |items| ==> ValidItem(items[i]))
    && Distinct(fold, items)
    && (exists i :: 0 <= i < |items| && items[i].path[0] == APP)
    && (forall i :: 0 <= i < |items| ==> Direct(fold, Links(fold, items), items[i].path))
    && (forall p :: p in Links(fold, items) ==> LinkInside(fold, Links(fold, items), Links(fold, items)[p]))
  }

  // ---- What the recorded links are ----

  lemma {:induction false} LinksAreItems(fold: Fold, items: seq<Item>)
    requires forall i :: 0 <= i < |items| ==> items[i].path != []
    requires Distinct(fold, items)
    ensures forall i :: 0 <= i < |items| && items[i].kind.Symlink? ==>
              Folded(fold, items[i].path) in Links(fold, items)
              && Links(fold, items)[Folded(fold, items[i].path)] == Link(Up(items[i].path), items[i].kind.target)
    ensures forall p :: p in Links(fold, items) ==>
              exists i :: 0 <= i < |items| && items[i].kind.Symlink? && p == Folded(fold, items[i].path)
  {
    if items != [] {
      var before := items[..|items| - 1];
      LinksAreItems(fold, before);
      forall i | 0 <= i < |before|
        ensures before[i] == items[i] && Folded(fold, items[i].path) != Folded(fold, items[|items| - 1].path)
      {
      }
    }
  }

  lemma OthersAreNoLinks(fold: Fold, items: seq<Item>, i: nat)
    requires forall j :: 0 <= j < |items| ==> items[j].path != []
    requires Distinct(fold, items) && i < |items| && !items[i].kind.Symlink?
    ensures Folded(fold, items[i].path) !in Links(fold, items)
  {
    LinksAreItems(fold, items);
    forall j | 0 <= j < |items| && items[j].kind.Symlink?
      ensures Folded(fold, items[j].path) != Folded(fold, items[i].path)
    {
    }
  }

  // ---- Theorems about an accepted archive ----

  // Nothing empty or dotted on the way, under one of the two tops.
  ghost predicate KnownPath(p: Path) {
    && p != [] && p[0] in {"Pantheon.app", "__MACOSX"}
    && forall c :: c in p ==> c !in {"", ".", ".."} && '\\' !in c
  }

  // A short relative link of the application that leads below it.
  ghost predicate KnownLink(p: Path, size: nat, target: Path)
    requires p != []
  {
    && p[0] == "Pantheon.app" && size <= 4096 && !(|target| > 1 && target[0] == "")
    && |Normalised(p[..|p| - 1], target)| > 1 && Normalised(p[..|p| - 1], target)[0] == "Pantheon.app"
  }

  ghost predicate KnownItem(i: Item) {
    && KnownPath(i.path)
    && match i.kind
       case Plainfile => true
       case Directory => true
       case Symlink(target) => KnownLink(i.path, i.size, target)
       case Other => false
  }

  lemma ValidIsKnown(i: Item)
    ensures ValidItem(i) <==> KnownItem(i)
  {
    if KnownPath(i.path) {
      forall k | 0 <= k < |i.path|
        ensures Plain(i.path[k]) && '\\' !in i.path[k]
      {
        assert i.path[k] in i.path;
      }
    }
  }

  /** What the members of an accepted archive are: files, directories and known links, under the two tops. */
  lemma MembersAreKnown(fold: Fold, items: seq<Item>, i: nat)
    requires Accepted(fold, items) && i < |items|
    ensures KnownItem(items[i]) && !items[i].kind.Other?
  {
    ValidIsKnown(items[i]);
  }

  lemma AcceptedWithoutLinks(fold: Fold, items: seq<Item>, top: nat)
    requires 0 < |items| <= MAX_ITEMS && Total(items) <= MAX_TOTAL && Distinct(fold, items)
    requires forall i :: 0 <= i < |items| ==> items[i].path != [] && !items[i].kind.Symlink?
    requires forall i :: 0 <= i < |items| ==> ValidItem(items[i])
    requires top < |items| && items[top].path[0] == APP
    ensures Accepted(fold, items)
  {
    NoLinks(fold, items);
    assert forall i :: 0 <= i < |items| ==> Direct(fold, map[], items[i].path);
  }

  // A file or directory.
  ghost predicate PlainItem(i: Item) {
    KnownPath(i.path) && i.kind in {Plainfile, Directory}
  }

  lemma PlainIsValid(i: Item)
    requires PlainItem(i)
    ensures ValidItem(i) && i.path != [] && !i.kind.Symlink?
  {
    ValidIsKnown(i);
  }

  /** Of files and directories within the limits, one of them of the application, nothing else is asked. */
  lemma PlainArchivesAreAccepted(fold: Fold, items: seq<Item>, top: nat)
    requires 0 < |items| <= 100000 && Total(items) <= 4294967296 && Distinct(fold, items)
    requires forall i :: 0 <= i < |items| ==> PlainItem(items[i])
    requires top < |items| && items[top].path != [] && items[top].path[0] == "Pantheon.app"
    ensures Accepted(fold, items)
  {
    forall i | 0 <= i < |items|
      ensures ValidItem(items[i]) && items[i].path != [] && !items[i].kind.Symlink?
    {
      PlainIsValid(items[i]);
    }
    AcceptedWithoutLinks(fold, items, top);
  }

  /** The limits of an accepted archive: 100000 members, four gigabytes. */
  lemma AcceptedIsBounded(fold: Fold, items: seq<Item>)
    requires Accepted(fold, items)
    ensures 0 < |items| <= 100000 && Total(items) <= 4294967296
  {
  }

  lemma {:induction false} NoLinks(fold: Fold, items: seq<Item>)
    requires forall i :: 0 <= i < |items| ==> items[i].path != [] && !items[i].kind.Symlink?
    ensures Links(fold, items) == map[]
  {
    if items != [] {
      NoLinks(fold, items[..|items| - 1]);
    }
  }

  /** Every member other than a link is at its own path: nothing on the way is a link. */
  lemma MembersAreWhereTheySay(fold: Fold, items: seq<Item>, i: nat, allowed: nat)
    requires Accepted(fold, items) && i < |items| && !items[i].kind.Symlink?
    ensures Resolve(fold, Links(fold, items), [], items[i].path, allowed) == At(items[i].path, allowed)
  {
    var p, links := items[i].path, Links(fold, items);
    OthersAreNoLinks(fold, items, i);
    forall k | 0 < k <= |p|
      ensures Folded(fold, [] + p[..k]) !in links
    {
      assert [] + p[..k] == p[..k];
      if k == |p| {
        assert p[..k] == p;
      }
    }
    assert ValidItem(items[i]);
    ResolvesPlainly(fold, links, [], p, [], allowed);
    assert p + [] == p && [] + p == p;
  }

  // Up to its last component the path of a link is plain.
  lemma DirectoryIsReached(fold: Fold, links: map<Path, Link>, dir: Path, last: string, allowed: nat)
    requires PlainPath(dir) && Direct(fold, links, dir + [last])
    ensures Resolve(fold, links, [], dir + [last], allowed) == Resolve(fold, links, dir, [last], allowed)
  {
    forall k | 0 < k <= |dir|
      ensures Folded(fold, [] + dir[..k]) !in links
    {
      assert [] + dir[..k] == (dir + [last])[..k];
    }
    ResolvesPlainly(fold, links, [], dir, [last], allowed);
    assert [] + dir == dir;
  }

  lemma LinkIsFollowed(fold: Fold, links: map<Path, Link>, dir: Path, last: string, target: Path, allowed: nat)
    requires Plain(last) && Folded(fold, dir + [last]) in links && !Absolute(target)
    requires links[Folded(fold, dir + [last])].target == target
    ensures Resolve(fold, links, dir, [last], allowed)
            == if allowed == 0 then Loop else Resolve(fold, links, dir, target, allowed - 1)
  {
    assert [last][1..] == [] && target + [] == target;
  }

  lemma LinkIsReached(fold: Fold, items: seq<Item>, i: nat, allowed: nat)
    requires Accepted(fold, items) && i < |items| && items[i].kind.Symlink?
    ensures var p, links := items[i].path, Links(fold, items);
            Resolve(fold, links, [], p, allowed) ==
              if allowed == 0 then Loop else Resolve(fold, links, Up(p), items[i].kind.target, allowed - 1)
  {
    var p, links := items[i].path, Links(fold, items);
    assert ValidItem(items[i]) && Direct(fold, links, p);
    assert Up(p) + [p[|p| - 1]] == p;
    DirectoryIsReached(fold, links, Up(p), p[|p| - 1], allowed);
    LinksAreItems(fold, items);
    LinkIsFollowed(fold, links, Up(p), p[|p| - 1], items[i].kind.target, allowed);
  }

  /**
   Following a link strictly below the application meets no second link, agrees with the lexical
   normalisation that was checked, and ends strictly below the application.
   */
  lemma LinkLeadsInside(fold: Fold, items: seq<Item>, i: nat, allowed: nat)
    requires Accepted(fold, items) && i < |items| && items[i].kind.Symlink? && |items[i].path| > 1 && allowed > 0
    ensures var p := items[i].path;
            && Resolve(fold, Links(fold, items), [], p, allowed) == At(Normalised(Up(p), items[i].kind.target), allowed - 1)
            && Below(Normalised(Up(p), items[i].kind.target))
  {
    LinkIsReached(fold, items, i, allowed);
    LinksAreItems(fold, items);
    assert ValidItem(items[i]) && LinkInside(fold, Links(fold, items), Links(fold, items)[Folded(fold, items[i].path)]);
    InsideIsLexical(fold, Links(fold, items), Up(items[i].path), items[i].kind.target, allowed - 1);
  }

  // Beside a link at the application there is no member below it.
  lemma RootLinkIsAlone(fold: Fold, items: seq<Item>, i: nat)
    requires Accepted(fold, items) && i < |items| && items[i].kind.Symlink? && |items[i].path| == 1
    ensures Links(fold, items).Keys == {Folded(fold, [APP])}
    ensures Links(fold, items)[Folded(fold, [APP])] == Link([], items[i].kind.target)
  {
    var links := Links(fold, items);
    LinksAreItems(fold, items);
    assert ValidItem(items[i]) && items[i].path == [APP];
    forall p | p in links
      ensures p == Folded(fold, [APP])
    {
      var j :| 0 <= j < |items| && items[j].kind.Symlink? && p == Folded(fold, items[j].path);
      assert ValidItem(items[j]) && Direct(fold, links, items[j].path);
      assert items[j].path[..1] == [APP];
      assert |items[j].path| == 1 ==> items[j].path == [APP];
    }
  }

  /** A link at the application itself is accepted too, and never leads anywhere. */
  lemma RootLinkLeadsNowhere(fold: Fold, items: seq<Item>, i: nat, allowed: nat)
    requires Accepted(fold, items) && i < |items| && items[i].kind.Symlink? && |items[i].path| == 1
    ensures Resolve(fold, Links(fold, items), [], items[i].path, allowed).Loop?
  {
    LinkIsReached(fold, items, i, allowed);
    RootLinkIsAlone(fold, items, i);
    if allowed > 0 {
      var target := items[i].kind.target;
      assert ValidItem(items[i]);
      RootLinkLoops(fold, Links(fold, items), [], target, [], allowed - 1);
      assert target + [] == target && Up(items[i].path) == [];
    }
  }

  /** Exactly: resolving an accepted link comes to an end if and only if it is not the application itself. */
  lemma LinkIsUsableIffBelow(fold: Fold, items: seq<Item>, i: nat)
    requires Accepted(fold, items) && i < |items| && items[i].kind.Symlink?
    ensures (exists n: nat :: Resolve(fold, Links(fold, items), [], items[i].path, n).At?) <==> |items[i].path| > 1
  {
    assert ValidItem(items[i]);
    if |items[i].path| > 1 {
      LinkLeadsInside(fold, items, i, 1);
    } else {
      forall n: nat
        ensures !Resolve(fold, Links(fold, items), [], items[i].path, n).At?
      {
        RootLinkLeadsNowhere(fold, items, i, n);
      }
    }
  }

  const LOOPED := [Item([APP], 14, Symlink([APP, "x"]))]

  /** Such an archive exists. */
  lemma RootLinkIsAccepted(fold: Fold)
    ensures Accepted(fold, LOOPED)
  {
    var p := LOOPED[0].path;
    assert Up(p) == [];
    assert LOOPED[..|LOOPED| - 1] == [];
    assert Links(fold, LOOPED[..|LOOPED| - 1]) == map[];
    assert Total(LOOPED) == 14;
    assert Normalised([], [APP, "x"]) == [APP, "x"] by {
      assert [APP, "x"][1..] == ["x"] && ["x"][1..] == [];
      assert [] + [APP] == [APP] && [APP] + ["x"] == [APP, "x"];
    }
    var links := Links(fold, LOOPED);
    assert links == map[Folded(fold, p) := Link([], [APP, "x"])];
    assert StaysInside(fold, links, [""], [APP, "x"]) by {
      assert [APP, "x"][1..] == ["x"] && ["x"][1..] == [];
      assert |Folded(fold, [""] + [APP])| == 2 && |Folded(fold, [""] + [APP] + ["x"])| == 3;
    }
    assert LOOPED[0].path[0] == APP;
  }
}
