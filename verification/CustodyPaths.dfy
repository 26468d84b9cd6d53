/**
 Paths as the lists of their components: lexical normalisation, and what following symbolic links on
 disk really does (pathname resolution, POSIX.1-2017 Base Definitions section 4.13).
 */
module CustodyPaths {
  import opened Wrappers

  type Path = seq<string>

  // How the file system identifies names that differ only in case or normal form.
  type Fold = string -> string

  const APP := "Pantheon.app"

  // The links of an archive, by folded path: each holds its directory and its target.
  datatype Link = Link(parent: Path, target: Path)

  function Folded(fold: Fold, p: Path): Path {
    seq(|p|, i requires 0 <= i < |p| => fold(p[i]))
  }

  predicate Skipped(c: string) {
    c == "" || c == "."
  }

  predicate Plain(c: string) {
    !Skipped(c) && c != ".."
  }

  ghost predicate PlainPath(p: Path) {
    forall i :: 0 <= i < |p| ==> Plain(p[i])
  }

  predicate Absolute(target: Path) {
    |target| > 1 && target[0] == ""
  }

  function Up(p: Path): Path
    requires p != []
  {
    p[..|p| - 1]
  }

  // `posixpath.normpath` of a relative path that continues `at`.
  function Normalised(at: Path, rest: Path): Path
    decreases |rest|
  {
    if rest == [] then at
    else if Skipped(rest[0]) then Normalised(at, rest[1..])
    else if rest[0] == ".." then
      if at == [] || at[|at| - 1] == ".." then Normalised(at + [".."], rest[1..]) else Normalised(Up(at), rest[1..])
    else Normalised(at + [rest[0]], rest[1..])
  }

  // The last loop of the inspector: no step above the top, no step onto a link.
  predicate StaysInside(fold: Fold, links: map<Path, Link>, at: Path, rest: Path)
    decreases |rest|
  {
    if rest == [] then true
    else if Skipped(rest[0]) then StaysInside(fold, links, at, rest[1..])
    else if rest[0] == ".." then |at| > 1 && StaysInside(fold, links, Up(at), rest[1..])
    else Folded(fold, at + [rest[0]]) !in links && StaysInside(fold, links, at + [rest[0]], rest[1..])
  }

  // Where a path leads, and how many of the allowed links were left unused.
  datatype Resolution = At(path: Path, unused: nat) | Outside | Loop

  function Resolve(fold: Fold, links: map<Path, Link>, at: Path, rest: Path, allowed: nat): Resolution
    decreases allowed, |rest|
  {
    if rest == [] then At(at, allowed)
    else if Skipped(rest[0]) then Resolve(fold, links, at, rest[1..], allowed)
    else if rest[0] == ".." then
      if at == [] then Outside else Resolve(fold, links, Up(at), rest[1..], allowed)
    else
      var next := Folded(fold, at + [rest[0]]);
      if next !in links then Resolve(fold, links, at + [rest[0]], rest[1..], allowed)
      else if Absolute(links[next].target) then Outside
      else if allowed == 0 then Loop
      else Resolve(fold, links, at, links[next].target + rest[1..], allowed - 1)
  }

  // A path all of whose steps are plain and not links leads where it says.
  lemma {:induction false} ResolvesPlainly(fold: Fold, links: map<Path, Link>, at: Path, p: Path, rest: Path, allowed: nat)
    requires PlainPath(p)
    requires forall i :: 0 < i <= |p| ==> Folded(fold, at + p[..i]) !in links
    ensures Resolve(fold, links, at, p + rest, allowed) == Resolve(fold, links, at + p, rest, allowed)
    decreases |p|
  {
    if p == [] {
      assert p + rest == rest && at + p == at;
    } else {
      var next := at + [p[0]];
      assert next == at + p[..1];
      assert (p + rest)[1..] == p[1..] + rest;
      forall i | 0 < i <= |p| - 1
        ensures Folded(fold, next + p[1..][..i]) !in links
      {
        assert next + p[1..][..i] == at + p[..i + 1];
      }
      ResolvesPlainly(fold, links, next, p[1..], rest, allowed);
      assert next + p[1..] == at + p;
    }
  }

  /** A target that stays inside is resolved without another link, to what normalisation says. */
  lemma {:induction false} InsideIsLexical(fold: Fold, links: map<Path, Link>, at: Path, rest: Path, allowed: nat)
    requires PlainPath(at) && at != [] && StaysInside(fold, links, at, rest)
    ensures Resolve(fold, links, at, rest, allowed) == At(Normalised(at, rest), allowed)
    ensures Normalised(at, rest) != [] && Normalised(at, rest)[0] == at[0] && PlainPath(Normalised(at, rest))
    decreases |rest|
  {
    if rest == [] {
    } else if Skipped(rest[0]) {
      InsideIsLexical(fold, links, at, rest[1..], allowed);
    } else if rest[0] == ".." {
      assert Plain(at[|at| - 1]);
      InsideIsLexical(fold, links, Up(at), rest[1..], allowed);
    } else {
      InsideIsLexical(fold, links, at + [rest[0]], rest[1..], allowed);
    }
  }

  // Once above the start, a normalised path stays above it.
  lemma {:induction false} AboveStaysAbove(at: Path, rest: Path)
    requires at != [] && at[0] == ".."
    ensures Normalised(at, rest) != [] && Normalised(at, rest)[0] == ".."
    decreases |rest|
  {
    if rest == [] {
    } else if Skipped(rest[0]) {
      AboveStaysAbove(at, rest[1..]);
    } else if rest[0] == ".." {
      if at[|at| - 1] == ".." {
        AboveStaysAbove(at + [".."], rest[1..]);
      } else {
        AboveStaysAbove(Up(at), rest[1..]);
      }
    } else {
      AboveStaysAbove(at + [rest[0]], rest[1..]);
    }
  }

  lemma SameTop(fold: Fold, c: string)
    ensures fold(c) == fold(APP) ==> Folded(fold, [] + [c]) == Folded(fold, [APP])
  {
  }

  // With the application itself a link into itself, no number of links is enough.
  lemma {:induction false} RootLinkLoops(fold: Fold, links: map<Path, Link>, at: Path, rest: Path, tail: Path, allowed: nat)
    requires Folded(fold, [APP]) in links && !Absolute(links[Folded(fold, [APP])].target)
    requires links.Keys == {Folded(fold, [APP])}
    requires Normalised([], links[Folded(fold, [APP])].target) != [] && Normalised([], links[Folded(fold, [APP])].target)[0] == APP
    requires at != [] ==> fold(at[0]) != fold(APP) && at[0] != ".."
    requires PlainPath(at)
    requires Normalised(at, rest) != [] && Normalised(at, rest)[0] == APP
    ensures Resolve(fold, links, at, rest + tail, allowed).Loop?
    decreases allowed, |rest|
  {
    var target := links[Folded(fold, [APP])].target;
    if rest == [] {
      assert false;
    } else if Skipped(rest[0]) {
      assert (rest + tail)[1..] == rest[1..] + tail;
      RootLinkLoops(fold, links, at, rest[1..], tail, allowed);
    } else if rest[0] == ".." {
      if at == [] {
        AboveStaysAbove(at + [".."], rest[1..]);
        assert false;
      } else {
        assert Plain(at[|at| - 1]);
        assert (rest + tail)[1..] == rest[1..] + tail;
        RootLinkLoops(fold, links, Up(at), rest[1..], tail, allowed);
      }
    } else {
      var next := at + [rest[0]];
      assert (rest + tail)[1..] == rest[1..] + tail;
      if Folded(fold, next) in links {
        assert Folded(fold, next) == Folded(fold, [APP]);
        assert |Folded(fold, next)| == |next|;
        if allowed > 0 {
          RootLinkLoops(fold, links, [], target, rest[1..] + tail, allowed - 1);
        }
      } else {
        SameTop(fold, rest[0]);
        RootLinkLoops(fold, links, next, rest[1..], tail, allowed);
      }
    }
  }
}
