/** The release cut on a whole changelog file, and what a second run of it does. */
module ChangelogCut {
  import opened Wrappers
  import opened ChangelogBullets
  import opened ChangelogRelease

  predicate IsUnreleased(p: Text)
    requires p != []
  {
    Starts(p[0], UNRELEASED)
  }

  // The unreleased sections, or the others, in order.
  function Select(sections: seq<Text>, unreleased: bool): (s: seq<Text>)
    requires forall i :: 0 <= i < |sections| ==> sections[i] != []
    ensures forall i :: 0 <= i < |s| ==> s[i] != []
  {
    if sections == [] then []
    else
      var before, last := Select(sections[..|sections| - 1], unreleased), sections[|sections| - 1];
      if IsUnreleased(last) == unreleased then before + [last] else before
  }

  function AllBullets(r: Rules, texts: seq<Text>): seq<Text> {
    if texts == [] then [] else AllBullets(r, texts[..|texts| - 1]) + Bullets(r, texts[|texts| - 1])
  }

  function ReleasedKeys(r: Rules, sections: seq<Text>): set<seq<string>>
    requires forall i :: 0 <= i < |sections| ==> sections[i] != []
  {
    Keys(r, Bullets(r, Lines(Select(sections, false))))
  }

  function NewBullets(r: Rules, sections: seq<Text>): seq<Text>
    requires forall i :: 0 <= i < |sections| ==> sections[i] != []
  {
    Fresh(r, AllBullets(r, Select(sections, true)), ReleasedKeys(r, sections))
  }

  function Title(version: string, date: string): string {
    MARK + version + "] — " + date
  }

  const EMPTY_BLOCK: Text := [UNRELEASED, "", ""]

  // The section that is written; another newline follows it if older sections do.
  function Cut(title: string, bullets: seq<Text>, last: bool): Text {
    [title, ""] + Joined(bullets) + if last then [""] else ["", ""]
  }

  function NewParts(parts: seq<Text>, title: string, bullets: seq<Text>): (s: seq<Text>)
    requires forall i :: 0 <= i < |parts| ==> parts[i] != []
    requires parts != []
    ensures forall i :: 0 <= i < |s| ==> s[i] != []
  {
    var older := Select(parts[1..], false);
    [parts[0], EMPTY_BLOCK, Cut(title, bullets, older == [])] + older
  }

  // The file after a release, or a refusal that writes nothing.
  function Release(r: Rules, lines: Text, title: string): Option<Text>
    requires lines != []
  {
    PartsAreShaped(lines);
    var parts := Parts(lines);
    assert forall i :: 0 < i < |parts| ==> Section(parts[i]);
    var bullets := NewBullets(r, parts[1..]);
    if bullets == [] then None else Some(Concat(NewParts(parts, title, bullets)))
  }

  // ---- The loops ----

  lemma FreshGrows(r: Rules, before: seq<Text>, bullets: seq<Text>, k: nat, released: set<seq<string>>)
    requires k < |bullets|
    ensures var kept, b := Fresh(r, before + bullets[..k], released), bullets[k];
            var key := Key(r, b);
            var now := if key != [] && key !in Keys(r, kept) && key !in released then kept + [b] else kept;
            && Fresh(r, before + bullets[..k + 1], released) == now
            && Keys(r, kept + [b]) == Keys(r, kept) + {key}
  {
    FreshNext(r, before + bullets[..k], bullets[k], released);
    assert before + bullets[..k + 1] == before + bullets[..k] + [bullets[k]];
    KeysNext(r, Fresh(r, before + bullets[..k], released), bullets[k]);
  }

  // The inner loop: one block's bullets, behind those that went before.
  method KeepFrom(r: Rules, ghost before: seq<Text>, bullets: seq<Text>, released: set<seq<string>>,
                  kept: seq<Text>, seen: set<seq<string>>)
      returns (now: seq<Text>, keys: set<seq<string>>)
    requires kept == Fresh(r, before, released) && seen == Keys(r, kept)
    ensures now == Fresh(r, before + bullets, released) && keys == Keys(r, now)
  {
    now, keys := kept, seen;
    assert before + bullets[..0] == before && before + bullets[..|bullets|] == before + bullets;
    for k := 0 to |bullets|
      invariant now == Fresh(r, before + bullets[..k], released) && keys == Keys(r, now)
    {
      var b := bullets[k];
      var key := Key(r, b);
      FreshGrows(r, before, bullets, k, released);
      if key != [] && key !in keys && key !in released {
        now, keys := now + [b], keys + {key};
      }
    }
  }

  /** The cut's loop over the unreleased blocks. */
  method KeepNew(r: Rules, blocks: seq<Text>, released: set<seq<string>>) returns (kept: seq<Text>)
    ensures kept == Fresh(r, AllBullets(r, blocks), released)
    ensures DistinctKeys(r, kept) && (forall b :: b in kept ==> b in AllBullets(r, blocks))
    ensures Keys(r, kept) == set b | b in AllBullets(r, blocks) && New(Key(r, b), released) :: Key(r, b)
  {
    var seen: set<seq<string>> := {};
    kept := [];
    for i := 0 to |blocks|
      invariant kept == Fresh(r, AllBullets(r, blocks[..i]), released) && seen == Keys(r, kept)
    {
      var bullets := Parse(r, blocks[i]);
      kept, seen := KeepFrom(r, AllBullets(r, blocks[..i]), bullets, released, kept, seen);
      assert blocks[..i + 1][..i] == blocks[..i];
    }
    assert blocks[..|blocks|] == blocks;
    FreshIsExact(r, AllBullets(r, blocks), released);
  }

  /** One run of the script on the changelog. */
  method CutRelease(r: Rules, lines: Text, version: string, date: string) returns (written: Option<Text>)
    requires lines != []
    ensures written == Release(r, lines, Title(version, date))
    ensures Sane(r) ==> (written.None? <==> forall b :: !ToRelease(r, Parts(lines)[1..], b))
    ensures Sane(r) && written.Some? ==> ReleaseWrites(r, Parts(lines), version, date, Parts(written.value))
    ensures Sane(r) && written.Some? && !ReadsUnreleased(version) ==> forall title :: Release(r, written.value, title).None?
  {
    PartsAreShaped(lines);
    var parts := Parts(lines);
    assert forall i :: 0 < i < |parts| ==> Section(parts[i]);
    var older := Select(parts[1..], false);
    var released := Parse(r, Lines(older));
    var bullets := KeepNew(r, Select(parts[1..], true), Keys(r, released));
    if Sane(r) {
      ReleaseIs(r, lines, version, date);
    }
    if bullets == [] {
      return None;
    }
    written := Some(Concat(NewParts(parts, Title(version, date), bullets)));
    RerunsAreRefused(r, lines, version, date);
  }

  lemma RerunsAreRefused(r: Rules, lines: Text, version: string, date: string)
    requires lines != [] && Release(r, lines, Title(version, date)).Some?
    ensures Sane(r) && !ReadsUnreleased(version) ==>
              forall title :: Release(r, Release(r, lines, Title(version, date)).value, title).None?
  {
    if Sane(r) && !ReadsUnreleased(version) {
      forall title
        ensures Release(r, Release(r, lines, Title(version, date)).value, title).None?
      {
        RerunIsRefusedIff(r, lines, version, date, title);
      }
    }
  }

  // ---- The written file ----

  lemma {:induction false} JoinedHasNoHeadings(r: Rules, bullets: seq<Text>)
    requires Sane(r) && AllInForm(r, bullets)
    ensures NoHeadings(Joined(bullets))
  {
    if bullets != [] {
      var last := bullets[|bullets| - 1];
      forall i | 0 <= i < |last|
        ensures !IsHeading(last[i])
      {
        if i > 0 {
          assert Inner(r, last[i]);
          NotABullet(r, last[i]);
        }
        HeadingIsHash(last[i]);
      }
      if |bullets| > 1 {
        JoinedHasNoHeadings(r, bullets[..|bullets| - 1]);
      }
    }
  }

  lemma HeadingIsHash(line: string)
    ensures IsHeading(line) ==> Starts(line, "#") && !Starts(line, "- ")
  {
    if IsHeading(line) {
      assert line[0] == MARK[0];
    }
  }

  ghost predicate AllSections(s: seq<Text>) {
    forall i :: 0 <= i < |s| ==> s[i] != [] && Section(s[i])
  }

  ghost predicate AllMarked(s: seq<Text>, unreleased: bool) {
    forall i :: 0 <= i < |s| ==> s[i] != [] && IsUnreleased(s[i]) == unreleased
  }

  ghost predicate AllComplete(s: seq<Text>) {
    forall i :: 0 <= i < |s| ==> s[i] != [] && Complete(s[i])
  }

  lemma {:induction false} SelectKeeps(sections: seq<Text>, unreleased: bool)
    requires forall i :: 0 <= i < |sections| ==> sections[i] != []
    ensures AllMarked(Select(sections, unreleased), unreleased)
    ensures AllSections(sections) ==> AllSections(Select(sections, unreleased))
    ensures AllComplete(sections) ==> AllComplete(Select(sections, unreleased))
  {
    if sections != [] {
      SelectKeeps(sections[..|sections| - 1], unreleased);
    }
  }

  // Only the last of the selected can be the last of all.
  lemma SelectCompleteButLast(sections: seq<Text>, unreleased: bool)
    requires forall i :: 0 <= i < |sections| ==> sections[i] != []
    requires sections != [] ==> AllComplete(sections[..|sections| - 1])
    ensures var s := Select(sections, unreleased);
            s != [] ==> AllComplete(s[..|s| - 1])
  {
    if sections != [] {
      SelectKeeps(sections[..|sections| - 1], unreleased);
    }
  }

  lemma {:induction false} SelectAll(sections: seq<Text>, unreleased: bool)
    requires forall i :: 0 <= i < |sections| ==> sections[i] != [] && IsUnreleased(sections[i]) == unreleased
    ensures Select(sections, unreleased) == sections && Select(sections, !unreleased) == []
  {
    if sections != [] {
      SelectAll(sections[..|sections| - 1], unreleased);
      assert sections == sections[..|sections| - 1] + [sections[|sections| - 1]];
    }
  }

  lemma {:induction false} SelectAppend(a: seq<Text>, b: seq<Text>, unreleased: bool)
    requires forall i :: 0 <= i < |a| ==> a[i] != []
    requires forall i :: 0 <= i < |b| ==> b[i] != []
    ensures Select(a + b, unreleased) == Select(a, unreleased) + Select(b, unreleased)
  {
    if b == [] {
      assert a + b == a;
    } else {
      assert (a + b)[..|a + b| - 1] == a + b[..|b| - 1];
      SelectAppend(a, b[..|b| - 1], unreleased);
    }
  }

  /** Version names that make the written heading read as unreleased. */
  predicate ReadsUnreleased(version: string) {
    version == "Unreleased" || Starts(version, "Unreleased]")
  }

  lemma PrefixOfSum(a: string, b: string, word: string)
    ensures Starts(a + b, a + word) <==> Starts(b, word)
  {
    if Starts(a + b, a + word) {
      assert forall i :: 0 <= i < |word| ==> b[i] == (a + b)[|a| + i] == (a + word)[|a| + i] == word[i];
    }
    if Starts(b, word) {
      assert forall i :: 0 <= i < |word| ==> (a + b)[|a| + i] == b[i] == word[i] == (a + word)[|a| + i];
    }
  }

  lemma VersionReadsUnreleased(version: string, rest: string)
    ensures Starts(version + "]" + rest, "Unreleased]") <==> ReadsUnreleased(version)
  {
    var title, word := version + "]" + rest, "Unreleased]";
    if Starts(title, word) {
      if |version| < |word| {
        assert title[|version|] == ']' == word[|version|];
        assert version == title[..|version|] == word[..|version|];
      } else {
        assert version[..|word|] == title[..|word|];
      }
    }
  }

  lemma TitleReadsUnreleased(version: string, date: string)
    ensures Starts(Title(version, date), UNRELEASED) <==> ReadsUnreleased(version)
    ensures IsHeading(Title(version, date)) && Starts(Title(version, date), "#")
  {
    var rest := version + "]" + (" — " + date);
    assert Title(version, date) == MARK + rest && UNRELEASED == MARK + "Unreleased]";
    PrefixOfSum(MARK, rest, "Unreleased]");
    VersionReadsUnreleased(version, " — " + date);
    assert Title(version, date)[0] == MARK[0];
  }

  lemma CutIsSection(r: Rules, title: string, bullets: seq<Text>, last: bool)
    requires Sane(r) && AllInForm(r, bullets) && IsHeading(title)
    ensures Section(Cut(title, bullets, last)) && Complete(Cut(title, bullets, last))
  {
    JoinedHasNoHeadings(r, bullets);
    var cut, tail := Cut(title, bullets, last), if last then [""] else ["", ""];
    assert cut[1..] == [""] + Joined(bullets) + tail;
    assert !IsHeading("");
  }

  /** The written file splits into the old preamble, an empty block, the new section, and the older ones. */
  lemma WrittenParts(r: Rules, parts: seq<Text>, title: string, bullets: seq<Text>)
    requires Sane(r) && Shaped(parts) && |parts| > 1 && AllInForm(r, bullets) && IsHeading(title)
    requires forall i :: 0 <= i < |parts| ==> parts[i] != []
    ensures Parts(Concat(NewParts(parts, title, bullets))) == NewParts(parts, title, bullets)
  {
    var older := Select(parts[1..], false);
    var cut := Cut(title, bullets, older == []);
    var all := NewParts(parts, title, bullets);
    CutIsSection(r, title, bullets, older == []);
    assert forall i :: 0 < i < |parts| ==> Section(parts[i]);
    SelectKeeps(parts[1..], false);
    SelectCompleteButLast(parts[1..], false);
    assert EMPTY_BLOCK[1..] == ["", ""] && !IsHeading("");
    forall i | 0 < i < |all|
      ensures Section(all[i]) && (i < |all| - 1 ==> Complete(all[i]))
    {
      if i >= 3 {
        assert all[i] == older[i - 3] && Section(older[i - 3]);
        assert i < |all| - 1 ==> older[i - 3] == older[..|older| - 1][i - 3];
      }
    }
    PartsRoundTrip(all);
  }

  // ---- What is cut ----

  lemma {:induction false} AllBulletsAreInForm(r: Rules, texts: seq<Text>)
    requires Sane(r)
    ensures forall b :: b in AllBullets(r, texts) ==> InForm(r, b) || b == ["-"]
  {
    if texts != [] {
      AllBulletsAreInForm(r, texts[..|texts| - 1]);
      var last := texts[|texts| - 1];
      forall i | 0 <= i < |Bullets(r, last)|
        ensures InForm(r, Bullets(r, last)[i]) || Bullets(r, last)[i] == ["-"]
      {
        BulletsAreInForm(r, last, i);
      }
    }
  }

  lemma DashHasNoKey(r: Rules)
    requires Sane(r)
    ensures Key(r, ["-"]) == []
  {
    assert "-"[1..] == "" && ["-"][..0] == [];
    assert Words(r, "-", []) == [];
  }

  // What is cut can be read back, and every one of it is new.
  lemma CutBullets(r: Rules, sections: seq<Text>)
    requires Sane(r) && forall i :: 0 <= i < |sections| ==> sections[i] != []
    ensures var bullets, released := NewBullets(r, sections), ReleasedKeys(r, sections);
            && AllInForm(r, bullets) && DistinctKeys(r, bullets)
            && (forall b :: b in bullets ==> New(Key(r, b), released))
  {
    var all, released := AllBullets(r, Select(sections, true)), ReleasedKeys(r, sections);
    var bullets := NewBullets(r, sections);
    AllBulletsAreInForm(r, Select(sections, true));
    FreshIsExact(r, all, released);
    DashHasNoKey(r);
    forall b | b in bullets
      ensures New(Key(r, b), released) && InForm(r, b)
    {
      assert Key(r, b) in Keys(r, bullets);
    }
    forall i | 0 <= i < |bullets|
      ensures InForm(r, bullets[i])
    {
      assert bullets[i] in bullets;
    }
  }

  lemma CutReadsBack(r: Rules, title: string, bullets: seq<Text>, last: bool)
    requires Sane(r) && AllInForm(r, bullets) && Starts(title, "#")
    ensures Bullets(r, Cut(title, bullets, last)) == bullets && Bullets(r, EMPTY_BLOCK) == []
  {
    BulletsRoundTrip(r, title, bullets, if last then [""] else ["", ""]);
    BulletsRoundTrip(r, UNRELEASED, [], [""]);
    assert [UNRELEASED, ""] + Joined([]) + [""] == EMPTY_BLOCK;
  }

  lemma FirstSections(cut: Text, unreleased: bool)
    requires cut != []
    ensures Select([EMPTY_BLOCK, cut], unreleased)
         == (if unreleased then [EMPTY_BLOCK] else []) + if IsUnreleased(cut) == unreleased then [cut] else []
  {
    SelectAll([EMPTY_BLOCK], true);
    assert [EMPTY_BLOCK, cut][..1] == [EMPTY_BLOCK];
    assert Select([EMPTY_BLOCK], unreleased) == if unreleased then [EMPTY_BLOCK] else [];
  }

  // The sections of the written file, selected again.
  lemma NewSections(older: seq<Text>, cut: Text)
    requires cut != [] && AllMarked(older, false)
    ensures var sections := [EMPTY_BLOCK, cut] + older;
            && Select(sections, true) == (if IsUnreleased(cut) then [EMPTY_BLOCK, cut] else [EMPTY_BLOCK])
            && Select(sections, false) == (if IsUnreleased(cut) then older else [cut] + older)
  {
    NewSelected(older, cut, true);
    NewSelected(older, cut, false);
    assert [EMPTY_BLOCK] + [cut] == [EMPTY_BLOCK, cut];
  }

  lemma NewSelected(older: seq<Text>, cut: Text, unreleased: bool)
    requires cut != [] && AllMarked(older, false)
    ensures Select([EMPTY_BLOCK, cut] + older, unreleased)
         == (if unreleased then [EMPTY_BLOCK] else []) + (if IsUnreleased(cut) == unreleased then [cut] else [])
            + if unreleased then [] else older
  {
    SelectAll(older, false);
    FirstSections(cut, unreleased);
    SelectAppend([EMPTY_BLOCK, cut], older, unreleased);
  }

  lemma ReleaseMeans(r: Rules, lines: Text, title: string)
    requires lines != []
    ensures Shaped(Parts(lines)) && forall i :: 0 <= i < |Parts(lines)| ==> Parts(lines)[i] != []
    ensures var bullets := NewBullets(r, Parts(lines)[1..]);
            Release(r, lines, title) == if bullets == [] then None else Some(Concat(NewParts(Parts(lines), title, bullets)))
  {
    PartsAreShaped(lines);
    assert forall i :: 0 < i < |Parts(lines)| ==> Section(Parts(lines)[i]);
  }

  // The sections of the file a release writes.
  function NewOf(sections: seq<Text>, title: string, bullets: seq<Text>): (s: seq<Text>)
    requires forall i :: 0 <= i < |sections| ==> sections[i] != []
    ensures forall i :: 0 <= i < |s| ==> s[i] != []
  {
    var older := Select(sections, false);
    [EMPTY_BLOCK, Cut(title, bullets, older == [])] + older
  }

  lemma WrittenSections(r: Rules, lines: Text, title: string)
    requires Sane(r) && lines != [] && IsHeading(title) && Release(r, lines, title).Some?
    ensures Shaped(Parts(lines)) && forall i :: 0 <= i < |Parts(lines)| ==> Parts(lines)[i] != []
    ensures var bullets := NewBullets(r, Parts(lines)[1..]);
            && bullets != []
            && Parts(Release(r, lines, title).value)[1..] == NewOf(Parts(lines)[1..], title, bullets)
  {
    ReleaseMeans(r, lines, title);
    var parts := Parts(lines);
    var bullets := NewBullets(r, parts[1..]);
    CutBullets(r, parts[1..]);
    NoSections(r, parts[1..]);
    WrittenTail(r, parts, title, bullets);
  }

  lemma WrittenTail(r: Rules, parts: seq<Text>, title: string, bullets: seq<Text>)
    requires Sane(r) && Shaped(parts) && |parts| > 1 && AllInForm(r, bullets) && IsHeading(title)
    requires forall i :: 0 <= i < |parts| ==> parts[i] != []
    ensures Parts(Concat(NewParts(parts, title, bullets)))[1..] == NewOf(parts[1..], title, bullets)
  {
    WrittenParts(r, parts, title, bullets);
    assert NewParts(parts, title, bullets) == [parts[0]] + NewOf(parts[1..], title, bullets);
  }

  lemma NoSections(r: Rules, sections: seq<Text>)
    requires forall i :: 0 <= i < |sections| ==> sections[i] != []
    ensures sections == [] ==> NewBullets(r, sections) == []
  {
  }

  lemma BulletsOfTwo(r: Rules, cut: Text)
    requires Bullets(r, EMPTY_BLOCK) == []
    ensures AllBullets(r, [EMPTY_BLOCK]) == [] && AllBullets(r, [EMPTY_BLOCK, cut]) == Bullets(r, cut)
  {
    assert [EMPTY_BLOCK, cut][..1] == [EMPTY_BLOCK] && [EMPTY_BLOCK][..0] == [];
    assert AllBullets(r, [EMPTY_BLOCK]) == AllBullets(r, []) + Bullets(r, EMPTY_BLOCK);
  }

  // What a second run finds in the sections of the first.
  lemma SecondRunFinds(r: Rules, sections: seq<Text>, title: string)
    requires Sane(r) && Starts(title, "#") && forall i :: 0 <= i < |sections| ==> sections[i] != []
    ensures var bullets := NewBullets(r, sections);
            NewBullets(r, NewOf(sections, title, bullets)) == if Starts(title, UNRELEASED) then bullets else []
  {
    var bullets, older := NewBullets(r, sections), Select(sections, false);
    var cut := Cut(title, bullets, older == []);
    CutBullets(r, sections);
    CutReadsBack(r, title, bullets, older == []);
    SelectKeeps(sections, false);
    NewSections(older, cut);
    BulletsOfTwo(r, cut);
    FreshOfNew(r, bullets, ReleasedKeys(r, sections));
    FreshOfNone(r, ReleasedKeys(r, NewOf(sections, title, bullets)));
  }

  lemma FreshOfNone(r: Rules, released: set<seq<string>>)
    ensures Fresh(r, [], released) == []
  {
  }

  /**
   Running the release again on the file it wrote finds no new bullets and is refused, if and only if
   the version does not itself read as unreleased.
   */
  lemma RerunIsRefusedIff(r: Rules, lines: Text, version: string, date: string, title: string)
    requires Sane(r) && lines != [] && Release(r, lines, Title(version, date)).Some?
    ensures Release(r, Release(r, lines, Title(version, date)).value, title).None? <==> !ReadsUnreleased(version)
  {
    TitleReadsUnreleased(version, date);
    WrittenSections(r, lines, Title(version, date));
    SecondRunFinds(r, Parts(lines)[1..], Title(version, date));
    ReleaseMeans(r, Release(r, lines, Title(version, date)).value, title);
  }

  // ---- It happens: a version that reads as unreleased is cut again and again ----

  const UNCUT: Text := [UNRELEASED, "- a"]

  lemma OneBullet(r: Rules)
    requires Sane(r) && !r.space('a')
    ensures Bullets(r, UNCUT) == [["- a"]]
  {
    assert UNCUT[..1] == [UNRELEASED] && UNCUT[..1][..0] == [];
    assert Starts("- a", "- ") && Starts(UNRELEASED, "#");
    assert UNRELEASED[0] != "- "[0];
    assert Run(r, START, UNCUT[..1]) == START;
    assert Run(r, START, UNCUT) == Parser([], ["- a"], false);
    assert RightTrim(r, "- a") == "- a";
    assert !Blank(r, "- a") by {
      assert 'a' in "- a";
    }
    assert RightStrip(r, ["- a"]) == ["- a"];
  }

  lemma HasAWord(r: Rules)
    requires Sane(r) && r.word('a')
    ensures Key(r, ["- a"]) != []
  {
    var line := "- a";
    assert line[1..] == " a" && " a"[1..] == "a" && "a"[1..] == "";
    assert [] + ['a'] == ['a'];
    assert Words(r, "a", []) == Words(r, "", ['a']);
    assert |Words(r, " a", [])| > 0;
    assert Words(r, line, []) == Words(r, " a", []);
  }

  lemma UncutIsReleased(r: Rules, title: string)
    requires Sane(r) && !r.space('a') && r.word('a')
    ensures Release(r, UNCUT, title).Some?
  {
    assert UNCUT[1..] == ["- a"] && IsHeading(UNRELEASED) && !IsHeading("- a");
    var parts := Parts(UNCUT);
    PartsOfHeading(UNRELEASED, ["- a"]);
    assert UNCUT == [UNRELEASED] + ["- a"] && Parts(["- a"]) == [["- a"]];
    assert parts == [[""], UNCUT];
    var sections := parts[1..];
    assert sections == [UNCUT] && sections[..0] == [];
    assert Select(sections, true) == [UNCUT] && Select(sections, false) == [];
    OneBullet(r);
    assert AllBullets(r, [UNCUT]) == [["- a"]] by {
      assert [UNCUT][..0] == [];
    }
    HasAWord(r);
    var released := ReleasedKeys(r, sections);
    assert released == {};
    FreshIsExact(r, [["- a"]], released);
    assert ["- a"] in [["- a"]];
    assert Key(r, ["- a"]) in Keys(r, Fresh(r, [["- a"]], released));
    ReleaseMeans(r, UNCUT, title);
  }

  /** The rerun on the written file is not refused for the version `Unreleased`. */
  lemma RerunCanSucceed(r: Rules, date: string, title: string)
    requires Sane(r) && !r.space('a') && r.word('a')
    ensures var written := Release(r, UNCUT, Title("Unreleased", date));
            written.Some? && Release(r, written.value, title).Some?
  {
    UncutIsReleased(r, Title("Unreleased", date));
    RerunIsRefusedIff(r, UNCUT, "Unreleased", date, title);
  }

  // ---- Nothing is lost ----

  lemma {:induction false} RunIsLocal(r: Rules, done: seq<Text>, p: Parser, lines: Text)
    ensures Run(r, p.(done := done + p.done), lines) == Run(r, p, lines).(done := done + Run(r, p, lines).done)
  {
    if lines != [] {
      RunIsLocal(r, done, p, lines[..|lines| - 1]);
      var q := Run(r, p, lines[..|lines| - 1]);
      assert done + Flushed(q) == Flushed(q.(done := done + q.done));
    }
  }

  lemma HeadingResets(r: Rules, p: Parser, h: string)
    requires Starts(h, "#")
    ensures Run(r, p, [h]) == Parser(Flushed(p), [], false)
  {
    assert [h][..0] == [] && h[0] == '#';
    assert Run(r, p, []) == p;
  }

  lemma RunBehindHeading(r: Rules, p: Parser, h: string, rest: Text)
    requires Starts(h, "#")
    ensures Flushed(Run(r, p, [h] + rest)) == Flushed(p) + Flushed(Run(r, START, rest))
  {
    RunAppend(r, p, [h], rest);
    HeadingResets(r, p, h);
    RunIsLocal(r, Flushed(p), START, rest);
    assert Flushed(p) + [] == Flushed(p);
  }

  lemma BulletsSplit(r: Rules, a: Text, b: Text)
    requires b == [] || Starts(b[0], "#")
    ensures Bullets(r, a + b) == Bullets(r, a) + Bullets(r, b)
  {
    if b == [] {
      assert a + b == a;
    } else {
      assert b == [b[0]] + b[1..];
      RunAppend(r, START, a, b);
      RunBehindHeading(r, Run(r, START, a), b[0], b[1..]);
      RunBehindHeading(r, START, b[0], b[1..]);
    }
  }

  lemma KeysAppend(r: Rules, a: seq<Text>, b: seq<Text>)
    ensures Keys(r, a + b) == Keys(r, a) + Keys(r, b)
  {
  }

  lemma KeysOfSections(r: Rules, sections: seq<Text>, title: string)
    requires Sane(r) && Starts(title, "#") && !Starts(title, UNRELEASED) && AllSections(sections)
    ensures var bullets := NewBullets(r, sections);
            ReleasedKeys(r, NewOf(sections, title, bullets)) == ReleasedKeys(r, sections) + Keys(r, bullets)
  {
    var bullets, older := NewBullets(r, sections), Select(sections, false);
    var cut := Cut(title, bullets, older == []);
    assert Bullets(r, Lines(Select(NewOf(sections, title, bullets), false))) == bullets + Bullets(r, Lines(older)) by {
      CutBullets(r, sections);
      CutReadsBack(r, title, bullets, older == []);
      SelectKeeps(sections, false);
      NewSections(older, cut);
      LinesAppend(cut, older);
      LinesStart(older);
      BulletsSplit(r, cut, Lines(older));
    }
    KeysAppend(r, bullets, Bullets(r, Lines(older)));
  }

  /** After a release the released keys are those from before and those of the bullets that were cut. */
  lemma ReleasedKeysGrow(r: Rules, lines: Text, version: string, date: string)
    requires Sane(r) && lines != [] && Release(r, lines, Title(version, date)).Some? && !ReadsUnreleased(version)
    ensures var written := Parts(Release(r, lines, Title(version, date)).value);
            && (forall k :: 0 <= k < |written| ==> written[k] != [])
            && (forall k :: 0 <= k < |Parts(lines)| ==> Parts(lines)[k] != [])
            && ReleasedKeys(r, written[1..])
               == ReleasedKeys(r, Parts(lines)[1..]) + Keys(r, NewBullets(r, Parts(lines)[1..]))
  {
    var title := Title(version, date);
    TitleReadsUnreleased(version, date);
    WrittenSections(r, lines, title);
    ReleaseMeans(r, Release(r, lines, title).value, title);
    SectionsOf(Parts(lines));
    KeysOfSections(r, Parts(lines)[1..], title);
  }

  lemma SectionsOf(parts: seq<Text>)
    requires Shaped(parts)
    ensures AllSections(parts[1..])
  {
    assert forall i :: 0 < i < |parts| ==> Section(parts[i]);
  }

  /** No bullet with a key is lost: after a release every unreleased one is released. */
  lemma NothingIsLost(r: Rules, lines: Text, version: string, date: string, b: Text)
    requires Sane(r) && lines != [] && Release(r, lines, Title(version, date)).Some? && !ReadsUnreleased(version)
    requires forall k :: 0 <= k < |Parts(lines)| ==> Parts(lines)[k] != []
    requires b in AllBullets(r, Select(Parts(lines)[1..], true)) && Key(r, b) != []
    ensures var written := Parts(Release(r, lines, Title(version, date)).value);
            (forall k :: 0 <= k < |written| ==> written[k] != []) && Key(r, b) in ReleasedKeys(r, written[1..])
  {
    ReleasedKeysGrow(r, lines, version, date);
    var sections := Parts(lines)[1..];
    FreshIsExact(r, AllBullets(r, Select(sections, true)), ReleasedKeys(r, sections));
  }

  // ---- What a release writes, section by section and bullet by bullet ----

  ghost predicate NonEmptyTexts(texts: seq<Text>) {
    forall i :: 0 <= i < |texts| ==> texts[i] != []
  }

  // A bullet of an unreleased section, or of one of the others.
  ghost predicate Holding(r: Rules, sections: seq<Text>, unreleased: bool, k: nat, b: Text) {
    && k < |sections| && sections[k] != [] && ("## [Unreleased]" <= sections[k][0]) == unreleased
    && b in Bullets(r, sections[k])
  }

  ghost predicate BulletOf(r: Rules, sections: seq<Text>, unreleased: bool, b: Text) {
    exists k :: Holding(r, sections, unreleased, k, b)
  }

  // A bullet to release: it has words, and no bullet of a released section has the same.
  ghost predicate ToRelease(r: Rules, sections: seq<Text>, b: Text) {
    BulletOf(r, sections, true, b) && Key(r, b) != [] && forall c :: BulletOf(r, sections, false, c) ==> Key(r, c) != Key(r, b)
  }

  // The others in their order: section number at[i] comes i-th.
  ghost predicate Picked(sections: seq<Text>, unreleased: bool, at: seq<nat>, picked: seq<Text>) {
    && |at| == |picked| && (forall i :: 0 <= i < |at| ==> at[i] < |sections| && picked[i] == sections[at[i]])
    && (forall i, j :: 0 <= i < j < |at| ==> at[i] < at[j])
    && (forall k :: 0 <= k < |sections| && sections[k] != [] ==>
          (k in at <==> ("## [Unreleased]" <= sections[k][0]) == unreleased))
  }

  lemma {:induction false} SelectPicks(sections: seq<Text>, unreleased: bool) returns (at: seq<nat>)
    requires NonEmptyTexts(sections)
    ensures Picked(sections, unreleased, at, Select(sections, unreleased))
  {
    if sections == [] {
      at := [];
    } else {
      var n := |sections| - 1;
      at := SelectPicks(sections[..n], unreleased);
      if IsUnreleased(sections[n]) == unreleased {
        at := at + [n];
      }
    }
  }

  lemma BulletOfNext(r: Rules, before: seq<Text>, last: Text, unreleased: bool, b: Text)
    requires last != []
    ensures BulletOf(r, before + [last], unreleased, b)
       <==> BulletOf(r, before, unreleased, b) || (IsUnreleased(last) == unreleased && b in Bullets(r, last))
  {
    var all, n := before + [last], |before|;
    if k: nat :| Holding(r, before, unreleased, k, b) {
      assert Holding(r, all, unreleased, k, b);
    }
    if k: nat :| Holding(r, all, unreleased, k, b) {
      assert if k < n then Holding(r, before, unreleased, k, b) else k == n;
    }
    if IsUnreleased(last) == unreleased && b in Bullets(r, last) {
      assert Holding(r, all, unreleased, n, b);
    }
  }

  lemma {:induction false} SelectedBullets(r: Rules, sections: seq<Text>, unreleased: bool, b: Text)
    requires NonEmptyTexts(sections)
    ensures b in AllBullets(r, Select(sections, unreleased)) <==> BulletOf(r, sections, unreleased, b)
  {
    if sections == [] {
      assert Select(sections, unreleased) == [] && AllBullets(r, []) == [];
    } else {
      var before, last := sections[..|sections| - 1], sections[|sections| - 1];
      assert sections == before + [last];
      SelectedBullets(r, before, unreleased, b);
      AllBulletsNext(r, Select(before, unreleased), last);
      BulletOfNext(r, before, last, unreleased, b);
    }
  }

  lemma AllBulletsNext(r: Rules, texts: seq<Text>, text: Text)
    ensures AllBullets(r, texts + [text]) == AllBullets(r, texts) + Bullets(r, text)
  {
    assert (texts + [text])[..|texts|] == texts;
  }

  // Joined sections have the bullets that they have one by one.
  lemma {:induction false} BulletsOfJoined(r: Rules, sections: seq<Text>)
    requires AllSections(sections)
    ensures Bullets(r, Lines(sections)) == AllBullets(r, sections)
  {
    if sections != [] {
      var n := |sections| - 1;
      BulletsOfJoined(r, sections[..n]);
      assert Section(sections[n]);
      HeadingIsHash(sections[n][0]);
      BulletsSplit(r, Lines(sections[..n]), sections[n]);
    } else {
      assert Run(r, START, []) == START;
    }
  }

  lemma ReleasedKeysAre(r: Rules, sections: seq<Text>, key: seq<string>)
    requires AllSections(sections)
    ensures key in ReleasedKeys(r, sections) <==> exists c :: BulletOf(r, sections, false, c) && Key(r, c) == key
  {
    var older := Select(sections, false);
    SelectKeeps(sections, false);
    BulletsOfJoined(r, older);
    forall c
      ensures c in AllBullets(r, older) <==> BulletOf(r, sections, false, c)
    {
      SelectedBullets(r, sections, false, c);
    }
  }

  lemma ToReleaseIs(r: Rules, sections: seq<Text>, b: Text)
    requires AllSections(sections)
    ensures ToRelease(r, sections, b)
       <==> b in AllBullets(r, Select(sections, true)) && New(Key(r, b), ReleasedKeys(r, sections))
  {
    SelectedBullets(r, sections, true, b);
    ReleasedKeysAre(r, sections, Key(r, b));
  }

  /** A release keeps bullets to release, one for each key of such a bullet; it keeps none if there is none. */
  lemma KeptAre(r: Rules, sections: seq<Text>)
    requires AllSections(sections)
    ensures var kept := NewBullets(r, sections);
            && DistinctKeys(r, kept) && (forall b :: b in kept ==> ToRelease(r, sections, b))
            && (forall b :: ToRelease(r, sections, b) ==> exists n :: n in kept && Key(r, n) == Key(r, b))
  {
    var all, released, kept := AllBullets(r, Select(sections, true)), ReleasedKeys(r, sections), NewBullets(r, sections);
    FreshIsExact(r, all, released);
    forall b | b in kept
      ensures ToRelease(r, sections, b)
    {
      assert Key(r, b) in Keys(r, kept);
      ToReleaseIs(r, sections, b);
    }
    forall b | ToRelease(r, sections, b)
      ensures exists n :: n in kept && Key(r, n) == Key(r, b)
    {
      ToReleaseIs(r, sections, b);
      assert Key(r, b) in Keys(r, kept);
    }
  }

  // The written file: the old preamble, an empty unreleased section, the release, and the older sections.
  ghost predicate ReleaseWrites(r: Rules, parts: seq<Text>, version: string, date: string, now: seq<Text>)
    requires parts != []
  {
    && |now| >= 3 && now[0] == parts[0] && now[1] == ["## [Unreleased]", "", ""]
    && now[2] != [] && now[2][0] == "## [" + version + "] — " + date
    && Bullets(r, now[2]) != [] && DistinctKeys(r, Bullets(r, now[2]))
    && (forall b :: b in Bullets(r, now[2]) ==> ToRelease(r, parts[1..], b))
    && (forall b :: ToRelease(r, parts[1..], b) ==> exists n :: n in Bullets(r, now[2]) && Key(r, n) == Key(r, b))
    && exists at :: Picked(parts[1..], false, at, now[3..])
  }

  lemma NewPartsWrite(r: Rules, parts: seq<Text>, version: string, date: string)
    requires Sane(r) && parts != [] && NonEmptyTexts(parts) && AllSections(parts[1..]) && NewBullets(r, parts[1..]) != []
    ensures ReleaseWrites(r, parts, version, date, NewParts(parts, Title(version, date), NewBullets(r, parts[1..])))
  {
    var sections := parts[1..];
    var kept, older := NewBullets(r, sections), Select(sections, false);
    KeptAre(r, sections);
    CutBullets(r, sections);
    TitleReadsUnreleased(version, date);
    CutReadsBack(r, Title(version, date), kept, older == []);
    var at := SelectPicks(sections, false);
    assert NewParts(parts, Title(version, date), kept)[3..] == older;
  }

  /**
   A release is refused exactly if there is no bullet to release; otherwise the written file is the old one
   with its unreleased sections replaced by an empty one and by the release.
   */
  lemma ReleaseIs(r: Rules, lines: Text, version: string, date: string)
    requires Sane(r) && lines != []
    ensures Release(r, lines, Title(version, date)).None? <==> forall b :: !ToRelease(r, Parts(lines)[1..], b)
    ensures Release(r, lines, Title(version, date)).Some? ==>
              ReleaseWrites(r, Parts(lines), version, date, Parts(Release(r, lines, Title(version, date)).value))
  {
    var title := Title(version, date);
    ReleaseMeans(r, lines, title);
    SectionsOf(Parts(lines));
    KeptAre(r, Parts(lines)[1..]);
    var kept := NewBullets(r, Parts(lines)[1..]);
    if kept != [] {
      assert kept[0] in kept;
      CutBullets(r, Parts(lines)[1..]);
      NoSections(r, Parts(lines)[1..]);
      TitleReadsUnreleased(version, date);
      WrittenParts(r, Parts(lines), title, kept);
      NewPartsWrite(r, Parts(lines), version, date);
    }
  }

  lemma LinesStart(sections: seq<Text>)
    requires AllSections(sections)
    ensures Lines(sections) == [] || Starts(Lines(sections)[0], "#")
  {
    if sections != [] {
      assert Section(sections[0]);
      HeadingIsHash(sections[0][0]);
      assert sections == [sections[0]] + sections[1..];
      LinesAppend(sections[0], sections[1..]);
    }
  }
}
