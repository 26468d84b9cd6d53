/**
 Cutting a release: all unreleased sections become one, each new bullet once, and running it again on the
 written file is refused, exactly unless the version itself reads as unreleased.
 */
module ChangelogRelease {
  import opened Wrappers
  import opened ChangelogBullets

  const MARK := "## ["
  const UNRELEASED := "## [Unreleased]"

  // ---- Keys ----

  // The words of a line: its maximal runs of word characters.
  function Words(r: Rules, line: string, run: string): seq<string>
    decreases |line|
  {
    if line == [] then if run == [] then [] else [run]
    else if r.word(line[0]) then Words(r, line[1..], run + [line[0]])
    else (if run == [] then [] else [run]) + Words(r, line[1..], [])
  }

  // The normalised bullet: its words in lower case. It is empty for a bullet without any.
  function Key(r: Rules, b: Text): seq<string> {
    if b == [] then []
    else
      var words := Words(r, b[|b| - 1], []);
      Key(r, b[..|b| - 1]) + seq(|words|, i requires 0 <= i < |words| => r.lower(words[i]))
  }

  function Keys(r: Rules, bullets: seq<Text>): set<seq<string>> {
    set b | b in bullets :: Key(r, b)
  }

  // ---- What a key is ----

  ghost predicate IsWord(r: Rules, w: string) {
    w != "" && forall c :: c in w ==> r.word(c)
  }

  ghost predicate IsGap(r: Rules, g: string) {
    forall c :: c in g ==> !r.word(c)
  }

  // A line written as words with gaps around them, none of them empty between two words.
  ghost predicate Spelling(r: Rules, words: seq<string>, gaps: seq<string>) {
    && |gaps| == |words| + 1
    && (forall i :: 0 <= i < |words| ==> IsWord(r, words[i]))
    && (forall i :: 0 <= i < |gaps| ==> IsGap(r, gaps[i]))
    && (forall i :: 0 < i < |words| ==> gaps[i] != "")
  }

  function Spell(words: seq<string>, gaps: seq<string>): string
    requires |gaps| == |words| + 1
  {
    if words == [] then gaps[0] else gaps[0] + (words[0] + Spell(words[1..], gaps[1..]))
  }

  lemma {:induction false} GapHasNoWords(r: Rules, gap: string, rest: string)
    requires IsGap(r, gap)
    ensures Words(r, gap + rest, []) == Words(r, rest, [])
  {
    if gap == "" {
      assert gap + rest == rest;
    } else {
      assert (gap + rest)[1..] == gap[1..] + rest && gap[0] in gap;
      GapHasNoWords(r, gap[1..], rest);
    }
  }

  lemma {:induction false} WordIsRead(r: Rules, w: string, rest: string, run: string)
    requires forall c :: c in w ==> r.word(c)
    ensures Words(r, w + rest, run) == Words(r, rest, run + w)
  {
    if w == "" {
      assert w + rest == rest && run + w == run;
    } else {
      assert (w + rest)[1..] == w[1..] + rest && w[0] in w;
      WordIsRead(r, w[1..], rest, run + [w[0]]);
      assert run + [w[0]] + w[1..] == run + w;
    }
  }

  // A word ends where a gap begins.
  lemma WordEnds(r: Rules, w: string, rest: string)
    requires w != "" && (rest == "" || !r.word(rest[0]))
    ensures Words(r, rest, w) == [w] + Words(r, rest, [])
  {
  }

  lemma SpellStarts(r: Rules, words: seq<string>, gaps: seq<string>)
    requires Spelling(r, words, gaps) && (words != [] ==> gaps[0] != "")
    ensures Spell(words, gaps) == "" || !r.word(Spell(words, gaps)[0])
  {
    if gaps[0] != "" {
      assert gaps[0][0] in gaps[0];
    }
  }

  lemma SpellingTail(r: Rules, words: seq<string>, gaps: seq<string>)
    requires Spelling(r, words, gaps) && words != []
    ensures Spelling(r, words[1..], gaps[1..]) && (words[1..] != [] ==> gaps[1..][0] != "")
  {
  }

  /** The words of a line are the ones it is written with, whatever the gaps. */
  lemma {:induction false} WordsOfSpelling(r: Rules, words: seq<string>, gaps: seq<string>)
    requires Spelling(r, words, gaps)
    ensures Words(r, Spell(words, gaps), []) == words
    decreases |words|
  {
    if words == [] {
      assert gaps[0] + "" == gaps[0];
      GapHasNoWords(r, gaps[0], "");
    } else {
      var w, rest := words[0], Spell(words[1..], gaps[1..]);
      assert IsWord(r, w);
      GapHasNoWords(r, gaps[0], w + rest);
      WordIsRead(r, w, rest, []);
      assert [] + w == w;
      SpellingTail(r, words, gaps);
      SpellStarts(r, words[1..], gaps[1..]);
      WordEnds(r, w, rest);
      WordsOfSpelling(r, words[1..], gaps[1..]);
    }
  }

  // Every line begins with a gap and a word, or is a gap.
  lemma {:induction false} SplitsOnce(r: Rules, line: string, word: bool) returns (n: nat)
    ensures n <= |line| && (forall c :: c in line[..n] ==> r.word(c) == word)
    ensures n < |line| ==> r.word(line[n]) != word
  {
    if line == "" || r.word(line[0]) != word {
      n := 0;
    } else {
      var m := SplitsOnce(r, line[1..], word);
      n := m + 1;
      assert line[..n] == [line[0]] + line[1..][..m];
    }
  }

  /** Every line is written so. */
  lemma {:induction false} EveryLineIsSpelled(r: Rules, line: string) returns (words: seq<string>, gaps: seq<string>)
    ensures Spelling(r, words, gaps) && Spell(words, gaps) == line
    ensures line != "" && r.word(line[0]) ==> words != [] && gaps[0] == ""
    ensures line != "" && !r.word(line[0]) ==> gaps[0] != ""
    decreases |line|
  {
    var g := SplitsOnce(r, line, false);
    if g == |line| {
      words, gaps := [], [line];
      assert line[..g] == line;
    } else {
      var behind := line[g..];
      var w := SplitsOnce(r, behind, true);
      assert w > 0 && behind[w..] == line[g + w..];
      var others, spaces := EveryLineIsSpelled(r, behind[w..]);
      words, gaps := [behind[..w]] + others, [line[..g]] + spaces;
      assert words[1..] == others && gaps[1..] == spaces;
      assert line == line[..g] + (behind[..w] + behind[w..]);
      forall i | 0 < i < |words|
        ensures gaps[i] != ""
      {
        assert i == 1 ==> behind[w..] != "" && !r.word(behind[w..][0]);
      }
      assert g > 0 ==> line[0] == line[..g][0] && line[0] in line[..g];
    }
  }

  function Lowered(r: Rules, words: seq<string>): seq<string> {
    seq(|words|, i requires 0 <= i < |words| => r.lower(words[i]))
  }

  // A bullet written line by line.
  ghost predicate Written(r: Rules, b: Text, words: seq<seq<string>>, gaps: seq<seq<string>>) {
    && |b| == |words| == |gaps|
    && forall i :: 0 <= i < |b| ==> Spelling(r, words[i], gaps[i]) && b[i] == Spell(words[i], gaps[i])
  }

  function AllWords(words: seq<seq<string>>): seq<string> {
    if words == [] then [] else AllWords(words[..|words| - 1]) + words[|words| - 1]
  }

  lemma {:induction false} KeyOfWritten(r: Rules, b: Text, words: seq<seq<string>>, gaps: seq<seq<string>>)
    requires Written(r, b, words, gaps)
    ensures Key(r, b) == Lowered(r, AllWords(words))
  {
    if b != [] {
      var n := |b| - 1;
      KeyOfWritten(r, b[..n], words[..n], gaps[..n]);
      WordsOfSpelling(r, words[n], gaps[n]);
      assert Lowered(r, AllWords(words[..n]) + words[n]) == Lowered(r, AllWords(words[..n])) + Lowered(r, words[n]);
    }
  }

  lemma {:induction false} EveryBulletIsWritten(r: Rules, b: Text) returns (words: seq<seq<string>>, gaps: seq<seq<string>>)
    ensures Written(r, b, words, gaps)
  {
    if b == [] {
      words, gaps := [], [];
    } else {
      var last, spaces := EveryLineIsSpelled(r, b[|b| - 1]);
      words, gaps := EveryBulletIsWritten(r, b[..|b| - 1]);
      words, gaps := words + [last], gaps + [spaces];
    }
  }

  /** Two bullets have one key exactly if their words agree up to case; gaps and line breaks do not matter. */
  lemma SameKeyIff(r: Rules, b: Text, words: seq<seq<string>>, gaps: seq<seq<string>>,
                   c: Text, others: seq<seq<string>>, spaces: seq<seq<string>>)
    requires Written(r, b, words, gaps) && Written(r, c, others, spaces)
    ensures Key(r, b) == Key(r, c)
       <==> |AllWords(words)| == |AllWords(others)|
            && forall i :: 0 <= i < |AllWords(words)| ==> r.lower(AllWords(words)[i]) == r.lower(AllWords(others)[i])
  {
    KeyOfWritten(r, b, words, gaps);
    KeyOfWritten(r, c, others, spaces);
    var x, y := AllWords(words), AllWords(others);
    assert |Key(r, b)| == |x| && |Key(r, c)| == |y|;
    assert forall i :: 0 <= i < |x| ==> Key(r, b)[i] == r.lower(x[i]);
    assert forall i :: 0 <= i < |y| ==> Key(r, c)[i] == r.lower(y[i]);
  }

  // ---- Keeping each new bullet once ----

  function Fresh(r: Rules, bullets: seq<Text>, released: set<seq<string>>): seq<Text> {
    if bullets == [] then []
    else
      var before, last := Fresh(r, bullets[..|bullets| - 1], released), bullets[|bullets| - 1];
      if Key(r, last) != [] && Key(r, last) !in Keys(r, before) && Key(r, last) !in released then before + [last] else before
  }

  ghost predicate DistinctKeys(r: Rules, bullets: seq<Text>) {
    forall i, j :: 0 <= i < j < |bullets| ==> Key(r, bullets[i]) != Key(r, bullets[j])
  }

  // A key that is worth releasing.
  predicate New(key: seq<string>, released: set<seq<string>>) {
    key != [] && key !in released
  }

  lemma KeysNext(r: Rules, bullets: seq<Text>, b: Text)
    ensures Keys(r, bullets + [b]) == Keys(r, bullets) + {Key(r, b)}
  {
  }

  /** The cut keeps exactly one bullet of each new key, and nothing else. */
  lemma {:induction false} FreshIsExact(r: Rules, bullets: seq<Text>, released: set<seq<string>>)
    ensures DistinctKeys(r, Fresh(r, bullets, released))
    ensures Keys(r, Fresh(r, bullets, released)) == set b | b in bullets && New(Key(r, b), released) :: Key(r, b)
    ensures forall n :: n in Fresh(r, bullets, released) ==> n in bullets
  {
    if bullets != [] {
      var before, last := bullets[..|bullets| - 1], bullets[|bullets| - 1];
      FreshIsExact(r, before, released);
      assert bullets == before + [last];
      var kept := Fresh(r, before, released);
      KeysNext(r, kept, last);
      if Key(r, last) !in Keys(r, kept) {
        DistinctNext(r, kept, last);
      }
    }
  }

  lemma DistinctNext(r: Rules, bullets: seq<Text>, b: Text)
    requires DistinctKeys(r, bullets) && Key(r, b) !in Keys(r, bullets)
    ensures DistinctKeys(r, bullets + [b])
  {
    forall i | 0 <= i < |bullets|
      ensures Key(r, bullets[i]) != Key(r, b)
    {
      assert bullets[i] in bullets;
    }
  }

  /** The one that is kept is the first. */
  lemma {:induction false} FreshKeepsTheFirst(r: Rules, bullets: seq<Text>, released: set<seq<string>>, i: nat)
    requires i < |bullets| && New(Key(r, bullets[i]), released)
    requires forall j :: 0 <= j < i ==> Key(r, bullets[j]) != Key(r, bullets[i])
    ensures bullets[i] in Fresh(r, bullets, released)
  {
    var before := bullets[..|bullets| - 1];
    if i < |before| {
      FreshKeepsTheFirst(r, before, released, i);
    } else {
      FreshIsExact(r, before, released);
      forall b | b in before
        ensures Key(r, b) != Key(r, bullets[i])
      {
        var j :| 0 <= j < |before| && before[j] == b;
        assert before[j] == bullets[j];
      }
    }
  }

  lemma FreshNext(r: Rules, bullets: seq<Text>, b: Text, released: set<seq<string>>)
    ensures var kept := Fresh(r, bullets, released);
            Fresh(r, bullets + [b], released) ==
              if Key(r, b) != [] && Key(r, b) !in Keys(r, kept) && Key(r, b) !in released then kept + [b] else kept
  {
    assert (bullets + [b])[..|bullets|] == bullets;
  }

  lemma NotAmongKeys(r: Rules, bullets: seq<Text>, b: Text)
    requires DistinctKeys(r, bullets + [b])
    ensures DistinctKeys(r, bullets) && Key(r, b) !in Keys(r, bullets)
  {
    var longer := bullets + [b];
    forall i, j | 0 <= i < j < |bullets|
      ensures Key(r, bullets[i]) != Key(r, bullets[j])
    {
      assert longer[i] == bullets[i] && longer[j] == bullets[j];
    }
    forall x | x in bullets
      ensures Key(r, x) != Key(r, b)
    {
      var i :| 0 <= i < |bullets| && bullets[i] == x;
      assert longer[i] == x && longer[|bullets|] == b;
    }
  }

  lemma {:induction false} FreshOfNew(r: Rules, bullets: seq<Text>, released: set<seq<string>>)
    requires DistinctKeys(r, bullets) && forall b :: b in bullets ==> New(Key(r, b), released)
    ensures Fresh(r, bullets, released) == bullets
  {
    if bullets != [] {
      var before, last := bullets[..|bullets| - 1], bullets[|bullets| - 1];
      assert bullets == before + [last];
      NotAmongKeys(r, before, last);
      assert New(Key(r, last), released);
      FreshOfNew(r, before, released);
      FreshNext(r, before, last, released);
    }
  }

  // ---- Sections ----

  predicate IsHeading(line: string) {
    Starts(line, MARK)
  }

  // The concatenation of two texts: the last line of the first runs on into the second.
  function Plus(a: Text, b: Text): Text
    requires a != [] && b != []
  {
    a[..|a| - 1] + [a[|a| - 1] + b[0]] + b[1..]
  }

  function Concat(parts: seq<Text>): (t: Text)
    requires parts != [] && forall i :: 0 <= i < |parts| ==> parts[i] != []
    ensures t != []
  {
    if |parts| == 1 then parts[0] else Plus(parts[0], Concat(parts[1..]))
  }

  // The text before the first heading, and from each heading to the next.
  function Parts(lines: Text): (parts: seq<Text>)
    requires lines != []
    ensures parts != [] && parts[0] != []
  {
    if |lines| == 1 then if IsHeading(lines[0]) then [[""], lines] else [lines]
    else
      var rest := Parts(lines[1..]);
      var first := [lines[0]] + rest[0];
      if IsHeading(lines[0]) then [[""], first] + rest[1..] else [first] + rest[1..]
  }

  ghost predicate NoHeadings(lines: Text) {
    forall i :: 0 <= i < |lines| ==> !IsHeading(lines[i])
  }

  ghost predicate Section(p: Text) {
    p != [] && IsHeading(p[0]) && NoHeadings(p[1..])
  }

  predicate Complete(p: Text) {
    p != [] && p[|p| - 1] == ""
  }

  // What a split text looks like: every part but the last ends its last line.
  ghost predicate Shaped(parts: seq<Text>) {
    && parts != [] && parts[0] != [] && NoHeadings(parts[0])
    && (forall i :: 0 < i < |parts| ==> Section(parts[i]))
    && (forall i :: 0 <= i < |parts| - 1 ==> Complete(parts[i]))
  }

  lemma {:induction false} PartsAreShaped(lines: Text)
    requires lines != []
    ensures Shaped(Parts(lines))
  {
    if |lines| > 1 {
      var rest := Parts(lines[1..]);
      PartsAreShaped(lines[1..]);
      var first := [lines[0]] + rest[0];
      assert first[1..] == rest[0];
      assert Complete(rest[0]) ==> Complete(first);
      var parts := Parts(lines);
      if IsHeading(lines[0]) {
        assert parts[0] == [""] && parts[1] == first && forall i :: 2 <= i < |parts| ==> parts[i] == rest[i - 1];
      } else {
        assert parts[0] == first && forall i :: 1 <= i < |parts| ==> parts[i] == rest[i];
      }
    } else {
      assert lines[1..] == [];
    }
  }

  // A heading opens a new part.
  lemma {:induction false} PartsBreak(a: Text, b: Text)
    requires NoHeadings(a) && b != [] && IsHeading(b[0])
    ensures Parts(a + b) == [a + [""]] + Parts(b)[1..]
  {
    if a == [] {
      assert a + b == b && a + [""] == [""];
    } else {
      assert (a + b)[1..] == a[1..] + b && a == [a[0]] + a[1..];
      PartsBreak(a[1..], b);
      assert [a[0]] + (a[1..] + [""]) == a + [""];
    }
  }

  lemma {:induction false} PartsOfPlain(a: Text)
    requires a != [] && NoHeadings(a)
    ensures Parts(a) == [a]
  {
    if |a| > 1 {
      PartsOfPlain(a[1..]);
      assert [a[0]] + a[1..] == a;
    }
  }

  lemma PartsOfHeading(h: string, rest: Text)
    requires IsHeading(h) && rest != []
    ensures Parts([h] + rest) == [[""], [h] + Parts(rest)[0]] + Parts(rest)[1..]
  {
    assert ([h] + rest)[1..] == rest;
  }

  lemma PlusCons(line: string, a: Text, b: Text)
    requires a != [] && b != []
    ensures Plus([line] + a, b) == [line] + Plus(a, b)
  {
  }

  lemma PlusEmpty(b: Text)
    requires b != []
    ensures Plus([""], b) == b
  {
    assert "" + b[0] == b[0];
  }

  lemma ConcatCons(line: string, rest: seq<Text>)
    requires rest != [] && forall i :: 0 <= i < |rest| ==> rest[i] != []
    ensures Concat([[line] + rest[0]] + rest[1..]) == [line] + Concat(rest)
  {
    var longer := [[line] + rest[0]] + rest[1..];
    assert longer[1..] == rest[1..];
    if |rest| > 1 {
      PlusCons(line, rest[0], Concat(rest[1..]));
    }
  }

  lemma ConcatEmpty(rest: seq<Text>)
    requires rest != [] && forall i :: 0 <= i < |rest| ==> rest[i] != []
    ensures Concat([[""]] + rest) == Concat(rest)
  {
    assert ([[""]] + rest)[1..] == rest;
    PlusEmpty(Concat(rest));
  }

  lemma EmptyThen(first: Text, rest: seq<Text>)
    ensures [[""], first] + rest == [[""]] + ([first] + rest)
  {
  }

  // The parts of a longer text.
  lemma PartsNext(lines: Text)
    requires |lines| > 1
    ensures var rest := Parts(lines[1..]);
            var joined := [[lines[0]] + rest[0]] + rest[1..];
            Parts(lines) == if IsHeading(lines[0]) then [[""]] + joined else joined
  {
    var rest := Parts(lines[1..]);
    EmptyThen([lines[0]] + rest[0], rest[1..]);
  }

  /** Concatenation undoes splitting: the parts are the whole file. */
  lemma {:induction false} PartsAreWhole(lines: Text)
    requires lines != []
    ensures (forall i :: 0 <= i < |Parts(lines)| ==> Parts(lines)[i] != []) && Concat(Parts(lines)) == lines
  {
    if |lines| == 1 {
      ConcatEmpty([lines]);
      assert [[""]] + [lines] == [[""], lines];
    } else {
      PartsAreWhole(lines[1..]);
      PartsNext(lines);
      var rest := Parts(lines[1..]);
      ConcatCons(lines[0], rest);
      ConcatEmpty([[lines[0]] + rest[0]] + rest[1..]);
      assert [lines[0]] + lines[1..] == lines;
    }
  }

  /** Splitting undoes concatenation of parts of that shape. */
  lemma {:induction false} PartsRoundTrip(parts: seq<Text>)
    requires Shaped(parts)
    ensures forall i :: 0 <= i < |parts| ==> parts[i] != []
    ensures Parts(Concat(parts)) == parts
    decreases |parts|
  {
    var p := parts[0];
    if |parts| == 1 {
      PartsOfPlain(p);
    } else {
      var tail := Concat(parts[1..]);
      assert forall i :: 0 < i < |parts| ==> Section(parts[i]);
      ConcatTail(parts[1..]);
      SectionRoundTrip(parts[1..]);
      var a := p[..|p| - 1];
      assert "" + tail[0] == tail[0] && [tail[0]] + tail[1..] == tail;
      assert Concat(parts) == a + tail;
      assert a + [""] == p;
      PartsBreak(a, tail);
      assert [p] + parts[1..] == parts;
    }
  }

  lemma ConcatTail(parts: seq<Text>)
    requires parts != [] && (forall i :: 0 <= i < |parts| ==> parts[i] != [])
    requires |parts| > 1 ==> parts[0] != [""] && Complete(parts[0])
    ensures Concat(parts)[0] == parts[0][0]
  {
    assert |parts[0]| == 1 ==> parts[0] == [parts[0][0]];
  }

  lemma SectionAlone(p: Text)
    requires Section(p)
    ensures Parts(p) == [[""], p]
  {
    if |p| == 1 {
      assert p == [p[0]];
    } else {
      assert p == [p[0]] + p[1..];
      PartsOfPlain(p[1..]);
      PartsOfHeading(p[0], p[1..]);
    }
  }

  lemma PlusComplete(h: string, a: Text, tail: Text)
    requires tail != []
    ensures Plus([h] + (a + [""]), tail) == [h] + (a + tail)
  {
    assert "" + tail[0] == tail[0] && [tail[0]] + tail[1..] == tail;
  }

  lemma HeadingBreak(h: string, a: Text, tail: Text)
    requires IsHeading(h) && NoHeadings(a) && tail != [] && IsHeading(tail[0])
    ensures Parts(Plus([h] + (a + [""]), tail)) == [[""], [h] + (a + [""])] + Parts(tail)[1..]
  {
    PlusComplete(h, a, tail);
    PartsBreak(a, tail);
    PartsOfHeading(h, a + tail);
  }

  lemma SectionBreak(p: Text, tail: Text)
    requires Section(p) && Complete(p) && tail != [] && IsHeading(tail[0])
    ensures Parts(Plus(p, tail)) == [[""], p] + Parts(tail)[1..]
  {
    var h, a := p[0], p[1..|p| - 1];
    assert p == [h] + (a + [""]);
    forall i | 0 <= i < |a|
      ensures !IsHeading(a[i])
    {
      assert a[i] == p[1..][i];
    }
    HeadingBreak(h, a, tail);
  }

  lemma {:induction false} SectionRoundTrip(parts: seq<Text>)
    requires parts != [] && (forall i :: 0 <= i < |parts| ==> parts[i] != [] && Section(parts[i]))
    requires forall i :: 0 <= i < |parts| - 1 ==> Complete(parts[i])
    ensures Parts(Concat(parts)) == [[""]] + parts
    decreases |parts|, 0
  {
    assert Section(parts[0]);
    if |parts| == 1 {
      SectionAlone(parts[0]);
    } else {
      assert Section(parts[1]);
      SectionRoundTrip(parts[1..]);
      ConcatTail(parts[1..]);
      SectionBreak(parts[0], Concat(parts[1..]));
      assert [[""], parts[0]] + parts[1..] == [[""]] + parts;
    }
  }
}
