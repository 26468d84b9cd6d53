/**
 The bullets of a changelog. A text is the list of its lines; a bullet is the list of lines it takes.
 What the parser returns, other than an empty bullet, it reads back unchanged.
 */
module ChangelogBullets {

  type Text = seq<string>

  // Which characters are white space or part of a word, and how a word is put in lower case.
  datatype Rules = Rules(space: char -> bool, word: char -> bool, lower: string -> string)

  // What the proofs use of those characters.
  predicate Sane(r: Rules) {
    r.space(' ') && !r.space('-') && !r.space('#') && !r.word('-')
  }

  predicate Starts(line: string, prefix: string) {
    prefix <= line
  }

  predicate Blank(r: Rules, line: string) {
    forall c | c in line :: r.space(c)
  }

  function RightTrim(r: Rules, line: string): string {
    if line != [] && r.space(line[|line| - 1]) then RightTrim(r, line[..|line| - 1]) else line
  }

  // `rstrip` of the joined lines.
  function RightStrip(r: Rules, b: Text): Text {
    if b == [] then []
    else if Blank(r, b[|b| - 1]) then if |b| == 1 then [""] else RightStrip(r, b[..|b| - 1])
    else b[..|b| - 1] + [RightTrim(r, b[|b| - 1])]
  }

  // The parser's variables; `done` holds the finished bullets before trailing space is stripped.
  datatype Parser = Parser(done: seq<Text>, cur: Text, plain: bool)

  function Flushed(p: Parser): seq<Text> {
    if p.cur == [] then p.done else p.done + [p.cur]
  }

  function Next(r: Rules, p: Parser, line: string): Parser {
    if Starts(line, "- ") then Parser(Flushed(p), [line], false)
    else if Starts(line, "#") then Parser(Flushed(p), [], false)
    else if Blank(r, line) then
      if p.cur == [] then p else if p.plain then Parser(Flushed(p), [], false) else p.(cur := p.cur + [line])
    else if p.cur != [] && Starts(line, "  ") then p.(cur := p.cur + [line])
    else if p.plain then p.(cur := p.cur + ["  " + line])
    else Parser(Flushed(p), ["- " + line], true)
  }

  function Run(r: Rules, p: Parser, lines: Text): Parser {
    if lines == [] then p else Next(r, Run(r, p, lines[..|lines| - 1]), lines[|lines| - 1])
  }

  function Stripped(r: Rules, raw: seq<Text>): seq<Text> {
    seq(|raw|, i requires 0 <= i < |raw| => RightStrip(r, raw[i]))
  }

  const START := Parser([], [], false)

  function Bullets(r: Rules, lines: Text): seq<Text> {
    Stripped(r, Flushed(Run(r, START, lines)))
  }

  /** The parser's loop. */
  method Parse(r: Rules, lines: Text) returns (bullets: seq<Text>)
    ensures bullets == Bullets(r, lines)
    ensures Sane(r) ==> bullets == Blocks(r, lines) && AllShown(r, Solid(r, Lines(bullets)), Content(r, lines))
    ensures Sane(r) ==> forall i :: 0 <= i < |bullets| ==> InForm(r, bullets[i]) || bullets[i] == ["-"]
  {
    var done: seq<Text>, cur: Text, plain := [], [], false;
    for k := 0 to |lines|
      invariant Parser(done, cur, plain) == Run(r, START, lines[..k])
    {
      var line := lines[k];
      assert lines[..k + 1][..k] == lines[..k];
      if Starts(line, "- ") {
        if cur != [] { done := done + [cur]; }
        cur, plain := [line], false;
      } else if Starts(line, "#") {
        if cur != [] { done, cur := done + [cur], []; }
        plain := false;
      } else if Blank(r, line) {
        if plain && cur != [] {
          done, cur, plain := done + [cur], [], false;
        } else if cur != [] {
          cur := cur + [line];
        }
      } else if cur != [] && Starts(line, "  ") {
        cur := cur + [line];
      } else if plain {
        cur := cur + ["  " + line];
      } else {
        if cur != [] { done := done + [cur]; }
        cur, plain := ["- " + line], true;
      }
    }
    assert lines[..|lines|] == lines;
    if cur != [] { done := done + [cur]; }
    bullets := Stripped(r, done);
    if Sane(r) {
      BulletsAreBlocks(r, lines);
      ContentIsKept(r, lines);
      forall i | 0 <= i < |bullets|
        ensures InForm(r, bullets[i]) || bullets[i] == ["-"]
      {
        BulletsAreInForm(r, lines, i);
      }
    }
  }

  // ---- The parser's output form ----

  predicate Inner(r: Rules, line: string) {
    Blank(r, line) || Starts(line, "  ")
  }

  ghost predicate Raw(r: Rules, b: Text) {
    b != [] && Starts(b[0], "- ") && forall i :: 0 < i < |b| ==> Inner(r, b[i])
  }

  // A bullet as the parser returns it.
  ghost predicate InForm(r: Rules, b: Text) {
    Raw(r, b) && !Blank(r, b[|b| - 1]) && RightTrim(r, b[|b| - 1]) == b[|b| - 1]
  }

  ghost predicate Forming(r: Rules, p: Parser) {
    && (forall i :: 0 <= i < |p.done| ==> Raw(r, p.done[i]))
    && (p.cur != [] ==> Raw(r, p.cur)) && (p.plain ==> p.cur != [])
  }

  lemma {:induction false} RunForms(r: Rules, lines: Text)
    ensures Forming(r, Run(r, START, lines))
  {
    if lines != [] {
      RunForms(r, lines[..|lines| - 1]);
    }
  }

  lemma {:induction false} TrimKeeps(r: Rules, line: string, k: nat)
    requires k <= |line| && (exists i :: k <= i < |line| && !r.space(line[i]))
    ensures line[..k] <= RightTrim(r, line) <= line && |RightTrim(r, line)| > k
    ensures !Blank(r, RightTrim(r, line)) && RightTrim(r, RightTrim(r, line)) == RightTrim(r, line)
  {
    if r.space(line[|line| - 1]) {
      var shorter := line[..|line| - 1];
      var i :| k <= i < |line| && !r.space(line[i]);
      assert shorter[i] == line[i];
      TrimKeeps(r, shorter, k);
    } else {
      assert line[|line| - 1] in line;
    }
  }

  lemma {:induction false} TrimsToDash(r: Rules, line: string)
    requires Sane(r) && Starts(line, "- ") && forall i :: 1 <= i < |line| ==> r.space(line[i])
    ensures RightTrim(r, line) == "-"
  {
    if |line| == 2 {
      assert line == "- " && line[..1] == "-";
    } else {
      TrimsToDash(r, line[..|line| - 1]);
    }
  }

  lemma LateCharacter(r: Rules, line: string, k: nat)
    requires k <= |line| && (forall i :: 0 <= i < k ==> r.space(line[i])) && !Blank(r, line)
    ensures exists i :: k <= i < |line| && !r.space(line[i])
  {
    var c :| c in line && !r.space(c);
    var i :| 0 <= i < |line| && line[i] == c;
  }

  lemma {:induction false} StripForms(r: Rules, b: Text)
    requires Sane(r) && Raw(r, b)
    ensures InForm(r, RightStrip(r, b)) || RightStrip(r, b) == ["-"]
  {
    var last := b[|b| - 1];
    if |b| == 1 {
      assert '-' == last[0] && '-' in last;
      if forall i :: 1 <= i < |last| ==> r.space(last[i]) {
        TrimsToDash(r, last);
      } else {
        var i :| 1 <= i < |last| && !r.space(last[i]);
        assert last[1] == ' ';
        TrimKeeps(r, last, 2);
      }
    } else if Blank(r, last) {
      StripForms(r, b[..|b| - 1]);
    } else {
      assert Inner(r, last);
      LateCharacter(r, last, 2);
      TrimKeeps(r, last, 2);
      var stripped := RightStrip(r, b);
      assert forall i :: 0 <= i < |b| - 1 ==> stripped[i] == b[i];
    }
  }

  /** Every bullet the parser returns is in form, except the empty one. */
  lemma BulletsAreInForm(r: Rules, lines: Text, i: nat)
    requires Sane(r) && i < |Bullets(r, lines)|
    ensures InForm(r, Bullets(r, lines)[i]) || Bullets(r, lines)[i] == ["-"]
  {
    RunForms(r, lines);
    var raw := Flushed(Run(r, START, lines));
    assert Raw(r, raw[i]);
    StripForms(r, raw[i]);
  }

  // ---- Printing and reading back ----

  // The bullets with a blank line between each two.
  function Joined(bullets: seq<Text>): Text {
    if bullets == [] then []
    else if |bullets| == 1 then bullets[0]
    else Joined(bullets[..|bullets| - 1]) + [""] + bullets[|bullets| - 1]
  }

  lemma {:induction false} RunAppend(r: Rules, p: Parser, a: Text, b: Text)
    ensures Run(r, p, a + b) == Run(r, Run(r, p, a), b)
  {
    if b == [] {
      assert a + b == a;
    } else {
      assert (a + b)[..|a + b| - 1] == a + b[..|b| - 1];
      RunAppend(r, p, a, b[..|b| - 1]);
    }
  }

  lemma {:induction false} ReadsOne(r: Rules, p: Parser, b: Text, k: nat)
    requires Sane(r) && Raw(r, b) && 0 < k <= |b|
    ensures Run(r, p, b[..k]) == Parser(Flushed(p), b[..k], false)
  {
    assert b[..k][..k - 1] == b[..k - 1];
    if k == 1 {
      assert Run(r, p, b[..0]) == p;
      assert b[..1] == [b[0]];
    } else {
      ReadsOne(r, p, b, k - 1);
      var line := b[k - 1];
      assert Inner(r, line);
      NotABullet(r, line);
      assert b[..k] == b[..k - 1] + [line];
    }
  }

  lemma NotABullet(r: Rules, line: string)
    requires Sane(r) && Inner(r, line)
    ensures !Starts(line, "- ") && !Starts(line, "#")
  {
    assert line != [] ==> line[0] in line;
  }

  predicate AllBlank(r: Rules, lines: Text) {
    forall i :: 0 <= i < |lines| ==> Blank(r, lines[i])
  }

  // Blank lines behind an open bullet that is not plain are kept with it, and stripped off in the end.
  lemma {:induction false} ReadsBlanks(r: Rules, p: Parser, blanks: Text)
    requires Sane(r) && AllBlank(r, blanks) && !p.plain && p.cur != []
    ensures Run(r, p, blanks) == p.(cur := p.cur + blanks)
  {
    if blanks == [] {
      assert p.cur + blanks == p.cur;
    } else {
      ReadsBlanks(r, p, blanks[..|blanks| - 1]);
      assert Inner(r, blanks[|blanks| - 1]);
      NotABullet(r, blanks[|blanks| - 1]);
      assert p.cur + blanks == p.cur + blanks[..|blanks| - 1] + [blanks[|blanks| - 1]];
    }
  }

  lemma {:induction false} StripsBlanks(r: Rules, b: Text, blanks: Text)
    requires InForm(r, b) && AllBlank(r, blanks)
    ensures RightStrip(r, b + blanks) == b
  {
    if blanks == [] {
      assert b + blanks == b && b == b[..|b| - 1] + [b[|b| - 1]];
    } else {
      assert (b + blanks)[..|b + blanks| - 1] == b + blanks[..|blanks| - 1];
      StripsBlanks(r, b, blanks[..|blanks| - 1]);
    }
  }

  ghost predicate AllInForm(r: Rules, bullets: seq<Text>) {
    forall i :: 0 <= i < |bullets| ==> InForm(r, bullets[i])
  }

  // A parser that has returned these bullets so far, the last of them still open.
  ghost predicate Holds(r: Rules, p: Parser, bullets: seq<Text>) {
    Stripped(r, Flushed(p)) == bullets && p.cur != [] && !p.plain
  }

  // The next bullet, behind any blank lines.
  lemma ReadsNext(r: Rules, p: Parser, bullets: seq<Text>, b: Text, blanks: Text)
    requires Sane(r) && Stripped(r, Flushed(p)) == bullets && InForm(r, b) && AllBlank(r, blanks)
    ensures Holds(r, Run(r, p, b + blanks), bullets + [b])
  {
    RunAppend(r, p, b, blanks);
    ReadsOne(r, p, b, |b|);
    assert b[..|b|] == b;
    ReadsBlanks(r, Parser(Flushed(p), b, false), blanks);
    StripsBlanks(r, b, blanks);
  }

  // One more bullet behind a blank line.
  lemma ReadsOneMore(r: Rules, q: Parser, before: seq<Text>, last: Text)
    requires Sane(r) && Holds(r, q, before) && AllInForm(r, before) && InForm(r, last)
    ensures Holds(r, Run(r, q, [""] + last), before + [last])
  {
    ReadsSeparator(r, q, before);
    RunAppend(r, q, [""], last);
    assert last + [] == last;
    ReadsNext(r, Run(r, q, [""]), before, last, []);
  }

  lemma {:induction false} ReadsJoined(r: Rules, p: Parser, bullets: seq<Text>)
    requires Sane(r) && Flushed(p) == [] && bullets != [] && AllInForm(r, bullets)
    ensures Holds(r, Run(r, p, Joined(bullets)), bullets)
  {
    var before, last := bullets[..|bullets| - 1], bullets[|bullets| - 1];
    assert bullets == before + [last];
    if before == [] {
      assert last + [] == last;
      ReadsNext(r, p, before, last, []);
    } else {
      ReadsJoined(r, p, before);
      assert Joined(bullets) == Joined(before) + ([""] + last);
      RunAppend(r, p, Joined(before), [""] + last);
      ReadsOneMore(r, Run(r, p, Joined(before)), before, last);
    }
  }

  lemma ReadsSeparator(r: Rules, q: Parser, bullets: seq<Text>)
    requires Sane(r) && Holds(r, q, bullets) && AllInForm(r, bullets)
    ensures Stripped(r, Flushed(Run(r, q, [""]))) == bullets
  {
    ReadsBlanks(r, q, [""]);
    assert [""][..0] == [];
    StripsOneMore(r, q.cur);
    assert Flushed(q)[|q.done|] == q.cur;
    assert Flushed(q.(cur := q.cur + [""]))[..|q.done|] == q.done;
  }

  lemma StripsOneMore(r: Rules, b: Text)
    requires b != []
    ensures RightStrip(r, b + [""]) == RightStrip(r, b)
  {
    assert (b + [""])[..|b|] == b;
  }

  /**
   Round trip: bullets in form, printed with blank lines between them, behind a heading and followed by
   blank lines, are read back exactly.
   */
  lemma BulletsRoundTrip(r: Rules, heading: string, bullets: seq<Text>, blanks: Text)
    requires Sane(r) && Starts(heading, "#") && AllInForm(r, bullets) && AllBlank(r, blanks)
    ensures Bullets(r, [heading, ""] + Joined(bullets) + blanks) == bullets
    ensures Bullets(r, Joined(bullets)) == bullets
  {
    if bullets == [] {
      EmptyRoundTrip(r, heading, blanks);
      assert [heading, ""] + Joined(bullets) + blanks == [heading, ""] + blanks;
    } else {
      var p := Run(r, START, [heading, ""]);
      HeadingFlushes(r, heading);
      ReadsJoined(r, START, bullets);
      ReadsJoined(r, p, bullets);
      RunAppend(r, START, [heading, ""], Joined(bullets));
      RunAppend(r, START, [heading, ""] + Joined(bullets), blanks);
      ReadsTail(r, Run(r, p, Joined(bullets)), bullets, blanks);
    }
  }

  lemma HeadingFlushes(r: Rules, heading: string)
    requires Starts(heading, "#")
    ensures Run(r, START, [heading, ""]) == START
  {
    assert [heading, ""][..1] == [heading] && [heading][..0] == [];
    assert heading[0] == '#';
    assert Run(r, START, [heading]) == Next(r, START, heading);
  }

  lemma {:induction false} EmptyRoundTrip(r: Rules, heading: string, blanks: Text)
    requires Sane(r) && Starts(heading, "#") && AllBlank(r, blanks)
    ensures Run(r, START, [heading, ""] + blanks) == START && Run(r, START, []) == START
  {
    HeadingFlushes(r, heading);
    if blanks == [] {
      assert [heading, ""] + blanks == [heading, ""];
    } else {
      EmptyRoundTrip(r, heading, blanks[..|blanks| - 1]);
      NotABullet(r, blanks[|blanks| - 1]);
      assert ([heading, ""] + blanks)[..|blanks| + 1] == [heading, ""] + blanks[..|blanks| - 1];
    }
  }

  lemma {:induction false} ReadsTail(r: Rules, q: Parser, bullets: seq<Text>, blanks: Text)
    requires Sane(r) && Holds(r, q, bullets) && AllBlank(r, blanks)
    ensures Stripped(r, Flushed(Run(r, q, blanks))) == bullets
  {
    ReadsBlanks(r, q, blanks);
    StripsMore(r, q.cur, blanks);
    assert Flushed(q)[|q.done|] == q.cur;
    assert Flushed(q.(cur := q.cur + blanks))[..|q.done|] == q.done;
  }

  lemma {:induction false} StripsMore(r: Rules, b: Text, blanks: Text)
    requires b != [] && AllBlank(r, blanks)
    ensures RightStrip(r, b + blanks) == RightStrip(r, b)
  {
    if blanks == [] {
      assert b + blanks == b;
    } else {
      assert (b + blanks)[..|b + blanks| - 1] == b + blanks[..|blanks| - 1];
      StripsMore(r, b, blanks[..|blanks| - 1]);
    }
  }

  // ---- The bullets by look-ahead ----

  // A line of text outside bullets in output form: not blank, no heading and no dash.
  predicate Prose(r: Rules, line: string) {
    !Blank(r, line) && !Starts(line, "#") && !Starts(line, "- ")
  }

  // How many lines from the first on are inner lines of a bullet, or prose.
  function Extent(r: Rules, lines: Text, prose: bool): (n: nat)
    ensures n <= |lines| && forall i :: 0 <= i < n ==> if prose then Prose(r, lines[i]) else Inner(r, lines[i])
    ensures n < |lines| ==> if prose then !Prose(r, lines[n]) else !Inner(r, lines[n])
  {
    if lines == [] || !(if prose then Prose(r, lines[0]) else Inner(r, lines[0])) then 0
    else 1 + Extent(r, lines[1..], prose)
  }

  // A line of prose behind the first of its paragraph.
  function Under(line: string): string {
    if Starts(line, "  ") then line else "  " + line
  }

  function Paragraph(lines: Text): (b: Text)
    requires lines != []
    ensures |b| == |lines| && b[0] == "- " + lines[0] && forall i :: 0 < i < |b| ==> b[i] == Under(lines[i])
  {
    seq(|lines|, i requires 0 <= i < |lines| => if i == 0 then "- " + lines[0] else Under(lines[i]))
  }

  // A dash takes the blank and indented lines behind it, and prose the prose behind it.
  function BlockSize(r: Rules, lines: Text): (n: nat)
    requires lines != []
    ensures 0 < n <= |lines|
  {
    if Starts(lines[0], "- ") then 1 + Extent(r, lines[1..], false)
    else if Prose(r, lines[0]) then 1 + Extent(r, lines[1..], true)
    else 1
  }

  function BlockBullets(r: Rules, block: Text): seq<Text>
    requires block != []
  {
    if Starts(block[0], "- ") then [RightStrip(r, block)]
    else if Prose(r, block[0]) then [RightStrip(r, Paragraph(block))]
    else []
  }

  function Blocks(r: Rules, lines: Text): seq<Text>
    decreases |lines|
  {
    if lines == [] then []
    else
      var n := BlockSize(r, lines);
      BlockBullets(r, lines[..n]) + Blocks(r, lines[n..])
  }

  // The open bullet ends before these lines.
  ghost predicate EndsBefore(r: Rules, p: Parser, lines: Text) {
    && (p.plain ==> p.cur != [])
    && (p.cur != [] && lines != [] ==> if p.plain then !Prose(r, lines[0]) else !Inner(r, lines[0]))
  }

  lemma RunOne(r: Rules, p: Parser, line: string)
    ensures Run(r, p, [line]) == Next(r, p, line)
  {
    assert [line][..0] == [];
  }

  ghost predicate AllProse(r: Rules, lines: Text) {
    forall i :: 0 <= i < |lines| ==> Prose(r, lines[i])
  }

  lemma ParagraphNext(lines: Text, line: string)
    requires lines != []
    ensures Paragraph(lines + [line]) == Paragraph(lines) + [Under(line)]
  {
  }

  lemma OpensParagraph(r: Rules, p: Parser, lines: Text, line: string)
    requires EndsBefore(r, p, lines) && lines != [] && lines[0] == line && Prose(r, line)
    ensures Next(r, p, line) == Parser(Flushed(p), ["- " + line], true)
  {
  }

  lemma ContinuesParagraph(r: Rules, p: Parser, done: seq<Text>, before: Text, line: string)
    requires before != [] && Run(r, p, before) == Parser(done, Paragraph(before), true) && Prose(r, line)
    ensures Run(r, p, before + [line]) == Parser(done, Paragraph(before + [line]), true)
  {
    ParagraphNext(before, line);
    RunAppend(r, p, before, [line]);
    RunOne(r, Run(r, p, before), line);
  }

  lemma {:induction false} ReadsParagraph(r: Rules, p: Parser, lines: Text)
    requires Sane(r) && EndsBefore(r, p, lines) && lines != [] && AllProse(r, lines)
    ensures Run(r, p, lines) == Parser(Flushed(p), Paragraph(lines), true)
  {
    var before, last := lines[..|lines| - 1], lines[|lines| - 1];
    assert lines == before + [last];
    if before == [] {
      OpensParagraph(r, p, lines, last);
      assert Paragraph([last]) == ["- " + last];
      RunOne(r, p, last);
    } else {
      ReadsParagraph(r, p, before);
      ContinuesParagraph(r, p, Flushed(p), before, last);
    }
  }

  lemma RunSplit(r: Rules, p: Parser, lines: Text, n: nat)
    requires n <= |lines|
    ensures Run(r, p, lines) == Run(r, Run(r, p, lines[..n]), lines[n..])
  {
    assert lines == lines[..n] + lines[n..];
    RunAppend(r, p, lines[..n], lines[n..]);
  }

  lemma DashBlock(r: Rules, lines: Text)
    requires lines != [] && Starts(lines[0], "- ")
    ensures var n := BlockSize(r, lines);
            Raw(r, lines[..n]) && (n < |lines| ==> !Inner(r, lines[n]))
  {
    forall i | 0 < i < BlockSize(r, lines)
      ensures Inner(r, lines[i])
    {
      assert lines[i] == lines[1..][i - 1];
    }
  }

  lemma ProseBlock(r: Rules, lines: Text)
    requires lines != [] && Prose(r, lines[0])
    ensures var n := BlockSize(r, lines);
            AllProse(r, lines[..n]) && (n < |lines| ==> !Prose(r, lines[n]))
  {
    forall i | 0 < i < BlockSize(r, lines)
      ensures Prose(r, lines[i])
    {
      assert lines[i] == lines[1..][i - 1];
    }
  }

  lemma StrippedFlushed(r: Rules, done: seq<Text>, b: Text, plain: bool)
    requires b != []
    ensures Stripped(r, Flushed(Parser(done, b, plain))) == Stripped(r, done) + [RightStrip(r, b)]
  {
  }

  lemma ReadsBlock(r: Rules, p: Parser, lines: Text)
    requires Sane(r) && lines != [] && EndsBefore(r, p, lines)
    ensures var block, rest := lines[..BlockSize(r, lines)], lines[BlockSize(r, lines)..];
            && EndsBefore(r, Run(r, p, block), rest)
            && Stripped(r, Flushed(Run(r, p, block))) == Stripped(r, Flushed(p)) + BlockBullets(r, block)
  {
    var block := lines[..BlockSize(r, lines)];
    if Starts(lines[0], "- ") {
      DashBlock(r, lines);
      ReadsOne(r, p, block, |block|);
      assert block[..|block|] == block;
      StrippedFlushed(r, Flushed(p), block, false);
    } else if Prose(r, lines[0]) {
      ProseBlock(r, lines);
      ReadsParagraph(r, p, block);
      StrippedFlushed(r, Flushed(p), Paragraph(block), true);
    } else {
      assert block == [lines[0]];
      RunOne(r, p, lines[0]);
    }
  }

  lemma BlocksNext(r: Rules, lines: Text, before: seq<Text>)
    requires lines != []
    ensures var n := BlockSize(r, lines);
            before + Blocks(r, lines) == before + BlockBullets(r, lines[..n]) + Blocks(r, lines[n..])
  {
  }

  lemma {:induction false} ReadsBlocks(r: Rules, p: Parser, lines: Text)
    requires Sane(r) && EndsBefore(r, p, lines)
    ensures Stripped(r, Flushed(Run(r, p, lines))) == Stripped(r, Flushed(p)) + Blocks(r, lines)
    decreases |lines|
  {
    if lines == [] {
      assert Run(r, p, lines) == p && Blocks(r, lines) == [];
    } else {
      BlocksNext(r, lines, Stripped(r, Flushed(p)));
      var block, rest := lines[..BlockSize(r, lines)], lines[BlockSize(r, lines)..];
      ReadsBlock(r, p, lines);
      RunSplit(r, p, lines, |block|);
      ReadsBlocks(r, Run(r, p, block), rest);
    }
  }

  /** The line by line parser finds the bullets that look-ahead finds. */
  lemma BulletsAreBlocks(r: Rules, lines: Text)
    requires Sane(r)
    ensures Bullets(r, lines) == Blocks(r, lines)
  {
    ReadsBlocks(r, START, lines);
    assert Flushed(START) == [] && Stripped(r, []) == [];
    assert [] + Blocks(r, lines) == Blocks(r, lines);
  }

  // Prose without indentation.
  predicate Plain(r: Rules, line: string) {
    Prose(r, line) && !Starts(line, "  ")
  }

  lemma {:induction false} WholeExtent(r: Rules, lines: Text)
    requires AllProse(r, lines)
    ensures Extent(r, lines, true) == |lines|
  {
    if lines != [] {
      WholeExtent(r, lines[1..]);
    }
  }

  lemma OneParagraph(r: Rules, lines: Text)
    requires Sane(r) && lines != [] && AllProse(r, lines)
    ensures Bullets(r, lines) == [RightStrip(r, Paragraph(lines))]
  {
    BulletsAreBlocks(r, lines);
    WholeExtent(r, lines[1..]);
    assert lines[..|lines|] == lines && lines[|lines|..] == [];
    assert Blocks(r, []) == [];
  }

  lemma NothingToStrip(r: Rules, b: Text)
    requires b != [] && b[|b| - 1] != "" && !r.space(b[|b| - 1][|b[|b| - 1]| - 1])
    ensures RightStrip(r, b) == b
  {
    var last := b[|b| - 1];
    assert last[|last| - 1] in last;
    assert b == b[..|b| - 1] + [last];
  }

  lemma LastOfParagraph(lines: Text)
    requires lines != [] && lines[|lines| - 1] != ""
    ensures var last, line := Paragraph(lines)[|lines| - 1], lines[|lines| - 1];
            last != "" && last[|last| - 1] == line[|line| - 1]
  {
  }

  /** A paragraph is one bullet: a dash before its first line, two spaces before each further line. */
  lemma ParagraphIsOneBullet(r: Rules, lines: Text)
    requires Sane(r) && lines != [] && forall i :: 0 <= i < |lines| ==> Plain(r, lines[i])
    requires lines[|lines| - 1] != "" && !r.space(lines[|lines| - 1][|lines[|lines| - 1]| - 1])
    ensures |Bullets(r, lines)| == 1
    ensures var b := Bullets(r, lines)[0];
            |b| == |lines| && b[0] == "- " + lines[0] && forall i :: 0 < i < |b| ==> b[i] == "  " + lines[i]
  {
    OneParagraph(r, lines);
    LastOfParagraph(lines);
    NothingToStrip(r, Paragraph(lines));
  }

  // ---- Every line of content is kept ----

  // The texts joined by newlines.
  function Lines(texts: seq<Text>): Text {
    if texts == [] then [] else Lines(texts[..|texts| - 1]) + texts[|texts| - 1]
  }

  lemma {:induction false} LinesOfBoth(a: seq<Text>, b: seq<Text>)
    ensures Lines(a + b) == Lines(a) + Lines(b)
  {
    if b == [] {
      assert a + b == a;
    } else {
      assert (a + b)[..|a + b| - 1] == a + b[..|b| - 1];
      LinesOfBoth(a, b[..|b| - 1]);
    }
  }

  lemma LinesAppend(a: Text, rest: seq<Text>)
    ensures Lines([a] + rest) == a + Lines(rest)
  {
    LinesOfBoth([a], rest);
    OneText(a);
  }

  // A line that says something in a bullet.
  predicate IsContent(r: Rules, line: string) {
    !Blank(r, line) && !Starts(line, "#")
  }

  function Content(r: Rules, lines: Text): Text {
    if lines == [] then []
    else Content(r, lines[..|lines| - 1]) + if IsContent(r, lines[|lines| - 1]) then [lines[|lines| - 1]] else []
  }

  function Solid(r: Rules, lines: Text): Text {
    if lines == [] then []
    else Solid(r, lines[..|lines| - 1]) + if Blank(r, lines[|lines| - 1]) then [] else [lines[|lines| - 1]]
  }

  predicate UpToSpace(r: Rules, shown: string, line: string) {
    shown <= line && Blank(r, line[|shown|..])
  }

  // The same line, up to the mark before it and the space behind it.
  predicate Shows(r: Rules, shown: string, line: string) {
    UpToSpace(r, shown, line) || UpToSpace(r, shown, "- " + line) || UpToSpace(r, shown, "  " + line)
  }

  // The lines one by one, in order.
  ghost predicate AllShown(r: Rules, shown: Text, lines: Text) {
    |shown| == |lines| && forall i :: 0 <= i < |lines| ==> Shows(r, shown[i], lines[i])
  }

  lemma {:induction false} FilterAppend(r: Rules, a: Text, b: Text)
    ensures Content(r, a + b) == Content(r, a) + Content(r, b)
    ensures Solid(r, a + b) == Solid(r, a) + Solid(r, b)
  {
    if b == [] {
      assert a + b == a;
    } else {
      assert (a + b)[..|a + b| - 1] == a + b[..|b| - 1];
      FilterAppend(r, a, b[..|b| - 1]);
    }
  }

  lemma {:induction false} TrimShows(r: Rules, line: string)
    ensures UpToSpace(r, RightTrim(r, line), line) && (Blank(r, RightTrim(r, line)) ==> Blank(r, line))
  {
    if line != [] && r.space(line[|line| - 1]) {
      var shorter := line[..|line| - 1];
      TrimShows(r, shorter);
      var k := |RightTrim(r, line)|;
      assert line[k..] == shorter[k..] + [line[|line| - 1]];
      assert Blank(r, shorter) ==> Blank(r, line) by {
        assert line == shorter + [line[|line| - 1]];
      }
    }
  }

  lemma TrimStillShows(r: Rules, shown: string, line: string)
    requires Shows(r, shown, line)
    ensures Shows(r, RightTrim(r, shown), line)
  {
    TrimShows(r, shown);
    ShowsThrough(r, RightTrim(r, shown), shown, line);
    ShowsThrough(r, RightTrim(r, shown), shown, "- " + line);
    ShowsThrough(r, RightTrim(r, shown), shown, "  " + line);
  }

  lemma ShowsThrough(r: Rules, a: string, b: string, c: string)
    requires UpToSpace(r, a, b)
    ensures UpToSpace(r, b, c) ==> UpToSpace(r, a, c)
  {
    if UpToSpace(r, b, c) {
      assert c[|a|..] == b[|a|..] + c[|b|..];
    }
  }

  // The lines of a block and of the bullet made of it, before trailing space is stripped.
  ghost predicate Renders(r: Rules, b: Text, lines: Text) {
    && |b| == |lines|
    && forall i :: 0 <= i < |b| ==>
         (Blank(r, b[i]) <==> !IsContent(r, lines[i])) && (IsContent(r, lines[i]) ==> Shows(r, b[i], lines[i]))
  }

  lemma {:induction false} RenderKeeps(r: Rules, b: Text, lines: Text)
    requires Renders(r, b, lines)
    ensures AllShown(r, Solid(r, b), Content(r, lines))
  {
    if b != [] {
      RenderKeeps(r, b[..|b| - 1], lines[..|b| - 1]);
    }
  }

  lemma {:induction false} StripKeeps(r: Rules, b: Text, lines: Text)
    requires b != [] && Renders(r, b, lines)
    ensures AllShown(r, Solid(r, RightStrip(r, b)), Content(r, lines))
  {
    var n := |b| - 1;
    if Blank(r, b[n]) {
      if n == 0 {
        assert [""][..0] == [] && lines[..0] == [];
      } else {
        StripKeeps(r, b[..n], lines[..n]);
      }
    } else {
      TrimShows(r, b[n]);
      TrimStillShows(r, b[n], lines[n]);
      var stripped := b[..n] + [RightTrim(r, b[n])];
      assert stripped[..n] == b[..n];
      RenderKeeps(r, b[..n], lines[..n]);
    }
  }

  lemma DashRenders(r: Rules, b: Text)
    requires Sane(r) && Raw(r, b)
    ensures Renders(r, b, b)
  {
    assert b[0][0] == '-' && '-' in b[0];
    forall i | 0 < i < |b|
      ensures !Starts(b[i], "#")
    {
      assert Inner(r, b[i]);
      NotABullet(r, b[i]);
    }
    forall i | 0 <= i < |b|
      ensures Shows(r, b[i], b[i])
    {
      assert b[i][|b[i]|..] == "";
    }
  }

  lemma ProseRenders(r: Rules, lines: Text)
    requires lines != [] && AllProse(r, lines)
    ensures Renders(r, Paragraph(lines), lines)
  {
    var b := Paragraph(lines);
    forall i | 0 <= i < |b|
      ensures !Blank(r, b[i]) && Shows(r, b[i], lines[i])
    {
      var c :| c in lines[i] && !r.space(c);
      assert c in b[i];
      assert b[i][|b[i]|..] == "";
    }
  }

  lemma BlockKeeps(r: Rules, lines: Text)
    requires Sane(r) && lines != []
    ensures var block := lines[..BlockSize(r, lines)];
            AllShown(r, Solid(r, Lines(BlockBullets(r, block))), Content(r, block))
  {
    var block := lines[..BlockSize(r, lines)];
    if Starts(lines[0], "- ") {
      DashBlock(r, lines);
      DashRenders(r, block);
      StripKeeps(r, block, block);
      OneText(RightStrip(r, block));
    } else if Prose(r, lines[0]) {
      ProseBlock(r, lines);
      ProseRenders(r, block);
      StripKeeps(r, Paragraph(block), block);
      OneText(RightStrip(r, Paragraph(block)));
    } else {
      assert block == [lines[0]] && block[..0] == [];
    }
  }

  lemma OneText(t: Text)
    ensures Lines([t]) == t
  {
    assert [t][..0] == [];
  }

  lemma {:induction false} BlocksKeep(r: Rules, lines: Text)
    requires Sane(r)
    ensures AllShown(r, Solid(r, Lines(Blocks(r, lines))), Content(r, lines))
    decreases |lines|
  {
    if lines != [] {
      var n := BlockSize(r, lines);
      BlockKeeps(r, lines);
      BlocksKeep(r, lines[n..]);
      assert lines == lines[..n] + lines[n..];
      FilterAppend(r, lines[..n], lines[n..]);
      var first, others := BlockBullets(r, lines[..n]), Blocks(r, lines[n..]);
      LinesOfBoth(first, others);
      FilterAppend(r, Lines(first), Lines(others));
    }
  }

  /**
   Nothing of the text is lost, repeated or moved: the lines of the bullets that are not blank are the
   text's lines that are neither blank nor a heading, one by one and in order, each up to the mark before
   it and the space behind it.
   */
  lemma ContentIsKept(r: Rules, lines: Text)
    requires Sane(r)
    ensures AllShown(r, Solid(r, Lines(Bullets(r, lines))), Content(r, lines))
  {
    BulletsAreBlocks(r, lines);
    BlocksKeep(r, lines);
  }
}
