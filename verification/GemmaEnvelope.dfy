/**
 The nonbinding reply of the Gemma worker: how it is written, and how a requester reads the lease
 correlation back out of it.
 */
module GemmaEnvelope {

  const GEMMA := "gemma-pantheon"

  // A routed item as its reader sees it.
  datatype Letter = Letter(id: string, from: string, to: string, title: string, instructions: string)

  const TITLE_PREFIX := "NONBINDING Gemma draft for "
  const TITLE_SEPARATOR := ": "
  const LINE_PREFIX := "NONBINDING DRAFT — original item "
  const LINE_MIDDLE := "; lease correlation sha256:"
  const STOP := ". "
  const DISCLAIMER := "This reply is not a completion claim."

  predicate IsHexDigit(c: char) {
    '0' <= c <= '9' || 'a' <= c <= 'f' || 'A' <= c <= 'F'
  }

  predicate IsFinger(s: string) {
    |s| == 16 && forall i :: 0 <= i < |s| ==> IsHexDigit(s[i])
  }

  // The first eight bytes of a token's digest, in hexadecimal.
  type Finger = s: string | IsFinger(s) witness "0000000000000000"

  predicate IsSpace(c: char) {
    var n := c as int;
    9 <= n <= 13 || n in {32, 133, 160, 5760, 8232, 8233, 8239, 8287, 12288} || 8192 <= n <= 8202
  }

  function TrimRight(s: string): string {
    if s != "" && IsSpace(s[|s| - 1]) then TrimRight(s[..|s| - 1]) else s
  }

  function TrimLeft(s: string): string {
    if s != "" && IsSpace(s[0]) then TrimLeft(s[1..]) else s
  }

  function Trim(s: string): string {
    TrimLeft(TrimRight(s))
  }

  function ReplyTitle(id: string, subject: string): string {
    TITLE_PREFIX + id + TITLE_SEPARATOR + Trim(subject)
  }

  function Envelope(id: string, finger: Finger, draft: string): string {
    LINE_PREFIX + id + LINE_MIDDLE + finger + STOP + DISCLAIMER + "\n\n" + draft
  }

  // The reply as the ledger stores it: the body is trimmed.
  function Reply(replyId: string, actor: string, id: string, subject: string, finger: Finger, draft: string): Letter {
    Letter(replyId, GEMMA, actor, ReplyTitle(id, subject), Trim(Envelope(id, finger, draft)))
  }

  // The part before the first line break.
  function FirstLine(s: string): string {
    if s == "" || s[0] == '\n' then "" else [s[0]] + FirstLine(s[1..])
  }

  // Where `sep` first occurs in `s`, or |s| if it does not.
  function Find(s: string, sep: string): nat {
    if sep <= s then 0 else if s == "" then 0 else 1 + Find(s[1..], sep)
  }

  // The correlation that a letter of the worker carries for an item, whoever holds the letter.
  function Correlation(r: Letter, id: string): string {
    if r.id == "" || r.from != GEMMA || !(TITLE_PREFIX + id + TITLE_SEPARATOR <= r.title) then ""
    else ParseLine(FirstLine(r.instructions), LINE_PREFIX + id + LINE_MIDDLE)
  }

  function Fingerprint(r: Letter, actor: string, id: string): string {
    if r.to != actor then "" else Correlation(r, id)
  }

  function ParseLine(line: string, prefix: string): (finger: string)
    ensures finger == "" || IsFinger(finger)
  {
    if !(prefix <= line) then ""
    else
      var rest := line[|prefix|..];
      var n := Find(rest, STOP);
      if n + |STOP| > |rest| || n != 16 || rest[n + |STOP|..] != DISCLAIMER || !IsFinger(rest[..n]) then ""
      else rest[..n]
  }

  // ---- String facts ----

  lemma {:induction false} FirstLineOf(line: string, tail: string)
    requires '\n' !in line && (tail == "" || tail[0] == '\n')
    ensures FirstLine(line + tail) == line
  {
    if line != "" {
      assert (line + tail)[1..] == line[1..] + tail;
      FirstLineOf(line[1..], tail);
    }
  }

  /** What is appended on further lines leaves the first line alone. */
  lemma {:induction false} FirstLineStays(s: string, tail: string)
    requires tail == "" || tail[0] == '\n'
    ensures FirstLine(s + tail) == FirstLine(s)
  {
    if s == "" {
      assert s + tail == tail;
    } else {
      assert (s + tail)[1..] == s[1..] + tail;
      FirstLineStays(s[1..], tail);
    }
  }

  lemma {:induction false} FirstLineIsPrefix(s: string)
    ensures FirstLine(s) <= s && '\n' !in FirstLine(s)
    ensures |FirstLine(s)| < |s| ==> s[|FirstLine(s)|] == '\n'
  {
    if s != "" && s[0] != '\n' {
      FirstLineIsPrefix(s[1..]);
    }
  }

  lemma {:induction false} FindPast(finger: string, rest: string)
    requires forall i :: 0 <= i < |finger| ==> IsHexDigit(finger[i])
    requires STOP <= rest
    ensures Find(finger + rest, STOP) == |finger|
  {
    if finger == "" {
      assert finger + rest == rest;
    } else {
      assert (finger + rest)[0] == finger[0];
      assert (finger + rest)[1..] == finger[1..] + rest;
      FindPast(finger[1..], rest);
    }
  }

  // ---- Print and parse ----

  lemma SplitAt(prefix: string, finger: string, tail: string)
    ensures (prefix + finger + tail)[|prefix|..] == finger + tail
    ensures (finger + tail)[..|finger|] == finger && (finger + tail)[|finger|..] == tail
    ensures prefix <= prefix + finger + tail
  {
    assert prefix + finger + tail == prefix + (finger + tail);
  }

  lemma ParseLinePrinted(prefix: string, finger: Finger)
    ensures ParseLine(prefix + finger + STOP + DISCLAIMER, prefix) == finger
  {
    var tail := STOP + DISCLAIMER;
    assert prefix + finger + STOP + DISCLAIMER == prefix + finger + tail;
    SplitAt(prefix, finger, tail);
    FindPast(finger, tail);
    SplitAt(finger, STOP, DISCLAIMER);
    assert (finger + tail)[18..] == DISCLAIMER;
  }

  lemma ParseLineAccepts(line: string, prefix: string)
    requires ParseLine(line, prefix) != ""
    ensures line == prefix + ParseLine(line, prefix) + STOP + DISCLAIMER
  {
    var rest := line[|prefix|..];
    FindFinds(rest, STOP);
    assert line == prefix + rest;
    assert rest == rest[..16] + rest[16..18] + rest[18..];
  }

  const SPACES := "\t\n\U{0b}\U{0c}\r \U{85}\U{a0}\U{1680}\U{2000}\U{2001}\U{2002}\U{2003}\U{2004}\U{2005}"
                  + "\U{2006}\U{2007}\U{2008}\U{2009}\U{200a}\U{2028}\U{2029}\U{202f}\U{205f}\U{3000}"

  // What is trimmed: the white space of Unicode.
  lemma SpacesAre(c: char)
    ensures c in SPACES ==> IsSpace(c)
    ensures IsSpace(c) ==> c in SPACES
  {
    if c in SPACES {
      var i :| 0 <= i < |SPACES| && SPACES[i] == c;
    }
    if IsSpace(c) {
      var n := c as int;
      if n <= 13 {
        assert SPACES[n - 9] == c;
      } else if 8192 <= n <= 8202 {
        assert SPACES[n - 8192 + 9] == c;
      } else if n <= 5760 {
        assert c in {SPACES[5], SPACES[6], SPACES[7], SPACES[8]};
      } else {
        assert c in {SPACES[20], SPACES[21], SPACES[22], SPACES[23], SPACES[24]};
      }
    }
  }

  // Sixteen hexadecimal digits.
  predicate SixteenDigits(f: string) {
    |f| == 16 && forall c :: c in f ==> c in "0123456789abcdefABCDEF"
  }

  lemma FingerIs(f: string)
    ensures IsFinger(f) <==> SixteenDigits(f)
  {
    if SixteenDigits(f) {
      forall i | 0 <= i < |f|
        ensures IsHexDigit(f[i])
      {
        assert f[i] in f;
      }
    }
    if IsFinger(f) {
      forall c | c in f
        ensures c in "0123456789abcdefABCDEF"
      {
        DigitIs(c);
      }
    }
  }

  lemma DigitIs(c: char)
    requires IsHexDigit(c)
    ensures c in "0123456789abcdefABCDEF"
  {
    var digits := "0123456789abcdefABCDEF";
    if c <= '9' {
      assert digits[c as int - '0' as int] == c;
    } else if c <= 'F' {
      assert digits[16 + (c as int - 'A' as int)] == c;
    } else {
      assert digits[10 + (c as int - 'a' as int)] == c;
    }
  }

  lemma ParseLineIff(line: string, prefix: string, f: string)
    requires f != ""
    ensures ParseLine(line, prefix) == f
       <==> SixteenDigits(f) && line == prefix + f + ". This reply is not a completion claim."
  {
    FingerIs(f);
    assert STOP + DISCLAIMER == ". This reply is not a completion claim.";
    assert prefix + f + STOP + DISCLAIMER == prefix + f + (STOP + DISCLAIMER);
    if ParseLine(line, prefix) == f {
      ParseLineAccepts(line, prefix);
    }
    if SixteenDigits(f) {
      ParseLinePrinted(prefix, f);
    }
  }

  /** Which letters carry a correlation for an item: the worker's, titled for it, with exactly this first line. */
  lemma CorrelationIff(r: Letter, id: string, f: string)
    requires f != ""
    ensures Correlation(r, id) == f
       <==> && r.id != "" && r.from == "gemma-pantheon" && "NONBINDING Gemma draft for " + id + ": " <= r.title
            && SixteenDigits(f)
            && FirstLine(r.instructions) == "NONBINDING DRAFT — original item " + id + "; lease correlation sha256:" + f
                                            + ". This reply is not a completion claim."
  {
    ParseLineIff(FirstLine(r.instructions), LINE_PREFIX + id + LINE_MIDDLE, f);
  }

  lemma {:induction false} FindFinds(s: string, sep: string)
    requires Find(s, sep) + |sep| <= |s|
    ensures s[Find(s, sep)..][..|sep|] == sep
  {
    if !(sep <= s) {
      if s != "" {
        FindFinds(s[1..], sep);
        assert s[Find(s, sep)..] == s[1..][Find(s[1..], sep)..];
      }
    }
  }

  // ---- Trimming ----

  predicate AllSpace(s: string) {
    forall c :: c in s ==> IsSpace(c)
  }

  lemma {:induction false} TrimRightIs(s: string)
    ensures TrimRight(s) <= s && AllSpace(s[|TrimRight(s)|..])
    ensures TrimRight(s) == "" || !IsSpace(TrimRight(s)[|TrimRight(s)| - 1])
  {
    if s != "" && IsSpace(s[|s| - 1]) {
      TrimRightIs(s[..|s| - 1]);
      var t := TrimRight(s);
      assert s[|t|..] == s[..|s| - 1][|t|..] + [s[|s| - 1]];
    }
  }

  lemma {:induction false} TrimLeftIs(s: string)
    ensures |TrimLeft(s)| <= |s| && s == s[..|s| - |TrimLeft(s)|] + TrimLeft(s) && AllSpace(s[..|s| - |TrimLeft(s)|])
    ensures TrimLeft(s) == "" || !IsSpace(TrimLeft(s)[0])
  {
    if s != "" && IsSpace(s[0]) {
      TrimLeftIs(s[1..]);
      var n := |s| - |TrimLeft(s)|;
      assert s[..n] == [s[0]] + s[1..][..n - 1];
    }
  }

  /** Trimming takes white space off both ends, all of it, and nothing else. */
  lemma TrimIs(s: string) returns (left: string, right: string)
    ensures s == left + Trim(s) + right && AllSpace(left) && AllSpace(right)
    ensures Trim(s) == "" || (!IsSpace(Trim(s)[0]) && !IsSpace(Trim(s)[|Trim(s)| - 1]))
  {
    var t := TrimRight(s);
    TrimRightIs(s);
    TrimLeftIs(t);
    left, right := t[..|t| - |Trim(s)|], s[|t|..];
    if Trim(s) != "" {
      assert t[|t| - 1] == Trim(s)[|Trim(s)| - 1];
    }
  }

  lemma {:induction false} TrimRightAppend(a: string, b: string)
    ensures TrimRight(a + b) == if TrimRight(b) == "" then TrimRight(a) else a + TrimRight(b)
  {
    if b == "" {
      assert a + b == a;
    } else if IsSpace(b[|b| - 1]) {
      assert (a + b)[..|a + b| - 1] == a + b[..|b| - 1];
      TrimRightAppend(a, b[..|b| - 1]);
    }
  }

  // What trimming leaves of an envelope: the whole correlation line, and the draft behind a blank line if there is any.
  lemma TrimmedTail(draft: string)
    ensures TrimRight("\n\n" + draft) == if TrimRight(draft) == "" then "" else "\n\n" + TrimRight(draft)
  {
    TrimRightAppend("\n\n", draft);
    assert "\n\n"[..1] == "\n" && "\n"[..0] == "";
  }

  lemma TrimmedEnvelope(id: string, finger: Finger, draft: string) returns (tail: string)
    ensures Trim(Envelope(id, finger, draft))
         == LINE_PREFIX + id + LINE_MIDDLE + finger + STOP + DISCLAIMER + tail
    ensures tail == if TrimRight(draft) == "" then "" else "\n\n" + TrimRight(draft)
  {
    var line := LINE_PREFIX + id + LINE_MIDDLE + finger + STOP + DISCLAIMER;
    assert Envelope(id, finger, draft) == line + ("\n\n" + draft);
    TrimRightAppend(line, "\n\n" + draft);
    TrimmedTail(draft);
    assert line[|line| - 1] == DISCLAIMER[|DISCLAIMER| - 1] == '.';
    tail := TrimRight("\n\n" + draft);
    assert (line + tail)[0] == LINE_PREFIX[0] == 'N';
  }

  /** The reply as its reader finds it, letter by letter: the title, the correlation line, and the whole draft. */
  lemma ReplyReads(replyId: string, actor: string, id: string, subject: string, finger: Finger, draft: string)
    requires Trim(draft) != ""
    ensures var m := Reply(replyId, actor, id, subject, finger, Trim(draft));
            && m.id == replyId && m.from == "gemma-pantheon" && m.to == actor
            && m.title == "NONBINDING Gemma draft for " + id + ": " + Trim(subject)
            && m.instructions == FullText(id, finger, Trim(draft))
  {
    var t := Trim(draft);
    var _, _ := TrimIs(draft);
    assert TrimRight(t) == t;
    var tail := TrimmedEnvelope(id, finger, t);
    FullTextIs(id, finger, t);
    assert TITLE_PREFIX == "NONBINDING Gemma draft for " && TITLE_SEPARATOR == ": ";
  }

  // The text of a reply, in full.
  function FullText(id: string, finger: Finger, draft: string): string {
    "NONBINDING DRAFT — original item " + id + "; lease correlation sha256:" + finger + ". "
    + "This reply is not a completion claim." + "\n\n" + draft
  }

  lemma FullTextIs(id: string, finger: Finger, draft: string)
    ensures FullText(id, finger, draft) == LINE_PREFIX + id + LINE_MIDDLE + finger + STOP + DISCLAIMER + ("\n\n" + draft)
  {
    var line := LINE_PREFIX + id + LINE_MIDDLE + finger + STOP + DISCLAIMER;
    assert line + "\n\n" + draft == line + ("\n\n" + draft);
  }

  /** A requester recovers exactly the correlation the worker wrote, unless the item ID holds a line break. */
  lemma RoundTrip(replyId: string, actor: string, id: string, subject: string, finger: Finger, draft: string)
    requires replyId != ""
    ensures Fingerprint(Reply(replyId, actor, id, subject, finger, draft), actor, id)
         == if '\n' in id then "" else finger
  {
    var tail := TrimmedEnvelope(id, finger, draft);
    var prefix := LINE_PREFIX + id + LINE_MIDDLE;
    var line := prefix + finger + STOP + DISCLAIMER;
    var body := Trim(Envelope(id, finger, draft));
    assert body == line + tail;
    assert ReplyTitle(id, subject) == (TITLE_PREFIX + id + TITLE_SEPARATOR) + Trim(subject);
    if '\n' in id {
      FirstLineIsPrefix(body);
      BreakIsNoPrefix(prefix, FirstLine(body));
    } else {
      NoBreakInLine(id, finger);
      FirstLineOf(line, tail);
      ParseLinePrinted(prefix, finger);
    }
  }

  lemma NoBreakInLine(id: string, finger: Finger)
    requires '\n' !in id
    ensures '\n' !in LINE_PREFIX + id + LINE_MIDDLE + finger + STOP + DISCLAIMER
  {
    assert '\n' !in LINE_PREFIX && '\n' !in LINE_MIDDLE && '\n' !in STOP && '\n' !in DISCLAIMER;
    assert '\n' !in finger;
  }

  lemma BreakIsNoPrefix(prefix: string, line: string)
    requires '\n' in prefix && '\n' !in line
    ensures !(prefix <= line)
  {
    var k :| 0 <= k < |prefix| && prefix[k] == '\n';
    assert k < |line| ==> line[k] != '\n';
  }

  lemma EqualLines(p: string, a: string, m: string, f: string, s: string, b: string, g: string)
    requires p + a + m + f + s == p + b + m + g + s && |f| == |g|
    ensures a == b
  {
    var line := p + a + m + f + s;
    assert |a| == |b|;
    assert a == line[|p|..|p| + |a|];
    assert b == line[|p|..|p| + |b|];
  }

  // A line that ends inside `a` cannot continue `b` with `m` where the title continues it with `t`.
  lemma BrokenLine(p: string, a: string, rest: string, b: string, m: string, q: string, t: string, title: string)
    requires '\n' in a && m != "" && t != "" && m[0] != t[0]
    requires p + b + m <= FirstLine(p + a + rest)
    ensures !(q + b + t <= q + a + title)
  {
    var body := p + a + rest;
    FirstLineIsPrefix(body);
    var k :| 0 <= k < |a| && a[k] == '\n';
    assert body[|p| + k] == '\n';
    var i := |p| + |b|;
    assert (p + b + m)[i] == m[0];
    assert body[i] == m[0];
    assert |b| < |a| && a[|b|] == m[0];
    assert (q + b + t)[|q| + |b|] == t[0];
    assert (q + a + title)[|q| + |b|] == m[0];
  }

  lemma UnbrokenAccepted(id: string, finger: Finger, tail: string, other: string)
    requires '\n' !in id && (tail == "" || tail[0] == '\n')
    requires ParseLine(FirstLine(LINE_PREFIX + id + LINE_MIDDLE + finger + STOP + DISCLAIMER + tail),
                       LINE_PREFIX + other + LINE_MIDDLE) != ""
    ensures other == id
  {
    var line, prefix := LINE_PREFIX + id + LINE_MIDDLE + finger + STOP + DISCLAIMER, LINE_PREFIX + other + LINE_MIDDLE;
    assert FirstLine(line + tail) == line by {
      NoBreakInLine(id, finger);
      FirstLineOf(line, tail);
    }
    var g := ParseLine(line, prefix);
    ParseLineAccepts(line, prefix);
    SameLines(id, finger, other, g, STOP + DISCLAIMER);
  }

  lemma SameLines(id: string, finger: string, other: string, g: string, s: string)
    requires s == STOP + DISCLAIMER && |finger| == |g|
    requires LINE_PREFIX + id + LINE_MIDDLE + finger + STOP + DISCLAIMER
          == LINE_PREFIX + other + LINE_MIDDLE + g + STOP + DISCLAIMER
    ensures other == id
  {
    assert LINE_PREFIX + id + LINE_MIDDLE + finger + STOP + DISCLAIMER == LINE_PREFIX + id + LINE_MIDDLE + finger + s;
    assert LINE_PREFIX + other + LINE_MIDDLE + g + STOP + DISCLAIMER == LINE_PREFIX + other + LINE_MIDDLE + g + s;
    EqualLines(LINE_PREFIX, id, LINE_MIDDLE, finger, s, other, g);
  }

  lemma BrokenRefused(id: string, rest: string, title: string, other: string)
    requires '\n' in id && TITLE_PREFIX + other + TITLE_SEPARATOR <= TITLE_PREFIX + id + title
    ensures ParseLine(FirstLine(LINE_PREFIX + id + rest), LINE_PREFIX + other + LINE_MIDDLE) == ""
  {
    if LINE_PREFIX + other + LINE_MIDDLE <= FirstLine(LINE_PREFIX + id + rest) {
      BrokenLine(LINE_PREFIX, id, rest, other, LINE_MIDDLE, TITLE_PREFIX, TITLE_SEPARATOR, title);
    }
  }

  lemma Reassociate(a: string, b: string, c: string, d: string, e: string, f: string, g: string)
    ensures a + b + c + d + e + f + g == a + b + (c + d + e + f + g)
  {
  }

  lemma TitleOf(id: string, subject: string)
    ensures ReplyTitle(id, subject) == TITLE_PREFIX + id + (TITLE_SEPARATOR + Trim(subject))
  {
    var t := Trim(subject);
    assert TITLE_PREFIX + id + TITLE_SEPARATOR + t == TITLE_PREFIX + id + (TITLE_SEPARATOR + t);
  }

  lemma BrokenIsRefused(id: string, subject: string, finger: string, tail: string, other: string)
    requires '\n' in id && TITLE_PREFIX + other + TITLE_SEPARATOR <= ReplyTitle(id, subject)
    ensures ParseLine(FirstLine(LINE_PREFIX + id + LINE_MIDDLE + finger + STOP + DISCLAIMER + tail),
                      LINE_PREFIX + other + LINE_MIDDLE) == ""
  {
    Reassociate(LINE_PREFIX, id, LINE_MIDDLE, finger, STOP, DISCLAIMER, tail);
    TitleOf(id, subject);
    BrokenRefused(id, LINE_MIDDLE + finger + STOP + DISCLAIMER + tail, TITLE_SEPARATOR + Trim(subject), other);
  }

  lemma AcceptedIsMine(id: string, subject: string, finger: Finger, tail: string, other: string)
    requires tail == "" || tail[0] == '\n'
    requires TITLE_PREFIX + other + TITLE_SEPARATOR <= ReplyTitle(id, subject)
    requires ParseLine(FirstLine(LINE_PREFIX + id + LINE_MIDDLE + finger + STOP + DISCLAIMER + tail),
                       LINE_PREFIX + other + LINE_MIDDLE) != ""
    ensures other == id
  {
    if '\n' in id {
      BrokenIsRefused(id, subject, finger, tail, other);
    } else {
      UnbrokenAccepted(id, finger, tail, other);
    }
  }

  /** A reply written for one item is never accepted for another. */
  lemma NeverForAnother(replyId: string, actor: string, id: string, subject: string, finger: Finger, draft: string,
                        other: string)
    requires Correlation(Reply(replyId, actor, id, subject, finger, draft), other) != ""
    ensures other == id
  {
    var tail := TrimmedEnvelope(id, finger, draft);
    AcceptedIsMine(id, subject, finger, tail, other);
  }
}
