/**
 * The question-block parser of app_v2.py (`parse_questions`): it turns the
 * text returned by the question generator into an ordered map from a
 * technology name to its list of questions.
 *
 *   1. `re.split(r"\n(?=### )", text)`: cut at every newline that is
 *      immediately followed by "### " (the newline is dropped, the heading
 *      stays with the block after it);
 *   2. per block: strip it, split it into lines at '\n'; the first line with
 *      every "###" removed and then stripped is the technology; every later
 *      non-blank line loses one leading '*' or '-' and the whitespace after
 *      it, is stripped, and is a question;
 *   3. a block with no question is skipped; otherwise `parsed[tech] = qs`,
 *      which overwrites an earlier block of the same name in place.
 */
module QuestionParser {
  import opened Text
  import opened OrderedMap

  /** The lookahead of the split pattern. */
  const Heading: string := "### "

  predicate StartsWith(s: string, prefix: string)
  {
    |prefix| <= |s| && s[..|prefix|] == prefix
  }

  /** The split pattern `\n(?=### )` matches at the front of `s`. */
  predicate BreaksAt(s: string)
  {
    |s| > 0 && s[0] == '\n' && StartsWith(s[1..], Heading)
  }

  /** The pattern matches nowhere in `s`. */
  predicate NoBreak(s: string)
  {
    forall i :: 0 <= i < |s| ==> !BreaksAt(s[i..])
  }

  /** `re.split(r"\n(?=### )", s)`: there is always at least one block. */
  function SplitBlocks(s: string): (blocks: seq<string>)
    ensures |blocks| >= 1
  {
    if |s| == 0 then [""]
    else
      var rest := SplitBlocks(s[1..]);
      if BreaksAt(s) then [""] + rest else [[s[0]] + rest[0]] + rest[1..]
  }

  /** The blocks joined with the newlines the split removed give back the
      text: the split loses nothing but the matched newlines. */
  lemma {:induction false} JoinSplitBlocks(s: string)
    ensures Join(SplitBlocks(s), '\n') == s
  {
    if |s| > 0 {
      JoinSplitBlocks(s[1..]);
      var rest := SplitBlocks(s[1..]);
      if !BreaksAt(s) {
        var blocks := SplitBlocks(s);
        assert blocks[1..] == rest[1..];
        if |rest| > 1 {
          assert Join(rest, '\n') == rest[0] + ['\n'] + Join(rest[1..], '\n');
        }
      } else {
        assert SplitBlocks(s)[1..] == rest;
      }
    }
  }

  /** A text in which the pattern never matches is one block. */
  lemma {:induction false} SplitBlocksNone(x: string)
    requires NoBreak(x)
    ensures SplitBlocks(x) == [x]
  {
    if |x| > 0 {
      assert x[1..][0..] == x[1..];
      assert forall i :: 0 <= i < |x[1..]| ==> x[1..][i..] == x[i + 1..];
      SplitBlocksNone(x[1..]);
      assert x[0..] == x;
      assert [x[0]] + x[1..] == x;
    }
  }

  /** A newline followed by the heading marker ends the block before it. */
  lemma {:induction false} SplitBlocksCons(x: string, y: string)
    requires NoBreak(x) && StartsWith(y, Heading)
    ensures SplitBlocks(x + "\n" + y) == [x] + SplitBlocks(y)
  {
    var s := x + "\n" + y;
    if |x| == 0 {
      assert s == "\n" + y;
      assert s[1..] == y;
      assert BreaksAt(s);
    } else {
      assert s[1..] == x[1..] + "\n" + y;
      assert forall i :: 0 <= i < |x[1..]| ==> x[1..][i..] == x[i + 1..];
      SplitBlocksCons(x[1..], y);
      assert x[0..] == x;
      if |x| < 5 {
        assert s[|x|] == '\n';
        assert !BreaksAt(s);
      } else {
        assert s[1..5] == x[1..5];
        assert !BreaksAt(s);
      }
      assert [x[0]] + x[1..] == x;
    }
  }

  /** A text without newlines has no match. */
  lemma NoNewlineNoBreak(x: string)
    requires '\n' !in x
    ensures NoBreak(x)
  {
    forall i | 0 <= i < |x| ensures !BreaksAt(x[i..]) {
      assert x[i..][0] == x[i];
    }
  }

  /** A line that does not start the heading marker may follow a newline
      without making a match there; matches inside either part stay as they
      are, because no match can reach across a newline. */
  lemma NoBreakJoin(x: string, y: string)
    requires NoBreak(x) && NoBreak(y) && !StartsWith(y, Heading)
    ensures NoBreak(x + "\n" + y)
  {
    var s := x + "\n" + y;
    forall i | 0 <= i < |s| ensures !BreaksAt(s[i..]) {
      if i < |x| {
        if |x| - i >= 5 {
          assert s[i..][..5] == x[i..][..5];
          assert !BreaksAt(x[i..]);
        } else if s[i] == '\n' {
          assert s[i..][|x| - i] == '\n';
        }
      } else if i == |x| {
        assert s[i..][1..] == y;
      } else {
        assert s[i..] == y[i - |x| - 1..];
      }
    }
  }

  /** `line.replace('###', '')`: scans left to right and removes every
      non-overlapping occurrence. */
  function DropHashes(s: string): (r: string)
    ensures |r| <= |s|
  {
    if |s| >= 3 && s[..3] == "###" then DropHashes(s[3..])
    else if s == [] then []
    else [s[0]] + DropHashes(s[1..])
  }

  /** "###" occurs nowhere in `s`. */
  predicate NoTripleHash(s: string)
  {
    forall i :: 0 <= i < |s| ==> !StartsWith(s[i..], "###")
  }

  /** Removing "###" from a string that does not contain it changes nothing. */
  lemma {:induction false} DropHashesNone(s: string)
    requires NoTripleHash(s)
    ensures DropHashes(s) == s
  {
    if |s| > 0 {
      assert s[0..] == s;
      assert forall i :: 0 <= i < |s[1..]| ==> s[1..][i..] == s[i + 1..];
      DropHashesNone(s[1..]);
      assert [s[0]] + s[1..] == s;
    }
  }

  /** A string that does not begin with '#' keeps its first character. */
  lemma DropHashesHead(s: string)
    requires s != [] && s[0] != '#'
    ensures DropHashes(s) != [] && DropHashes(s)[0] == s[0]
  {
    assert |s| >= 3 ==> s[..3][0] == s[0];
  }

  /** No "###" survives the replacement: the left-to-right scan takes every
      run of three hashes, and what it keeps between two matches cannot
      join into a new one. */
  lemma {:induction false} DropHashesLeavesNone(s: string)
    ensures NoTripleHash(DropHashes(s))
    decreases |s|
  {
    if |s| >= 3 && s[..3] == "###" {
      DropHashesLeavesNone(s[3..]);
    } else if s != [] {
      var t := DropHashes(s[1..]);
      DropHashesLeavesNone(s[1..]);
      var r := [s[0]] + t;
      assert r == DropHashes(s);
      forall i | 0 <= i < |r| ensures !StartsWith(r[i..], "###") {
        if i > 0 {
          assert r[i..] == t[i - 1..];
        } else {
          assert r[0..] == r;
          if |r| >= 3 { assert r[..3] == [r[0], r[1], r[2]]; }
        }
        if i == 0 && s[0] == '#' && |s| >= 2 {
          if s[1] != '#' {
            DropHashesHead(s[1..]);
          } else if |s| >= 3 {
            assert s[2] != '#' by { assert s[..3] == [s[0], s[1], s[2]]; }
            assert !(|s[1..]| >= 3 && s[1..][..3] == "###") by {
              if |s| >= 4 { assert s[1..][..3][1] == s[2]; }
            }
            assert t == [s[1]] + DropHashes(s[2..]) by { assert s[1..][1..] == s[2..]; }
            DropHashesHead(s[2..]);
            assert t[1] == s[2];
          } else {
            assert s[1..] == "#";
            assert t == "#";
          }
        }
      }
    }
  }

  /** Replacing twice is replacing once. */
  lemma DropHashesIdempotent(s: string)
    ensures DropHashes(DropHashes(s)) == DropHashes(s)
  {
    DropHashesLeavesNone(s);
    DropHashesNone(DropHashes(s));
  }

  /** The technology of a block: `lines[0].replace('###', '').strip()`. */
  function TechName(line: string): (tech: string)
    ensures IsTrimmed(tech)
  {
    Strip(DropHashes(line))
  }

  /** `re.sub(r"^[*-]\s*", "", line)`: one leading '*' or '-' and the
      whitespace right after it. */
  function DropBullet(line: string): (r: string)
    ensures |r| <= |line|
  {
    if |line| > 0 && (line[0] == '*' || line[0] == '-') then TrimLeft(line[1..]) else line
  }

  /** On a bulleted line, what is removed is the marker and the whitespace
      run after it, and what is kept is a suffix that does not start with
      whitespace; any other line is kept whole. */
  lemma DropBulletParts(line: string)
    ensures |line| > 0 && (line[0] == '*' || line[0] == '-') ==>
              var r := DropBullet(line);
              |r| < |line| && r == line[|line| - |r|..] && IsBlank(line[1..|line| - |r|])
              && (r == [] || !IsSpace(r[0]))
    ensures !(|line| > 0 && (line[0] == '*' || line[0] == '-')) ==> DropBullet(line) == line
  {
    if |line| > 0 && (line[0] == '*' || line[0] == '-') {
      TrimLeftParts(line[1..]);
      var r := DropBullet(line);
      assert line[1..][|line| - 1 - |r|..] == line[|line| - |r|..];
      assert line[1..][..|line| - 1 - |r|] == line[1..|line| - |r|];
    }
  }

  /** One question: the bullet-less line, stripped. */
  function QuestionText(line: string): (q: string)
    ensures IsTrimmed(q)
  {
    Strip(DropBullet(line))
  }

  /** `[QuestionText(q) for q in lines if q.strip()]`: one question per
      non-blank line, in line order. */
  function Questions(lines: seq<string>): (qs: seq<string>)
    ensures |qs| <= |lines|
    ensures forall k :: 0 <= k < |qs| ==> IsTrimmed(qs[k])
  {
    if lines == [] then []
    else if Strip(lines[0]) != "" then [QuestionText(lines[0])] + Questions(lines[1..])
    else Questions(lines[1..])
  }

  /** Questions keeps the order of the lines: it distributes over
      concatenation. */
  lemma {:induction false} QuestionsAppend(a: seq<string>, b: seq<string>)
    ensures Questions(a + b) == Questions(a) + Questions(b)
  {
    if a != [] {
      assert (a + b)[1..] == a[1..] + b;
      assert (a + b)[0] == a[0];
      QuestionsAppend(a[1..], b);
    } else {
      assert a + b == b;
    }
  }

  /** What one block contributes: its technology and questions, or nothing
      when it has no question line. */
  function ParseBlock(block: string): (entry: Option<(string, seq<string>)>)
    ensures entry.Some? ==> |entry.value.1| > 0
  {
    var lines := SplitOn(Strip(block), '\n');
    var qs := Questions(lines[1..]);
    if qs == [] then None else Some((TechName(lines[0]), qs))
  }

  /** One pass of the loop body: `if qs: parsed[tech] = qs`. */
  function AddBlock(parsed: seq<(string, seq<string>)>, block: string): (r: seq<(string, seq<string>)>)
    ensures Keys(r) == if ParseBlock(block).Some? && ParseBlock(block).value.0 !in Keys(parsed)
                       then Keys(parsed) + [ParseBlock(block).value.0] else Keys(parsed)
  {
    match ParseBlock(block)
    case None => parsed
    case Some((tech, qs)) => Put(parsed, tech, qs)
  }

  /** The loop over the remaining blocks, from the map built so far. */
  function ParseFrom(parsed: seq<(string, seq<string>)>, blocks: seq<string>): (r: seq<(string, seq<string>)>)
    ensures |parsed| <= |r| <= |parsed| + |blocks|
    ensures Keys(r)[..|parsed|] == Keys(parsed)
    decreases |blocks|
  {
    if blocks == [] then parsed
    else
      var next := AddBlock(parsed, blocks[0]);
      var r := ParseFrom(next, blocks[1..]);
      assert |parsed| <= |next| <= |parsed| + 1 && Keys(next)[..|parsed|] == Keys(parsed);
      assert Keys(r)[..|parsed|] == Keys(r)[..|next|][..|parsed|];
      r
  }

  /** `parse_questions(text)`. */
  function Parse(text: string): (parsed: seq<(string, seq<string>)>)
    ensures |parsed| <= |SplitBlocks(text)|
  {
    ParseFrom([], SplitBlocks(text))
  }

  /** `parse_questions` as written: a loop over the blocks that updates the
      `parsed` dict in place. */
  method ParseQuestions(text: string) returns (parsed: seq<(string, seq<string>)>)
    ensures parsed == Parse(text)
  {
    var blocks := SplitBlocks(text);
    parsed := [];
    var i := 0;
    while i < |blocks|
      invariant 0 <= i <= |blocks|
      invariant ParseFrom(parsed, blocks[i..]) == Parse(text)
    {
      // `block.strip().split('\n')` always has at least one line, so the
      // source's `if not lines: continue` never fires.
      var lines := SplitOn(Strip(blocks[i]), '\n');
      var tech := TechName(lines[0]);
      var qs := Questions(lines[1..]);
      if qs != [] {
        parsed := Put(parsed, tech, qs);
      }
      assert blocks[i..][1..] == blocks[i + 1..];
      i := i + 1;
    }
  }

  // ---------------------------------------------------------------------
  // Properties of the parser

  /** Shape of the result: no technology twice, no empty question list, and
      every question and name trimmed. */
  ghost predicate WellShaped(parsed: seq<(string, seq<string>)>)
  {
    && Distinct(Keys(parsed))
    && (forall i :: 0 <= i < |parsed| ==> |parsed[i].1| > 0 && IsTrimmed(parsed[i].0))
    && (forall i, j :: 0 <= i < |parsed| && 0 <= j < |parsed[i].1| ==> IsTrimmed(parsed[i].1[j]))
  }

  lemma PutWellShaped(parsed: seq<(string, seq<string>)>, tech: string, qs: seq<string>)
    requires WellShaped(parsed)
    requires |qs| > 0 && IsTrimmed(tech)
    requires forall j :: 0 <= j < |qs| ==> IsTrimmed(qs[j])
    ensures WellShaped(Put(parsed, tech, qs))
  {
    var r := Put(parsed, tech, qs);
    forall i | 0 <= i < |r|
      ensures |r[i].1| > 0 && IsTrimmed(r[i].0)
      ensures forall j :: 0 <= j < |r[i].1| ==> IsTrimmed(r[i].1[j])
    {
      GetAt(r, i);
      GetPut(parsed, tech, qs, r[i].0);
      if r[i].0 != tech {
        var p := IndexOf(parsed, r[i].0);
        GetAt(parsed, p);
      }
    }
  }

  /** Where a present key sits. */
  lemma IndexOf(m: seq<(string, seq<string>)>, k: string) returns (p: nat)
    requires Get(m, k).Some?
    ensures p < |m| && m[p].0 == k && m[p].1 == Get(m, k).value
  {
    if m[0].0 == k {
      p := 0;
    } else {
      var q := IndexOf(m[1..], k);
      p := q + 1;
    }
  }

  lemma {:induction false} ParseFromWellShaped(parsed: seq<(string, seq<string>)>, blocks: seq<string>)
    requires WellShaped(parsed)
    ensures WellShaped(ParseFrom(parsed, blocks))
    decreases |blocks|
  {
    if blocks != [] {
      var entry := ParseBlock(blocks[0]);
      if entry.Some? {
        var lines := SplitOn(Strip(blocks[0]), '\n');
        PutWellShaped(parsed, entry.value.0, entry.value.1);
      }
      ParseFromWellShaped(AddBlock(parsed, blocks[0]), blocks[1..]);
    }
  }

  /** `parse_questions` never yields a technology twice or a technology
      without questions (a block with no question line is dropped), and every
      name and question in it is stripped. */
  lemma ParseWellShaped(text: string)
    ensures WellShaped(Parse(text))
  {
    ParseFromWellShaped([], SplitBlocks(text));
  }

  /** The questions of the last block, among `blocks`, whose technology is
      `tech` and that has at least one question. */
  function LastFor(blocks: seq<string>, tech: string): Option<seq<string>>
  {
    if blocks == [] then None
    else
      match LastFor(blocks[1..], tech)
      case Some(qs) => Some(qs)
      case None =>
        match ParseBlock(blocks[0])
        case Some((t, qs)) => if t == tech then Some(qs) else None
        case None => None
  }

  lemma {:induction false} ParseFromLastWins(parsed: seq<(string, seq<string>)>, blocks: seq<string>, tech: string)
    ensures Get(ParseFrom(parsed, blocks), tech)
         == match LastFor(blocks, tech) case Some(qs) => Some(qs) case None => Get(parsed, tech)
    decreases |blocks|
  {
    if blocks != [] {
      ParseFromLastWins(AddBlock(parsed, blocks[0]), blocks[1..], tech);
      match ParseBlock(blocks[0])
      case None =>
      case Some((t, qs)) => GetPut(parsed, t, qs, tech);
    }
  }

  /** Repeated technologies: the questions stored for a technology are those
      of the LAST block that names it (and has questions); earlier blocks of
      the same name are overwritten, not merged. A technology no such block
      names is absent. */
  lemma ParseLastWins(text: string, tech: string)
    ensures Get(Parse(text), tech) == LastFor(SplitBlocks(text), tech)
  {
    ParseFromLastWins([], SplitBlocks(text), tech);
  }

  /** The empty text and any single line give the empty map: the text is a
      single block whose only line is taken as a technology name and which
      has no question line. */
  lemma SingleLineParsesEmpty(text: string)
    requires '\n' !in text
    ensures Parse(text) == []
  {
    NoNewlineNoBreak(text);
    SplitBlocksNone(text);
    var i := StripParts(text);
    assert '\n' !in Strip(text) by {
      forall k | 0 <= k < |Strip(text)| ensures Strip(text)[k] != '\n' {
        assert Strip(text)[k] == text[i + k];
      }
    }
    SplitNone(Strip(text), '\n');
    assert SplitOn(Strip(text), '\n')[1..] == [];
    assert ParseBlock(text) == None;
    assert Parse(text) == ParseFrom(AddBlock([], text), []);
  }

  // ---------------------------------------------------------------------
  // The format the generator is asked for, and the round trip through it

  /** The question lines of one block: "* " before each question. */
  function Bullets(qs: seq<string>): (lines: seq<string>)
    ensures |lines| == |qs|
  {
    seq(|qs|, i requires 0 <= i < |qs| => "* " + qs[i])
  }

  /** One block in the requested format: "### <tech>", then the bullets. */
  function RenderBlock(tech: string, qs: seq<string>): string
  {
    Join([Heading + tech] + Bullets(qs), '\n')
  }

  /** The blocks of a map, in its order. */
  function RenderedBlocks(parsed: seq<(string, seq<string>)>): (blocks: seq<string>)
    ensures |blocks| == |parsed|
  {
    if parsed == [] then [] else [RenderBlock(parsed[0].0, parsed[0].1)] + RenderedBlocks(parsed[1..])
  }

  /** A whole answer in the requested format: the blocks separated by
      newlines. */
  function Render(parsed: seq<(string, seq<string>)>): string
  {
    if parsed == [] then "" else Join(RenderedBlocks(parsed), '\n')
  }

  /** A technology name the requested format can carry: one line, stripped,
      and without "###" in it. */
  predicate IsTechName(tech: string)
  {
    '\n' !in tech && IsTrimmed(tech) && NoTripleHash(tech)
  }

  /** A question the requested format can carry: one non-empty stripped line. */
  predicate IsQuestion(q: string)
  {
    '\n' !in q && IsTrimmed(q) && q != ""
  }

  /** A map the requested format can carry exactly. */
  ghost predicate Renderable(parsed: seq<(string, seq<string>)>)
  {
    && Distinct(Keys(parsed))
    && (forall i :: 0 <= i < |parsed| ==> IsTechName(parsed[i].0) && |parsed[i].1| > 0)
    && (forall i, j :: 0 <= i < |parsed| && 0 <= j < |parsed[i].1| ==> IsQuestion(parsed[i].1[j]))
  }

  /** Without '#' there is no "###". */
  lemma NoHashNoTripleHash(s: string)
    requires '#' !in s
    ensures NoTripleHash(s)
  {
    forall i | 0 <= i < |s| ensures !StartsWith(s[i..], "###") {
      assert s[i..][0] == s[i];
    }
  }

  /** A join starts like its first part, unless the first part is shorter
      than the marker and the separator comes in between. */
  lemma JoinStartsWith(parts: seq<string>)
    requires |parts| >= 1
    requires StartsWith(Join(parts, '\n'), Heading)
    ensures StartsWith(parts[0], Heading)
  {
    if |parts| > 1 {
      var j := Join(parts, '\n');
      assert j == parts[0] + "\n" + Join(parts[1..], '\n');
      if |parts[0]| >= |Heading| {
        assert j[..|Heading|] == parts[0][..|Heading|];
      }
    }
  }

  /** Lines that contain no newline and, after the first, do not begin with
      the heading marker, joined with newlines, contain no match. */
  lemma {:induction false} NoBreakLines(lines: seq<string>)
    requires |lines| >= 1
    requires forall k :: 0 <= k < |lines| ==> '\n' !in lines[k]
    requires forall k :: 1 <= k < |lines| ==> !StartsWith(lines[k], Heading)
    ensures NoBreak(Join(lines, '\n'))
  {
    NoNewlineNoBreak(lines[0]);
    if |lines| > 1 {
      NoBreakLines(lines[1..]);
      if StartsWith(Join(lines[1..], '\n'), Heading) {
        JoinStartsWith(lines[1..]);
      }
      NoBreakJoin(lines[0], Join(lines[1..], '\n'));
    }
  }

  /** The last part of a join is its tail. */
  lemma {:induction false} JoinEndsWith(parts: seq<string>, sep: char)
    requires |parts| >= 1
    ensures |parts[|parts| - 1]| <= |Join(parts, sep)|
    ensures Join(parts, sep)[|Join(parts, sep)| - |parts[|parts| - 1]|..] == parts[|parts| - 1]
  {
    if |parts| > 1 {
      JoinEndsWith(parts[1..], sep);
    }
  }

  lemma RenderBlockShape(tech: string, qs: seq<string>)
    requires IsTechName(tech) && |qs| > 0
    requires forall j :: 0 <= j < |qs| ==> IsQuestion(qs[j])
    ensures NoBreak(RenderBlock(tech, qs))
    ensures StartsWith(RenderBlock(tech, qs), Heading)
    ensures IsTrimmed(RenderBlock(tech, qs))
  {
    var lines := [Heading + tech] + Bullets(qs);
    forall k | 0 <= k < |lines| ensures '\n' !in lines[k] {
      if k > 0 {
        assert lines[k] == "* " + qs[k - 1];
      }
    }
    forall k | 1 <= k < |lines| ensures !StartsWith(lines[k], Heading) {
      assert lines[k][0] == '*';
    }
    NoBreakLines(lines);
    var b := RenderBlock(tech, qs);
    assert StartsWith(b, Heading) by {
      if |lines| > 1 {
        assert b == lines[0] + "\n" + Join(lines[1..], '\n');
      }
    }
    JoinEndsWith(lines, '\n');
    var last := lines[|lines| - 1];
    assert last == "* " + qs[|qs| - 1];
    assert b[|b| - 1] == last[|last| - 1];
  }

  /** The heading line of the requested format gives back the name. */
  lemma TechNameOfHeading(tech: string)
    requires IsTechName(tech)
    ensures TechName(Heading + tech) == tech
  {
    var h := Heading + tech;
    var sp := " " + tech;
    assert h[..3] == "###" && h[3..] == sp;
    assert DropHashes(h) == DropHashes(sp);
    assert sp[0] == ' ' && sp[1..] == tech;
    assert DropHashes(sp) == [' '] + DropHashes(tech);
    DropHashesNone(tech);
    StripSpacePrefix(" ", tech);
    StripTrimmed(tech);
  }

  /** Each bullet line gives back its question, in order. */
  lemma {:induction false} QuestionsOfBullets(qs: seq<string>)
    requires forall j :: 0 <= j < |qs| ==> IsQuestion(qs[j])
    ensures Questions(Bullets(qs)) == qs
  {
    if qs != [] {
      var b := Bullets(qs);
      assert Questions(b) == [qs[0]] + Questions(Bullets(qs[1..])) by {
        assert b[0] == "* " + qs[0];
        BulletsTail(qs);
        BulletQuestion(qs[0]);
      }
      assert Questions(Bullets(qs[1..])) == qs[1..] by {
        assert forall j :: 0 <= j < |qs[1..]| ==> qs[1..][j] == qs[j + 1];
        QuestionsOfBullets(qs[1..]);
      }
      assert qs == [qs[0]] + qs[1..];
    }
  }

  lemma BulletsTail(qs: seq<string>)
    requires qs != []
    ensures Bullets(qs)[1..] == Bullets(qs[1..])
  {
    assert forall j :: 0 <= j < |qs| - 1 ==> Bullets(qs)[1..][j] == "* " + qs[1..][j];
  }

  /** One bullet line: not blank, and its question is what follows "* ". */
  lemma BulletQuestion(q: string)
    requires IsQuestion(q)
    ensures Strip("* " + q) != "" && QuestionText("* " + q) == q
  {
    var line := "* " + q;
    assert !IsSpace(line[0]);
    assert line[1..] == " " + q;
    TrimLeftSpacePrefix(" ", q);
    assert TrimLeft(q) == q;
    StripTrimmed(q);
  }

  /** A block in the requested format parses to its name and questions. */
  lemma ParseRenderBlock(tech: string, qs: seq<string>)
    requires IsTechName(tech) && |qs| > 0
    requires forall j :: 0 <= j < |qs| ==> IsQuestion(qs[j])
    ensures ParseBlock(RenderBlock(tech, qs)) == Some((tech, qs))
  {
    RenderBlockShape(tech, qs);
    var lines := [Heading + tech] + Bullets(qs);
    StripTrimmed(RenderBlock(tech, qs));
    forall k | 0 <= k < |lines| ensures '\n' !in lines[k] {
      if k > 0 {
        assert lines[k] == "* " + qs[k - 1];
      }
    }
    SplitJoin(lines, '\n');
    assert lines[1..] == Bullets(qs);
    QuestionsOfBullets(qs);
    TechNameOfHeading(tech);
  }

  /** The empty text parses to nothing. */
  lemma ParseFromEmpty(acc: seq<(string, seq<string>)>)
    ensures ParseFrom(acc, SplitBlocks("")) == acc
  {
    assert SplitBlocks("") == [""];
    assert Strip("") == "";
    assert SplitOn("", '\n')[1..] == [];
    assert ParseBlock("") == None;
    assert ParseFrom(acc, [""]) == ParseFrom(acc, []);
  }

  /** A join whose first part starts with the marker starts with it too. */
  lemma JoinKeepsStart(parts: seq<string>)
    requires |parts| >= 1 && StartsWith(parts[0], Heading)
    ensures StartsWith(Join(parts, '\n'), Heading)
  {
    if |parts| > 1 {
      var j := Join(parts, '\n');
      assert j == parts[0] + "\n" + Join(parts[1..], '\n');
      assert j[..|Heading|] == parts[0][..|Heading|];
    }
  }

  /** Blocks without a match inside, each after the first beginning with a
      heading, joined by newlines, split back into those blocks. */
  lemma {:induction false} SplitBlocksJoin(blocks: seq<string>)
    requires |blocks| >= 1
    requires forall k :: 0 <= k < |blocks| ==> NoBreak(blocks[k])
    requires forall k :: 1 <= k < |blocks| ==> StartsWith(blocks[k], Heading)
    ensures SplitBlocks(Join(blocks, '\n')) == blocks
  {
    if |blocks| == 1 {
      SplitBlocksNone(blocks[0]);
    } else {
      SplitBlocksJoin(blocks[1..]);
      JoinKeepsStart(blocks[1..]);
      SplitBlocksCons(blocks[0], Join(blocks[1..], '\n'));
    }
  }

  /** Every rendered block is a single block that begins with a heading. */
  lemma {:induction false} RenderedBlocksShape(parsed: seq<(string, seq<string>)>)
    requires Renderable(parsed)
    ensures forall k :: 0 <= k < |parsed| ==> RenderedBlocks(parsed)[k] == RenderBlock(parsed[k].0, parsed[k].1)
    ensures forall k :: 0 <= k < |parsed| ==> NoBreak(RenderedBlocks(parsed)[k]) && StartsWith(RenderedBlocks(parsed)[k], Heading)
  {
    forall k | 0 <= k < |parsed|
      ensures RenderedBlocks(parsed)[k] == RenderBlock(parsed[k].0, parsed[k].1)
    {
      RenderedBlocksAt(parsed, k);
    }
    forall k | 0 <= k < |parsed|
      ensures NoBreak(RenderedBlocks(parsed)[k]) && StartsWith(RenderedBlocks(parsed)[k], Heading)
    {
      RenderedBlocksAt(parsed, k);
      RenderBlockShape(parsed[k].0, parsed[k].1);
    }
  }

  lemma {:induction false} RenderedBlocksAt(parsed: seq<(string, seq<string>)>, k: nat)
    requires k < |parsed|
    ensures RenderedBlocks(parsed)[k] == RenderBlock(parsed[k].0, parsed[k].1)
  {
    if k > 0 {
      RenderedBlocksAt(parsed[1..], k - 1);
    }
  }

  /** A block that parses to a name not yet in the map appends its entry. */
  lemma AddBlockNew(acc: seq<(string, seq<string>)>, block: string, entry: (string, seq<string>))
    requires ParseBlock(block) == Some(entry)
    requires entry.0 !in Keys(acc)
    ensures AddBlock(acc, block) == acc + [entry]
  {
    PutNew(acc, entry.0, entry.1);
  }

  /** Names that are distinct and new to the accumulator stay new to it
      once it has gained the first of them. */
  lemma FreshTail(acc: seq<(string, seq<string>)>, parsed: seq<(string, seq<string>)>)
    requires parsed != [] && Distinct(Keys(parsed))
    requires forall k :: 0 <= k < |parsed| ==> parsed[k].0 !in Keys(acc)
    ensures Distinct(Keys(parsed[1..]))
    ensures forall k :: 0 <= k < |parsed| - 1 ==> parsed[1..][k].0 !in Keys(acc + [parsed[0]])
  {
    assert Keys(parsed[1..]) == Keys(parsed)[1..];
    assert Keys(acc + [parsed[0]]) == Keys(acc) + [parsed[0].0];
    forall k | 0 <= k < |parsed| - 1 ensures parsed[1..][k].0 !in Keys(acc + [parsed[0]]) {
      assert Keys(parsed)[0] != Keys(parsed)[k + 1];
    }
  }

  lemma AppendFirst<T>(a: seq<T>, b: seq<T>)
    requires b != []
    ensures a + [b[0]] + b[1..] == a + b
  {
    assert b == [b[0]] + b[1..];
  }

  /** Blocks that each parse to one entry, with names distinct and new to
      the accumulator, append those entries in order. */
  lemma {:induction false} ParseFromBlocks(acc: seq<(string, seq<string>)>, blocks: seq<string>,
                                           parsed: seq<(string, seq<string>)>)
    requires |blocks| == |parsed|
    requires forall k :: 0 <= k < |blocks| ==> ParseBlock(blocks[k]) == Some(parsed[k])
    requires Distinct(Keys(parsed))
    requires forall k :: 0 <= k < |parsed| ==> parsed[k].0 !in Keys(acc)
    ensures ParseFrom(acc, blocks) == acc + parsed
    decreases |blocks|
  {
    if blocks != [] {
      var acc' := acc + [parsed[0]];
      AddBlockNew(acc, blocks[0], parsed[0]);
      FreshTail(acc, parsed);
      ParseFromBlocks(acc', blocks[1..], parsed[1..]);
      assert ParseFrom(acc, blocks) == ParseFrom(acc', blocks[1..]);
      AppendFirst(acc, parsed);
    }
  }

  /** Round trip: text in exactly the format the generator is asked for
      ("### <tech>" lines, each followed by "* <question>" lines) parses back
      to the map it was written from, with its order. */
  lemma ParseRender(parsed: seq<(string, seq<string>)>)
    requires Renderable(parsed)
    ensures Parse(Render(parsed)) == parsed
  {
    if parsed == [] {
      ParseFromEmpty([]);
    } else {
      RenderedBlocksShape(parsed);
      SplitBlocksJoin(RenderedBlocks(parsed));
      forall k | 0 <= k < |parsed|
        ensures ParseBlock(RenderedBlocks(parsed)[k]) == Some(parsed[k])
      {
        ParseRenderBlock(parsed[k].0, parsed[k].1);
      }
      ParseFromBlocks([], RenderedBlocks(parsed), parsed);
    }
  }
}
