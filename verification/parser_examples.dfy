/**
 * Worked examples of `parse_questions`, one per behaviour a reader of the
 * parser might wonder about.
 */
module ParserExamples {
  import opened Text
  import opened OrderedMap
  import opened QuestionParser

  lemma GoBlock()
    ensures RenderBlock("Go", ["A", "B"]) == "### Go\n* A\n* B"
  {
    var go := ["### Go", "* A", "* B"];
    assert Heading + "Go" == "### Go";
    var ab := Bullets(["A", "B"]);
    assert |ab| == 2 && ab[0] == "* A" && ab[1] == "* B";
    assert ab == ["* A", "* B"];
    assert [Heading + "Go"] + Bullets(["A", "B"]) == go;
    assert Join(go[2..], '\n') == "* B";
    assert Join(go[1..], '\n') == "* A" + "\n" + "* B";
  }

  lemma RustBlock()
    ensures RenderBlock("Rust", ["C"]) == "### Rust\n* C"
  {
    var c := Bullets(["C"]);
    assert |c| == 1 && c[0] == "* C";
    assert c == ["* C"];
    var rust := ["### Rust", "* C"];
    assert Heading + "Rust" == "### Rust";
    assert [Heading + "Rust"] + c == rust;
    assert Join(rust[1..], '\n') == "* C";
  }

  lemma GoRustRenderable()
    ensures Renderable([("Go", ["A", "B"]), ("Rust", ["C"])])
  {
    var d := [("Go", ["A", "B"]), ("Rust", ["C"])];
    NoHashNoTripleHash("Go");
    NoHashNoTripleHash("Rust");
    assert IsTechName("Go") && IsTechName("Rust");
    assert IsQuestion("A") && IsQuestion("B") && IsQuestion("C");
    var ks := Keys(d);
    assert ks[0] == "Go" && ks[1] == "Rust" && |ks| == 2;
    assert Distinct(ks);
    forall i | 0 <= i < |d| ensures IsTechName(d[i].0) && |d[i].1| > 0 {
    }
    forall i, j | 0 <= i < |d| && 0 <= j < |d[i].1| ensures IsQuestion(d[i].1[j]) {
      if i == 0 {
        assert d[i].1 == ["A", "B"];
      } else {
        assert d[i].1 == ["C"];
      }
    }
  }

  /** Text in the requested format keeps both technologies, in order. */
  lemma TwoTechnologies()
    ensures Parse("### Go\n* A\n* B\n### Rust\n* C") == [("Go", ["A", "B"]), ("Rust", ["C"])]
  {
    var d := [("Go", ["A", "B"]), ("Rust", ["C"])];
    GoBlock();
    RustBlock();
    assert RenderedBlocks(d) == ["### Go\n* A\n* B", "### Rust\n* C"];
    assert Render(d) == "### Go\n* A\n* B\n### Rust\n* C";
    GoRustRenderable();
    ParseRender(d);
  }

  /** A trimmed, non-empty line without '#' or a bullet is its own name and
      its own question. */
  lemma PlainLine(line: string)
    requires line != [] && IsTrimmed(line) && '#' !in line
    requires line[0] != '*' && line[0] != '-'
    ensures TechName(line) == line
    ensures Strip(line) != "" && QuestionText(line) == line
  {
    NoHashNoTripleHash(line);
    DropHashesNone(line);
    StripTrimmed(line);
  }

  /** Without any heading, the first line is taken as the name of the only
      technology and the other line as its question. */
  lemma {:induction false} NoHeading(x: string, y: string)
    requires x != [] && IsTrimmed(x) && '#' !in x && '\n' !in x && x[0] != '*' && x[0] != '-'
    requires y != [] && IsTrimmed(y) && '#' !in y && '\n' !in y && y[0] != '*' && y[0] != '-'
    ensures Parse(x + "\n" + y) == [(x, [y])]
  {
    var text := x + "\n" + y;
    NoNewlineNoBreak(x);
    NoNewlineNoBreak(y);
    assert !StartsWith(y, Heading) by {
      if |Heading| <= |y| {
        assert y[..|Heading|][0] == y[0] && Heading[0] == '#';
      }
    }
    NoBreakJoin(x, y);
    SplitBlocksNone(text);
    assert IsTrimmed(text) by {
      assert text[0] == x[0] && text[|text| - 1] == y[|y| - 1];
    }
    StripTrimmed(text);
    SplitNone(y, '\n');
    SplitCons(x, '\n', y);
    assert SplitOn(Strip(text), '\n') == [x, y];
    PlainLine(x);
    PlainLine(y);
    assert Questions([y]) == [y];
    assert ParseBlock(text) == Some((x, [y]));
    assert Parse(text) == ParseFrom(AddBlock([], text), []);
  }

  lemma HelloWorld()
    ensures Parse("hello\nworld") == [("hello", ["world"])]
  {
    var text := "hello" + "\n" + "world";
    NoHeading("hello", "world");
    assert Parse(text) == [("hello", ["world"])];
    assert text == "hello\nworld";
  }

  /** Two blocks, the second opening with a heading, split apart. */
  lemma TwoBlocks(b1: string, b2: string)
    requires NoBreak(b1) && NoBreak(b2) && StartsWith(b2, Heading)
    ensures SplitBlocks(b1 + "\n" + b2) == [b1, b2]
  {
    SplitBlocksCons(b1, b2);
    SplitBlocksNone(b2);
  }

  /** The parse of two blocks is the two AddBlock steps. */
  lemma ParseTwo(text: string, b1: string, b2: string)
    requires SplitBlocks(text) == [b1, b2]
    ensures Parse(text) == AddBlock(AddBlock([], b1), b2)
  {
    assert [b1, b2][1..] == [b2];
    assert ParseFrom([], [b1, b2]) == ParseFrom(AddBlock([], b1), [b2]);
    assert [b2][1..] == [];
    assert ParseFrom(AddBlock([], b1), [b2]) == ParseFrom(AddBlock(AddBlock([], b1), b2), []);
  }

  /** A later block under the same name replaces the earlier one's
      questions, and the name keeps its place. */
  lemma RepeatedNameOverwrites(tech: string, q1: string, q2: string)
    requires IsTechName(tech) && IsQuestion(q1) && IsQuestion(q2)
    ensures Parse(RenderBlock(tech, [q1]) + "\n" + RenderBlock(tech, [q2])) == [(tech, [q2])]
  {
    var b1, b2 := RenderBlock(tech, [q1]), RenderBlock(tech, [q2]);
    RenderBlockShape(tech, [q1]);
    RenderBlockShape(tech, [q2]);
    TwoBlocks(b1, b2);
    ParseTwo(b1 + "\n" + b2, b1, b2);
    ParseRenderBlock(tech, [q1]);
    ParseRenderBlock(tech, [q2]);
    var m1 := AddBlock([], b1);
    assert m1 == [(tech, [q1])];
    assert AddBlock(m1, b2) == Put(m1, tech, [q2]);
    assert Put(m1, tech, [q2]) == [(tech, [q2])] by {
      assert m1[0].0 == tech && m1[1..] == [];
    }
  }

  /** A bare heading line is a block of its own that parses to nothing. */
  lemma HeadingOnlyBlock(t: string, rest: string)
    requires t != [] && IsTechName(t)
    requires StartsWith(rest, Heading)
    ensures SplitBlocks(Heading + t + "\n" + rest) == [Heading + t] + SplitBlocks(rest)
    ensures ParseBlock(Heading + t) == None
  {
    var b1 := Heading + t;
    assert '\n' !in b1;
    NoNewlineNoBreak(b1);
    SplitBlocksCons(b1, rest);
    assert IsTrimmed(b1) by {
      assert b1[0] == '#' && b1[|b1| - 1] == t[|t| - 1];
    }
    StripTrimmed(b1);
    SplitNone(b1, '\n');
  }

  /** A heading with no question line under it is dropped. */
  lemma {:induction false} EmptySectionDropped(t: string, tech: string, qs: seq<string>)
    requires t != [] && IsTechName(t)
    requires IsTechName(tech) && |qs| > 0
    requires forall j :: 0 <= j < |qs| ==> IsQuestion(qs[j])
    ensures Parse(Heading + t + "\n" + RenderBlock(tech, qs)) == [(tech, qs)]
  {
    var b1, b2 := Heading + t, RenderBlock(tech, qs);
    RenderBlockShape(tech, qs);
    HeadingOnlyBlock(t, b2);
    SplitBlocksNone(b2);
    assert SplitBlocks(b1 + "\n" + b2) == [b1, b2];
    assert AddBlock([], b1) == [];
    ParseRenderBlock(tech, qs);
    assert AddBlock([], b2) == [(tech, qs)];
    assert [b1, b2][1..] == [b2] && [b2][1..] == [];
    assert ParseFrom([], [b1, b2]) == ParseFrom([], [b2]);
    assert ParseFrom([], [b2]) == ParseFrom([(tech, qs)], []);
  }

  /** The block "### <tech>" over a "###<g>" line. */
  lemma HashLineBlock(tech: string, g: string)
    requires IsTechName(tech) && IsQuestion(g) && g[0] != '#'
    ensures SplitOn(Strip(Heading + tech + "\n" + "###" + g), '\n') == [Heading + tech, "###" + g]
  {
    var h, q := Heading + tech, "###" + g;
    var text := h + "\n" + q;
    assert text == Heading + tech + "\n" + "###" + g;
    assert IsTrimmed(text) by {
      assert text[0] == '#' && text[|text| - 1] == g[|g| - 1];
    }
    StripTrimmed(text);
    assert '\n' !in h && '\n' !in q;
    SplitNone(q, '\n');
    SplitCons(h, '\n', q);
  }

  /** "###" not followed by a space is not a heading for the split. */
  lemma HashLineNoBreak(tech: string, g: string)
    requires IsTechName(tech) && IsQuestion(g) && g[0] != '#'
    ensures NoBreak(Heading + tech + "\n" + "###" + g)
  {
    var h, q := Heading + tech, "###" + g;
    assert '\n' !in h && '\n' !in q;
    NoNewlineNoBreak(h);
    NoNewlineNoBreak(q);
    assert !StartsWith(q, Heading) by {
      if |Heading| <= |q| {
        assert q[..|Heading|][3] == g[0] && Heading[3] == ' ';
      }
    }
    NoBreakJoin(h, q);
    assert h + "\n" + q == Heading + tech + "\n" + "###" + g;
  }

  /** "###" without the space after it does not start a block: the line
      stays a question of the block above, hashes and all. */
  lemma HashesWithoutSpaceAreAQuestion(tech: string, g: string)
    requires IsTechName(tech) && IsQuestion(g) && g[0] != '#'
    ensures Parse(Heading + tech + "\n" + "###" + g) == [(tech, ["###" + g])]
  {
    var q := "###" + g;
    var text := Heading + tech + "\n" + "###" + g;
    HashLineNoBreak(tech, g);
    SplitBlocksNone(text);
    HashLineBlock(tech, g);
    TechNameOfHeading(tech);
    assert IsTrimmed(q) by {
      assert q[0] == '#' && q[|q| - 1] == g[|g| - 1];
    }
    StripTrimmed(q);
    assert DropBullet(q) == q;
    assert Questions([q]) == [q];
    assert ParseBlock(text) == Some((tech, [q]));
    assert Parse(text) == ParseFrom(AddBlock([], text), []);
  }

  /** A bullet with nothing after it is still a question line, and its
      question is the empty string. */
  lemma BareBulletIsEmptyQuestion(tech: string)
    requires IsTechName(tech)
    ensures Parse(Heading + tech + "\n" + "*") == [(tech, [""])]
  {
    var h, q := Heading + tech, "*";
    var text := h + "\n" + q;
    assert '\n' !in h;
    NoNewlineNoBreak(h);
    NoNewlineNoBreak(q);
    NoBreakJoin(h, q);
    SplitBlocksNone(text);
    BareBulletBlock(tech);
    TechNameOfHeading(tech);
    assert QuestionText(q) == "";
    assert Questions([q]) == [""];
    assert ParseBlock(text) == Some((tech, [""]));
    assert AddBlock([], text) == [(tech, [""])];
    assert [text][1..] == [];
    assert Parse(text) == ParseFrom([(tech, [""])], []);
  }

  lemma BareBulletBlock(tech: string)
    requires IsTechName(tech)
    ensures SplitOn(Strip(Heading + tech + "\n" + "*"), '\n') == [Heading + tech, "*"]
  {
    var h, q := Heading + tech, "*";
    var text := h + "\n" + q;
    assert IsTrimmed(text) by {
      assert text[0] == '#' && text[|text| - 1] == '*';
    }
    StripTrimmed(text);
    assert '\n' !in h;
    SplitNone(q, '\n');
    SplitCons(h, '\n', q);
  }
}
