/** A few records of the catalog, with their long texts shortened, and what the helpers and the
    renderer compute for them. */
module Witnesses {
  import opened Common
  import opened Catalog
  import opened Text
  import opened Media
  import opened Detail

  /** The `buck-lny` record: one section of four autoplaying clips. */
  function BuckLny(): Project {
    Project("BUCK x LNY 2023", "Spark AR Studio, JavaScript", "<h3>An AR Lunar New Year Celebration</h3>",
            HeroList([HeroEntry("images/thumbnails/lny_thumb02.png", "BUCK Lunar New Year 2023 AR Experience")]),
            Some([Section("fortune-luck-love", "Year of the Rabbit Fortunes", "",
                          Some([MediaItem("mp4", "videos/lny/LNY23_AR_Week01_Wes.mp4", ""),
                                MediaItem("mp4", "videos/lny/LNY23_AR_Week02_Ken.mp4", ""),
                                MediaItem("mp4", "videos/lny/LNY23_AR_Week03_Soyeon.mp4", ""),
                                MediaItem("mp4", "videos/lny/LNY23_AR_Week04_Vik.mp4", "")]),
                          false)]),
            "", "Year: 2023<br>Client: BUCK<br>Role: Lead Creative Technologist, AR Developer")
  }

  /** The `flat-journal` record: a single hero object without a caption and one GIF. */
  function FlatJournal(): Project {
    Project("Flat Journal", "Website, JavaScript", "<p>FLAT is a platform for theoretical and critical texts.</p>",
            HeroObject(HeroEntry("images/thumbnails/flat2025.png", "")),
            Some([Section("role", "A Collaboration Between Students and Faculty", "<p>During my final year at UCLA.</p>",
                          Some([MediaItem("gif", "images/thumbnails/final_site_00.gif", "")]), false)]),
            "", "Year: 2019<br>Role: Lead UI/UX Designer, Web Developer, Creative Direction")
  }

  /** `buck-lny` passes validation. */
  lemma BuckLnyIsValid()
    ensures ValidateProject(BuckLny()).isValid
  {
  }

  /** `buck-lny` holds four media items, all of them `mp4`. */
  lemma BuckLnyMediaCounts()
    ensures GetTotalMediaCount(BuckLny()) == 4 && |GetMediaByType(BuckLny(), "mp4")| == 4
    ensures GetMediaByType(BuckLny(), "image") == []
  {
    var section := SectionsOf(BuckLny())[0];
    var all := AllProjectMedia(BuckLny());
    assert all == TagSection(section) by { assert SectionsOf(BuckLny())[..0] == []; }
    FilterKeepsAll(all, TypeIs("mp4"));
    FilterDropsAll(all, TypeIs("image"));
  }

  /** The grid of `buck-lny`'s section is marked as holding several videos and nothing else. */
  lemma BuckLnyGrid()
    ensures GridClasses(GridFlags(MediaOf(SectionsOf(BuckLny())[0]))) == {"section-media", "has-videos", "multiple-videos"}
  {
    var media := MediaOf(SectionsOf(BuckLny())[0]);
    FilterKeepsAll(media, ItemTypeIs("mp4"));
    FilterDropsAll(media, ItemTypeIs("image"));
    FilterDropsAll(media, ItemTypeIs("gif"));
    GridFlagsFollowCounts(media);
    assert GridFlags(media) == GridLayout(FamilyFlags(true, false, true), FamilyFlags(false, false, false),
                                          FamilyFlags(false, false, false));
  }

  /** Appending to `buck-lny`'s only section succeeds and adds a fifth item; an unknown section id is
      refused. */
  lemma BuckLnyAppend()
    ensures var r := AppendMedia(BuckLny(), "fortune-luck-love", MediaItem("image", "x.png", ""));
      r.added && GetTotalMediaCount(r.project) == 5
    ensures !AppendMedia(BuckLny(), "missing", MediaItem("image", "x.png", "")).added
  {
    AppendMediaEffect(BuckLny(), "fortune-luck-love", MediaItem("image", "x.png", ""));
  }

  /** A hero object without a caption takes the project title as its `alt` text. */
  lemma FlatJournalHero()
    ensures RenderHero(FlatJournal()) == HeroImages([HeroImg(None, "Flat Journal", "images/thumbnails/flat2025.png")])
  {
  }

  /** "BUCK x LNY 2023" does not contain "BUCK LNY", so the catalog's own title reaches the
      kebab-case fallback instead of the id `buck-lny`. */
  lemma BuckLnyTitleFallsThrough()
    ensures !Includes("BUCK x LNY 2023", "BUCK LNY")
  {
    var s, t := "BUCK x LNY 2023", "BUCK LNY";
    assert !Includes(s[8..], t);
    assert !Includes(s[7..], t) by { assert s[7..][0] != t[0]; assert s[7..][1..] == s[8..]; }
    assert !Includes(s[6..], t) by { assert s[6..][0] != t[0]; assert s[6..][1..] == s[7..]; }
    assert !Includes(s[5..], t) by { assert s[5..][0] != t[0]; assert s[5..][1..] == s[6..]; }
    assert !Includes(s[4..], t) by { assert s[4..][0] != t[0]; assert s[4..][1..] == s[5..]; }
    assert !Includes(s[3..], t) by { assert s[3..][0] != t[0]; assert s[3..][1..] == s[4..]; }
    assert !Includes(s[2..], t) by { assert s[2..][0] != t[0]; assert s[2..][1..] == s[3..]; }
    assert !Includes(s[1..], t) by { assert s[1..][0] != t[0]; assert s[1..][1..] == s[2..]; }
    assert s[..8][5] != t[5];
  }

  /** The blank line of "a\n\nb" is one `</p><p>` break. */
  lemma ReplaceBlankLinesExample()
    ensures ReplaceBlankLines("a\n\nb") == "a</p><p>b"
  {
    assert WhitespaceRun("b") == 0;
    assert ReplaceBlankLines("b") == "b" by { assert "b"[1..] == ""; }
    assert WhitespaceRun("\nb") == 1 by { assert "\nb"[1..] == "b"; }
    assert LastNewline("\n") == Some(0);
    assert ReplaceBlankLines("\n\nb") == "</p><p>b" by {
      assert "\n\nb"[1..] == "\nb";
      assert "\nb"[..1] == "\n";
      assert "\n\nb"[2..] == "b";
    }
    assert "a\n\nb"[1..] == "\n\nb";
  }

  /** A single newline becomes `<br>`. */
  lemma LineBreakExample()
    ensures FormatDescription("a\nb") == "a<br>b"
  {
    assert '<' !in "a\nb";
    assert !HasBlankLine("a\nb") by {
      assert "a\nb"[1..] == "\nb";
      assert "\nb"[1..] == "b";
      assert !NewlineAfterWhitespace("b");
      assert !HasBlankLine("b") by { assert "b"[1..] == ""; }
    }
    assert ReplaceNewlines("a\nb") == "a<br>b" by {
      assert "a\nb"[1..] == "\nb";
      assert "\nb"[1..] == "b";
      assert ReplaceNewlines("b") == "b" by { assert "b"[1..] == ""; }
    }
  }

  /** A blank line becomes a paragraph break. */
  lemma ParagraphBreakExample()
    ensures FormatDescription("a\n\nb") == "a</p><p>b"
  {
    assert '<' !in "a\n\nb";
    ReplaceBlankLinesExample();
    assert '\n' !in "a</p><p>b";
    NewlinesNotTouched("a</p><p>b");
  }

  /** " b" is an indented line: its whitespace holds no newline, and both steps leave it alone. */
  lemma IndentedLine()
    ensures LeadingWhitespaceOnOneLine(" b")
    ensures ReplaceBlankLines(" b") == " b" && ReplaceNewlines(" b") == " b"
  {
    assert WhitespaceRun(" b") == 1 by { assert " b"[1..] == "b"; }
    assert '\n' !in " b";
    NoNewlineNoBlankLine(" b");
    BlankLinesNotTouched(" b");
    NewlinesNotTouched(" b");
  }

  /** "a\n\n b" is "a", a blank line, and the indented line " b". */
  lemma IndentedParagraphParts()
    ensures "a\n\n b" == "a" + "\n" + "" + "\n" + " b"
  {
  }

  /** A blank line before an indented line becomes a paragraph break that keeps the indentation. */
  lemma IndentedParagraphExample()
    ensures ReplaceBlankLines("a\n\n b") == "a</p><p> b"
  {
    calc {
      ReplaceBlankLines("a\n\n b");
      { IndentedParagraphParts(); }
      ReplaceBlankLines("a" + "\n" + "" + "\n" + " b");
      { IndentedLine(); assert '\n' !in "a"; BlankLineBecomesParagraphBreak("a", "", " b"); }
      "a" + "</p><p>" + ReplaceBlankLines(" b");
      { IndentedLine(); }
      "a" + "</p><p>" + " b";
      "a</p><p> b";
    }
  }

  /** Formatted, the same text keeps the indented line's leading space after the break. */
  lemma IndentedParagraphFormatted()
    ensures FormatDescription("a\n\n b") == "a</p><p> b"
  {
    calc {
      FormatDescription("a\n\n b");
      { IndentedParagraphParts(); }
      FormatDescription("a" + "\n" + "" + "\n" + " b");
      { IndentedLine(); assert '\n' !in "a"; FormatDescriptionBlankLine("a", "", " b"); }
      "a" + "</p><p>" + ReplaceNewlines(ReplaceBlankLines(" b"));
      { IndentedLine(); }
      "a" + "</p><p>" + " b";
      "a</p><p> b";
    }
  }

  /** "b", a blank line and "c": the blank line becomes `</p><p>`. */
  lemma BlankLineBeforeLastLine()
    ensures ReplaceBlankLines("b\n\nc") == "b</p><p>c"
  {
    calc {
      ReplaceBlankLines("b\n\nc");
      { assert "b\n\nc" == "b" + "\n" + "" + "\n" + "c"; }
      ReplaceBlankLines("b" + "\n" + "" + "\n" + "c");
      { assert '\n' !in "b";
        assert LeadingWhitespaceOnOneLine("c") by { assert WhitespaceRun("c") == 0; }
        BlankLineBecomesParagraphBreak("b", "", "c"); }
      "b" + "</p><p>" + ReplaceBlankLines("c");
      { assert '\n' !in "c"; NoNewlineNoBlankLine("c"); BlankLinesNotTouched("c"); }
      "b" + "</p><p>" + "c";
      "b</p><p>c";
    }
  }

  /** A paragraph of two lines before a blank line: the blank line becomes `</p><p>` and the newline
      inside the paragraph is kept for the `<br>` step. */
  lemma TwoLineParagraphExample()
    ensures ReplaceBlankLines("a\nb\n\nc") == "a\nb</p><p>c"
  {
    calc {
      ReplaceBlankLines("a\nb\n\nc");
      { assert "a\nb\n\nc" == "a" + "\nb\n\nc"; }
      ReplaceBlankLines("a" + "\nb\n\nc");
      { assert '\n' !in "a"; ReplaceBlankLinesAfterPlainPrefix("a", "\nb\n\nc"); }
      "a" + ReplaceBlankLines("\nb\n\nc");
      { assert "\nb\n\nc" == "\n" + "b\n\nc";
        assert LeadingWhitespaceOnOneLine("b\n\nc") by { assert WhitespaceRun("b\n\nc") == 0; }
        SingleNewlineKept("b\n\nc"); }
      "a" + ("\n" + ReplaceBlankLines("b\n\nc"));
      { BlankLineBeforeLastLine(); }
      "a" + ("\n" + "b</p><p>c");
      "a\nb</p><p>c";
    }
  }

  /** The `<br>` step on the result of the blank-line step. */
  lemma TwoLineParagraphLineBreak()
    ensures ReplaceNewlines("a\nb</p><p>c") == "a<br>b</p><p>c"
  {
    calc {
      ReplaceNewlines("a\nb</p><p>c");
      { assert "a\nb</p><p>c" == "a\n" + "b</p><p>c"; }
      ReplaceNewlines("a\n" + "b</p><p>c");
      { ReplaceNewlinesAppend("a\n", "b</p><p>c"); }
      ReplaceNewlines("a\n") + ReplaceNewlines("b</p><p>c");
      { assert '\n' !in "b</p><p>c"; NewlinesNotTouched("b</p><p>c"); }
      ReplaceNewlines("a\n") + "b</p><p>c";
      { assert "a\n"[1..] == "\n"; assert "\n"[1..] == ""; }
      "a<br>" + "b</p><p>c";
      "a<br>b</p><p>c";
    }
  }

  /** Formatted, the two-line paragraph gets a `<br>` and the blank line a `</p><p>`. */
  lemma TwoLineParagraphFormatted()
    ensures FormatDescription("a\nb\n\nc") == "a<br>b</p><p>c"
  {
    calc {
      FormatDescription("a\nb\n\nc");
      { assert '<' !in "a\nb\n\nc"; FormatDescriptionPlainText("a\nb\n\nc"); }
      ReplaceNewlines(ReplaceBlankLines("a\nb\n\nc"));
      { TwoLineParagraphExample(); }
      ReplaceNewlines("a\nb</p><p>c");
      { TwoLineParagraphLineBreak(); }
      "a<br>b</p><p>c";
    }
  }

  /** The lower-casing and the character filter leave "a " from "A ". */
  lemma LowerAndStripExample()
    ensures StripDisallowed(Lower("A ")) == "a "
  {
    assert Lower("A ") == "a " by { assert "A "[1..] == " "; assert " "[1..] == ""; }
    FilterKeepsAll("a ", KeptChar);
  }

  /** The whitespace and dash collapses turn "a " into "a-". */
  lemma CollapseExample()
    ensures CollapseDashes(CollapseWhitespace("a ")) == "a-"
  {
    assert CollapseWhitespace("a ") == "a-" by {
      assert "a "[1..] == " ";
      assert WhitespaceRun(" ") == 1 by { assert " "[1..] == ""; }
    }
    assert CollapseDashes("a-") == "a-" by {
      assert "a-"[1..] == "-";
      assert DashRun("-") == 1 by { assert "-"[1..] == ""; }
    }
  }

  /** The steps before the final trim turn "A " into "a-". */
  lemma TrailingSpaceBecomesDash()
    ensures KebabBeforeTrim("A ") == "a-"
  {
    LowerAndStripExample();
    CollapseExample();
  }

  /** `.trim('-')` is `.trim()`: a title ending in a space keeps the dash it turned into, while the
      intended trim removes it. */
  lemma TrailingDashKept()
    ensures KebabCaseAsWritten("A ") == "a-"
    ensures KebabCase("A ") == "a"
  {
    TrailingSpaceBecomesDash();
    TrimAsWrittenIsNoOp("A ");
    assert TrailingDashRun("a-") == 1 by { assert "a-"[..1] == "a"; }
  }

  /** A title no test matches falls through to the as-written kebab id, which keeps the dash; the
      intended id drops it. */
  lemma TrailingDashId()
    ensures GetProjectIdFromTitle("A ") == "a-"
    ensures GetProjectIdFromTitleIntended("A ") == "a"
  {
    assert !Includes("A ", "PC") by {
      assert "A "[..2][0] == 'A' != "PC"[0];
      assert !Includes("A "[1..], "PC");
    }
    assert ReachesFallback("A ");
    TrailingDashKept();
  }
}
