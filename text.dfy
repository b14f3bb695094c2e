/** The string helpers of the project-detail view: `formatDescription` (plain text to paragraph and
    line-break markup) and `getProjectIdFromTitle` (a display title to a catalog-style id). */
module Text {
  import opened Common

  // ---------------------------------------------------------------------------------------------
  // formatDescription

  /** The length of the longest prefix of `t` made of `\s` characters. */
  function WhitespaceRun(t: string): (n: nat)
    ensures n <= |t|
    ensures forall k :: 0 <= k < n ==> IsJsWhitespace(t[k])
    ensures n < |t| ==> !IsJsWhitespace(t[n])
    decreases |t|
  {
    if t == [] || !IsJsWhitespace(t[0]) then 0 else 1 + WhitespaceRun(t[1..])
  }

  /** The position of the last newline in `t`, if any. */
  function LastNewline(t: string): (r: Option<nat>)
    ensures r.Some? ==> r.value < |t| && t[r.value] == '\n' && forall k :: r.value < k < |t| ==> t[k] != '\n'
    ensures r.None? ==> forall k :: 0 <= k < |t| ==> t[k] != '\n'
    decreases |t|
  {
    if t == [] then None
    else if t[|t| - 1] == '\n' then Some(|t| - 1)
    else LastNewline(t[..|t| - 1])
  }

  /** `t` starts with whitespace that contains a newline: what `\s*\n` needs after the first `\n`. */
  predicate NewlineAfterWhitespace(t: string)
    decreases |t|
  {
    |t| > 0 && IsJsWhitespace(t[0]) && (t[0] == '\n' || NewlineAfterWhitespace(t[1..]))
  }

  /** `s` contains a blank-line break: a newline, then only whitespace, then another newline. */
  predicate HasBlankLine(s: string)
    decreases |s|
  {
    |s| > 0 && ((s[0] == '\n' && NewlineAfterWhitespace(s[1..])) || HasBlankLine(s[1..]))
  }

  /** `text.replace(/\n\s*\n/g, '</p><p>')`. Scanning left to right, a newline starts a match when the
      whitespace run that follows it contains a newline; the greedy `\s*` then ends the match at the
      LAST newline of that run. */
  function ReplaceBlankLines(s: string): string
    decreases |s|
  {
    if s == [] then []
    else if s[0] == '\n' then
      var w := WhitespaceRun(s[1..]);
      match LastNewline(s[1..][..w])
      case Some(j) => "</p><p>" + ReplaceBlankLines(s[j + 2..])
      case None => [s[0]] + ReplaceBlankLines(s[1..])
    else [s[0]] + ReplaceBlankLines(s[1..])
  }

  /** `text.replace(/\n/g, '<br>')`. */
  function ReplaceNewlines(s: string): string
    decreases |s|
  {
    if s == [] then [] else (if s[0] == '\n' then "<br>" else [s[0]]) + ReplaceNewlines(s[1..])
  }

  /** `formatDescription(text)`: falsy input gives `''`; input containing both `<` and `>` is trusted
      markup and passes through; otherwise blank-line breaks become `</p><p>` and the remaining
      newlines `<br>`. */
  function FormatDescription(text: string): (r: string)
    ensures text == "" ==> r == ""
    ensures '<' in text && '>' in text ==> r == text
    ensures !('<' in text && '>' in text) ==> '\n' !in r
    ensures !('<' in text && '>' in text) && '\n' !in text ==> r == text
    ensures !('<' in text && '>' in text) && !HasBlankLine(text) ==> r == ReplaceNewlines(text)
  {
    if text == "" then ""
    else if '<' in text && '>' in text then text
    else
      NewlinesReplaced(ReplaceBlankLines(text));
      assert !HasBlankLine(text) ==> ReplaceBlankLines(text) == text by {
        if !HasBlankLine(text) { BlankLinesNotTouched(text); }
      }
      assert '\n' !in text ==> ReplaceNewlines(ReplaceBlankLines(text)) == text by {
        if '\n' !in text {
          NoNewlineNoBlankLine(text);
          BlankLinesNotTouched(text);
          NewlinesNotTouched(text);
        }
      }
      ReplaceNewlines(ReplaceBlankLines(text))
  }

  /** No newline is left after `ReplaceNewlines`. */
  lemma {:induction false} NewlinesReplaced(s: string)
    ensures '\n' !in ReplaceNewlines(s)
    decreases |s|
  {
    if s != [] {
      NewlinesReplaced(s[1..]);
    }
  }

  /** `ReplaceNewlines` works piece by piece. */
  lemma {:induction false} ReplaceNewlinesAppend(s: string, t: string)
    ensures ReplaceNewlines(s + t) == ReplaceNewlines(s) + ReplaceNewlines(t)
    decreases |s|
  {
    if s != [] {
      assert (s + t)[1..] == s[1..] + t;
      ReplaceNewlinesAppend(s[1..], t);
    } else {
      assert s + t == t;
    }
  }

  /** `ReplaceNewlines` leaves text without newlines as it is. */
  lemma {:induction false} NewlinesNotTouched(s: string)
    requires '\n' !in s
    ensures ReplaceNewlines(s) == s
    decreases |s|
  {
    if s != [] {
      assert s[0] in s;
      NewlinesNotTouched(s[1..]);
      assert s == [s[0]] + s[1..];
    }
  }

  /** Text without newlines has no blank-line break. */
  lemma {:induction false} NoNewlineNoBlankLine(s: string)
    requires '\n' !in s
    ensures !HasBlankLine(s)
    decreases |s|
  {
    if s != [] {
      assert s[0] in s;
      assert forall c :: c in s[1..] ==> c in s;
      NoNewlineNoBlankLine(s[1..]);
    }
  }

  /** A whitespace prefix containing a newline makes `NewlineAfterWhitespace` true. */
  lemma {:induction false} NewlineInRun(t: string, w: nat, j: nat)
    requires j < w <= |t| && t[j] == '\n'
    requires forall k :: 0 <= k < w ==> IsJsWhitespace(t[k])
    ensures NewlineAfterWhitespace(t)
    decreases j
  {
    if j > 0 && t[0] != '\n' {
      NewlineInRun(t[1..], w - 1, j - 1);
    }
  }

  /** `ReplaceBlankLines` leaves text without blank-line breaks as it is. */
  lemma {:induction false} BlankLinesNotTouched(s: string)
    requires !HasBlankLine(s)
    ensures ReplaceBlankLines(s) == s
    decreases |s|
  {
    if s != [] {
      BlankLinesNotTouched(s[1..]);
      if s[0] == '\n' {
        var t := s[1..];
        var w := WhitespaceRun(t);
        var l := LastNewline(t[..w]);
        if l.Some? {
          NewlineInRun(t, w, l.value);
          assert false;
        }
      }
      assert s == [s[0]] + s[1..];
    }
  }

  /** A prefix without newlines neither creates nor hides a blank-line break. */
  lemma {:induction false} BlankLineAfterPrefix(p: string, x: string)
    requires '\n' !in p
    ensures HasBlankLine(p + x) == HasBlankLine(x)
    decreases |p|
  {
    if p != [] {
      assert p[0] in p;
      assert forall c :: c in p[1..] ==> c in p;
      assert (p + x)[1..] == p[1..] + x;
      BlankLineAfterPrefix(p[1..], x);
    } else {
      assert p + x == x;
    }
  }

  /** When the whitespace run at the front of `t` has no newline, neither does the front of
      `ReplaceBlankLines(t)`. */
  lemma {:induction false} NoNewlineInFrontRun(t: string)
    requires forall k :: 0 <= k < WhitespaceRun(t) ==> t[k] != '\n'
    ensures !NewlineAfterWhitespace(ReplaceBlankLines(t))
    decreases |t|
  {
    if t != [] && IsJsWhitespace(t[0]) {
      assert t[0] != '\n';
      assert WhitespaceRun(t[1..]) == WhitespaceRun(t) - 1;
      forall k | 0 <= k < WhitespaceRun(t[1..]) ensures t[1..][k] != '\n' {
        assert t[1..][k] == t[k + 1];
      }
      NoNewlineInFrontRun(t[1..]);
      assert ReplaceBlankLines(t) == [t[0]] + ReplaceBlankLines(t[1..]);
      assert ([t[0]] + ReplaceBlankLines(t[1..]))[1..] == ReplaceBlankLines(t[1..]);
    }
  }

  /** After `ReplaceBlankLines` no blank-line break remains. */
  lemma {:induction false} BlankLinesReplaced(s: string)
    ensures !HasBlankLine(ReplaceBlankLines(s))
    decreases |s|
  {
    if s != [] {
      if s[0] == '\n' {
        var t := s[1..];
        var w := WhitespaceRun(t);
        match LastNewline(t[..w])
        case Some(j) =>
          var rest := ReplaceBlankLines(s[j + 2..]);
          assert ReplaceBlankLines(s) == "</p><p>" + rest;
          BlankLinesReplaced(s[j + 2..]);
          assert '\n' !in "</p><p>";
          BlankLineAfterPrefix("</p><p>", rest);
        case None =>
          var rest := ReplaceBlankLines(t);
          assert ReplaceBlankLines(s) == [s[0]] + rest;
          BlankLinesReplaced(t);
          forall k | 0 <= k < w ensures t[k] != '\n' {
            assert t[..w][k] == t[k];
          }
          NoNewlineInFrontRun(t);
          assert ([s[0]] + rest)[1..] == rest;
      } else {
        var rest := ReplaceBlankLines(s[1..]);
        assert ReplaceBlankLines(s) == [s[0]] + rest;
        BlankLinesReplaced(s[1..]);
        assert ([s[0]] + rest)[1..] == rest;
      }
    }
  }

  /** Text before the first newline passes the blank-line step unchanged. */
  lemma {:induction false} ReplaceBlankLinesAfterPlainPrefix(p: string, x: string)
    requires '\n' !in p
    ensures ReplaceBlankLines(p + x) == p + ReplaceBlankLines(x)
    decreases |p|
  {
    if p != [] {
      var y := p + x;
      assert y[0] == p[0] != '\n' by { assert p[0] in p; }
      assert y[1..] == p[1..] + x;
      assert '\n' !in p[1..] by {
        forall k | 0 <= k < |p[1..]| ensures p[1..][k] != '\n' { assert p[1..][k] == p[k + 1]; assert p[k + 1] in p; }
      }
      calc {
        ReplaceBlankLines(y);
        [p[0]] + ReplaceBlankLines(y[1..]);
        { ReplaceBlankLinesAfterPlainPrefix(p[1..], x); }
        [p[0]] + (p[1..] + ReplaceBlankLines(x));
        { assert [p[0]] + p[1..] == p; }
        p + ReplaceBlankLines(x);
      }
    } else {
      assert p + x == x;
    }
  }

  /** A whitespace prefix adds its length to the whitespace run. */
  lemma {:induction false} WhitespaceRunAfterWhitespace(w: string, x: string)
    requires forall k :: 0 <= k < |w| ==> IsJsWhitespace(w[k])
    ensures WhitespaceRun(w + x) == |w| + WhitespaceRun(x)
    decreases |w|
  {
    if w != [] {
      assert (w + x)[0] == w[0];
      assert (w + x)[1..] == w[1..] + x;
      WhitespaceRunAfterWhitespace(w[1..], x);
    } else {
      assert w + x == x;
    }
  }

  /** The whitespace `q` starts with holds no newline, as in an indented line. */
  predicate LeadingWhitespaceOnOneLine(q: string) {
    forall k :: 0 <= k < WhitespaceRun(q) ==> q[k] != '\n'
  }

  /** The last newline of `u + v`, for `u` ending in a newline and `v` without one, is the end of `u`. */
  lemma {:induction false} LastNewlineBeforePlainTail(u: string, v: string)
    requires |u| > 0 && u[|u| - 1] == '\n'
    requires forall k :: 0 <= k < |v| ==> v[k] != '\n'
    ensures LastNewline(u + v) == Some(|u| - 1)
    decreases |v|
  {
    if v == [] {
      assert u + v == u;
    } else {
      var v0 := v[..|v| - 1];
      assert (u + v)[..|u + v| - 1] == u + v0;
      assert (u + v)[|u + v| - 1] == v[|v| - 1];
      LastNewlineBeforePlainTail(u, v0);
    }
  }

  /** The whitespace run after the first newline of a blank line covers `w`, the second newline and
      the whitespace `q` starts with. */
  lemma WhitespaceRunOfBlankLine(w: string, q: string)
    requires forall k :: 0 <= k < |w| ==> IsJsWhitespace(w[k])
    ensures WhitespaceRun(w + "\n" + q) == |w| + 1 + WhitespaceRun(q)
  {
    var nq := "\n" + q;
    assert nq[1..] == q;
    WhitespaceRunAfterWhitespace(w, nq);
    assert w + "\n" + q == w + nq;
  }

  /** Cutting `u + q` inside `q` keeps `u` and the front of `q`. */
  lemma PrefixAfter(u: string, q: string, m: nat)
    requires m <= |q|
    ensures (u + q)[..|u| + m] == u + q[..m]
  {
  }

  /** After the first newline of a blank line, the greedy `\s*\n` ends at the second newline when
      the whitespace that follows it holds no newline. */
  lemma MatchEndsAtSecondNewline(w: string, q: string)
    requires forall k :: 0 <= k < |w| ==> IsJsWhitespace(w[k])
    requires LeadingWhitespaceOnOneLine(q)
    ensures var t := w + "\n" + q; LastNewline(t[..WhitespaceRun(t)]) == Some(|w|)
  {
    var u := w + "\n";
    var m := WhitespaceRun(q);
    calc {
      LastNewline((u + q)[..WhitespaceRun(u + q)]);
      { WhitespaceRunOfBlankLine(w, q); }
      LastNewline((u + q)[..|u| + m]);
      { PrefixAfter(u, q, m); }
      LastNewline(u + q[..m]);
      { assert u[|u| - 1] == '\n'; LastNewlineBeforePlainTail(u, q[..m]); }
      Some(|w|);
    }
  }

  /** A newline, whitespace `w` and a newline, followed by text `q` whose leading whitespace holds
      no newline, is one match of `\n\s*\n`; the match ends at the second newline, so `q` keeps its
      leading whitespace. */
  lemma ParagraphBreakAtStart(w: string, q: string)
    requires forall k :: 0 <= k < |w| ==> IsJsWhitespace(w[k])
    requires LeadingWhitespaceOnOneLine(q)
    ensures ReplaceBlankLines("\n" + w + "\n" + q) == "</p><p>" + ReplaceBlankLines(q)
  {
    var t := w + "\n" + q;
    var b := "\n" + t;
    calc {
      ReplaceBlankLines("\n" + w + "\n" + q);
      { assert "\n" + w + "\n" + q == b; }
      ReplaceBlankLines(b);
      { assert b[0] == '\n' && b[1..] == t; MatchEndsAtSecondNewline(w, q); }
      "</p><p>" + ReplaceBlankLines(b[|w| + 2..]);
      { assert b[|w| + 2..] == q; }
      "</p><p>" + ReplaceBlankLines(q);
    }
  }

  /** A newline followed by a line whose leading whitespace holds no newline is no blank line: the
      step keeps that newline, for the `<br>` step to replace, and goes on with the line. */
  lemma SingleNewlineKept(q: string)
    requires LeadingWhitespaceOnOneLine(q)
    ensures ReplaceBlankLines("\n" + q) == "\n" + ReplaceBlankLines(q)
  {
    var s := "\n" + q;
    var m := WhitespaceRun(q);
    calc {
      ReplaceBlankLines(s);
      { assert s[0] == '\n' && s[1..] == q;
        assert forall k :: 0 <= k < |q[..m]| ==> q[..m][k] != '\n';
        assert LastNewline(q[..m]).None?; }
      [s[0]] + ReplaceBlankLines(s[1..]);
      { assert s[1..] == q; }
      "\n" + ReplaceBlankLines(q);
    }
  }

  /** Newline-free text in front of a `</p><p>` break passes the step unchanged. */
  lemma BreakAfterPlainPrefix(p: string, b: string, x: string)
    requires '\n' !in p
    requires ReplaceBlankLines(b) == "</p><p>" + x
    ensures ReplaceBlankLines(p + b) == p + "</p><p>" + x
  {
    ReplaceBlankLinesAfterPlainPrefix(p, b);
    assert p + ("</p><p>" + x) == p + "</p><p>" + x;
  }

  /** A blank-line break after newline-free text `p` becomes one `</p><p>`; `p` is kept and the step
      goes on with `q`. */
  lemma BlankLineBecomesParagraphBreak(p: string, w: string, q: string)
    requires '\n' !in p
    requires forall k :: 0 <= k < |w| ==> IsJsWhitespace(w[k])
    requires LeadingWhitespaceOnOneLine(q)
    ensures ReplaceBlankLines(p + "\n" + w + "\n" + q) == p + "</p><p>" + ReplaceBlankLines(q)
  {
    var b := "\n" + w + "\n" + q;
    var x := ReplaceBlankLines(q);
    calc {
      ReplaceBlankLines(p + "\n" + w + "\n" + q);
      { assert p + "\n" + w + "\n" + q == p + b; }
      ReplaceBlankLines(p + b);
      { ParagraphBreakAtStart(w, q); BreakAfterPlainPrefix(p, b, x); }
      p + "</p><p>" + x;
    }
  }

  /** The `<br>` step leaves newline-free text and the inserted `</p><p>` alone. */
  lemma ReplaceNewlinesAfterParagraphBreak(p: string, x: string)
    requires '\n' !in p
    ensures ReplaceNewlines(p + "</p><p>" + x) == p + "</p><p>" + ReplaceNewlines(x)
  {
    var h := p + "</p><p>";
    assert ReplaceNewlines(h) == h by {
      ReplaceNewlinesAppend(p, "</p><p>");
      NewlinesNotTouched(p);
      NewlinesNotTouched("</p><p>");
    }
    ReplaceNewlinesAppend(h, x);
  }

  /** Text without `<` is formatted by the two steps, the empty text included. */
  lemma FormatDescriptionPlainText(text: string)
    requires '<' !in text
    ensures FormatDescription(text) == ReplaceNewlines(ReplaceBlankLines(text))
  {
  }

  /** `formatDescription` on plain text with a blank-line break: the text before it is kept, the
      break becomes `</p><p>`, and the rest is formatted in turn. */
  lemma FormatDescriptionBlankLine(p: string, w: string, q: string)
    requires '\n' !in p
    requires forall k :: 0 <= k < |w| ==> IsJsWhitespace(w[k])
    requires LeadingWhitespaceOnOneLine(q)
    requires var s := p + "\n" + w + "\n" + q; !('<' in s && '>' in s)
    ensures FormatDescription(p + "\n" + w + "\n" + q) == p + "</p><p>" + ReplaceNewlines(ReplaceBlankLines(q))
  {
    var s := p + "\n" + w + "\n" + q;
    var x := ReplaceBlankLines(q);
    assert FormatDescription(s) == ReplaceNewlines(ReplaceBlankLines(s)) by {
      assert s[|p|] == '\n';
    }
    assert ReplaceBlankLines(s) == p + "</p><p>" + x by {
      BlankLineBecomesParagraphBreak(p, w, q);
    }
    ReplaceNewlinesAfterParagraphBreak(p, x);
  }

  // ---------------------------------------------------------------------------------------------
  // getProjectIdFromTitle

  /** `c.toLowerCase()` as far as it can matter below: ASCII upper-case letters, and the two non-ASCII
      letters whose lower case contains an ASCII letter (U+0130 and the Kelvin sign U+212A). Every
      other upper-case letter lowers to a non-ASCII letter, which the next step removes anyway, so it
      is kept as it is here. */
  function LowerChar(c: char): seq<char> {
    if 'A' <= c <= 'Z' then [(c as int + 32) as char]
    else if c as int == 0x130 then ['i', 0x307 as char]
    else if c as int == 0x212A then ['k']
    else [c]
  }

  /** `title.toLowerCase()`. */
  function Lower(s: string): string
    decreases |s|
  {
    if s == [] then [] else LowerChar(s[0]) + Lower(s[1..])
  }

  /** A character of the class `[a-z0-9\s-]`. */
  predicate KeptChar(c: char) {
    'a' <= c <= 'z' || '0' <= c <= '9' || IsJsWhitespace(c) || c == '-'
  }

  /** A character of a finished id: `[a-z0-9-]`. */
  predicate SlugChar(c: char) {
    'a' <= c <= 'z' || '0' <= c <= '9' || c == '-'
  }

  /** `.replace(/[^a-z0-9\s-]/g, '')`. */
  function StripDisallowed(s: string): (r: string)
    ensures forall k :: 0 <= k < |r| ==> KeptChar(r[k])
    ensures var ix := FilterIndices(s, KeptChar);
      && |ix| == |r|
      && (forall k :: 0 <= k < |ix| ==> ix[k] < |s| && r[k] == s[ix[k]])
      && (forall k, l :: 0 <= k < l < |ix| ==> ix[k] < ix[l])
      && (forall i :: 0 <= i < |s| ==> (KeptChar(s[i]) <==> i in ix))
  {
    FilterIsOrderedSelection(s, KeptChar);
    Filter(s, KeptChar)
  }

  /** `.replace(/\s+/g, '-')`: every maximal run of whitespace becomes one dash. */
  function CollapseWhitespace(s: string): string
    decreases |s|
  {
    if s == [] then []
    else if IsJsWhitespace(s[0]) then "-" + CollapseWhitespace(s[WhitespaceRun(s)..])
    else [s[0]] + CollapseWhitespace(s[1..])
  }

  /** The length of the longest prefix of `t` made of dashes. */
  function DashRun(t: string): (n: nat)
    ensures 0 < n <= |t| || (n == 0 && (t == [] || t[0] != '-'))
    ensures forall k :: 0 <= k < n ==> t[k] == '-'
    ensures n < |t| ==> t[n] != '-'
    decreases |t|
  {
    if t == [] || t[0] != '-' then 0 else 1 + DashRun(t[1..])
  }

  /** The length of the longest suffix of `t` made of dashes. */
  function TrailingDashRun(t: string): (n: nat)
    ensures n <= |t|
    ensures forall k :: |t| - n <= k < |t| ==> t[k] == '-'
    ensures n < |t| ==> t[|t| - 1 - n] != '-'
    decreases |t|
  {
    if t == [] || t[|t| - 1] != '-' then 0 else 1 + TrailingDashRun(t[..|t| - 1])
  }

  /** The length of the longest suffix of `t` made of whitespace. */
  function TrailingWhitespaceRun(t: string): (n: nat)
    ensures n <= |t|
    ensures forall k :: |t| - n <= k < |t| ==> IsJsWhitespace(t[k])
    ensures n < |t| ==> !IsJsWhitespace(t[|t| - 1 - n])
    decreases |t|
  {
    if t == [] || !IsJsWhitespace(t[|t| - 1]) then 0 else 1 + TrailingWhitespaceRun(t[..|t| - 1])
  }

  /** `.replace(/-+/g, '-')`: every maximal run of dashes becomes one dash. */
  function CollapseDashes(s: string): string
    decreases |s|
  {
    if s == [] then []
    else if s[0] == '-' then "-" + CollapseDashes(s[DashRun(s)..])
    else [s[0]] + CollapseDashes(s[1..])
  }

  /** `.trim()` (`String.prototype.trim` takes no argument, so the source's `.trim('-')` is this):
      drops leading and trailing whitespace. */
  function TrimWhitespace(s: string): string {
    var t := s[WhitespaceRun(s)..];
    t[..|t| - TrailingWhitespaceRun(t)]
  }

  /** Drops leading and trailing dashes: what `.trim('-')` is evidently meant to do. */
  function TrimDashes(s: string): string {
    var t := s[DashRun(s)..];
    t[..|t| - TrailingDashRun(t)]
  }

  /** The steps of the kebab-case fallback before its final trim. */
  function KebabBeforeTrim(title: string): string {
    CollapseDashes(CollapseWhitespace(StripDisallowed(Lower(title))))
  }

  /** The kebab-case fallback of `getProjectIdFromTitle` as written, ending in `.trim('-')`. */
  function KebabCaseAsWritten(title: string): string {
    TrimWhitespace(KebabBeforeTrim(title))
  }

  /** A well-formed id: only `[a-z0-9-]`, no two dashes in a row, no dash at either end. */
  predicate IsSlug(s: string) {
    && (forall k :: 0 <= k < |s| ==> SlugChar(s[k]))
    && (forall k :: 0 <= k < |s| - 1 ==> !(s[k] == '-' && s[k + 1] == '-'))
    && (|s| > 0 ==> s[0] != '-' && s[|s| - 1] != '-')
  }

  /** The kebab-case fallback with the dashes trimmed as intended. */
  function KebabCase(title: string): (r: string)
    ensures IsSlug(r)
  {
    var s := StripDisallowed(Lower(title));
    CollapseWhitespaceChars(s);
    CollapseDashesShape(CollapseWhitespace(s));
    TrimDashesShape(KebabBeforeTrim(title));
    TrimDashes(KebabBeforeTrim(title))
  }

  /** After collapsing whitespace runs only `[a-z0-9-]` remains. */
  lemma {:induction false} CollapseWhitespaceChars(s: string)
    requires forall k :: 0 <= k < |s| ==> KeptChar(s[k])
    ensures forall k :: 0 <= k < |CollapseWhitespace(s)| ==> SlugChar(CollapseWhitespace(s)[k])
    decreases |s|
  {
    if s != [] {
      if IsJsWhitespace(s[0]) {
        var w := WhitespaceRun(s);
        assert forall k :: 0 <= k < |s[w..]| ==> s[w..][k] == s[k + w];
        CollapseWhitespaceChars(s[w..]);
      } else {
        assert forall k :: 0 <= k < |s[1..]| ==> s[1..][k] == s[k + 1];
        CollapseWhitespaceChars(s[1..]);
        assert SlugChar(s[0]);
      }
    }
  }

  /** Collapsing dash runs keeps the character set and leaves no two dashes in a row; the result
      starts with a dash only when the input does. */
  lemma {:induction false} CollapseDashesShape(s: string)
    requires forall k :: 0 <= k < |s| ==> SlugChar(s[k])
    ensures var r := CollapseDashes(s);
      && (forall k :: 0 <= k < |r| ==> SlugChar(r[k]))
      && (forall k :: 0 <= k < |r| - 1 ==> !(r[k] == '-' && r[k + 1] == '-'))
      && (|r| > 0 <==> |s| > 0)
      && (|r| > 0 ==> (r[0] == '-' <==> s[0] == '-'))
    decreases |s|
  {
    if s != [] {
      var r := CollapseDashes(s);
      if s[0] == '-' {
        var d := DashRun(s);
        var rest := s[d..];
        assert forall k :: 0 <= k < |rest| ==> rest[k] == s[k + d];
        CollapseDashesShape(rest);
        assert r == "-" + CollapseDashes(rest);
        assert forall k :: 1 <= k < |r| ==> r[k] == CollapseDashes(rest)[k - 1];
      } else {
        var rest := s[1..];
        assert forall k :: 0 <= k < |rest| ==> rest[k] == s[k + 1];
        CollapseDashesShape(rest);
        assert r == [s[0]] + CollapseDashes(rest);
        assert forall k :: 1 <= k < |r| ==> r[k] == CollapseDashes(rest)[k - 1];
      }
    }
  }

  /** Trimming dashes from a string without two dashes in a row gives a well-formed id. */
  lemma TrimDashesShape(s: string)
    requires forall k :: 0 <= k < |s| ==> SlugChar(s[k])
    requires forall k :: 0 <= k < |s| - 1 ==> !(s[k] == '-' && s[k + 1] == '-')
    ensures IsSlug(TrimDashes(s))
  {
    var d := DashRun(s);
    var t := s[d..];
    var e := TrailingDashRun(t);
    var r := t[..|t| - e];
    assert forall k :: 0 <= k < |r| ==> r[k] == s[k + d];
    if |r| > 0 {
      assert r[|r| - 1] == t[|t| - 1 - e];
    }
  }

  /** The text `TrimDashes` keeps is the part of `s` right after its leading dashes. */
  lemma TrimDashesSlice(s: string)
    ensures var a, r := DashRun(s), TrimDashes(s); a + |r| <= |s| && s[a..a + |r|] == r
  {
    var a := DashRun(s);
    var t := s[a..];
    assert s[a..a + |t[..|t| - TrailingDashRun(t)]|] == t[..|t| - TrailingDashRun(t)];
  }

  /** Everything `TrimDashes` removes after the kept text is a dash. */
  lemma TrimDashesDropsTrailingDashes(s: string)
    ensures var a, r := DashRun(s), TrimDashes(s); forall k :: a + |r| <= k < |s| ==> s[k] == '-'
  {
    var a := DashRun(s);
    var t := s[a..];
    var e := TrailingDashRun(t);
    forall k | a + |t| - e <= k < |s| ensures s[k] == '-' {
      assert s[k] == t[k - a];
    }
  }

  /** The text `TrimDashes` keeps neither starts nor ends with a dash. */
  lemma TrimDashesEnds(s: string)
    ensures var r := TrimDashes(s); |r| > 0 ==> r[0] != '-' && r[|r| - 1] != '-'
  {
    var t := s[DashRun(s)..];
    var e := TrailingDashRun(t);
    var r := t[..|t| - e];
    if |r| > 0 {
      assert r[0] == t[0];
      assert r[|r| - 1] == t[|t| - 1 - e];
    }
  }

  /** `w` is `r` with the run of dashes `w` starts with in front and a run of dashes behind. */
  predicate DashesAround(w: string, r: string) {
    var a := DashRun(w);
    && a + |r| <= |w| && w[a..a + |r|] == r
    && (forall k :: 0 <= k < a ==> w[k] == '-') && (forall k :: a + |r| <= k < |w| ==> w[k] == '-')
  }

  /** `TrimDashes` removes a run of dashes at each end and nothing else: `s` is those dashes, the
      result, and those dashes again, and the result neither starts nor ends with a dash. */
  lemma TrimDashesSplits(s: string)
    ensures DashesAround(s, TrimDashes(s))
    ensures var r := TrimDashes(s); |r| > 0 ==> r[0] != '-' && r[|r| - 1] != '-'
  {
    TrimDashesSlice(s);
    TrimDashesDropsTrailingDashes(s);
    TrimDashesEnds(s);
  }

  /** `Lower` leaves text without upper-case letters as it is. */
  lemma {:induction false} LowerKeepsSlugChars(s: string)
    requires forall k :: 0 <= k < |s| ==> SlugChar(s[k])
    ensures Lower(s) == s
    decreases |s|
  {
    if s != [] {
      LowerKeepsSlugChars(s[1..]);
      assert s == [s[0]] + s[1..];
    }
  }

  /** `CollapseWhitespace` leaves text without whitespace as it is. */
  lemma {:induction false} CollapseWhitespaceKeepsSlugChars(s: string)
    requires forall k :: 0 <= k < |s| ==> SlugChar(s[k])
    ensures CollapseWhitespace(s) == s
    decreases |s|
  {
    if s != [] {
      assert !IsJsWhitespace(s[0]);
      CollapseWhitespaceKeepsSlugChars(s[1..]);
      assert s == [s[0]] + s[1..];
    }
  }

  /** `CollapseDashes` leaves text without two dashes in a row as it is. */
  lemma {:induction false} CollapseDashesKeepsSingleDashes(s: string)
    requires forall k :: 0 <= k < |s| - 1 ==> !(s[k] == '-' && s[k + 1] == '-')
    ensures CollapseDashes(s) == s
    decreases |s|
  {
    if s != [] {
      if s[0] == '-' {
        assert DashRun(s) == 1 by {
          if |s| > 1 { assert s[1] != '-'; assert DashRun(s[1..]) == 0; }
        }
      }
      CollapseDashesKeepsSingleDashes(s[1..]);
      assert s == [s[0]] + s[1..];
    }
  }

  /** A title that already is a well-formed id is its own kebab-case id. */
  lemma KebabCaseFixesSlugs(title: string)
    requires IsSlug(title)
    ensures KebabCase(title) == title
  {
    assert KebabBeforeTrim(title) == title by {
      LowerKeepsSlugChars(title);
      FilterKeepsAll(title, KeptChar);
      CollapseWhitespaceKeepsSlugChars(title);
      CollapseDashesKeepsSingleDashes(title);
    }
    assert TrimDashes(title) == title by {
      if title != [] {
        assert DashRun(title) == 0;
        assert TrailingDashRun(title) == 0;
      }
    }
  }

  /** The intended fallback is the as-written one with its leading and trailing dashes removed. */
  lemma IntendedTrimsAsWritten(title: string)
    ensures DashesAround(KebabCaseAsWritten(title), KebabCase(title))
  {
    TrimAsWrittenIsNoOp(title);
    TrimDashesSplits(KebabBeforeTrim(title));
  }

  /** The source's final `.trim('-')` removes nothing: after `\s+` has become `-` no whitespace is
      left to trim, so a leading or trailing dash survives. */
  lemma TrimAsWrittenIsNoOp(title: string)
    ensures KebabCaseAsWritten(title) == KebabBeforeTrim(title)
  {
    var s := StripDisallowed(Lower(title));
    CollapseWhitespaceChars(s);
    CollapseDashesShape(CollapseWhitespace(s));
    var k := KebabBeforeTrim(title);
    assert forall i :: 0 <= i < |k| ==> !IsJsWhitespace(k[i]);
    assert WhitespaceRun(k) == 0;
    assert TrailingWhitespaceRun(k) == 0;
  }

  /** None of the fifteen title tests of `getProjectIdFromTitle` holds, each written as the source
      writes it, so the kebab-case fallback is reached. */
  predicate ReachesFallback(title: string) {
    && !Includes(title, "Fendi")
    && !Includes(title, "Dior")
    && !Includes(title, "UPS")
    && !(Includes(title, "BUCK LNY") && Includes(title, "LNY"))
    && !Includes(title, "Dream Stream")
    && !(Includes(title, "Renderball") && Includes(title, "Sphere"))
    && !Includes(title, "Tiffany")
    && !Includes(title, "Roblox")
    && !(Includes(title, "BUCK Altspace") && Includes(title, "Holiday"))
    && !Includes(title, "Tokyo")
    && !(Includes(title, "FitXR") && Includes(title, "Fitness"))
    && !(Includes(title, "Spark AR") && Includes(title, "Spark AR"))
    && !(Includes(title, "Takeoff") && Includes(title, "PC"))
    && !Includes(title, "Flat Journal")
    && !Includes(title, "Snapchat AR")
  }

  /** The ids the fifteen title tests hand out. */
  const TitleIds: set<string> := {
    "meta-fendi", "meta-dior", "ups-aapi", "buck-lny", "dream-stream", "renderball", "meta-tiffany",
    "roblox-phaserider", "buck-altspace", "tokyo-olympics", "meta-fitXR", "spark-ar",
    "yugalabs-takeoff", "flat-journal", "snapchat-tracer"}

  /** `getProjectIdFromTitle(title)` as written: the first of fifteen title tests that matches names
      the id; a title matching none gets the kebab-case fallback, ending in the source's `.trim('-')`. */
  function GetProjectIdFromTitle(title: string): (r: string)
    ensures Includes(title, "Fendi") ==> r == "meta-fendi"
    ensures !ReachesFallback(title) ==> r in TitleIds
    ensures ReachesFallback(title) ==> r == KebabCaseAsWritten(title)
  {
    if Includes(title, "Fendi") then "meta-fendi"
    else if Includes(title, "Dior") then "meta-dior"
    else if Includes(title, "UPS") then "ups-aapi"
    else if Includes(title, "BUCK LNY") && Includes(title, "LNY") then "buck-lny"
    else if Includes(title, "Dream Stream") then "dream-stream"
    else if Includes(title, "Renderball") && Includes(title, "Sphere") then "renderball"
    else if Includes(title, "Tiffany") then "meta-tiffany"
    else if Includes(title, "Roblox") then "roblox-phaserider"
    else if Includes(title, "BUCK Altspace") && Includes(title, "Holiday") then "buck-altspace"
    else if Includes(title, "Tokyo") then "tokyo-olympics"
    else if Includes(title, "FitXR") && Includes(title, "Fitness") then "meta-fitXR"
    else if Includes(title, "Spark AR") && Includes(title, "Spark AR") then "spark-ar"
    else if Includes(title, "Takeoff") && Includes(title, "PC") then "yugalabs-takeoff"
    else if Includes(title, "Flat Journal") then "flat-journal"
    else if Includes(title, "Snapchat AR") then "snapchat-tracer"
    else KebabCaseAsWritten(title)
  }

  /** `getProjectIdFromTitle` with the fallback's dashes trimmed as intended: the same id whenever a
      title test matches, and otherwise a well-formed id that is the as-written one without its
      leading and trailing dashes. */
  function GetProjectIdFromTitleIntended(title: string): (r: string)
    ensures !ReachesFallback(title) ==> r == GetProjectIdFromTitle(title)
    ensures ReachesFallback(title) ==> IsSlug(r)
    ensures ReachesFallback(title) ==> DashesAround(GetProjectIdFromTitle(title), r)
  {
    if ReachesFallback(title) then
      IntendedTrimsAsWritten(title);
      KebabCase(title)
    else GetProjectIdFromTitle(title)
  }

  /** A title containing `u` contains every substring of `u`: so the second half of the tests for
      "BUCK LNY"/"LNY" and "Spark AR"/"Spark AR" adds nothing to the first. */
  lemma {:induction false} IncludesSubstring(title: string, u: string, i: nat, j: nat)
    requires i <= j <= |u| && Includes(title, u)
    ensures Includes(title, u[i..j])
  {
    IncludesAt(title, u);
    var p: nat :| OccursAt(title, u, p);
    assert title[p..p + |u|] == u;
    forall k | 0 <= k < j - i ensures title[p + i..p + j][k] == u[i..j][k] {
      assert u[i + k] == title[p..p + |u|][i + k] == title[p + i + k];
    }
    assert OccursAt(title, u[i..j], p + i);
    IncludesAt(title, u[i..j]);
  }

  /** The test `title.includes('BUCK LNY') && title.includes('LNY')` is the first half alone: a title
      reaching it that contains "BUCK LNY" gets the id `buck-lny`. */
  lemma BuckLnyTestIsOneTest(title: string)
    ensures Includes(title, "BUCK LNY") ==> Includes(title, "LNY")
    ensures !Includes(title, "Fendi") && !Includes(title, "Dior") && !Includes(title, "UPS") && Includes(title, "BUCK LNY")
            ==> GetProjectIdFromTitle(title) == "buck-lny"
  {
    if Includes(title, "BUCK LNY") {
      assert "BUCK LNY"[5..8] == "LNY";
      IncludesSubstring(title, "BUCK LNY", 5, 8);
    }
  }
}
