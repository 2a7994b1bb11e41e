/**
 * The relay's pure string helpers for Telegram's HTML parse mode: entity
 * escaping, hashtag normalisation, cutting a stack trace to its first
 * non-empty lines, clipping to a length, and the emoji of each type.
 */
module Format {
  import opened JsString
  import opened NotifyTypes

  /** Telegram's limit on the length of a message. */
  const MaxLen: nat := 4096

  const Ellipsis: char := '\U{2026}'

  /** The emoji that opens the title line of each type. */
  function Emoji(t: NotifyType): (e: string)
    ensures |e| == if t == Info || t == Warning then 2 else 1
    ensures forall i :: 0 <= i < |e| ==> e[i] < '\U{10000}'
  {
    match t
    case Info => "\U{2139}\U{FE0F}"
    case Success => "\U{2705}"
    case Warning => "\U{26A0}\U{FE0F}"
    case Error => "\U{274C}"
  }

  // ---------------------------------------------------------------- escapeHtml

  /** `escapeHtml`: three `replaceAll` passes, the ampersand first; no raw `<` or `>` is left. */
  function EscapeHtml(s: string): (r: string)
    ensures '<' !in r && '>' !in r
  {
    var amp := ReplaceAll(s, '&', "&amp;");
    var lt := ReplaceAll(amp, '<', "&lt;");
    ReplaceAllRemoves(amp, '<', "&lt;");
    ReplaceAllRemoves(lt, '>', "&gt;");
    ReplaceAllKeepsOut(lt, '>', "&gt;", '<');
    ReplaceAll(lt, '>', "&gt;")
  }

  function HtmlEntity(c: char): string {
    if c == '&' then "&amp;" else if c == '<' then "&lt;" else if c == '>' then "&gt;" else [c]
  }

  /** The reference escaping: each character on its own, no raw `<` or `>` left. */
  function EscapeHtmlChars(s: string): (r: string)
    ensures forall i :: 0 <= i < |r| ==> r[i] != '<' && r[i] != '>'
  {
    if s == [] then [] else HtmlEntity(s[0]) + EscapeHtmlChars(s[1..])
  }

  /** Decoding of the three entities `escapeHtml` produces, as Telegram's HTML reader does. */
  function UnescapeHtml(s: string): string
    decreases |s|
  {
    if s == [] then []
    else if |s| >= 5 && s[..5] == "&amp;" then "&" + UnescapeHtml(s[5..])
    else if |s| >= 4 && s[..4] == "&lt;" then "<" + UnescapeHtml(s[4..])
    else if |s| >= 4 && s[..4] == "&gt;" then ">" + UnescapeHtml(s[4..])
    else [s[0]] + UnescapeHtml(s[1..])
  }

  lemma EscapeHtmlAppend(a: string, b: string)
    ensures EscapeHtml(a + b) == EscapeHtml(a) + EscapeHtml(b)
  {
    ReplaceAllAppend(a, b, '&', "&amp;");
    var a1, b1 := ReplaceAll(a, '&', "&amp;"), ReplaceAll(b, '&', "&amp;");
    ReplaceAllAppend(a1, b1, '<', "&lt;");
    ReplaceAllAppend(ReplaceAll(a1, '<', "&lt;"), ReplaceAll(b1, '<', "&lt;"), '>', "&gt;");
  }

  lemma EscapeHtmlOneChar(c: char)
    ensures EscapeHtml([c]) == HtmlEntity(c)
  {
    ReplaceAllSingle(c, '&', "&amp;");
    if c == '&' {
      ReplaceAllAbsent("&amp;", '<', "&lt;");
      ReplaceAllAbsent("&amp;", '>', "&gt;");
    } else {
      ReplaceAllSingle(c, '<', "&lt;");
      if c == '<' {
        ReplaceAllAbsent("&lt;", '>', "&gt;");
      } else {
        ReplaceAllSingle(c, '>', "&gt;");
      }
    }
  }

  /**
   * Because the ampersand pass runs first, the three passes never touch an
   * entity inserted by an earlier pass: together they escape each character
   * on its own.
   */
  lemma {:induction false} EscapeHtmlIsCharwise(s: string)
    ensures EscapeHtml(s) == EscapeHtmlChars(s)
  {
    if s != [] {
      assert s == [s[0]] + s[1..];
      EscapeHtmlAppend([s[0]], s[1..]);
      EscapeHtmlOneChar(s[0]);
      EscapeHtmlIsCharwise(s[1..]);
    }
  }

  /** `escapeHtml` leaves no raw `<` or `>`, and decoding its entities gives the input back. */
  lemma EscapeHtmlRoundTrip(s: string)
    ensures forall i :: 0 <= i < |EscapeHtml(s)| ==> EscapeHtml(s)[i] != '<' && EscapeHtml(s)[i] != '>'
    ensures UnescapeHtml(EscapeHtml(s)) == s
  {
    EscapeHtmlIsCharwise(s);
    CharwiseRoundTrip(s);
  }

  lemma UnescapeEntity(c: char, r: string)
    ensures UnescapeHtml(HtmlEntity(c) + r) == [c] + UnescapeHtml(r)
  {
    var e := HtmlEntity(c) + r;
    if c == '&' {
      assert e[..5] == "&amp;" && e[5..] == r;
    } else if c == '<' {
      assert !(|e| >= 5 && e[..5] == "&amp;") by { if |e| >= 5 { assert e[..5][1] == 'l'; } }
      assert e[..4] == "&lt;" && e[4..] == r;
    } else if c == '>' {
      assert !(|e| >= 5 && e[..5] == "&amp;") by { if |e| >= 5 { assert e[..5][1] == 'g'; } }
      assert e[..4] != "&lt;" by { assert e[..4][1] == 'g'; }
      assert e[..4] == "&gt;" && e[4..] == r;
    } else {
      assert e[0] == c && e[1..] == r;
      assert |e| >= 5 ==> e[..5][0] == c;
      assert |e| >= 4 ==> e[..4][0] == c;
    }
  }

  lemma {:induction false} CharwiseRoundTrip(s: string)
    ensures UnescapeHtml(EscapeHtmlChars(s)) == s
  {
    if s != [] {
      CharwiseRoundTrip(s[1..]);
      UnescapeEntity(s[0], EscapeHtmlChars(s[1..]));
      assert [s[0]] + s[1..] == s;
    }
  }

  /** With the ampersand pass last, an inserted `&lt;` would be escaped a second time. */
  lemma AmpersandLastDoubleEscapes()
    ensures ReplaceAll(ReplaceAll(ReplaceAll("<", '<', "&lt;"), '>', "&gt;"), '&', "&amp;") == "&amp;lt;"
  {
    ReplaceAllSingle('<', '<', "&lt;");
    ReplaceAllAbsent("&lt;", '>', "&gt;");
    assert "&lt;" == "&" + "lt;";
    ReplaceAllAppend("&", "lt;", '&', "&amp;");
    ReplaceAllAbsent("lt;", '&', "&amp;");
  }

  // ----------------------------------------------------------- sanitizeHashtag

  /** `replace(/^#+/u, '')`: the leading run of `#` removed. */
  function StripLeadingHashes(s: string): (r: string)
    ensures r == [] || r[0] != '#'
    ensures |r| <= |s| && r == s[|s| - |r|..]
    ensures forall i :: 0 <= i < |s| - |r| ==> s[i] == '#'
  {
    if s != [] && s[0] == '#' then StripLeadingHashes(s[1..]) else s
  }

  /** `replace(/\s+/gu, '')`: every white-space character removed, the rest kept in order. */
  function RemoveWhitespace(s: string): (r: string)
    ensures NoWhitespace(r)
    ensures |r| <= |s|
  {
    if s == [] then []
    else (if IsWhitespace(s[0]) then [] else [s[0]]) + RemoveWhitespace(s[1..])
  }

  /** `sanitizeHashtag`: trim, drop the leading `#` run, drop all white space, put one `#` in front. */
  function SanitizeHashtag(raw: string): (r: string)
    ensures |r| >= 1 && r[0] == '#'
    ensures NoWhitespace(r)
  {
    var body := RemoveWhitespace(StripLeadingHashes(Trim(raw)));
    NoWhitespaceAfterHash(body);
    "#" + body
  }

  lemma NoWhitespaceAfterHash(s: string)
    requires NoWhitespace(s)
    ensures NoWhitespace("#" + s)
  {
    forall i | 0 <= i < |"#" + s|
      ensures !IsWhitespace(("#" + s)[i])
    {
      if i > 0 {
        assert ("#" + s)[i] == s[i - 1];
      }
    }
  }

  function Hashes(k: nat): (r: string)
    ensures |r| == k && forall i :: 0 <= i < k ==> r[i] == '#'
  {
    if k == 0 then [] else "#" + Hashes(k - 1)
  }

  /** A run made only of `#` in front of a tag not starting with `#` is removed whole. */
  lemma {:induction false} StripHashRun(run: string, tag: string)
    requires forall i :: 0 <= i < |run| ==> run[i] == '#'
    requires tag == [] || tag[0] != '#'
    ensures StripLeadingHashes(run + tag) == tag
  {
    if run == [] {
      assert run + tag == tag;
    } else {
      assert (run + tag)[0] == '#';
      assert (run + tag)[1..] == run[1..] + tag;
      StripHashRun(run[1..], tag);
    }
  }

  /** One character: white space is dropped, anything else kept. */
  lemma RemoveWhitespaceOneChar(c: char)
    ensures RemoveWhitespace([c]) == if IsWhitespace(c) then [] else [c]
  {
    assert [c][1..] == [];
  }

  /** Removal works piece by piece, so every other character is kept, in order. */
  lemma {:induction false} RemoveWhitespaceAppend(a: string, b: string)
    ensures RemoveWhitespace(a + b) == RemoveWhitespace(a) + RemoveWhitespace(b)
  {
    if a != [] {
      assert (a + b)[0] == a[0];
      assert (a + b)[1..] == a[1..] + b;
      RemoveWhitespaceAppend(a[1..], b);
    } else {
      assert a + b == b;
    }
  }

  lemma {:induction false} RemoveWhitespaceOfClean(s: string)
    requires NoWhitespace(s)
    ensures RemoveWhitespace(s) == s
  {
    if s != [] {
      RemoveWhitespaceOfClean(s[1..]);
      assert [s[0]] + s[1..] == s;
    }
  }

  /**
   * A tag written as surrounding white space, any number of `#` and a word
   * without white space that does not start with `#` comes out as exactly
   * one `#` followed by that word.
   */
  lemma SanitizeHashtagCanonical(pre: string, k: nat, word: string, post: string)
    requires AllWhitespace(pre) && AllWhitespace(post)
    requires NoWhitespace(word) && (word == [] || word[0] != '#')
    ensures SanitizeHashtag(pre + Hashes(k) + word + post) == "#" + word
  {
    TrimAroundHashedWord(pre, k, word, post);
    StripHashRun(Hashes(k), word);
    RemoveWhitespaceOfClean(word);
  }

  lemma TrimAroundHashedWord(pre: string, k: nat, word: string, post: string)
    requires AllWhitespace(pre) && AllWhitespace(post)
    requires NoWhitespace(word)
    ensures Trim(pre + Hashes(k) + word + post) == Hashes(k) + word
  {
    var core := Hashes(k) + word;
    assert core != [] ==> !IsWhitespace(core[0]) && !IsWhitespace(core[|core| - 1]);
    assert pre + Hashes(k) + word + post == pre + core + post;
    TrimPadded(pre, core, post);
  }

  /**
   * White space is removed only after the `#` run is stripped, so a `#`
   * that follows white space survives: `"# #x"` becomes `"##x"`.
   */
  lemma SanitizeHashtagHashAfterSpace(sp: char, word: string)
    requires IsWhitespace(sp)
    requires NoWhitespace(word) && (word == [] || word[0] != '#')
    ensures SanitizeHashtag("#" + [sp] + "#" + word) == "##" + word
  {
    var raw := "#" + [sp] + "#" + word;
    TrimOfTrimmed(raw);
    StripOneHash(sp, word);
    SpaceRemoved(sp, word);
  }

  lemma TrimOfTrimmed(s: string)
    requires s != [] && s[0] == '#'
    requires s[|s| - 1] == '#' || !IsWhitespace(s[|s| - 1])
    ensures Trim(s) == s
  {
    TrimPadded([], s, []);
    assert [] + s + [] == s;
  }

  lemma StripOneHash(sp: char, word: string)
    requires IsWhitespace(sp)
    ensures StripLeadingHashes("#" + [sp] + "#" + word) == [sp] + "#" + word
  {
    var rest := [sp] + "#" + word;
    assert "#" + [sp] + "#" + word == Hashes(1) + rest;
    StripHashRun(Hashes(1), rest);
  }

  lemma SpaceRemoved(sp: char, word: string)
    requires IsWhitespace(sp) && NoWhitespace(word)
    ensures RemoveWhitespace([sp] + "#" + word) == "#" + word
  {
    assert ([sp] + "#" + word)[1..] == "#" + word;
    NoWhitespaceAfterHash(word);
    RemoveWhitespaceOfClean("#" + word);
  }

  // ---------------------------------------------------------------- firstLines

  /** `s.split(/\r?\n/u)`: pieces between line breaks, a carriage return before a line feed belonging to the break. */
  function SplitLines(s: string): (lines: seq<string>)
    ensures |lines| >= 1
    ensures forall i :: 0 <= i < |lines| ==> '\n' !in lines[i]
    decreases |s|
  {
    if s == [] then [[]]
    else if s[0] == '\n' then [[]] + SplitLines(s[1..])
    else if s[0] == '\r' && |s| >= 2 && s[1] == '\n' then [[]] + SplitLines(s[2..])
    else
      var rest := SplitLines(s[1..]);
      [[s[0]] + rest[0]] + rest[1..]
  }

  /** `xs` occurs in `ys` in order, possibly with gaps. */
  predicate IsSubsequence<T(==)>(xs: seq<T>, ys: seq<T>)
    decreases |ys|
  {
    xs == [] || (ys != [] && ((xs[0] == ys[0] && IsSubsequence(xs[1..], ys[1..])) || IsSubsequence(xs, ys[1..])))
  }

  /** `filter(Boolean)` on strings: the non-empty ones, in order. */
  function NonEmptyLines(xs: seq<string>): (r: seq<string>)
    ensures forall i :: 0 <= i < |r| ==> r[i] != ""
    ensures IsSubsequence(r, xs)
    ensures r == [] <==> forall i :: 0 <= i < |xs| ==> xs[i] == ""
  {
    if xs == [] then []
    else if xs[0] == "" then NonEmptyLines(xs[1..])
    else [xs[0]] + NonEmptyLines(xs[1..])
  }

  /** `slice(0, maxLines)` of the non-empty lines. */
  function SelectedLines(s: string, maxLines: nat): seq<string> {
    var ls := NonEmptyLines(SplitLines(s));
    if |ls| <= maxLines then ls else ls[..maxLines]
  }

  /** `firstLines`: the first `maxLines` non-empty lines, joined by line feeds; empty exactly when there are none to take. */
  function FirstLines(s: string, maxLines: nat): (r: string)
    ensures r == "" <==> maxLines == 0 || NonEmptyLines(SplitLines(s)) == []
  {
    var sel := SelectedLines(s, maxLines);
    assert forall i :: 0 <= i < |sel| ==> sel[i] == NonEmptyLines(SplitLines(s))[i];
    JoinEmptyIff(sel, "\n");
    Join(sel, "\n")
  }

  lemma {:induction false} SubsequencePrefix<T>(xs: seq<T>, ys: seq<T>, k: nat)
    requires IsSubsequence(xs, ys) && k <= |xs|
    ensures IsSubsequence(xs[..k], ys)
    decreases |ys|
  {
    if k > 0 {
      if xs[0] == ys[0] && IsSubsequence(xs[1..], ys[1..]) {
        SubsequencePrefix(xs[1..], ys[1..], k - 1);
        assert xs[..k][1..] == xs[1..][..k - 1];
      } else {
        SubsequencePrefix(xs, ys[1..], k);
      }
    }
  }

  /**
   * `firstLines(s, maxLines)`: splitting the result at line feeds gives at
   * most `maxLines` lines, none empty, which are the first non-empty lines
   * of `s` in order (so an in-order subsequence of its lines); the result is
   * empty exactly when `maxLines` is 0 or `s` has no non-empty line.
   */
  lemma FirstLinesSpec(s: string, maxLines: nat)
    ensures var r, all := FirstLines(s, maxLines), NonEmptyLines(SplitLines(s));
            r == "" <==> maxLines == 0 || all == []
    ensures var r, all := FirstLines(s, maxLines), NonEmptyLines(SplitLines(s));
            r != "" ==>
              var lines := Split(r, '\n');
              && |lines| <= maxLines
              && |lines| == (if |all| <= maxLines then |all| else maxLines)
              && lines == all[..|lines|]
              && (forall i :: 0 <= i < |lines| ==> lines[i] != "")
              && IsSubsequence(lines, SplitLines(s))
  {
    var all := NonEmptyLines(SplitLines(s));
    var sel := SelectedLines(s, maxLines);
    assert sel == all[..|sel|];
    JoinEmptyIff(sel, "\n");
    SubsequencePrefix(all, SplitLines(s), |sel|);
    if sel != [] {
      assert forall i :: 0 <= i < |sel| ==> sel[i] in SplitLines(s) || sel[i] == all[i];
      forall i | 0 <= i < |sel| ensures '\n' !in sel[i] {
        NonEmptyFromLines(SplitLines(s), all, i);
      }
      SplitJoin(sel, '\n');
    }
  }

  lemma {:induction false} NonEmptyFromLines(xs: seq<string>, r: seq<string>, i: nat)
    requires r == NonEmptyLines(xs) && i < |r|
    requires forall j :: 0 <= j < |xs| ==> '\n' !in xs[j]
    ensures '\n' !in r[i]
  {
    if xs[0] == "" {
      NonEmptyFromLines(xs[1..], r, i);
    } else if i > 0 {
      NonEmptyFromLines(xs[1..], NonEmptyLines(xs[1..]), i - 1);
    }
  }

  /**
   * A stack made of non-empty lines without carriage returns keeps exactly
   * its first `maxLines` lines: five lines cut to three keep the first three.
   */
  lemma FirstLinesOfJoinedLines(parts: seq<string>, maxLines: nat)
    requires |parts| >= 1
    requires forall i :: 0 <= i < |parts| ==> parts[i] != "" && EndsCleanly(parts[i])
    ensures FirstLines(Join(parts, "\n"), maxLines) == Join(if |parts| <= maxLines then parts else parts[..maxLines], "\n")
  {
    LinesOfJoin(parts);
    NonEmptyKeepsAll(parts);
  }

  lemma {:induction false} NonEmptyKeepsAll(xs: seq<string>)
    requires forall i :: 0 <= i < |xs| ==> xs[i] != ""
    ensures NonEmptyLines(xs) == xs
  {
    if xs != [] {
      NonEmptyKeepsAll(xs[1..]);
      assert [xs[0]] + xs[1..] == xs;
    }
  }

  /** The filter looks at one line at a time: a blank line is dropped and any other is kept. */
  lemma NonEmptyLinesSingle(x: string)
    ensures NonEmptyLines([x]) == if x == "" then [] else [x]
  {
    assert [x][1..] == [];
  }

  /**
   * The filter works piece by piece, so together with `NonEmptyLinesSingle`
   * it keeps exactly the non-empty lines, in order: a blank line drops only
   * itself, never the lines after it.
   */
  lemma {:induction false} NonEmptyLinesAppend(a: seq<string>, b: seq<string>)
    ensures NonEmptyLines(a + b) == NonEmptyLines(a) + NonEmptyLines(b)
  {
    if a == [] {
      assert a + b == b;
    } else {
      assert (a + b)[0] == a[0];
      assert (a + b)[1..] == a[1..] + b;
      NonEmptyLinesAppend(a[1..], b);
    }
  }

  /**
   * A blank line inside a stack is skipped and the lines after it still
   * count: `"Error: x\n\nat f\nat g"` cut to three lines keeps all three
   * non-empty ones.
   */
  lemma BlankLineSkipped(a: string, b: string, c: string)
    requires a != "" && b != "" && c != ""
    requires EndsCleanly(a) && EndsCleanly(b) && EndsCleanly(c)
    ensures FirstLines(Join([a, "", b, c], "\n"), 3) == Join([a, b, c], "\n")
  {
    LinesOfJoin([a, "", b, c]);
    assert [a, "", b, c] == [a] + [""] + [b, c];
    NonEmptyLinesAppend([a] + [""], [b, c]);
    NonEmptyLinesAppend([a], [""]);
    NonEmptyLinesSingle(a);
    NonEmptyLinesSingle("");
    NonEmptyKeepsAll([b, c]);
  }

  /** A line that a `\n` after it ends cleanly: no line feed inside, no carriage return at its end. */
  predicate EndsCleanly(a: string) {
    '\n' !in a && (a == [] || a[|a| - 1] != '\r')
  }

  lemma {:induction false} LinesOfJoin(parts: seq<string>)
    requires |parts| >= 1
    requires forall i :: 0 <= i < |parts| ==> EndsCleanly(parts[i])
    ensures SplitLines(Join(parts, "\n")) == parts
  {
    if |parts| == 1 {
      LinesOfPlain(parts[0]);
    } else {
      LinesOfJoin(parts[1..]);
      LinesAfterPiece(parts[0], Join(parts[1..], "\n"));
      assert [parts[0]] + parts[1..] == parts;
    }
  }

  /** A text without a line feed is one line; a carriage return in it, even a trailing one, is kept. */
  lemma {:induction false} LinesOfPlain(a: string)
    requires '\n' !in a
    ensures SplitLines(a) == [a]
  {
    if a != [] {
      LinesOfPlain(a[1..]);
      assert [a[0]] + a[1..] == a;
    }
  }

  /** A line feed ends the line before it; a carriage return inside that line is kept. */
  lemma {:induction false} LinesAfterPiece(a: string, b: string)
    requires EndsCleanly(a)
    ensures SplitLines(a + "\n" + b) == [a] + SplitLines(b)
  {
    if a != [] {
      assert (a + "\n" + b)[1..] == a[1..] + "\n" + b;
      if |a| >= 2 {
        assert a[1..][|a[1..]| - 1] == a[|a| - 1];
      }
      LinesAfterPiece(a[1..], b);
      assert [a[0]] + a[1..] == a;
    } else {
      assert (a + "\n" + b)[1..] == b;
    }
  }

  /** A carriage return followed by a line feed is one break. */
  lemma {:induction false} CrlfBreak(a: string, b: string)
    requires '\n' !in a
    ensures SplitLines(a + "\r\n" + b) == [a] + SplitLines(b)
  {
    if a != [] {
      assert (a + "\r\n" + b)[1..] == a[1..] + "\r\n" + b;
      CrlfBreak(a[1..], b);
      assert [a[0]] + a[1..] == a;
    } else {
      assert (a + "\r\n" + b)[2..] == b;
    }
  }

  /** A carriage return not followed by a line feed is no break: it stays in its line. */
  lemma LoneCarriageReturnKept(a: string, b: string)
    requires '\n' !in a && '\n' !in b
    ensures SplitLines(a + "\r" + b) == [a + "\r" + b]
  {
    assert '\n' !in a + "\r" + b;
    LinesOfPlain(a + "\r" + b);
  }

  // ---------------------------------------------------------------------- clip

  /**
   * `clip(s, limit)`: unchanged when it fits, otherwise the first `limit`
   * characters and an ellipsis, one character more than the limit.
   */
  function Clip(s: string, limit: nat): (r: string)
    ensures |s| <= limit ==> r == s
    ensures |s| > limit ==> |r| == limit + 1 && r[..limit] == s[..limit] && r[limit] == Ellipsis
  {
    if |s| <= limit then s else s[..limit] + [Ellipsis]
  }

  /** Clipping at Telegram's own limit can yield 4097 characters, one over that limit. */
  lemma ClipAtMaxLenOverflows(s: string)
    requires |s| > MaxLen
    ensures |Clip(s, MaxLen)| == MaxLen + 1 > MaxLen
  {
  }
}
