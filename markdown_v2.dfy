/**
 * Escaping for the MarkdownV2 parse mode of the Telegram Bot API ("MarkdownV2
 * style" in the Bot API documentation): every special character is preceded
 * by a backslash, and a short key/value formatter built on it.
 */
module MarkdownV2 {
  import opened JsString

  /** The characters of the `specials` class: the MarkdownV2 reserved characters and the backslash. */
  const Specials: set<char> := {'_', '*', '[', ']', '(', ')', '~', '`', '>', '#', '+', '-', '=', '|', '{', '}', '.', '!', '\\'}

  predicate IsSpecial(c: char) {
    c in Specials
  }

  function CountSpecial(s: string): (n: nat)
    ensures n <= |s|
  {
    if s == [] then 0 else (if IsSpecial(s[0]) then 1 else 0) + CountSpecial(s[1..])
  }

  function EscapeChar(c: char): string {
    if IsSpecial(c) then ['\\', c] else [c]
  }

  /** `escapeMarkdownV2`: the global replace of each special character by a backslash and itself. */
  function EscapeMarkdownV2(input: string): (r: string)
    ensures |r| == |input| + CountSpecial(input)
  {
    if input == [] then [] else EscapeChar(input[0]) + EscapeMarkdownV2(input[1..])
  }

  /** How a MarkdownV2 reader takes an escaped text back: a backslash is dropped and the next character kept literally. */
  function Unescape(s: string): string
    decreases |s|
  {
    if s == [] then []
    else if s[0] == '\\' && |s| >= 2 then [s[1]] + Unescape(s[2..])
    else [s[0]] + Unescape(s[1..])
  }

  /** Escaping distributes over concatenation: the transform is character by character. */
  lemma {:induction false} EscapeAppend(a: string, b: string)
    ensures EscapeMarkdownV2(a + b) == EscapeMarkdownV2(a) + EscapeMarkdownV2(b)
  {
    if a != [] {
      assert (a + b)[1..] == a[1..] + b;
      EscapeAppend(a[1..], b);
    } else {
      assert a + b == b;
    }
  }

  /**
   * Where each input character lands: the i-th character of the input, after
   * i characters and the specials among them, is emitted either as itself or,
   * when special, as a backslash followed by itself. In particular a backslash
   * comes out doubled.
   */
  lemma EscapeAt(s: string, i: int)
    requires 0 <= i < |s|
    ensures var r, p := EscapeMarkdownV2(s), i + CountSpecial(s[..i]);
            if IsSpecial(s[i])
            then p + 1 < |r| && r[p] == '\\' && r[p + 1] == s[i]
            else p < |r| && r[p] == s[i]
  {
    var pre, rest := s[..i], s[i..];
    assert s == pre + rest;
    EscapeAppend(pre, rest);
    assert rest == [s[i]] + rest[1..];
    EscapeAppend([s[i]], rest[1..]);
  }

  /** A backslash in the input is emitted as two backslashes. */
  lemma BackslashDoubled(s: string, i: int)
    requires 0 <= i < |s| && s[i] == '\\'
    ensures var r, p := EscapeMarkdownV2(s), i + CountSpecial(s[..i]);
            p + 1 < |r| && r[p..p + 2] == "\\\\"
  {
    var pre, post := s[..i], s[i + 1..];
    assert s == pre + [s[i]] + post;
    EscapeAppend(pre + [s[i]], post);
    EscapeAppend(pre, [s[i]]);
    assert EscapeMarkdownV2([s[i]]) == ['\\', '\\'];
    MiddleSlice(EscapeMarkdownV2(pre), ['\\', '\\'], EscapeMarkdownV2(post));
  }

  /** Removing each escaping backslash gives the input back. */
  lemma {:induction false} EscapeRoundTrip(s: string)
    ensures Unescape(EscapeMarkdownV2(s)) == s
  {
    if s != [] {
      var r := EscapeMarkdownV2(s[1..]);
      EscapeRoundTrip(s[1..]);
      if IsSpecial(s[0]) {
        var e := ['\\', s[0]] + r;
        assert e[2..] == r;
      } else {
        assert s[0] != '\\';
        var e := [s[0]] + r;
        assert e[1..] == r;
      }
      assert [s[0]] + s[1..] == s;
    }
  }

  lemma {:induction false} CountSpecialZero(s: string)
    ensures CountSpecial(s) == 0 <==> forall i :: 0 <= i < |s| ==> !IsSpecial(s[i])
  {
    if s != [] {
      CountSpecialZero(s[1..]);
      assert forall i :: 1 <= i < |s| ==> s[i] == s[1..][i - 1];
    }
  }

  /** The text is left unchanged exactly when it holds no special character. */
  lemma EscapeIdentityIff(s: string)
    ensures EscapeMarkdownV2(s) == s <==> forall i :: 0 <= i < |s| ==> !IsSpecial(s[i])
  {
    CountSpecialZero(s);
    if forall i :: 0 <= i < |s| ==> !IsSpecial(s[i]) {
      NoSpecialUnchanged(s);
    }
  }

  lemma {:induction false} NoSpecialUnchanged(s: string)
    requires forall i :: 0 <= i < |s| ==> !IsSpecial(s[i])
    ensures EscapeMarkdownV2(s) == s
  {
    if s != [] {
      NoSpecialUnchanged(s[1..]);
      assert [s[0]] + s[1..] == s;
    }
  }

  /** Escaping adds no character other than the backslash. */
  lemma {:induction false} EscapeAddsOnlyBackslashes(s: string, c: char)
    requires c != '\\' && c !in s
    ensures c !in EscapeMarkdownV2(s)
  {
    if s != [] {
      EscapeAddsOnlyBackslashes(s[1..], c);
    }
  }

  /** One line of `prettyKV`; a string value is its own `stringify`. */
  function EntryLine(key: string, value: string): string {
    "\U{2022} *" + EscapeMarkdownV2(key) + "*: " + EscapeMarkdownV2(value)
  }

  function EntryLines(entries: seq<(string, string)>): (lines: seq<string>)
    ensures |lines| == |entries|
    ensures forall i :: 0 <= i < |entries| ==> lines[i] == EntryLine(entries[i].0, entries[i].1)
  {
    seq(|entries|, i requires 0 <= i < |entries| => EntryLine(entries[i].0, entries[i].1))
  }

  /** `prettyKV` over the entries of an object, in enumeration order, with string values. */
  function PrettyKV(entries: seq<(string, string)>): (r: string)
    ensures r == "" <==> entries == []
  {
    var lines := EntryLines(entries);
    assert forall i :: 0 <= i < |lines| ==> lines[i][0] == '\U{2022}';
    JoinEmptyIff(lines, "\n");
    Join(lines, "\n")
  }

  /**
   * One line per entry, in entry order: when no key or value holds a line
   * break, splitting the result at line breaks gives exactly the entry lines,
   * each a bullet, the escaped key in bold, a colon and the escaped value.
   */
  lemma PrettyKVLines(entries: seq<(string, string)>)
    requires forall i :: 0 <= i < |entries| ==> '\n' !in entries[i].0 && '\n' !in entries[i].1
    ensures entries == [] ==> PrettyKV(entries) == ""
    ensures entries != [] ==>
      var lines := Split(PrettyKV(entries), '\n');
      |lines| == |entries| &&
      forall i :: 0 <= i < |entries| ==>
        lines[i] == "\U{2022} *" + EscapeMarkdownV2(entries[i].0) + "*: " + EscapeMarkdownV2(entries[i].1)
  {
    if entries != [] {
      var lines := EntryLines(entries);
      forall i | 0 <= i < |lines| ensures '\n' !in lines[i] {
        EscapeAddsOnlyBackslashes(entries[i].0, '\n');
        EscapeAddsOnlyBackslashes(entries[i].1, '\n');
      }
      SplitJoin(lines, '\n');
    }
  }
}
