/** User text inside a LIKE pattern: escaping against SQLite's matcher. */
module LikeEscape {

  /** Python's `str.replace`: leftmost, non-overlapping. */
  function Replace(s: string, find: string, put: string): string
    requires find != ""
    decreases |s|
  {
    if |s| < |find| then s
    else if s[..|find|] == find then put + Replace(s[|find|..], find, put)
    else [s[0]] + Replace(s[1..], find, put)
  }

  /** `_escape_like`: the backslash goes first. */
  function Escape(s: string): string {
    Replace(Replace(Replace(s, "\\", "\\\\"), "%", "\\%"), "_", "\\_")
  }

  function ContainsPattern(s: string): string {
    "%" + Escape(s) + "%"
  }

  /** SQLite folds the ASCII letters only. */
  function Fold(c: char): char {
    if 'A' <= c <= 'Z' then c - 'A' + 'a' else c
  }

  /** Two characters match when they are equal or one ASCII letter in two cases. */
  lemma FoldIsAsciiCase(a: char, b: char)
    ensures Fold(a) == Fold(b) <==>
              || a == b
              || ('A' <= a <= 'Z' && b as int == a as int + 32)
              || ('A' <= b <= 'Z' && a as int == b as int + 32)
  {
  }

  /** `text LIKE pattern ESCAPE '\'`. */
  predicate Like(pattern: string, text: string)
    decreases |pattern|, |text|
  {
    if pattern == "" then text == ""
    else if pattern[0] == '%' then
      Like(pattern[1..], text) || (text != "" && Like(pattern, text[1..]))
    else if pattern[0] == '_' then
      text != "" && Like(pattern[1..], text[1..])
    else if pattern[0] == '\\' then
      |pattern| > 1 && text != "" && Fold(pattern[1]) == Fold(text[0]) && Like(pattern[2..], text[1..])
    else
      text != "" && Fold(pattern[0]) == Fold(text[0]) && Like(pattern[1..], text[1..])
  }

  predicate OccursAt(s: string, text: string, k: nat) {
    k + |s| <= |text| && forall i | 0 <= i < |s| :: Fold(s[i]) == Fold(text[k + i])
  }

  /** `s` is a substring of `text`, up to ASCII case. */
  predicate Occurs(s: string, text: string) {
    exists k: nat | k <= |text| :: OccursAt(s, text, k)
  }

  // ---------------------------------------------------------------- three passes are one

  function EscapeChar(c: char): string {
    if c == '\\' || c == '%' || c == '_' then ['\\', c] else [c]
  }

  function EscapeEach(s: string): string {
    if s == "" then "" else EscapeChar(s[0]) + EscapeEach(s[1..])
  }

  lemma {:induction false} ReplaceConcat(a: string, b: string, c: char, put: string)
    ensures Replace(a + b, [c], put) == Replace(a, [c], put) + Replace(b, [c], put)
    decreases |a|
  {
    if a == "" {
      assert a + b == b;
    } else {
      assert (a + b)[..1] == [a[0]] == a[..1] && (a + b)[1..] == a[1..] + b;
      ReplaceConcat(a[1..], b, c, put);
    }
  }

  lemma ReplaceChar(x: char, c: char, put: string)
    ensures Replace([x], [c], put) == if x == c then put else [x]
  {
    assert [x][..1] == [x] && [x][1..] == "";
  }

  lemma EscapeOfChar(x: char)
    ensures Escape([x]) == EscapeChar(x)
  {
    ReplaceChar(x, '\\', "\\\\");
    ReplaceChar(x, '%', "\\%");
    ReplaceChar(x, '_', "\\_");
    ReplaceChar('\\', '%', "\\%");
    ReplaceChar('\\', '_', "\\_");
    ReplaceConcat(['\\'], ['\\'], '%', "\\%");
    ReplaceConcat(['\\'], ['\\'], '_', "\\_");
    ReplaceChar('%', '_', "\\_");
    ReplaceConcat(['\\'], ['%'], '_', "\\_");
    assert "\\\\" == ['\\'] + ['\\'] && "\\%" == ['\\'] + ['%'];
  }

  lemma EscapeConcat(a: string, b: string)
    ensures Escape(a + b) == Escape(a) + Escape(b)
  {
    ReplaceConcat(a, b, '\\', "\\\\");
    var a1, b1 := Replace(a, "\\", "\\\\"), Replace(b, "\\", "\\\\");
    ReplaceConcat(a1, b1, '%', "\\%");
    ReplaceConcat(Replace(a1, "%", "\\%"), Replace(b1, "%", "\\%"), '_', "\\_");
  }

  lemma {:induction false} ThreePassesAreOne(s: string)
    ensures Escape(s) == EscapeEach(s)
  {
    hide Escape;
    if s == "" {
      EscapeConcat("", "");
      assert "" + "" == "";
    } else {
      assert s == [s[0]] + s[1..];
      EscapeConcat([s[0]], s[1..]);
      EscapeOfChar(s[0]);
      ThreePassesAreOne(s[1..]);
    }
  }

  // ---------------------------------------------------------------- the matcher

  lemma {:induction false} TrailingPercentMatchesAll(text: string)
    ensures Like("%", text)
    decreases |text|
  {
    assert "%"[1..] == "";
    if text != "" { TrailingPercentMatchesAll(text[1..]); }
  }

  lemma LikeLiteral(c: char, rest: string, text: string)
    ensures Like(EscapeChar(c) + rest, text) <==>
            (text != "" && Fold(c) == Fold(text[0]) && Like(rest, text[1..]))
  {
    var p := EscapeChar(c) + rest;
    if c == '\\' || c == '%' || c == '_' {
      assert p[0] == '\\' && p[1] == c && p[2..] == rest;
    } else {
      assert p[0] == c && p[1..] == rest;
    }
  }

  /** Escaped text followed by a wildcard matches exactly the texts it begins. */
  lemma {:induction false} EscapedIsAPrefix(s: string, text: string)
    ensures Like(EscapeEach(s) + "%", text) <==> OccursAt(s, text, 0)
    decreases |s|
  {
    if s == "" {
      assert "" + "%" == "%";
      TrailingPercentMatchesAll(text);
    } else {
      assert EscapeEach(s) + "%" == EscapeChar(s[0]) + (EscapeEach(s[1..]) + "%");
      LikeLiteral(s[0], EscapeEach(s[1..]) + "%", text);
      if text != "" {
        EscapedIsAPrefix(s[1..], text[1..]);
        PrefixTail(s, text);
      }
    }
  }

  lemma PrefixTail(s: string, text: string)
    requires s != "" && text != ""
    ensures OccursAt(s, text, 0) <==> Fold(s[0]) == Fold(text[0]) && OccursAt(s[1..], text[1..], 0)
  {
    if Fold(s[0]) == Fold(text[0]) && OccursAt(s[1..], text[1..], 0) {
      forall i | 0 <= i < |s| ensures Fold(s[i]) == Fold(text[0 + i]) {
        if i > 0 { assert s[i] == s[1..][i - 1] && text[i] == text[1..][0 + (i - 1)]; }
      }
    }
    if OccursAt(s, text, 0) {
      forall i | 0 <= i < |s| - 1 ensures Fold(s[1..][i]) == Fold(text[1..][0 + i]) {
        assert s[1..][i] == s[i + 1] && text[1..][i] == text[0 + (i + 1)];
      }
    }
  }

  lemma ShiftOccurs(s: string, text: string, k: nat)
    requires text != ""
    ensures OccursAt(s, text, k + 1) <==> OccursAt(s, text[1..], k)
  {
    assert forall j | 0 <= j < |text| - 1 :: text[1..][j] == text[j + 1];
  }

  lemma {:induction false} AnywhereIffOccurs(s: string, text: string)
    ensures Like("%" + EscapeEach(s) + "%", text) <==> Occurs(s, text)
    decreases |text|
  {
    var p := "%" + EscapeEach(s) + "%";
    assert p[0] == '%' && p[1..] == EscapeEach(s) + "%";
    EscapedIsAPrefix(s, text);
    if text != "" {
      AnywhereIffOccurs(s, text[1..]);
      if Occurs(s, text[1..]) {
        var k: nat :| k <= |text[1..]| && OccursAt(s, text[1..], k);
        ShiftOccurs(s, text, k);
      }
      if Occurs(s, text) {
        var k: nat :| k <= |text| && OccursAt(s, text, k);
        if k > 0 { ShiftOccurs(s, text, k - 1); }
      }
    }
  }

  /** Main result: the pattern built from any text matches exactly what contains that text. */
  lemma EscapingIsExact(s: string, text: string)
    ensures Like(ContainsPattern(s), text) <==> Occurs(s, text)
  {
    ThreePassesAreOne(s);
    AnywhereIffOccurs(s, text);
  }

  /** Backslash last: a search for "%" then looks for a backslash instead. */
  lemma BackslashLastIsWrong()
    ensures var wrong := Replace(Replace("%", "%", "\\%"), "\\", "\\\\");
            Like("%" + wrong + "%", "\\") && !Occurs("%", "\\")
  {
    ReplaceChar('%', '%', "\\%");
    ReplaceConcat("\\", "%", '\\', "\\\\");
    ReplaceChar('\\', '\\', "\\\\");
    ReplaceChar('%', '\\', "\\\\");
    assert "\\" + "%" == "\\%";
    var wrong := Replace(Replace("%", "%", "\\%"), "\\", "\\\\");
    assert wrong == "\\\\%";
    var p := "%" + wrong + "%";
    assert p[1..] == "\\\\%%" && p[1..][2..] == "%%" && "%%"[1..] == "%" && "\\"[1..] == "";
    TrailingPercentMatchesAll("");
    assert Like("%%", "");
    assert Like(p[1..], "\\");
  }
}
