// Topic filters as regular expressions: the text translation, its inverse, and what the
// expressions match compared with the filters of MQTT 3.1.1 section 4.7.1.
module TopicFilter {

  // ---------- The translation ----------

  // The characters that re.escape escapes.
  predicate Special(c: char) {
    || c == '(' || c == ')' || c == '[' || c == ']' || c == '{' || c == '}' || c == '?' || c == '*' || c == '+'
    || c == '-' || c == '|' || c == '^' || c == '$' || c == '\\' || c == '.' || c == '&' || c == '~' || c == '#'
    || c == ' ' || 9 <= c as int <= 13
  }

  // All of these are escaped, and no others.
  lemma SpecialExactly(c: char)
    ensures Special(c) <==> c in "()[]{}?*+-|^$\\.&~# \t\n\r" || c as int in {11, 12}
  {}

  function Escape(c: char): string { if Special(c) then ['\\', c] else [c] }

  // str.replace: the leftmost occurrences, without overlap.
  function Replace(s: string, pattern: string, other: string): string
    requires pattern != ""
    decreases |s|
  {
    if s == "" then ""
    else if pattern <= s then other + Replace(s[|pattern|..], pattern, other)
    else [s[0]] + Replace(s[1..], pattern, other)
  }

  function Map(f: char -> string, t: string): string { if t == "" then "" else f(t[0]) + Map(f, t[1..]) }

  const ONE_LEVEL := "[^/]+"
  const ALL_LEVELS := ".+"

  function TopicToRegex(t: string): string { Replace(Replace(Map(Escape, t), "\\+", ONE_LEVEL), "\\#", ALL_LEVELS) }

  function RegexToTopic(r: string): string { Replace(Replace(r, ONE_LEVEL, "+"), ALL_LEVELS, "#") }

  // Character by character, after the first and after the second replacement.
  function Half(c: char): string { if c == '+' then ONE_LEVEL else Escape(c) }

  function Full(c: char): string { if c == '#' then ALL_LEVELS else Half(c) }

  lemma EscapedStart(f: char -> string, t: string, c: char)
    requires f == Escape || f == Half
    requires c == '+' || c == '#'
    ensures Map(f, t) != "" ==> Map(f, t)[0] != c
  {
    if t != "" {
      assert f(t[0]) == Escape(t[0]) || f(t[0]) == Half(t[0]);
      assert f(t[0]) != "" && Map(f, t)[0] == f(t[0])[0];
    }
  }

  // A text that does not begin like the pattern is passed by.
  lemma PassBy(c: char, rest: string, pattern: string, other: string)
    requires |pattern| >= 2 && (c != pattern[0] || rest == "" || rest[0] != pattern[1])
    ensures Replace([c] + rest, pattern, other) == [c] + Replace(rest, pattern, other)
  {
    var s := [c] + rest;
    assert s[1..] == rest;
    assert s[0] == c && (rest != "" ==> s[1] == rest[0]);
  }

  lemma TakeMatch(rest: string, pattern: string, other: string)
    requires pattern != ""
    ensures Replace(pattern + rest, pattern, other) == other + Replace(rest, pattern, other)
  {
    assert (pattern + rest)[|pattern|..] == rest;
  }

  // An escaped character other than the pattern's passes.
  lemma PassEscaped(c: char, rest: string, x: char, other: string)
    requires (x == '+' || x == '#') && c != x && (rest != "" ==> rest[0] != x)
    ensures Replace(Escape(c) + rest, ['\\', x], other) == Escape(c) + Replace(rest, ['\\', x], other)
  {
    var pattern := ['\\', x];
    if Special(c) {
      assert Escape(c) + rest == ['\\'] + ([c] + rest);
      PassBy('\\', [c] + rest, pattern, other);
      PassBy(c, rest, pattern, other);
      assert Escape(c) + Replace(rest, pattern, other) == ['\\'] + ([c] + Replace(rest, pattern, other));
    } else {
      PassBy(c, rest, pattern, other);
    }
  }

  lemma {:induction false} FirstReplacement(t: string)
    ensures Replace(Map(Escape, t), "\\+", ONE_LEVEL) == Map(Half, t)
  {
    if t != "" {
      var rest := Map(Escape, t[1..]);
      FirstReplacement(t[1..]);
      EscapedStart(Escape, t[1..], '+');
      assert "\\+" == ['\\', '+'];
      if t[0] == '+' {
        TakeMatch(rest, "\\+", ONE_LEVEL);
      } else {
        PassEscaped(t[0], rest, '+', ONE_LEVEL);
      }
    }
  }

  // A text without the pattern's first character passes as a whole.
  lemma {:induction false} PassText(a: string, rest: string, pattern: string, other: string)
    requires |pattern| >= 2 && pattern[0] !in a
    ensures Replace(a + rest, pattern, other) == a + Replace(rest, pattern, other)
  {
    if a == "" {
      assert a + rest == rest;
    } else {
      PassText(a[1..], rest, pattern, other);
      PassBy(a[0], a[1..] + rest, pattern, other);
      assert a + rest == [a[0]] + (a[1..] + rest);
    }
  }

  lemma {:induction false} SecondReplacement(t: string)
    ensures Replace(Map(Half, t), "\\#", ALL_LEVELS) == Map(Full, t)
  {
    if t != "" {
      var rest := Map(Half, t[1..]);
      SecondReplacement(t[1..]);
      EscapedStart(Half, t[1..], '#');
      assert "\\#" == ['\\', '#'];
      if t[0] == '#' {
        TakeMatch(rest, "\\#", ALL_LEVELS);
      } else if t[0] == '+' {
        PassText(ONE_LEVEL, rest, "\\#", ALL_LEVELS);
      } else {
        PassEscaped(t[0], rest, '#', ALL_LEVELS);
      }
    }
  }

  // The translation works character by character.
  lemma TranslationIsPerCharacter(t: string)
    ensures TopicToRegex(t) == Map(Full, t)
  {
    FirstReplacement(t);
    SecondReplacement(t);
  }

  // ---------- Back again ----------

  // Characters that stand for themselves in a regular expression, and the wildcards.
  predicate Plain(c: char) { c == '+' || c == '#' || !Special(c) }

  function Back(c: char): string { if c == '#' then ALL_LEVELS else [c] }

  lemma {:induction false} LevelsBack(t: string)
    requires forall i | 0 <= i < |t| :: Plain(t[i])
    ensures Replace(Map(Full, t), ONE_LEVEL, "+") == Map(Back, t)
  {
    if t != "" {
      var rest := Map(Full, t[1..]);
      LevelsBack(t[1..]);
      if t[0] == '+' {
        TakeMatch(rest, ONE_LEVEL, "+");
      } else if t[0] == '#' {
        PassText(ALL_LEVELS, rest, ONE_LEVEL, "+");
      } else {
        assert Plain(t[0]);
        PassBy(t[0], rest, ONE_LEVEL, "+");
      }
    }
  }

  lemma {:induction false} WildcardsBack(t: string)
    requires forall i | 0 <= i < |t| :: Plain(t[i])
    ensures Replace(Map(Back, t), ALL_LEVELS, "#") == t
  {
    if t != "" {
      var rest := Map(Back, t[1..]);
      WildcardsBack(t[1..]);
      assert t == [t[0]] + t[1..];
      if t[0] == '#' {
        TakeMatch(rest, ALL_LEVELS, "#");
      } else {
        assert Plain(t[0]);
        PassBy(t[0], rest, ALL_LEVELS, "#");
      }
    }
  }

  function Backslashes(s: string): nat { if s == "" then 0 else (if s[0] == '\\' then 1 else 0) + Backslashes(s[1..]) }

  function Escaped(t: string): nat { if t == "" then 0 else (if Plain(t[0]) then 0 else 1) + Escaped(t[1..]) }

  lemma {:induction false} BackslashesAdd(a: string, b: string)
    ensures Backslashes(a + b) == Backslashes(a) + Backslashes(b)
  {
    if a == "" {
      assert a + b == b;
    } else {
      BackslashesAdd(a[1..], b);
      assert (a + b)[1..] == a[1..] + b;
    }
  }

  lemma {:induction false} NoBackslashes(s: string)
    requires '\\' !in s
    ensures Backslashes(s) == 0
  {
    if s != "" { NoBackslashes(s[1..]); }
  }

  lemma {:induction false} ReplaceKeepsBackslashes(s: string, pattern: string, other: string)
    requires pattern != "" && '\\' !in pattern && '\\' !in other
    ensures Backslashes(Replace(s, pattern, other)) == Backslashes(s)
    decreases |s|
  {
    if s != "" {
      if pattern <= s {
        var rest := s[|pattern|..];
        assert s == pattern + rest;
        ReplaceKeepsBackslashes(rest, pattern, other);
        BackslashesAdd(pattern, rest);
        BackslashesAdd(other, Replace(rest, pattern, other));
        NoBackslashes(pattern);
        NoBackslashes(other);
      } else {
        ReplaceKeepsBackslashes(s[1..], pattern, other);
        BackslashesAdd([s[0]], Replace(s[1..], pattern, other));
      }
    }
  }

  lemma {:induction false} TranslatedBackslashes(t: string)
    ensures Backslashes(Map(Full, t)) == Backslashes(t) + Escaped(t)
  {
    if t != "" {
      TranslatedBackslashes(t[1..]);
      BackslashesAdd(Full(t[0]), Map(Full, t[1..]));
      if t[0] == '+' || t[0] == '#' {
        NoBackslashes(Full(t[0]));
      } else if Special(t[0]) {
        assert Full(t[0])[1..] == [t[0]] && [t[0]][1..] == "";
      }
    }
  }

  lemma {:induction false} NothingEscaped(t: string)
    ensures Escaped(t) == 0 <==> forall i | 0 <= i < |t| :: Plain(t[i])
  {
    if t != "" {
      NothingEscaped(t[1..]);
      assert forall i | 0 <= i < |t[1..]| :: t[1..][i] == t[i + 1];
    }
  }

  // A topic filter comes back from its regular expression exactly if, besides the
  // wildcards, it has no character that a regular expression must escape.
  lemma RegexRoundTripExactly(t: string)
    ensures RegexToTopic(TopicToRegex(t)) == t <==> forall i | 0 <= i < |t| :: Plain(t[i])
  {
    TranslationIsPerCharacter(t);
    if forall i | 0 <= i < |t| :: Plain(t[i]) {
      LevelsBack(t);
      WildcardsBack(t);
    } else {
      ReplaceKeepsBackslashes(Map(Full, t), ONE_LEVEL, "+");
      ReplaceKeepsBackslashes(Replace(Map(Full, t), ONE_LEVEL, "+"), ALL_LEVELS, "#");
      TranslatedBackslashes(t);
      NothingEscaped(t);
    }
  }
}
