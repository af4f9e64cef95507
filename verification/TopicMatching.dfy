// What the regular expression of a topic filter matches, level by level, and how that
// compares with the filter itself under section 4.7.1 of MQTT 3.1.1.
module TopicMatching {
  import opened TopicFilter

  // ---------- The regular expression ----------

  // Other: what has a meaning of its own in a regular expression if it is not escaped.
  datatype Token = Literal(c: char) | OneLevel | AllLevels | Other(c: char)

  predicate Meta(c: char) { c in ".^$*+?{}[]\\|()" }

  // How a regular expression made by the translation reads.
  function Parse(r: string): seq<Token>
    decreases |r|
  {
    if r == "" then []
    else if "[^/]+" <= r then [OneLevel] + Parse(r[5..])
    else if ".+" <= r then [AllLevels] + Parse(r[2..])
    else if r[0] == '\\' && |r| > 1 then [Literal(r[1])] + Parse(r[2..])
    else [if Meta(r[0]) then Other(r[0]) else Literal(r[0])] + Parse(r[1..])
  }

  predicate NoSlash(s: string) { '/' !in s }

  predicate NoNewline(s: string) { '\n' !in s }

  ghost predicate FullMatch(r: seq<Token>, s: string)
    decreases |r|
  {
    if r == [] then s == ""
    else
      match r[0]
      case Literal(c) => s != "" && s[0] == c && FullMatch(r[1..], s[1..])
      case OneLevel => exists k :: 1 <= k <= |s| && NoSlash(s[..k]) && FullMatch(r[1..], s[k..])
      case AllLevels => exists k :: 1 <= k <= |s| && NoNewline(s[..k]) && FullMatch(r[1..], s[k..])
      case Other(_) => false
  }

  function TokenOf(c: char): Token { if c == '+' then OneLevel else if c == '#' then AllLevels else Literal(c) }

  function Tokens(t: string): seq<Token> { if t == "" then [] else [TokenOf(t[0])] + Tokens(t[1..]) }

  lemma ParseStep(c: char, rest: string)
    ensures Parse(Full(c) + rest) == [TokenOf(c)] + Parse(rest)
  {
    var r := Full(c) + rest;
    assert r[0] == Full(c)[0];
    if c == '+' {
      assert r[|ONE_LEVEL|..] == rest;
    } else if c == '#' {
      assert r[|ALL_LEVELS|..] == rest && !(ONE_LEVEL <= r);
    } else {
      assert r[0] != '[' && r[0] != '.' && !(ONE_LEVEL <= r) && !(ALL_LEVELS <= r);
      if Special(c) { assert r[1] == c && r[2..] == rest; } else { assert r[1..] == rest; }
    }
  }

  lemma {:induction false} RegexReadsAsTokens(t: string)
    ensures Parse(Map(Full, t)) == Tokens(t)
  {
    if t != "" {
      RegexReadsAsTokens(t[1..]);
      ParseStep(t[0], Map(Full, t[1..]));
    }
  }

  // ---------- Levels ----------

  function Split(s: string): (levels: seq<string>)
    ensures |levels| >= 1
  {
    if s == "" then [""]
    else if s[0] == '/' then [""] + Split(s[1..])
    else [[s[0]] + Split(s[1..])[0]] + Split(s[1..])[1..]
  }

  predicate Wild(level: string) { '+' in level || '#' in level }

  // Wildcards take whole levels, and # only the last.
  predicate WellFormed(levels: seq<string>) {
    levels == [] ||
    ((Wild(levels[0]) ==> levels[0] == "+" || (levels[0] == "#" && |levels| == 1)) && WellFormed(levels[1..]))
  }

  // Section 4.7.1: + matches one level, # any number of levels, none included.
  predicate FilterMatches(filter: seq<string>, topic: seq<string>) {
    if filter == [] then topic == []
    else if filter[0] == "#" then true
    else topic != [] && (filter[0] == "+" || filter[0] == topic[0]) && FilterMatches(filter[1..], topic[1..])
  }

  // The same, but + takes no empty level, and # takes some text and no line break.
  predicate StrictlyMatches(filter: seq<string>, topic: seq<string>) {
    if filter == [] then topic == []
    else if filter[0] == "#" then
      topic != [] && topic != [""] && AllWithoutNewline(topic)
    else
      topic != [] && (if filter[0] == "+" then topic[0] != "" else filter[0] == topic[0])
      && StrictlyMatches(filter[1..], topic[1..])
  }

  // ---------- The comparison ----------

  lemma SplitCons(c: char, s: string)
    requires c != '/'
    ensures Split([c] + s) == [[c] + Split(s)[0]] + Split(s)[1..]
    ensures Split([c] + s)[0] == [c] + Split(s)[0] && Split([c] + s)[1..] == Split(s)[1..]
  {
    assert ([c] + s)[1..] == s;
  }

  lemma SplitSlash(s: string)
    ensures Split("/" + s) == [""] + Split(s) && Split("/" + s)[1..] == Split(s)
  {
    assert ("/" + s)[1..] == s;
  }

  lemma SplitEmpty(s: string)
    ensures Split(s) == [""] <==> s == ""
    ensures Split(s)[0] == "" <==> s == "" || s[0] == '/'
    ensures Split(s)[0] != "" ==> Split(s)[0][0] == s[0]
  {}

  lemma {:induction false} SplitBeforeSlash(s: string, rest: string)
    requires NoSlash(s)
    ensures Split(s) == [s] && Split(s + "/" + rest) == [s] + Split(rest)
  {
    if s == "" {
      assert s + "/" + rest == "/" + rest;
      SplitSlash(rest);
    } else {
      SplitBeforeSlash(s[1..], rest);
      SplitCons(s[0], s[1..]);
      SplitCons(s[0], s[1..] + "/" + rest);
      assert s == [s[0]] + s[1..] && s + "/" + rest == [s[0]] + (s[1..] + "/" + rest);
    }
  }

  predicate AllWithoutNewline(levels: seq<string>) {
    levels == [] || (NoNewline(levels[0]) && AllWithoutNewline(levels[1..]))
  }

  lemma {:induction false} SplitKeepsNewlines(s: string)
    ensures NoNewline(s) <==> AllWithoutNewline(Split(s))
  {
    if s != "" {
      SplitKeepsNewlines(s[1..]);
      assert s == [s[0]] + s[1..];
      if s[0] == '/' { SplitSlash(s[1..]); } else { SplitCons(s[0], s[1..]); }
    }
  }

  lemma SlashMatches(f: string, s: string)
    requires f != "" && f[0] == '/'
    requires s != "" ==> (FullMatch(Tokens(f[1..]), s[1..]) <==> StrictlyMatches(Split(f[1..]), Split(s[1..])))
    ensures FullMatch(Tokens(f), s) <==> StrictlyMatches(Split(f), Split(s))
  {
    assert f == "/" + f[1..];
    SplitSlash(f[1..]);
    SplitEmpty(s);
    if s != "" && s[0] == '/' {
      assert s == "/" + s[1..];
      SplitSlash(s[1..]);
    }
  }

  lemma LiteralMatches(f: string, s: string)
    requires f != "" && f[0] != '/' && f[0] != '+' && f[0] != '#' && !Wild(Split(f[1..])[0])
    requires s != "" ==> (FullMatch(Tokens(f[1..]), s[1..]) <==> StrictlyMatches(Split(f[1..]), Split(s[1..])))
    ensures FullMatch(Tokens(f), s) <==> StrictlyMatches(Split(f), Split(s))
  {
    assert f == [f[0]] + f[1..];
    SplitCons(f[0], f[1..]);
    SplitEmpty(s);
    assert Split(f)[0][0] == f[0];
    assert "+"[0] == '+' && "#"[0] == '#';
    if s != "" && s[0] == f[0] {
      assert s == [s[0]] + s[1..];
      SplitCons(s[0], s[1..]);
      var a, b := Split(f[1..])[0], Split(s[1..])[0];
      assert a != "+" && a != "#";
      if [f[0]] + a == [f[0]] + b { assert a == ([f[0]] + a)[1..] && b == ([f[0]] + b)[1..]; }
    }
  }

  lemma RestMatches(s: string)
    ensures FullMatch(Tokens("#"), s) <==> StrictlyMatches(Split("#"), Split(s))
  {
    assert Tokens("#") == [AllLevels] && [AllLevels][1..] == [];
    assert Split("#") == ["#"] by { SplitBeforeSlash("#", ""); }
    SplitEmpty(s);
    SplitKeepsNewlines(s);
    if s != "" && NoNewline(s) {
      assert s[..|s|] == s && FullMatch([], s[|s|..]);
    }
    if FullMatch(Tokens("#"), s) {
      var k :| 1 <= k <= |s| && NoNewline(s[..k]) && FullMatch([], s[k..]);
      assert k == |s| && s[..k] == s;
    }
  }

  lemma FirstSlash(s: string) returns (k: nat)
    ensures k <= |s| && NoSlash(s[..k]) && (k < |s| ==> s[k] == '/')
  {
    k := 0;
    while k < |s| && s[k] != '/'
      invariant k <= |s| && NoSlash(s[..k])
    {
      assert s[..k + 1] == s[..k] + [s[k]];
      k := k + 1;
    }
  }

  // + alone takes a text without slash, + before a slash takes all before the first one.
  lemma LastLevelMatches(s: string)
    ensures FullMatch(Tokens("+"), s) <==> StrictlyMatches(Split("+"), Split(s))
  {
    assert Tokens("+") == [OneLevel] && [OneLevel][1..] == [];
    assert Split("+") == ["+"] by { SplitBeforeSlash("+", ""); }
    SplitEmpty(s);
    var k := FirstSlash(s);
    if k < |s| {
      assert s == s[..k] + "/" + s[k + 1..];
      SplitBeforeSlash(s[..k], s[k + 1..]);
    } else {
      assert s == s[..k];
      SplitBeforeSlash(s, "");
      assert FullMatch([], s[|s|..]);
    }
    if FullMatch(Tokens("+"), s) {
      var n :| 1 <= n <= |s| && NoSlash(s[..n]) && FullMatch([], s[n..]);
      assert n == |s| && s[..n] == s;
    }
  }

  ghost predicate Agree(f: string, s: string) {
    FullMatch(Tokens(f), s) <==> StrictlyMatches(Split(f), Split(s))
  }

  lemma NoSlashBelow(s: string, n: nat)
    requires n <= |s| && NoSlash(s[..n])
    ensures forall i | 0 <= i < n :: s[i] != '/'
  {
    assert forall i | 0 <= i < n :: s[..n][i] == s[i];
  }

  // A match of the one-level token before a slash ends at the first slash.
  lemma LevelEnds(r: seq<Token>, s: string, k: nat)
    requires k <= |s| && NoSlash(s[..k]) && (k < |s| ==> s[k] == '/')
    requires |r| >= 2 && r[0] == OneLevel && r[1] == Literal('/')
    ensures FullMatch(r, s) <==> 1 <= k < |s| && FullMatch(r[2..], s[k + 1..])
  {
    assert r[1..][1..] == r[2..];
    if 1 <= k < |s| && FullMatch(r[2..], s[k + 1..]) {
      assert s[k..][1..] == s[k + 1..];
      assert FullMatch(r[1..], s[k..]);
    }
    if FullMatch(r, s) {
      var n :| 1 <= n <= |s| && NoSlash(s[..n]) && FullMatch(r[1..], s[n..]);
      assert s[n..] != "" && s[n] == '/' && s[n..][1..] == s[n + 1..];
      NoSlashBelow(s, n);
      NoSlashBelow(s, k);
      assert n == k;
    }
  }

  lemma LevelMatches(f: string, s: string)
    requires |f| >= 2 && f[0] == '+' && f[1] == '/' && forall rest :: Agree(f[2..], rest)
    ensures Agree(f, s)
  {
    assert f == "+" + "/" + f[2..];
    SplitBeforeSlash("+", f[2..]);
    LevelTokens(f);
    var k := FirstSlash(s);
    LevelEnds(Tokens(f), s, k);
    SplitEmpty(s);
    if k < |s| {
      assert s == s[..k] + "/" + s[k + 1..];
      SplitBeforeSlash(s[..k], s[k + 1..]);
      assert Agree(f[2..], s[k + 1..]);
    } else {
      assert s == s[..k];
      SplitBeforeSlash(s, "");
    }
  }

  lemma LevelTokens(f: string)
    requires |f| >= 2 && f[0] == '+' && f[1] == '/'
    ensures Tokens(f) == [OneLevel, Literal('/')] + Tokens(f[2..])
    ensures Tokens(f)[2..] == Tokens(f[2..])
  {
    assert f[1..][1..] == f[2..];
  }

  lemma WildHead(level: string)
    requires level != "" && (level[0] == '+' || level[0] == '#')
    ensures Wild(level)
  {}

  lemma TameTail(c: char, level: string)
    requires !Wild([c] + level)
    ensures !Wild(level)
  {
    assert forall x | x in level :: x in [c] + level;
  }

  lemma WildFirst(c: char, level: string, more: seq<string>)
    requires (c == '+' || c == '#') && WellFormed([[c] + level] + more)
    ensures level == "" && WellFormed(more) && (c == '#' ==> more == [])
  {
    WildHead([c] + level);
    assert ([[c] + level] + more)[1..] == more;
    assert |[c] + level| == 1 && ([c] + level)[0] == c;
  }

  lemma EmptyFirst(s: string)
    requires s != "" && Split(s)[0] == ""
    ensures s[0] == '/' && Split(s)[1..] == Split(s[1..])
  {
    SplitEmpty(s);
    assert s == "/" + s[1..];
    SplitSlash(s[1..]);
  }

  // How a well-formed filter begins.
  lemma WildcardStands(c: char, rest: string, levels: seq<string>)
    requires levels == Split([c] + rest) && WellFormed(levels) && (c == '+' || c == '#')
    ensures rest == "" || (c == '+' && rest[0] == '/' && WellFormed(Split(rest[1..])))
  {
    SplitCons(c, rest);
    var level, more := Split(rest)[0], Split(rest)[1..];
    assert levels == [[c] + level] + more;
    WildFirst(c, level, more);
    if rest != "" { EmptyFirst(rest); }
  }

  lemma LiteralFirst(c: char, level: string, more: seq<string>)
    requires c != '+' && c != '#' && WellFormed([[c] + level] + more)
    ensures !Wild(level) && WellFormed([level] + more)
  {
    var first := [c] + level;
    assert first[0] == c && first != "+" && first != "#";
    TameTail(c, level);
    assert ([first] + more)[1..] == more && ([level] + more)[1..] == more;
  }

  lemma LiteralStands(c: char, rest: string, levels: seq<string>)
    requires levels == Split([c] + rest) && WellFormed(levels) && c != '+' && c != '#'
    ensures WellFormed(Split(rest)) && (c != '/' ==> !Wild(Split(rest)[0]))
  {
    if c == '/' {
      SplitSlash(rest);
    } else {
      SplitCons(c, rest);
      var level, more := Split(rest)[0], Split(rest)[1..];
      assert levels == [[c] + level] + more;
      LiteralFirst(c, level, more);
      assert Split(rest) == [level] + more;
    }
  }

  // The regular expression of a well-formed filter matches a topic in full exactly if the
  // filter strictly matches it level by level.
  lemma {:induction false} TokensMatchExactly(f: string, s: string)
    requires WellFormed(Split(f))
    ensures Agree(f, s)
    decreases |f|
  {
    if f == "" {
      SplitEmpty(s);
      assert Split(s) == [""] || |Split(s)| > 1 || Split(s)[0] != "";
    } else if f[0] == '+' || f[0] == '#' {
      assert f == [f[0]] + f[1..];
      WildcardStands(f[0], f[1..], Split(f));
      if f[1..] != "" {
        assert f[1..][1..] == f[2..];
        forall rest ensures Agree(f[2..], rest) { TokensMatchExactly(f[2..], rest); }
        LevelMatches(f, s);
      } else if f[0] == '+' {
        assert f == "+";
        LastLevelMatches(s);
      } else {
        assert f == "#";
        RestMatches(s);
      }
    } else {
      assert f == [f[0]] + f[1..];
      LiteralStands(f[0], f[1..], Split(f));
      if s != "" { TokensMatchExactly(f[1..], s[1..]); }
      if f[0] == '/' { SlashMatches(f, s); } else { LiteralMatches(f, s); }
    }
  }

  lemma RegexMatchesExactly(f: string, s: string)
    requires WellFormed(Split(f))
    ensures FullMatch(Parse(TopicToRegex(f)), s) <==> StrictlyMatches(Split(f), Split(s))
  {
    TranslationIsPerCharacter(f);
    RegexReadsAsTokens(f);
    TokensMatchExactly(f, s);
  }

  // So every topic that the expression matches is matched by the filter, and the other
  // way round if no level is empty, # stands for at least one level, and nothing breaks
  // the line.
  lemma {:induction false} StrictMatchingCompared(filter: seq<string>, topic: seq<string>)
    ensures StrictlyMatches(filter, topic) ==> FilterMatches(filter, topic)
    ensures FilterMatches(filter, topic) && |topic| >= |filter| && AllWithoutNewline(topic) && "" !in topic ==>
              StrictlyMatches(filter, topic)
  {
    if filter != [] && topic != [] && filter[0] != "#" { StrictMatchingCompared(filter[1..], topic[1..]); }
  }

  lemma RegexComparedWithFilter(f: string, s: string)
    requires WellFormed(Split(f))
    ensures FullMatch(Parse(TopicToRegex(f)), s) ==> FilterMatches(Split(f), Split(s))
    ensures FilterMatches(Split(f), Split(s)) && |Split(s)| >= |Split(f)| && NoNewline(s) && "" !in Split(s) ==>
              FullMatch(Parse(TopicToRegex(f)), s)
  {
    RegexMatchesExactly(f, s);
    SplitKeepsNewlines(s);
    StrictMatchingCompared(Split(f), Split(s));
  }
}
