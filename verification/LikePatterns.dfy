/** Rule prefixes as SQL conditions: `LIKE` with the wildcards of the prefix escaped, against the prefix test
    the overlay makes itself. Paths are texts here. */
module LikePatterns {

  const ESCAPE: char := '\\'

  /** SQLite's `LIKE` ignores the case of ASCII letters. */
  function Fold(c: char): char {
    if 'A' <= c <= 'Z' then c + 32 as char else c
  }

  predicate SameFold(a: string, b: string) {
    |a| == |b| && forall i :: 0 <= i < |a| ==> Fold(a[i]) == Fold(b[i])
  }

  /** `s LIKE p ESCAPE '\\'`. */
  predicate Like(p: string, s: string)
    decreases |p| + |s|
  {
    if p == "" then s == ""
    else if p[0] == ESCAPE then |p| >= 2 && s != "" && Fold(p[1]) == Fold(s[0]) && Like(p[2..], s[1..])
    else if p[0] == '%' then Like(p[1..], s) || (s != "" && Like(p, s[1..]))
    else if p[0] == '_' then s != "" && Like(p[1..], s[1..])
    else s != "" && Fold(p[0]) == Fold(s[0]) && Like(p[1..], s[1..])
  }

  /** Every `c` of the text replaced by `r`. */
  function Replace(s: string, c: char, r: string): string {
    if s == "" then "" else (if s[0] == c then r else [s[0]]) + Replace(s[1..], c, r)
  }

  function LikeEscape(s: string): string {
    Replace(Replace(Replace(s, '\\', "\\\\"), '%', "\\%"), '_', "\\_")
  }

  predicate Special(c: char) { c == '\\' || c == '%' || c == '_' }

  lemma {:induction false} ReplaceConcat(a: string, b: string, c: char, r: string)
    ensures Replace(a + b, c, r) == Replace(a, c, r) + Replace(b, c, r)
    decreases |a|
  {
    if a == "" {
      assert a + b == b;
    } else {
      assert (a + b)[1..] == a[1..] + b;
      ReplaceConcat(a[1..], b, c, r);
    }
  }

  lemma ReplaceOne(x: char, c: char, r: string)
    ensures Replace([x], c, r) == if x == c then r else [x]
  {
    assert [x][1..] == "";
  }

  lemma ReplaceTwo(x: char, y: char, c: char, r: string)
    requires x != c
    ensures Replace([x, y], c, r) == [x] + (if y == c then r else [y])
  {
    assert [x, y][1..] == [y];
    ReplaceOne(y, c, r);
  }

  /** The three replacements put a backslash before each special character and change nothing else. */
  lemma EscapeStep(s: string)
    requires s != ""
    ensures LikeEscape(s) == (if Special(s[0]) then ['\\', s[0]] else [s[0]]) + LikeEscape(s[1..])
  {
    var x := s[0];
    var a := if x == '\\' then "\\\\" else [x];
    var b := Replace(s[1..], '\\', "\\\\");
    ReplaceConcat(a, b, '%', "\\%");
    ReplaceConcat(Replace(a, '%', "\\%"), Replace(b, '%', "\\%"), '_', "\\_");
    if x == '\\' {
      ReplaceTwo('\\', '\\', '%', "\\%");
      ReplaceTwo('\\', '\\', '_', "\\_");
    } else {
      ReplaceOne(x, '%', "\\%");
      if x == '%' { ReplaceTwo('\\', '%', '_', "\\_"); } else { ReplaceOne(x, '_', "\\_"); }
    }
  }

  lemma {:induction false} PercentMatchesAll(s: string)
    ensures Like("%", s)
    decreases |s|
  {
    assert "%"[1..] == "";
    if s != "" { PercentMatchesAll(s[1..]); }
  }

  lemma SlashPercent(s: string)
    ensures Like("/%", s) <==> s != "" && s[0] == '/'
  {
    assert "/%"[1..] == "%";
    if s != "" { PercentMatchesAll(s[1..]); }
    assert Fold('/') == '/';
  }

  /** The pattern built for a prefix matches exactly the texts that continue it with a slash, up to case. */
  lemma {:induction false} PrefixPattern(prefix: string, s: string)
    ensures Like(LikeEscape(prefix) + "/%", s) <==>
      |s| > |prefix| && s[|prefix|] == '/' && SameFold(prefix, s[..|prefix|])
    decreases |prefix|
  {
    if prefix == "" {
      assert LikeEscape(prefix) + "/%" == "/%";
      SlashPercent(s);
    } else {
      EscapeStep(prefix);
      var rest := LikeEscape(prefix[1..]) + "/%";
      var p := LikeEscape(prefix) + "/%";
      PatternStep(prefix[0], rest, p, s);
      if s != "" {
        PrefixPattern(prefix[1..], s[1..]);
        FoldStep(prefix, s);
      }
    }
  }

  lemma PatternStep(x: char, rest: string, p: string, s: string)
    requires p == (if Special(x) then ['\\', x] else [x]) + rest
    ensures Like(p, s) <==> s != "" && Fold(x) == Fold(s[0]) && Like(rest, s[1..])
  {
    if Special(x) {
      assert p[0] == ESCAPE && p[1] == x && p[2..] == rest;
    } else {
      assert p[0] == x && p[1..] == rest;
    }
  }

  lemma FoldStep(prefix: string, s: string)
    requires prefix != "" && s != ""
    ensures |s| > |prefix| ==>
      (SameFold(prefix, s[..|prefix|]) <==>
        Fold(prefix[0]) == Fold(s[0]) && SameFold(prefix[1..], s[1..][..|prefix| - 1]))
    ensures |s| > |prefix| ==> s[1..][|prefix| - 1] == s[|prefix|]
  {
    if |s| > |prefix| {
      var t, u := s[..|prefix|], s[1..][..|prefix| - 1];
      assert t[0] == s[0];
      forall i | 0 <= i < |u| ensures u[i] == t[i + 1] && prefix[1..][i] == prefix[i + 1] {}
      if Fold(prefix[0]) == Fold(s[0]) && SameFold(prefix[1..], u) {
        forall i | 0 <= i < |prefix| ensures Fold(prefix[i]) == Fold(t[i]) {
          if i > 0 { assert Fold(prefix[1..][i - 1]) == Fold(u[i - 1]); }
        }
      }
      if SameFold(prefix, t) {
        forall i | 0 <= i < |u| ensures Fold(prefix[1..][i]) == Fold(u[i]) {
          assert Fold(prefix[i + 1]) == Fold(t[i + 1]);
        }
      }
    }
  }

  // ------------------------------------------------------------------ the two tests of a rule prefix

  /** The condition the triggers use. */
  predicate UnderPrefix(prefix: string, path: string) {
    prefix == "/" || path == prefix || Like(LikeEscape(prefix) + "/%", path)
  }

  /** The test the overlay makes. */
  predicate Covers(prefix: string, path: string) {
    prefix == "/" || path == prefix || prefix + "/" <= path
  }

  /** Whatever the overlay's test covers, the triggers cover; they cover more exactly when a path continues a
      prefix that differs from its own in case only. */
  lemma TriggersCoverIff(prefix: string, path: string)
    ensures Covers(prefix, path) ==> UnderPrefix(prefix, path)
    ensures UnderPrefix(prefix, path) && !Covers(prefix, path) <==>
      && prefix != "/" && path != prefix && |path| > |prefix| && path[|prefix|] == '/'
      && SameFold(prefix, path[..|prefix|]) && prefix != path[..|prefix|]
  {
    PrefixPattern(prefix, path);
    if prefix + "/" <= path {
      assert path[..|prefix|] == prefix && path[|prefix|] == (prefix + "/")[|prefix|];
    }
    if |path| > |prefix| && path[|prefix|] == '/' && prefix == path[..|prefix|] {
      assert path[..|prefix| + 1] == prefix + "/";
    }
  }

  lemma PlainFirst(c: char, p: string, s: string)
    requires !Special(c)
    ensures Like([c] + p, [c] + s) <==> Like(p, s)
  {
    assert ([c] + p)[1..] == p && ([c] + s)[1..] == s;
  }

  lemma AnyFirst(c: char, p: string, s: string)
    ensures Like("_" + p, [c] + s) <==> Like(p, s)
  {
    assert ("_" + p)[1..] == p && ([c] + s)[1..] == s;
  }

  lemma {:induction false} PercentTakesAll(s: string)
    ensures Like("%", s)
    decreases |s|
  {
    if s != "" { PercentTakesAll(s[1..]); }
  }

  lemma UnderscoreMatches(rest: string)
    ensures Like("/a_/%", "/" + ("a" + ("b" + ("/" + rest))))
  {
    PercentTakesAll(rest);
    PlainFirst('/', "%", rest);
    AnyFirst('b', "/%", "/" + rest);
    PlainFirst('a', "_/%", "b" + ("/" + rest));
    PlainFirst('/', "a_/%", "a" + ("b" + ("/" + rest)));
    assert "/" + "a_/%" == "/a_/%" && "a" + "_/%" == "a_/%" && "_" + "/%" == "_/%" && "/" + "%" == "/%";
  }

  lemma EscapedKeepsOut(prefix: string, s: string, k: nat)
    requires k < |prefix| && k < |s| && Fold(prefix[k]) != Fold(s[k])
    ensures !Like(LikeEscape(prefix) + "/%", s)
  {
    PrefixPattern(prefix, s);
    if |s| > |prefix| { assert s[..|prefix|][k] == s[k]; }
  }

  /** Without the escape a prefix with a wildcard in its name would protect a neighbour; with it, none that differs
      at that place. */
  lemma UnescapedReachesOthers(prefix: string, rest: string)
    requires prefix == "/a_"
    ensures Like(prefix + "/%", "/ab/" + rest) && !Like(LikeEscape(prefix) + "/%", "/ab/" + rest)
  {
    var s := "/ab/" + rest;
    UnderscoreMatches(rest);
    assert "/" + ("a" + ("b" + ("/" + rest))) == s && prefix + "/%" == "/a_/%";
    EscapedKeepsOut(prefix, s, 2);
  }

  /** The two tests do differ. */
  lemma CaseTwinIsCovered()
    ensures UnderPrefix("/etc", "/ETC/x") && !Covers("/etc", "/ETC/x")
  {
    var a, b := "/etc", "/ETC/x";
    assert b[..4] == "/ETC";
    assert SameFold(a, b[..4]);
    PrefixPattern(a, b);
    assert a[1] != b[1];
  }
}
