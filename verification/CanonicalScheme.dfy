/**
 * Exactly which URLs canonicalize idempotently (src/config/http.js), told from the URL before
 * canonicalization: a second pass strips a host only if the first pass decoded its scheme.
 */
module CanonicalScheme {
  import opened CanonicalUrl

  /** A slash comes before the end of the line. */
  predicate LineReachesSlash(s: string) {
    s != [] && (s[0] == '/' || (!IsLineTerminator(s[0]) && LineReachesSlash(s[1..])))
  }

  /** The path spells `http` or `https` before its first colon, then comes `://` and a slash on the same line. */
  predicate SpellsAbsoluteForm(url: string) {
    var path := Path(url);
    var colon := IndexFrom(path, ':', 0);
    && !Malformed(path) && colon < |path|
    && (Decoded(path[..colon]) == "http" || Decoded(path[..colon]) == "https")
    && ReachesPath(url[colon..])
  }

  /** `://`, a host, and a slash on the same line. */
  predicate ReachesPath(rest: string) {
    |rest| >= 3 && rest[0] == ':' && rest[1] == '/' && rest[2] == '/' && LineReachesSlash(rest[3..])
  }

  // ---------------------------------------------------------------- absolute form, by pieces

  lemma {:induction false} ReachesFrom(s: string, from: nat)
    requires from <= |s|
    ensures var slash := IndexFrom(s, '/', from);
            LineReachesSlash(s[from..]) <==> slash < |s| && forall j :: from <= j < slash ==> !IsLineTerminator(s[j])
    decreases |s| - from
  {
    if from < |s| && s[from] != '/' {
      assert s[from..][1..] == s[from + 1..];
      ReachesFrom(s, from + 1);
      assert IndexFrom(s, '/', from) == IndexFrom(s, '/', from + 1);
    }
  }

  lemma HostPointwise(url: string)
    ensures "http://" <= url <==> |url| >= 7 && url[..4] == "http" && url[4] == ':' && url[5] == '/' && url[6] == '/'
    ensures "https://" <= url <==> |url| >= 8 && url[..5] == "https" && url[5] == ':' && url[6] == '/' && url[7] == '/'
  {
    assert |url| >= 7 ==> url[..7] == url[..4] + [url[4], url[5], url[6]];
    assert |url| >= 8 ==> url[..8] == url[..5] + [url[5], url[6], url[7]];
    assert "http://" == "http" + "://" && "https://" == "https" + "://";
  }

  /** The host starts three characters behind the first colon, if the scheme is right. */
  lemma HostBehindColon(scheme: string, rest: string)
    requires ':' !in scheme && rest != [] && rest[0] == ':'
    ensures var url := scheme + rest;
            if (scheme == "http" || scheme == "https") && |rest| >= 3 && rest[1] == '/' && rest[2] == '/'
            then HostAt(url) == |scheme| + 3 else HostAt(url) == 0
  {
    var url := scheme + rest;
    HostPointwise(url);
    forall i | 0 <= i < |scheme| ensures url[i] != ':' {
      assert scheme[i] in scheme;
    }
    assert forall i :: 0 <= i < |rest| ==> url[|scheme| + i] == rest[i];
    assert url[..|scheme|] == scheme;
    assert |url| >= 7 && url[..4] == "http" && url[4] == ':' ==> |scheme| == 4 by {
      ColonAfter(url, |scheme|, "http");
    }
    assert |url| >= 8 && url[..5] == "https" && url[5] == ':' ==> |scheme| == 5 by {
      ColonAfter(url, |scheme|, "https");
    }
  }

  lemma ColonAfter(url: string, colon: nat, word: string)
    requires colon < |url| && url[colon] == ':' && (forall i :: 0 <= i < colon ==> url[i] != ':') && ':' !in word
    ensures |word| < |url| && url[..|word|] == word && url[|word|] == ':' ==> colon == |word|
  {
    forall i | 0 <= i < |word| ensures word[i] != ':' {
      assert word[i] in word;
    }
    assert |word| < |url| ==> forall i :: 0 <= i < |word| ==> url[..|word|][i] == url[i];
  }

  /** Absolute form, told from the text before the first colon and the rest. */
  lemma SchemeAndRest(scheme: string, rest: string)
    requires ':' !in scheme && rest != [] && rest[0] == ':'
    ensures IsAbsoluteForm(scheme + rest) <==> (scheme == "http" || scheme == "https") && ReachesPath(rest)
  {
    var url := scheme + rest;
    HostBehindColon(scheme, rest);
    if HostAt(url) > 0 {
      ReachesFrom(url, |scheme| + 3);
      assert url[|scheme| + 3..] == rest[3..];
    }
  }

  /** Without a colon in the path there is no absolute form. */
  lemma NoColonNotAbsolute(path: string, query: string)
    requires ':' !in path && (query == [] || query[0] == '?')
    ensures !IsAbsoluteForm(path + query)
  {
    var url := path + query;
    HostPointwise(url);
    forall i | 0 <= i < |path| ensures url[i] != ':' {
      assert path[i] in path;
    }
    assert query != [] ==> url[|path|] == '?';
    QuestionBefore(url, |path|, "http");
    QuestionBefore(url, |path|, "https");
  }

  lemma QuestionBefore(url: string, mark: nat, word: string)
    requires mark <= |url| && (mark < |url| ==> url[mark] == '?') && (forall i :: 0 <= i < mark ==> url[i] != ':') && '?' !in word
    ensures |word| < |url| && url[|word|] == ':' ==> url[..|word|] != word
  {
    forall i | 0 <= i < |word| ensures word[i] != '?' {
      assert word[i] in word;
    }
    assert |word| < |url| ==> forall i :: 0 <= i < |word| ==> url[..|word|][i] == url[i];
  }

  // ---------------------------------------------------------------- what replacing keeps

  lemma {:induction false} ReplacedAppend(a: string, b: string)
    requires !Malformed(a)
    ensures Replaced(a + b) == Replaced(a) + Replaced(b)
    decreases |a|
  {
    if a == [] {
      assert a + b == b;
    } else {
      var k := if EscapeAt(a, 0) then 3 else 1;
      assert (a + b)[k..] == a[k..] + b;
      TailIsWellFormed(a, k);
      ReplacedAppend(a[k..], b);
    }
  }

  lemma {:induction false} NoNewColon(path: string)
    ensures ':' in Replaced(path) ==> ':' in path
    decreases |path|
  {
    if path != [] {
      var k := if EscapeAt(path, 0) then 3 else 1;
      NoNewColon(path[k..]);
      if ':' in path[k..] {
        assert ':' in path;
      }
    }
  }

  lemma CutIsWellFormed(path: string, i: nat)
    requires !Malformed(path) && i < |path| && !IsHex(path[i])
    ensures !Malformed(path[..i])
  {
    forall j | 0 <= j < i && path[..i][j] == '%' ensures EscapeAt(path[..i], j) {
      assert path[j] == '%' && EscapeAt(path, j);
    }
  }

  /** A leading slash stays one, and none appears. */
  lemma SlashStays(path: string, query: string)
    requires query == [] || query[0] == '?'
    ensures var x, y := Replaced(path) + query, path + query;
            && ((x != [] && x[0] == '/') <==> (y != [] && y[0] == '/'))
            && (y != [] && y[0] == '/' ==>
                  path != [] && x == ['/'] + (Replaced(path[1..]) + query) && y == ['/'] + (path[1..] + query))
  {
    if path == [] {
      assert Replaced(path) + query == query && path + query == query;
    } else if EscapeAt(path, 0) {
      EscapeStep(path, query);
    } else {
      PlainStep(path, query);
    }
  }

  lemma {:induction false} ReachStays(path: string, query: string)
    ensures LineReachesSlash(Replaced(path) + query) <==> LineReachesSlash(path + query)
    decreases |path|
  {
    if path == [] {
      assert Replaced(path) + query == path + query;
    } else if EscapeAt(path, 0) {
      ReachStays(path[3..], query);
      EscapeReachesNothing(path, query);
    } else {
      ReachStays(path[1..], query);
      PlainStep(path, query);
      ConsReaches(path[0], Replaced(path[1..]) + query);
      ConsReaches(path[0], path[1..] + query);
    }
  }

  lemma ConsReaches(c: char, s: string)
    ensures LineReachesSlash([c] + s) <==> c == '/' || (!IsLineTerminator(c) && LineReachesSlash(s))
  {
    assert ([c] + s)[1..] == s;
  }

  lemma PlainStep(path: string, query: string)
    requires path != [] && !EscapeAt(path, 0)
    ensures Replaced(path) + query == [path[0]] + (Replaced(path[1..]) + query)
    ensures path + query == [path[0]] + (path[1..] + query)
  {
    assert path == [path[0]] + path[1..];
    Regroup([path[0]], path[1..], query);
    Regroup([path[0]], Replaced(path[1..]), query);
  }

  lemma Regroup(a: string, b: string, c: string)
    ensures (a + b) + c == a + (b + c)
  {
  }

  /** An escape is replaced by a percent sign or an unreserved character first. */
  lemma EscapeStep(path: string, query: string)
    requires EscapeAt(path, 0)
    ensures var x := Replaced(path) + query; x != [] && (x[0] == '%' || IsUnreserved(x[0]))
  {
    assert Replaced(path) == Replacement(path[1], path[2]) + Replaced(path[3..]);
  }

  lemma EscapeReachesNothing(path: string, query: string)
    requires EscapeAt(path, 0)
    ensures LineReachesSlash(Replaced(path) + query) <==> LineReachesSlash(Replaced(path[3..]) + query)
    ensures LineReachesSlash(path + query) <==> LineReachesSlash(path[3..] + query)
  {
    var piece := Replacement(path[1], path[2]);
    assert Replaced(path) + query == piece + (Replaced(path[3..]) + query);
    assert path + query == path[..3] + (path[3..] + query);
    NoSlashNoLine(piece, Replaced(path[3..]) + query);
    NoSlashNoLine(path[..3], path[3..] + query);
  }

  lemma {:induction false} NoSlashNoLine(a: string, b: string)
    requires forall i :: 0 <= i < |a| ==> a[i] != '/' && !IsLineTerminator(a[i])
    ensures LineReachesSlash(a + b) <==> LineReachesSlash(b)
    decreases |a|
  {
    if a == [] {
      assert a + b == b;
    } else {
      assert (a + b)[1..] == a[1..] + b;
      NoSlashNoLine(a[1..], b);
    }
  }

  // ---------------------------------------------------------------- what a scheme spells

  /** A path stands for an unreserved text exactly when it is replaced by that text. */
  lemma UnreservedText(path: string, text: string)
    requires !Malformed(path) && forall i :: 0 <= i < |text| ==> IsUnreserved(text[i])
    ensures Decoded(path) == text <==> Replaced(path) == text
  {
    var r := Replaced(path);
    ReplacedParses(path);
    ReplacedAgain(path);
    DecodedPathIsKept(path);
    if r == text {
      PlainText(text);
    }
    if Decoded(r) == text {
      NoUnreservedEscapeIsLeft(path);
      ParseTokens(r);
      forall i | 0 <= i < |Parse(r)| ensures Parse(r)[i] == Plain(text[i]) {
        assert Meaning(Parse(r)[i]) == Decoded(r)[i];
      }
      assert NormalAll(Parse(r)) == Parse(r);
      ReplacedIsSpelled(r);
      SpelledPlain(Parse(r), text);
    }
  }

  lemma {:induction false} PlainText(text: string)
    requires forall i :: 0 <= i < |text| ==> text[i] != '%'
    ensures Decoded(text) == text
    decreases |text|
  {
    if text != [] {
      PlainText(text[1..]);
      ParseTokens(text);
      assert Parse(text) == [Plain(text[0])] + Parse(text[1..]);
      assert Decoded(text) == [text[0]] + Decoded(text[1..]);
    }
  }

  lemma {:induction false} SpelledPlain(tokens: seq<Token>, text: string)
    requires AllTokens(tokens) && |tokens| == |text| && forall i :: 0 <= i < |text| ==> tokens[i] == Plain(text[i])
    ensures Spell(tokens) == text
    decreases |tokens|
  {
    if tokens != [] {
      SpelledPlain(tokens[1..], text[1..]);
      assert text == [text[0]] + text[1..];
    }
  }

  // ---------------------------------------------------------------- the exact condition

  lemma SpellsExactlyWhenAbsolute(path: string, query: string)
    requires !Malformed(path) && '?' !in path && (query == [] || query[0] == '?')
    ensures SpellsAbsoluteForm(path + query) <==> IsAbsoluteForm(Replaced(path) + query)
  {
    QuerySplits(path, query);
    var colon := IndexFrom(path, ':', 0);
    if colon == |path| {
      assert ':' !in path;
      NoNewColon(path);
      NoColonNotAbsolute(Replaced(path), query);
    } else {
      var scheme, rest := path[..colon], path[colon..];
      assert path == scheme + rest && ':' !in scheme;
      assert (path + query)[colon..] == rest + query;
      CutIsWellFormed(path, colon);
      ReplacedAppend(scheme, rest);
      Regroup(Replaced(scheme), Replaced(rest), query);
      SpelledSchemeAndRest(scheme, rest, query);
    }
  }

  lemma SpelledSchemeAndRest(scheme: string, rest: string, query: string)
    requires !Malformed(scheme) && ':' !in scheme && rest != [] && rest[0] == ':' && (query == [] || query[0] == '?')
    ensures IsAbsoluteForm(Replaced(scheme) + (Replaced(rest) + query)) <==>
            (Decoded(scheme) == "http" || Decoded(scheme) == "https") && ReachesPath(rest + query)
  {
    NoNewColon(scheme);
    UnreservedText(scheme, "http");
    UnreservedText(scheme, "https");
    RestStays(rest, query);
    SchemeAndRest(Replaced(scheme), Replaced(rest) + query);
  }

  /** Behind the scheme, replacing keeps `://` and the slash on the same line. */
  lemma RestStays(rest: string, query: string)
    requires rest != [] && rest[0] == ':' && (query == [] || query[0] == '?')
    ensures var x := Replaced(rest) + query;
            x != [] && x[0] == ':' && (ReachesPath(x) <==> ReachesPath(rest + query))
  {
    var p := rest[1..];
    PlainStep(rest, query);
    AfterColon(Replaced(p) + query);
    AfterColon(p + query);
    SlashStays(p, query);
    if p + query != [] && (p + query)[0] == '/' {
      SecondSlashStays(p[1..], query);
      AfterSlash(Replaced(p[1..]) + query);
      AfterSlash(p[1..] + query);
    }
  }

  predicate SlashThenPath(s: string) {
    s != [] && s[0] == '/' && LineReachesSlash(s[1..])
  }

  lemma SecondSlashStays(path: string, query: string)
    requires query == [] || query[0] == '?'
    ensures SlashThenPath(Replaced(path) + query) <==> SlashThenPath(path + query)
  {
    SlashStays(path, query);
    var y := path + query;
    if y != [] && y[0] == '/' {
      ReachStays(path[1..], query);
      assert y[1..] == path[1..] + query;
      assert (Replaced(path) + query)[1..] == Replaced(path[1..]) + query;
    }
  }

  predicate TwoSlashesThenPath(s: string) {
    s != [] && s[0] == '/' && SlashThenPath(s[1..])
  }

  lemma AfterSlash(s: string)
    ensures TwoSlashesThenPath(['/'] + s) <==> SlashThenPath(s)
  {
    assert (['/'] + s)[1..] == s;
  }

  lemma AfterColon(s: string)
    ensures ReachesPath([':'] + s) <==> TwoSlashesThenPath(s)
  {
    var t := [':'] + s;
    assert |t| >= 3 ==> t[3..] == s[1..][1..];
  }

  /**
   * Canonicalization is idempotent exactly on origin-form targets, on absolute-form targets,
   * and on everything that does not spell an absolute form with an escaped scheme.
   */
  lemma IdempotentExactlyWhen(url: string)
    ensures CanonicalRequestUrl(CanonicalRequestUrl(url)) == CanonicalRequestUrl(url) <==>
            (url != [] && url[0] == '/') || IsAbsoluteForm(url) || !SpellsAbsoluteForm(url)
  {
    if (url != [] && url[0] == '/') || IsAbsoluteForm(url) {
      RequestTargetsAreIdempotent(url);
    } else {
      IdempotentExactlyWhenNotAbsolute(url);
      AbsoluteExactlyWhenSpelled(url);
    }
  }

  lemma AbsoluteExactlyWhenSpelled(url: string)
    requires !(url != [] && url[0] == '/') && !IsAbsoluteForm(url)
    ensures IsAbsoluteForm(CanonicalRequestUrl(url)) <==> SpellsAbsoluteForm(url)
  {
    OnlyTheWellFormedPathChanges(url);
    PathHasNoQuestionMark(url);
    assert url == Path(url) + Query(url);
    if !Malformed(Path(url)) {
      SpellsExactlyWhenAbsolute(Path(url), Query(url));
    }
  }
}
