/**
 * The canonical form of a request URL (src/config/http.js; sections 6.2.2.1 and 6.2.2.2 of
 * RFC 3986): escaped unreserved characters are decoded, other escapes are upper-cased.
 */
module CanonicalUrl {
  import opened Options

  // ---------------------------------------------------------------- the code

  predicate IsHex(c: char) {
    '0' <= c <= '9' || 'A' <= c <= 'F' || 'a' <= c <= 'f'
  }

  function HexValue(c: char): (n: nat)
    requires IsHex(c)
    ensures n < 16
  {
    if '0' <= c <= '9' then c as nat - '0' as nat
    else if 'A' <= c <= 'F' then c as nat - 'A' as nat + 10
    else c as nat - 'a' as nat + 10
  }

  function HexUpper(c: char): char {
    if 'a' <= c <= 'f' then c - 'a' + 'A' else c
  }

  predicate IsUnreserved(c: char) {
    'A' <= c <= 'Z' || 'a' <= c <= 'z' || '0' <= c <= '9' || c == '-' || c == '.' || c == '_' || c == '~'
  }

  /** RFC 3986, sections 2.1 and 2.3: hexadecimal digits, and the characters that need no escaping. */
  lemma CharactersOfRfc3986(c: char, n: nat)
    requires n < 16
    ensures HexValue("0123456789ABCDEF"[n]) == n && HexValue("0123456789abcdef"[n]) == n
    ensures HexUpper("0123456789abcdef"[n]) == "0123456789ABCDEF"[n]
    ensures IsHex(c) <==> c in "0123456789ABCDEFabcdef"
    ensures IsUnreserved(c) <==> ('A' <= c <= 'Z' || 'a' <= c <= 'z' || '0' <= c <= '9' || c in "-._~")
    ensures !IsUnreserved('/') && !IsUnreserved('?') && !IsUnreserved('#') && !IsUnreserved('%') && !IsUnreserved(':')
  {
    HexDigitsAreHex(c);
  }

  lemma HexDigitsAreHex(c: char)
    ensures IsHex(c) <==> c in "0123456789ABCDEFabcdef"
  {
    var digits := "0123456789ABCDEFabcdef";
    assert forall i :: 0 <= i < 22 ==> IsHex(digits[i]);
    if IsHex(c) {
      assert digits[if '0' <= c <= '9' then (c - '0') as nat else if 'A' <= c <= 'F' then (c - 'A') as nat + 10 else (c - 'a') as nat + 16] == c;
    }
  }

  /** An escape starts here: a percent sign and two hexadecimal digits. */
  predicate EscapeAt(s: string, i: nat) {
    i + 2 < |s| && s[i] == '%' && IsHex(s[i + 1]) && IsHex(s[i + 2])
  }

  predicate Malformed(path: string) {
    exists i :: 0 <= i < |path| && path[i] == '%' && !EscapeAt(path, i)
  }

  /** What an escape is replaced by. */
  function Replacement(high: char, low: char): string
    requires IsHex(high) && IsHex(low)
  {
    var c := (16 * HexValue(high) + HexValue(low)) as char;
    if IsUnreserved(c) then [c] else ['%', HexUpper(high), HexUpper(low)]
  }

  /** Every escape replaced, left to right. */
  function Replaced(path: string): string {
    if path == [] then []
    else if EscapeAt(path, 0) then Replacement(path[1], path[2]) + Replaced(path[3..])
    else [path[0]] + Replaced(path[1..])
  }

  predicate IsLineTerminator(c: char) {
    c == '\n' || c == '\r' || c == '\U{2028}' || c == '\U{2029}'
  }

  /** ECMAScript's line terminators, which `.` does not match. */
  lemma LineTerminatorsOfEcmaScript(c: char)
    ensures IsLineTerminator(c) <==> c in ['\U{A}', '\U{D}', '\U{2028}', '\U{2029}']
  {
  }

  /** The first occurrence of c at or after `from`, or the length. */
  function IndexFrom(s: string, c: char, from: nat): (i: nat)
    requires from <= |s|
    ensures from <= i <= |s| && (i < |s| ==> s[i] == c)
    ensures forall j :: from <= j < i ==> s[j] != c
    decreases |s| - from
  {
    if from == |s| || s[from] == c then from else IndexFrom(s, c, from + 1)
  }

  /** Where the host starts in an absolute-form URL. */
  function HostAt(url: string): nat {
    if "http://" <= url then 7 else if "https://" <= url then 8 else 0
  }

  /** `https?://`, then anything on one line, then a slash. */
  predicate IsAbsoluteForm(url: string) {
    var host := HostAt(url);
    host > 0
    && var slash := IndexFrom(url, '/', host);
       slash < |url| && forall j :: host <= j < slash ==> !IsLineTerminator(url[j])
  }

  function Target(url: string): string {
    if url != [] && url[0] == '/' then url
    else if IsAbsoluteForm(url) then url[IndexFrom(url, '/', HostAt(url))..]
    else url
  }

  function Path(target: string): string {
    target[..IndexFrom(target, '?', 0)]
  }

  function Query(target: string): string {
    target[IndexFrom(target, '?', 0)..]
  }

  function CanonicalRequestUrl(url: string): string {
    var target := Target(url);
    if '%' !in target then target
    else if Malformed(Path(target)) then target
    else Replaced(Path(target)) + Query(target)
  }

  /** The path a security decision looks at: the matched route, or the path as canonicalized. */
  function RequestPath(route: Option<string>, url: string): string {
    if route.Some? && route.value != [] && route.value[0] == '/' then route.value
    else
      var canonical := CanonicalRequestUrl(url);
      var path := canonical[..FirstMark(canonical, 0)];
      if path != [] && path[0] == '/' then path else "/"
  }

  function FirstMark(s: string, from: nat): (i: nat)
    requires from <= |s|
    ensures from <= i <= |s| && (i < |s| ==> s[i] == '?' || s[i] == '#')
    ensures forall j :: from <= j < i ==> s[j] != '?' && s[j] != '#'
    decreases |s| - from
  {
    if from == |s| || s[from] == '?' || s[from] == '#' then from else FirstMark(s, from + 1)
  }

  // ---------------------------------------------------------------- what a path spells

  /** A path as RFC 3986 reads it: characters, and octets spelled as escapes. */
  datatype Token = Plain(c: char) | Escaped(octet: nat)

  function Parse(path: string): seq<Token> {
    if path == [] then []
    else if EscapeAt(path, 0) then [Escaped(16 * HexValue(path[1]) + HexValue(path[2]))] + Parse(path[3..])
    else [Plain(path[0])] + Parse(path[1..])
  }

  predicate IsToken(t: Token) {
    t.Escaped? ==> t.octet < 256
  }

  /** The normal spelling of one token: an unreserved octet is spelled as its character. */
  function Normal(t: Token): Token
    requires IsToken(t)
  {
    if t.Escaped? && IsUnreserved(t.octet as char) then Plain(t.octet as char) else t
  }

  predicate AllTokens(tokens: seq<Token>) {
    forall i :: 0 <= i < |tokens| ==> IsToken(tokens[i])
  }

  function NormalAll(tokens: seq<Token>): (normal: seq<Token>)
    requires AllTokens(tokens)
    ensures |normal| == |tokens| && forall i :: 0 <= i < |tokens| ==> normal[i] == Normal(tokens[i])
  {
    seq(|tokens|, i requires 0 <= i < |tokens| => Normal(tokens[i]))
  }

  /** What a path spells, up to escaping unreserved characters and the case of escapes. */
  function NormalTokens(path: string): seq<Token> {
    ParseTokens(path);
    NormalAll(Parse(path))
  }

  /** The octet or character a token stands for. */
  function Meaning(t: Token): char
    requires IsToken(t)
  {
    if t.Escaped? then t.octet as char else t.c
  }

  /** The percent-decoded path. */
  function Decoded(path: string): string {
    ParseTokens(path);
    var tokens := Parse(path);
    seq(|tokens|, i requires 0 <= i < |tokens| => Meaning(tokens[i]))
  }

  lemma {:induction false} ParseTokens(path: string)
    ensures AllTokens(Parse(path))
    decreases |path|
  {
    if path != [] {
      if EscapeAt(path, 0) {
        ParseTokens(path[3..]);
      } else {
        ParseTokens(path[1..]);
      }
    }
  }

  // ---------------------------------------------------------------- replacing, token by token

  lemma TailIsWellFormed(path: string, k: nat)
    requires !Malformed(path) && k <= |path|
    ensures !Malformed(path[k..])
  {
    forall i | 0 <= i < |path[k..]| && path[k..][i] == '%' ensures EscapeAt(path[k..], i) {
      assert path[k + i] == '%' && EscapeAt(path, k + i);
    }
  }

  lemma HexUpperKeepsTheValue(c: char)
    requires IsHex(c)
    ensures IsHex(HexUpper(c)) && HexValue(HexUpper(c)) == HexValue(c) && HexUpper(HexUpper(c)) == HexUpper(c)
  {
  }

  /** Parsing what one token was replaced by gives its normal form, then the rest. */
  lemma ReplacementParses(high: char, low: char, rest: string)
    requires IsHex(high) && IsHex(low)
    ensures Parse(Replacement(high, low) + rest) == [Normal(Escaped(16 * HexValue(high) + HexValue(low)))] + Parse(rest)
    ensures Replaced(Replacement(high, low) + rest) == Replacement(high, low) + Replaced(rest)
    ensures !Malformed(rest) ==> !Malformed(Replacement(high, low) + rest)
  {
    HexUpperKeepsTheValue(high);
    HexUpperKeepsTheValue(low);
    var r := Replacement(high, low);
    var s := r + rest;
    assert s[|r|..] == rest;
    if !Malformed(rest) {
      forall i | 0 <= i < |s| && s[i] == '%' ensures EscapeAt(s, i) {
        if i >= |r| {
          assert rest[i - |r|] == '%' && EscapeAt(rest, i - |r|);
        }
      }
    }
  }

  lemma PlainParses(c: char, rest: string)
    requires c != '%'
    ensures Parse([c] + rest) == [Plain(c)] + Parse(rest)
    ensures Replaced([c] + rest) == [c] + Replaced(rest)
    ensures !Malformed(rest) ==> !Malformed([c] + rest)
  {
    var s := [c] + rest;
    assert s[1..] == rest;
    if !Malformed(rest) {
      forall i | 0 <= i < |s| && s[i] == '%' ensures EscapeAt(s, i) {
        assert rest[i - 1] == '%' && EscapeAt(rest, i - 1);
      }
    }
  }

  lemma NormalCons(t: Token, rest: seq<Token>)
    requires IsToken(t) && AllTokens(rest)
    ensures AllTokens([t] + rest) && NormalAll([t] + rest) == [Normal(t)] + NormalAll(rest)
  {
  }

  /** Replacing normalizes each token and nothing else: no escape is assembled, none is lost. */
  lemma {:induction false} ReplacedParses(path: string)
    requires !Malformed(path)
    ensures AllTokens(Parse(path)) && Parse(Replaced(path)) == NormalAll(Parse(path))
    decreases |path|
  {
    if path != [] {
      if EscapeAt(path, 0) {
        TailIsWellFormed(path, 3);
        ReplacedParses(path[3..]);
        ReplacementParses(path[1], path[2], Replaced(path[3..]));
        NormalCons(Escaped(16 * HexValue(path[1]) + HexValue(path[2])), Parse(path[3..]));
      } else {
        assert path[0] != '%';
        TailIsWellFormed(path, 1);
        ReplacedParses(path[1..]);
        PlainParses(path[0], Replaced(path[1..]));
        NormalCons(Plain(path[0]), Parse(path[1..]));
      }
    }
  }

  /** A replaced path is well formed, and replacing again changes nothing. */
  lemma {:induction false} ReplacedAgain(path: string)
    requires !Malformed(path)
    ensures !Malformed(Replaced(path)) && Replaced(Replaced(path)) == Replaced(path)
    decreases |path|
  {
    if path != [] {
      if EscapeAt(path, 0) {
        TailIsWellFormed(path, 3);
        ReplacedAgain(path[3..]);
        ReplacementParses(path[1], path[2], Replaced(path[3..]));
      } else {
        assert path[0] != '%';
        TailIsWellFormed(path, 1);
        ReplacedAgain(path[1..]);
        PlainParses(path[0], Replaced(path[1..]));
      }
    }
  }

  /** The percent-decoded path is the same before and after. */
  lemma DecodedPathIsKept(path: string)
    requires !Malformed(path)
    ensures Decoded(Replaced(path)) == Decoded(path)
  {
    ReplacedParses(path);
    ParseTokens(Replaced(path));
    var before, after := Parse(path), Parse(Replaced(path));
    forall i | 0 <= i < |before| ensures Meaning(after[i]) == Meaning(before[i]) {
      assert after[i] == Normal(before[i]);
    }
  }

  lemma NoUnreservedEscapeIsLeft(path: string)
    requires !Malformed(path)
    ensures forall i :: 0 <= i < |Parse(Replaced(path))| ==>
              var t := Parse(Replaced(path))[i];
              t.Escaped? ==> t.octet < 256 && !IsUnreserved(t.octet as char)
  {
    ReplacedParses(path);
  }

  // ---------------------------------------------------------------- a normal form

  function HexDigit(n: nat): char
    requires n < 16
  {
    if n < 10 then '0' + n as char else 'A' + (n - 10) as char
  }

  function Spell(tokens: seq<Token>): string
    requires AllTokens(tokens)
  {
    if tokens == [] then [] else SpellOne(tokens[0]) + Spell(tokens[1..])
  }

  function SpellOne(t: Token): string
    requires IsToken(t)
  {
    if t.Escaped? then ['%', HexDigit(t.octet / 16), HexDigit(t.octet % 16)] else [t.c]
  }

  lemma ReplacementIsSpelled(high: char, low: char)
    requires IsHex(high) && IsHex(low)
    ensures Replacement(high, low) == SpellOne(Normal(Escaped(16 * HexValue(high) + HexValue(low))))
  {
    HexUpperIsTheDigit(high);
    HexUpperIsTheDigit(low);
    var octet := 16 * HexValue(high) + HexValue(low);
    assert octet / 16 == HexValue(high) && octet % 16 == HexValue(low);
  }

  lemma HexUpperIsTheDigit(c: char)
    requires IsHex(c)
    ensures HexUpper(c) == HexDigit(HexValue(c))
  {
  }

  lemma {:induction false} ReplacedIsSpelled(path: string)
    requires !Malformed(path)
    ensures AllTokens(Parse(path)) && Replaced(path) == Spell(NormalAll(Parse(path)))
    decreases |path|
  {
    ParseTokens(path);
    if path != [] {
      if EscapeAt(path, 0) {
        TailIsWellFormed(path, 3);
        ReplacedIsSpelled(path[3..]);
        assert NormalAll(Parse(path))[1..] == NormalAll(Parse(path[3..]));
        ReplacementIsSpelled(path[1], path[2]);
      } else {
        TailIsWellFormed(path, 1);
        ReplacedIsSpelled(path[1..]);
        assert NormalAll(Parse(path))[1..] == NormalAll(Parse(path[1..]));
      }
    }
  }

  /**
   * Two well-formed paths have one canonical form exactly when they spell the same tokens up
   * to escaping unreserved characters and the case of hexadecimal digits.
   */
  lemma CanonicalExactlyWhenEquivalent(p: string, q: string)
    requires !Malformed(p) && !Malformed(q)
    ensures Replaced(p) == Replaced(q) <==> NormalTokens(p) == NormalTokens(q)
  {
    ReplacedParses(p);
    ReplacedParses(q);
    ReplacedIsSpelled(p);
    ReplacedIsSpelled(q);
  }

  // ---------------------------------------------------------------- whole URLs

  lemma ReplacedWithoutPercent(path: string)
    requires '%' !in path
    ensures Replaced(path) == path
    decreases |path|
  {
    if path != [] {
      assert path[0] in path;
      forall c | c in path[1..] ensures c != '%' {
        assert c in path;
      }
      ReplacedWithoutPercent(path[1..]);
    }
  }

  /** Below its target, a URL changes only in a well-formed path; the query never does. */
  lemma OnlyTheWellFormedPathChanges(url: string)
    ensures var t := Target(url);
            CanonicalRequestUrl(url) == (if Malformed(Path(t)) then Path(t) else Replaced(Path(t))) + Query(t)
  {
    var t := Target(url);
    assert t == Path(t) + Query(t);
    if '%' !in t {
      forall c | c in Path(t) ensures c != '%' {
        assert c in t;
      }
      forall i | 0 <= i < |Path(t)| ensures Path(t)[i] != '%' {
        assert Path(t)[i] in Path(t);
      }
      ReplacedWithoutPercent(Path(t));
    }
  }

  /** Replacing introduces no '?' and keeps a leading slash and what is in the path. */
  lemma {:induction false} ReplacedCharacters(path: string)
    ensures '?' in Replaced(path) ==> '?' in path
    ensures path != [] ==> Replaced(path) != []
    ensures path != [] && path[0] == '/' ==> Replaced(path)[0] == '/'
    decreases |path|
  {
    if path != [] {
      var k := if EscapeAt(path, 0) then 3 else 1;
      ReplacedCharacters(path[k..]);
      if '?' in path[k..] {
        assert '?' in path;
      }
    }
  }

  lemma QuerySplits(path: string, query: string)
    requires '?' !in path && (query == [] || query[0] == '?')
    ensures Path(path + query) == path && Query(path + query) == query
  {
    var s := path + query;
    forall j | 0 <= j < |path| ensures s[j] != '?' {
      assert s[j] in path;
    }
    IndexIs(s, '?', |path|);
  }

  lemma IndexIs(s: string, c: char, k: nat)
    requires k <= |s| && (forall j :: 0 <= j < k ==> s[j] != c) && (k < |s| ==> s[k] == c)
    ensures IndexFrom(s, c, 0) == k
  {
    var i := IndexFrom(s, c, 0);
    assert !(i < k) && !(k < i);
  }

  lemma PathHasNoQuestionMark(target: string)
    ensures '?' !in Path(target) && (Query(target) == [] || Query(target)[0] == '?')
  {
  }

  /** What the second pass starts from: the first pass's result, as if it were a target. */
  lemma SecondPassKeepsATarget(url: string)
    ensures var v := CanonicalRequestUrl(url);
            (if Malformed(Path(v)) then Path(v) else Replaced(Path(v))) + Query(v) == v
  {
    var t, v := Target(url), CanonicalRequestUrl(url);
    OnlyTheWellFormedPathChanges(url);
    PathHasNoQuestionMark(t);
    ReplacedCharacters(Path(t));
    if Malformed(Path(t)) {
      QuerySplits(Path(t), Query(t));
    } else {
      QuerySplits(Replaced(Path(t)), Query(t));
      ReplacedAgain(Path(t));
    }
  }

  /**
   * Canonicalization is idempotent exactly when its result is not in absolute form: the one
   * thing a second pass can change is to drop a scheme and host that the first pass decoded.
   */
  lemma IdempotentExactlyWhenNotAbsolute(url: string)
    ensures var v := CanonicalRequestUrl(url);
            CanonicalRequestUrl(v) == v <==> !IsAbsoluteForm(v)
  {
    var v := CanonicalRequestUrl(url);
    OnlyTheWellFormedPathChanges(v);
    SecondPassKeepsATarget(url);
    if IsAbsoluteForm(v) {
      SlashIsKept(v);
    }
  }

  lemma SlashIsKept(url: string)
    requires Target(url) != [] && Target(url)[0] == '/'
    ensures CanonicalRequestUrl(url) != [] && CanonicalRequestUrl(url)[0] == '/'
  {
    OnlyTheWellFormedPathChanges(url);
    var t := Target(url);
    assert IndexFrom(t, '?', 0) > 0;
    assert Path(t)[0] == '/';
    ReplacedCharacters(Path(t));
  }

  /** Every origin-form or absolute-form request target, which is all a router is sent, is safe. */
  lemma RequestTargetsAreIdempotent(url: string)
    requires (url != [] && url[0] == '/') || IsAbsoluteForm(url)
    ensures CanonicalRequestUrl(CanonicalRequestUrl(url)) == CanonicalRequestUrl(url)
  {
    SlashIsKept(url);
    IdempotentExactlyWhenNotAbsolute(url);
  }

  lemma EscapedFirstLetter(rest: string)
    requires '%' !in rest && '?' !in rest
    ensures CanonicalRequestUrl("%68" + rest) == "h" + rest
  {
    var url := "%68" + rest;
    OneEscape('6', '8', rest);
    OnlyTheWellFormedPathChanges(url);
    NoQuery(url);
    assert Target(url) == url;
  }

  lemma NoQuery(url: string)
    requires '?' !in url
    ensures Path(url) == url && Query(url) == []
  {
    QuerySplits(url, []);
    assert url + [] == url;
  }

  lemma OneEscape(high: char, low: char, rest: string)
    requires IsHex(high) && IsHex(low) && '%' !in rest
    ensures var path := ['%', high, low] + rest;
            !Malformed(path) && Replaced(path) == Replacement(high, low) + rest
  {
    var path := ['%', high, low] + rest;
    assert EscapeAt(path, 0) && path[3..] == rest;
    forall j | 3 <= j < |path| ensures path[j] != '%' {
      assert path[j] in rest;
    }
    assert path[1] != '%' && path[2] != '%';
    ReplacedWithoutPercent(rest);
  }

  /** A URL whose scheme is spelled with an escape loses its host only on a second pass. */
  lemma EscapedSchemeIsNotIdempotent()
    ensures CanonicalRequestUrl("%68" + "ttp://h/p") == "http://h/p"
    ensures CanonicalRequestUrl("http://h/p") == "/p"
  {
    EscapedFirstLetter("ttp://h/p");
    assert "h" + "ttp://h/p" == "http://h/p";
    SecondPass();
  }

  lemma SecondPass()
    ensures CanonicalRequestUrl("http://h/p") == "/p"
  {
    var url := "http://h/p";
    assert HostAt(url) == 7 && IndexFrom(url, '/', 7) == 8 && url[8..] == "/p";
    assert '%' !in "/p";
  }

  lemma EscapeThen(high: char, low: char, rest: string)
    requires IsHex(high) && IsHex(low)
    ensures Replaced(['%', high, low] + rest) == Replacement(high, low) + Replaced(rest)
    ensures !Malformed(rest) ==> !Malformed(['%', high, low] + rest)
  {
    var path := ['%', high, low] + rest;
    assert EscapeAt(path, 0) && path[3..] == rest;
    if !Malformed(rest) {
      forall i | 0 <= i < |path| && path[i] == '%' ensures EscapeAt(path, i) {
        if i >= 3 {
          assert rest[i - 3] == '%' && EscapeAt(rest, i - 3);
        }
      }
    }
  }

  /** An escaped letter is decoded, an escaped slash is upper-cased, and the query is as it was. */
  lemma LetterAndSlash(query: string)
    requires query == [] || query[0] == '?'
    ensures CanonicalRequestUrl("/%61%2f" + query) == "/a%2F" + query
  {
    EscapeThen('2', 'f', []);
    EscapeThen('6', '1', ['%', '2', 'f'] + []);
    PlainParses('/', ['%', '6', '1'] + (['%', '2', 'f'] + []));
    assert "/%61%2f" == ['/'] + (['%', '6', '1'] + (['%', '2', 'f'] + []));
    assert Replacement('6', '1') == "a" && Replacement('2', 'f') == "%2F";
    assert "/a%2F" == "/" + ("a" + ("%2F" + Replaced([])));
    CanonicalOriginForm("/%61%2f", query);
  }

  // ---------------------------------------------------------------- the path of a decision

  /** A matched request is decided by its route; any other by its canonical path up to the query or fragment. */
  lemma RequestPathExactly(route: Option<string>, url: string, path: string, rest: string)
    requires CanonicalRequestUrl(url) == path + rest && '?' !in path && '#' !in path
    requires rest == [] || rest[0] == '?' || rest[0] == '#'
    ensures RequestPath(route, url) ==
            if route.Some? && "/" <= route.value then route.value else if "/" <= path then path else "/"
  {
    var url' := CanonicalRequestUrl(url);
    forall j | 0 <= j < |path| ensures url'[j] != '?' && url'[j] != '#' {
      assert url'[j] == path[j] && path[j] in path;
    }
    var k := FirstMark(url', 0);
    assert rest != [] ==> url'[|path|] == rest[0];
    assert k == |path| by {
      assert !(k < |path|) && !(|path| < k);
    }
    assert url'[..k] == path;
  }

  /** The path decided on starts with a slash; unless it is a route, it has no query. */
  lemma RequestPathIsAPath(route: Option<string>, url: string)
    ensures var path := RequestPath(route, url);
            && path != [] && path[0] == '/'
            && (route != Some(path) ==> '?' !in path && '#' !in path)
  {
  }

  /** For an unmatched request, spelling the path another way or changing its query decides alike. */
  lemma EquivalentSpellingsDecideAlike(p: string, q: string, query: string, other: string)
    requires p != [] && p[0] == '/' && q != [] && q[0] == '/' && '?' !in p && '?' !in q
    requires !Malformed(p) && !Malformed(q) && NormalTokens(p) == NormalTokens(q)
    requires (query == [] || query[0] == '?') && (other == [] || other[0] == '?')
    ensures RequestPath(None, p + query) == RequestPath(None, q + other)
  {
    CanonicalExactlyWhenEquivalent(p, q);
    CanonicalOriginForm(p, query);
    CanonicalOriginForm(q, other);
    MarkEndsBeforeTheQuery(Replaced(p), query);
    MarkEndsBeforeTheQuery(Replaced(p), other);
  }

  lemma CanonicalOriginForm(p: string, query: string)
    requires p != [] && p[0] == '/' && '?' !in p && !Malformed(p) && (query == [] || query[0] == '?')
    ensures CanonicalRequestUrl(p + query) == Replaced(p) + query
  {
    OnlyTheWellFormedPathChanges(p + query);
    QuerySplits(p, query);
  }

  lemma MarkEndsBeforeTheQuery(path: string, query: string)
    requires query == [] || query[0] == '?'
    ensures FirstMark(path + query, 0) == FirstMark(path, 0)
    ensures (path + query)[..FirstMark(path + query, 0)] == path[..FirstMark(path, 0)]
  {
    var s := path + query;
    var i, j := FirstMark(s, 0), FirstMark(path, 0);
    assert forall k :: 0 <= k < |path| ==> s[k] == path[k];
    assert j < |s| ==> s[j] == '?' || s[j] == '#';
    assert !(i < j) && !(j < i);
  }
}
