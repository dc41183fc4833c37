/**
 * The browser-side string helpers: reading one cookie out of the cookie
 * header, guessing the visitor's language, and rewriting the current path
 * when the visitor switches language.
 */
module ClientScripts {
  import opened Wrappers
  import opened Text

  /** `s.startsWith(prefix)`, equivalently `s.indexOf(prefix) === 0`. */
  predicate StartsWith(s: string, prefix: string)
  {
    |prefix| <= |s| && s[..|prefix|] == prefix
  }

  // ---------------------------------------------------------------------
  // getCookie
  // ---------------------------------------------------------------------

  /** The segment with its leading space characters removed (only ' ', no other whitespace). */
  function TrimLeadingSpaces(c: string): (r: string)
    ensures |r| <= |c|
    decreases |c|
  {
    if |c| > 0 && c[0] == ' ' then TrimLeadingSpaces(c[1..]) else c
  }

  /** Trimming leaves a suffix that does not start with a space, and removes only spaces. */
  lemma {:induction false} TrimLeadingSpacesSpec(c: string)
    ensures var r := TrimLeadingSpaces(c);
      && r == c[|c| - |r|..]
      && (|r| == 0 || r[0] != ' ')
      && forall k :: 0 <= k < |c| - |r| ==> c[k] == ' '
    decreases |c|
  {
    if |c| > 0 && c[0] == ' ' {
      TrimLeadingSpacesSpec(c[1..]);
      assert forall k :: 1 <= k < |c| ==> c[k] == c[1..][k - 1];
    }
  }

  /**
   * The cookie lookup over the `;`-separated segments: the text after `key`
   * in the first segment that starts with `key` once its leading spaces are
   * removed. None when no segment does.
   */
  function CookieLookup(segments: seq<string>, key: string): (r: Option<string>)
    ensures r.None? <==> forall k :: 0 <= k < |segments| ==> !StartsWith(TrimLeadingSpaces(segments[k]), key)
    decreases |segments|
  {
    if |segments| == 0 then None
    else
      var c := TrimLeadingSpaces(segments[0]);
      assert forall k :: 1 <= k < |segments| ==> segments[k] == segments[1..][k - 1];
      if StartsWith(c, key) then Some(c[|key|..]) else CookieLookup(segments[1..], key)
  }

  /** A found value comes from the first segment that matches. */
  lemma {:induction false} CookieLookupFindsFirst(segments: seq<string>, key: string) returns (i: nat)
    requires CookieLookup(segments, key).Some?
    ensures i < |segments| && StartsWith(TrimLeadingSpaces(segments[i]), key)
    ensures CookieLookup(segments, key).value == TrimLeadingSpaces(segments[i])[|key|..]
    ensures forall j :: 0 <= j < i ==> !StartsWith(TrimLeadingSpaces(segments[j]), key)
    decreases |segments|
  {
    if StartsWith(TrimLeadingSpaces(segments[0]), key) {
      i := 0;
    } else {
      var rest := CookieLookupFindsFirst(segments[1..], key);
      i := rest + 1;
      assert forall j :: 1 <= j < i ==> segments[j] == segments[1..][j - 1];
    }
  }

  /** The first matching segment is the one whose value is returned. */
  lemma {:induction false} FirstMatchIsFound(segments: seq<string>, key: string, i: nat)
    requires i < |segments| && StartsWith(TrimLeadingSpaces(segments[i]), key)
    requires forall j :: 0 <= j < i ==> !StartsWith(TrimLeadingSpaces(segments[j]), key)
    ensures CookieLookup(segments, key) == Some(TrimLeadingSpaces(segments[i])[|key|..])
    decreases i
  {
    if i > 0 {
      assert forall j :: 0 <= j < i - 1 ==> segments[1..][j] == segments[j + 1];
      FirstMatchIsFound(segments[1..], key, i - 1);
    }
  }

  /** `getCookie(name)`: one pass over the segments, trimming each in turn. */
  method GetCookie(cookie: string, name: string) returns (r: Option<string>)
    ensures r == CookieLookup(Split(cookie, ';'), name + "=")
  {
    var nameEQ := name + "=";
    var ca := Split(cookie, ';');
    for i := 0 to |ca|
      invariant CookieLookup(ca, nameEQ) == CookieLookup(ca[i..], nameEQ)
    {
      var c := ca[i];
      while |c| > 0 && c[0] == ' '
        invariant TrimLeadingSpaces(c) == TrimLeadingSpaces(ca[i])
        decreases |c|
      {
        c := c[1..];
      }
      assert ca[i..][1..] == ca[i + 1..];
      if StartsWith(c, nameEQ) {
        return Some(c[|nameEQ|..]);
      }
    }
    return None;
  }

  /** A cookie set without `;` in it is read back intact. */
  lemma CookieRoundTrip(name: string, value: string)
    requires ';' !in name && ';' !in value
    requires |name| == 0 || name[0] != ' '
    ensures CookieLookup(Split(name + "=" + value, ';'), name + "=") == Some(value)
  {
    var s := name + "=" + value;
    assert ';' !in s by {
      assert forall k :: 0 <= k < |s| ==> s[k] == (if k < |name| then name[k] else if k == |name| then '=' else value[k - |name| - 1]);
    }
    SplitWithoutSeparator(s, ';');
    assert s[..|name + "="|] == name + "=";
  }

  /** `n` space characters. */
  function Spaces(n: nat): (r: string)
    ensures |r| == n && forall k :: 0 <= k < n ==> r[k] == ' '
  {
    seq(n, _ => ' ')
  }

  /**
   * `=` is part of the key: a segment whose name has an extra character in
   * front (`xname=`) or behind (`names=`) is not the `name` cookie.
   */
  lemma KeyIncludesEquals(name: string, front: char, behind: char, v: string, w: string)
    requires |name| > 0 && name[0] != ' ' && '=' !in name
    requires front != ' ' && behind != '='
    ensures CookieLookup([[front] + name + "=" + v, name + [behind] + "=" + w], name + "=") == None
  {
    var key := name + "=";
    var first := [front] + name + "=" + v;
    var second := name + [behind] + "=" + w;
    assert !StartsWith(first, key) by {
      assert first[|name|] == name[|name| - 1] && name[|name| - 1] in name;
      MismatchIsNotPrefix(first, key, |name|);
    }
    assert !StartsWith(second, key) by {
      assert second[|name|] == behind;
      MismatchIsNotPrefix(second, key, |name|);
    }
    NoSegmentMatches(first, second, key);
  }

  /** Two segments without leading spaces, neither starting with the key, hold no cookie. */
  lemma NoSegmentMatches(first: string, second: string, key: string)
    requires |first| > 0 && first[0] != ' ' && |second| > 0 && second[0] != ' '
    requires !StartsWith(first, key) && !StartsWith(second, key)
    ensures CookieLookup([first, second], key) == None
  {
    var segments := [first, second];
    assert TrimLeadingSpaces(first) == first;
    assert TrimLeadingSpaces(second) == second;
    assert forall k :: 0 <= k < |segments| ==> !StartsWith(TrimLeadingSpaces(segments[k]), key);
  }

  /** One differing position rules a prefix out. */
  lemma MismatchIsNotPrefix(s: string, prefix: string, i: nat)
    requires i < |prefix| && i < |s| && s[i] != prefix[i]
    ensures !StartsWith(s, prefix)
  {
  }

  /**
   * Only leading spaces go: the value is everything after `name=`, later `=`
   * signs and trailing spaces included, in the first segment that matches.
   */
  lemma ValueIsVerbatim(before: seq<string>, name: string, pad: nat, value: string, after: seq<string>)
    requires |name| > 0 && name[0] != ' '
    requires forall j :: 0 <= j < |before| ==> !StartsWith(TrimLeadingSpaces(before[j]), name + "=")
    ensures CookieLookup(before + [Spaces(pad) + name + "=" + value] + after, name + "=") == Some(value)
  {
    var segment := Spaces(pad) + name + "=" + value;
    var segments := before + [segment] + after;
    TrimLeadingSpacesSpec(segment);
    var trimmed := TrimLeadingSpaces(segment);
    assert trimmed == name + "=" + value by {
      var removed := |segment| - |trimmed|;
      assert trimmed == segment[removed..];
      assert segment[pad] == name[0];
      assert segment[pad..] == name + "=" + value;
    }
    assert segments[|before|] == segment;
    assert forall j :: 0 <= j < |before| ==> segments[j] == before[j];
    FirstMatchIsFound(segments, name + "=", |before|);
    assert trimmed[|name + "="|..] == value;
  }

  /** In a header `other; name=value`, the second cookie is found past the first. */
  lemma SecondCookieFound(other: string, name: string, value: string)
    requires ';' !in other && ';' !in name && ';' !in value
    requires |name| > 0 && name[0] != ' '
    requires !StartsWith(TrimLeadingSpaces(other), name + "=")
    ensures CookieLookup(Split(other + "; " + name + "=" + value, ';'), name + "=") == Some(value)
  {
    var rest := Spaces(1) + name + "=" + value;
    assert other + "; " + name + "=" + value == other + [';'] + rest;
    NoSeparatorInCookie(name, value);
    SplitInTwo(other, rest);
    ValueIsVerbatim([other], name, 1, value, []);
    assert [other] + [rest] + [] == [other, rest];
  }

  /** A one-space-padded `name=value` holds no `;` when neither part does. */
  lemma NoSeparatorInCookie(name: string, value: string)
    requires ';' !in name && ';' !in value
    ensures ';' !in Spaces(1) + name + "=" + value
  {
    var rest := Spaces(1) + name + "=" + value;
    assert forall k :: 0 <= k < |rest| ==>
      rest[k] == (if k == 0 then ' ' else if k <= |name| then name[k - 1] else if k == |name| + 1 then '=' else value[k - |name| - 2]);
  }

  /** Two pieces without `;`, joined by one, split back into those two. */
  lemma SplitInTwo(a: string, b: string)
    requires ';' !in a && ';' !in b
    ensures Split(a + [';'] + b, ';') == [a, b]
  {
    SplitAtFirst(a, b, ';');
    SplitWithoutSeparator(b, ';');
  }

  // ---------------------------------------------------------------------
  // detectUserLanguage
  // ---------------------------------------------------------------------

  /** What the script raises when the browser reports no language at all. */
  datatype ScriptError = TypeError

  /**
   * `navigator.language || navigator.userLanguage`: an absent (undefined)
   * or empty first value gives way to the second.
   */
  function BrowserLanguage(language: Option<string>, userLanguage: Option<string>): Option<string>
  {
    if language.Some? && language.value != "" then language else userLanguage
  }

  /** The supported languages, in the order they are tried. */
  const SupportedLanguages: seq<string> := ["en", "bn"]

  /** The first supported language the browser language starts with, else English. */
  function LanguageFor(browserLanguage: string): (r: string)
    ensures r == "en" || r == "bn"
    ensures r == "bn" <==> StartsWith(browserLanguage, "bn")
    ensures r == "en" <==> !StartsWith(browserLanguage, "bn")
  {
    if StartsWith(browserLanguage, "en") then "en"
    else if StartsWith(browserLanguage, "bn") then "bn"
    else "en"
  }

  /**
   * `detectUserLanguage()`: succeeds with "en" or "bn" whenever the browser
   * reports a language, and raises when it reports neither value.
   */
  method DetectUserLanguage(language: Option<string>, userLanguage: Option<string>)
    returns (r: Result<string, ScriptError>)
    ensures BrowserLanguage(language, userLanguage).None? ==> r == Err(TypeError)
    ensures BrowserLanguage(language, userLanguage).Some? ==>
      r == Ok(LanguageFor(BrowserLanguage(language, userLanguage).value))
  {
    var browserLang := BrowserLanguage(language, userLanguage);
    if browserLang.None? {
      return Err(TypeError);
    }
    for i := 0 to |SupportedLanguages|
      invariant forall j :: 0 <= j < i ==> !StartsWith(browserLang.value, SupportedLanguages[j])
    {
      var lang := SupportedLanguages[i];
      if StartsWith(browserLang.value, lang) {
        return Ok(lang);
      }
    }
    assert SupportedLanguages[0] == "en" && SupportedLanguages[1] == "bn";
    return Ok("en");
  }

  // ---------------------------------------------------------------------
  // The language switch: `/en` or `/bn` prefix rewrite.
  // ---------------------------------------------------------------------

  /** `path.replace(/^\/(en|bn)/, '')`: at most one leading `/en` or `/bn` goes. */
  function StripLanguagePrefix(path: string): (r: string)
    ensures path == r || path == "/en" + r || path == "/bn" + r
    ensures r == path <==> !(StartsWith(path, "/en") || StartsWith(path, "/bn"))
  {
    if StartsWith(path, "/en") || StartsWith(path, "/bn") then path[3..] else path
  }

  /** The path the visitor is sent to after choosing `language`. */
  function RewriteLanguagePath(path: string, language: string): (r: string)
    ensures language == "en" ==> r == StripLanguagePrefix(path)
    ensures language != "en" ==> StartsWith(r, "/" + language)
    ensures language != "en" ==> r[|language| + 1..] == StripLanguagePrefix(path)
  {
    var newPath := StripLanguagePrefix(path);
    if language != "en" then "/" + language + newPath else newPath
  }

  /** The prefix match is plain text: `/english` loses its first three characters. */
  lemma PrefixMatchIsPlain()
    ensures RewriteLanguagePath("/english", "en") == "glish"
    ensures RewriteLanguagePath("/bnx/page", "bn") == "/bnx/page"
  {
    assert StartsWith("/english", "/en");
    assert StartsWith("/bnx/page", "/bn");
  }

  /** Only one prefix is removed: a doubled `/en/en` keeps its second one. */
  lemma OnePrefixRemoved()
    ensures RewriteLanguagePath("/en/en/about", "en") == "/en/about"
    ensures RewriteLanguagePath("/bn/en/about", "bn") == "/bn/en/about"
  {
    assert StartsWith("/en/en/about", "/en");
    assert StartsWith("/bn/en/about", "/bn");
  }

  /** Switching to Bangla twice gives the path switching once gives. */
  lemma BanglaRewriteIdempotent(path: string)
    ensures RewriteLanguagePath(RewriteLanguagePath(path, "bn"), "bn") == RewriteLanguagePath(path, "bn")
  {
    var once := RewriteLanguagePath(path, "bn");
    assert once[..3] == "/bn";
    assert once[3..] == StripLanguagePrefix(path);
  }

  /** Every other language has a path where switching twice differs from switching once. */
  lemma RewriteNotIdempotent(language: string) returns (path: string)
    requires language != "bn"
    ensures RewriteLanguagePath(RewriteLanguagePath(path, language), language) != RewriteLanguagePath(path, language)
  {
    if language == "en" {
      path := "/en/en";
      assert StartsWith(path, "/en");
      assert StartsWith("/en", "/en");
      assert RewriteLanguagePath(path, language) == "/en";
    } else {
      path := "";
      var once := RewriteLanguagePath(path, language);
      assert once == "/" + language;
      var stripped := StripLanguagePrefix(once);
      assert once[1..] == language;
      assert |stripped| > 0;
      assert |RewriteLanguagePath(once, language)| == |once| + |stripped|;
    }
  }

  /** Switching to Bangla and back to English leaves the path without its language prefix. */
  lemma SwitchBackToEnglish(path: string)
    ensures RewriteLanguagePath(RewriteLanguagePath(path, "bn"), "en") == StripLanguagePrefix(path)
  {
    var once := RewriteLanguagePath(path, "bn");
    assert once[..3] == "/bn";
  }
}
