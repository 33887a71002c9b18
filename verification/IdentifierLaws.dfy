/** What normalising does to codes, names and domains, told on the texts themselves (btx_platform/intelligence.py). */
module IdentifierLaws {
  import opened Identifiers

  predicate Letter(c: char) { 'a' <= c <= 'z' || 'A' <= c <= 'Z' || '0' <= c <= '9' }

  function Small(c: char): char { if 'A' <= c <= 'Z' then c - 'A' + 'a' else c }

  lemma LowerOfParts(a: string, b: string)
    ensures Lower(a + b) == Lower(a) + Lower(b)
  {
  }

  lemma LettersAreAlnum(c: char)
    ensures IsAlnum(LowerChar(c)) <==> Letter(c)
    ensures LowerChar(c) == Small(c)
    ensures IsSpace(c) ==> !Letter(c) && LowerChar(c) == c
  {
  }

  /******* White space *******/

  predicate White(c: char) {
    c in {' ', '\t', '\n', '\U{0b}', '\U{0c}', '\r', '\U{1c}', '\U{1d}', '\U{1e}', '\U{1f}'}
  }

  predicate AllWhite(s: string) { forall i :: 0 <= i < |s| ==> White(s[i]) }

  lemma WhiteIsSpace(c: char)
    ensures White(c) <==> IsSpace(c)
  {
  }

  lemma {:induction false} LeftGoes(a: string, v: string)
    requires AllWhite(a) && (v == "" || !White(v[0]))
    ensures StripLeft(a + v) == v
  {
    if a == "" {
      assert a + v == v;
      if v != "" {
        WhiteIsSpace(v[0]);
      }
    } else {
      assert (a + v)[0] == a[0] && (a + v)[1..] == a[1..] + v;
      WhiteIsSpace(a[0]);
      LeftGoes(a[1..], v);
    }
  }

  lemma {:induction false} RightGoes(v: string, b: string)
    requires AllWhite(b) && (v == "" || !White(v[|v| - 1]))
    ensures StripRight(v + b) == v
  {
    if b == "" {
      assert v + b == v;
      if v != "" {
        WhiteIsSpace(v[|v| - 1]);
      }
    } else {
      var n := |b| - 1;
      assert (v + b)[|v| + n] == b[n] && (v + b)[..|v| + n] == v + b[..n];
      WhiteIsSpace(b[n]);
      RightGoes(v, b[..n]);
    }
  }

  /** Stripping takes the white space at both ends and nothing else. */
  lemma StripLaw(a: string, v: string, b: string)
    requires AllWhite(a) && AllWhite(b) && v != "" && !White(v[0]) && !White(v[|v| - 1])
    ensures Strip(a + v + b) == v && Strip(a) == ""
  {
    assert a + v + b == a + (v + b) && (v + b)[0] == v[0];
    LeftGoes(a, v + b);
    RightGoes(v, b);
    assert a + "" == a;
    LeftGoes(a, "");
  }

  /******* Codes: a filter *******/

  lemma {:induction false} KeepOfParts(a: string, b: string)
    ensures KeepAlnum(a + b) == KeepAlnum(a) + KeepAlnum(b)
  {
    if a == "" {
      assert a + b == b;
    } else {
      assert (a + b)[1..] == a[1..] + b && (a + b)[0] == a[0];
      KeepOfParts(a[1..], b);
      var first := if IsAlnum(a[0]) then [a[0]] else [];
      assert first + (KeepAlnum(a[1..]) + KeepAlnum(b)) == first + KeepAlnum(a[1..]) + KeepAlnum(b);
    }
  }

  lemma {:induction false} KeepDropsLeft(s: string)
    ensures KeepAlnum(Lower(StripLeft(s))) == KeepAlnum(Lower(s))
  {
    if s != "" && IsSpace(s[0]) {
      KeepDropsLeft(s[1..]);
      assert Lower(s)[1..] == Lower(s[1..]);
      LettersAreAlnum(s[0]);
    }
  }

  lemma {:induction false} KeepDropsRight(s: string)
    ensures KeepAlnum(Lower(StripRight(s))) == KeepAlnum(Lower(s))
  {
    if s != "" && IsSpace(s[|s| - 1]) {
      var before, last := s[..|s| - 1], [s[|s| - 1]];
      KeepDropsRight(before);
      assert s == before + last;
      LowerOfParts(before, last);
      KeepOfParts(Lower(before), Lower(last));
      LettersAreAlnum(s[|s| - 1]);
      assert KeepAlnum(Lower(last)) == [];
    }
  }

  predicate IsCode(t: IdType) { t in {HubSpotId, CageCode, Uei, PublicRecipientId} }

  lemma CodeIsKept(t: IdType, v: string)
    requires IsCode(t)
    ensures Normalize(t, v) == KeepAlnum(Lower(v))
  {
    KeepDropsRight(StripLeft(v));
    KeepDropsLeft(v);
  }

  /** A code is normalised letter by letter: letters and digits stay, in lower case and in order, and all else goes. */
  lemma CodeLaw(t: IdType, a: string, b: string, c: char)
    requires IsCode(t)
    ensures Normalize(t, a + b) == Normalize(t, a) + Normalize(t, b)
    ensures Normalize(t, [c]) == if Letter(c) then [Small(c)] else []
  {
    CodeIsKept(t, a + b);
    CodeIsKept(t, a);
    CodeIsKept(t, b);
    CodeIsKept(t, [c]);
    LowerOfParts(a, b);
    KeepOfParts(Lower(a), Lower(b));
    LettersAreAlnum(c);
    assert Lower([c]) == [LowerChar(c)];
  }

  /******* Names: words without company words *******/

  predicate IsName(t: IdType) { t in {LegalName, VerifiedAlias} }

  /** Reading on after a character that ends a word. */
  lemma {:induction false} TokensCut(a: string, c: char, b: string, current: string)
    requires !IsAlnum(c)
    ensures Tokens(a + [c] + b, current) == Tokens(a, current) + Tokens(b, [])
  {
    var all := a + [c] + b;
    if a == "" {
      assert all[1..] == b;
    } else {
      assert all[1..] == a[1..] + [c] + b;
      if IsAlnum(a[0]) {
        TokensCut(a[1..], c, b, current + [a[0]]);
      } else {
        TokensCut(a[1..], c, b, []);
      }
    }
  }

  lemma {:induction false} TokensDropLeft(s: string)
    ensures Tokens(Lower(StripLeft(s)), []) == Tokens(Lower(s), [])
  {
    if s != "" && IsSpace(s[0]) {
      TokensDropLeft(s[1..]);
      assert Lower(s)[1..] == Lower(s[1..]);
      LettersAreAlnum(s[0]);
    }
  }

  lemma {:induction false} TokensDropRight(s: string)
    ensures Tokens(Lower(StripRight(s)), []) == Tokens(Lower(s), [])
  {
    if s != "" && IsSpace(s[|s| - 1]) {
      var before := s[..|s| - 1];
      TokensDropRight(before);
      LettersAreAlnum(s[|s| - 1]);
      assert Lower(s) == Lower(before) + [LowerChar(s[|s| - 1])] + [];
      TokensCut(Lower(before), LowerChar(s[|s| - 1]), [], []);
      assert Tokens([], []) == [];
    }
  }

  lemma NameIsTokens(t: IdType, v: string)
    requires IsName(t)
    ensures Normalize(t, v) == Join(DropCompanyWords(Tokens(Lower(v), [])))
  {
    TokensDropRight(StripLeft(v));
    TokensDropLeft(v);
  }

  lemma NameCut(t: IdType, a: string, c: char, b: string)
    requires IsName(t) && !Letter(c)
    ensures Normalize(t, a + [c] + b) == Join(DropCompanyWords(Tokens(Lower(a), []) + Tokens(Lower(b), [])))
  {
    LettersAreAlnum(c);
    NameIsTokens(t, a + [c] + b);
    assert Lower(a + [c] + b) == Lower(a) + [LowerChar(c)] + Lower(b);
    TokensCut(Lower(a), LowerChar(c), Lower(b), []);
  }

  lemma TokensDropSpace(a: string)
    ensures Tokens(Lower(a + " "), []) == Tokens(Lower(a), [])
  {
    assert Lower(a + " ") == Lower(a) + [' '] + [];
    TokensCut(Lower(a), ' ', [], []);
    assert Tokens([], []) == [];
  }

  /**
   Any character that is no letter or digit separates words as a space does, and how many there are does not
   matter.
   */
  lemma SeparatorLaw(t: IdType, a: string, c: char, b: string)
    requires IsName(t) && !Letter(c)
    ensures Normalize(t, a + [c] + b) == Normalize(t, a + " " + b) == Normalize(t, a + " " + [c] + b)
  {
    NameCut(t, a, c, b);
    NameCut(t, a, ' ', b);
    NameCut(t, a + " ", c, b);
    TokensDropSpace(a);
  }

  /** Upper and lower case are the same. */
  lemma CaseLaw(t: IdType, v: string)
    requires IsName(t) || IsCode(t)
    ensures Normalize(t, Lower(v)) == Normalize(t, v)
  {
    assert Lower(Lower(v)) == Lower(v);
    if IsName(t) {
      NameIsTokens(t, v);
      NameIsTokens(t, Lower(v));
    } else {
      CodeIsKept(t, v);
      CodeIsKept(t, Lower(v));
    }
  }

  predicate IsWord(w: string) { w != "" && forall i :: 0 <= i < |w| ==> 'a' <= w[i] <= 'z' || '0' <= w[i] <= '9' }

  predicate AllWords(words: seq<string>) { forall i :: 0 <= i < |words| ==> IsWord(words[i]) }

  predicate IsCompanyWord(w: string) { w in {"inc", "llc", "ltd", "corp", "corporation", "company", "co"} }

  lemma {:induction false} LowerWords(words: seq<string>)
    requires AllWords(words)
    ensures Words(words) && Lower(Join(words)) == Join(words)
  {
    if |words| == 1 {
      assert Lower(words[0]) == words[0];
    } else if |words| > 1 {
      LowerWords(words[1..]);
      assert Lower(words[0]) == words[0];
      LowerOfParts(words[0], " ");
      LowerOfParts(words[0] + " ", Join(words[1..]));
    }
  }

  lemma CompanyWordsAre(w: string)
    ensures w in COMPANY_WORDS <==> IsCompanyWord(w)
  {
  }

  lemma DropOne(words: seq<string>)
    requires words != []
    ensures DropCompanyWords(words) == (if words[0] in COMPANY_WORDS then []
                                        else [words[0]]) + DropCompanyWords(words[1..])
  {
  }

  lemma NameOfWords(t: IdType, words: seq<string>)
    requires IsName(t) && AllWords(words)
    ensures Words(words) && Normalize(t, Join(words)) == Join(DropCompanyWords(words))
  {
    LowerWords(words);
    NameIsTokens(t, Join(words));
    TokensOfJoin(words);
  }

  lemma JoinOne(word: string, words: seq<string>)
    requires Words(words)
    ensures Join([word] + words) == if Join(words) == "" then word else word + " " + Join(words)
  {
    JoinShape(words);
    assert ([word] + words)[1..] == words;
  }

  /**
   A name of words: company words go, wherever they stand, and the other words stay in order with one space
   between.
   */
  lemma WordLaw(t: IdType, word: string, words: seq<string>)
    requires IsName(t) && IsWord(word) && AllWords(words)
    ensures Normalize(t, Join([])) == ""
    ensures var rest := Normalize(t, Join(words));
            Normalize(t, Join([word] + words))
            == if IsCompanyWord(word) then rest else if rest == "" then word else word + " " + rest
  {
    AllWordsWith(word, words);
    NameOfWords(t, []);
    NameOfWords(t, words);
    NameOfWords(t, [word] + words);
    JoinDropped(word, words);
  }

  lemma AllWordsWith(word: string, words: seq<string>)
    requires IsWord(word) && AllWords(words)
    ensures AllWords([word] + words)
  {
  }

  lemma JoinDropped(word: string, words: seq<string>)
    requires Words(words)
    ensures var rest := Join(DropCompanyWords(words));
            Join(DropCompanyWords([word] + words))
            == if IsCompanyWord(word) then rest else if rest == "" then word else word + " " + rest
  {
    CompanyWordsAre(word);
    DropOne([word] + words);
    assert ([word] + words)[1..] == words;
    DroppedAreWords(words);
    JoinOne(word, DropCompanyWords(words));
    assert [] + DropCompanyWords(words) == DropCompanyWords(words);
  }

  /******* Domains: the host *******/

  lemma {:induction false} BeforeOfParts(a: string, b: string, c: char)
    requires c !in a && (b == "" || b[0] == c)
    ensures Before(a + b, c) == a
  {
    if a == "" {
      assert a + b == b;
    } else {
      assert (a + b)[1..] == a[1..] + b;
      BeforeOfParts(a[1..], b, c);
    }
  }

  /** A host as it is stored: lower case, no slash or colon, no white space at its ends, no "www." in front. */
  predicate PlainHost(host: string) {
    && host != "" && NoOuterSpace(host) && !("www." <= host)
    && forall i :: 0 <= i < |host| ==> host[i] != '/' && host[i] != ':' && !('A' <= host[i] <= 'Z')
  }

  lemma LowerOfLower(s: string)
    requires forall i :: 0 <= i < |s| ==> !('A' <= s[i] <= 'Z')
    ensures Lower(s) == s
  {
  }

  lemma EndsOfParts(a: string, b: string)
    requires a != "" && !IsSpace(a[0]) && !IsSpace(a[|a| - 1]) && (b == "" || !IsSpace(b[|b| - 1]))
    ensures a + b != "" && !IsSpace((a + b)[0]) && !IsSpace((a + b)[|a + b| - 1])
  {
  }

  lemma FrontIsPlain(front: string, host: string)
    requires front in {"", "www.", "http://", "https://", "http://www.", "https://www."} && PlainHost(host)
    ensures front + host != "" && NoOuterSpace(front + host) && Lower(front) == front
  {
    LowerOfLower(front);
    if front == "" {
      assert front + host == host;
    } else {
      EndsOfParts(front, host);
    }
  }

  lemma Assembled(front: string, host: string, path: string)
    requires front in {"", "www.", "http://", "https://", "http://www.", "https://www."} && PlainHost(host)
    requires path == "" || (path[0] == '/' && !IsSpace(path[|path| - 1]))
    ensures NoOuterSpace(front + host + path) && Lower(front + host + path) == front + host + Lower(path)
  {
    FrontIsPlain(front, host);
    EndsOfParts(front + host, path);
    LowerOfLower(host);
    LowerOfParts(front + host, path);
    LowerOfParts(front, host);
  }

  /** A scheme, one "www." and everything from the first slash on do not matter. */
  lemma DomainLaw(scheme: string, www: string, host: string, path: string)
    requires scheme in {"", "http://", "https://"} && www in {"", "www."} && PlainHost(host)
    requires path == "" || (path[0] == '/' && !IsSpace(path[|path| - 1]))
    ensures Normalize(Domain, scheme + www + host + path) == host
  {
    var tail := www + host + Lower(path);
    Fronts(scheme, www);
    Assembled(scheme + www, host, path);
    Regroup(scheme, www, host, Lower(path));
    NormalOfLower(scheme + www + host + path, scheme + tail);
    HostOfTail(scheme, www, host, Lower(path));
  }

  lemma Fronts(scheme: string, www: string)
    requires scheme in {"", "http://", "https://"} && www in {"", "www."}
    ensures scheme + www in {"", "www.", "http://", "https://", "http://www.", "https://www."}
  {
    if www == "" {
      assert scheme + www == scheme;
    } else if scheme == "" {
      assert scheme + www == www;
    } else if scheme == "http://" {
      assert scheme + www == "http://www.";
    } else {
      assert scheme + www == "https://www.";
    }
  }

  lemma Regroup(a: string, b: string, c: string, d: string)
    ensures a + b + c + d == a + (b + c + d)
  {
  }

  lemma NormalOfLower(text: string, lowered: string)
    requires NoOuterSpace(text) && Lower(text) == lowered
    ensures Normalize(Domain, text) == RemovePrefix(Before(DropScheme(lowered), '/'), "www.")
  {
    StripSize(text);
  }

  lemma HostOfTail(scheme: string, www: string, host: string, path: string)
    requires scheme in {"", "http://", "https://"} && www in {"", "www."} && PlainHost(host)
    requires path == "" || path[0] == '/'
    ensures RemovePrefix(Before(DropScheme(scheme + (www + host + path)), '/'), "www.") == host
  {
    assert '/' !in www + host && ':' !in www + host;
    SchemeGoes(scheme, www + host, path);
    BeforeOfParts(www + host, path, '/');
    WwwGoes(www, host);
  }

  lemma WwwGoes(www: string, host: string)
    requires www in {"", "www."} && !("www." <= host)
    ensures RemovePrefix(www + host, "www.") == host
  {
    assert www == "" ==> www + host == host;
    assert www == "www." ==> (www + host)[4..] == host;
  }

  lemma SchemeGoes(scheme: string, host: string, path: string)
    requires scheme in {"", "http://", "https://"} && ':' !in host && '/' !in host && host != ""
    requires path == "" || path[0] == '/'
    ensures DropScheme(scheme + (host + path)) == host + path
  {
    var text := host + path;
    if scheme == "" {
      assert scheme + text == text;
      NoScheme(host, path, "https://", 5);
      NoScheme(host, path, "http://", 4);
    } else if scheme == "http://" {
      assert (scheme + text)[4] == ':' && "https://"[4] == 's';
      assert (scheme + text)[7..] == text;
    } else {
      assert (scheme + text)[8..] == text;
    }
  }

  /** A text whose first slash comes before any colon has no scheme. */
  lemma NoScheme(host: string, path: string, scheme: string, colon: nat)
    requires ':' !in host && (path == "" || path[0] == '/')
    requires colon < |scheme| && scheme[colon] == ':' && forall i :: 0 <= i < colon ==> scheme[i] != '/'
    ensures !(scheme <= host + path)
  {
    var text := host + path;
    if colon < |host| {
      assert text[colon] == host[colon];
    } else if path != "" {
      assert text[|host|] == '/';
      assert scheme[|host|] != '/';
    }
  }
}
