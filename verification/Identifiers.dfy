/**
 Normalising identifiers (normalize_identifier in btx_platform/intelligence.py), on ASCII text.
 */
module Identifiers {

  datatype IdType = LegalName | Domain | HubSpotId | VerifiedAlias | CageCode | Uei | PublicRecipientId

  predicate IsSpace(c: char) { c == ' ' || '\t' <= c <= '\r' || '\U{1c}' <= c <= '\U{1f}' }

  predicate IsAlnum(c: char) { 'a' <= c <= 'z' || '0' <= c <= '9' }

  function LowerChar(c: char): char {
    if 'A' <= c <= 'Z' then (c as int + 32) as char else c
  }

  function Lower(s: string): (r: string)
    ensures |r| == |s|
  {
    seq(|s|, i requires 0 <= i < |s| => LowerChar(s[i]))
  }

  function StripLeft(s: string): string {
    if s != [] && IsSpace(s[0]) then StripLeft(s[1..]) else s
  }

  function StripRight(s: string): string {
    if s != [] && IsSpace(s[|s| - 1]) then StripRight(s[..|s| - 1]) else s
  }

  function Strip(s: string): string { StripRight(StripLeft(s)) }

  function RemovePrefix(s: string, prefix: string): string {
    if prefix <= s then s[|prefix|..] else s
  }

  function Before(s: string, c: char): string {
    if s == [] || s[0] == c then [] else [s[0]] + Before(s[1..], c)
  }

  function DropScheme(s: string): string {
    if "https://" <= s then s[8..] else RemovePrefix(s, "http://")
  }

  function NormalDomain(text: string): string {
    RemovePrefix(Before(DropScheme(text), '/'), "www.")
  }

  function KeepAlnum(s: string): string {
    if s == [] then [] else (if IsAlnum(s[0]) then [s[0]] else []) + KeepAlnum(s[1..])
  }

  /** The maximal runs of letters and digits; `current` is the run being read. */
  function Tokens(s: string, current: string): seq<string> {
    if s == [] then Flush(current)
    else if IsAlnum(s[0]) then Tokens(s[1..], current + [s[0]])
    else Flush(current) + Tokens(s[1..], [])
  }

  function Flush(current: string): seq<string> { if current == [] then [] else [current] }

  const COMPANY_WORDS := {"inc", "llc", "ltd", "corp", "corporation", "company", "co"}

  function DropCompanyWords(tokens: seq<string>): seq<string> {
    if tokens == [] then []
    else (if tokens[0] in COMPANY_WORDS then [] else [tokens[0]]) + DropCompanyWords(tokens[1..])
  }

  function Join(tokens: seq<string>): string {
    if tokens == [] then [] else if |tokens| == 1 then tokens[0] else tokens[0] + " " + Join(tokens[1..])
  }

  /** Words without punctuation and company suffixes, separated by one space. */
  function NormalName(text: string): string { Join(DropCompanyWords(Tokens(text, []))) }

  function Normalize(idType: IdType, value: string): string {
    var text := Lower(Strip(value));
    match idType
    case Domain => NormalDomain(text)
    case Uei => KeepAlnum(text)
    case CageCode => KeepAlnum(text)
    case PublicRecipientId => KeepAlnum(text)
    case HubSpotId => KeepAlnum(text)
    case LegalName => NormalName(text)
    case VerifiedAlias => NormalName(text)
  }

  /******* Stripping twice is stripping once *******/

  lemma {:induction false} StripRightEnds(s: string)
    ensures StripRight(s) != [] ==> !IsSpace(StripRight(s)[|StripRight(s)| - 1])
    ensures StripRight(s) <= s
  {
    if s != [] && IsSpace(s[|s| - 1]) {
      StripRightEnds(s[..|s| - 1]);
    }
  }

  lemma {:induction false} StripLeftEnds(s: string)
    ensures StripLeft(s) != [] ==> !IsSpace(StripLeft(s)[0])
  {
    if s != [] && IsSpace(s[0]) {
      StripLeftEnds(s[1..]);
    }
  }

  lemma StripTwice(s: string)
    ensures Strip(Strip(s)) == Strip(s)
  {
    StripLeftEnds(s);
    StripRightEnds(StripLeft(s));
  }

  /** Surrounding white space never matters. */
  lemma NormalizeIgnoresSpace(idType: IdType, value: string)
    ensures Normalize(idType, Strip(value)) == Normalize(idType, value)
  {
    StripTwice(value);
  }

  /******* A normalised name has no dot *******/

  predicate AllAlnum(s: string) { forall i :: 0 <= i < |s| ==> IsAlnum(s[i]) }

  predicate Words(tokens: seq<string>) { forall i :: 0 <= i < |tokens| ==> tokens[i] != [] && AllAlnum(tokens[i]) }

  lemma {:induction false} TokensAreWords(s: string, current: string)
    requires AllAlnum(current)
    ensures Words(Tokens(s, current))
  {
    if s != [] {
      if IsAlnum(s[0]) {
        TokensAreWords(s[1..], current + [s[0]]);
      } else {
        TokensAreWords(s[1..], []);
      }
    }
  }

  lemma {:induction false} DroppedAreWords(tokens: seq<string>)
    requires Words(tokens)
    ensures Words(DropCompanyWords(tokens))
    ensures forall i :: 0 <= i < |DropCompanyWords(tokens)| ==> DropCompanyWords(tokens)[i] !in COMPANY_WORDS
  {
    if tokens != [] {
      DroppedAreWords(tokens[1..]);
    }
  }

  /** Joined words hold letters, digits and single spaces, and neither begin nor end with a space. */
  lemma {:induction false} JoinShape(tokens: seq<string>)
    requires Words(tokens)
    ensures forall i :: 0 <= i < |Join(tokens)| ==> IsAlnum(Join(tokens)[i]) || Join(tokens)[i] == ' '
    ensures tokens != [] ==> Join(tokens) != [] && IsAlnum(Join(tokens)[0]) && IsAlnum(Join(tokens)[|Join(tokens)| - 1])
  {
    if |tokens| > 1 {
      JoinShape(tokens[1..]);
    }
  }

  lemma NameHasNoDot(value: string)
    ensures '.' !in Normalize(LegalName, value)
  {
    TokensAreWords(Lower(Strip(value)), []);
    DroppedAreWords(Tokens(Lower(Strip(value)), []));
    JoinShape(DropCompanyWords(Tokens(Lower(Strip(value)), [])));
  }

  /******* Normalising a normalised name changes nothing *******/

  /** Reading a word in front of more text. */
  lemma {:induction false} TokensOfWord(word: string, rest: string, current: string)
    requires AllAlnum(word)
    ensures Tokens(word + rest, current) == Tokens(rest, current + word)
  {
    if word == [] {
      assert word + rest == rest && current + word == current;
    } else {
      assert (word + rest)[1..] == word[1..] + rest;
      TokensOfWord(word[1..], rest, current + [word[0]]);
      assert current + [word[0]] + word[1..] == current + word;
    }
  }

  lemma {:induction false} TokensOfJoin(tokens: seq<string>)
    requires Words(tokens)
    ensures Tokens(Join(tokens), []) == tokens
  {
    if |tokens| == 1 {
      assert Join(tokens) + [] == Join(tokens);
      TokensOfWord(tokens[0], [], []);
      assert [] + tokens[0] == tokens[0];
    } else if |tokens| > 1 {
      var rest := Join(tokens[1..]);
      TokensOfJoin(tokens[1..]);
      assert tokens[0] + " " + rest == tokens[0] + (" " + rest);
      TokensOfWord(tokens[0], " " + rest, []);
      assert [] + tokens[0] == tokens[0];
      assert (" " + rest)[1..] == rest;
      assert tokens == [tokens[0]] + tokens[1..];
    }
  }

  lemma {:induction false} DropTwice(tokens: seq<string>)
    requires forall i :: 0 <= i < |tokens| ==> tokens[i] !in COMPANY_WORDS
    ensures DropCompanyWords(tokens) == tokens
  {
    if tokens != [] {
      DropTwice(tokens[1..]);
    }
  }

  lemma NormalNameAgain(tokens: seq<string>)
    requires Words(tokens) && forall i :: 0 <= i < |tokens| ==> tokens[i] !in COMPANY_WORDS
    ensures Normalize(LegalName, Join(tokens)) == Join(tokens)
  {
    JoinShape(tokens);
    PlainText(Join(tokens));
    TokensOfJoin(tokens);
    DropTwice(tokens);
  }

  /** A lower-case text without white space at its ends is not changed before it is tokenised. */
  lemma PlainText(s: string)
    requires forall i :: 0 <= i < |s| ==> IsAlnum(s[i]) || s[i] == ' '
    requires s != [] ==> IsAlnum(s[0]) && IsAlnum(s[|s| - 1])
    ensures Lower(Strip(s)) == s
  {
    assert Strip(s) == s;
  }

  /** Normalising is idempotent on names. */
  lemma NameIsNormalOnce(value: string)
    ensures Normalize(LegalName, Normalize(LegalName, value)) == Normalize(LegalName, value)
  {
    var tokens := Tokens(Lower(Strip(value)), []);
    TokensAreWords(Lower(Strip(value)), []);
    DroppedAreWords(tokens);
    NormalNameAgain(DropCompanyWords(tokens));
  }

  /******* Normalising a normalised domain *******/

  /** What stands between the scheme and the first slash. */
  function Host(value: string): string { Before(DropScheme(Lower(Strip(value))), '/') }

  predicate NoOuterSpace(s: string) { s == "" || (!IsSpace(s[0]) && !IsSpace(s[|s| - 1])) }

  lemma {:induction false} StripLeftSize(s: string)
    ensures |StripLeft(s)| <= |s| && (StripLeft(s) == s <==> s == "" || !IsSpace(s[0]))
    ensures forall c :: c in StripLeft(s) ==> c in s
  {
    if s != [] && IsSpace(s[0]) {
      StripLeftSize(s[1..]);
    }
  }

  lemma {:induction false} StripRightSize(s: string)
    ensures |StripRight(s)| <= |s| && (StripRight(s) == s <==> s == "" || !IsSpace(s[|s| - 1]))
    ensures |StripRight(s)| == |s| ==> StripRight(s) == s
    ensures forall c :: c in StripRight(s) ==> c in s
  {
    if s != [] && IsSpace(s[|s| - 1]) {
      StripRightSize(s[..|s| - 1]);
    }
  }

  lemma {:induction false} StripLeftWhole(s: string)
    ensures |StripLeft(s)| == |s| ==> StripLeft(s) == s
  {
    if s != [] && IsSpace(s[0]) {
      StripLeftSize(s[1..]);
    }
  }

  lemma StripSize(s: string)
    ensures |Strip(s)| <= |s| && (|Strip(s)| == |s| <==> NoOuterSpace(s)) && (NoOuterSpace(s) ==> Strip(s) == s)
    ensures forall c :: c in Strip(s) ==> c in s
  {
    StripLeftSize(s);
    StripLeftWhole(s);
    StripRightSize(StripLeft(s));
  }

  lemma {:induction false} BeforeHasNone(s: string, c: char)
    ensures c !in Before(s, c)
    ensures forall d :: d in Before(s, c) ==> d in s
  {
    if s != [] && s[0] != c {
      BeforeHasNone(s[1..], c);
    }
  }

  predicate IsLower(s: string) { forall c :: c in s ==> LowerChar(c) == c }

  /** A lower-case text without a slash only loses the white space around it and one "www.". */
  lemma NormaliseHost(s: string)
    requires IsLower(s) && '/' !in s
    ensures Normalize(Domain, s) == RemovePrefix(Strip(s), "www.")
  {
    StripSize(s);
    var text := Strip(s);
    forall i | 0 <= i < |text|
      ensures LowerChar(text[i]) == text[i]
    {
      assert text[i] in text;
    }
    assert Lower(text) == text;
    assert "https://"[7] == '/' && "http://"[6] == '/';
    BeforeAbsent(text, '/');
  }

  lemma HostShape(value: string)
    ensures IsLower(Host(value)) && '/' !in Host(value)
  {
    var text := Lower(Strip(value));
    BeforeHasNone(DropScheme(text), '/');
    forall c | c in Host(value)
      ensures LowerChar(c) == c
    {
      assert c in DropScheme(text);
      assert c in text;
      var i :| 0 <= i < |text| && text[i] == c;
      assert c == LowerChar(Strip(value)[i]);
    }
  }

  /**
   Normalising is idempotent on a domain exactly when its host does not start with "www.www." and has no white space
   around what is left without one "www.".
   */
  lemma DomainIsNormalOnceExactlyWhen(value: string)
    ensures Normalize(Domain, Normalize(Domain, value)) == Normalize(Domain, value)
            <==> !("www.www." <= Host(value)) && NoOuterSpace(RemovePrefix(Host(value), "www."))
  {
    var host := Host(value);
    var once := RemovePrefix(host, "www.");
    HostShape(value);
    forall c | c in once
      ensures c in host
    {
    }
    NormaliseHost(once);
    StripSize(once);
    TwoPrefixes(host);
  }

  lemma TwoPrefixes(host: string)
    ensures "www.www." <= host <==> "www." <= host && "www." <= RemovePrefix(host, "www.")
  {
    assert "www.www." == "www." + "www.";
    if "www." <= host {
      assert host == "www." + host[4..];
    }
    if "www.www." <= host {
      assert host[..4] == "www.www."[..4] && host[4..8] == "www.www."[4..];
    }
  }

  /** There are domains for which it is not. */
  lemma DomainIsNotNormalOnce()
    ensures Normalize(Domain, "www.www.a") == "www.a" && Normalize(Domain, "www.a") == "a"
  {
    NormaliseHost("www.www.a");
    NormaliseHost("www.a");
  }

  lemma {:induction false} BeforeAbsent(s: string, c: char)
    requires c !in s
    ensures Before(s, c) == s
  {
    if s != [] {
      BeforeAbsent(s[1..], c);
    }
  }
}
