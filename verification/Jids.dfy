/** Jabber IDs: parsing, printing, and the escaping of localparts. */
module Jids {
  import opened Wrappers
  import opened Text
  import opened Numerals

  datatype Jid = Jid(local: string, domain: string, resource: string)

  datatype JidError = Empty | EmptyResource | EmptyLocal | BadDomain | BadCharacter

  /** How characters outside ASCII are lowered; Unicode's table is a parameter. */
  type Fold = char -> char

  function Lower(fold: Fold, c: char): char {
    if 'A' <= c <= 'Z' then c - 'A' + 'a'
    else if c <= '\U{7F}' then c
    else fold(c)
  }

  function ToLower(fold: Fold, s: string): string {
    seq(|s|, i requires 0 <= i < |s| => Lower(fold, s[i]))
  }

  /** Lowering is idempotent, and neither makes nor removes white space. */
  ghost predicate CaseFold(fold: Fold) {
    forall c :: Lower(fold, Lower(fold, c)) == Lower(fold, c) && (IsSpace(Lower(fold, c)) <==> IsSpace(c))
  }

  function TrimDot(s: string): string {
    if s != "" && s[|s| - 1] == '.' then s[..|s| - 1] else s
  }

  predicate ContainsAny(s: string, chars: string) {
    exists i :: 0 <= i < |s| && s[i] in chars
  }

  /** The value before and after the first slash. */
  function SplitResource(value: string): (string, Option<string>) {
    var slash := IndexOf(value, '/');
    if slash < |value| then (value[..slash], Some(value[slash + 1..])) else (value, None)
  }

  /** The bare value before and after the last at-sign. */
  function SplitLocal(bare: string): (Option<string>, string) {
    match LastIndexOf(bare, '@')
    case Some(at) => (Some(bare[..at]), bare[at + 1..])
    case None => (None, bare)
  }

  function NormDomain(fold: Fold, domain: string): string {
    TrimDot(ToLower(fold, TrimSpace(domain)))
  }

  function ParseJid(fold: Fold, input: string): Result<Jid, JidError> {
    var value := TrimSpace(input);
    if value == "" then Err(Empty) else ParseValue(fold, SplitResource(value))
  }

  function ParseValue(fold: Fold, split: (string, Option<string>)): Result<Jid, JidError> {
    if split.1 == Some("") then Err(EmptyResource)
    else ParseBare(fold, SplitLocal(split.0), OrEmpty(split.1))
  }

  function ParseBare(fold: Fold, split: (Option<string>, string), resource: string): Result<Jid, JidError> {
    if split.0 == Some("") then Err(EmptyLocal)
    else Check(Jid(OrEmpty(split.0), NormDomain(fold, split.1), resource))
  }

  function OrEmpty(s: Option<string>): string {
    match s
    case Some(v) => v
    case None => ""
  }

  /** The structural checks on the three parts. */
  function Check(j: Jid): Result<Jid, JidError> {
    if !DomainOk(j.domain) then Err(BadDomain)
    else if ContainsAny(j.local, "@/\0\r\n") || ContainsAny(j.resource, "\0\r\n") then Err(BadCharacter)
    else Ok(j)
  }

  predicate DomainOk(domain: string) {
    domain != "" && !ContainsAny(domain, "@/ \t\r\n")
  }

  function Bare(j: Jid): string {
    if j.local != "" then j.local + "@" + j.domain else j.domain
  }

  function Print(j: Jid): string {
    if j.resource != "" then Bare(j) + "/" + j.resource else Bare(j)
  }

  // Which texts are accepted

  /** White space around a text does not matter, and a blank one is refused. */
  lemma AroundIgnored(fold: Fold, input: string)
    ensures ParseJid(fold, input) == ParseJid(fold, TrimSpace(input))
    ensures TrimSpace(input) == "" ==> ParseJid(fold, input) == Err(Empty)
  {
    TrimSpaceTrims(input);
    TrimSpaceFixes(TrimSpace(input));
  }

  function Composed(local: Option<string>, domain: string, resource: Option<string>): string {
    (if local.Some? then local.value + "@" else "") + domain + if resource.Some? then "/" + resource.value else ""
  }

  lemma ComposedSplits(local: Option<string>, domain: string, resource: Option<string>)
    requires '/' !in domain && '@' !in domain && (local.Some? ==> '/' !in local.value)
    ensures var bare := Composed(local, domain, None);
            && SplitResource(Composed(local, domain, resource)) == (bare, resource)
            && SplitLocal(bare) == (local, domain)
  {
    var bare := Composed(local, domain, None);
    var whole := Composed(local, domain, resource);
    assert '/' !in bare;
    if resource.Some? {
      assert whole == bare + ['/'] + resource.value;
      IndexOfConcat(bare, '/', resource.value);
      assert whole[..|bare|] == bare && whole[|bare| + 1..] == resource.value;
    } else {
      assert whole == bare;
    }
    if local.Some? {
      assert bare == local.value + ['@'] + domain;
      LastIndexOfConcat(local.value, '@', domain);
      assert bare[..|local.value|] == local.value && bare[|local.value| + 1..] == domain;
    } else {
      assert bare == domain;
    }
  }

  /** None of the characters is in the text. */
  predicate Lacks(s: string, chars: set<char>) {
    forall c :: c in s ==> c !in chars
  }

  /**
   * A text is accepted exactly when the localpart and the resource are not empty if there at all, the
   * domain is not empty once trimmed, lowered and freed of one dot, and none of the three holds a
   * character it may not hold. The text is taken apart at the first slash and the last at-sign before it,
   * so that every text without white space around it is of the form below.
   */
  lemma AcceptedIff(fold: Fold, local: Option<string>, domain: string, resource: Option<string>)
    requires '/' !in domain && '@' !in domain && (local.Some? ==> '/' !in local.value)
    requires var text := Composed(local, domain, resource); text != "" && Trimmed(text)
    ensures var d := TrimDot(ToLower(fold, TrimSpace(domain)));
            && (ParseJid(fold, Composed(local, domain, resource)).Ok? <==>
                  && local != Some("") && resource != Some("")
                  && d != "" && Lacks(d, {'@', '/', ' ', '\t', '\r', '\n'})
                  && (local.Some? ==> Lacks(local.value, {'@', '/', '\0', '\r', '\n'}))
                  && (resource.Some? ==> Lacks(resource.value, {'\0', '\r', '\n'})))
            && (ParseJid(fold, Composed(local, domain, resource)).Ok? ==>
                  ParseJid(fold, Composed(local, domain, resource)) == Ok(Jid(OrEmpty(local), d, OrEmpty(resource))))
  {
    var text, j := Composed(local, domain, resource), Jid(OrEmpty(local), NormDomain(fold, domain), OrEmpty(resource));
    TrimSpaceFixes(text);
    ComposedSplits(local, domain, resource);
    assert ParseJid(fold, text) == ParseValue(fold, (Composed(local, domain, None), resource));
    CheckIff(j);
  }

  /** The structural checks, character by character. */
  lemma CheckIff(j: Jid)
    ensures Check(j).Ok? <==>
            && j.domain != "" && Lacks(j.domain, {'@', '/', ' ', '\t', '\r', '\n'})
            && Lacks(j.local, {'@', '/', '\0', '\r', '\n'}) && Lacks(j.resource, {'\0', '\r', '\n'})
    ensures Check(j).Ok? ==> Check(j) == Ok(j)
  {
    LacksIff(j.domain, "@/ \t\r\n", {'@', '/', ' ', '\t', '\r', '\n'});
    LacksIff(j.local, "@/\0\r\n", {'@', '/', '\0', '\r', '\n'});
    LacksIff(j.resource, "\0\r\n", {'\0', '\r', '\n'});
  }

  lemma LacksIff(s: string, chars: string, members: set<char>)
    requires forall c :: c in chars <==> c in members
    ensures ContainsAny(s, chars) <==> !Lacks(s, members)
  {
    if !Lacks(s, members) {
      var c :| c in s && c in members;
      var i :| 0 <= i < |s| && s[i] == c;
    }
  }

  // Printing what was parsed

  /** The domain's last character survives another parse: no dot, and no white space. */
  predicate StableEnd(domain: string)
    requires domain != ""
  {
    domain[|domain| - 1] != '.' && !IsSpace(domain[|domain| - 1])
  }

  /** What a successful parse guarantees about the parts. */
  predicate WellFormed(fold: Fold, j: Jid) {
    && Check(j) == Ok(j)
    && ToLower(fold, j.domain) == j.domain
    && !IsSpace(j.domain[0])
    && (j.local != "" ==> !IsSpace(j.local[0]))
    && (j.resource != "" ==> !IsSpace(j.resource[|j.resource| - 1]))
  }

  lemma LowerTwice(fold: Fold, s: string)
    requires CaseFold(fold)
    ensures ToLower(fold, ToLower(fold, s)) == ToLower(fold, s)
  {
  }

  lemma NormDomainKeeps(fold: Fold, s: string)
    requires CaseFold(fold)
    ensures var d := NormDomain(fold, s);
            ToLower(fold, d) == d && (d != "" ==> !IsSpace(d[0]))
  {
    var trimmed := TrimSpace(s);
    var lowered := ToLower(fold, trimmed);
    TrimSpaceTrims(s);
    LowerTwice(fold, trimmed);
    var d := TrimDot(lowered);
    assert forall i :: 0 <= i < |d| ==> ToLower(fold, d)[i] == ToLower(fold, lowered)[i];
  }

  lemma ParsedWellFormed(fold: Fold, input: string)
    requires CaseFold(fold) && ParseJid(fold, input).Ok?
    ensures WellFormed(fold, ParseJid(fold, input).value)
  {
    var value := TrimSpace(input);
    TrimSpaceTrims(input);
    var (bare, resource) := SplitResource(value);
    var (local, rest) := SplitLocal(bare);
    NormDomainKeeps(fold, rest);
    if resource.Some? {
      assert resource.value[|resource.value| - 1] == value[|value| - 1];
    }
    if local.Some? {
      assert local.value[0] == value[0];
    }
  }

  lemma NotContained(s: string, chars: string, c: char)
    requires !ContainsAny(s, chars) && c in chars
    ensures c !in s
  {
  }

  lemma PrintSplits(j: Jid)
    requires Check(j) == Ok(j)
    ensures SplitResource(Print(j)) == (Bare(j), if j.resource == "" then None else Some(j.resource))
    ensures SplitLocal(Bare(j)) == (if j.local == "" then None else Some(j.local), j.domain)
  {
    NotContained(j.domain, "@/ \t\r\n", '@');
    NotContained(j.domain, "@/ \t\r\n", '/');
    NotContained(j.local, "@/\0\r\n", '/');
    var bare := Bare(j);
    assert '/' !in bare;
    if j.resource != "" {
      IndexOfConcat(bare, '/', j.resource);
      assert Print(j)[..|bare|] == bare && Print(j)[|bare| + 1..] == j.resource;
    }
    if j.local != "" {
      LastIndexOfConcat(j.local, '@', j.domain);
      assert bare[..|j.local|] == j.local && bare[|j.local| + 1..] == j.domain;
    }
  }

  lemma PrintEnds(j: Jid)
    requires j.domain != ""
    ensures Print(j)[0] == if j.local != "" then j.local[0] else j.domain[0]
    ensures Print(j)[|Print(j)| - 1] == if j.resource != "" then j.resource[|j.resource| - 1] else j.domain[|j.domain| - 1]
  {
  }

  lemma DomainStable(fold: Fold, d: string)
    requires CaseFold(fold) && d != "" && ToLower(fold, d) == d && !IsSpace(d[0])
    ensures NormDomain(fold, d) == d <==> StableEnd(d)
  {
    TrimSpaceFixes(d);
    if Trimmed(d) {
      assert TrimDot(d) == d <==> d[|d| - 1] != '.';
    } else {
      TrimSpaceShrinks(d);
      assert |NormDomain(fold, d)| <= |TrimSpace(d)| < |d|;
    }
  }

  lemma {:induction false} TrimLeftLength(s: string)
    ensures |TrimLeft(s)| <= |s|
  {
    if s != [] && IsSpace(s[0]) {
      TrimLeftLength(s[1..]);
    }
  }

  lemma TrimSpaceShrinks(s: string)
    ensures |TrimSpace(s)| <= |s|
    ensures s != "" && IsSpace(s[|s| - 1]) ==> |TrimSpace(s)| < |s|
  {
    TrimLeftLength(s);
    TrimRightEnds(TrimLeft(s));
    if s != "" && IsSpace(s[|s| - 1]) && |TrimSpace(s)| == |s| {
      TrimLeftSuffix(s);
      TrimSpaceTrims(s);
    }
  }

  lemma {:induction false} TrimLeftSuffix(s: string)
    ensures |TrimLeft(s)| <= |s| && TrimLeft(s) == s[|s| - |TrimLeft(s)|..]
  {
    if s != [] && IsSpace(s[0]) {
      TrimLeftSuffix(s[1..]);
    }
  }

  lemma ParsingShortens(fold: Fold, input: string)
    ensures ParseJid(fold, input).Ok? ==> |Print(ParseJid(fold, input).value)| <= |TrimSpace(input)|
  {
    TrimSpaceShrinks(SplitLocal(SplitResource(TrimSpace(input)).0).1);
  }

  /**
   * Printing a parsed JID and parsing it again gives it back exactly when its domain does not end in
   * a dot or in white space, whatever slashes and at-signs the resource holds.
   */
  lemma ParsePrintIff(fold: Fold, input: string)
    requires CaseFold(fold) && ParseJid(fold, input).Ok?
    ensures var j := ParseJid(fold, input).value;
            ParseJid(fold, Print(j)) == Ok(j) <==> StableEnd(j.domain)
  {
    var j := ParseJid(fold, input).value;
    ParsedWellFormed(fold, input);
    DomainStable(fold, j.domain);
    if Trimmed(Print(j)) {
      ReparseTrimmed(fold, j);
    } else {
      ReparseUntrimmed(fold, j);
    }
  }

  lemma ReparseTrimmed(fold: Fold, j: Jid)
    requires WellFormed(fold, j) && Trimmed(Print(j))
    ensures ParseJid(fold, Print(j)) == Check(Jid(j.local, NormDomain(fold, j.domain), j.resource))
  {
    PrintSplits(j);
    TrimSpaceFixes(Print(j));
    var local := if j.local == "" then None else Some(j.local);
    var resource := if j.resource == "" then None else Some(j.resource);
    assert OrEmpty(local) == j.local && OrEmpty(resource) == j.resource;
    assert ParseJid(fold, Print(j)) == ParseValue(fold, (Bare(j), resource));
    assert ParseValue(fold, (Bare(j), resource)) == ParseBare(fold, (local, j.domain), j.resource);
  }

  lemma ReparseUntrimmed(fold: Fold, j: Jid)
    requires WellFormed(fold, j) && !Trimmed(Print(j))
    ensures ParseJid(fold, Print(j)) != Ok(j) && !StableEnd(j.domain)
  {
    PrintEnds(j);
    TrimSpaceShrinks(Print(j));
    ParsingShortens(fold, Print(j));
  }

  // Escaping of localparts

  /** The escape sequence of a character that a localpart may not hold, or the character itself. */
  function EscapeChar(c: char): string {
    if c == '\\' then "\\5c" else if c == ' ' then "\\20" else if c == '\"' then "\\22"
    else if c == '&' then "\\26" else if c == '\'' then "\\27" else if c == '/' then "\\2f"
    else if c == ':' then "\\3a" else if c == '<' then "\\3c" else if c == '>' then "\\3e"
    else if c == '@' then "\\40" else [c]
  }

  function EscapeLocal(s: string): string {
    if s == "" then "" else EscapeChar(s[0]) + EscapeLocal(s[1..])
  }

  function UnescapeCode(code: string): Option<char> {
    if code == "\\20" then Some(' ') else if code == "\\22" then Some('\"')
    else if code == "\\26" then Some('&') else if code == "\\27" then Some('\'')
    else if code == "\\2f" then Some('/') else if code == "\\3a" then Some(':')
    else if code == "\\3c" then Some('<') else if code == "\\3e" then Some('>')
    else if code == "\\40" then Some('@') else if code == "\\5c" then Some('\\') else None
  }

  /** The replacer reads left to right; text that is no escape sequence passes through. */
  function UnescapeLocal(s: string): string {
    if s == "" then ""
    else if |s| >= 3 && UnescapeCode(s[..3]).Some? then [UnescapeCode(s[..3]).value] + UnescapeLocal(s[3..])
    else [s[0]] + UnescapeLocal(s[1..])
  }

  lemma EscapeCharDecodes(c: char)
    ensures (EscapeChar(c) == [c] && c != '\\') || (|EscapeChar(c)| == 3 && UnescapeCode(EscapeChar(c)) == Some(c))
  {
  }

  lemma NotACode(code: string)
    requires code != "" && code[0] != '\\'
    ensures UnescapeCode(code).None?
  {
  }

  /** Ten characters are escaped, each as a backslash and its two hexadecimal digits; no other one is. */
  lemma EscapedAsHex(c: char)
    ensures EscapeChar(c) == if c in " \"&'/:<>@\\" then "\\" + HexOf(c) else [c]
  {
  }

  /** The two hexadecimal digits of an ASCII character. */
  function HexOf(c: char): string {
    if c > '\U{7F}' then "" else [Digit(c as nat / 16), Digit(c as nat % 16)]
  }

  /** Unescaping undoes escaping for every string. */
  lemma {:induction false} UnescapeEscape(s: string)
    ensures UnescapeLocal(EscapeLocal(s)) == s
  {
    if s != "" {
      UnescapeEscape(s[1..]);
      var rest := EscapeLocal(s[1..]);
      var e := EscapeLocal(s);
      EscapeCharDecodes(s[0]);
      assert s == [s[0]] + s[1..];
      if EscapeChar(s[0]) == [s[0]] && s[0] != '\\' {
        assert e == [s[0]] + rest && e[1..] == rest;
        if |e| >= 3 {
          NotACode(e[..3]);
        }
      } else {
        assert e[..3] == EscapeChar(s[0]) && e[3..] == rest;
      }
    }
  }

  /** An escaped localpart holds none of the characters that a JID's localpart may not hold. */
  lemma {:induction false} EscapedIsClean(s: string, c: char)
    requires c in " \"&'/:<>@"
    ensures c !in EscapeLocal(s)
  {
    if s != "" {
      EscapedIsClean(s[1..], c);
      assert c !in EscapeChar(s[0]);
    }
  }
}
