/** Table name patterns: an unquoted pattern becomes a literal name or a regular expression. */
module TablePattern {
  import opened Wrappers

  // ---------------------------------------------------------------------------------------------
  // The wildcard language
  // ---------------------------------------------------------------------------------------------

  predicate IsWildcard(c: char) {
    c == '*' || c == '+' || c == '?'
  }

  /** Whether a wildcard may stand for the text; with `newlines` it may stand for anything. */
  predicate Covers(text: string, newlines: bool) {
    newlines || '\n' !in text
  }

  /** `*` is zero or more characters, `+` one or more, `?` exactly one, every other character itself. */
  predicate Wild(p: string, name: string, newlines: bool) {
    if p == [] then name == []
    else if p[0] == '*' then
      exists k :: 0 <= k <= |name| && Covers(name[..k], newlines) && Wild(p[1..], name[k..], newlines)
    else if p[0] == '+' then
      exists k :: 0 < k <= |name| && Covers(name[..k], newlines) && Wild(p[1..], name[k..], newlines)
    else if p[0] == '?' then name != [] && Covers(name[..1], newlines) && Wild(p[1..], name[1..], newlines)
    else name != [] && name[0] == p[0] && Wild(p[1..], name[1..], newlines)
  }

  // ---------------------------------------------------------------------------------------------
  // Regular expressions
  // ---------------------------------------------------------------------------------------------

  datatype Regex =
    | Epsilon
    | Char(c: char)
    | Dot
    | Star(body: Regex)
    | Plus(body: Regex)
    | Once(body: Regex)
    | Concat(first: Regex, second: Regex)

  function Height(r: Regex): nat {
    match r
    case Star(body) => Height(body) + 1
    case Plus(body) => Height(body) + 2
    case Once(body) => Height(body) + 1
    case Concat(first, second) => Height(first) + Height(second) + 1
    case _ => 0
  }

  /** The texts that the expression describes as a whole; a dot is any character but a newline. Lazy operators choose
      among the matches, and describe the same texts. */
  predicate Describes(r: Regex, text: string)
    decreases Height(r), |text|
  {
    match r
    case Epsilon => text == []
    case Char(c) => text == [c]
    case Dot => |text| == 1 && text[0] != '\n'
    case Star(body) =>
      text == [] || exists k :: 0 < k <= |text| && Describes(body, text[..k]) && Describes(r, text[k..])
    case Plus(body) => exists k :: 0 <= k <= |text| && Describes(body, text[..k]) && Describes(Star(body), text[k..])
    case Once(body) => Describes(body, text)
    case Concat(first, second) =>
      exists k :: 0 <= k <= |text| && Describes(first, text[..k]) && Describes(second, text[k..])
  }

  predicate IsWord(c: char) {
    'a' <= c <= 'z' || 'A' <= c <= 'Z' || '0' <= c <= '9' || c == '_'
  }

  /** One atom with its operator, and the number of characters it takes. */
  function ParseItem(s: string): (item: Option<(Regex, nat)>)
    requires s != []
    ensures item.Some? ==> 0 < item.value.1 <= |s|
  {
    if s[0] != '.' && !IsWord(s[0]) then None
    else
      var atom := if s[0] == '.' then Dot else Char(s[0]);
      if |s| > 1 && s[1] == '*' then Some((Star(atom), if |s| > 2 && s[2] == '?' then 3 else 2))
      else if |s| > 1 && s[1] == '+' then Some((Plus(atom), if |s| > 2 && s[2] == '?' then 3 else 2))
      else if |s| > 3 && s[1..4] == "{1}" then Some((Once(atom), 4))
      else Some((atom, 1))
  }

  /** The fragment of the expression syntax made of words, dots and the operators `*`, `+`, their lazy forms and
      `{1}`. */
  function ParseRegex(s: string): Option<Regex> {
    if s == [] then Some(Epsilon)
    else
      var item := ParseItem(s);
      if item.None? then None
      else
        var rest := ParseRegex(s[item.value.1..]);
        if rest.None? then None else Some(Concat(item.value.0, rest.value))
  }

  // ---------------------------------------------------------------------------------------------
  // Patterns
  // ---------------------------------------------------------------------------------------------

  predicate IsAscii(s: string) {
    forall i :: 0 <= i < |s| ==> s[i] as int < 128
  }

  predicate IsQuoted(token: string) {
    token != [] && token[0] == '"' && token[|token| - 1] == '"'
  }

  function Lower(c: char): char {
    if 'A' <= c <= 'Z' then c + ('a' - 'A') else c
  }

  function ToLower(s: string): (t: string)
    ensures |t| == |s| && forall i :: 0 <= i < |s| ==> t[i] == Lower(s[i])
  {
    seq(|s|, i requires 0 <= i < |s| => Lower(s[i]))
  }

  function Upper(c: char): char {
    if 'a' <= c <= 'z' then c - ('a' - 'A') else c
  }

  function ToUpper(s: string): (t: string)
    ensures |t| == |s| && forall i :: 0 <= i < |s| ==> t[i] == Upper(s[i])
  {
    seq(|s|, i requires 0 <= i < |s| => Upper(s[i]))
  }

  function Piece(c: char): string {
    if c == '*' then ".*?" else if c == '?' then ".{1}" else if c == '+' then ".+?" else [c]
  }

  function Translated(p: string): string {
    if p == [] then [] else Piece(p[0]) + Translated(p[1..])
  }

  predicate Legal(p: string) {
    forall i :: 0 <= i < |p| ==> IsWord(p[i]) || IsWildcard(p[i])
  }

  predicate HasWildcard(p: string) {
    exists i :: 0 <= i < |p| && IsWildcard(p[i])
  }

  /** A pattern as it is stored in a filter. */
  datatype Pattern = Literal(name: string) | Expression(text: string)

  predicate Accepted(lower: string, reserved: seq<string>)
    requires lower != []
  {
    && |lower| <= 63
    && ('0' > lower[0] || lower[0] > '9')
    && Legal(lower)
    && (HasWildcard(lower) || ToUpper(lower) !in reserved)
  }

  /** What an unquoted token becomes. An empty token is indexed out of range. */
  function Parsed(token: string, reserved: seq<string>): Result<Pattern> {
    var lower := ToLower(token);
    if token == [] then Panic
    else if !Accepted(lower, reserved) then Err
    else Ok(if HasWildcard(lower) then Expression(Translated(lower)) else Literal(lower))
  }

  predicate IsLetter(c: char) {
    'a' <= c <= 'z' || 'A' <= c <= 'Z'
  }

  /** The token may be used as a pattern: it has 1 to 63 letters, digits, underscores and wildcards, does not begin
      with a digit, and without a wildcard is no reserved keyword in upper case. */
  ghost predicate IsPattern(token: string, reserved: seq<string>) {
    && 1 <= |token| <= 63
    && (forall i :: 0 <= i < |token| ==>
          IsLetter(token[i]) || token[i] == '_' || token[i] in "*+?" || (i > 0 && '0' <= token[i] <= '9'))
    && (ToUpper(token) in reserved ==> exists i :: 0 <= i < |token| && token[i] in "*+?")
  }

  /** An unquoted token is accepted exactly if it may be used as a pattern; only an empty one ends the program. */
  lemma AcceptedExactly(token: string, reserved: seq<string>)
    ensures Parsed(token, reserved).Ok? <==> IsPattern(token, reserved)
    ensures Parsed(token, reserved).Panic? <==> token == []
  {
    if token != [] {
      var lower := ToLower(token);
      assert ToUpper(lower) == ToUpper(token) by { SameUpper(token); }
      SameCharacters(token);
      if Legal(lower) && '0' <= lower[0] <= '9' {
        assert !IsPattern(token, reserved);
      }
    }
  }

  lemma SameUpper(token: string)
    ensures ToUpper(ToLower(token)) == ToUpper(token)
  {
  }

  lemma SameCharacters(token: string)
    ensures var lower := ToLower(token);
            forall i :: 0 <= i < |token| ==>
              && (IsWord(lower[i]) <==> IsLetter(token[i]) || token[i] == '_' || '0' <= token[i] <= '9')
              && (IsWildcard(lower[i]) <==> token[i] in "*+?")
              && ('0' <= lower[i] <= '9' <==> '0' <= token[i] <= '9')
    ensures HasWildcard(ToLower(token)) <==> exists i :: 0 <= i < |token| && token[i] in "*+?"
  {
    var lower := ToLower(token);
    forall i | 0 <= i < |token| ensures IsWildcard(lower[i]) <==> token[i] in "*+?" {
      assert token[i] in "*+?" <==> token[i] == '*' || token[i] == '+' || token[i] == '?';
    }
  }

  lemma {:induction false} TranslatedWord(p: string)
    requires !HasWildcard(p)
    ensures Translated(p) == p
  {
    if p != [] {
      assert !IsWildcard(p[0]);
      assert forall i :: 0 <= i < |p[1..]| ==> p[1..][i] == p[i + 1];
      TranslatedWord(p[1..]);
    }
  }

  /** Builds the text of the expression; fails at a character that an unquoted pattern may not have. */
  method Build(lower: string) returns (legal: bool, builder: string, isRegex: bool)
    ensures legal == Legal(lower)
    ensures legal ==> builder == Translated(lower) && isRegex == HasWildcard(lower)
  {
    legal, isRegex := true, false;
    builder := "";
    var i := 0;
    while i < |lower|
      invariant 0 <= i <= |lower|
      invariant Legal(lower[..i]) && isRegex == HasWildcard(lower[..i])
      invariant builder + Translated(lower[i..]) == Translated(lower)
    {
      var c := lower[i];
      assert lower[..i + 1] == lower[..i] + [c];
      assert lower[i..][1..] == lower[i + 1..];
      WildcardSoFar(lower, i);
      if IsWildcard(c) {
        isRegex := true;
      } else if !IsWord(c) {
        return false, builder, isRegex;
      }
      assert builder + (Piece(c) + Translated(lower[i + 1..])) == (builder + Piece(c)) + Translated(lower[i + 1..]);
      builder := builder + Piece(c);
      i := i + 1;
    }
    assert lower[..i] == lower && lower[i..] == [];
    assert builder + [] == builder;
  }

  method IsReserved(name: string, reserved: seq<string>) returns (found: bool)
    ensures found == (ToUpper(name) in reserved)
  {
    var j := 0;
    while j < |reserved|
      invariant 0 <= j <= |reserved| && ToUpper(name) !in reserved[..j]
    {
      if reserved[j] == ToUpper(name) {
        return true;
      }
      j := j + 1;
    }
    found := false;
  }

  method ParseToken(token: string, reserved: seq<string>) returns (r: Result<Pattern>)
    requires IsAscii(token) && !IsQuoted(token)
    ensures r == Parsed(token, reserved)
  {
    hide HasWildcard, Translated, Legal;
    if token == [] {
      return Panic;
    }
    var lower := ToLower(token);
    if |lower| > 63 {
      return Err;
    }
    if !('a' <= lower[0] <= 'z') && lower[0] != '_' && !IsWildcard(lower[0]) {
      FirstIsIllegal(token, reserved);
      return Err;
    }
    var legal, builder, isRegex := Build(lower);
    if !legal {
      return Err;
    }
    if !isRegex {
      TranslatedWord(lower);
      var found := IsReserved(builder, reserved);
      if found {
        return Err;
      }
    }
    r := Ok(if isRegex then Expression(builder) else Literal(builder));
  }

  lemma FirstIsIllegal(token: string, reserved: seq<string>)
    requires token != []
    requires var c := ToLower(token)[0]; !('a' <= c <= 'z') && c != '_' && !IsWildcard(c)
    ensures !Accepted(ToLower(token), reserved)
  {
    var lower := ToLower(token);
    assert !('A' <= lower[0] <= 'Z');
  }

  lemma WildcardSoFar(p: string, i: nat)
    requires i < |p|
    ensures HasWildcard(p[..i + 1]) <==> HasWildcard(p[..i]) || IsWildcard(p[i])
    ensures Legal(p) ==> IsWord(p[i]) || IsWildcard(p[i])
  {
    if HasWildcard(p[..i]) {
      var k :| 0 <= k < i && IsWildcard(p[..i][k]);
      assert IsWildcard(p[..i + 1][k]);
    }
    if IsWildcard(p[i]) {
      assert IsWildcard(p[..i + 1][i]);
    }
    if HasWildcard(p[..i + 1]) {
      var k :| 0 <= k < i + 1 && IsWildcard(p[..i + 1][k]);
      if k < i {
        assert IsWildcard(p[..i][k]);
      }
    }
  }

  // ---------------------------------------------------------------------------------------------
  // The translation is right
  // ---------------------------------------------------------------------------------------------

  function ItemOf(c: char): Regex {
    if c == '*' then Star(Dot) else if c == '+' then Plus(Dot) else if c == '?' then Once(Dot) else Char(c)
  }

  /** The expression of a legal pattern. */
  function RegexOf(p: string): Regex {
    if p == [] then Epsilon else Concat(ItemOf(p[0]), RegexOf(p[1..]))
  }

  lemma TranslatedStart(p: string)
    requires Legal(p) && p != []
    ensures Translated(p)[0] == '.' || IsWord(Translated(p)[0])
  {
    assert IsWord(p[0]) || IsWildcard(p[0]);
  }

  lemma PieceParses(c: char, rest: string)
    requires IsWord(c) || IsWildcard(c)
    requires rest != [] ==> rest[0] == '.' || IsWord(rest[0])
    ensures ParseItem(Piece(c) + rest) == Some((ItemOf(c), |Piece(c)|))
  {
    var text := Piece(c) + rest;
    if c == '?' {
      assert text[1..4] == "{1}";
    } else if !IsWildcard(c) {
      assert |text| > 1 ==> text[1] == rest[0];
      assert |text| > 3 ==> text[1..4][0] == rest[0];
    }
  }

  /** The text that is built can always be compiled, and is the expression of the pattern. */
  lemma {:induction false} TranslationParses(p: string)
    requires Legal(p)
    ensures ParseRegex(Translated(p)) == Some(RegexOf(p))
  {
    if p != [] {
      hide ParseItem, Piece, ItemOf;
      assert IsWord(p[0]) || IsWildcard(p[0]);
      assert Legal(p[1..]);
      TranslationParses(p[1..]);
      if |p| > 1 {
        TranslatedStart(p[1..]);
      }
      PieceParses(p[0], Translated(p[1..]));
      assert Translated(p)[|Piece(p[0])|..] == Translated(p[1..]);
    }
  }

  lemma {:induction false} StarOfDots(text: string)
    ensures Describes(Star(Dot), text) <==> '\n' !in text
  {
    if text != [] {
      StarOfDots(text[1..]);
      assert text == text[..1] + text[1..];
      if '\n' !in text {
        assert Describes(Dot, text[..1]) && Describes(Star(Dot), text[1..]);
      }
      if Describes(Star(Dot), text) {
        var k :| 0 < k <= |text| && Describes(Dot, text[..k]) && Describes(Star(Dot), text[k..]);
        assert k == 1;
      }
    }
  }

  lemma PlusOfDots(text: string)
    ensures Describes(Plus(Dot), text) <==> text != [] && '\n' !in text
  {
    if text != [] {
      StarOfDots(text[1..]);
      assert text == text[..1] + text[1..];
      if '\n' !in text {
        assert Describes(Dot, text[..1]) && Describes(Star(Dot), text[1..]);
      }
    }
    if Describes(Plus(Dot), text) {
      var k :| 0 <= k <= |text| && Describes(Dot, text[..k]) && Describes(Star(Dot), text[k..]);
      assert k == 1;
    }
  }

  /** Which texts a wildcard or character stands for. */
  predicate Stands(c: char, text: string) {
    if c == '*' then '\n' !in text
    else if c == '+' then text != [] && '\n' !in text
    else if c == '?' then |text| == 1 && text[0] != '\n'
    else text == [c]
  }

  lemma ItemStands(p: string, text: string)
    requires p != []
    ensures Describes(RegexOf(p).first, text) <==> Stands(p[0], text)
  {
    StarOfDots(text);
    PlusOfDots(text);
  }

  lemma WildStands(p: string, name: string)
    requires p != []
    ensures Wild(p, name, false) <==>
              exists k :: 0 <= k <= |name| && Stands(p[0], name[..k]) && Wild(p[1..], name[k..], false)
  {
    if p[0] == '?' || !IsWildcard(p[0]) {
      if Wild(p, name, false) {
        assert Stands(p[0], name[..1]);
      }
      if k :| 0 <= k <= |name| && Stands(p[0], name[..k]) && Wild(p[1..], name[k..], false) {
        assert k == 1;
      }
    }
  }

  lemma {:induction false} RegexIsWild(p: string, name: string)
    ensures Describes(RegexOf(p), name) <==> Wild(p, name, false)
  {
    if p != [] {
      WildStands(p, name);
      forall k | 0 <= k <= |name|
        ensures Describes(RegexOf(p).first, name[..k]) <==> Stands(p[0], name[..k])
        ensures Describes(RegexOf(p[1..]), name[k..]) <==> Wild(p[1..], name[k..], false)
      {
        ItemStands(p, name[..k]);
        RegexIsWild(p[1..], name[k..]);
      }
    }
  }

  lemma {:induction false} LiteralIsWild(p: string, name: string, newlines: bool)
    requires !HasWildcard(p)
    ensures Wild(p, name, newlines) <==> name == p
  {
    if p != [] {
      assert !IsWildcard(p[0]);
      assert forall i :: 0 <= i < |p[1..]| ==> p[1..][i] == p[i + 1];
      if name != [] {
        LiteralIsWild(p[1..], name[1..], newlines);
        assert name == [name[0]] + name[1..] && p == [p[0]] + p[1..];
      }
    }
  }

  /** On names without a newline the two readings of a wildcard agree. */
  lemma {:induction false} OnOneLine(p: string, name: string)
    requires '\n' !in name
    ensures Wild(p, name, true) <==> Wild(p, name, false)
  {
    if p != [] {
      forall k | 0 <= k <= |name| ensures Wild(p[1..], name[k..], true) <==> Wild(p[1..], name[k..], false) {
        OnOneLine(p[1..], name[k..]);
      }
    }
  }

  predicate Matches(pattern: Pattern, name: string) {
    match pattern
    case Literal(text) => text == name
    case Expression(text) => ParseRegex(text).Some? && Describes(ParseRegex(text).value, name)
  }

  /** For every name, an accepted pattern matches exactly the wildcard language of the pattern in lower case in which
      no wildcard stands for a newline; what is built for a pattern with wildcards always compiles. */
  lemma PatternIsWild(token: string, reserved: seq<string>, name: string)
    requires Parsed(token, reserved).Ok?
    ensures Matches(Parsed(token, reserved).value, name) <==> Wild(ToLower(token), name, false)
    ensures Parsed(token, reserved).value.Expression? ==> ParseRegex(Parsed(token, reserved).value.text).Some?
  {
    var lower := ToLower(token);
    if HasWildcard(lower) {
      TranslationParses(lower);
      RegexIsWild(lower, name);
    } else {
      LiteralIsWild(lower, name, false);
    }
  }

  /** For names without a newline that is the documented language. */
  lemma PatternIsDocumented(token: string, reserved: seq<string>, name: string)
    requires Parsed(token, reserved).Ok? && '\n' !in name
    ensures Matches(Parsed(token, reserved).value, name) <==> Wild(ToLower(token), name, true)
  {
    PatternIsWild(token, reserved, name);
    OnOneLine(ToLower(token), name);
  }

  /** A wildcard does not reach across a newline, although the documentation allows any character. */
  lemma NewlineIsMissed(reserved: seq<string>)
    ensures Parsed("*", reserved).Ok?
    ensures Wild(ToLower("*"), "\n", true) && !Matches(Parsed("*", reserved).value, "\n")
  {
    var lower := ToLower("*");
    assert lower == "*";
    assert HasWildcard(lower) by { assert IsWildcard(lower[0]); }
    assert Wild(lower[1..], "\n"[1..], true) && Covers("\n"[..1], true);
    PatternIsWild("*", reserved, "\n");
    assert "\n"[..1][0] == '\n';
    assert !Wild(lower, "\n", false);
  }
}
