/**
 Scope patterns: a glob is compiled to the text of a regular expression, and the expression
 is matched. Characters stand for UTF-16 code units.
 */
module ScopeGlob {
  import opened Common

  // ---------------------------------------------------------------- the compiler

  predicate IsSyntax(c: char) {
    c in ".+^${}()|[]\\"
  }

  function EscapeChar(c: char): string {
    if IsSyntax(c) then ['\\', c] else [c]
  }

  function StarChar(c: char): string {
    if c == '*' then ".*" else [c]
  }

  function QuestionChar(c: char): string {
    if c == '?' then "." else [c]
  }

  /** The three replacements, one after the other over the whole text. */
  function Body(lowered: string): string {
    Expand(Expand(Expand(lowered, EscapeChar), StarChar), QuestionChar)
  }

  function Compile(pattern: string): string {
    "^" + Body(Lower(pattern)) + "$"
  }

  // ---------------------------------------------------------------- regular expressions

  datatype Atom = AnyChar | Literal(c: char)

  datatype Item = Item(atom: Atom, starred: bool)

  predicate IsLineTerminator(c: char) {
    c in {'\n', '\r', '\U{2028}', '\U{2029}'}
  }

  predicate AtomMatches(a: Atom, c: char) {
    match a case AnyChar => !IsLineTerminator(c) case Literal(l) => c == l
  }

  /** Whether the items, taken in order, can consume the whole text. */
  predicate Consumes(items: seq<Item>, s: string)
    decreases |items| + |s|
  {
    if items == [] then s == ""
    else if items[0].starred then
      Consumes(items[1..], s) || (s != "" && AtomMatches(items[0].atom, s[0]) && Consumes(items, s[1..]))
    else s != "" && AtomMatches(items[0].atom, s[0]) && Consumes(items[1..], s[1..])
  }

  /** SyntaxCharacter of ECMA-262, section 22.2.1. */
  predicate IsSyntaxCharacter(c: char) {
    c in {'^', '$', '\\', '.', '*', '+', '?', '(', ')', '[', ']', '{', '}', '|'}
  }

  /** The first atom of an expression, with the length of its text. */
  function ParseAtom(text: string): (r: Option<(Atom, nat)>)
    ensures r.Some? ==> 1 <= r.value.1 <= |text|
  {
    if text == "" then None
    else if text[0] == '.' then Some((AnyChar, 1))
    else if text[0] == '\\' then
      if |text| >= 2 && IsSyntaxCharacter(text[1]) then Some((Literal(text[1]), 2)) else None
    else if IsSyntaxCharacter(text[0]) then None
    else Some((Literal(text[0]), 1))
  }

  /** Atoms, each perhaps starred, up to the closing `$`; None for any other syntax. */
  function ParseItems(text: string): Option<seq<Item>>
    decreases |text|
  {
    if text == "$" then Some([])
    else
      match ParseAtom(text)
      case None => None
      case Some((atom, n)) =>
        var starred := n < |text| && text[n] == '*';
        match ParseItems(text[if starred then n + 1 else n..])
        case None => None
        case Some(items) => Some([Item(atom, starred)] + items)
  }

  function Parse(text: string): Option<seq<Item>> {
    if text != "" && text[0] == '^' then ParseItems(text[1..]) else None
  }

  /** `matchesScope`; a text that is not an expression is the branch that catches the error. */
  predicate MatchesScope(pattern: string, name: string) {
    if pattern == "*" then true
    else
      match Parse(Compile(pattern))
      case None => false
      case Some(items) => Consumes(items, Lower(name))
  }

  datatype Environment = Production | Sandbox | Both

  datatype Scope = Scope(resourceType: string, pattern: string, environment: Environment)

  predicate ScopeCovers(scope: Scope, resourceType: string, name: string, environment: Environment) {
    if scope.resourceType != "*" && scope.resourceType != resourceType then false
    else if scope.environment != Both && scope.environment != environment then false
    else MatchesScope(scope.pattern, name)
  }

  // ---------------------------------------------------------------- the meaning of a glob

  /** `*` stands for any text and `?` for any one character. */
  ghost predicate Glob(p: string, s: string)
    decreases |p|
  {
    if p == "" then s == ""
    else if p[0] == '*' then exists k :: 0 <= k <= |s| && Glob(p[1..], s[k..])
    else s != "" && (p[0] == '?' || p[0] == s[0]) && Glob(p[1..], s[1..])
  }

  // ---------------------------------------------------------------- one translation per character

  function TranslateChar(c: char): string {
    if c == '*' then ".*" else if c == '?' then "." else EscapeChar(c)
  }

  function ItemOf(c: char): Item {
    if c == '*' then Item(AnyChar, true) else if c == '?' then Item(AnyChar, false) else Item(Literal(c), false)
  }

  function Items(p: string): seq<Item> {
    if p == "" then [] else [ItemOf(p[0])] + Items(p[1..])
  }

  lemma {:induction false} ExpandAppend(a: string, b: string, f: char -> string)
    ensures Expand(a + b, f) == Expand(a, f) + Expand(b, f)
  {
    if a == "" {
      assert a + b == b;
    } else {
      assert (a + b)[1..] == a[1..] + b;
      ExpandAppend(a[1..], b, f);
    }
  }

  lemma ExpandShort(c: char, d: char, f: char -> string)
    ensures Expand([c], f) == f(c)
    ensures Expand([c, d], f) == f(c) + f(d)
  {
    assert [c, d][1..] == [d] && [d][1..] == "" && [c][1..] == "";
  }

  lemma ReplacementsOfOne(c: char)
    ensures Expand(Expand(EscapeChar(c), StarChar), QuestionChar) == TranslateChar(c)
  {
    ExpandShort(c, c, StarChar);
    ExpandShort(c, c, QuestionChar);
    ExpandShort('\\', c, StarChar);
    ExpandShort('\\', c, QuestionChar);
    ExpandShort('.', '*', QuestionChar);
  }

  /** The three replacements amount to one translation of each character. */
  lemma {:induction false} ThreePassesAreOne(p: string)
    ensures Body(p) == Expand(p, TranslateChar)
  {
    if p != "" {
      ExpandAppend(EscapeChar(p[0]), Expand(p[1..], EscapeChar), StarChar);
      ExpandAppend(Expand(EscapeChar(p[0]), StarChar), Expand(Expand(p[1..], EscapeChar), StarChar), QuestionChar);
      ReplacementsOfOne(p[0]);
      ThreePassesAreOne(p[1..]);
    }
  }

  // ---------------------------------------------------------------- the text parses back

  lemma ParseOneItem(c: char, rest: string)
    requires rest != "" && rest[0] != '*'
    ensures ParseItems(TranslateChar(c) + rest)
         == match ParseItems(rest) case None => None case Some(items) => Some([ItemOf(c)] + items)
  {
    var text := TranslateChar(c) + rest;
    assert text[|TranslateChar(c)|..] == rest;
    assert |text| > 1;
  }

  lemma {:induction false} ParseTranslated(p: string)
    ensures ParseItems(Expand(p, TranslateChar) + "$") == Some(Items(p))
  {
    if p == "" {
      assert Expand(p, TranslateChar) + "$" == "$";
    } else {
      var rest := Expand(p[1..], TranslateChar) + "$";
      ParseTranslated(p[1..]);
      ParseOneItem(p[0], rest);
      assert Expand(p, TranslateChar) + "$" == TranslateChar(p[0]) + rest;
    }
  }

  /** The emitted text is an expression, and it has exactly one item for each pattern character. */
  lemma CompileParsesBack(pattern: string)
    ensures Parse(Compile(pattern)) == Some(Items(Lower(pattern)))
  {
    ThreePassesAreOne(Lower(pattern));
    ParseTranslated(Lower(pattern));
    assert Compile(pattern)[1..] == Expand(Lower(pattern), TranslateChar) + "$";
  }

  // ---------------------------------------------------------------- the two languages

  predicate OneLine(s: string) {
    forall i :: 0 <= i < |s| ==> !IsLineTerminator(s[i])
  }

  lemma {:induction false} ItemsMeanGlob(p: string, s: string)
    requires OneLine(s)
    ensures Consumes(Items(p), s) <==> Glob(p, s)
    decreases |p| + |s|
  {
    if p != "" {
      assert Items(p)[1..] == Items(p[1..]);
      if p[0] == '*' {
        ItemsMeanGlob(p[1..], s);
        assert s[0..] == s;
        if s != "" {
          ItemsMeanGlob(p, s[1..]);
          StarMoves(p, s);
        }
      } else if s != "" {
        ItemsMeanGlob(p[1..], s[1..]);
      }
    }
  }

  lemma StarMoves(p: string, s: string)
    requires p != "" && p[0] == '*' && s != ""
    ensures Glob(p, s) <==> Glob(p[1..], s) || Glob(p, s[1..])
  {
    if Glob(p, s) {
      var k :| 0 <= k <= |s| && Glob(p[1..], s[k..]);
      if k == 0 {
        assert s[k..] == s;
      } else {
        assert s[1..][k - 1..] == s[k..];
      }
    }
    if Glob(p[1..], s) {
      assert s[0..] == s;
    }
    if Glob(p, s[1..]) {
      var k :| 0 <= k <= |s[1..]| && Glob(p[1..], s[1..][k..]);
      assert s[1..][k..] == s[k + 1..];
    }
  }

  lemma LoneStarMatches(s: string)
    ensures Glob("*", s) && Glob("**", s)
  {
    assert s[|s|..] == "" && "**"[1..] == "*" && "*"[1..] == "";
    assert Glob("", s[|s|..]);
    assert Glob("*", s);
    assert s[0..] == s;
  }

  /** For names of one line the compiled expression means what the glob means. */
  lemma MatchesScopeIsGlob(pattern: string, name: string)
    requires OneLine(name)
    ensures MatchesScope(pattern, name) <==> Glob(Lower(pattern), Lower(name))
  {
    CompileParsesBack(pattern);
    ItemsMeanGlob(Lower(pattern), Lower(name));
    LoneStarMatches(Lower(name));
  }

  lemma {:induction false} DotsStopAtLines(items: seq<Item>, s: string)
    requires Consumes(items, s) && forall k :: 0 <= k < |items| ==> items[k].atom.AnyChar?
    ensures OneLine(s)
    decreases |items| + |s|
  {
    if items != [] {
      if items[0].starred && Consumes(items[1..], s) {
        DotsStopAtLines(items[1..], s);
      } else if items[0].starred {
        DotsStopAtLines(items, s[1..]);
        assert s == [s[0]] + s[1..];
      } else {
        DotsStopAtLines(items[1..], s[1..]);
        assert s == [s[0]] + s[1..];
      }
    }
  }

  lemma TwoStarsFail(name: string)
    requires !OneLine(name)
    ensures !MatchesScope("**", name)
  {
    if MatchesScope("**", name) {
      CompileParsesBack("**");
      DotsStopAtLines(Items("**"), Lower(name));
      assert false;
    }
  }

  /** The matcher agrees with the glob on every pattern exactly when the name is one line. */
  lemma MatchesScopeExact(name: string)
    ensures (forall pattern :: MatchesScope(pattern, name) <==> Glob(Lower(pattern), Lower(name))) <==> OneLine(name)
  {
    if OneLine(name) {
      forall pattern ensures MatchesScope(pattern, name) <==> Glob(Lower(pattern), Lower(name)) {
        MatchesScopeIsGlob(pattern, name);
      }
    } else {
      TwoStarsFail(name);
      LoneStarMatches(Lower(name));
    }
  }

  /** A scope covers a one-line resource exactly when type, environment and glob all allow it. */
  lemma ScopeCoversExact(scope: Scope, resourceType: string, name: string, environment: Environment)
    requires OneLine(name)
    ensures ScopeCovers(scope, resourceType, name, environment) <==>
      && scope.resourceType in {"*", resourceType}
      && scope.environment in {Both, environment}
      && Glob(Lower(scope.pattern), Lower(name))
  {
    MatchesScopeIsGlob(scope.pattern, name);
  }
}
