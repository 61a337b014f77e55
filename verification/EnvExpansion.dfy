/**
 * Expansion of environment variables in configuration values: the tokens of the input, and what
 * each of them stands for.
 */
module EnvExpansion {
  import opened Wrappers
  import opened Text

  /** `closed` tells whether a braced name ends with its brace or with the input. */
  datatype Token = Plain(c: char) | Braced(name: string, closed: bool) | Bare(name: string)

  /** How many characters of `s`, from its start, may stand in a bare name. */
  function WordLength(s: string, word: char -> bool): (n: nat)
    ensures n <= |s|
    ensures forall i | 0 <= i < n :: word(s[i])
    ensures n < |s| ==> !word(s[n])
  {
    if s == "" || !word(s[0]) then 0 else 1 + WordLength(s[1..], word)
  }

  /** The token a value starts with, and what comes after; `word` tells what a bare name may have. */
  function First(s: string, word: char -> bool): (r: (Token, string))
    requires s != ""
    ensures |r.1| < |s|
  {
    if s[0] != '$' then (Plain(s[0]), s[1..])
    else if |s| > 1 && s[1] == '{' then
      match Find(s[2..], '}')
      case None => (Braced(s[2..], false), "")
      case Some(i) => (Braced(s[2..][..i], true), s[2..][i + 1..])
    else if |s| > 1 && word(s[1]) then
      (Bare(s[1..][..WordLength(s[1..], word)]), s[1..][WordLength(s[1..], word)..])
    else (Plain('$'), s[1..])
  }

  function Tokens(s: string, word: char -> bool): seq<Token>
    decreases |s|
  {
    if s == "" then [] else [First(s, word).0] + Tokens(First(s, word).1, word)
  }

  /** The characters a token was read from. */
  function Spelling(t: Token): string {
    match t
    case Plain(c) => [c]
    case Braced(name, closed) => ['$', '{'] + name + if closed then ['}'] else []
    case Bare(name) => ['$'] + name
  }

  /** What a token stands for; a variable that is not set is written back, with its brace. */
  function Meaning(t: Token, env: map<string, string>): string {
    match t
    case Plain(c) => [c]
    case Braced(name, _) => if name in env then env[name] else ['$', '{'] + name + ['}']
    case Bare(name) => if name in env then env[name] else ['$'] + name
  }

  function Spelled(tokens: seq<Token>): string {
    if tokens == [] then [] else Spelling(tokens[0]) + Spelled(tokens[1..])
  }

  function Substituted(tokens: seq<Token>, env: map<string, string>): string {
    if tokens == [] then [] else Meaning(tokens[0], env) + Substituted(tokens[1..], env)
  }

  lemma SubstitutedCons(t: Token, rest: seq<Token>, env: map<string, string>)
    ensures Substituted([t] + rest, env) == Meaning(t, env) + Substituted(rest, env)
  {
    assert ([t] + rest)[1..] == rest;
  }

  // ----- The expansion

  /** Takes characters up to the closing brace, which is taken too, or to the end. */
  method TakeBraced(s: string) returns (name: string, rest: string)
    ensures match Find(s, '}')
            case None => name == s && rest == []
            case Some(i) => name == s[..i] && rest == s[i + 1..]
  {
    name, rest := [], s;
    while rest != []
      invariant s == name + rest && '}' !in name
      decreases |rest|
    {
      var c := rest[0];
      rest := rest[1..];
      if c == '}' {
        FirstIsFound(s, '}', |name|);
        return;
      }
      name := name + [c];
    }
  }

  method TakeWord(s: string, word: char -> bool) returns (name: string, rest: string)
    ensures name == s[..WordLength(s, word)] && rest == s[WordLength(s, word)..]
  {
    name, rest := [], s;
    while rest != [] && word(rest[0])
      invariant |name| <= |s| && name == s[..|name|] && rest == s[|name|..]
      invariant |name| + WordLength(rest, word) == WordLength(s, word)
      decreases |rest|
    {
      assert s[..|name| + 1] == s[..|name|] + [rest[0]];
      name := name + [rest[0]];
      rest := rest[1..];
    }
  }

  method LookUp(name: string, env: map<string, string>, written: string) returns (text: string)
    ensures text == if name in env then env[name] else written
  {
    if name in env {
      text := env[name];
    } else {
      text := written;
    }
  }

  /** What the first token stands for; `chars` is what comes after it. */
  method ExpandFirst(s: string, env: map<string, string>, word: char -> bool) returns (text: string, chars: string)
    requires s != []
    ensures text == Meaning(First(s, word).0, env) && chars == First(s, word).1
  {
    var ch := s[0];
    chars := s[1..];
    if ch == '$' {
      if chars != [] && chars[0] == '{' {
        var name;
        assert chars[1..] == s[2..];
        name, chars := TakeBraced(chars[1..]);
        text := LookUp(name, env, ['$', '{'] + name + ['}']);
      } else if chars != [] && word(chars[0]) {
        var name;
        name, chars := TakeWord(chars, word);
        text := LookUp(name, env, ['$'] + name);
      } else {
        text := [ch];
      }
    } else {
      text := [ch];
    }
  }

  lemma SubstitutedNext(result: string, s: string, env: map<string, string>, word: char -> bool)
    requires s != []
    ensures result + Meaning(First(s, word).0, env) + Substituted(Tokens(First(s, word).1, word), env)
         == result + Substituted(Tokens(s, word), env)
  {
    SubstitutedCons(First(s, word).0, Tokens(First(s, word).1, word), env);
  }

  /** Variables are looked up by the names in the input: values are never read again. */
  method ExpandEnvVars(s: string, env: map<string, string>, word: char -> bool) returns (result: string)
    ensures result == Substituted(Tokens(s, word), env)
  {
    result := [];
    var chars := s;
    while chars != []
      invariant result + Substituted(Tokens(chars, word), env) == Substituted(Tokens(s, word), env)
      decreases |chars|
    {
      SubstitutedNext(result, chars, env, word);
      var text;
      text, chars := ExpandFirst(chars, env, word);
      result := result + text;
    }
  }

  // ----- The tokens spell the input

  lemma BracedSpells(s: string, i: nat)
    requires |s| >= i + 3 && s[0] == '$' && s[1] == '{' && s[i + 2] == '}'
    ensures ['$', '{'] + s[2..][..i] + ['}'] + s[2..][i + 1..] == s
  {
    assert s[2..][..i] == s[2..i + 2] && s[2..][i + 1..] == s[i + 3..];
    assert s == s[..2] + s[2..i + 2] + s[i + 2..i + 3] + s[i + 3..];
    assert s[..2] == ['$', '{'] && s[i + 2..i + 3] == ['}'];
  }

  lemma OpenSpells(s: string)
    requires |s| >= 2 && s[0] == '$' && s[1] == '{'
    ensures ['$', '{'] + s[2..] + [] + "" == s
  {
    assert s == s[..2] + s[2..] && s[..2] == ['$', '{'];
  }

  lemma BareSpells(s: string, n: nat)
    requires |s| >= n + 1 && s[0] == '$'
    ensures ['$'] + s[1..][..n] + s[1..][n..] == s
  {
    assert s == s[..1] + (s[1..][..n] + s[1..][n..]) && s[..1] == ['$'];
  }

  lemma FirstSpells(s: string, word: char -> bool)
    requires s != ""
    ensures Spelling(First(s, word).0) + First(s, word).1 == s
  {
    if s[0] == '$' && |s| > 1 && s[1] == '{' {
      match Find(s[2..], '}') {
        case None => OpenSpells(s);
        case Some(i) => BracedSpells(s, i);
      }
    } else if s[0] == '$' && |s| > 1 && word(s[1]) {
      BareSpells(s, WordLength(s[1..], word));
    }
  }

  lemma {:induction false} TokensSpell(s: string, word: char -> bool)
    ensures Spelled(Tokens(s, word)) == s
    decreases |s|
  {
    if s != "" {
      FirstSpells(s, word);
      TokensSpell(First(s, word).1, word);
      SpelledCons(First(s, word).0, Tokens(First(s, word).1, word));
    }
  }

  lemma SpelledCons(t: Token, rest: seq<Token>)
    ensures Spelled([t] + rest) == Spelling(t) + Spelled(rest)
  {
    assert ([t] + rest)[1..] == rest;
  }

  // ----- Set variables are replaced

  function Expanded(s: string, env: map<string, string>, word: char -> bool): string {
    Substituted(Tokens(s, word), env)
  }

  lemma ExpandedNext(s: string, t: Token, rest: string, env: map<string, string>, word: char -> bool)
    requires s != "" && First(s, word) == (t, rest)
    ensures Expanded(s, env, word) == Meaning(t, env) + Expanded(rest, env, word)
  {
    SubstitutedCons(t, Tokens(rest, word), env);
  }

  lemma {:induction false} WordEnds(name: string, rest: string, word: char -> bool)
    requires (forall i | 0 <= i < |name| :: word(name[i])) && (rest != "" ==> !word(rest[0]))
    ensures WordLength(name + rest, word) == |name|
  {
    if name == "" {
      assert name + rest == rest;
    } else {
      WordEnds(name[1..], rest, word);
      assert (name + rest)[1..] == name[1..] + rest;
    }
  }

  /** The values of both forms of a set variable stand in its place, and the rest is expanded by itself. */
  lemma {:induction false} SetIsReplaced(name: string, rest: string, env: map<string, string>, word: char -> bool)
    requires name in env
    ensures '}' !in name ==>
              Expanded(['$', '{'] + (name + (['}'] + rest)), env, word) == env[name] + Expanded(rest, env, word)
    ensures name != "" && name[0] != '{' && (forall i | 0 <= i < |name| :: word(name[i]))
            && (rest != "" ==> !word(rest[0])) ==>
              Expanded(['$'] + (name + rest), env, word) == env[name] + Expanded(rest, env, word)
  {
    if '}' !in name {
      var tail := name + (['}'] + rest);
      FirstIsFound(tail, '}', |name|);
      assert (['$', '{'] + tail)[2..] == tail;
      assert tail[..|name|] == name && tail[|name| + 1..] == rest;
      ExpandedNext(['$', '{'] + tail, Braced(name, true), rest, env, word);
    }
    if name != "" && name[0] != '{' && (forall i | 0 <= i < |name| :: word(name[i]))
       && (rest != "" ==> !word(rest[0])) {
      WordEnds(name, rest, word);
      assert (['$'] + (name + rest))[1..] == name + rest;
      assert (name + rest)[..|name|] == name && (name + rest)[|name|..] == rest;
      ExpandedNext(['$'] + (name + rest), Bare(name), rest, env, word);
    }
  }

  lemma ExpandedPlain(c: char, rest: string, env: map<string, string>, word: char -> bool)
    requires c != '$'
    ensures Expanded([c] + rest, env, word) == [c] + Expanded(rest, env, word)
  {
    assert ([c] + rest)[1..] == rest;
    ExpandedNext([c] + rest, Plain(c), rest, env, word);
  }

  /** A dollar sign that opens neither form stays as it is. */
  lemma DollarIsKept(rest: string, env: map<string, string>, word: char -> bool)
    requires rest != "" ==> rest[0] != '{' && !word(rest[0])
    ensures Expanded(['$'] + rest, env, word) == ['$'] + Expanded(rest, env, word)
  {
    assert (['$'] + rest)[1..] == rest;
    ExpandedNext(['$'] + rest, Plain('$'), rest, env, word);
  }

  /** Text in front that holds no dollar sign stays as it is. */
  lemma {:induction false} PlainIsKept(plain: string, rest: string, env: map<string, string>, word: char -> bool)
    requires '$' !in plain
    ensures Expanded(plain + rest, env, word) == plain + Expanded(rest, env, word)
  {
    if plain == "" {
      assert plain + rest == rest;
    } else {
      var c, more := plain[0], plain[1..];
      PlainIsKept(more, rest, env, word);
      ExpandedPlain(c, more + rest, env, word);
      HeadFirst(plain, rest);
      HeadFirst(plain, Expanded(rest, env, word));
    }
  }

  lemma HeadFirst(s: string, t: string)
    requires s != ""
    ensures s + t == [s[0]] + (s[1..] + t)
  {
  }

  // ----- Unset variables are left as written, exactly when every brace is closed

  /** Some `${` has no closing brace after it. */
  ghost predicate HasUnclosed(s: string) {
    exists p :: OpensUnclosed(s, p)
  }

  ghost predicate OpensUnclosed(s: string, p: int) {
    0 <= p < |s| - 1 && s[p] == '$' && s[p + 1] == '{' && '}' !in s[p + 2..]
  }

  predicate IsClosed(t: Token) {
    t.Braced? ==> t.closed
  }

  predicate AllClosed(tokens: seq<Token>) {
    tokens == [] || (IsClosed(tokens[0]) && AllClosed(tokens[1..]))
  }

  ghost predicate NoneSet(tokens: seq<Token>, env: map<string, string>) {
    forall i | 0 <= i < |tokens| && !tokens[i].Plain? :: tokens[i].name !in env
  }

  /** Without a set variable the text grows by one brace for each that is missing. */
  lemma {:induction false} UnsetTokens(tokens: seq<Token>, env: map<string, string>)
    requires NoneSet(tokens, env)
    ensures |Substituted(tokens, env)| >= |Spelled(tokens)|
    ensures Substituted(tokens, env) == Spelled(tokens) <==> AllClosed(tokens)
  {
    if tokens != [] {
      var t, rest := tokens[0], tokens[1..];
      UnsetTokens(rest, env);
      if !IsClosed(t) {
        assert |Meaning(t, env)| == |Spelling(t)| + 1;
        assert |Substituted(tokens, env)| > |Spelled(tokens)|;
      } else {
        assert Meaning(t, env) == Spelling(t);
        SameTails(Spelling(t), Substituted(rest, env), Spelled(rest));
      }
    }
  }

  lemma SameTails(a: string, b: string, c: string)
    ensures a + b == a + c <==> b == c
  {
    if a + b == a + c {
      assert b == (a + b)[|a|..] == (a + c)[|a|..] == c;
    }
  }

  /** Skipping `n` characters that open no unclosed brace changes nothing. */
  lemma SkipsClosed(s: string, n: nat)
    requires n <= |s|
    requires forall p | 0 <= p < n :: !OpensUnclosed(s, p)
    ensures HasUnclosed(s) <==> HasUnclosed(s[n..])
  {
    if HasUnclosed(s) {
      var p :| OpensUnclosed(s, p);
      assert s[n..][p - n + 2..] == s[p + 2..];
      assert OpensUnclosed(s[n..], p - n);
    }
    if HasUnclosed(s[n..]) {
      var p :| OpensUnclosed(s[n..], p);
      assert s[n..][p + 2..] == s[p + n + 2..];
      assert OpensUnclosed(s, p + n);
    }
  }

  lemma ClosedBefore(s: string, i: nat)
    requires i < |s| && s[i] == '}'
    ensures forall p | 0 <= p < i - 1 :: !OpensUnclosed(s, p)
  {
    forall p | 0 <= p < i - 1 ensures !OpensUnclosed(s, p) {
      assert s[p + 2..][i - p - 2] == '}';
    }
  }

  lemma FirstOpensIff(s: string, word: char -> bool)
    requires s != "" && !word('$')
    ensures !IsClosed(First(s, word).0) ==> OpensUnclosed(s, 0) && First(s, word).1 == ""
    ensures IsClosed(First(s, word).0) ==> forall p | 0 <= p < |s| - |First(s, word).1| :: !OpensUnclosed(s, p)
  {
    if s[0] == '$' && |s| > 1 && s[1] == '{' {
      var found := Find(s[2..], '}');
      if found.Some? {
        var i := found.value;
        assert s[2..][i] == s[i + 2];
        ClosedBefore(s, i + 2);
        assert s[i + 1] != '$' || s[i + 2] != '{';
      }
    } else if s[0] == '$' && |s| > 1 && word(s[1]) {
      assert forall p | 1 <= p < WordLength(s[1..], word) + 1 :: s[p] == s[1..][p - 1];
    }
  }

  lemma {:induction false} ClosedIff(s: string, word: char -> bool)
    requires !word('$')
    ensures AllClosed(Tokens(s, word)) <==> !HasUnclosed(s)
    decreases |s|
  {
    if s != "" {
      var t, after := First(s, word).0, First(s, word).1;
      FirstOpensIff(s, word);
      ClosedIff(after, word);
      assert ([t] + Tokens(after, word))[1..] == Tokens(after, word);
      if IsClosed(t) {
        FirstSpells(s, word);
        assert s[|s| - |after|..] == after;
        SkipsClosed(s, |s| - |after|);
      }
    }
  }

  /**
   * When no variable of the value is set, expansion gives the value back exactly when every `${` is
   * closed; an unclosed one gains a brace.
   */
  lemma UnsetIsKeptIff(s: string, env: map<string, string>, word: char -> bool)
    requires !word('$') && NoneSet(Tokens(s, word), env)
    ensures Substituted(Tokens(s, word), env) == s <==> !HasUnclosed(s)
  {
    TokensSpell(s, word);
    UnsetTokens(Tokens(s, word), env);
    ClosedIff(s, word);
  }
}
