/** When the iteration order of the variables shows in the expanded text: the exact limits. */
module TemplateOrder {
  import opened Sequences
  import opened Text
  import opened SkillGraph
  import opened Templates

  ghost predicate KeysEnumerated(o: seq<string>, vars: Variables) {
    Enumerates(o, vars.Keys) && forall k | k in o :: k in vars
  }

  /** Expanding `t` gives the same text for every iteration order of `vars`. */
  ghost predicate OrderFree(vars: Variables, t: string) {
    forall o1, o2 | KeysEnumerated(o1, vars) && KeysEnumerated(o2, vars) ::
      ReplaceEach(o1, vars, t) == ReplaceEach(o2, vars, t)
  }

  lemma SafeIsOrderFree(vars: Variables, t: string)
    requires SafeVariables(vars) && !Nested(t)
    ensures OrderFree(vars, t)
  {
    forall o1, o2 | KeysEnumerated(o1, vars) && KeysEnumerated(o2, vars)
      ensures ReplaceEach(o1, vars, t) == ReplaceEach(o2, vars, t)
    {
      ExpansionIsSubstitution(vars, t, o1);
      ExpansionIsSubstitution(vars, t, o2);
    }
  }

  // ----- Replacing by nothing shrinks the text

  lemma {:induction false} ReplaceByNothing(s: string, pat: string)
    requires pat != ""
    ensures |Replace(s, pat, "")| <= |s|
    ensures Contains(s, pat) ==> |Replace(s, pat, "")| < |s|
  {
    if s != "" {
      if pat <= s {
        ReplaceByNothing(s[|pat|..], pat);
      } else {
        ReplaceByNothing(s[1..], pat);
      }
    }
  }

  lemma {:induction false} ContainsMiddle(a: string, pat: string, b: string)
    ensures Contains(a + pat + b, pat)
  {
    if a == "" {
      assert a + pat + b == pat + b;
    } else {
      assert (a + pat + b)[1..] == a[1..] + pat + b;
      ContainsMiddle(a[1..], pat, b);
    }
  }

  lemma {:induction false} TooLongToOccur(s: string, pat: string)
    requires |s| < |pat|
    ensures !Contains(s, pat)
  {
    if s != "" {
      TooLongToOccur(s[1..], pat);
    }
  }

  /** A match of `{k}` cannot run across the start of another brace. */
  lemma {:induction false} ReplaceUpToBrace(a: string, s: string, k: string, v: string)
    requires BraceFree(k) && s != "" && s[0] == '{'
    ensures Replace(a + s, Placeholder(k), v) == Replace(a, Placeholder(k), v) + Replace(s, Placeholder(k), v)
    decreases |a|
  {
    var pat, whole := Placeholder(k), a + s;
    if a == "" {
      assert whole == s;
    } else if pat <= whole {
      MatchStaysLeft(a, s, k);
      var rest := a[|pat|..];
      assert Replace(whole, pat, v) == v + Replace(rest + s, pat, v) by {
        assert whole[|pat|..] == rest + s;
      }
      ReplaceUpToBrace(rest, s, k, v);
    } else {
      assert !(pat <= a) by {
        assert a <= whole;
      }
      assert Replace(whole, pat, v) == [a[0]] + Replace(a[1..] + s, pat, v) by {
        assert whole[1..] == a[1..] + s;
      }
      ReplaceUpToBrace(a[1..], s, k, v);
    }
  }

  lemma MatchStaysLeft(a: string, s: string, k: string)
    requires BraceFree(k) && a != "" && s != "" && s[0] == '{' && Placeholder(k) <= a + s
    ensures Placeholder(k) <= a
  {
    assert (a + s)[|a|] == '{';
    assert forall j | 0 < j < |Placeholder(k)| :: (a + s)[j] == Placeholder(k)[j] != '{';
  }

  // ----- Two variables, two orders

  function Two(k: string, v: string, l: string, w: string): Variables {
    map[k := v, l := w]
  }

  lemma TwoOrders(k: string, v: string, l: string, w: string, t: string)
    requires k != l
    requires Replace(Replace(t, Placeholder(k), v), Placeholder(l), w)
             != Replace(Replace(t, Placeholder(l), w), Placeholder(k), v)
    ensures !OrderFree(Two(k, v, l, w), t)
  {
    var vars := Two(k, v, l, w);
    assert KeysEnumerated([k, l], vars) by {
      BothEnumerated(k, l, vars);
    }
    assert KeysEnumerated([l, k], vars) by {
      BothEnumerated(l, k, vars);
    }
    assert ReplaceEach([k, l], vars, t) != ReplaceEach([l, k], vars, t) by {
      TwoReplacements(vars, k, l, t);
      TwoReplacements(vars, l, k, t);
    }
  }

  lemma BothEnumerated(k: string, l: string, vars: Variables)
    requires k != l && vars.Keys == {k, l}
    ensures KeysEnumerated([k, l], vars)
  {
    assert Elements([k, l]) == {k, l};
  }

  lemma TwoReplacements(vars: Variables, k: string, l: string, t: string)
    requires k in vars && l in vars
    ensures ReplaceEach([k, l], vars, t) == Replace(Replace(t, Placeholder(k), vars[k]), Placeholder(l), vars[l])
  {
    var t1 := Replace(t, Placeholder(k), vars[k]);
    var t2 := Replace(t1, Placeholder(l), vars[l]);
    assert [k, l][1..] == [l] && [l][1..] == [];
    assert ReplaceEach([l], vars, t1) == ReplaceEach([], vars, t2);
  }

  // ----- Values

  /** `v` never makes the order show: next to `{`-free values and brace-free keys, in unnested templates. */
  ghost predicate SafeValue(v: string) {
    forall vars, t | BraceFreeKeys(vars) && (forall k | k in vars :: vars[k] == v || '{' !in vars[k]) && !Nested(t) ::
      OrderFree(vars, t)
  }

  lemma {:induction false} LastOpenBrace(v: string) returns (a: string, b: string)
    requires '{' in v
    ensures v == a + "{" + b && '{' !in b
  {
    if '{' in v[1..] {
      a, b := LastOpenBrace(v[1..]);
      a := [v[0]] + a;
    } else {
      assert v == [v[0]] + v[1..];
      a, b := "", v[1..];
    }
  }

  /** A value followed by `suffix` that spells `{k}` is expanded again, or not, depending on the order. */
  lemma SpelledPlaceholder(v: string, a: string, k: string, b: string, suffix: string)
    requires BraceFree(k) && (suffix == "" || suffix == "}")
    requires v + suffix == a + Placeholder(k) + b
    ensures !SafeValue(v)
  {
    var l := k + "x";
    var t, vars := Placeholder(l) + suffix, Two(l, v, k, "");
    assert Replace(t, Placeholder(l), v) == v + suffix by {
      ReplaceAtFront(suffix, Placeholder(l), v);
      MissingCharacter(suffix, Placeholder(l), '{');
      ReplaceAbsent(suffix, Placeholder(l), v);
    }
    assert Replace(v + suffix, Placeholder(k), "") != v + suffix by {
      ContainsMiddle(a, Placeholder(k), b);
      ReplaceByNothing(v + suffix, Placeholder(k));
    }
    assert Replace(t, Placeholder(k), "") == t by {
      ReplaceOther(l, suffix, k, "");
      MissingCharacter(suffix, Placeholder(k), '{');
      ReplaceAbsent(suffix, Placeholder(k), "");
    }
    assert !OrderFree(vars, t) by {
      TwoOrders(l, v, k, "", t);
    }
    assert forall i | 0 < i < |t| :: t[i] != '{';
    assert !Nested(t) && BraceFreeKeys(vars);
    assert forall x | x in vars :: vars[x] == v || '{' !in vars[x];
  }

  /** A variable's value keeps expansion independent of the iteration order exactly when it holds no `{`. */
  lemma SafeValueIffNoOpenBrace(v: string)
    ensures SafeValue(v) <==> '{' !in v
  {
    if '{' !in v {
      forall vars, t | BraceFreeKeys(vars) && (forall k | k in vars :: vars[k] == v || '{' !in vars[k]) && !Nested(t)
        ensures OrderFree(vars, t)
      {
        SafeIsOrderFree(vars, t);
      }
    } else {
      var a, b := LastOpenBrace(v);
      match Find(b, '}') {
        case Some(i) =>
          var k := b[..i];
          assert BraceFree(k) && b == k + "}" + b[i + 1..];
          assert v + "" == a + Placeholder(k) + b[i + 1..];
          SpelledPlaceholder(v, a, k, b[i + 1..], "");
        case None =>
          assert v + "}" == a + Placeholder(b) + "";
          SpelledPlaceholder(v, a, b, "", "}");
      }
    }
  }

  // ----- Keys

  /** `k` never makes the order show: next to brace-free keys and `{`-free values, in unnested templates. */
  ghost predicate SafeKey(k: string) {
    forall vars, t | (forall x | x in vars :: (x == k || BraceFree(x)) && '{' !in vars[x]) && !Nested(t) ::
      OrderFree(vars, t)
  }

  lemma {:induction false} ContainsNested(s: string, pat: string)
    requires Contains(s, pat) && Nested(pat)
    ensures Nested(s)
  {
    if pat <= s {
      var i, j, k :| NestedAt(pat, i, j, k);
      assert NestedAt(s, i, j, k);
    } else {
      ContainsNested(s[1..], pat);
      if !Nested(s) {
        SuffixNotNested(s, 1);
      }
    }
  }

  lemma HiddenKeyIsAbsent(done: Variables, t: string, k: string, v: string)
    requires SafeVariables(done) && !Nested(t) && Nested(Placeholder(k))
    ensures Replace(Substitute(done, t), Placeholder(k), v) == Substitute(done, t)
  {
    SubstituteKeepsUnnested(done, t);
    if Contains(Substitute(done, t), Placeholder(k)) {
      ContainsNested(Substitute(done, t), Placeholder(k));
    }
    ReplaceAbsent(Substitute(done, t), Placeholder(k), v);
  }

  /** A key whose placeholder is nested is never found, whenever its turn comes. */
  lemma {:induction false} ReplaceEachSkips(order: seq<string>, done: Variables, vars: Variables, k: string, t: string)
    requires SafeVariables(vars - {k}) && Nested(Placeholder(k)) && !Nested(t) && NoDuplicates(order)
    requires k !in done && (forall x | x in done :: x in vars && done[x] == vars[x])
    requires forall x | x in order :: x in vars
    requires Elements(order) - {k} == vars.Keys - {k} - done.Keys
    ensures ReplaceEach(order, vars, Substitute(done, t)) == Substitute(vars - {k}, t)
    decreases |order|
  {
    assert SafeVariables(done) by {
      assert forall x | x in done :: x in vars - {k} && (vars - {k})[x] == done[x];
    }
    if order == [] {
      assert Elements(order) == {};
      forall x | x in vars - {k} ensures x in done {
        assert x !in vars.Keys - {k} - done.Keys;
      }
      assert done == vars - {k};
    } else {
      var x, text := order[0], Substitute(done, t);
      DropFirst(order);
      if x == k {
        HiddenKeyIsAbsent(done, t, k, vars[k]);
        ReplaceEachSkips(order[1..], done, vars, k, t);
      } else {
        assert x in Elements(order) && x in vars - {k};
        ReplaceExtends(done, t, x, vars[x]);
        var more := done[x := vars[x]];
        assert more.Keys == done.Keys + {x};
        assert Elements(order[1..]) - {k} == (Elements(order) - {k}) - {x};
        assert vars.Keys - {k} - more.Keys == (vars.Keys - {k} - done.Keys) - {x};
        ReplaceEachSkips(order[1..], more, vars, k, t);
      }
    }
  }

  lemma HiddenKeyIsSafe(k: string)
    requires Nested(Placeholder(k))
    ensures SafeKey(k)
  {
    forall vars, t | (forall x | x in vars :: (x == k || BraceFree(x)) && '{' !in vars[x]) && !Nested(t)
      ensures OrderFree(vars, t)
    {
      forall o | KeysEnumerated(o, vars) ensures ReplaceEach(o, vars, t) == Substitute(vars - {k}, t) {
        SubstituteNothing(t);
        ReplaceEachSkips(o, map[], vars, k, t);
      }
    }
  }

  lemma WholeThenPart(t: string, w: string, a: string)
    requires t != "" && '{' !in w
    ensures Replace(Replace(t, t, w), Placeholder(a), "") == w
  {
    assert t == t + "";
    ReplaceAtFront("", t, w);
    assert w + Replace("", t, w) == w;
    MissingCharacter(w, Placeholder(a), '{');
    ReplaceAbsent(w, Placeholder(a), "");
  }

  lemma PartThenWhole(a: string, rest: string, w: string)
    ensures var t := Placeholder(a) + rest;
            |Replace(Replace(t, Placeholder(a), ""), t, w)| <= |rest|
  {
    var t := Placeholder(a) + rest;
    var r := Replace(t, Placeholder(a), "");
    ReplaceAtFront(rest, Placeholder(a), "");
    ReplaceByNothing(rest, Placeholder(a));
    assert "" + Replace(rest, Placeholder(a), "") == Replace(rest, Placeholder(a), "");
    TooLongToOccur(r, t);
    ReplaceAbsent(r, t, w);
  }

  /** Where a key closes a brace it did not open, its own placeholder starts with that of another key. */
  lemma ClosingKeyIsUnsafe(a: string, b: string)
    requires BraceFree(a) && !Nested(Placeholder(a + "}" + b))
    ensures !SafeKey(a + "}" + b)
  {
    var k := a + "}" + b;
    var t, w := Placeholder(k), seq(|b| + 2, _ => 'x');
    assert t == Placeholder(a) + (b + "}");
    WholeThenPart(t, w, a);
    PartThenWhole(a, b + "}", w);
    TwoOrders(k, w, a, "", t);
    assert forall x | x in Two(k, w, a, "") :: (x == k || BraceFree(x)) && '{' !in Two(k, w, a, "")[x];
  }

  lemma HiddenByOpening(k: string)
    requires '{' in k && '}' !in k
    ensures Nested(Placeholder(k))
  {
    var i :| 0 <= i < |k| && k[i] == '{';
    assert NestedAt(Placeholder(k), 0, i + 1, |k| + 1);
  }

  lemma OpeningBeforeClosing(a: string, b: string)
    requires '}' !in a && !Nested(Placeholder(a + "}" + b))
    ensures BraceFree(a)
  {
    if '{' in a {
      var i :| 0 <= i < |a| && a[i] == '{';
      var t := Placeholder(a + "}" + b);
      assert forall x | 0 <= x < |a| :: t[x + 1] == a[x] && a[x] in a;
      assert NestedAt(t, 0, i + 1, |a| + 1);
    }
  }

  /**
   * A variable's key keeps expansion independent of the iteration order exactly when it holds no brace, or
   * opens one before any it closes: then no unnested text spells its placeholder.
   */
  lemma SafeKeyIff(k: string)
    ensures SafeKey(k) <==> BraceFree(k) || Nested(Placeholder(k))
  {
    if BraceFree(k) {
      forall vars, t | (forall x | x in vars :: (x == k || BraceFree(x)) && '{' !in vars[x]) && !Nested(t)
        ensures OrderFree(vars, t)
      {
        SafeIsOrderFree(vars, t);
      }
    } else if Nested(Placeholder(k)) {
      HiddenKeyIsSafe(k);
    } else {
      match Find(k, '}')
      case None => HiddenByOpening(k);
      case Some(i) =>
        assert k == k[..i] + "}" + k[i + 1..];
        OpeningBeforeClosing(k[..i], k[i + 1..]);
        ClosingKeyIsUnsafe(k[..i], k[i + 1..]);
    }
  }

  // ----- Templates

  /** `t` never makes the order show, whatever the safe variables. */
  ghost predicate SafeTemplate(t: string) {
    forall vars | SafeVariables(vars) :: OrderFree(vars, t)
  }

  /** A nested template reads `a { b { c } d` with brace-free `b` and `c`. */
  lemma NestedShape(t: string) returns (a: string, b: string, c: string, d: string)
    requires Nested(t)
    ensures t == a + ("{" + b + (Placeholder(c) + d)) && BraceFree(b) && BraceFree(c)
  {
    var i, j, k :| NestedAt(t, i, j, k);
    var before, outer;
    before, c := LastOpenBrace(t[i + 1..k]) by {
      assert t[i + 1..k][j - i - 1] == '{';
    }
    outer, b := LastOpenBrace("{" + before);
    a, d := t[..i] + outer, t[k + 1..];
    var middle := outer + "{" + b + "{" + c;
    assert t[i..k] == middle by {
      assert t[i..k] == "{" + t[i + 1..k];
    }
    assert BraceFree(b) && BraceFree(c) by {
      assert forall x | x in b || x in c :: x in middle;
    }
    assert t == t[..i] + middle + "}" + d by {
      assert t == t[..i] + t[i..k] + "}" + d;
    }
    Regroup(t[..i], outer, b, c, d);
  }

  lemma Regroup(p: string, outer: string, b: string, c: string, d: string)
    ensures p + (outer + "{" + b + "{" + c) + "}" + d == (p + outer) + ("{" + b + (Placeholder(c) + d))
  {
  }

  lemma NestedIsUnsafe(a: string, b: string, c: string, d: string)
    requires BraceFree(b) && BraceFree(c)
    ensures !SafeTemplate(a + ("{" + b + (Placeholder(c) + d)))
  {
    var t := a + ("{" + b + (Placeholder(c) + d));
    var filler := seq(|t| + 1, _ => 'x');
    assert BraceFree(filler);
    var w, l := filler + "}", b + filler;
    var front, back := Replace(a, Placeholder(c), w), Replace(d, Placeholder(c), w);
    FillInner(a, b, c, d, filler);
    ContainsMiddle(front, Placeholder(l), back);
    ReplaceByNothing(front + Placeholder(l) + back, Placeholder(l));
    TooLongToOccur(t, Placeholder(l));
    ReplaceAbsent(t, Placeholder(l), "");
    TwoOrders(c, w, l, "", t);
    assert SafeVariables(Two(c, w, l, ""));
  }

  /** The value `filler }` of the inner placeholder completes the outer one to `{b filler}`. */
  lemma FillInner(a: string, b: string, c: string, d: string, filler: string)
    requires BraceFree(b) && BraceFree(c)
    ensures var w := filler + "}";
            Replace(a + ("{" + b + (Placeholder(c) + d)), Placeholder(c), w)
            == Replace(a, Placeholder(c), w) + Placeholder(b + filler) + Replace(d, Placeholder(c), w)
  {
    var w, inner, pat := filler + "}", Placeholder(c) + d, Placeholder(c);
    var head := "{" + b;
    ReplaceUpToBrace(a, head + inner, c, w);
    assert Replace(head + inner, pat, w) == head + (w + Replace(d, pat, w)) by {
      ReplaceUpToBrace(head, inner, c, w);
      MissingCharacter(head, pat, '}');
      ReplaceAbsent(head, pat, w);
      ReplaceAtFront(d, pat, w);
    }
    JoinFiller(Replace(a, pat, w), b, filler, Replace(d, pat, w));
  }

  lemma JoinFiller(front: string, b: string, filler: string, back: string)
    ensures front + (("{" + b) + ((filler + "}") + back)) == front + Placeholder(b + filler) + back
  {
  }

  /** A template expands the same in every order, for all safe variables, exactly when it is not nested. */
  lemma SafeTemplateIffNotNested(t: string)
    ensures SafeTemplate(t) <==> !Nested(t)
  {
    if Nested(t) {
      var a, b, c, d := NestedShape(t);
      NestedIsUnsafe(a, b, c, d);
    } else {
      forall vars | SafeVariables(vars) ensures OrderFree(vars, t) {
        SafeIsOrderFree(vars, t);
      }
    }
  }
}
