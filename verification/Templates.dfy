/**
 * Placeholder expansion, `ExecContext::expand_template`: replacing one variable after the other, and
 * when that is one simultaneous substitution.
 */
module Templates {
  import opened Sequences
  import opened Wrappers
  import opened Text
  import opened SkillGraph

  /** `str::replace`: leftmost matches first, without overlap, replacements not rescanned. */
  function Replace(s: string, pat: string, val: string): string
    requires pat != ""
  {
    if s == "" then ""
    else if pat <= s then val + Replace(s[|pat|..], pat, val)
    else [s[0]] + Replace(s[1..], pat, val)
  }

  function Placeholder(key: string): string {
    "{" + key + "}"
  }

  function ReplaceEach(order: seq<string>, vars: Variables, t: string): string
    requires forall k | k in order :: k in vars
  {
    if order == [] then t
    else ReplaceEach(order[1..], vars, Replace(t, Placeholder(order[0]), vars[order[0]]))
  }

  ghost predicate Enumerates(order: seq<string>, keys: set<string>) {
    NoDuplicates(order) && Elements(order) == keys
  }

  /** Some order of the keys of a hash map; nothing is known about which. */
  method HashOrder(keys: set<string>) returns (order: seq<string>)
    ensures Enumerates(order, keys)
  {
    order := [];
    var rest := keys;
    while rest != {}
      invariant NoDuplicates(order)
      invariant Elements(order) + rest == keys && Elements(order) !! rest
      decreases rest
    {
      var k :| k in rest;
      assert k !in order;
      assert Elements(order + [k]) == Elements(order) + {k};
      order, rest := order + [k], rest - {k};
    }
  }

  // ----- The reference: all placeholders at once

  /** The key between a leading `{` and the next `}`, if it names a variable. */
  function LeadingKey(vars: Variables, t: string): Option<string> {
    if t == "" || t[0] != '{' then None
    else match Find(t[1..], '}')
      case None => None
      case Some(i) => if t[1..][..i] in vars then Some(t[1..][..i]) else None
  }

  /** Simultaneous substitution, one pass from left to right. */
  function Substitute(vars: Variables, t: string): string
    decreases |t|
  {
    if t == "" then ""
    else match LeadingKey(vars, t)
      case Some(key) => vars[key] + Substitute(vars, t[|key| + 2..])
      case None => [t[0]] + Substitute(vars, t[1..])
  }

  predicate BraceFree(s: string) {
    '{' !in s && '}' !in s
  }

  ghost predicate BraceFreeKeys(vars: Variables) {
    forall k | k in vars :: BraceFree(k)
  }

  ghost predicate SafeVariables(vars: Variables) {
    BraceFreeKeys(vars) && forall k | k in vars :: '{' !in vars[k]
  }

  /** Some `}` closes a `{` inside which another `{` was opened. */
  ghost predicate Nested(t: string) {
    exists i, j, k :: NestedAt(t, i, j, k)
  }

  ghost predicate NestedAt(t: string, i: int, j: int, k: int) {
    && 0 <= i < j < k < |t| && t[i] == '{' && t[j] == '{' && t[k] == '}'
    && forall x | i <= x < k :: t[x] != '}'
  }

  lemma SuffixNotNested(t: string, n: nat)
    requires !Nested(t) && n <= |t|
    ensures !Nested(t[n..])
  {
    forall i, j, k | NestedAt(t[n..], i, j, k) ensures NestedAt(t, i + n, j + n, k + n) {
      assert forall x | n <= x < |t| :: t[x] == t[n..][x - n];
    }
  }

  // ----- How the two treat text around a placeholder

  lemma {:induction false} SubstituteLiteral(vars: Variables, a: string, s: string)
    requires '{' !in a
    ensures Substitute(vars, a + s) == a + Substitute(vars, s)
  {
    if a == "" {
      assert a + s == s;
    } else {
      assert (a + s)[1..] == a[1..] + s;
      SubstituteLiteral(vars, a[1..], s);
    }
  }

  lemma {:induction false} SubstituteUnclosed(vars: Variables, t: string)
    requires '}' !in t
    ensures Substitute(vars, t) == t
  {
    if t != "" {
      SubstituteUnclosed(vars, t[1..]);
    }
  }

  lemma {:induction false} SubstituteNothing(t: string)
    ensures Substitute(map[], t) == t
  {
    if t != "" {
      SubstituteNothing(t[1..]);
    }
  }

  lemma {:induction false} ReplaceSkips(a: string, s: string, pat: string, val: string)
    requires pat != "" && pat[0] !in a
    ensures Replace(a + s, pat, val) == a + Replace(s, pat, val)
  {
    if a == "" {
      assert a + s == s;
    } else {
      assert (a + s)[0] == a[0];
      assert (a + s)[1..] == a[1..] + s;
      ReplaceSkips(a[1..], s, pat, val);
    }
  }

  lemma {:induction false} ReplaceAbsent(s: string, pat: string, val: string)
    requires pat != "" && !Contains(s, pat)
    ensures Replace(s, pat, val) == s
  {
    if s != "" {
      ReplaceAbsent(s[1..], pat, val);
    }
  }

  lemma {:induction false} MissingCharacter(s: string, pat: string, c: char)
    requires c in pat && c !in s
    ensures !Contains(s, pat)
  {
    if s != "" {
      MissingCharacter(s[1..], pat, c);
    }
  }

  /** A leading placeholder-shaped piece of unnested text is `{inner}` with a brace-free `inner`. */
  lemma LeadingBrace(t: string, i: nat)
    requires !Nested(t) && t != "" && t[0] == '{' && Find(t[1..], '}') == Some(i)
    ensures BraceFree(t[1..][..i])
    ensures t == Placeholder(t[1..][..i]) + t[i + 2..]
  {
    var inner := t[1..][..i];
    assert t[i + 1] == '}' && t[0..i + 1] == "{" + inner;
    assert forall x | 0 <= x < i :: t[x + 1] == inner[x] && inner[x] in inner;
    forall j | 0 <= j < |inner| ensures inner[j] != '{' {
      assert t[j + 1] == '{' ==> NestedAt(t, 0, j + 1, i + 1);
    }
  }

  lemma SubstituteBraced(vars: Variables, inner: string, rest: string)
    requires '{' !in inner
    ensures Substitute(vars, inner + "}" + rest) == inner + "}" + Substitute(vars, rest)
  {
    SubstituteLiteral(vars, inner + "}", rest);
  }

  lemma LeadingKeyOfBraced(vars: Variables, inner: string, rest: string)
    requires BraceFree(inner)
    ensures LeadingKey(vars, Placeholder(inner) + rest) == if inner in vars then Some(inner) else None
  {
    var t := Placeholder(inner) + rest;
    assert t[1..][|inner|] == '}' && t[1..][..|inner|] == inner;
    var i := Find(t[1..], '}').value;
    assert forall j | 0 <= j < |inner| :: t[1..][j] == inner[j];
    assert forall j | 0 <= j < i :: t[1..][j] != '}' by {
      assert forall j | 0 <= j < i :: t[1..][j] in t[1..][..i];
    }
  }

  lemma ClosedByFirstBrace(k: string, inner: string, rest: string)
    requires '}' !in k && '}' !in inner && k + "}" <= inner + "}" + rest
    ensures k == inner
  {
    var whole := inner + "}" + rest;
    assert whole[|k|] == '}' && whole[|inner|] == '}';
    assert forall j | 0 <= j < |inner| :: whole[j] == inner[j];
    assert forall j | 0 <= j < |k| :: whole[j] == (k + "}")[j] == k[j];
    assert k == (k + "}")[..|k|] == whole[..|k|];
  }

  // ----- One more variable

  /** Replacing one more variable is substituting one more variable. */
  lemma {:induction false} ReplaceExtends(vars: Variables, t: string, k: string, v: string)
    requires SafeVariables(vars) && BraceFree(k) && '{' !in v && k !in vars && !Nested(t)
    ensures Replace(Substitute(vars, t), Placeholder(k), v) == Substitute(vars[k := v], t)
    decreases |t|
  {
    if t == "" {
    } else if t[0] != '{' {
      SuffixNotNested(t, 1);
      ReplaceExtends(vars, t[1..], k, v);
      ReplaceSkips([t[0]], Substitute(vars, t[1..]), Placeholder(k), v);
    } else {
      match Find(t[1..], '}')
      case None =>
        assert t == [t[0]] + t[1..];
        SubstituteUnclosed(vars, t);
        SubstituteUnclosed(vars[k := v], t);
        MissingCharacter(t, Placeholder(k), '}');
        ReplaceAbsent(t, Placeholder(k), v);
      case Some(i) =>
        LeadingBrace(t, i);
        var inner, rest := t[1..][..i], t[i + 2..];
        SuffixNotNested(t, i + 2);
        ReplaceExtends(vars, rest, k, v);
        ReplaceExtendsBraced(vars, inner, rest, k, v);
    }
  }

  lemma ReplaceExtendsBraced(vars: Variables, inner: string, rest: string, k: string, v: string)
    requires SafeVariables(vars) && BraceFree(k) && '{' !in v && k !in vars && BraceFree(inner)
    requires Replace(Substitute(vars, rest), Placeholder(k), v) == Substitute(vars[k := v], rest)
    ensures Replace(Substitute(vars, Placeholder(inner) + rest), Placeholder(k), v)
            == Substitute(vars[k := v], Placeholder(inner) + rest)
  {
    var pat, vars' := Placeholder(k), vars[k := v];
    LeadingKeyOfBraced(vars, inner, rest);
    LeadingKeyOfBraced(vars', inner, rest);
    assert (Placeholder(inner) + rest)[|inner| + 2..] == rest;
    if inner in vars {
      ReplaceSkips(vars[inner], Substitute(vars, rest), pat, v);
    } else {
      UnknownPlaceholderStays(vars, inner, rest);
      if inner == k {
        ReplaceAtFront(Substitute(vars, rest), pat, v);
      } else {
        UnknownPlaceholderStays(vars', inner, rest);
        ReplaceOther(inner, Substitute(vars, rest), k, v);
      }
    }
  }

  lemma ReplaceAtFront(s: string, pat: string, val: string)
    requires pat != ""
    ensures Replace(pat + s, pat, val) == val + Replace(s, pat, val)
  {
    assert (pat + s)[|pat|..] == s;
  }

  /** Replacing `{k}` leaves a placeholder of another name in place. */
  lemma ReplaceOther(inner: string, s: string, k: string, v: string)
    requires BraceFree(inner) && BraceFree(k) && inner != k
    ensures Replace(Placeholder(inner) + s, Placeholder(k), v) == Placeholder(inner) + Replace(s, Placeholder(k), v)
  {
    var whole, tail := Placeholder(inner) + s, inner + "}" + s;
    assert whole == "{" + tail && whole[1..] == tail;
    if Placeholder(k) <= whole {
      assert k + "}" == Placeholder(k)[1..];
      ClosedByFirstBrace(k, inner, s);
    }
    ReplaceSkips(inner + "}", s, Placeholder(k), v);
    assert Placeholder(inner) + Replace(s, Placeholder(k), v) == "{" + (inner + "}" + Replace(s, Placeholder(k), v));
  }

  // ----- All variables, in any order

  lemma {:induction false} ReplaceEachIsSubstitute(order: seq<string>, done: Variables, vars: Variables, t: string)
    requires SafeVariables(vars) && !Nested(t) && NoDuplicates(order)
    requires done.Keys <= vars.Keys && (forall k | k in done :: done[k] == vars[k])
    requires Elements(order) == vars.Keys - done.Keys && (forall k | k in order :: k in vars)
    ensures ReplaceEach(order, vars, Substitute(done, t)) == Substitute(vars, t)
    decreases |order|
  {
    if order == [] {
      assert vars.Keys - done.Keys == {} by {
        assert Elements(order) == {};
      }
      forall k | k in vars ensures k in done {
        assert k !in vars.Keys - done.Keys;
      }
      assert done == vars;
    } else {
      var k := order[0];
      assert k in Elements(order);
      ReplaceExtends(done, t, k, vars[k]);
      var done' := done[k := vars[k]];
      DropFirst(order);
      ReplaceEachIsSubstitute(order[1..], done', vars, t);
    }
  }

  /** Whatever order the variables come in, the text is that of one simultaneous substitution. */
  lemma ExpansionIsSubstitution(vars: Variables, t: string, order: seq<string>)
    requires SafeVariables(vars) && !Nested(t) && Enumerates(order, vars.Keys)
    ensures forall k | k in order :: k in vars
    ensures ReplaceEach(order, vars, t) == Substitute(vars, t)
  {
    assert forall k | k in order :: k in Elements(order);
    SubstituteNothing(t);
    ReplaceEachIsSubstitute(order, map[], vars, t);
  }

  /** Expanding expanded text changes nothing. */
  lemma {:induction false} SubstituteTwice(vars: Variables, t: string)
    requires SafeVariables(vars) && !Nested(t)
    ensures Substitute(vars, Substitute(vars, t)) == Substitute(vars, t)
    decreases |t|
  {
    if t == "" {
    } else if t[0] != '{' {
      SuffixNotNested(t, 1);
      SubstituteTwice(vars, t[1..]);
      SubstituteLiteral(vars, [t[0]], Substitute(vars, t[1..]));
    } else {
      match Find(t[1..], '}')
      case None =>
        assert t == [t[0]] + t[1..];
        SubstituteUnclosed(vars, t);
      case Some(i) =>
        LeadingBrace(t, i);
        var inner, rest := t[1..][..i], t[i + 2..];
        SuffixNotNested(t, i + 2);
        SubstituteTwice(vars, rest);
        LeadingKeyOfBraced(vars, inner, rest);
        if inner in vars {
          SubstituteLiteral(vars, vars[inner], Substitute(vars, rest));
        } else {
          UnknownPlaceholderStays(vars, inner, rest);
          UnknownPlaceholderStays(vars, inner, Substitute(vars, rest));
        }
    }
  }

  lemma UnknownPlaceholderStays(vars: Variables, inner: string, rest: string)
    requires BraceFree(inner) && inner !in vars
    ensures Substitute(vars, Placeholder(inner) + rest) == Placeholder(inner) + Substitute(vars, rest)
  {
    var t := Placeholder(inner) + rest;
    LeadingKeyOfBraced(vars, inner, rest);
    assert t[1..] == inner + "}" + rest;
    SubstituteBraced(vars, inner, rest);
    assert Placeholder(inner) + Substitute(vars, rest) == "{" + (inner + "}" + Substitute(vars, rest));
  }

  lemma ShiftNested(v: string, s: string, i: int, j: int, k: int)
    requires NestedAt(v + s, i, j, k) && i >= |v|
    ensures NestedAt(s, i - |v|, j - |v|, k - |v|)
  {
    assert forall x | 0 <= x < |s| :: s[x] == (v + s)[x + |v|];
  }

  lemma PrependClosed(v: string, s: string)
    requires '{' !in v && !Nested(s)
    ensures !Nested(v + s)
  {
    if i, j, k :| NestedAt(v + s, i, j, k) {
      ShiftNested(v, s, i, j, k);
    }
  }

  lemma PrependBraced(inner: string, s: string)
    requires BraceFree(inner) && !Nested(s)
    ensures !Nested(Placeholder(inner) + s)
  {
    var t, n := Placeholder(inner) + s, |inner| + 2;
    assert t[n - 1] == '}' && forall x | 1 <= x < n - 1 :: t[x] == inner[x - 1];
    if i, j, k :| NestedAt(t, i, j, k) {
      ShiftNested(Placeholder(inner), s, i, j, k);
    }
  }

  /** Expanded text is not nested either. */
  lemma {:induction false} SubstituteKeepsUnnested(vars: Variables, t: string)
    requires SafeVariables(vars) && !Nested(t)
    ensures !Nested(Substitute(vars, t))
    decreases |t|
  {
    if t == "" {
    } else if t[0] != '{' {
      SuffixNotNested(t, 1);
      SubstituteKeepsUnnested(vars, t[1..]);
      PrependClosed([t[0]], Substitute(vars, t[1..]));
    } else {
      match Find(t[1..], '}')
      case None =>
        assert t == [t[0]] + t[1..];
        SubstituteUnclosed(vars, t);
      case Some(i) =>
        LeadingBrace(t, i);
        var inner, rest := t[1..][..i], t[i + 2..];
        SuffixNotNested(t, i + 2);
        SubstituteKeepsUnnested(vars, rest);
        LeadingKeyOfBraced(vars, inner, rest);
        if inner in vars {
          PrependClosed(vars[inner], Substitute(vars, rest));
        } else {
          UnknownPlaceholderStays(vars, inner, rest);
          PrependBraced(inner, Substitute(vars, rest));
        }
    }
  }

  /** `out` is what expanding `input` yields for some iteration order of the variables. */
  ghost predicate Expands(vars: Variables, input: string, out: string) {
    exists order :: Enumerates(order, vars.Keys) && (forall k | k in order :: k in vars)
                    && out == ReplaceEach(order, vars, input)
  }

  lemma ExpandsToSubstitution(vars: Variables, input: string, out: string)
    requires SafeVariables(vars) && !Nested(input) && Expands(vars, input, out)
    ensures out == Substitute(vars, input)
  {
    var order :| Enumerates(order, vars.Keys) && (forall k | k in order :: k in vars)
                 && out == ReplaceEach(order, vars, input);
    ExpansionIsSubstitution(vars, input, order);
  }

  /** Expanding twice, with whatever orders, gives what expanding once gives. */
  lemma ExpandTwiceIsOnce(vars: Variables, input: string, once: string, twice: string)
    requires SafeVariables(vars) && !Nested(input)
    requires Expands(vars, input, once) && Expands(vars, once, twice)
    ensures once == twice == Substitute(vars, input)
  {
    ExpandsToSubstitution(vars, input, once);
    SubstituteKeepsUnnested(vars, input);
    ExpandsToSubstitution(vars, once, twice);
    SubstituteTwice(vars, input);
  }

  /**
   * `expand_template`: replaces the variables one after the other, in the order the hash map
   * yields them.
   */
  method ExpandTemplate(vars: Variables, input: string) returns (result: string)
    ensures Expands(vars, input, result)
    ensures SafeVariables(vars) && !Nested(input) ==> result == Substitute(vars, input)
  {
    var keys := HashOrder(vars.Keys);
    result := input;
    for i := 0 to |keys|
      invariant forall k | k in keys :: k in vars
      invariant ReplaceEach(keys[i..], vars, result) == ReplaceEach(keys, vars, input)
    {
      assert keys[i..][1..] == keys[i + 1..] && keys[i] in Elements(keys);
      result := Replace(result, Placeholder(keys[i]), vars[keys[i]]);
    }
    assert keys[|keys|..] == [];
    if SafeVariables(vars) && !Nested(input) {
      ExpansionIsSubstitution(vars, input, keys);
    }
  }
}
