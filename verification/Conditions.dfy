/**
 * Step and tool conditions, `ExecContext::eval_condition`:
 * the two membership forms, negation, and a name alone.
 */
module Conditions {
  import opened Wrappers
  import opened Text
  import opened SkillGraph

  predicate Truthy(v: string) {
    v != "" && v != "false" && v != "0"
  }

  /** What follows the quoted value: `in name` or `not in name`. */
  function EvalOperator(vars: Variables, value: string, remainder: string): Option<bool> {
    if StartsWith(remainder, "not in ") then
      var name := Trim(remainder[7..]);
      Some(name in vars ==> !Contains(vars[name], value))
    else if StartsWith(remainder, "in ") then
      var name := Trim(remainder[3..]);
      Some(name in vars && Contains(vars[name], value))
    else None
  }

  /** The `'value' in name` and `'value' not in name` forms, when the text has that shape. */
  function EvalMembership(vars: Variables, cond: string): Option<bool> {
    match StripPrefix(cond, "'")
    case None => None
    case Some(rest) =>
      match Find(rest, '\'')
      case None => None
      case Some(end) => EvalOperator(vars, rest[..end], Trim(rest[end + 1..]))
  }

  predicate EvalCondition(vars: Variables, condition: string) {
    var cond := Trim(condition);
    match EvalMembership(vars, cond)
    case Some(b) => b
    case None =>
      if StartsWith(cond, "!") then
        var name := Trim(cond[1..]);
        name in vars ==> !Truthy(vars[name])
      else
        cond in vars && Truthy(vars[cond])
  }

  /** A name that `trim` leaves alone. */
  predicate Trimmed(name: string) {
    name != "" && !IsWhitespace(name[0]) && !IsWhitespace(name[|name| - 1])
  }

  lemma TrimKeeps(s: string)
    requires Trimmed(s)
    ensures Trim(s) == s
  {
  }

  lemma {:induction false} FindQuote(value: string, rest: string)
    requires '\'' !in value && rest != "" && rest[0] == '\''
    ensures Find(value + rest, '\'') == Some(|value|)
  {
    if value == "" {
      assert value + rest == rest;
    } else {
      FindQuote(value[1..], rest);
      assert (value + rest)[1..] == value[1..] + rest;
    }
  }

  lemma Halves(a: string, b: string)
    ensures (a + b)[..|a|] == a && (a + b)[|a|..] == b
  {
  }

  /** The text `'value' remainder`. */
  function Quoted(value: string, remainder: string): string {
    "'" + (value + ("'" + (" " + remainder)))
  }

  lemma QuotedMembership(vars: Variables, value: string, remainder: string)
    requires '\'' !in value && Trimmed(remainder)
    ensures EvalMembership(vars, Quoted(value, remainder)) == EvalOperator(vars, value, remainder)
  {
    var spaced := " " + remainder;
    var tail := "'" + spaced;
    var cond, rest := "'" + (value + tail), value + tail;
    assert StripPrefix(cond, "'") == Some(rest) by {
      Halves("'", rest);
    }
    assert Find(rest, '\'') == Some(|value|) by {
      FindQuote(value, tail);
    }
    assert rest[..|value|] == value by {
      Halves(value, tail);
    }
    assert Trim(rest[|value| + 1..]) == remainder by {
      AfterQuote(value, spaced);
      TrimOneSpace(remainder);
    }
    assert EvalMembership(vars, cond) == EvalOperator(vars, value, remainder);
  }

  lemma AfterQuote(value: string, spaced: string)
    ensures (value + ("'" + spaced))[|value| + 1..] == spaced
  {
  }

  lemma TrimOneSpace(s: string)
    requires Trimmed(s)
    ensures Trim(" " + s) == s
  {
    Halves(" ", s);
    assert TrimStart(" " + s) == TrimStart(s);
    TrimKeeps(s);
  }

  lemma LastOf(a: string, b: string)
    requires b != ""
    ensures (a + b)[|a + b| - 1] == b[|b| - 1]
  {
  }

  lemma QuotedIsTrimmed(value: string, remainder: string)
    requires Trimmed(remainder)
    ensures Trimmed(Quoted(value, remainder))
  {
    LastOf(" ", remainder);
    LastOf("'", " " + remainder);
    LastOf(value, "'" + (" " + remainder));
    LastOf("'", value + ("'" + (" " + remainder)));
  }

  lemma DecidedByMembership(vars: Variables, cond: string)
    requires Trimmed(cond) && EvalMembership(vars, cond).Some?
    ensures EvalCondition(vars, cond) == EvalMembership(vars, cond).value
  {
    TrimKeeps(cond);
  }

  /** `'value' operator name` is decided by the operator; both ends of the text are already trimmed. */
  lemma QuotedCondition(vars: Variables, value: string, op: string, name: string)
    requires '\'' !in value && Trimmed(name) && op != "" && !IsWhitespace(op[0])
    requires EvalOperator(vars, value, op + name).Some?
    ensures EvalCondition(vars, Quoted(value, op + name)) == EvalOperator(vars, value, op + name).value
  {
    assert Trimmed(op + name) by {
      LastOf(op, name);
    }
    QuotedIsTrimmed(value, op + name);
    QuotedMembership(vars, value, op + name);
    DecidedByMembership(vars, Quoted(value, op + name));
  }

  lemma InForm(vars: Variables, value: string, name: string)
    requires '\'' !in value && Trimmed(name)
    ensures EvalCondition(vars, Quoted(value, "in " + name)) == (name in vars && Contains(vars[name], value))
  {
    var remainder := "in " + name;
    assert remainder[0] == 'i' && remainder[..3] == "in ";
    Halves("in ", name);
    TrimKeeps(name);
    QuotedCondition(vars, value, "in ", name);
  }

  lemma NotInForm(vars: Variables, value: string, name: string)
    requires '\'' !in value && Trimmed(name)
    ensures EvalCondition(vars, Quoted(value, "not in " + name)) == (name in vars ==> !Contains(vars[name], value))
  {
    var remainder := "not in " + name;
    assert remainder[..7] == "not in ";
    Halves("not in ", name);
    TrimKeeps(name);
    QuotedCondition(vars, value, "not in ", name);
  }

  /** `not in` is the negation of `in` for every value, name and set of variables, missing names included. */
  lemma NotInNegatesIn(vars: Variables, value: string, name: string)
    requires '\'' !in value && Trimmed(name)
    ensures EvalCondition(vars, Quoted(value, "not in " + name)) == !EvalCondition(vars, Quoted(value, "in " + name))
  {
    InForm(vars, value, name);
    NotInForm(vars, value, name);
  }

  /** `!name` is the negation of `name`, missing names included. */
  lemma {:induction false} BangNegates(vars: Variables, name: string)
    requires Trimmed(name) && name[0] != '\'' && name[0] != '!'
    ensures EvalCondition(vars, "!" + name) == !EvalCondition(vars, name)
  {
    var cond := "!" + name;
    assert cond[|cond| - 1] == name[|name| - 1];
    TrimKeeps(cond);
    TrimKeeps(name);
    assert cond[1..] == name;
  }

  /** A name alone holds exactly when the variable is set and reads as neither nothing, `false` nor `0`. */
  lemma {:induction false} PlainForm(vars: Variables, name: string)
    requires Trimmed(name) && name[0] != '\'' && name[0] != '!'
    ensures EvalCondition(vars, name) <==> name in vars && vars[name] !in {"", "false", "0"}
  {
    TrimKeeps(name);
  }
}
