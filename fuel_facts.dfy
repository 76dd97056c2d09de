/** Fuel is only a bound: an expansion that finishes without running out
    of fuel gives the same outcome (the same text or the same error, and
    the same generator position) under any larger fuel. So `OutOfFuel` is
    the only answer the bound can change. Where CPython stays within its
    recursion limit, every other result is the one `_process_syntax`
    (santodan_nodes/wildcard.py:98-160) computes; past that limit Python
    raises `RecursionError`, which the model does not bound. */
module FuelFacts {
  import opened Text
  import opened Wrappers
  import opened Patterns
  import opened Interpreter
  import opened Oracle
  import opened Driver

  lemma {:induction false} MoreFuelProcess(env: Env, t: string, pos: nat, f: nat, g: nat)
    requires f <= g && Process(env, t, pos, f) != Err(OutOfFuel)
    ensures Process(env, t, pos, g) == Process(env, t, pos, f)
    decreases f, 3
  {
    var u := ExpandQuantifiers(t);
    MoreFuelGroups(env, u, pos, f, g);
    match ResolveGroups(env, u, pos, f)
    case Err(_) =>
    case Ok(v, p) => MoreFuelRefs(env, v, p, f, g);
  }

  lemma {:induction false} MoreFuelGroups(env: Env, t: string, pos: nat, f: nat, g: nat)
    requires f <= g && ResolveGroups(env, t, pos, f) != Err(OutOfFuel)
    ensures ResolveGroups(env, t, pos, g) == ResolveGroups(env, t, pos, f)
    decreases f, 2
  {
    var found := FindGroup(t);
    if found.Some? {
      MoreFuelGroupFound(env, t, found.value, pos, f, g);
    } else {
      GroupNone(env, t, pos, f);
      GroupNone(env, t, pos, g);
    }
  }

  /** The group loop on a text that holds the group `m`. */
  lemma {:induction false} MoreFuelGroupFound(env: Env, t: string, m: GroupMatch, pos: nat, f: nat, g: nat)
    requires FindGroup(t) == Some(m)
    requires f <= g && ResolveGroups(env, t, pos, f) != Err(OutOfFuel)
    ensures ResolveGroups(env, t, pos, g) == ResolveGroups(env, t, pos, f)
    decreases f, 1
  {
    GroupStep(env, t, m, pos, f);
    GroupStep(env, t, m, pos, g);
    MoreFuelGroupThenRest(env, t, m, pos, f - 1, g - 1);
  }

  /** Without a group the loop returns the text unchanged. */
  lemma {:induction false} GroupNone(env: Env, t: string, pos: nat, fuel: nat)
    requires FindGroup(t).None?
    ensures ResolveGroups(env, t, pos, fuel) == Ok(t, pos)
  {
  }

  /** With a group in the text, the loop fails without fuel and otherwise
      runs one pass on the rest of the fuel. */
  lemma {:induction false} GroupStep(env: Env, t: string, m: GroupMatch, pos: nat, fuel: nat)
    requires FindGroup(t) == Some(m)
    ensures m.start + 2 <= m.end <= |t|
    ensures ResolveGroups(env, t, pos, fuel) ==
      if fuel == 0 then Err(OutOfFuel) else GroupThenRest(env, t, m, pos, fuel - 1)
  {
  }

  lemma {:induction false} MoreFuelGroupThenRest(env: Env, t: string, m: GroupMatch, pos: nat, f: nat, g: nat)
    requires m.start + 2 <= m.end <= |t|
    requires f <= g && GroupThenRest(env, t, m, pos, f) != Err(OutOfFuel)
    ensures GroupThenRest(env, t, m, pos, g) == GroupThenRest(env, t, m, pos, f)
    decreases f, 7
  {
    MoreFuelGroup(env, t[m.start + 1..m.end - 1], pos, f, g);
    match ResolveGroup(env, t[m.start + 1..m.end - 1], pos, f)
    case Err(_) =>
    case Ok(rep, p) => MoreFuelGroups(env, Splice(t, m.start, m.end, rep), p, f, g);
  }

  lemma {:induction false} MoreFuelGroup(env: Env, content: string, pos: nat, f: nat, g: nat)
    requires f <= g && ResolveGroup(env, content, pos, f) != Err(OutOfFuel)
    ensures ResolveGroup(env, content, pos, g) == ResolveGroup(env, content, pos, f)
    decreases f, 6
  {
    if Contains(content, "$$") {
      MoreFuelMultiSelect(env, content, pos, f, g);
    } else {
      MoreFuelSingleChoice(env, content, pos, f, g);
    }
  }

  lemma {:induction false} MoreFuelMultiSelect(env: Env, content: string, pos: nat, f: nat, g: nat)
    requires Contains(content, "$$")
    requires f <= g && MultiSelect(env, content, pos, f) != Err(OutOfFuel)
    ensures MultiSelect(env, content, pos, g) == MultiSelect(env, content, pos, f)
    decreases f, 5
  {
    MoreFuelAll(env, Split(MultiParts(content).options, "|"), pos, f, g);
  }

  lemma {:induction false} MoreFuelSingleChoice(env: Env, content: string, pos: nat, f: nat, g: nat)
    requires f <= g && SingleChoice(env, content, pos, f) != Err(OutOfFuel)
    ensures SingleChoice(env, content, pos, g) == SingleChoice(env, content, pos, f)
    decreases f, 5
  {
    MoreFuelAll(env, Texts(Split(content, "|")), pos, f, g);
  }

  lemma {:induction false} MoreFuelAll(env: Env, options: seq<string>, pos: nat, f: nat, g: nat)
    requires f <= g && ProcessAll(env, options, pos, f) != Err(OutOfFuel)
    ensures ProcessAll(env, options, pos, g) == ProcessAll(env, options, pos, f)
    decreases f, 4, |options|
  {
    if options != [] {
      MoreFuelProcess(env, options[0], pos, f, g);
      match Process(env, options[0], pos, f)
      case Err(_) =>
      case Ok(_, p1) => MoreFuelAll(env, options[1..], p1, f, g);
    }
  }

  lemma {:induction false} MoreFuelRefs(env: Env, t: string, pos: nat, f: nat, g: nat)
    requires f <= g && ResolveRefs(env, t, pos, f) != Err(OutOfFuel)
    ensures ResolveRefs(env, t, pos, g) == ResolveRefs(env, t, pos, f)
    decreases f, 2
  {
    var found := FindRef(t);
    if found.Some? {
      MoreFuelRefFound(env, t, found.value, pos, f, g);
    } else {
      RefNone(env, t, pos, f);
      RefNone(env, t, pos, g);
    }
  }

  /** The wildcard loop on a text that holds the reference `m`. */
  lemma {:induction false} MoreFuelRefFound(env: Env, t: string, m: RefMatch, pos: nat, f: nat, g: nat)
    requires FindRef(t) == Some(m)
    requires f <= g && ResolveRefs(env, t, pos, f) != Err(OutOfFuel)
    ensures ResolveRefs(env, t, pos, g) == ResolveRefs(env, t, pos, f)
    decreases f, 1
  {
    RefStep(env, t, m, pos, f);
    RefStep(env, t, m, pos, g);
    MoreFuelRefThenRest(env, t, m, pos, f - 1, g - 1);
  }

  /** Without a reference the loop returns the text unchanged. */
  lemma {:induction false} RefNone(env: Env, t: string, pos: nat, fuel: nat)
    requires FindRef(t).None?
    ensures ResolveRefs(env, t, pos, fuel) == Ok(t, pos)
  {
  }

  /** With a reference in the text, the loop fails without fuel and
      otherwise runs one pass on the rest of the fuel. */
  lemma {:induction false} RefStep(env: Env, t: string, m: RefMatch, pos: nat, fuel: nat)
    requires FindRef(t) == Some(m)
    ensures m.start + 4 <= m.end <= |t|
    ensures ResolveRefs(env, t, pos, fuel) ==
      if fuel == 0 then Err(OutOfFuel) else RefThenRest(env, t, m, pos, fuel - 1)
  {
  }

  lemma {:induction false} MoreFuelRefThenRest(env: Env, t: string, m: RefMatch, pos: nat, f: nat, g: nat)
    requires m.start + 4 <= m.end <= |t|
    requires f <= g && RefThenRest(env, t, m, pos, f) != Err(OutOfFuel)
    ensures RefThenRest(env, t, m, pos, g) == RefThenRest(env, t, m, pos, f)
    decreases f, 5
  {
    MoreFuelReplaceRef(env, t, m, pos, f, g);
    match ReplaceRef(env, t, m, pos, f)
    case Err(_) =>
    case Ok(u, p) => MoreFuelRefs(env, u, p, f, g);
  }

  lemma {:induction false} MoreFuelReplaceRef(env: Env, t: string, m: RefMatch, pos: nat, f: nat, g: nat)
    requires m.start + 4 <= m.end <= |t|
    requires f <= g && ReplaceRef(env, t, m, pos, f) != Err(OutOfFuel)
    ensures ReplaceRef(env, t, m, pos, g) == ReplaceRef(env, t, m, pos, f)
    decreases f, 4
  {
    var options := OptionLines(env.loadLines(m.Name(t)));
    if |options| > 0 {
      var (j, p1) := Choice(env.draw, pos, |options|);
      MoreFuelProcess(env, options[j], p1, f, g);
    }
  }

  /** `process_text` (santodan_nodes/wildcard.py:164-178) inherits the
      property: its outputs do not depend on the fuel once it suffices. */
  lemma {:induction false} MoreFuelText(env: Env, mode: Mode, text: string, f: nat, g: nat)
    requires f <= g && ProcessText(env, mode, text, f) != Err(OutOfFuel)
    ensures ProcessText(env, mode, text, g) == ProcessText(env, mode, text, f)
  {
    MoreFuelAll(env, Jobs(mode, text), 0, f, g);
  }
}
