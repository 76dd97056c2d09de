/** `PromptListWithTemplates.run` (santodan_nodes/promptListTemplate.py:53-63):
    the given list, then each of the five prompt inputs that is a string
    with something besides whitespace in it, built up in one list that is
    returned twice. */
module PromptList {
  import opened Text
  import opened Wrappers

  /** An element of a Python list: a string, or any other object, told
      apart from the others by an identity. */
  datatype Value = Str(s: string) | Other(id: nat)

  /** `isinstance(p, str) and p.strip() != ''` */
  predicate IsPrompt(p: Value)
  {
    p.Str? && Strip(p.s) != ""
  }

  /** The elements `optional_prompt_list` contributes: all of them, or
      none when it is absent. */
  function Given(optional: Option<seq<Value>>): seq<Value>
  {
    if optional.Some? then optional.value else []
  }

  /** The prompt inputs that are appended, in their order. */
  function Prompts(ps: seq<Value>): (r: seq<Value>)
    ensures |r| <= |ps|
  {
    if ps == [] then [] else Keep(ps[0]) + Prompts(ps[1..])
  }

  /** What the loop appends for one input. */
  function Keep(p: Value): seq<Value>
  {
    if IsPrompt(p) then [p] else []
  }

  /** The list `run` returns. */
  function RunList(optional: Option<seq<Value>>, ps: seq<Value>): seq<Value>
  {
    Given(optional) + Prompts(ps)
  }

  /** A Python list, updated in place. */
  class PyList {
    var items: seq<Value>

    constructor()
      ensures items == []
    {
      items := [];
    }

    /** `list.extend(xs)` */
    method Extend(xs: seq<Value>)
      modifies this
      ensures items == old(items) + xs
    {
      items := items + xs;
    }

    /** `list.append(x)` */
    method Append(x: Value)
      modifies this
      ensures items == old(items) + [x]
    {
      items := items + [x];
    }
  }

  /** `run(prompt_1, ..., prompt_5, template_file, save_filename,
      optional_prompt_list)`: both outputs are the same fresh list. */
  method Run(p1: Value, p2: Value, p3: Value, p4: Value, p5: Value, optional: Option<seq<Value>>)
    returns (promptList: PyList, promptStrings: PyList)
    ensures fresh(promptList) && promptStrings == promptList
    ensures promptList.items == RunList(optional, [p1, p2, p3, p4, p5])
  {
    var prompts := new PyList();
    if optional.Some? && optional.value != [] {
      prompts.Extend(optional.value);
    }
    AppendPrompts(prompts, [p1, p2, p3, p4, p5]);
    return prompts, prompts;
  }

  /** The loop of `run` over `[prompt_1, ..., prompt_5]`. */
  method AppendPrompts(prompts: PyList, source: seq<Value>)
    modifies prompts
    ensures prompts.items == old(prompts.items) + Prompts(source)
  {
    for i := 0 to |source|
      invariant prompts.items == old(prompts.items) + Prompts(source[..i])
    {
      PromptsSnoc(source, i);
      AppendIfPrompt(prompts, source[i]);
    }
    assert source[..|source|] == source;
  }

  /** One pass of the loop: `p` is appended when it is a prompt. */
  method AppendIfPrompt(prompts: PyList, p: Value)
    modifies prompts
    ensures prompts.items == old(prompts.items) + Keep(p)
  {
    if p.Str? && Strip(p.s) != "" {
      prompts.Append(p);
    } else {
      assert old(prompts.items) + [] == old(prompts.items);
    }
  }

  // ---------------------------------------------------------------------
  // Properties

  /** Filtering two lists one after the other is filtering their
      concatenation. */
  lemma {:induction false} PromptsAppend(a: seq<Value>, b: seq<Value>)
    ensures Prompts(a + b) == Prompts(a) + Prompts(b)
  {
    if a == [] {
      assert a + b == b;
    } else {
      assert (a + b)[0] == a[0];
      assert (a + b)[1..] == a[1..] + b;
      PromptsAppend(a[1..], b);
    }
  }

  /** One more input appends what `Keep` keeps of it. */
  lemma {:induction false} PromptsSnoc(ps: seq<Value>, i: nat)
    requires i < |ps|
    ensures Prompts(ps[..i + 1]) == Prompts(ps[..i]) + Keep(ps[i])
  {
    assert ps[..i + 1] == ps[..i] + [ps[i]];
    PromptsAppend(ps[..i], [ps[i]]);
    assert [ps[i]][1..] == [];
  }

  /** A value is appended exactly when it is one of the inputs and a
      string that is not blank. */
  lemma {:induction false} PromptsMembers(ps: seq<Value>, x: Value)
    ensures x in Prompts(ps) <==> x in ps && IsPrompt(x)
  {
    if ps != [] {
      PromptsMembers(ps[1..], x);
      assert ps == [ps[0]] + ps[1..];
    }
  }

  /** The list starts with all of `optional_prompt_list`, in order, and
      then holds at most five more elements, all of them prompts. */
  lemma {:induction false} RunShape(optional: Option<seq<Value>>, p1: Value, p2: Value, p3: Value, p4: Value, p5: Value)
    ensures var r := RunList(optional, [p1, p2, p3, p4, p5]);
      var n := |Given(optional)|;
      n <= |r| <= n + 5 && r[..n] == Given(optional) &&
      forall k :: n <= k < |r| ==> IsPrompt(r[k])
  {
    var g := Given(optional);
    var ps := [p1, p2, p3, p4, p5];
    var r := RunList(optional, ps);
    assert r[..|g|] == g;
    forall k | |g| <= k < |r|
      ensures IsPrompt(r[k])
    {
      assert r[k] == Prompts(ps)[k - |g|];
      PromptsMembers(ps, r[k]);
    }
  }
}
