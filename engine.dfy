/** `WildcardManager._process_syntax` (santodan_nodes/wildcard.py:98-160)
    as the code runs it: the local `text` rewritten in three `while`
    loops, the option lists built in loops, and one generator object
    shared by every recursive call. Each method is proved to compute what
    the functions of `Interpreter` define, and leaves the generator where
    they say. */
module Engine {
  import opened Text
  import opened Wrappers
  import opened Numbers
  import opened Patterns
  import opened Oracle
  import opened Interpreter

  /** The `random.Random(seed)` object: the stream its seed fixes, and how
      far into it the calls so far have drawn. */
  class Rng {
    const draw: Stream
    var pos: nat

    constructor(draw: Stream)
      ensures this.draw == draw && pos == 0
    {
      this.draw := draw;
      pos := 0;
    }

    /** `rng.randint(lo, hi)`, or `None` for its `ValueError`. */
    method RandInt(lo: int, hi: int) returns (r: Option<int>)
      modifies this
      ensures var o := Oracle.RandInt(draw, old(pos), lo, hi);
        if o.None? then r.None? && pos == old(pos)
        else r == Some(o.value.0) && pos == o.value.1
    {
      var o := Oracle.RandInt(draw, pos, lo, hi);
      if o.None? {
        r := None;
      } else {
        r := Some(o.value.0);
        pos := o.value.1;
      }
    }

    /** `rng.sample` of `k` among `n` elements: their positions, or `None`
        for its `ValueError`. */
    method Sample(n: nat, k: int) returns (r: Option<seq<nat>>)
      modifies this
      ensures var o := Oracle.Sample(draw, old(pos), n, k);
        if o.None? then r.None? && pos == old(pos)
        else r == Some(o.value.0) && pos == o.value.1
    {
      var o := Oracle.Sample(draw, pos, n, k);
      if o.None? {
        r := None;
      } else {
        r := Some(o.value.0);
        pos := o.value.1;
      }
    }

    /** `rng.choice` among `n` elements: the chosen position. */
    method Choice(n: nat) returns (j: nat)
      requires n > 0
      modifies this
      ensures (j, pos) == Oracle.Choice(draw, old(pos), n)
    {
      var o := Oracle.Choice(draw, pos, n);
      j := o.0;
      pos := o.1;
    }

    /** `rng.choices(..., weights=ws, k=1)[0]`: the chosen position, or
        `None` for its `ValueError`. */
    method Choices(ws: seq<Weight>) returns (r: Option<nat>)
      requires |ws| > 0
      modifies this
      ensures var o := WeightedChoice(draw, old(pos), ws);
        if o.None? then r.None? && pos == old(pos)
        else r == Some(o.value.0) && pos == o.value.1
    {
      var o := WeightedChoice(draw, pos, ws);
      if o.None? {
        r := None;
      } else {
        r := Some(o.value.0);
        pos := o.value.1;
      }
    }
  }

  /** What a call returns, or the exception it raises. */
  datatype Outcome<T(==)> = Done(value: T) | Raised(error: Error)

  /** The outcome and the generator's position agree with the result the
      functions define. */
  predicate Agrees<T(==)>(o: Outcome<T>, r: Res<T>, pos: nat)
  {
    match r
    case Ok(v, p) => o == Done(v) && pos == p
    case Err(e) => o == Raised(e)
  }

  /** `_process_syntax(text, rng)` with the given fuel: the three loops
      one after the other, on the same generator. */
  method ProcessSyntax(load: string -> seq<string>, text: string, rng: Rng, fuel: nat)
    returns (out: Outcome<string>)
    modifies rng
    ensures Agrees(out, Process(Env(load, rng.draw), text, old(rng.pos), fuel), rng.pos)
    decreases fuel, 3
  {
    ghost var env := Env(load, rng.draw);
    ghost var pos0 := rng.pos;
    ProcessPhases(env, text, pos0, fuel);
    var t := QuantifierLoop(text);
    var grouped := GroupLoop(load, t, rng, fuel);
    if grouped.Raised? {
      return grouped;
    }
    out := WildcardLoop(load, grouped.value, rng, fuel);
  }

  /** The quantifier loop (santodan_nodes/wildcard.py:108-110): `subn`
      until a pass replaces nothing. */
  method QuantifierLoop(text: string) returns (t: string)
    ensures t == ExpandQuantifiers(text)
  {
    var count;
    t, count := SubAll(text).0, SubAll(text).1;
    SubCountsHashes(text, 0);
    while count > 0
      invariant (if count == 0 then t else ExpandQuantifiers(t)) == ExpandQuantifiers(text)
      decreases CountChar(t, '#') + count
    {
      SubCountsHashes(t, 0);
      var pass := SubAll(t);
      t, count := pass.0, pass.1;
    }
  }

  /** The group loop (santodan_nodes/wildcard.py:112-148): resolve the
      leftmost innermost group and splice its replacement in. */
  method GroupLoop(load: string -> seq<string>, text: string, rng: Rng, fuel: nat)
    returns (out: Outcome<string>)
    modifies rng
    ensures Agrees(out, ResolveGroups(Env(load, rng.draw), text, old(rng.pos), fuel), rng.pos)
    decreases fuel, 2
  {
    ghost var env := Env(load, rng.draw);
    ghost var goal := ResolveGroups(env, text, rng.pos, fuel);
    var t := text;
    var f: nat := fuel;
    while Contains(t, "{") && Contains(t, "}")
      invariant rng.draw == env.draw && f <= fuel
      invariant ResolveGroups(env, t, rng.pos, f) == goal
      decreases f
    {
      var next, stop := GroupPass(load, t, rng, f);
      if stop {
        return next;
      }
      t, f := next.value, f - 1;
    }
    GroupNeedsBraces(t);
    return Done(t);
  }

  /** The body of the group loop on `t` with `f` units of fuel: it either
      ends the loop with its outcome, or leaves the spliced text for the
      next pass, one unit of fuel spent. */
  method GroupPass(load: string -> seq<string>, t: string, rng: Rng, f: nat)
    returns (next: Outcome<string>, stop: bool)
    modifies rng
    ensures stop ==> Agrees(next, ResolveGroups(Env(load, rng.draw), t, old(rng.pos), f), rng.pos)
    ensures !stop ==> f > 0 && next.Done? &&
                      ResolveGroups(Env(load, rng.draw), t, old(rng.pos), f) ==
                      ResolveGroups(Env(load, rng.draw), next.value, rng.pos, f - 1)
    decreases f, 1
  {
    var g := FindGroup(t);
    if g.None? {
      return Done(t), true;
    }
    if f == 0 {
      return Raised(OutOfFuel), true;
    }
    next := ReplaceGroup(load, t, g.value, rng, f - 1);
    stop := next.Raised?;
  }

  /** One pass of the group loop: `text[:match.start()] + replacement +
      text[match.end():]`. */
  method ReplaceGroup(load: string -> seq<string>, t: string, g: GroupMatch, rng: Rng, fuel: nat)
    returns (out: Outcome<string>)
    requires g.start + 2 <= g.end <= |t|
    modifies rng
    ensures GroupThenRest(Env(load, rng.draw), t, g, old(rng.pos), fuel) ==
      if out.Raised? then Err(out.error) else ResolveGroups(Env(load, rng.draw), out.value, rng.pos, fuel)
    decreases fuel, 7
  {
    var rep := ResolveGroupContent(load, t[g.start + 1..g.end - 1], rng, fuel);
    if rep.Raised? {
      return Raised(rep.error);
    }
    return Done(t[..g.start] + rep.value + t[g.end..]);
  }

  /** The wildcard loop (santodan_nodes/wildcard.py:150-159): replace the
      leftmost reference by an expanded line of its file, or delete it. */
  method WildcardLoop(load: string -> seq<string>, text: string, rng: Rng, fuel: nat)
    returns (out: Outcome<string>)
    modifies rng
    ensures Agrees(out, ResolveRefs(Env(load, rng.draw), text, old(rng.pos), fuel), rng.pos)
    decreases fuel, 2
  {
    ghost var env := Env(load, rng.draw);
    ghost var goal := ResolveRefs(env, text, rng.pos, fuel);
    var t := text;
    var h: nat := fuel;
    while Contains(t, "__")
      invariant rng.draw == env.draw && h <= fuel
      invariant ResolveRefs(env, t, rng.pos, h) == goal
      decreases h
    {
      var next, stop := WildcardPass(load, t, rng, h);
      if stop {
        return next;
      }
      t, h := next.value, h - 1;
    }
    RefNeedsUnderscores(t);
    return Done(t);
  }

  /** The body of the wildcard loop on `t` with `h` units of fuel: it
      either ends the loop with its outcome, or leaves the text for the
      next pass, one unit of fuel spent. */
  method WildcardPass(load: string -> seq<string>, t: string, rng: Rng, h: nat)
    returns (next: Outcome<string>, stop: bool)
    modifies rng
    ensures stop ==> Agrees(next, ResolveRefs(Env(load, rng.draw), t, old(rng.pos), h), rng.pos)
    ensures !stop ==> h > 0 && next.Done? &&
                      ResolveRefs(Env(load, rng.draw), t, old(rng.pos), h) ==
                      ResolveRefs(Env(load, rng.draw), next.value, rng.pos, h - 1)
    decreases h, 1
  {
    var m := FindRef(t);
    if m.None? {
      return Done(t), true;
    }
    if h == 0 {
      return Raised(OutOfFuel), true;
    }
    next := ResolveReference(load, t, m.value, rng, h - 1);
    stop := next.Raised?;
  }

  /** One pass of the wildcard loop, seen from the loop: what is left of
      the loop's result once the reference `m` is replaced. */
  method ResolveReference(load: string -> seq<string>, t: string, m: RefMatch, rng: Rng, fuel: nat)
    returns (out: Outcome<string>)
    requires m.start + 4 <= m.end <= |t|
    modifies rng
    ensures RefThenRest(Env(load, rng.draw), t, m, old(rng.pos), fuel) ==
      if out.Raised? then Err(out.error) else ResolveRefs(Env(load, rng.draw), out.value, rng.pos, fuel)
    decreases fuel, 5
  {
    out := ReplaceReference(load, t, m, rng, fuel);
  }

  /** One pass of the wildcard loop: the reference replaced by an
      expanded line its file offers, or deleted with the space after it
      when the file offers none. */
  method ReplaceReference(load: string -> seq<string>, t: string, m: RefMatch, rng: Rng, fuel: nat)
    returns (out: Outcome<string>)
    requires m.start + 4 <= m.end <= |t|
    modifies rng
    ensures Agrees(out, ReplaceRef(Env(load, rng.draw), t, m, old(rng.pos), fuel), rng.pos)
    decreases fuel, 4
  {
    var options := OptionLines(load(m.Name(t)));
    if |options| > 0 {
      var j := rng.Choice(|options|);
      var choice := ProcessSyntax(load, options[j], rng, fuel);
      if choice.Raised? {
        return choice;
      }
      return Done(t[..m.start] + choice.value + t[m.end..]);
    } else {
      return Done(t[..m.start] + LStrip(t[m.end..]));
    }
  }

  lemma {:induction false} ProcessPhases(env: Env, text: string, pos: nat, fuel: nat)
    ensures Process(env, text, pos, fuel) ==
      match ResolveGroups(env, ExpandQuantifiers(text), pos, fuel)
      case Err(e) => Err(e)
      case Ok(u, p) => ResolveRefs(env, u, p, fuel)
  {
  }

  /** The body of the group loop: the replacement for a group with the
      given content. */
  method ResolveGroupContent(load: string -> seq<string>, content: string, rng: Rng, fuel: nat)
    returns (out: Outcome<string>)
    modifies rng
    ensures Agrees(out, ResolveGroup(Env(load, rng.draw), content, old(rng.pos), fuel), rng.pos)
    decreases fuel, 6
  {
    if Contains(content, "$$") {
      out := MultiSelectGroup(load, content, rng, fuel);
    } else {
      out := SingleChoiceGroup(load, content, rng, fuel);
    }
  }

  /** A multi-select group (santodan_nodes/wildcard.py:116-133). */
  method MultiSelectGroup(load: string -> seq<string>, content: string, rng: Rng, fuel: nat)
    returns (out: Outcome<string>)
    requires Contains(content, "$$")
    modifies rng
    ensures Agrees(out, MultiSelect(Env(load, rng.draw), content, old(rng.pos), fuel), rng.pos)
    decreases fuel, 5
  {
    var parts := Split(content, "$$");
    SplitOfContaining(content, "$$");
    var rangeStr, optionsStr := parts[0], parts[1];
    var separator := ", ";
    if |parts| > 2 {
      separator, optionsStr := parts[1], parts[2];
    }
    var processed := ProcessEach(load, Split(optionsStr, "|"), rng, fuel);
    if processed.Raised? {
      return Raised(processed.error);
    }
    var options := processed.value;
    var bounds := CountRange(rangeStr, |options|);
    if bounds.None? {
      return Raised(BadInteger);
    }
    var drawn := rng.RandInt(bounds.value.0, bounds.value.1);
    if drawn.None? {
      return Raised(EmptyRange);
    }
    var selected := rng.Sample(|options|, Min(drawn.value, |options|));
    if selected.None? {
      return Raised(BadSampleSize);
    }
    return Done(Join(Pick(options, selected.value), separator));
  }

  /** The `min_count`/`max_count` parsing of a multi-select group
      (santodan_nodes/wildcard.py:121-130); `None` for the `ValueError` of
      `int()`. */
  method CountRange(rangeStr: string, n: nat) returns (r: Option<(int, int)>)
    ensures r == RangeBounds(rangeStr, n)
  {
    if Contains(rangeStr, "-") {
      r := DashRange(rangeStr, n);
    } else if rangeStr != "" {
      var countVal := ParseInt(rangeStr);
      if countVal.None? {
        r := None;
      } else if countVal.value < 0 {
        r := Some((1, -countVal.value));
      } else {
        r := Some((countVal.value, countVal.value));
      }
    } else {
      r := Some((1, 1));
    }
  }

  /** The `min-max` form of the count range: an empty bound stands for 1
      below and for the number of options above. */
  method DashRange(rangeStr: string, n: nat) returns (r: Option<(int, int)>)
    requires Contains(rangeStr, "-")
    ensures r == RangeBounds(rangeStr, n)
  {
    var (minStr, maxStr) := SplitOnce(rangeStr, "-");
    var minCount := if minStr != "" then ParseInt(minStr) else Some(1);
    var maxCount := if maxStr != "" then ParseInt(maxStr) else Some(n as int);
    if minCount.None? || maxCount.None? {
      return None;
    }
    return Some((minCount.value, maxCount.value));
  }

  /** A single-choice group (santodan_nodes/wildcard.py:135-147). */
  method SingleChoiceGroup(load: string -> seq<string>, content: string, rng: Rng, fuel: nat)
    returns (out: Outcome<string>)
    modifies rng
    ensures Agrees(out, SingleChoice(Env(load, rng.draw), content, old(rng.pos), fuel), rng.pos)
    decreases fuel, 5
  {
    var options := Split(content, "|");
    var weights, choices := SplitWeights(options);
    var processed := ProcessEach(load, choices, rng, fuel);
    if processed.Raised? {
      return Raised(processed.error);
    }
    var j := rng.Choices(weights);
    if j.None? {
      return Raised(BadWeights);
    }
    return Done(processed.value[j.value]);
  }

  /** The weight loop of a single-choice group
      (santodan_nodes/wildcard.py:137-144): each option's weight and text. */
  method SplitWeights(options: seq<string>) returns (weights: seq<Weight>, choices: seq<string>)
    ensures weights == Weights(options) && choices == Texts(options)
  {
    weights, choices := [], [];
    for i := 0 to |options|
      invariant weights == Weights(options[..i]) && choices == Texts(options[..i])
    {
      var w, choice := OptionWeight(options[i]);
      WeightsSnoc(options, i);
      weights, choices := weights + [w], choices + [choice];
    }
    assert options[..|options|] == options;
  }

  /** One more option adds its weight and its text. */
  lemma {:induction false} WeightsSnoc(options: seq<string>, i: nat)
    requires i < |options|
    ensures Weights(options[..i + 1]) == Weights(options[..i]) + [ParseOption(options[i]).0]
    ensures Texts(options[..i + 1]) == Texts(options[..i]) + [ParseOption(options[i]).1]
  {
    assert options[..i + 1] == options[..i] + [options[i]];
    WeightsAppend(options[..i], [options[i]]);
    assert [options[i]][1..] == [];
  }

  /** The body of the weight loop: `weight::text` gives the parsed weight
      and the text; anything else weighs 1.0 and is kept whole. */
  method OptionWeight(option: string) returns (w: Weight, choice: string)
    ensures (w, choice) == ParseOption(option)
  {
    w, choice := Finite(1.0), option;
    if Contains(option, "::") {
      var (weightStr, text) := SplitOnce(option, "::");
      var parsed := ParseFloat(weightStr);
      if parsed.Some? {
        w, choice := parsed.value, text;
      }
    }
  }

  /** `[self._process_syntax(o, rng) for o in options]` */
  method ProcessEach(load: string -> seq<string>, options: seq<string>, rng: Rng, fuel: nat)
    returns (out: Outcome<seq<string>>)
    modifies rng
    ensures Agrees(out, ProcessAll(Env(load, rng.draw), options, old(rng.pos), fuel), rng.pos)
    decreases fuel, 4
  {
    ghost var env := Env(load, rng.draw);
    ghost var pos0 := rng.pos;
    var results := [];
    PrependNothing(ProcessAll(env, options, pos0, fuel));
    assert options[0..] == options;
    for i := 0 to |options|
      invariant rng.draw == env.draw
      invariant ProcessAll(env, options, pos0, fuel) ==
        Prepend(results, ProcessAll(env, options[i..], rng.pos, fuel))
    {
      ProcessAllStep(env, options, i, rng.pos, fuel, results);
      var r := ProcessSyntax(load, options[i], rng, fuel);
      if r.Raised? {
        return Raised(r.error);
      }
      results := results + [r.value];
    }
    assert options[|options|..] == [];
    assert results + [] == results;
    return Done(results);
  }

  /** The results so far in front of those still to come. */
  function Prepend(xs: seq<string>, r: Res<seq<string>>): Res<seq<string>>
  {
    match r
    case Err(e) => Err(e)
    case Ok(rest, p) => Ok(xs + rest, p)
  }

  lemma {:induction false} PrependNothing(r: Res<seq<string>>)
    ensures Prepend([], r) == r
  {
    if r.Ok? {
      assert [] + r.value == r.value;
    }
  }

  /** One more option expanded moves its result from what is to come to
      the results so far. */
  lemma {:induction false} ProcessAllStep(env: Env, options: seq<string>, i: nat, pos: nat, fuel: nat, results: seq<string>)
    requires i < |options|
    ensures Prepend(results, ProcessAll(env, options[i..], pos, fuel)) ==
      match Process(env, options[i], pos, fuel)
      case Err(e) => Err(e)
      case Ok(v, p) => Prepend(results + [v], ProcessAll(env, options[i + 1..], p, fuel))
  {
    assert options[i..][0] == options[i];
    assert options[i..][1..] == options[i + 1..];
    match Process(env, options[i], pos, fuel)
    case Err(e) =>
    case Ok(v, p) =>
      match ProcessAll(env, options[i + 1..], p, fuel)
      case Err(e) =>
      case Ok(rest, q) =>
        assert results + ([v] + rest) == (results + [v]) + rest;
  }

  /** A group is found only where the text holds both braces. */
  lemma {:induction false} GroupNeedsBraces(t: string)
    ensures FindGroup(t).Some? ==> Contains(t, "{") && Contains(t, "}")
  {
    if FindGroup(t).Some? {
      var g := FindGroup(t).value;
      assert OccursAt(t, "{", g.start);
      assert OccursAt(t, "}", g.end - 1);
    }
  }

  /** A reference is found only where the text holds `__`. */
  lemma {:induction false} RefNeedsUnderscores(t: string)
    ensures FindRef(t).Some? ==> Contains(t, "__")
  {
    if FindRef(t).Some? {
      var m := FindRef(t).value;
      assert OccursAt(t, "__", m.start);
    }
  }
}
