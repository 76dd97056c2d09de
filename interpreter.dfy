/** The grammar interpreter `WildcardManager._process_syntax`
    (santodan_nodes/wildcard.py:98-160) as functions: quantifier rewriting,
    innermost-first group resolution, then wildcard references, each
    recursive call starting again at the first phase.

    The seeded generator is threaded as a position in `Env.draw`; the
    wildcard files are `Env.loadLines`. Nothing in the code bounds the
    recursion (a wildcard line may refer to its own file; CPython stops it
    with `RecursionError`), so every resolution of a group or reference
    spends one unit of `fuel`, and what is nested inside it runs on the
    fuel that is left; running out is the error `OutOfFuel`, which also
    stands for `RecursionError`. The fuel bounds groups and references
    resolved one after another as well as nested ones; `FuelFacts` shows
    that any result other than `OutOfFuel` is the same under every larger
    fuel. */
module Interpreter {
  import opened Text
  import opened Wrappers
  import opened Numbers
  import opened Patterns
  import opened Oracle

  /** The exceptions that escape `_process_syntax`, and running out of fuel. */
  datatype Error =
    | BadInteger      // `int()` of a range bound fails
    | EmptyRange      // `randint(lo, hi)` with lo > hi
    | BadSampleSize   // `sample` with a negative or too large count
    | BadWeights      // `choices` with a total weight that is not finite and positive
    | OutOfFuel

  /** A value together with the generator's position after producing it,
      or the error that ended the expansion. */
  datatype Res<T> = Ok(value: T, pos: nat) | Err(error: Error)

  /** The collaborators: the raw lines of the wildcard file of a name
      (no lines for a missing file), and the seeded draw stream. */
  datatype Env = Env(loadLines: string -> seq<string>, draw: Stream)

  // ---------------------------------------------------------------------
  // Option lists

  /** The line filter of `_get_wildcard_options`: stripped lines, without
      the empty ones and the `#` comments. */
  function OptionLines(lines: seq<string>): (r: seq<string>)
    ensures |r| <= |lines|
    ensures forall k :: 0 <= k < |r| ==> r[k] != "" && r[k][0] != '#' && Strip(r[k]) == r[k]
  {
    if lines == [] then [] else Kept(lines[0]) + OptionLines(lines[1..])
  }

  /** What the filter keeps of one line. */
  function Kept(line: string): (r: seq<string>)
    ensures |r| <= 1
    ensures forall k :: 0 <= k < |r| ==> r[k] != "" && r[k][0] != '#' && Strip(r[k]) == r[k]
  {
    var l := Strip(line);
    StripIdempotent(line);
    if l != "" && !StartsWith(l, "#") then [l] else []
  }

  /** The filter keeps a line exactly when its stripped text is neither
      empty nor a comment, and keeps the order. */
  lemma {:induction false} OptionLinesAppend(a: seq<string>, b: seq<string>)
    ensures OptionLines(a + b) == OptionLines(a) + OptionLines(b)
  {
    if a == [] {
      assert a + b == b;
    } else {
      assert (a + b)[1..] == a[1..] + b;
      assert OptionLines(a + b) == Kept(a[0]) + OptionLines(a[1..] + b);
      OptionLinesAppend(a[1..], b);
    }
  }

  lemma {:induction false} OptionLinesOne(line: string)
    ensures OptionLines([line]) ==
      if Strip(line) != "" && Strip(line)[0] != '#' then [Strip(line)] else []
  {
    assert [line][1..] == [];
  }

  // ---------------------------------------------------------------------
  // Group contents

  /** The layout of a multi-select group `range$$options` or
      `range$$separator$$options[$$ignored...]`. */
  datatype MultiLayout = MultiLayout(range: string, separator: string, options: string)

  function MultiParts(content: string): (r: MultiLayout)
    requires Contains(content, "$$")
  {
    var parts := Split(content, "$$");
    SplitOfContaining(content, "$$");
    if |parts| > 2 then MultiLayout(parts[0], parts[1], parts[2])
    else MultiLayout(parts[0], ", ", parts[1])
  }

  lemma {:induction false} SplitOfContaining(s: string, sep: string)
    requires sep != [] && Contains(s, sep)
    ensures |Split(s, sep)| >= 2
  {
  }

  /** The bounds `[lo, hi]` of the count a multi-select draws, from its
      range text and the number of options; `None` stands for the
      `ValueError` of `int()`. */
  function RangeBounds(range: string, n: nat): Option<(int, int)>
  {
    if Contains(range, "-") then
      var (lo, hi) := SplitOnce(range, "-");
      var l := if lo == "" then Some(1) else ParseInt(lo);
      var h := if hi == "" then Some(n as int) else ParseInt(hi);
      if l.None? || h.None? then None else Some((l.value, h.value))
    else if range != "" then
      match ParseInt(range)
      case None => None
      case Some(v) => if v < 0 then Some((1, -v)) else Some((v, v))
    else Some((1, 1))
  }

  /** A choice option `weight::text` split into its weight and its text;
      the weight is 1.0 and the text the whole option when there is no
      `::` or when the weight does not parse. */
  function ParseOption(option: string): (Weight, string)
  {
    if Contains(option, "::") then
      var (w, text) := SplitOnce(option, "::");
      match ParseFloat(w)
      case Some(x) => (x, text)
      case None => (Finite(1.0), option)
    else (Finite(1.0), option)
  }

  /** The weights of the options, in order. */
  function Weights(options: seq<string>): (r: seq<Weight>)
    ensures |r| == |options|
  {
    if options == [] then [] else [ParseOption(options[0]).0] + Weights(options[1..])
  }

  /** The texts of the options, in order. */
  function Texts(options: seq<string>): (r: seq<string>)
    ensures |r| == |options|
  {
    if options == [] then [] else [ParseOption(options[0]).1] + Texts(options[1..])
  }

  /** Each option's weight and text are what `ParseOption` makes of it. */
  lemma {:induction false} WeightsAt(options: seq<string>, k: nat)
    requires k < |options|
    ensures Weights(options)[k] == ParseOption(options[k]).0
    ensures Texts(options)[k] == ParseOption(options[k]).1
  {
    if k > 0 {
      WeightsAt(options[1..], k - 1);
    }
  }

  /** Weighing two lists of options one after the other is weighing
      their concatenation. */
  lemma {:induction false} WeightsAppend(a: seq<string>, b: seq<string>)
    ensures Weights(a + b) == Weights(a) + Weights(b)
    ensures Texts(a + b) == Texts(a) + Texts(b)
  {
    if a == [] {
      assert a + b == b;
    } else {
      assert (a + b)[0] == a[0];
      assert (a + b)[1..] == a[1..] + b;
      WeightsAppend(a[1..], b);
    }
  }

  /** The options at the chosen positions, in the order they were drawn. */
  function Pick(options: seq<string>, idx: seq<nat>): (r: seq<string>)
    requires forall k :: 0 <= k < |idx| ==> idx[k] < |options|
    ensures |r| == |idx| && forall k :: 0 <= k < |idx| ==> r[k] == options[idx[k]]
  {
    if idx == [] then [] else [options[idx[0]]] + Pick(options, idx[1..])
  }

  function Min(a: int, b: int): int
  {
    if a <= b then a else b
  }

  // ---------------------------------------------------------------------
  // The interpreter

  /** `_process_syntax(t, rng)` */
  function Process(env: Env, t: string, pos: nat, fuel: nat): (r: Res<string>)
    ensures r.Ok? ==> pos <= r.pos && FindRef(r.value).None?
    decreases fuel, 3
  {
    match ResolveGroups(env, ExpandQuantifiers(t), pos, fuel)
    case Err(e) => Err(e)
    case Ok(u, p) => ResolveRefs(env, u, p, fuel)
  }

  /** The group loop (santodan_nodes/wildcard.py:112-148): resolve the
      leftmost brace-free group and splice its replacement in, until no
      group is left. */
  function ResolveGroups(env: Env, t: string, pos: nat, fuel: nat): (r: Res<string>)
    ensures r.Ok? ==> pos <= r.pos && FindGroup(r.value).None?
    decreases fuel, 2
  {
    match FindGroup(t)
    case None => Ok(t, pos)
    case Some(g) => if fuel == 0 then Err(OutOfFuel) else GroupThenRest(env, t, g, pos, fuel - 1)
  }

  /** One pass of the group loop on the group `g` of `t`, then the rest
      of the loop on the spliced text. */
  function GroupThenRest(env: Env, t: string, g: GroupMatch, pos: nat, fuel: nat): (r: Res<string>)
    requires g.start + 2 <= g.end <= |t|
    ensures r.Ok? ==> pos <= r.pos && FindGroup(r.value).None?
    decreases fuel, 7
  {
    match ResolveGroup(env, t[g.start + 1..g.end - 1], pos, fuel)
    case Err(e) => Err(e)
    case Ok(rep, p) => ResolveGroups(env, Splice(t, g.start, g.end, rep), p, fuel)
  }

  /** The replacement of one group with the given content. */
  function ResolveGroup(env: Env, content: string, pos: nat, fuel: nat): (r: Res<string>)
    ensures r.Ok? ==> pos <= r.pos
    decreases fuel, 6
  {
    if Contains(content, "$$") then MultiSelect(env, content, pos, fuel)
    else SingleChoice(env, content, pos, fuel)
  }

  /** A multi-select group (santodan_nodes/wildcard.py:116-133). */
  function MultiSelect(env: Env, content: string, pos: nat, fuel: nat): (r: Res<string>)
    requires Contains(content, "$$")
    ensures r.Ok? ==> pos <= r.pos
    decreases fuel, 5
  {
    var lay := MultiParts(content);
    match ProcessAll(env, Split(lay.options, "|"), pos, fuel)
    case Err(e) => Err(e)
    case Ok(opts, p1) =>
      match RangeBounds(lay.range, |opts|)
      case None => Err(BadInteger)
      case Some((lo, hi)) =>
        match RandInt(env.draw, p1, lo, hi)
        case None => Err(EmptyRange)
        case Some((v, p2)) =>
          match Sample(env.draw, p2, |opts|, Min(v, |opts|))
          case None => Err(BadSampleSize)
          case Some((idx, p3)) => Ok(Join(Pick(opts, idx), lay.separator), p3)
  }

  /** A single-choice group (santodan_nodes/wildcard.py:135-147). */
  function SingleChoice(env: Env, content: string, pos: nat, fuel: nat): (r: Res<string>)
    ensures r.Ok? ==> pos <= r.pos
    decreases fuel, 5
  {
    var options := Split(content, "|");
    match ProcessAll(env, Texts(options), pos, fuel)
    case Err(e) => Err(e)
    case Ok(choices, p1) =>
      match WeightedChoice(env.draw, p1, Weights(options))
      case None => Err(BadWeights)
      case Some((j, p2)) => Ok(choices[j], p2)
  }

  /** `[self._process_syntax(o, rng) for o in options]`, left to right. */
  function ProcessAll(env: Env, options: seq<string>, pos: nat, fuel: nat): (r: Res<seq<string>>)
    ensures r.Ok? ==> pos <= r.pos && |r.value| == |options|
    decreases fuel, 4, |options|
  {
    if options == [] then Ok([], pos)
    else match Process(env, options[0], pos, fuel)
      case Err(e) => Err(e)
      case Ok(first, p1) =>
        match ProcessAll(env, options[1..], p1, fuel)
        case Err(e) => Err(e)
        case Ok(rest, p2) => Ok([first] + rest, p2)
  }

  /** The wildcard loop (santodan_nodes/wildcard.py:150-159): replace the
      leftmost reference, until no reference is left. */
  function ResolveRefs(env: Env, t: string, pos: nat, fuel: nat): (r: Res<string>)
    ensures r.Ok? ==> pos <= r.pos && FindRef(r.value).None?
    decreases fuel, 2
  {
    match FindRef(t)
    case None => Ok(t, pos)
    case Some(m) => if fuel == 0 then Err(OutOfFuel) else RefThenRest(env, t, m, pos, fuel - 1)
  }

  /** One pass of the wildcard loop on the reference `m` of `t`, then the
      rest of the loop on the new text. */
  function RefThenRest(env: Env, t: string, m: RefMatch, pos: nat, fuel: nat): (r: Res<string>)
    requires m.start + 4 <= m.end <= |t|
    ensures r.Ok? ==> pos <= r.pos && FindRef(r.value).None?
    decreases fuel, 5
  {
    match ReplaceRef(env, t, m, pos, fuel)
    case Err(e) => Err(e)
    case Ok(u, p) => ResolveRefs(env, u, p, fuel)
  }

  /** The text after one pass of the wildcard loop: the reference `m`
      replaced by a processed line of its file, or deleted with the
      whitespace after it when the file offers no line. */
  function ReplaceRef(env: Env, t: string, m: RefMatch, pos: nat, fuel: nat): (r: Res<string>)
    requires m.start + 4 <= m.end <= |t|
    ensures r.Ok? ==> pos <= r.pos
    decreases fuel, 4
  {
    var options := OptionLines(env.loadLines(m.Name(t)));
    if |options| > 0 then
      var (j, p1) := Choice(env.draw, pos, |options|);
      match Process(env, options[j], p1, fuel)
      case Err(e) => Err(e)
      case Ok(c, p2) => Ok(Splice(t, m.start, m.end, c), p2)
    else Ok(t[..m.start] + LStrip(t[m.end..]), pos)
  }
}
