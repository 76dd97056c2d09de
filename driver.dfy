/** `WildcardManager.process_text` (santodan_nodes/wildcard.py:164-192):
    comment lines dropped, then the interpreter run once on the whole
    block or once per line, on one generator seeded for the call, and the
    outputs assembled into a never-empty list and its preview. */
module Driver {
  import opened Text
  import opened Wrappers
  import opened Oracle
  import opened Interpreter
  import opened Engine

  /** The `text` input: one string, or a list of strings. */
  datatype Input = Text(text: string) | Lines(lines: seq<string>)

  /** `processing_mode`: "entire text as one", or anything else, which
      processes line by line. */
  datatype Mode = EntireTextAsOne | LineByLine

  /** A list input is joined with newlines. */
  function InputText(input: Input): string
  {
    match input
    case Text(s) => s
    case Lines(ls) => Join(ls, "\n")
  }

  /** A line is a comment when its stripped text starts with `#`. */
  predicate IsComment(line: string)
  {
    StartsWith(Strip(line), "#")
  }

  /** `[l for l in lines if not l.strip().startswith('#')]` */
  function NonCommentLines(lines: seq<string>): (r: seq<string>)
    ensures |r| <= |lines|
    ensures forall k :: 0 <= k < |r| ==> !IsComment(r[k])
  {
    if lines == [] then []
    else (if IsComment(lines[0]) then [] else [lines[0]]) + NonCommentLines(lines[1..])
  }

  /** The texts the interpreter runs on, in order: the stripped block of
      non-comment lines when it is not empty, or each stripped line that
      is neither blank nor a comment. */
  function Jobs(mode: Mode, text: string): seq<string>
  {
    var lines := Split(text, "\n");
    match mode
    case EntireTextAsOne =>
      var block := Strip(Join(NonCommentLines(lines), "\n"));
      if block != "" then [block] else []
    case LineByLine => OptionLines(lines)
  }

  /** The list `process_text` returns: one output per job, expanded left
      to right on the same generator, or `[""]` when there is no job. */
  function ProcessText(env: Env, mode: Mode, text: string, fuel: nat): Res<seq<string>>
  {
    match ProcessAll(env, Jobs(mode, text), 0, fuel)
    case Err(e) => Err(e)
    case Ok(outs, p) => Ok(if outs == [] then [""] else outs, p)
  }

  /** `process_text(text, processing_mode, seed)`: the outputs, and their
      preview joined with newlines. The generator is created here from
      the stream its seed fixes; an error propagates out of the call. */
  method RunProcessText(load: string -> seq<string>, input: Input, mode: Mode, draw: Stream, fuel: nat)
    returns (out: Outcome<seq<string>>, preview: string)
    ensures match ProcessText(Env(load, draw), mode, InputText(input), fuel)
      case Err(e) => out == Raised(e)
      case Ok(outs, _) => out == Done(outs) && preview == Join(outs, "\n")
  {
    var text := InputText(input);
    var rng := new Rng(draw);
    var r;
    if mode == EntireTextAsOne {
      r := ProcessBlock(load, text, rng, fuel);
    } else {
      r := ProcessLines(load, Split(text, "\n"), rng, fuel);
    }
    if r.Raised? {
      return Raised(r.error), "";
    }
    var processed := r.value;
    if processed == [] {
      processed := [""];
    }
    return Done(processed), Join(processed, "\n");
  }

  /** The "entire text as one" branch of `process_text`
      (santodan_nodes/wildcard.py:167-172): the non-comment lines joined
      back and stripped, expanded once unless nothing is left. */
  method ProcessBlock(load: string -> seq<string>, text: string, rng: Rng, fuel: nat)
    returns (out: Outcome<seq<string>>)
    modifies rng
    ensures Agrees(out, ProcessAll(Env(load, rng.draw), Jobs(EntireTextAsOne, text), old(rng.pos), fuel), rng.pos)
  {
    var block := Strip(Join(NonCommentLines(Split(text, "\n")), "\n"));
    if block == "" {
      return Done([]);
    }
    ProcessAllOne(Env(load, rng.draw), block, rng.pos, fuel);
    var r := ProcessSyntax(load, block, rng, fuel);
    if r.Raised? {
      return Raised(r.error);
    }
    return Done([r.value]);
  }

  /** Processing a list of one text is processing that text. */
  lemma {:induction false} ProcessAllOne(env: Env, s: string, pos: nat, fuel: nat)
    ensures ProcessAll(env, [s], pos, fuel) ==
      match Process(env, s, pos, fuel)
      case Err(e) => Err(e)
      case Ok(v, p) => Ok([v], p)
  {
    assert [s][0] == s && [s][1..] == [];
    match Process(env, s, pos, fuel)
    case Err(e) =>
    case Ok(v, p) =>
      assert [v] + [] == [v];
  }

  /** The line loop of `process_text` (santodan_nodes/wildcard.py:173-176):
      blank and comment lines are skipped, every other line is stripped
      and expanded, in order. */
  method ProcessLines(load: string -> seq<string>, lines: seq<string>, rng: Rng, fuel: nat)
    returns (out: Outcome<seq<string>>)
    modifies rng
    ensures Agrees(out, ProcessAll(Env(load, rng.draw), OptionLines(lines), old(rng.pos), fuel), rng.pos)
  {
    ghost var env := Env(load, rng.draw);
    ghost var pos0 := rng.pos;
    var processed := [];
    PrependNothing(ProcessAll(env, OptionLines(lines), pos0, fuel));
    assert lines[0..] == lines;
    for i := 0 to |lines|
      invariant rng.draw == env.draw
      invariant ProcessAll(env, OptionLines(lines), pos0, fuel) ==
        Prepend(processed, ProcessAll(env, OptionLines(lines[i..]), rng.pos, fuel))
    {
      LineStep(env, lines, i, rng.pos, fuel, processed);
      var stripped := Strip(lines[i]);
      if stripped == "" || StartsWith(stripped, "#") {
        continue;
      }
      var r := ProcessSyntax(load, stripped, rng, fuel);
      if r.Raised? {
        return Raised(r.error);
      }
      processed := processed + [r.value];
    }
    assert lines[|lines|..] == [];
    assert processed + [] == processed;
    return Done(processed);
  }

  /** One line of the loop: a skipped line changes nothing, a kept line
      moves its expansion to the outputs so far. */
  lemma {:induction false} LineStep(env: Env, lines: seq<string>, i: nat, pos: nat, fuel: nat, results: seq<string>)
    requires i < |lines|
    ensures var s := Strip(lines[i]);
      Prepend(results, ProcessAll(env, OptionLines(lines[i..]), pos, fuel)) ==
      if s == "" || StartsWith(s, "#") then
        Prepend(results, ProcessAll(env, OptionLines(lines[i + 1..]), pos, fuel))
      else
        match Process(env, s, pos, fuel)
        case Err(e) => Err(e)
        case Ok(v, p) => Prepend(results + [v], ProcessAll(env, OptionLines(lines[i + 1..]), p, fuel))
  {
    assert lines[i..][0] == lines[i];
    assert lines[i..][1..] == lines[i + 1..];
    var rest := OptionLines(lines[i + 1..]);
    assert OptionLines(lines[i..]) == Kept(lines[i]) + rest;
    var s := Strip(lines[i]);
    if !(s == "" || StartsWith(s, "#")) {
      assert Kept(lines[i]) + rest == [s] + rest;
      assert ([s] + rest)[0] == s;
      assert ([s] + rest)[1..] == rest;
      match Process(env, s, pos, fuel)
      case Err(e) =>
      case Ok(v, p) =>
        match ProcessAll(env, rest, p, fuel)
        case Err(e) =>
        case Ok(more, q) =>
          assert results + ([v] + more) == (results + [v]) + more;
    } else {
      assert Kept(lines[i]) + rest == rest;
    }
  }

  // ---------------------------------------------------------------------
  // Output shape (santodan_nodes/wildcard.py:166-178)

  /** The result is never empty: no job gives `[""]`, otherwise there is
      one output per job. */
  lemma {:induction false} OutputsPerJob(env: Env, mode: Mode, text: string, fuel: nat)
    ensures var r := ProcessText(env, mode, text, fuel);
      var jobs := Jobs(mode, text);
      r.Ok? ==> |r.value| >= 1 && |r.value| == (if jobs == [] then 1 else |jobs|)
    ensures Jobs(mode, text) == [] ==> ProcessText(env, mode, text, fuel) == Ok([""], 0)
  {
    var jobs := Jobs(mode, text);
    if jobs == [] {
      assert ProcessAll(env, jobs, 0, fuel) == Ok([], 0);
    }
  }

  /** "entire text as one" yields exactly one output: `""` for a block of
      nothing but comments and whitespace, otherwise the expansion of the
      stripped block of non-comment lines. */
  lemma {:induction false} EntireTextOneOutput(env: Env, text: string, fuel: nat)
    ensures var r := ProcessText(env, EntireTextAsOne, text, fuel);
      var block := Strip(Join(NonCommentLines(Split(text, "\n")), "\n"));
      if block == "" then r == Ok([""], 0)
      else match Process(env, block, 0, fuel)
        case Err(e) => r == Err(e)
        case Ok(v, p) => r == Ok([v], p)
  {
    var block := Strip(Join(NonCommentLines(Split(text, "\n")), "\n"));
    if block != "" {
      ProcessAllOne(env, block, 0, fuel);
    } else {
      OutputsPerJob(env, EntireTextAsOne, text, fuel);
    }
  }

  /** A list input is processed one element per line when no element
      holds a newline. */
  lemma {:induction false} ListInputLines(ls: seq<string>)
    requires |ls| >= 1
    requires forall k, j :: 0 <= k < |ls| && 0 <= j < |ls[k]| ==> ls[k][j] != '\n'
    ensures Jobs(LineByLine, InputText(Lines(ls))) == OptionLines(ls)
  {
    SplitJoin(ls, "\n");
  }

  /** A text whose lines are all blank or comments gives `[""]` line by
      line. */
  lemma {:induction false} CommentsOnlyGiveEmpty(env: Env, text: string, fuel: nat)
    requires forall k :: 0 <= k < |Split(text, "\n")| ==>
      Strip(Split(text, "\n")[k]) == "" || IsComment(Split(text, "\n")[k])
    ensures ProcessText(env, LineByLine, text, fuel) == Ok([""], 0)
  {
    NothingKept(Split(text, "\n"));
    OutputsPerJob(env, LineByLine, text, fuel);
  }

  lemma {:induction false} NothingKept(lines: seq<string>)
    requires forall k :: 0 <= k < |lines| ==> Strip(lines[k]) == "" || IsComment(lines[k])
    ensures OptionLines(lines) == []
  {
    if lines != [] {
      NothingKept(lines[1..]);
      assert Kept(lines[0]) == [];
    }
  }
}
