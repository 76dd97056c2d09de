/** The three regular expressions of the expansion engine
    (santodan_nodes/wildcard.py:100-102), written as the matches Python's
    `re` module finds with them: the leftmost start, and at that start the
    span the greedy pattern settles on.

    - quantifier  `(\d+)#(__[\w\./\-\\]+__)`
    - group       `\{([^{}]*)\}`
    - reference   `__([\w\./\-\\]+)__`
*/
module Patterns {
  import opened Text
  import opened Wrappers
  import opened Numbers

  /** `\w` restricted to ASCII: letters, digits and the underscore. */
  predicate IsWordChar(c: char)
  {
    ('a' <= c <= 'z') || ('A' <= c <= 'Z') || IsDigit(c) || c == '_'
  }

  /** The class `[\w\./\-\\]` of characters a wildcard name is made of. */
  predicate IsNameChar(c: char)
  {
    IsWordChar(c) || c == '.' || c == '/' || c == '-' || c == '\\'
  }

  // ---------------------------------------------------------------------
  // Wildcard references

  /** `t[i..m]` is `__name__` with a non-empty name of name characters. */
  predicate IsRefSpan(t: string, i: int, m: int)
  {
    0 <= i && i + 5 <= m <= |t| &&
    t[i] == '_' && t[i + 1] == '_' && t[m - 2] == '_' && t[m - 1] == '_' &&
    forall k :: i + 2 <= k < m - 2 ==> IsNameChar(t[k])
  }

  /** The end of the run of name characters that starts at `j`. */
  function NameRunEnd(t: string, j: nat): (r: nat)
    requires j <= |t|
    ensures j <= r <= |t|
    ensures forall k :: j <= k < r ==> IsNameChar(t[k])
    ensures r == |t| || !IsNameChar(t[r])
    decreases |t| - j
  {
    if j < |t| && IsNameChar(t[j]) then NameRunEnd(t, j + 1) else j
  }

  /** The largest end `m' <= m` of a reference starting at `i`, trying the
      ends from `m` downwards as the regex engine backtracks. */
  function LastClose(t: string, i: nat, m: nat): (r: Option<nat>)
    requires m <= |t|
    requires forall k :: i + 2 <= k < m ==> IsNameChar(t[k])
    requires i + 2 <= |t| && t[i] == '_' && t[i + 1] == '_'
    ensures r.Some? ==> r.value <= m && IsRefSpan(t, i, r.value)
    ensures forall m' :: (if r.Some? then r.value else 0) < m' <= m ==> !IsRefSpan(t, i, m')
    decreases m
  {
    if m < i + 5 then None
    else if t[m - 2] == '_' && t[m - 1] == '_' then Some(m)
    else LastClose(t, i, m - 1)
  }

  /** The reference the pattern matches when it is tried at position `i`:
      the end of the longest `__name__` starting there. */
  function RefEndAt(t: string, i: nat): (r: Option<nat>)
    ensures r.Some? ==> IsRefSpan(t, i, r.value)
    ensures r.Some? ==> forall m :: r.value < m <= |t| ==> !IsRefSpan(t, i, m)
    ensures r.None? ==> forall m :: !IsRefSpan(t, i, m)
  {
    if i + 2 <= |t| && t[i] == '_' && t[i + 1] == '_' then
      var k := NameRunEnd(t, i + 2);
      var r := LastClose(t, i, k);
      RefSpanWithinRun(t, i, k);
      r
    else None
  }

  /** A reference never reaches past the run of name characters after its
      opening underscores (its closing underscores are name characters). */
  lemma {:induction false} RefSpanWithinRun(t: string, i: nat, k: nat)
    requires i + 2 <= |t| && k == NameRunEnd(t, i + 2)
    ensures forall m :: IsRefSpan(t, i, m) ==> m <= k
  {
    forall m | IsRefSpan(t, i, m) ensures m <= k {
    }
  }

  /** A reference found by `re.search`: the leftmost start, and the name. */
  datatype RefMatch = RefMatch(start: nat, end: nat)
  {
    function Name(t: string): string
      requires start + 4 <= end <= |t|
    {
      t[start + 2..end - 2]
    }
  }

  /** `wildcard_pattern.search(t)` */
  function FindRef(t: string): (r: Option<RefMatch>)
    ensures r.Some? ==> IsRefSpan(t, r.value.start, r.value.end)
    ensures r.Some? ==> forall m :: r.value.end < m <= |t| ==> !IsRefSpan(t, r.value.start, m)
    ensures forall j, m :: 0 <= j < (if r.Some? then r.value.start else |t|) ==> !IsRefSpan(t, j, m)
    ensures r.None? <==> forall j, m :: !IsRefSpan(t, j, m)
  {
    FindRefFrom(t, 0)
  }

  function FindRefFrom(t: string, i: nat): (r: Option<RefMatch>)
    ensures r.Some? ==> i <= r.value.start && IsRefSpan(t, r.value.start, r.value.end)
    ensures r.Some? ==> forall m :: r.value.end < m <= |t| ==> !IsRefSpan(t, r.value.start, m)
    ensures forall j, m :: i <= j < (if r.Some? then r.value.start else |t|) ==> !IsRefSpan(t, j, m)
    ensures r.None? ==> forall j, m :: i <= j ==> !IsRefSpan(t, j, m)
    decreases |t| - i, 1
  {
    if i >= |t| then None else FindRefAt(t, i)
  }

  /** The search from `i`, trying the pattern at `i` first. */
  function FindRefAt(t: string, i: nat): (r: Option<RefMatch>)
    requires i < |t|
    ensures r.Some? ==> i <= r.value.start && IsRefSpan(t, r.value.start, r.value.end)
    ensures r.Some? ==> forall m :: r.value.end < m <= |t| ==> !IsRefSpan(t, r.value.start, m)
    ensures forall j, m :: i <= j < (if r.Some? then r.value.start else |t|) ==> !IsRefSpan(t, j, m)
    ensures r.None? ==> forall j, m :: i <= j ==> !IsRefSpan(t, j, m)
    decreases |t| - i, 0
  {
    match RefEndAt(t, i)
    case Some(m) => Some(RefMatch(i, m))
    case None => FindRefFrom(t, i + 1)
  }

  // ---------------------------------------------------------------------
  // Groups

  /** `t[i..e]` is `{content}` with no brace inside the content. */
  predicate IsGroupSpan(t: string, i: int, e: int)
  {
    0 <= i && i + 2 <= e <= |t| && t[i] == '{' && t[e - 1] == '}' &&
    forall k :: i < k < e - 1 ==> t[k] != '{' && t[k] != '}'
  }

  /** The first brace at or after `j`, or the length. */
  function NextBrace(t: string, j: nat): (r: nat)
    requires j <= |t|
    ensures j <= r <= |t|
    ensures forall k :: j <= k < r ==> t[k] != '{' && t[k] != '}'
    ensures r < |t| ==> t[r] == '{' || t[r] == '}'
    decreases |t| - j
  {
    if j == |t| || t[j] == '{' || t[j] == '}' then j else NextBrace(t, j + 1)
  }

  datatype GroupMatch = GroupMatch(start: nat, end: nat)

  /** `inner_prompt_pattern.search(t)`: the leftmost brace-free group. */
  function FindGroup(t: string): (r: Option<GroupMatch>)
    ensures r.Some? ==> IsGroupSpan(t, r.value.start, r.value.end)
    ensures forall j, e :: 0 <= j < (if r.Some? then r.value.start else |t|) ==> !IsGroupSpan(t, j, e)
    ensures r.None? <==> forall j, e :: !IsGroupSpan(t, j, e)
  {
    FindGroupFrom(t, 0)
  }

  function FindGroupFrom(t: string, i: nat): (r: Option<GroupMatch>)
    ensures r.Some? ==> i <= r.value.start && IsGroupSpan(t, r.value.start, r.value.end)
    ensures forall j, e :: i <= j < (if r.Some? then r.value.start else |t|) ==> !IsGroupSpan(t, j, e)
    ensures r.None? ==> forall j, e :: i <= j ==> !IsGroupSpan(t, j, e)
    decreases |t| - i
  {
    if i >= |t| then None
    else if t[i] == '{' && NextBrace(t, i + 1) < |t| && t[NextBrace(t, i + 1)] == '}' then
      Some(GroupMatch(i, NextBrace(t, i + 1) + 1))
    else
      GroupStartsOnlyAtBrace(t, i);
      FindGroupFrom(t, i + 1)
  }

  /** A group starting at `i` closes at the first brace after `i`. */
  lemma {:induction false} GroupStartsOnlyAtBrace(t: string, i: nat)
    requires i < |t|
    requires !(t[i] == '{' && NextBrace(t, i + 1) < |t| && t[NextBrace(t, i + 1)] == '}')
    ensures forall e :: !IsGroupSpan(t, i, e)
  {
    forall e | IsGroupSpan(t, i, e) ensures false {
    }
  }

  /** Replacing the span `[i, e)` of `t` by `rep`: the text before and
      after the span is kept as it was. */
  function Splice(t: string, i: nat, e: nat, rep: string): (r: string)
    requires i <= e <= |t|
    ensures |r| == |t| - (e - i) + |rep|
    ensures r[..i] == t[..i] && r[i..i + |rep|] == rep && r[i + |rep|..] == t[e..]
  {
    t[..i] + rep + t[e..]
  }

  // ---------------------------------------------------------------------
  // Quantifiers

  /** The end of the run of digits that starts at `j`. */
  function DigitRunEnd(t: string, j: nat): (r: nat)
    requires j <= |t|
    ensures j <= r <= |t|
    ensures forall k :: j <= k < r ==> IsDigit(t[k])
    ensures r == |t| || !IsDigit(t[r])
    decreases |t| - j
  {
    if j < |t| && IsDigit(t[j]) then DigitRunEnd(t, j + 1) else j
  }

  /** A quantifier `N#__name__` at `t[start..end]`: `count` is N, `hash`
      the position of `#`, `reference` the `__name__` part. */
  datatype QuantMatch = QuantMatch(count: nat, hash: nat, end: nat, reference: string)

  /** The quantifier the pattern matches when it is tried at `i`. */
  function QuantAt(t: string, i: nat): (r: Option<QuantMatch>)
  {
    if i < |t| && IsDigit(t[i]) then
      var d := DigitRunEnd(t, i);
      if d < |t| && t[d] == '#' then
        match RefEndAt(t, d + 1)
        case Some(m) => Some(QuantMatch(DigitsValue(t[i..d]), d, m, t[d + 1..m]))
        case None => None
      else None
    else None
  }

  /** What a quantifier match is: digits, `#`, then a reference. */
  lemma {:induction false} QuantAtShape(t: string, i: nat)
    ensures QuantAt(t, i).Some? ==>
      var q := QuantAt(t, i).value;
      i < q.hash < q.end <= |t| && t[q.hash] == '#' && AllDigits(t[i..q.hash]) &&
      q.count == DigitsValue(t[i..q.hash]) &&
      IsRefSpan(t, q.hash + 1, q.end) && q.reference == t[q.hash + 1..q.end]
  {
  }

  /** `'|'.join([reference] * count)` */
  function Repeated(reference: string, count: nat): string
  {
    Join(Repeat(reference, count), "|")
  }

  /** One pass of `quantifier_pattern.subn` from position `i`: every match,
      scanned left to right without overlap, is replaced by its repeated
      reference; the second component counts the replacements. */
  function SubFrom(t: string, i: nat): (r: (string, nat))
    decreases |t| - i
  {
    if i >= |t| then ("", 0)
    else match QuantAt(t, i)
      case Some(q) =>
        var rest := SubFrom(t, q.end);
        (Repeated(q.reference, q.count) + rest.0, rest.1 + 1)
      case None =>
        var rest := SubFrom(t, i + 1);
        ([t[i]] + rest.0, rest.1)
  }

  /** `quantifier_pattern.subn(expand_quantifier, t)` */
  function SubAll(t: string): (string, nat)
  {
    SubFrom(t, 0)
  }

  /** No quantifier matches anywhere in `t`. */
  predicate QuantifierFree(t: string)
  {
    forall i: nat :: i < |t| ==> QuantAt(t, i).None?
  }

  /** The quantifier loop of santodan_nodes/wildcard.py:108-110: `subn`
      again and again until a pass replaces nothing. */
  function ExpandQuantifiers(t: string): (r: string)
    ensures QuantifierFree(r)
    decreases CountChar(t, '#')
  {
    var (u, c) := SubAll(t);
    SubCountsHashes(t, 0);
    if c == 0 then
      SubNoMatch(t, 0);
      u
    else ExpandQuantifiers(u)
  }

  /** A name has no `#` and no `|`. */
  lemma {:induction false} RefHasNoHash(t: string, i: nat, m: nat)
    requires IsRefSpan(t, i, m)
    ensures CountChar(t[i..m], '#') == 0
    ensures forall k :: i <= k < m ==> t[k] != '#' && t[k] != '|'
    decreases m - i
  {
    var s := t[i..m];
    NoCharCount(s, '#');
  }

  lemma {:induction false} NoCharCount(s: string, c: char)
    requires forall k :: 0 <= k < |s| ==> s[k] != c
    ensures CountChar(s, c) == 0
  {
    if s != [] {
      NoCharCount(s[1..], c);
    }
  }

  lemma {:induction false} RepeatedHasNoHash(t: string, i: nat, m: nat, n: nat)
    requires IsRefSpan(t, i, m)
    ensures CountChar(Repeated(t[i..m], n), '#') == 0
  {
    RefHasNoHash(t, i, m);
    if n >= 2 {
      RepeatedHasNoHash(t, i, m, n - 1);
      assert Repeat(t[i..m], n)[1..] == Repeat(t[i..m], n - 1);
      CountCharAppend(t[i..m], "|", '#');
      CountCharAppend(t[i..m] + "|", Repeated(t[i..m], n - 1), '#');
    }
  }

  /** A quantifier holds exactly one `#`. */
  lemma {:induction false} QuantHasOneHash(t: string, i: nat, q: QuantMatch)
    requires QuantAt(t, i) == Some(q)
    ensures CountChar(t[i..q.end], '#') == 1
  {
    QuantAtShape(t, i);
    RefHasNoHash(t, q.hash + 1, q.end);
    NoCharCount(t[i..q.hash], '#');
    assert t[i..q.end] == t[i..q.hash] + ([t[q.hash]] + t[q.hash + 1..q.end]);
    CountCharAppend(t[i..q.hash], [t[q.hash]] + t[q.hash + 1..q.end], '#');
    CountCharAppend([t[q.hash]], t[q.hash + 1..q.end], '#');
  }

  /** Each replacement removes exactly one `#` and adds none: the loop of
      `subn` passes therefore ends. */
  lemma {:induction false} SubCountsHashes(t: string, i: nat)
    requires i <= |t|
    ensures CountChar(SubFrom(t, i).0, '#') + SubFrom(t, i).1 == CountChar(t[i..], '#')
    decreases |t| - i
  {
    if i < |t| {
      var qm := QuantAt(t, i);
      if qm.Some? {
        var q := qm.value;
        SubCountsHashes(t, q.end);
        var rest := SubFrom(t, q.end);
        var rep := Repeated(q.reference, q.count);
        assert SubFrom(t, i) == (rep + rest.0, rest.1 + 1);
        SubMatchStep(t, i, q, rest.0, rest.1);
      } else {
        SubCountsHashes(t, i + 1);
        var rest := SubFrom(t, i + 1);
        assert SubFrom(t, i) == ([t[i]] + rest.0, rest.1);
        CountCharAppend([t[i]], rest.0, '#');
        assert t[i..] == [t[i]] + t[i + 1..];
        CountCharAppend([t[i]], t[i + 1..], '#');
      }
    }
  }

  lemma {:induction false} SubMatchStep(t: string, i: nat, q: QuantMatch, rest: string, n: nat)
    requires QuantAt(t, i) == Some(q)
    requires CountChar(rest, '#') + n == CountChar(t[q.end..], '#')
    ensures CountChar(Repeated(q.reference, q.count) + rest, '#') + n + 1 == CountChar(t[i..], '#')
  {
    QuantAtShape(t, i);
    RepeatedHasNoHash(t, q.hash + 1, q.end, q.count);
    CountCharAppend(Repeated(q.reference, q.count), rest, '#');
    QuantHasOneHash(t, i, q);
    assert t[i..] == t[i..q.end] + t[q.end..];
    CountCharAppend(t[i..q.end], t[q.end..], '#');
  }

  /** A pass that replaced nothing found no match and changed nothing. */
  lemma {:induction false} SubNoMatch(t: string, i: nat)
    requires i <= |t| && SubFrom(t, i).1 == 0
    ensures SubFrom(t, i).0 == t[i..]
    ensures forall j: nat :: i <= j < |t| ==> QuantAt(t, j).None?
    decreases |t| - i
  {
    if i < |t| {
      SubNoMatch(t, i + 1);
      assert t[i..] == [t[i]] + t[i + 1..];
    }
  }
}
