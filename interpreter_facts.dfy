/** What the expansion functions of `Interpreter` guarantee: the rules for
    quantifiers, multi-select layouts and ranges, weighted options,
    wildcard references, and the order in which options are expanded. */
module InterpreterFacts {
  import opened Text
  import opened Wrappers
  import opened Numbers
  import opened Patterns
  import opened Oracle
  import opened Interpreter

  // ---------------------------------------------------------------------
  // Quantifiers

  lemma {:induction false} SubFromFree(t: string, i: nat)
    requires i <= |t|
    requires forall j: nat :: i <= j < |t| ==> QuantAt(t, j).None?
    ensures SubFrom(t, i) == (t[i..], 0)
    decreases |t| - i
  {
    if i < |t| {
      SubFromFree(t, i + 1);
      assert t[i..] == [t[i]] + t[i + 1..];
    }
  }

  /** Text in which no quantifier matches is left as it is by the
      quantifier loop, so the loop is idempotent. */
  lemma {:induction false} ExpandQuantifiersFixed(t: string)
    requires QuantifierFree(t)
    ensures ExpandQuantifiers(t) == t
  {
    SubFromFree(t, 0);
    assert t[0..] == t;
  }

  lemma {:induction false} ExpandQuantifiersIdempotent(t: string)
    ensures ExpandQuantifiers(ExpandQuantifiers(t)) == ExpandQuantifiers(t)
  {
    ExpandQuantifiersFixed(ExpandQuantifiers(t));
  }

  /** Without a `#` there is no quantifier. */
  lemma {:induction false} NoHashQuantifierFree(t: string)
    requires forall k :: 0 <= k < |t| ==> t[k] != '#'
    ensures QuantifierFree(t)
  {
    forall j: nat | j < |t| ensures QuantAt(t, j).None? {
      QuantAtShape(t, j);
    }
  }

  lemma {:induction false} CountZeroNoChar(s: string, c: char)
    requires CountChar(s, c) == 0
    ensures forall k :: 0 <= k < |s| ==> s[k] != c
  {
    if s != [] {
      CountZeroNoChar(s[1..], c);
      assert forall k :: 1 <= k < |s| ==> s[k] == s[1..][k - 1];
    }
  }

  lemma {:induction false} DigitRunBeforeHash(d: string, rest: string)
    requires |d| >= 1 && AllDigits(d)
    ensures DigitRunEnd(d + "#" + rest, 0) == |d|
    ensures IsDigit((d + "#" + rest)[0]) && (d + "#" + rest)[|d|] == '#'
    ensures (d + "#" + rest)[0..|d|] == d
  {
    var t := d + "#" + rest;
    assert forall k :: 0 <= k < |d| ==> t[k] == d[k];
    assert t[|d|] == '#';
  }

  lemma {:induction false} RefEndWhole(t: string, i: nat)
    requires IsRefSpan(t, i, |t|)
    ensures RefEndAt(t, i) == Some(|t|)
  {
  }

  lemma {:induction false} QuantAtFrom(t: string, h: nat, n: nat, reference: string, m: nat)
    requires 1 <= h < |t| && IsDigit(t[0]) && DigitRunEnd(t, 0) == h && t[h] == '#'
    requires m == |t| && RefEndAt(t, h + 1) == Some(m) && t[h + 1..] == reference
    requires AllDigits(t[0..h]) && DigitsValue(t[0..h]) == n
    ensures QuantAt(t, 0) == Some(QuantMatch(n, h, m, reference))
  {
    assert t[h + 1..m] == reference;
    assert QuantAt(t, 0) == Some(QuantMatch(DigitsValue(t[0..h]), h, m, t[h + 1..m]));
  }

  lemma {:induction false} RefAfterHash(d: string, reference: string)
    requires IsRefSpan(reference, 0, |reference|)
    ensures (d + "#" + reference)[|d| + 1..] == reference
    ensures RefEndAt(d + "#" + reference, |d| + 1) == Some(|d| + 1 + |reference|)
  {
    var t := d + "#" + reference;
    assert t[|d| + 1..] == reference;
    assert IsRefSpan(t, |d| + 1, |t|);
    RefEndWhole(t, |d| + 1);
  }

  /** The quantifier pattern matches `N#__name__` as a whole. */
  lemma {:induction false} QuantAtWhole(d: string, reference: string, n: nat)
    requires |d| >= 1 && AllDigits(d) && DigitsValue(d) == n
    requires IsRefSpan(reference, 0, |reference|)
    ensures QuantAt(d + "#" + reference, 0) ==
      Some(QuantMatch(n, |d|, |d| + 1 + |reference|, reference))
  {
    DigitRunBeforeHash(d, reference);
    RefAfterHash(d, reference);
    QuantAtFrom(d + "#" + reference, |d|, n, reference, |d| + 1 + |reference|);
  }

  lemma {:induction false} SubFromLastMatch(t: string, i: nat, q: QuantMatch)
    requires QuantAt(t, i) == Some(q) && q.end == |t|
    ensures SubFrom(t, i) == (Repeated(q.reference, q.count), 1)
  {
    assert SubFrom(t, q.end) == ("", 0);
    assert Repeated(q.reference, q.count) + "" == Repeated(q.reference, q.count);
  }

  /** One pass of `subn` over `N#__name__` makes one replacement. */
  lemma {:induction false} SubAllWhole(d: string, reference: string, n: nat)
    requires |d| >= 1 && AllDigits(d) && DigitsValue(d) == n
    requires IsRefSpan(reference, 0, |reference|)
    ensures SubAll(d + "#" + reference) == (Repeated(reference, n), 1)
  {
    QuantAtWhole(d, reference, n);
    SubFromLastMatch(d + "#" + reference, 0, QuantMatch(n, |d|, |d| + 1 + |reference|, reference));
  }

  /** `N#__name__` becomes `__name__` repeated N times and joined by `|`,
      and nothing is left for a further pass to rewrite. */
  lemma {:induction false} QuantifierExpands(n: nat, name: string)
    requires |name| >= 1 && forall k :: 0 <= k < |name| ==> IsNameChar(name[k])
    ensures ExpandQuantifiers(NatDigits(n) + "#" + ("__" + name + "__")) == Repeated("__" + name + "__", n)
  {
    var d := NatDigits(n);
    NatDigitsValue(n);
    var reference := "__" + name + "__";
    assert IsRefSpan(reference, 0, |reference|);
    SubAllWhole(d, reference, n);
    var u := Repeated(reference, n);
    assert reference[0..|reference|] == reference;
    RepeatedHasNoHash(reference, 0, |reference|, n);
    CountZeroNoChar(u, '#');
    NoHashQuantifierFree(u);
    ExpandQuantifiersFixed(u);
  }

  /** The references a quantifier writes split back into exactly N
      options of a multi-select. */
  lemma {:induction false} QuantifierOptions(reference: string, n: nat)
    requires n >= 1 && forall k :: 0 <= k < |reference| ==> reference[k] != '|'
    ensures Split(Repeated(reference, n), "|") == Repeat(reference, n)
  {
    SplitJoin(Repeat(reference, n), "|");
  }

  /** A quantifier inside other text is rewritten in place: with no `#`
      around it, no digit just before it and no name character just after
      it, `pre + N#__name__ + post` becomes `pre`, the N copies of the
      reference joined by `|`, then `post`. */
  lemma {:induction false} QuantifierInText(pre: string, n: nat, reference: string, post: string)
    requires forall k :: 0 <= k < |pre| ==> pre[k] != '#'
    requires forall k :: 0 <= k < |post| ==> post[k] != '#'
    requires pre == [] || !IsDigit(pre[|pre| - 1])
    requires post == [] || !IsNameChar(post[0])
    requires IsRefSpan(reference, 0, |reference|)
    ensures ExpandQuantifiers(pre + NatDigits(n) + "#" + reference + post) ==
      pre + Repeated(reference, n) + post
  {
    NatDigitsValue(n);
    QuantifierInTextDigits(pre, NatDigits(n), n, reference, post);
  }

  /** The same for any digits spelling N, leading zeros included. */
  lemma {:induction false} QuantifierInTextDigits(pre: string, d: string, n: nat, reference: string, post: string)
    requires |d| >= 1 && AllDigits(d) && DigitsValue(d) == n
    requires forall k :: 0 <= k < |pre| ==> pre[k] != '#'
    requires forall k :: 0 <= k < |post| ==> post[k] != '#'
    requires pre == [] || !IsDigit(pre[|pre| - 1])
    requires post == [] || !IsNameChar(post[0])
    requires IsRefSpan(reference, 0, |reference|)
    ensures ExpandQuantifiers(pre + d + "#" + reference + post) == pre + Repeated(reference, n) + post
  {
    var u := pre + Repeated(reference, n) + post;
    QuantifierSubInText(pre, d, n, reference, post);
    assert reference[0..|reference|] == reference;
    RepeatedHasNoHash(reference, 0, |reference|, n);
    CountZeroNoChar(Repeated(reference, n), '#');
    assert forall k :: 0 <= k < |u| ==> u[k] != '#' by {
      forall k | 0 <= k < |u| ensures u[k] != '#' {
        if k < |pre| {
          assert u[k] == pre[k];
        } else if k < |pre| + |Repeated(reference, n)| {
          assert u[k] == Repeated(reference, n)[k - |pre|];
        } else {
          assert u[k] == post[k - |pre| - |Repeated(reference, n)|];
        }
      }
    }
    NoHashQuantifierFree(u);
    ExpandQuantifiersFixed(u);
  }

  /** One pass of `subn` over such a text makes exactly that one
      replacement. */
  lemma {:induction false} QuantifierSubInText(pre: string, d: string, n: nat, reference: string, post: string)
    requires |d| >= 1 && AllDigits(d) && DigitsValue(d) == n
    requires forall k :: 0 <= k < |pre| ==> pre[k] != '#'
    requires forall k :: 0 <= k < |post| ==> post[k] != '#'
    requires pre == [] || !IsDigit(pre[|pre| - 1])
    requires post == [] || !IsNameChar(post[0])
    requires IsRefSpan(reference, 0, |reference|)
    ensures SubAll(pre + d + "#" + reference + post) ==
      (pre + Repeated(reference, n) + post, 1)
  {
    QuantTextSlices(pre, d, reference, post);
    SubAllLaidOut(pre + d + "#" + reference + post, pre, d, n, reference, post);
  }

  /** The same, for a text known only by where its parts stand. */
  lemma {:induction false} SubAllLaidOut(t: string, pre: string, d: string, n: nat, reference: string, post: string)
    requires |d| >= 1 && AllDigits(d) && DigitsValue(d) == n
    requires forall k :: 0 <= k < |pre| ==> pre[k] != '#'
    requires forall k :: 0 <= k < |post| ==> post[k] != '#'
    requires pre == [] || !IsDigit(pre[|pre| - 1])
    requires post == [] || !IsNameChar(post[0])
    requires IsRefSpan(reference, 0, |reference|)
    requires |t| == |pre| + |d| + 1 + |reference| + |post|
    requires var h := |pre| + |d|; var m := h + 1 + |reference|;
      t[..|pre|] == pre && t[|pre|..h] == d && t[h] == '#' && t[h + 1..m] == reference && t[m..] == post
    ensures SubAll(t) == (pre + Repeated(reference, n) + post, 1)
  {
    var h := |pre| + |d|;
    var m := h + 1 + |reference|;
    PrefixQuantifierFree(t, pre);
    SuffixQuantifierFree(t, m, post);
    SliceRefSpan(t, h + 1, m, reference);
    assert m < |t| ==> t[m] == post[0];
    QuantAtSpan(t, |pre|, h, m, n);
    SubMatchBetween(t, |pre|, QuantMatch(n, h, m, reference));
    assert pre + (Repeated(reference, n) + post) == pre + Repeated(reference, n) + post;
  }

  lemma {:induction false} PrefixQuantifierFree(t: string, pre: string)
    requires |pre| <= |t| && t[..|pre|] == pre
    requires forall k :: 0 <= k < |pre| ==> pre[k] != '#'
    requires pre == [] || !IsDigit(pre[|pre| - 1])
    ensures forall j: nat :: j < |pre| ==> QuantAt(t, j).None?
  {
    assert forall k :: 0 <= k < |pre| ==> t[k] == pre[k];
    NoQuantIn(t, 0, |pre|);
  }

  lemma {:induction false} SuffixQuantifierFree(t: string, m: nat, post: string)
    requires m <= |t| && t[m..] == post
    requires forall k :: 0 <= k < |post| ==> post[k] != '#'
    ensures forall j: nat :: m <= j < |t| ==> QuantAt(t, j).None?
  {
    assert forall k :: m <= k < |t| ==> t[k] == post[k - m];
    NoQuantIn(t, m, |t|);
  }

  /** With no quantifier before the match at `i` and none after it, one
      pass replaces that match alone. */
  lemma {:induction false} SubMatchBetween(t: string, i: nat, q: QuantMatch)
    requires i < q.end <= |t| && QuantAt(t, i) == Some(q)
    requires forall j: nat :: j < i ==> QuantAt(t, j).None?
    requires forall j: nat :: q.end <= j < |t| ==> QuantAt(t, j).None?
    ensures SubAll(t) == (t[..i] + Repeated(q.reference, q.count) + t[q.end..], 1)
  {
    SubFromSkip(t, q.end, |t|);
    assert t[q.end..|t|] + "" == t[q.end..];
    assert SubFrom(t, i) == (Repeated(q.reference, q.count) + t[q.end..], 1);
    SubFromSkip(t, 0, i);
    assert t[0..i] == t[..i];
    assert t[..i] + (Repeated(q.reference, q.count) + t[q.end..]) ==
      t[..i] + Repeated(q.reference, q.count) + t[q.end..];
  }

  /** No quantifier starts in a stretch without `#` whose digits cannot
      run on into a `#` after it. */
  lemma {:induction false} NoQuantIn(t: string, a: nat, e: nat)
    requires a <= e <= |t|
    requires forall k :: a <= k < e ==> t[k] != '#'
    requires e == |t| || e == a || !IsDigit(t[e - 1])
    ensures forall j: nat :: a <= j < e ==> QuantAt(t, j).None?
  {
    forall j: nat | a <= j < e ensures QuantAt(t, j).None? {
      NoQuantBeforeHashFree(t, j, e);
    }
  }

  /** Where the parts of `pre + N#reference + post` stand. */
  lemma {:induction false} QuantTextSlices(pre: string, d: string, reference: string, post: string)
    ensures var t := pre + d + "#" + reference + post;
      var h := |pre| + |d|;
      var m := h + 1 + |reference|;
      t[..|pre|] == pre && t[|pre|..h] == d && t[h] == '#' && t[h + 1..m] == reference && t[m..] == post
  {
  }

  /** A slice that is a reference is a reference span. */
  lemma {:induction false} SliceRefSpan(t: string, a: nat, m: nat, reference: string)
    requires a <= m <= |t| && t[a..m] == reference && IsRefSpan(reference, 0, |reference|)
    ensures IsRefSpan(t, a, m)
  {
    assert forall k :: a <= k < m ==> t[k] == reference[k - a];
  }

  /** A pass of `subn` copies a stretch where no quantifier matches. */
  lemma {:induction false} SubFromSkip(t: string, i: nat, k: nat)
    requires i <= k <= |t|
    requires forall j: nat :: i <= j < k ==> QuantAt(t, j).None?
    ensures SubFrom(t, i) == (t[i..k] + SubFrom(t, k).0, SubFrom(t, k).1)
    decreases k - i
  {
    if i < k {
      assert QuantAt(t, i).None?;
      assert SubFrom(t, i) == ([t[i]] + SubFrom(t, i + 1).0, SubFrom(t, i + 1).1);
      SubFromSkip(t, i + 1, k);
      assert t[i..k] == [t[i]] + t[i + 1..k];
      assert [t[i]] + (t[i + 1..k] + SubFrom(t, k).0) == t[i..k] + SubFrom(t, k).0;
    } else {
      assert t[i..k] + SubFrom(t, k).0 == SubFrom(t, k).0;
    }
  }

  /** No quantifier starts at `j` when no `#` follows it before `e`, and
      the digits from `j` cannot run past `e`. */
  lemma {:induction false} NoQuantBeforeHashFree(t: string, j: nat, e: nat)
    requires j < e <= |t|
    requires forall k :: j <= k < e ==> t[k] != '#'
    requires e == |t| || !IsDigit(t[e - 1])
    ensures QuantAt(t, j).None?
  {
    if IsDigit(t[j]) {
      var r := DigitRunEnd(t, j);
      assert r < e || r == |t|;
    }
  }

  /** The quantifier pattern matches digits, `#` and a reference that no
      name character follows. */
  lemma {:induction false} QuantAtSpan(t: string, i: nat, h: nat, m: nat, n: nat)
    requires i < h < m <= |t|
    requires AllDigits(t[i..h]) && DigitsValue(t[i..h]) == n
    requires t[h] == '#' && IsRefSpan(t, h + 1, m)
    requires m == |t| || !IsNameChar(t[m])
    ensures QuantAt(t, i) == Some(QuantMatch(n, h, m, t[h + 1..m]))
  {
    DigitRunTo(t, i, h);
    RefEndFollowed(t, h + 1, m);
  }

  /** The digits from `i` run up to the `#` at `h`. */
  lemma {:induction false} DigitRunTo(t: string, i: nat, h: nat)
    requires i < h < |t| && AllDigits(t[i..h]) && t[h] == '#'
    ensures DigitRunEnd(t, i) == h
  {
    assert forall k :: i <= k < h ==> IsDigit(t[k]) by {
      forall k | i <= k < h ensures IsDigit(t[k]) {
        assert t[k] == t[i..h][k - i];
      }
    }
  }

  /** A reference span that no name character follows is the one the
      pattern matches at its start. */
  lemma {:induction false} RefEndFollowed(t: string, a: nat, m: nat)
    requires IsRefSpan(t, a, m)
    requires m == |t| || !IsNameChar(t[m])
    ensures RefEndAt(t, a) == Some(m)
  {
    assert forall k :: a + 2 <= k < m ==> IsNameChar(t[k]);
    assert NameRunEnd(t, a + 2) == m;
    RefSpanWithinRun(t, a, m);
  }

  /** The documented example `{2$$, $$3#__colors__}`: the quantifier
      inside a multi-select becomes three references joined by `|`. */
  lemma {:induction false} QuantifierInGroup()
    ensures ExpandQuantifiers("{2$$, $$" + "3" + "#" + "__colors__" + "}") ==
      "{2$$, $$" + Repeated("__colors__", 3) + "}"
  {
    assert IsRefSpan("__colors__", 0, 10);
    assert DigitsValue("3") == 3;
    QuantifierInTextDigits("{2$$, $$", "3", 3, "__colors__", "}");
  }


  // ---------------------------------------------------------------------
  // Multi-select layout and range

  /** `range$$options`: the separator is `", "`. */
  lemma {:induction false} MultiPartsTwo(range: string, options: string)
    requires forall k :: 0 <= k < |range| ==> range[k] != '$'
    requires forall k :: 0 <= k < |options| ==> options[k] != '$'
    ensures Contains(range + "$$" + options, "$$")
    ensures MultiParts(range + "$$" + options) == MultiLayout(range, ", ", options)
  {
    var s := range + "$$" + options;
    assert s[|range|..|range| + 2] == "$$";
    assert OccursAt(s, "$$", |range|);
    SplitNoSepChar(options, "$$");
    SplitAtFree(range, "$$", options);
  }

  /** `range$$separator$$options`, possibly followed by `$$` and more
      text: the second part is the separator, the third the options, and
      every later part is ignored. */
  lemma {:induction false} MultiPartsThree(range: string, separator: string, options: string, tail: string)
    requires forall k :: 0 <= k < |range| ==> range[k] != '$'
    requires forall k :: 0 <= k < |separator| ==> separator[k] != '$'
    requires forall k :: 0 <= k < |options| ==> options[k] != '$'
    requires tail == "" || (|tail| >= 2 && tail[..2] == "$$")
    ensures Contains(range + "$$" + (separator + "$$" + (options + tail)), "$$")
    ensures MultiParts(range + "$$" + (separator + "$$" + (options + tail))) ==
      MultiLayout(range, separator, options)
  {
    var later := separator + "$$" + (options + tail);
    var s := range + "$$" + later;
    assert s[|range|..|range| + 2] == "$$";
    assert OccursAt(s, "$$", |range|);
    SplitAtFree(range, "$$", later);
    SplitAtFree(separator, "$$", options + tail);
    OptionsThenTail(options, tail);
  }

  lemma {:induction false} OptionsThenTail(options: string, tail: string)
    requires forall k :: 0 <= k < |options| ==> options[k] != '$'
    requires tail == "" || (|tail| >= 2 && tail[..2] == "$$")
    ensures |Split(options + tail, "$$")| >= 1 && Split(options + tail, "$$")[0] == options
  {
    if tail == "" {
      assert options + tail == options;
      SplitNoSepChar(options, "$$");
    } else {
      assert options + tail == options + "$$" + tail[2..];
      SplitAtFree(options, "$$", tail[2..]);
    }
  }

  /** `int()` of a text without `-` is never negative: the branch for a
      negative single count (santodan_nodes/wildcard.py:129) cannot be
      taken, because a text holding `-` goes to the `lo-hi` branch. */
  lemma {:induction false} ParseIntNoDash(s: string)
    requires !Contains(s, "-")
    ensures ParseInt(s).Some? ==> ParseInt(s).value >= 0
  {
    StrippedNoDash(s);
  }

  lemma {:induction false} StrippedNoDash(s: string)
    requires !Contains(s, "-")
    ensures Strip(s) == [] || Strip(s)[0] != '-'
  {
    var l := LStrip(s);
    var t := RStrip(l);
    LStripSuffix(s);
    RStripPrefix(l);
    if t != [] && t[0] == '-' {
      var k := |s| - |l|;
      assert t[0] == l[0] == s[k];
      assert s[k..k + 1] == "-";
      assert OccursAt(s, "-", k);
      assert false;
    }
  }

  /** The lower bound of a range is never negative, so the count handed
      to `sample` is always between 0 and the number of options. */
  lemma {:induction false} RangeLowNeverNegative(range: string, n: nat)
    requires RangeBounds(range, n).Some?
    ensures RangeBounds(range, n).value.0 >= 0
  {
    if Contains(range, "-") {
      SplitOnceHeadFree(range, "-");
      ParseIntNoDash(SplitOnce(range, "-").0);
    } else {
      ParseIntNoDash(range);
    }
  }

  /** The range forms: empty, `N`, `-N`, `a-`, `a-b` and `-`, for
      numbers written in decimal and `n` options. */
  lemma {:induction false} RangeForms(a: nat, b: nat, n: nat)
    ensures RangeBounds("", n) == Some((1, 1))
    ensures RangeBounds(NatDigits(a), n) == Some((a, a))
    ensures RangeBounds("-" + NatDigits(b), n) == Some((1, b as int))
    ensures RangeBounds(NatDigits(a) + "-", n) == Some((a, n))
    ensures RangeBounds(NatDigits(a) + "-" + NatDigits(b), n) == Some((a, b))
    ensures RangeBounds("-", n) == Some((1, n as int))
  {
    NotContainsChar("", '-');
    RangeSingle(a, n);
    RangeNegative(b, n);
    RangeFrom(a, n);
    RangeBetween(a, b, n);
    SplitOnceAt([], '-', []);
    assert [] + ['-'] + [] == "-";
  }

  lemma {:induction false} RangeSingle(a: nat, n: nat)
    ensures RangeBounds(NatDigits(a), n) == Some((a, a))
  {
    ParseIntOfString(a);
    assert IntToString(a) == NatDigits(a);
    NatDigitsValue(a);
    NotContainsChar(NatDigits(a), '-');
  }

  lemma {:induction false} RangeNegative(b: nat, n: nat)
    ensures RangeBounds("-" + NatDigits(b), n) == Some((1, b as int))
  {
    var db := NatDigits(b);
    ParseIntOfString(b);
    assert IntToString(b) == db;
    SplitOnceAt([], '-', db);
    assert [] + ['-'] + db == "-" + db;
  }

  lemma {:induction false} RangeFrom(a: nat, n: nat)
    ensures RangeBounds(NatDigits(a) + "-", n) == Some((a, n as int))
  {
    var da := NatDigits(a);
    NatDigitsValue(a);
    ParseIntOfString(a);
    assert IntToString(a) == da;
    SplitOnceAt(da, '-', []);
    assert da + ['-'] + [] == da + "-";
  }

  lemma {:induction false} RangeBetween(a: nat, b: nat, n: nat)
    ensures RangeBounds(NatDigits(a) + "-" + NatDigits(b), n) == Some((a as int, b as int))
  {
    var da, db := NatDigits(a), NatDigits(b);
    NatDigitsValue(a);
    ParseIntOfString(a);
    ParseIntOfString(b);
    assert IntToString(a) == da && IntToString(b) == db;
    SplitOnceAt(da, '-', db);
  }

  // ---------------------------------------------------------------------
  // Weighted options

  /** A choice option is either kept whole with weight 1.0, or it is
      `w::text` with a first part `w` free of `::` that `float()` accepts;
      the whole option is kept exactly when the weight does not parse. */
  lemma {:induction false} ParseOptionShape(option: string)
    ensures var (w, text) := ParseOption(option);
      (text == option && w == Finite(1.0)) ||
      (exists ws :: option == ws + "::" + text && !Contains(ws, "::") && ParseFloat(ws) == Some(w))
    ensures Contains(option, "::") ==>
      (ParseOption(option).1 == option <==> ParseFloat(SplitOnce(option, "::").0).None?)
    ensures !Contains(option, "::") ==> ParseOption(option) == (Finite(1.0), option)
  {
    if Contains(option, "::") {
      var ws := SplitOnce(option, "::").0;
      SplitOnceHeadFree(option, "::");
      if ParseFloat(ws).Some? {
        assert option == ws + "::" + ParseOption(option).1;
      }
    }
  }

  /** A group without any `::` has all weights 1.0, which `choices`
      accepts. */
  lemma {:induction false} DefaultWeightsUsable(options: seq<string>)
    requires |options| >= 1 && forall k :: 0 <= k < |options| ==> !Contains(options[k], "::")
    ensures WeightsUsable(Weights(options))
  {
    var ws := Weights(options);
    forall k | 0 <= k < |ws|
      ensures ws[k] == Finite(1.0)
    {
      WeightsAt(options, k);
    }
    PositiveWeightsUsable(ws, 0);
  }

  /** A single-choice group yields one of its expanded choices, never one
      of weight zero when no weight is negative; it fails when an option
      fails, or with `BadWeights` exactly when `choices` rejects the
      weights. */
  lemma {:induction false} SingleChoiceShape(env: Env, content: string, pos: nat, fuel: nat)
    ensures var options := Split(content, "|");
      var ws := Weights(options);
      var pa := ProcessAll(env, Texts(options), pos, fuel);
      var r := SingleChoice(env, content, pos, fuel);
      (pa.Err? ==> r == Err(pa.error)) &&
      (pa.Ok? && !WeightsUsable(ws) ==> r == Err(BadWeights)) &&
      (pa.Ok? && WeightsUsable(ws) ==>
        r.Ok? && r.pos == pa.pos + 1 &&
        exists j :: 0 <= j < |options| && r.value == pa.value[j] &&
          ((forall k :: 0 <= k < |ws| ==> ws[k].Finite? && ws[k].v >= 0.0) ==> ws[j].v > 0.0))
  {
    var options := Split(content, "|");
    var ws := Weights(options);
    var pa := ProcessAll(env, Texts(options), pos, fuel);
    if pa.Ok? && WeightsUsable(ws) {
      var wc := WeightedChoice(env.draw, pa.pos, ws);
      var j := wc.value.0;
      if forall k :: 0 <= k < |ws| ==> ws[k].Finite? && ws[k].v >= 0.0 {
        ZeroWeightNeverChosen(env.draw, pa.pos, ws);
      }
      SingleChoiceChosen(env, content, pos, fuel);
      assert j < |options| && SingleChoice(env, content, pos, fuel).value == pa.value[j];
    }
  }

  /** The value of a single-choice group whose options all expand and
      whose weights `choices` accepts. */
  lemma {:induction false} SingleChoiceChosen(env: Env, content: string, pos: nat, fuel: nat)
    requires ProcessAll(env, Texts(Split(content, "|")), pos, fuel).Ok?
    requires WeightsUsable(Weights(Split(content, "|")))
    ensures var options := Split(content, "|");
      var pa := ProcessAll(env, Texts(options), pos, fuel);
      var j := WeightedChoice(env.draw, pa.pos, Weights(options)).value.0;
      j < |pa.value| && SingleChoice(env, content, pos, fuel) == Ok(pa.value[j], pa.pos + 1)
  {
  }

  /** A multi-select expands all its options first and fails when one of
      them fails, on a range text `int()` rejects, or on a range with
      `lo > hi`. */
  lemma {:induction false} MultiSelectFails(env: Env, content: string, pos: nat, fuel: nat)
    requires Contains(content, "$$")
    ensures var lay := MultiParts(content);
      var pa := ProcessAll(env, Split(lay.options, "|"), pos, fuel);
      var r := MultiSelect(env, content, pos, fuel);
      (pa.Err? ==> r == Err(pa.error)) &&
      (pa.Ok? && RangeBounds(lay.range, |pa.value|).None? ==> r == Err(BadInteger)) &&
      (pa.Ok? && RangeBounds(lay.range, |pa.value|).Some? &&
        RangeBounds(lay.range, |pa.value|).value.0 > RangeBounds(lay.range, |pa.value|).value.1 ==>
        r == Err(EmptyRange))
  {
  }

  /** Otherwise it draws a count `v` in `[lo, hi]` and joins `min(v, n)`
      of the expanded options, at distinct positions, with the separator;
      it never fails because of the sample size. */
  lemma {:induction false} MultiSelectPicks(env: Env, content: string, pos: nat, fuel: nat, lo: int, hi: int)
    requires Contains(content, "$$")
    requires var lay := MultiParts(content);
      var pa := ProcessAll(env, Split(lay.options, "|"), pos, fuel);
      pa.Ok? && RangeBounds(lay.range, |pa.value|) == Some((lo, hi)) && lo <= hi
    ensures var lay := MultiParts(content);
      var pa := ProcessAll(env, Split(lay.options, "|"), pos, fuel);
      var r := MultiSelect(env, content, pos, fuel);
      r.Ok? &&
      exists idx: seq<nat> ::
        Distinct(idx) && (forall k :: 0 <= k < |idx| ==> idx[k] < |pa.value|) &&
        Min(lo, |pa.value|) <= |idx| <= Min(hi, |pa.value|) &&
        r.value == Join(Pick(pa.value, idx), lay.separator)
  {
    var lay := MultiParts(content);
    var pa := ProcessAll(env, Split(lay.options, "|"), pos, fuel);
    var n := |pa.value|;
    RangeLowNeverNegative(lay.range, n);
    var (v, p2) := RandInt(env.draw, pa.pos, lo, hi).value;
    var (idx, p3) := Sample(env.draw, p2, n, Min(v, n)).value;
    MultiSelectDrawn(env, content, pos, fuel, v, p2, idx, p3);
    assert Min(lo, n) <= |idx| <= Min(hi, n);
  }

  /** The value of a multi-select once the count and the positions are
      drawn. */
  lemma {:induction false} MultiSelectDrawn(env: Env, content: string, pos: nat, fuel: nat,
                                            v: int, p2: nat, idx: seq<nat>, p3: nat)
    requires Contains(content, "$$")
    requires var lay := MultiParts(content);
      var pa := ProcessAll(env, Split(lay.options, "|"), pos, fuel);
      pa.Ok? && RangeBounds(lay.range, |pa.value|).Some? &&
      var (lo, hi) := RangeBounds(lay.range, |pa.value|).value;
      RandInt(env.draw, pa.pos, lo, hi) == Some((v, p2)) &&
      Sample(env.draw, p2, |pa.value|, Min(v, |pa.value|)) == Some((idx, p3))
    ensures var lay := MultiParts(content);
      var pa := ProcessAll(env, Split(lay.options, "|"), pos, fuel);
      MultiSelect(env, content, pos, fuel) == Ok(Join(Pick(pa.value, idx), lay.separator), p3)
  {
  }

  // ---------------------------------------------------------------------
  // Whole expansions

  /** Options are expanded left to right, each from where the previous
      one left the generator. */
  lemma {:induction false} ProcessAllAppend(env: Env, a: seq<string>, x: string, pos: nat, fuel: nat)
    ensures ProcessAll(env, a + [x], pos, fuel) ==
      match ProcessAll(env, a, pos, fuel)
      case Err(e) => Err(e)
      case Ok(vs, p) =>
        match Process(env, x, p, fuel)
        case Err(e) => Err(e)
        case Ok(v, q) => Ok(vs + [v], q)
    decreases |a|
  {
    if a == [] {
      assert a + [x] == [x];
      assert [x][1..] == [];
      match Process(env, x, pos, fuel)
      case Err(e) =>
      case Ok(v, q) =>
        assert [v] + [] == [] + [v];
    } else {
      assert (a + [x])[0] == a[0];
      assert (a + [x])[1..] == a[1..] + [x];
      match Process(env, a[0], pos, fuel)
      case Err(e) =>
      case Ok(first, p1) =>
        ProcessAllAppend(env, a[1..], x, p1, fuel);
        match ProcessAll(env, a[1..], p1, fuel)
        case Err(e) =>
        case Ok(rest, p2) =>
          match Process(env, x, p2, fuel)
          case Err(e) =>
          case Ok(v, q) =>
            assert [first] + (rest + [v]) == ([first] + rest) + [v];
    }
  }

  /** Text without `#`, `{` and `_` holds no syntax: it comes back as it
      is and draws nothing. */
  lemma {:induction false} PlainTextUnchanged(env: Env, t: string, pos: nat, fuel: nat)
    requires forall k :: 0 <= k < |t| ==> t[k] != '#' && t[k] != '{' && t[k] != '_'
    ensures Process(env, t, pos, fuel) == Ok(t, pos)
  {
    NoHashQuantifierFree(t);
    ExpandQuantifiersFixed(t);
    assert FindGroup(t).None?;
    assert FindRef(t).None?;
  }

  /** `re.search` finds the reference `t[i..m]` when no `_` comes before
      it or after it. */
  lemma {:induction false} FindRefExact(t: string, i: nat, m: nat)
    requires IsRefSpan(t, i, m)
    requires forall j :: 0 <= j < i ==> t[j] != '_'
    requires forall j :: m <= j < |t| ==> t[j] != '_'
    ensures FindRef(t) == Some(RefMatch(i, m))
  {
  }

  /** Text free of the three kinds of syntax. */
  predicate Plain(s: string)
  {
    forall k :: 0 <= k < |s| ==> s[k] != '#' && s[k] != '{' && s[k] != '_'
  }

  predicate IsName(name: string)
  {
    |name| >= 1 && forall k :: 0 <= k < |name| ==> IsNameChar(name[k])
  }

  /** In `pre__name__post` with plain `pre` and `post`, the reference is
      the only syntax, and it is found whole. */
  lemma {:induction false} ReferenceText(pre: string, name: string, post: string)
    requires Plain(pre) && Plain(post) && IsName(name)
    ensures var t := pre + "__" + name + "__" + post;
      var m := |pre| + 4 + |name|;
      (forall k :: 0 <= k < |t| ==> t[k] != '#' && t[k] != '{') &&
      FindRef(t) == Some(RefMatch(|pre|, m)) &&
      t[|pre| + 2..m - 2] == name && t[..|pre|] == pre && t[m..] == post
  {
    var t := pre + "__" + name + "__" + post;
    var m := |pre| + 4 + |name|;
    ReferenceLayout(pre, name, post);
    FindRefExact(t, |pre|, m);
    RefCut(pre, name, post);
  }

  /** Where the characters of `pre__name__post` come from. */
  lemma {:induction false} ReferenceLayout(pre: string, name: string, post: string)
    requires Plain(pre) && Plain(post) && IsName(name)
    ensures var t := pre + "__" + name + "__" + post;
      var m := |pre| + 4 + |name|;
      (forall k :: 0 <= k < |t| ==> t[k] != '#' && t[k] != '{') &&
      IsRefSpan(t, |pre|, m) && t[|pre| + 2..m - 2] == name &&
      (forall j :: 0 <= j < |pre| ==> t[j] != '_') &&
      (forall j :: m <= j < |t| ==> t[j] != '_')
  {
    var t := pre + "__" + name + "__" + post;
    var m := |pre| + 4 + |name|;
    assert forall k :: 0 <= k < |pre| ==> t[k] == pre[k];
    assert forall k :: 0 <= k < |name| ==> t[|pre| + 2 + k] == name[k];
    assert forall k :: 0 <= k < |post| ==> t[m + k] == post[k];
    assert t[|pre|] == '_' && t[|pre| + 1] == '_' && t[m - 2] == '_' && t[m - 1] == '_';
    assert t[|pre| + 2..m - 2] == name;
  }

  lemma {:induction false} PlainNoRef(s: string)
    requires Plain(s)
    ensures FindRef(s).None?
  {
  }

  /** Text without quantifiers and groups goes straight to the wildcard
      loop. */
  lemma {:induction false} ProcessOnlyRefs(env: Env, t: string, pos: nat, fuel: nat)
    requires forall k :: 0 <= k < |t| ==> t[k] != '#' && t[k] != '{'
    ensures Process(env, t, pos, fuel) == ResolveRefs(env, t, pos, fuel)
  {
    NoHashQuantifierFree(t);
    ExpandQuantifiersFixed(t);
    assert FindGroup(t).None?;
  }

  lemma {:induction false} PlainLStrip(post: string)
    requires Plain(post)
    ensures Plain(LStrip(post))
  {
    var l := LStrip(post);
    LStripSuffix(post);
    assert forall k :: 0 <= k < |l| ==> l[k] == post[|post| - |l| + k];
  }

  lemma {:induction false} ResolveRefsMissingStep(env: Env, t: string, pos: nat, fuel: nat, m: RefMatch)
    requires fuel >= 1 && FindRef(t) == Some(m) && OptionLines(env.loadLines(m.Name(t))) == []
    ensures ResolveRefs(env, t, pos, fuel) == ResolveRefs(env, t[..m.start] + LStrip(t[m.end..]), pos, fuel - 1)
  {
    assert ReplaceRef(env, t, m, pos, fuel - 1) == Ok(t[..m.start] + LStrip(t[m.end..]), pos);
  }

  lemma {:induction false} ResolveRefsChosenStep(env: Env, t: string, pos: nat, fuel: nat, m: RefMatch, c: string)
    requires fuel >= 1 && FindRef(t) == Some(m)
    requires var lines := OptionLines(env.loadLines(m.Name(t)));
      |lines| >= 1 && c == lines[Choice(env.draw, pos, |lines|).0]
    requires Process(env, c, pos + 1, fuel - 1) == Ok(c, pos + 1)
    ensures ResolveRefs(env, t, pos, fuel) == ResolveRefs(env, Splice(t, m.start, m.end, c), pos + 1, fuel - 1)
  {
    assert ReplaceRef(env, t, m, pos, fuel - 1) == Ok(Splice(t, m.start, m.end, c), pos + 1);
  }

  lemma {:induction false} ResolveRefsDone(env: Env, t: string, pos: nat, fuel: nat)
    requires FindRef(t).None?
    ensures ResolveRefs(env, t, pos, fuel) == Ok(t, pos)
  {
  }

  lemma {:induction false} MissingRefResolved(env: Env, pre: string, name: string, post: string, pos: nat, fuel: nat)
    requires Plain(pre) && Plain(post) && IsName(name)
    requires fuel >= 1 && OptionLines(env.loadLines(name)) == []
    ensures ResolveRefs(env, pre + "__" + name + "__" + post, pos, fuel) == Ok(pre + LStrip(post), pos)
  {
    var t := pre + "__" + name + "__" + post;
    var m := RefMatch(|pre|, |pre| + 4 + |name|);
    RefFound(pre, name, post);
    ResolveRefsMissingStep(env, t, pos, fuel, m);
    RefCut(pre, name, post);
    var u := pre + LStrip(post);
    PlainLStrip(post);
    PlainConcat(pre, LStrip(post), "");
    assert pre + LStrip(post) + "" == u;
    PlainNoRef(u);
    ResolveRefsDone(env, u, pos, fuel - 1);
  }

  /** The text before and after the reference in `pre__name__post`. */
  lemma {:induction false} RefCut(pre: string, name: string, post: string)
    ensures var t := pre + "__" + name + "__" + post;
      t[..|pre|] == pre && t[|pre| + 4 + |name|..] == post
  {
    var t := pre + "__" + name + "__" + post;
    assert t == pre + ("__" + name + "__" + post);
    assert t == (pre + "__" + name + "__") + post;
  }

  /** A reference to a wildcard with no usable line is deleted, and the
      text after it is left-stripped. */
  lemma {:induction false} MissingReferenceDropped(env: Env, pre: string, name: string, post: string, pos: nat, fuel: nat)
    requires Plain(pre) && Plain(post) && IsName(name)
    requires fuel >= 1 && OptionLines(env.loadLines(name)) == []
    ensures Process(env, pre + "__" + name + "__" + post, pos, fuel) == Ok(pre + LStrip(post), pos)
  {
    ReferenceText(pre, name, post);
    ProcessOnlyRefs(env, pre + "__" + name + "__" + post, pos, fuel);
    MissingRefResolved(env, pre, name, post, pos, fuel);
  }

  lemma {:induction false} ChosenRefResolved(env: Env, pre: string, name: string, post: string, pos: nat, fuel: nat)
    requires Plain(pre) && Plain(post) && IsName(name)
    requires fuel >= 1
    requires var lines := OptionLines(env.loadLines(name));
      |lines| >= 1 && forall k :: 0 <= k < |lines| ==> Plain(lines[k])
    ensures var lines := OptionLines(env.loadLines(name));
      var j := Choice(env.draw, pos, |lines|).0;
      ResolveRefs(env, pre + "__" + name + "__" + post, pos, fuel) == Ok(pre + lines[j] + post, pos + 1)
  {
    var lines := OptionLines(env.loadLines(name));
    var c := lines[Choice(env.draw, pos, |lines|).0];
    ChosenRefStep(env, pre, name, post, pos, fuel, c);
    PlainConcat(pre, c, post);
    PlainNoRef(pre + c + post);
    ResolveRefsDone(env, pre + c + post, pos + 1, fuel - 1);
  }

  /** The chosen line `c`, plain itself, takes the place of the reference. */
  lemma {:induction false} ChosenRefStep(env: Env, pre: string, name: string, post: string, pos: nat, fuel: nat, c: string)
    requires Plain(pre) && Plain(post) && IsName(name) && Plain(c)
    requires fuel >= 1
    requires var lines := OptionLines(env.loadLines(name));
      |lines| >= 1 && c == lines[Choice(env.draw, pos, |lines|).0]
    ensures ResolveRefs(env, pre + "__" + name + "__" + post, pos, fuel) == ResolveRefs(env, pre + c + post, pos + 1, fuel - 1)
  {
    RefFound(pre, name, post);
    PlainTextUnchanged(env, c, pos + 1, fuel - 1);
    ResolveRefsChosenStep(env, pre + "__" + name + "__" + post, pos, fuel, RefMatch(|pre|, |pre| + 4 + |name|), c);
    SpliceRef(pre, name, post, c);
  }

  lemma {:induction false} RefFound(pre: string, name: string, post: string)
    requires Plain(pre) && Plain(post) && IsName(name)
    ensures var t := pre + "__" + name + "__" + post;
      var m := RefMatch(|pre|, |pre| + 4 + |name|);
      FindRef(t) == Some(m) && m.Name(t) == name
  {
    ReferenceText(pre, name, post);
  }

  lemma {:induction false} SpliceRef(pre: string, name: string, post: string, c: string)
    ensures Splice(pre + "__" + name + "__" + post, |pre|, |pre| + 4 + |name|, c) == pre + c + post
  {
    RefCut(pre, name, post);
  }

  lemma {:induction false} PlainConcat(a: string, b: string, c: string)
    requires Plain(a) && Plain(b) && Plain(c)
    ensures Plain(a + b + c)
  {
  }

  /** A reference is replaced by one of the lines of its file, expanded;
      blank lines and `#` comments of the file are never among them. */
  lemma {:induction false} ReferenceReplaced(env: Env, pre: string, name: string, post: string, pos: nat, fuel: nat)
    requires Plain(pre) && Plain(post) && IsName(name)
    requires fuel >= 1
    requires var lines := OptionLines(env.loadLines(name));
      |lines| >= 1 && forall k :: 0 <= k < |lines| ==> Plain(lines[k])
    ensures var lines := OptionLines(env.loadLines(name));
      exists j :: 0 <= j < |lines| &&
        Process(env, pre + "__" + name + "__" + post, pos, fuel) == Ok(pre + lines[j] + post, pos + 1)
  {
    ReferenceText(pre, name, post);
    ProcessOnlyRefs(env, pre + "__" + name + "__" + post, pos, fuel);
    ChosenRefResolved(env, pre, name, post, pos, fuel);
  }
}
