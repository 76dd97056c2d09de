/** String helpers with the meaning Python's `str` methods give them:
    `isspace`, `strip`, `lstrip`, `startswith`, `in`, `split(sep)`,
    `split(sep, 1)` and `sep.join(parts)`. */
module Text {

  /** Python's `str.isspace()` for one character: the ASCII separators and
      controls \t \n \v \f \r \x1c-\x1f, the space, and the Unicode space
      characters. */
  predicate IsSpace(c: char)
  {
    c == ' ' || ('\t' <= c <= '\r') || ('\U{1C}' <= c <= '\U{1F}')
    || c == '\U{85}' || c == '\U{A0}' || c == '\U{1680}'
    || ('\U{2000}' <= c <= '\U{200A}') || c == '\U{2028}' || c == '\U{2029}'
    || c == '\U{202F}' || c == '\U{205F}' || c == '\U{3000}'
  }

  /** `s.lstrip()` */
  function LStrip(s: string): (r: string)
    ensures |r| <= |s|
    ensures r == [] || !IsSpace(r[0])
    ensures forall i :: 0 <= i < |s| - |r| ==> IsSpace(s[i])
  {
    if s != [] && IsSpace(s[0]) then LStrip(s[1..]) else s
  }

  /** `s.rstrip()` */
  function RStrip(s: string): (r: string)
    ensures |r| <= |s|
    ensures r == [] || !IsSpace(r[|r| - 1])
    ensures forall i :: |r| <= i < |s| ==> IsSpace(s[i])
  {
    if s != [] && IsSpace(s[|s| - 1]) then RStrip(s[..|s| - 1]) else s
  }

  /** What `lstrip` leaves is a suffix of its argument. */
  lemma {:induction false} LStripSuffix(s: string)
    ensures LStrip(s) == s[|s| - |LStrip(s)|..]
  {
    if s != [] && IsSpace(s[0]) {
      LStripSuffix(s[1..]);
      assert s[1..][|s| - 1 - |LStrip(s)|..] == s[|s| - |LStrip(s)|..];
    }
  }

  /** What `rstrip` leaves is a prefix of its argument. */
  lemma {:induction false} RStripPrefix(s: string)
    ensures RStrip(s) == s[..|RStrip(s)|]
  {
    if s != [] && IsSpace(s[|s| - 1]) {
      RStripPrefix(s[..|s| - 1]);
      assert s[..|s| - 1][..|RStrip(s)|] == s[..|RStrip(s)|];
    }
  }

  /** `s.strip()` */
  function Strip(s: string): (r: string)
  {
    RStrip(LStrip(s))
  }

  lemma {:induction false} StripShape(s: string)
    ensures var r := Strip(s);
      r == [] || (!IsSpace(r[0]) && !IsSpace(r[|r| - 1]))
  {
    var l := LStrip(s);
    var r := RStrip(l);
    RStripPrefix(l);
    assert r == [] || r[0] == l[0];
  }

  /** Stripping is idempotent: a stripped string is its own strip. */
  lemma {:induction false} StripIdempotent(s: string)
    ensures Strip(Strip(s)) == Strip(s)
  {
    StripShape(s);
    var r := Strip(s);
    assert LStrip(r) == r;
    assert RStrip(r) == r;
  }

  /** Leading whitespace is what `lstrip` removes. */
  lemma {:induction false} LStripAfterSpaces(w: string, r: string)
    requires forall k :: 0 <= k < |w| ==> IsSpace(w[k])
    requires r == [] || !IsSpace(r[0])
    ensures LStrip(w + r) == r
  {
    if w == [] {
      assert w + r == r;
    } else {
      assert (w + r)[1..] == w[1..] + r;
      LStripAfterSpaces(w[1..], r);
    }
  }

  /** Trailing whitespace is what `rstrip` removes. */
  lemma {:induction false} RStripBeforeSpaces(r: string, w: string)
    requires forall k :: 0 <= k < |w| ==> IsSpace(w[k])
    requires r == [] || !IsSpace(r[|r| - 1])
    ensures RStrip(r + w) == r
  {
    if w == [] {
      assert r + w == r;
    } else {
      assert (r + w)[..|r + w| - 1] == r + w[..|w| - 1];
      RStripBeforeSpaces(r, w[..|w| - 1]);
    }
  }

  /** `strip` removes exactly the surrounding whitespace. */
  lemma {:induction false} StripPadded(w1: string, r: string, w2: string)
    requires forall k :: 0 <= k < |w1| ==> IsSpace(w1[k])
    requires forall k :: 0 <= k < |w2| ==> IsSpace(w2[k])
    requires r != [] && !IsSpace(r[0]) && !IsSpace(r[|r| - 1])
    ensures Strip(w1 + r + w2) == r
  {
    assert w1 + r + w2 == w1 + (r + w2);
    LStripAfterSpaces(w1, r + w2);
    RStripBeforeSpaces(r, w2);
  }

  /** `s.startswith(p)` */
  predicate StartsWith(s: string, p: string)
  {
    |p| <= |s| && s[..|p|] == p
  }

  /** `sep` occurs in `s` starting at `i`. */
  predicate OccursAt(s: string, sep: string, i: int)
  {
    0 <= i && i + |sep| <= |s| && s[i..i + |sep|] == sep
  }

  /** `sep in s` */
  predicate Contains(s: string, sep: string)
  {
    exists i :: 0 <= i <= |s| && OccursAt(s, sep, i)
  }

  /** `s.find(sep)`: the first position of `sep` in `s`, or -1. */
  function Find(s: string, sep: string): (r: int)
    ensures -1 <= r
    ensures r >= 0 ==> OccursAt(s, sep, r)
    ensures forall j :: 0 <= j < (if r < 0 then |s| + 1 else r) ==> !OccursAt(s, sep, j)
    ensures r < 0 <==> !Contains(s, sep)
  {
    FindFrom(s, sep, 0)
  }

  function FindFrom(s: string, sep: string, k: nat): (r: int)
    requires k <= |s| + 1
    ensures -1 <= r
    ensures r >= 0 ==> k <= r && OccursAt(s, sep, r)
    ensures forall j :: k <= j < (if r < 0 then |s| + 1 else r) ==> !OccursAt(s, sep, j)
    decreases |s| + 1 - k
  {
    if k + |sep| > |s| then -1
    else if s[k..k + |sep|] == sep then k
    else FindFrom(s, sep, k + 1)
  }

  /** `sep.join(parts)` */
  function Join(parts: seq<string>, sep: string): (r: string)
  {
    if |parts| == 0 then ""
    else if |parts| == 1 then parts[0]
    else parts[0] + sep + Join(parts[1..], sep)
  }

  /** `s.split(sep)` for a non-empty separator: the pieces between the
      non-overlapping occurrences of `sep`, scanned left to right. */
  function Split(s: string, sep: string): (r: seq<string>)
    requires sep != []
    ensures |r| >= 1
    decreases |s|
  {
    var i := Find(s, sep);
    if i < 0 then [s] else [s[..i]] + Split(s[i + |sep|..], sep)
  }

  lemma {:induction false} JoinCons(h: string, tail: seq<string>, sep: string)
    requires |tail| >= 1
    ensures Join([h] + tail, sep) == h + sep + Join(tail, sep)
  {
    assert ([h] + tail)[1..] == tail;
  }

  /** One step of `split`: the piece before the first separator, then
      the split of the rest. */
  lemma {:induction false} SplitStep(s: string, sep: string, i: int)
    requires sep != [] && i == Find(s, sep) && i >= 0
    ensures s == s[..i] + sep + s[i + |sep|..]
    ensures Split(s, sep) == [s[..i]] + Split(s[i + |sep|..], sep)
  {
    assert s[i..i + |sep|] == sep;
    assert s == s[..i] + s[i..i + |sep|] + s[i + |sep|..];
  }

  /** Splitting and joining again gives back the original string. */
  lemma {:induction false} JoinSplit(s: string, sep: string)
    requires sep != []
    ensures Join(Split(s, sep), sep) == s
    decreases |s|
  {
    var i := Find(s, sep);
    if i >= 0 {
      var rest := s[i + |sep|..];
      SplitStep(s, sep, i);
      JoinSplit(rest, sep);
      JoinCons(s[..i], Split(rest, sep), sep);
    }
  }

  /** No piece that `split` returns contains the separator. */
  lemma {:induction false} SplitPiecesFree(s: string, sep: string)
    requires sep != []
    ensures forall k :: 0 <= k < |Split(s, sep)| ==> !Contains(Split(s, sep)[k], sep)
    decreases |s|
  {
    var i := Find(s, sep);
    if i < 0 {
    } else {
      var rest := s[i + |sep|..];
      SplitPiecesFree(rest, sep);
      var head := s[..i];
      forall j | OccursAt(head, sep, j) ensures false {
        assert s[j..j + |sep|] == head[j..j + |sep|];
        assert OccursAt(s, sep, j);
      }
    }
  }

  /** A string without the separator splits into itself alone. */
  lemma {:induction false} SplitFree(s: string, sep: string)
    requires sep != [] && !Contains(s, sep)
    ensures Split(s, sep) == [s]
  {
  }

  /** `s.split(sep, 1)` when `sep in s`: the text before the first
      occurrence and the text after it. */
  function SplitOnce(s: string, sep: string): (r: (string, string))
    requires Contains(s, sep)
    ensures r.0 + sep + r.1 == s
  {
    var i := Find(s, sep);
    assert s == s[..i] + sep + s[i + |sep|..];
    (s[..i], s[i + |sep|..])
  }

  /** The part before the first occurrence does not contain the separator. */
  lemma {:induction false} SplitOnceHeadFree(s: string, sep: string)
    requires sep != [] && Contains(s, sep)
    ensures !Contains(SplitOnce(s, sep).0, sep)
  {
    var i := Find(s, sep);
    assert 0 <= i;
    var head := SplitOnce(s, sep).0;
    assert head == s[..i];
    forall j | 0 <= j <= |head| && OccursAt(head, sep, j)
      ensures false
    {
      assert j + |sep| <= i;
      assert s[j..j + |sep|] == head[j..j + |sep|];
      assert OccursAt(s, sep, j);
    }
  }

  /** When `a` holds no character that can begin `sep`, the first
      occurrence of `sep` in `a + sep + b` is the one right after `a`. */
  lemma {:induction false} SplitAtFree(a: string, sep: string, b: string)
    requires sep != [] && forall k :: 0 <= k < |a| ==> a[k] != sep[0]
    ensures Split(a + sep + b, sep) == [a] + Split(b, sep)
  {
    var s := a + sep + b;
    assert s[|a|..|a| + |sep|] == sep;
    assert OccursAt(s, sep, |a|);
    forall j | 0 <= j < |a| && OccursAt(s, sep, j) ensures s[j] == sep[0] {
      assert s[j..j + |sep|][0] == sep[0];
    }
    var i := Find(s, sep);
    assert i == |a|;
    assert s[..i] == a;
    assert s[i + |sep|..] == b;
  }

  /** A string holding no character that can begin `sep` splits into
      itself alone. */
  lemma {:induction false} SplitNoSepChar(a: string, sep: string)
    requires sep != [] && forall k :: 0 <= k < |a| ==> a[k] != sep[0]
    ensures Split(a, sep) == [a]
  {
    forall j | OccursAt(a, sep, j) ensures a[j] == sep[0] {
      assert a[j..j + |sep|][0] == sep[0];
    }
    SplitFree(a, sep);
  }

  /** Joining pieces that hold no character of the separator and splitting
      again gives back the pieces: the converse of `JoinSplit`. */
  lemma {:induction false} SplitJoin(parts: seq<string>, sep: string)
    requires sep != [] && |parts| >= 1
    requires forall k, j :: 0 <= k < |parts| && 0 <= j < |parts[k]| ==> parts[k][j] != sep[0]
    ensures Split(Join(parts, sep), sep) == parts
  {
    if |parts| == 1 {
      SplitNoSepChar(parts[0], sep);
    } else {
      var p := parts[0];
      assert forall j :: 0 <= j < |p| ==> p[j] != sep[0];
      SplitJoin(parts[1..], sep);
      SplitAtFree(p, sep, Join(parts[1..], sep));
      assert [p] + parts[1..] == parts;
    }
  }

  /** A string none of whose characters is `c` does not contain `c`. */
  lemma {:induction false} NotContainsChar(s: string, c: char)
    requires forall k :: 0 <= k < |s| ==> s[k] != c
    ensures !Contains(s, [c])
  {
    forall j | OccursAt(s, [c], j) ensures s[j] == c {
      assert s[j..j + 1][0] == c;
    }
  }

  /** `split(c, 1)` cuts at the first `c`. */
  lemma {:induction false} SplitOnceAt(a: string, c: char, b: string)
    requires forall k :: 0 <= k < |a| ==> a[k] != c
    ensures Contains(a + [c] + b, [c]) && SplitOnce(a + [c] + b, [c]) == (a, b)
  {
    var s := a + [c] + b;
    assert s[|a|..|a| + 1] == [c];
    assert OccursAt(s, [c], |a|);
    forall j | 0 <= j < |a| && OccursAt(s, [c], j) ensures s[j] == c {
      assert s[j..j + 1][0] == c;
    }
    assert Find(s, [c]) == |a|;
    assert s[..|a|] == a && s[|a| + 1..] == b;
  }

  /** `[x] * n` */
  function Repeat<T>(x: T, n: nat): (r: seq<T>)
    ensures |r| == n && forall i :: 0 <= i < n ==> r[i] == x
  {
    if n == 0 then [] else [x] + Repeat(x, n - 1)
  }

  /** Number of occurrences of the character `c` in `s`. */
  function CountChar(s: string, c: char): nat
  {
    if s == [] then 0 else (if s[0] == c then 1 else 0) + CountChar(s[1..], c)
  }

  lemma {:induction false} CountCharAppend(a: string, b: string, c: char)
    ensures CountChar(a + b, c) == CountChar(a, c) + CountChar(b, c)
  {
    if a == [] {
      assert a + b == b;
    } else {
      assert (a + b)[1..] == a[1..] + b;
      CountCharAppend(a[1..], b, c);
    }
  }
}
