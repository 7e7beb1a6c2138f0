/**
 * The fragment of JavaScript regular expressions that the scrapers, the ASIN
 * extractor and the SMS parser use, with the engine's search order:
 * single-character atoms (a literal, a bracket class, `\s`, `\S`, `[\s\S]`, `.`)
 * under greedy or lazy `{min,max}` quantifiers, one capture group delimited by
 * `Open`/`Close`, the anchors `^` and `$`, and the tail alternation `(?:\/|\?|$)`.
 * A greedy atom tries its longest run first and gives back one character at a
 * time; a lazy atom tries its shortest run first; a search tries every start
 * position from left to right. With the `i` flag, letters are compared after
 * ASCII case folding.
 */
module Regex {
  import opened Wrappers
  import opened Strings

  datatype CharClass =
    | Lit(c: char)                                  // one pattern character
    | Ranges(rs: seq<(char, char)>, negated: bool)  // `[a-z0-9,]`, `[^"']`
    | Space(negated: bool)                          // `\s`, `\S`
    | AnyChar                                       // `[\s\S]`
    | NotNewline                                    // `.`

  datatype Bound = Unbounded | AtMost(n: nat)

  datatype Item =
    | Atom(cls: CharClass, min: nat, max: Bound, greedy: bool)
    | Open                      // `(` of the capture group
    | Close                     // `)` of the capture group
    | Begin                     // `^`
    | End                       // `$`
    | OneOrEnd(cls: CharClass)  // `(?:x|y|$)` with single-character alternatives

  datatype Regex = Regex(items: seq<Item>, ignoreCase: bool)

  /** Where a match attempt ended and where the capture group was. */
  datatype Span = Span(end: nat, capStart: nat, capEnd: nat)

  datatype Found = Found(start: nat, end: nat, capStart: nat, capEnd: nat)

  predicate InRanges(rs: seq<(char, char)>, c: char) {
    exists k :: 0 <= k < |rs| && rs[k].0 <= c <= rs[k].1
  }

  predicate ClassMatches(cls: CharClass, c: char, ci: bool) {
    match cls
    case Lit(d) => c == d || (ci && UpperChar(c) == UpperChar(d))
    case Ranges(rs, neg) =>
      neg != (InRanges(rs, c) || (ci && (InRanges(rs, UpperChar(c)) || InRanges(rs, LowerChar(c)))))
    case Space(neg) => neg != IsJsSpace(c)
    case AnyChar => true
    case NotNewline => !(c == '\n' || c == '\r' || c == '\U{2028}' || c == '\U{2029}')
  }

  predicate RunMatches(cls: CharClass, s: string, i: nat, j: nat, ci: bool)
    requires i <= j <= |s|
  {
    forall k :: i <= k < j ==> ClassMatches(cls, s[k], ci)
  }

  /** The longest run of characters of `cls` from `i`, capped by `max`. */
  function Run(cls: CharClass, s: string, i: nat, ci: bool, max: Bound): (n: nat)
    requires i <= |s|
    ensures i + n <= |s|
    ensures max.AtMost? ==> n <= max.n
    ensures RunMatches(cls, s, i, i + n, ci)
    ensures (max.Unbounded? || n < max.n) && i + n < |s| ==> !ClassMatches(cls, s[i + n], ci)
    decreases |s| - i
  {
    if i == |s| || (max.AtMost? && max.n == 0) || !ClassMatches(cls, s[i], ci) then 0
    else 1 + Run(cls, s, i + 1, ci, if max.AtMost? then AtMost(max.n - 1) else Unbounded)
  }

  predicate SpanFits(r: Option<Span>, i: nat, s: string) {
    r.Some? ==> i <= r.value.end <= |s| && r.value.capStart <= r.value.capEnd <= |s|
  }

  /**
   * The first way, in the engine's backtracking order, in which the items `p`
   * match `s` from position `i`; `cs` is where the open capture group started.
   */
  function Match(p: seq<Item>, s: string, i: nat, cs: nat, ci: bool): (r: Option<Span>)
    requires cs <= i <= |s|
    ensures SpanFits(r, i, s)
    decreases |p|, 1, 0
  {
    if p == [] then Some(Span(i, 0, 0))
    else match p[0]
      case Open => Match(p[1..], s, i, i, ci)
      case Close =>
        (match Match(p[1..], s, i, cs, ci)
         case Some(m) => Some(m.(capStart := cs, capEnd := i))
         case None => None)
      case Begin => if i == 0 then Match(p[1..], s, i, cs, ci) else None
      case End => if i == |s| then Match(p[1..], s, i, cs, ci) else None
      case OneOrEnd(cls) =>
        if i < |s| && ClassMatches(cls, s[i], ci) then Match(p[1..], s, i + 1, cs, ci)
        else if i == |s| then Match(p[1..], s, i, cs, ci)
        else None
      case Atom(cls, lo, hi, greedy) =>
        var n := Run(cls, s, i, ci, hi);
        if n < lo then None
        else if greedy then Greedy(p, s, i, cs, ci, n)
        else Lazy(p, s, i, cs, ci, lo, n)
  }

  /** A greedy atom that has taken `k` characters: continue, else give one back. */
  function Greedy(p: seq<Item>, s: string, i: nat, cs: nat, ci: bool, k: nat): (r: Option<Span>)
    requires p != [] && p[0].Atom? && p[0].min <= k
    requires cs <= i && i + k <= |s|
    ensures SpanFits(r, i, s)
    decreases |p|, 0, k
  {
    match Match(p[1..], s, i + k, cs, ci)
    case Some(m) => Some(m)
    case None => if k == p[0].min then None else Greedy(p, s, i, cs, ci, k - 1)
  }

  /** A lazy atom that has taken `k` of at most `n` characters: continue, else take one more. */
  function Lazy(p: seq<Item>, s: string, i: nat, cs: nat, ci: bool, k: nat, n: nat): (r: Option<Span>)
    requires p != [] && p[0].Atom? && k <= n
    requires cs <= i && i + n <= |s|
    ensures SpanFits(r, i, s)
    decreases |p|, 0, n - k
  {
    match Match(p[1..], s, i + k, cs, ci)
    case Some(m) => Some(m)
    case None => if k == n then None else Lazy(p, s, i, cs, ci, k + 1, n)
  }

  /** `re.exec(s)` from `lastIndex == from`: the leftmost start at or after `from`. */
  function SearchFrom(re: Regex, s: string, from: nat): (r: Option<Found>)
    requires from <= |s|
    ensures r.Some? ==> from <= r.value.start <= r.value.end <= |s|
    ensures r.Some? ==> r.value.capStart <= r.value.capEnd <= |s|
    decreases |s| - from
  {
    match Match(re.items, s, from, from, re.ignoreCase)
    case Some(m) => Some(Found(from, m.end, m.capStart, m.capEnd))
    case None => if from == |s| then None else SearchFrom(re, s, from + 1)
  }

  /** `s.match(re)[1]`, or None when there is no match. */
  function Capture(re: Regex, s: string): (r: Option<string>) {
    match SearchFrom(re, s, 0)
    case Some(f) => Some(s[f.capStart..f.capEnd])
    case None => None
  }

  /** `re.test(s)`. */
  predicate Test(re: Regex, s: string) {
    SearchFrom(re, s, 0).Some?
  }

  // ---------------------------------------------------------------------------
  // Pattern building blocks

  function One(cls: CharClass): Item { Atom(cls, 1, AtMost(1), true) }
  function Opt(cls: CharClass): Item { Atom(cls, 0, AtMost(1), true) }
  function Star(cls: CharClass): Item { Atom(cls, 0, Unbounded, true) }
  function Plus(cls: CharClass): Item { Atom(cls, 1, Unbounded, true) }
  function LazyStar(cls: CharClass): Item { Atom(cls, 0, Unbounded, false) }
  function Exactly(cls: CharClass, n: nat): Item { Atom(cls, n, AtMost(n), true) }

  /** A literal run of pattern characters. */
  function Lits(w: string): (p: seq<Item>)
    ensures |p| == |w|
    ensures forall k :: 0 <= k < |w| ==> p[k] == One(Lit(w[k]))
  {
    seq(|w|, k requires 0 <= k < |w| => One(Lit(w[k])))
  }

  predicate NoGroup(p: seq<Item>) {
    forall k :: 0 <= k < |p| ==> p[k] != Open && p[k] != Close
  }

  // ---------------------------------------------------------------------------
  // What a successful match says about the text

  lemma {:induction false} GreedyStep(p: seq<Item>, s: string, i: nat, cs: nat, ci: bool, k: nat)
      returns (j: nat)
    requires p != [] && p[0].Atom? && p[0].min <= k
    requires cs <= i && i + k <= |s|
    requires Greedy(p, s, i, cs, ci, k).Some?
    ensures p[0].min <= j <= k
    ensures Match(p[1..], s, i + j, cs, ci) == Greedy(p, s, i, cs, ci, k)
    decreases k
  {
    if Match(p[1..], s, i + k, cs, ci).Some? {
      j := k;
    } else {
      j := GreedyStep(p, s, i, cs, ci, k - 1);
    }
  }

  lemma {:induction false} LazyStep(p: seq<Item>, s: string, i: nat, cs: nat, ci: bool, k: nat, n: nat)
      returns (j: nat)
    requires p != [] && p[0].Atom? && k <= n
    requires cs <= i && i + n <= |s|
    requires Lazy(p, s, i, cs, ci, k, n).Some?
    ensures k <= j <= n
    ensures Match(p[1..], s, i + j, cs, ci) == Lazy(p, s, i, cs, ci, k, n)
    decreases n - k
  {
    if Match(p[1..], s, i + k, cs, ci).Some? {
      j := k;
    } else {
      j := LazyStep(p, s, i, cs, ci, k + 1, n);
    }
  }

  /**
   * A successful match that starts with an atom took between `min` and `max`
   * characters of the atom's class and continued with the rest of the items.
   */
  lemma AtomStep(p: seq<Item>, s: string, i: nat, cs: nat, ci: bool) returns (j: nat)
    requires p != [] && p[0].Atom?
    requires cs <= i <= |s|
    requires Match(p, s, i, cs, ci).Some?
    ensures p[0].min <= j && i + j <= |s|
    ensures p[0].max.AtMost? ==> j <= p[0].max.n
    ensures RunMatches(p[0].cls, s, i, i + j, ci)
    ensures Match(p[1..], s, i + j, cs, ci) == Match(p, s, i, cs, ci)
  {
    var n := Run(p[0].cls, s, i, ci, p[0].max);
    if p[0].greedy {
      j := GreedyStep(p, s, i, cs, ci, n);
    } else {
      j := LazyStep(p, s, i, cs, ci, p[0].min, n);
    }
  }

  /**
   * Items without a capture group in front of `q` only move the position
   * forward: the match is a match of `q` from some later position.
   */
  lemma {:induction false} SkipPrefix(pre: seq<Item>, q: seq<Item>, s: string, i: nat, cs: nat, ci: bool)
      returns (j: nat)
    requires NoGroup(pre)
    requires cs <= i <= |s|
    requires Match(pre + q, s, i, cs, ci).Some?
    ensures i <= j <= |s|
    ensures Match(q, s, j, cs, ci) == Match(pre + q, s, i, cs, ci)
    decreases |pre|
  {
    if pre == [] {
      assert pre + q == q;
      j := i;
    } else {
      var p := pre + q;
      assert p[1..] == pre[1..] + q;
      assert NoGroup(pre[1..]) by {
        forall k | 0 <= k < |pre[1..]| ensures pre[1..][k] != Open && pre[1..][k] != Close {
          assert pre[1..][k] == pre[k + 1];
        }
      }
      assert p[0] == pre[0] && pre[0] != Open && pre[0] != Close;
      match pre[0]
      case Atom(_, _, _, _) =>
        var n := AtomStep(p, s, i, cs, ci);
        j := SkipPrefix(pre[1..], q, s, i + n, cs, ci);
      case Begin =>
        j := SkipPrefix(pre[1..], q, s, i, cs, ci);
      case End =>
        j := SkipPrefix(pre[1..], q, s, i, cs, ci);
      case OneOrEnd(cls) =>
        if i < |s| && ClassMatches(cls, s[i], ci) {
          j := SkipPrefix(pre[1..], q, s, i + 1, cs, ci);
        } else {
          j := SkipPrefix(pre[1..], q, s, i, cs, ci);
        }
    }
  }

  /** A group holding one atom captures a run of that atom's class of allowed length. */
  lemma GroupStep(cls: CharClass, lo: nat, hi: Bound, g: bool, q: seq<Item>, s: string, i: nat, cs: nat, ci: bool)
    requires cs <= i <= |s|
    requires Match([Open, Atom(cls, lo, hi, g), Close] + q, s, i, cs, ci).Some?
    ensures var m := Match([Open, Atom(cls, lo, hi, g), Close] + q, s, i, cs, ci).value;
      && m.capStart == i && lo <= m.capEnd - i && m.capEnd <= |s|
      && (hi.AtMost? ==> m.capEnd - i <= hi.n)
      && RunMatches(cls, s, i, m.capEnd, ci)
  {
    var p := [Open, Atom(cls, lo, hi, g), Close] + q;
    assert p[1..] == [Atom(cls, lo, hi, g), Close] + q;
    var n := AtomStep(p[1..], s, i, i, ci);
    assert p[1..][1..] == [Close] + q;
    assert ([Close] + q)[1..] == q;
  }

  /**
   * The capture of a search with a pattern `pre + [Open, atom, Close] + post`,
   * where `pre` has no group, is a run of the atom's class of allowed length.
   */
  lemma CaptureOfSingleAtomGroup(pre: seq<Item>, cls: CharClass, lo: nat, hi: Bound, g: bool,
                                 post: seq<Item>, ci: bool, s: string)
    requires NoGroup(pre)
    requires Capture(Regex(pre + [Open, Atom(cls, lo, hi, g), Close] + post, ci), s).Some?
    ensures var c := Capture(Regex(pre + [Open, Atom(cls, lo, hi, g), Close] + post, ci), s).value;
      && lo <= |c| && (hi.AtMost? ==> |c| <= hi.n)
      && forall k :: 0 <= k < |c| ==> ClassMatches(cls, c[k], ci)
  {
    var re := Regex(pre + [Open, Atom(cls, lo, hi, g), Close] + post, ci);
    var q := [Open, Atom(cls, lo, hi, g), Close] + post;
    assert re.items == pre + q;
    var f := SearchAt(re, s, 0);
    var j := SkipPrefix(pre, q, s, f.start, f.start, ci);
    GroupStep(cls, lo, hi, g, post, s, j, f.start, ci);
  }

  /** The search found its match at `start`, and the capture is that match's. */
  lemma {:induction false} SearchAt(re: Regex, s: string, from: nat) returns (f: Found)
    requires from <= |s|
    requires SearchFrom(re, s, from).Some?
    ensures f == SearchFrom(re, s, from).value && from <= f.start <= |s|
    ensures Match(re.items, s, f.start, f.start, re.ignoreCase)
            == Some(Span(f.end, f.capStart, f.capEnd))
    decreases |s| - from
  {
    if Match(re.items, s, from, from, re.ignoreCase).Some? {
      f := SearchFrom(re, s, from).value;
    } else {
      f := SearchAt(re, s, from + 1);
    }
  }

  /** A search whose pattern starts with `[a][b]` (each exactly once) found `a` then `b` in the text. */
  lemma TestTwoLeading(a: CharClass, b: CharClass, rest: seq<Item>, ci: bool, s: string)
      returns (k: nat)
    requires Test(Regex([One(a), Atom(b, 1, Unbounded, true)] + rest, ci), s)
    ensures k + 1 < |s| && ClassMatches(a, s[k], ci) && ClassMatches(b, s[k + 1], ci)
  {
    var re := Regex([One(a), Atom(b, 1, Unbounded, true)] + rest, ci);
    var f := SearchAt(re, s, 0);
    k := f.start;
    var n := AtomStep(re.items, s, k, k, ci);
    assert re.items[1..] == [Atom(b, 1, Unbounded, true)] + rest;
    var n2 := AtomStep(re.items[1..], s, k + n, k, ci);
    assert n == 1;
  }

  // ---------------------------------------------------------------------------
  // Exact matching of a few pattern shapes, in both directions

  /** The literal characters `w` match at `i` (folding case when `ci`). */
  predicate LitsAt(w: string, s: string, i: nat, ci: bool) {
    i + |w| <= |s| && forall k :: 0 <= k < |w| ==> ClassMatches(Lit(w[k]), s[i + k], ci)
  }

  /** A literal run matches exactly when its characters are there, and the rest continues after it. */
  lemma {:induction false} LitsMatch(w: string, q: seq<Item>, s: string, i: nat, cs: nat, ci: bool)
    requires cs <= i <= |s|
    ensures Match(Lits(w) + q, s, i, cs, ci)
            == if LitsAt(w, s, i, ci) then Match(q, s, i + |w|, cs, ci) else None
    decreases |w|
  {
    if w == [] {
      assert Lits(w) + q == q;
    } else {
      var p := Lits(w) + q;
      assert p == [One(Lit(w[0]))] + (Lits(w[1..]) + q);
      OneMatch(Lit(w[0]), Lits(w[1..]) + q, s, i, cs, ci);
      LitsAtStep(w, s, i, ci);
      if i < |s| && ClassMatches(Lit(w[0]), s[i], ci) {
        LitsMatch(w[1..], q, s, i + 1, cs, ci);
      }
    }
  }

  /** A single character matches when the class accepts it, and the rest continues after it. */
  lemma OneMatch(c: CharClass, q: seq<Item>, s: string, i: nat, cs: nat, ci: bool)
    requires cs <= i <= |s|
    ensures Match([One(c)] + q, s, i, cs, ci)
            == if i < |s| && ClassMatches(c, s[i], ci) then Match(q, s, i + 1, cs, ci) else None
  {
    var p := [One(c)] + q;
    assert p[0] == Atom(c, 1, AtMost(1), true) && p[1..] == q;
    var n := Run(c, s, i, ci, AtMost(1));
    if i < |s| && ClassMatches(c, s[i], ci) {
      assert Run(c, s, i + 1, ci, AtMost(0)) == 0;
      assert n == 1;
      assert Match(p, s, i, cs, ci) == Greedy(p, s, i, cs, ci, 1);
    } else {
      assert n == 0;
    }
  }

  /** Literals match at `i` when the first does and the others match after it. */
  lemma LitsAtStep(w: string, s: string, i: nat, ci: bool)
    requires w != []
    ensures LitsAt(w, s, i, ci)
            <==> i < |s| && ClassMatches(Lit(w[0]), s[i], ci) && LitsAt(w[1..], s, i + 1, ci)
  {
    if i < |s| && ClassMatches(Lit(w[0]), s[i], ci) && LitsAt(w[1..], s, i + 1, ci) {
      forall k | 0 <= k < |w| ensures ClassMatches(Lit(w[k]), s[i + k], ci) {
        if k > 0 { assert w[1..][k - 1] == w[k]; }
      }
    }
    if LitsAt(w, s, i, ci) {
      assert ClassMatches(Lit(w[0]), s[i + 0], ci);
      forall k | 0 <= k < |w| - 1 ensures ClassMatches(Lit(w[1..][k]), s[i + 1 + k], ci) {
        assert w[1..][k] == w[k + 1];
      }
    }
  }

  /**
   * With case folding, a pattern literal without upper-case letters matches
   * exactly where it occurs in the lower-cased text.
   */
  lemma LitsAtLower(w: string, s: string, i: nat)
    requires forall k :: 0 <= k < |w| ==> !('A' <= w[k] <= 'Z')
    ensures LitsAt(w, s, i, true) <==> OccursAt(ToLower(s), w, i)
  {
    if i + |w| <= |s| {
      var t := ToLower(s);
      if LitsAt(w, s, i, true) {
        forall k | 0 <= k < |w| ensures t[i..i + |w|][k] == w[k] {
          assert ClassMatches(Lit(w[k]), s[i + k], true);
        }
      }
      if OccursAt(t, w, i) {
        forall k | 0 <= k < |w| ensures ClassMatches(Lit(w[k]), s[i + k], true) {
          assert t[i..i + |w|][k] == w[k];
        }
      }
    }
  }

  /** An optional character is taken when it is there and the rest matches after it; else it is skipped. */
  lemma OptMatch(c: CharClass, q: seq<Item>, s: string, i: nat, cs: nat, ci: bool)
    requires cs <= i <= |s|
    ensures Match([Opt(c)] + q, s, i, cs, ci)
            == if i < |s| && ClassMatches(c, s[i], ci) && Match(q, s, i + 1, cs, ci).Some?
               then Match(q, s, i + 1, cs, ci) else Match(q, s, i, cs, ci)
  {
    var p := [Opt(c)] + q;
    assert p[0] == Atom(c, 0, AtMost(1), true) && p[1..] == q;
    var n := Run(c, s, i, ci, AtMost(1));
    if i < |s| && ClassMatches(c, s[i], ci) {
      assert Run(c, s, i + 1, ci, AtMost(0)) == 0;
      assert n == 1;
      assert Greedy(p, s, i, cs, ci, 0) == Match(q, s, i, cs, ci);
      assert Match(p, s, i, cs, ci) == Greedy(p, s, i, cs, ci, 1);
    } else {
      assert n == 0;
      assert Match(p, s, i, cs, ci) == Greedy(p, s, i, cs, ci, 0);
    }
  }

  /** Closing the group ends the match with the capture from `cs`. */
  lemma CloseMatch(s: string, k: nat, cs: nat, ci: bool)
    requires cs <= k <= |s|
    ensures Match([Close], s, k, cs, ci) == Some(Span(k, cs, k))
  {
    assert [Close][0] == Close && [Close][1..] == [];
    assert Match([], s, k, cs, ci) == Some(Span(k, 0, 0));
  }

  /** A greedy run closing the group takes the whole run of its class, which ends the match. */
  lemma PlusCloseMatch(c: CharClass, s: string, j: nat, cs: nat, ci: bool)
    requires cs <= j <= |s|
    ensures var n := Run(c, s, j, ci, Unbounded);
      Match([Plus(c), Close], s, j, cs, ci) == if n >= 1 then Some(Span(j + n, cs, j + n)) else None
  {
    var p := [Plus(c), Close];
    var n := Run(c, s, j, ci, Unbounded);
    assert p[0] == Atom(c, 1, Unbounded, true) && p[1..] == [Close];
    CloseMatch(s, j + n, cs, ci);
    if n >= 1 {
      assert Greedy(p, s, j, cs, ci, n) == Match([Close], s, j + n, cs, ci);
    }
  }

  /** Literals followed by a greedy run that closes the group: the literals, then the whole run, which ends the match. */
  lemma LitsPlusCloseMatch(w: string, c: CharClass, s: string, j: nat, cs: nat, ci: bool)
    requires cs <= j <= |s|
    ensures Match(Lits(w) + [Plus(c), Close], s, j, cs, ci)
            == if LitsAt(w, s, j, ci) && Run(c, s, j + |w|, ci, Unbounded) >= 1
               then Some(Span(j + |w| + Run(c, s, j + |w|, ci, Unbounded), cs, j + |w| + Run(c, s, j + |w|, ci, Unbounded)))
               else None
  {
    LitsMatch(w, [Plus(c), Close], s, j, cs, ci);
    if LitsAt(w, s, j, ci) {
      PlusCloseMatch(c, s, j + |w|, cs, ci);
    }
  }

  /** The text a search captures occurs in the searched text where the group started. */
  lemma CaptureOccurs(re: Regex, s: string) returns (i: nat)
    requires Capture(re, s).Some?
    ensures OccursAt(s, Capture(re, s).value, i)
  {
    var f := SearchFrom(re, s, 0).value;
    i := f.capStart;
    assert Capture(re, s).value == s[f.capStart..f.capEnd];
  }

  /** No position from `from` up to where the search found its match matched earlier. */
  lemma {:induction false} SearchFirst(re: Regex, s: string, from: nat, j: nat)
    requires from <= j <= |s|
    requires SearchFrom(re, s, from).None? || j < SearchFrom(re, s, from).value.start
    ensures Match(re.items, s, j, j, re.ignoreCase).None?
    decreases j - from
  {
    if j > from {
      SearchFirst(re, s, from + 1, j);
    }
  }

  // ---------------------------------------------------------------------------
  // First-match selection over an ordered pattern table

  /** `match && match[1]`: the pattern matched and its capture is non-empty. */
  predicate Captures(re: Regex, s: string) {
    Capture(re, s).Some? && Capture(re, s).value != []
  }

  /** Pattern `k` is the earliest pattern of the table that captures. */
  predicate IsFirstCapture(pats: seq<Regex>, s: string, k: nat) {
    k < |pats| && Captures(pats[k], s) && forall j :: 0 <= j < k ==> !Captures(pats[j], s)
  }

  /** The index and capture of the first pattern from `k` on that captures. */
  function FirstCaptureFrom(pats: seq<Regex>, s: string, k: nat): (r: Option<(nat, string)>)
    ensures r.Some? ==> (k <= r.value.0 < |pats| && Captures(pats[r.value.0], s)
                         && Capture(pats[r.value.0], s) == Some(r.value.1)
                         && forall j :: k <= j < r.value.0 ==> !Captures(pats[j], s))
    ensures r.None? ==> forall j :: k <= j < |pats| ==> !Captures(pats[j], s)
    decreases |pats| - k
  {
    if k >= |pats| then None
    else if Captures(pats[k], s) then Some((k, Capture(pats[k], s).value))
    else FirstCaptureFrom(pats, s, k + 1)
  }

  function FirstCapture(pats: seq<Regex>, s: string): Option<(nat, string)> {
    FirstCaptureFrom(pats, s, 0)
  }

  /** The earliest capturing pattern is the one `FirstCapture` reports. */
  lemma FirstCaptureIs(pats: seq<Regex>, s: string, k: nat)
    requires IsFirstCapture(pats, s, k)
    ensures FirstCapture(pats, s) == Some((k, Capture(pats[k], s).value))
  {
    var r := FirstCapture(pats, s);
    assert r.Some?;
    assert r.value.0 == k;
  }
}
