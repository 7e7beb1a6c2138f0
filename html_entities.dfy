/**
 * `decodeHtmlEntities` (src/lib/url-metadata.ts): eight literal replace-all
 * passes in a fixed order, `&amp;` first, then decimal and hexadecimal
 * character references. Each pass scans its input once, left to right, and
 * never rescans what it produced, so doubly-encoded text is decoded once only.
 */
module HtmlEntities {
  import opened Wrappers
  import opened Strings

  predicate IsHexDigit(c: char) {
    IsDigit(c) || ('a' <= c <= 'f') || ('A' <= c <= 'F')
  }

  predicate InRefClass(c: char, hex: bool) {
    if hex then IsHexDigit(c) else IsDigit(c)
  }

  function DigitValue(c: char): nat
    requires IsHexDigit(c)
  {
    if IsDigit(c) then c as int - '0' as int
    else if 'a' <= c <= 'f' then c as int - 'a' as int + 10
    else c as int - 'A' as int + 10
  }

  /** `parseInt(ds, 10)` or `parseInt(ds, 16)` of a non-empty run of digits. */
  function NumberValue(ds: string, hex: bool): nat
    requires forall k :: 0 <= k < |ds| ==> InRefClass(ds[k], hex)
  {
    if ds == [] then 0
    else
      assert InRefClass(ds[|ds| - 1], hex);
      NumberValue(ds[..|ds| - 1], hex) * (if hex then 16 else 10) + DigitValue(ds[|ds| - 1])
  }

  /**
   * `String.fromCharCode(n)`: the UTF-16 code unit `n mod 65536`. A lone
   * surrogate code unit is not a character here and becomes U+FFFD.
   */
  function FromCharCode(n: nat): char {
    var u := n % 0x1_0000;
    if 0xD800 <= u < 0xE000 then '\U{FFFD}' else u as char
  }

  /** The number of reference digits at the front of `s`. */
  function DigitRun(s: string, hex: bool): (n: nat)
    ensures n <= |s|
    ensures forall k :: 0 <= k < n ==> InRefClass(s[k], hex)
    ensures n < |s| ==> !InRefClass(s[n], hex)
  {
    if s != [] && InRefClass(s[0], hex) then 1 + DigitRun(s[1..], hex) else 0
  }

  /**
   * A reference `prefix digits ;` at the front of `s`: its value and length.
   * The digit run is maximal, as the greedy `\d+` / `[a-fA-F0-9]+` has to be
   * for the following `;` to match.
   */
  function RefAt(s: string, prefix: string, hex: bool): (r: Option<(nat, nat)>)
    ensures r.Some? ==> |prefix| + 2 <= r.value.1 <= |s|
  {
    if !StartsWith(s, prefix) then None
    else
      var rest := s[|prefix|..];
      var n := DigitRun(rest, hex);
      if n == 0 || n == |rest| || rest[n] != ';' then None
      else Some((NumberValue(rest[..n], hex), |prefix| + n + 1))
  }

  /** `s.replace(/<prefix>(digits);/g, (_, d) => String.fromCharCode(parseInt(d, base)))`. */
  function DecodeRefs(s: string, prefix: string, hex: bool): string
    decreases |s|
  {
    if s == [] then []
    else match RefAt(s, prefix, hex)
      case Some((v, len)) => [FromCharCode(v)] + DecodeRefs(s[len..], prefix, hex)
      case None => [s[0]] + DecodeRefs(s[1..], prefix, hex)
  }

  function DecodeHtmlEntities(text: string): string {
    var named :=
      ReplaceAll(ReplaceAll(ReplaceAll(ReplaceAll(ReplaceAll(ReplaceAll(ReplaceAll(ReplaceAll(
        text, "&amp;", "&"), "&lt;", "<"), "&gt;", ">"), "&quot;", "\""), "&#39;", "'"),
        "&#x27;", "'"), "&#x2F;", "/"), "&nbsp;", " ");
    DecodeRefs(DecodeRefs(named, "&#", false), "&#x", true)
  }

  // ---------------------------------------------------------------------------

  lemma {:induction false} ReplaceAllNoLonger(s: string, pat: string, rep: string)
    requires pat != [] && |rep| <= |pat|
    ensures |ReplaceAll(s, pat, rep)| <= |s|
    decreases |s|
  {
    if |s| >= |pat| {
      if s[..|pat|] == pat {
        ReplaceAllNoLonger(s[|pat|..], pat, rep);
      } else {
        ReplaceAllNoLonger(s[1..], pat, rep);
      }
    }
  }

  lemma {:induction false} DecodeRefsNoLonger(s: string, prefix: string, hex: bool)
    ensures |DecodeRefs(s, prefix, hex)| <= |s|
    decreases |s|
  {
    if s != [] {
      match RefAt(s, prefix, hex)
      case Some((v, len)) => DecodeRefsNoLonger(s[len..], prefix, hex);
      case None => DecodeRefsNoLonger(s[1..], prefix, hex);
    }
  }

  lemma {:induction false} DecodeRefsWithoutAmpersand(s: string, prefix: string, hex: bool)
    requires |prefix| > 0 && prefix[0] == '&' && '&' !in s
    ensures DecodeRefs(s, prefix, hex) == s
    decreases |s|
  {
    if s != [] {
      assert s[0] != '&' by { assert s[0] in s; }
      assert !StartsWith(s, prefix) by { assert s[0] != prefix[0]; }
      assert forall c :: c in s[1..] ==> c in s;
      DecodeRefsWithoutAmpersand(s[1..], prefix, hex);
    }
  }

  /** Decoding never makes text longer: every entity stands for one character. */
  lemma DecodeNoLonger(text: string)
    ensures |DecodeHtmlEntities(text)| <= |text|
  {
    var s1 := ReplaceAll(text, "&amp;", "&");
    ReplaceAllNoLonger(text, "&amp;", "&");
    var s2 := ReplaceAll(s1, "&lt;", "<");
    ReplaceAllNoLonger(s1, "&lt;", "<");
    var s3 := ReplaceAll(s2, "&gt;", ">");
    ReplaceAllNoLonger(s2, "&gt;", ">");
    var s4 := ReplaceAll(s3, "&quot;", "\"");
    ReplaceAllNoLonger(s3, "&quot;", "\"");
    var s5 := ReplaceAll(s4, "&#39;", "'");
    ReplaceAllNoLonger(s4, "&#39;", "'");
    var s6 := ReplaceAll(s5, "&#x27;", "'");
    ReplaceAllNoLonger(s5, "&#x27;", "'");
    var s7 := ReplaceAll(s6, "&#x2F;", "/");
    ReplaceAllNoLonger(s6, "&#x2F;", "/");
    var s8 := ReplaceAll(s7, "&nbsp;", " ");
    ReplaceAllNoLonger(s7, "&nbsp;", " ");
    DecodeRefsNoLonger(s8, "&#", false);
    DecodeRefsNoLonger(DecodeRefs(s8, "&#", false), "&#x", true);
  }

  /** Text without an ampersand is returned unchanged. */
  lemma DecodeWithoutAmpersand(text: string)
    requires '&' !in text
    ensures DecodeHtmlEntities(text) == text
  {
    ReplaceAllWithoutLead(text, "&amp;", "&");
    ReplaceAllWithoutLead(text, "&lt;", "<");
    ReplaceAllWithoutLead(text, "&gt;", ">");
    ReplaceAllWithoutLead(text, "&quot;", "\"");
    ReplaceAllWithoutLead(text, "&#39;", "'");
    ReplaceAllWithoutLead(text, "&#x27;", "'");
    ReplaceAllWithoutLead(text, "&#x2F;", "/");
    ReplaceAllWithoutLead(text, "&nbsp;", " ");
    DecodeRefsWithoutAmpersand(text, "&#", false);
    DecodeRefsWithoutAmpersand(text, "&#x", true);
  }

  /** A named pass whose pattern is an ampersand and anything but `a` leaves `&amp;` alone. */
  lemma AmpUntouched(pat: string, rep: string)
    requires |pat| >= 2 && pat[0] == '&' && pat[1] != 'a'
    ensures ReplaceAll("&amp;", pat, rep) == "&amp;"
  {
    var s := "&amp;";
    assert s == ['&'] + "amp;";
    assert '&' !in "amp;";
    ReplaceAllWithoutLead("amp;", pat, rep);
    if |pat| <= |s| {
      assert s[..|pat|][1] != pat[1];
    }
  }

  /** The first pass turns `&amp;` followed by ampersand-free text into `&` and that text. */
  lemma FirstPass(tail: string)
    requires '&' !in tail
    ensures ReplaceAll("&amp;" + tail, "&amp;", "&") == "&" + tail
  {
    assert ("&amp;" + tail)[..5] == "&amp;";
    assert ("&amp;" + tail)[5..] == tail;
    ReplaceAllWithoutLead(tail, "&amp;", "&");
  }

  /** `&amp;` is decoded first, so the entity it uncovers is decoded by a later pass. */
  lemma DoublyEncodedLessThan()
    ensures DecodeHtmlEntities("&amp;lt;") == "<"
  {
    assert "&amp;lt;" == "&amp;" + "lt;";
    FirstPass("lt;");
    assert "&" + "lt;" == "&lt;";
    assert ReplaceAll("&lt;", "&lt;", "<") == "<" by {
      assert "&lt;"[..4] == "&lt;" && "&lt;"[4..] == [];
    }
    var lt := "<";
    assert '&' !in lt;
    ReplaceAllWithoutLead(lt, "&gt;", ">");
    ReplaceAllWithoutLead(lt, "&quot;", "\"");
    ReplaceAllWithoutLead(lt, "&#39;", "'");
    ReplaceAllWithoutLead(lt, "&#x27;", "'");
    ReplaceAllWithoutLead(lt, "&#x2F;", "/");
    ReplaceAllWithoutLead(lt, "&nbsp;", " ");
    DecodeRefsWithoutAmpersand(lt, "&#", false);
    DecodeRefsWithoutAmpersand(lt, "&#x", true);
  }

  /** No pass decodes `&amp;` again, so a doubly-encoded ampersand keeps one level. */
  lemma DoublyEncodedAmpersand()
    ensures DecodeHtmlEntities("&amp;amp;") == "&amp;"
  {
    assert "&amp;amp;" == "&amp;" + "amp;";
    FirstPass("amp;");
    assert "&" + "amp;" == "&amp;";
    AmpUntouched("&lt;", "<");
    AmpUntouched("&gt;", ">");
    AmpUntouched("&quot;", "\"");
    AmpUntouched("&#39;", "'");
    AmpUntouched("&#x27;", "'");
    AmpUntouched("&#x2F;", "/");
    AmpUntouched("&nbsp;", " ");
    AmpRefsUntouched();
  }

  /** Neither reference pass finds a reference in `&amp;`. */
  lemma AmpRefsUntouched()
    ensures DecodeRefs("&amp;", "&#", false) == "&amp;"
    ensures DecodeRefs("&amp;", "&#x", true) == "&amp;"
  {
    RefsSkipAmp("&#", false);
    RefsSkipAmp("&#x", true);
  }

  lemma RefsSkipAmp(prefix: string, hex: bool)
    requires |prefix| >= 2 && prefix[0] == '&' && prefix[1] != 'a'
    ensures DecodeRefs("&amp;", prefix, hex) == "&amp;"
  {
    var s := "&amp;";
    if |prefix| <= |s| {
      assert s[..|prefix|][1] != prefix[1];
    }
    assert RefAt(s, prefix, hex).None?;
    assert s == [s[0]] + s[1..] && s[1..] == "amp;";
    DecodeRefsWithoutAmpersand("amp;", prefix, hex);
  }
}
