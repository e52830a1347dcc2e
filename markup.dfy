/**
  `textPreprocessingIOS`: before raw text goes to the iOS native layer, seven
  `replace(/<\/?X>/g, '')` passes delete the inline formatting tags, in the
  fixed order CB, CM, CD, C, D, B, M. Each pass scans once from left to
  right and deletes the non-overlapping occurrences of `<X>` and `</X>` it
  meets; what the deletions leave behind is not scanned again, so a deletion
  can put together a new tag that stays in the output.
 */
module Markup {
  import opened Options

  /** What `textPreprocessingIOS` returns: `{text, opts}`. */
  datatype Preprocessed = Preprocessed(text: string, opts: PrinterOptions)

  /** `s` begins with `prefix`, compared character by character. */
  predicate StartsWith(s: string, prefix: string)
    decreases |prefix|
  {
    prefix == [] || (s != [] && s[0] == prefix[0] && StartsWith(s[1..], prefix[1..]))
  }

  /** Length of the match of `<\/?X>` at the start of `s`, or 0 when there is none:
      the optional `/` is greedy, so `</X>` is tried before `<X>`. */
  function MatchLength(s: string, x: string): (n: nat)
    ensures n == 0 || (n <= |s| && s[0] == '<')
    ensures n == 0 || n == |x| + 2 || n == |x| + 3
    ensures n == |x| + 3 <==> StartsWith(s, "</" + x + ">")
    ensures n == |x| + 2 <==> !StartsWith(s, "</" + x + ">") && StartsWith(s, "<" + x + ">")
    ensures n > 0 ==> s[..n] == (if n == |x| + 3 then "</" + x + ">" else "<" + x + ">")
  {
    if StartsWith(s, "</" + x + ">") then
      StartsWithLength(s, "</" + x + ">");
      |x| + 3
    else if StartsWith(s, "<" + x + ">") then
      StartsWithLength(s, "<" + x + ">");
      |x| + 2
    else 0
  }

  /** One global replace pass: the regular expression is tried at each position in
      turn, a match is deleted and the scan resumes right after it. */
  function StripTag(s: string, x: string): (r: string)
    ensures IsSubsequence(r, s)
    decreases |s|
  {
    if s == [] then []
    else
      var n := MatchLength(s, x);
      if n > 0 then
        var rest := StripTag(s[n..], x);
        assert s == s[..n] + s[n..];
        SubsequenceDropFront(rest, s[..n], s[n..]);
        rest
      else
        var rest := StripTag(s[1..], x);
        assert ([s[0]] + rest)[1..] == rest;
        [s[0]] + rest
  }

  lemma {:induction false} StartsWithLength(s: string, prefix: string)
    requires StartsWith(s, prefix)
    ensures |prefix| <= |s| && s[..|prefix|] == prefix
    decreases |prefix|
  {
    if prefix != [] {
      StartsWithLength(s[1..], prefix[1..]);
      assert s[..|prefix|] == [s[0]] + s[1..][..|prefix| - 1];
    }
  }

  /** `textPreprocessingIOS(text)`: the seven passes chained in the order CB, CM,
      CD, C, D, B, M, paired with the fixed options. */
  function TextPreprocessingIOS(text: string): (r: Preprocessed)
    ensures r.opts == BeepAndCut
    ensures IsSubsequence(r.text, text)
  {
    var t1 := StripTag(text, "CB");
    var t2 := StripTag(t1, "CM");
    var t3 := StripTag(t2, "CD");
    var t4 := StripTag(t3, "C");
    var t5 := StripTag(t4, "D");
    var t6 := StripTag(t5, "B");
    var t7 := StripTag(t6, "M");
    SubsequenceRefl(text);
    PassSubsequence(text, "CB", text);
    PassSubsequence(t1, "CM", text);
    PassSubsequence(t2, "CD", text);
    PassSubsequence(t3, "C", text);
    PassSubsequence(t4, "D", text);
    PassSubsequence(t5, "B", text);
    PassSubsequence(t6, "M", text);
    Preprocessed(t7, BeepAndCut)
  }

  /** `a` is obtained from `b` by deleting characters. */
  predicate IsSubsequence(a: string, b: string)
    decreases |b|
  {
    if a == [] then true
    else if b == [] then false
    else (a[0] == b[0] && IsSubsequence(a[1..], b[1..])) || IsSubsequence(a, b[1..])
  }

  /** Some match of `<X>` or `</X>` starts at position `k` of `s`. */
  ghost predicate TagAt(s: string, x: string, k: int) {
    0 <= k < |s| && MatchLength(s[k..], x) > 0
  }

  ghost predicate ContainsTag(s: string, x: string) {
    exists k :: TagAt(s, x, k)
  }

  // ---------------------------------------------------------------------------
  // Subsequences
  // ---------------------------------------------------------------------------

  lemma {:induction false} SubsequenceLength(a: string, b: string)
    requires IsSubsequence(a, b)
    ensures |a| <= |b|
    decreases |b|
  {
    if a != [] {
      if a[0] == b[0] && IsSubsequence(a[1..], b[1..]) {
        SubsequenceLength(a[1..], b[1..]);
      } else {
        SubsequenceLength(a, b[1..]);
      }
    }
  }

  lemma {:induction false} SubsequenceRefl(a: string)
    ensures IsSubsequence(a, a)
    decreases |a|
  {
    if a != [] {
      SubsequenceRefl(a[1..]);
    }
  }

  /** Characters may also be dropped from the front. */
  lemma {:induction false} SubsequenceDropFront(a: string, p: string, b: string)
    requires IsSubsequence(a, b)
    ensures IsSubsequence(a, p + b)
    decreases |p|
  {
    if p != [] {
      SubsequenceDropFront(a, p[1..], b);
      var c := p + b;
      assert c[1..] == p[1..] + b;
      assert IsSubsequence(a, c[1..]);
      assert c != [];
    } else {
      assert p + b == b;
    }
  }

  lemma {:induction false} SubsequenceTrans(a: string, b: string, c: string)
    requires IsSubsequence(a, b) && IsSubsequence(b, c)
    ensures IsSubsequence(a, c)
    decreases |c|
  {
    if a != [] {
      assert b != [] && c != [];
      if b[0] == c[0] && IsSubsequence(b[1..], c[1..]) {
        if a[0] == b[0] && IsSubsequence(a[1..], b[1..]) {
          SubsequenceTrans(a[1..], b[1..], c[1..]);
        } else {
          SubsequenceTrans(a, b[1..], c[1..]);
        }
      } else {
        SubsequenceTrans(a, b, c[1..]);
      }
    }
  }

  // ---------------------------------------------------------------------------
  // One pass
  // ---------------------------------------------------------------------------

  /** A pass changes its input exactly when the input holds an `<X>` or `</X>`;
      otherwise it returns the input unchanged, and otherwise it shortens it. */
  lemma {:induction false} StripTagChanges(s: string, x: string)
    ensures !ContainsTag(s, x) ==> StripTag(s, x) == s
    ensures ContainsTag(s, x) ==> |StripTag(s, x)| < |s|
    decreases |s|
  {
    SubsequenceLength(StripTag(s, x), s);
    if s != [] {
      var n := MatchLength(s, x);
      if n > 0 {
        assert TagAt(s, x, 0);
        SubsequenceLength(StripTag(s[n..], x), s[n..]);
      } else {
        StripTagChanges(s[1..], x);
        if ContainsTag(s, x) {
          var k :| TagAt(s, x, k);
          assert k > 0;
          assert s[1..][k - 1..] == s[k..];
          assert TagAt(s[1..], x, k - 1);
        } else {
          forall k | 0 <= k < |s| - 1
            ensures !TagAt(s[1..], x, k)
          {
            assert s[1..][k..] == s[k + 1..];
            assert !TagAt(s, x, k + 1);
          }
        }
      }
    }
  }

  /** A pass leaves text without `<` alone. */
  lemma NoAngleUnchanged(s: string, x: string)
    requires '<' !in s
    ensures StripTag(s, x) == s
  {
    forall k | 0 <= k < |s|
      ensures MatchLength(s[k..], x) == 0
    {
      assert s[k..][0] == s[k];
    }
    assert !ContainsTag(s, x);
    StripTagChanges(s, x);
  }

  /** A character other than `<` starts no match and is kept. */
  lemma PlainKept(c: char, v: string, x: string)
    requires c != '<'
    ensures StripTag([c] + v, x) == [c] + StripTag(v, x)
  {
    var t := [c] + v;
    assert t[0] == c && t[1..] == v;
    assert MatchLength(t, x) == 0;
  }

  /** One step of `PlainPrefix`: its first character is kept. */
  lemma PlainStep(c: char, u: string, s: string, x: string)
    requires c != '<'
    requires StripTag(u + s, x) == u + StripTag(s, x)
    ensures StripTag([c] + u + s, x) == [c] + u + StripTag(s, x)
  {
    PlainKept(c, u + s, x);
    Regroup3([c], u, s);
    Regroup3([c], u, StripTag(s, x));
  }

  /** Text without `<` passes through a pass unscanned: `StripTag(w + s) == w + StripTag(s)`. */
  lemma {:induction false} PlainPrefix(w: string, s: string, x: string)
    requires '<' !in w
    ensures StripTag(w + s, x) == w + StripTag(s, x)
    decreases |w|
  {
    if w != [] {
      assert w[0] in w;
      assert '<' !in w[1..] by {
        forall i | 0 <= i < |w[1..]| ensures w[1..][i] != '<' {
          assert w[1..][i] == w[i + 1];
        }
      }
      PlainPrefix(w[1..], s, x);
      PlainStep(w[0], w[1..], s, x);
      assert [w[0]] + w[1..] == w;
    } else {
      assert w + s == s;
    }
  }

  lemma {:induction false} StartsWithIndex(s: string, prefix: string, i: int)
    requires 0 <= i < |prefix|
    ensures StartsWith(s, prefix) ==> i < |s| && s[i] == prefix[i]
    decreases |prefix|
  {
    if i > 0 && s != [] {
      StartsWithIndex(s[1..], prefix[1..], i - 1);
    }
  }

  lemma {:induction false} StartsWithConcat(t: string, s: string)
    ensures StartsWith(t + s, t)
    decreases |t|
  {
    if t != [] {
      assert (t + s)[1..] == t[1..] + s;
      StartsWithConcat(t[1..], s);
    }
  }

  /** No match starts where `s` differs from `</X>` at place `i` and from `<X>` at
      place `j`: the character is kept and the scan moves one place on. */
  lemma Kept(s: string, x: string, i: int, j: int)
    requires s != []
    requires 0 <= i < |x| + 3 && (i >= |s| || s[i] != ("</" + x + ">")[i])
    requires 0 <= j < |x| + 2 && (j >= |s| || s[j] != ("<" + x + ">")[j])
    ensures StripTag(s, x) == [s[0]] + StripTag(s[1..], x)
  {
    StartsWithIndex(s, "</" + x + ">", i);
    StartsWithIndex(s, "<" + x + ">", j);
  }

  /** A `<` that starts no match is kept: `u` differs from `/X>` at place `i` and
      from `X>` at place `j`. */
  lemma AngleKept(u: string, x: string, i: int, j: int)
    requires 0 <= i < |x| + 2 && (i >= |u| || u[i] != ("/" + x + ">")[i])
    requires 0 <= j < |x| + 1 && (j >= |u| || u[j] != (x + ">")[j])
    ensures StripTag("<" + u, x) == "<" + StripTag(u, x)
  {
    var s := "<" + u;
    assert s[1..] == u;
    assert ("</" + x + ">")[i + 1] == ("/" + x + ">")[i];
    assert ("<" + x + ">")[j + 1] == (x + ">")[j];
    Kept(s, x, i + 1, j + 1);
  }

  /** A sequence identity, stated on its own so that the proofs using it stay small. */
  lemma Regroup(p: string, x: string, s: string)
    ensures p + (x + (">" + s)) == (p + x + ">") + s
  {
  }

  /** An opening tag at the front is deleted. */
  lemma OpenTagPrefix(x: string, s: string)
    requires |x| > 0 && x[0] != '/'
    ensures StripTag("<" + (x + (">" + s)), x) == StripTag(s, x)
  {
    var t := "<" + x + ">";
    var ts := "<" + (x + (">" + s));
    Regroup("<", x, s);
    StartsWithConcat(t, s);
    assert ts[|t|..] == s;
    StartsWithIndex(ts, "</" + x + ">", 1);
    assert ts[1] == x[0];
  }

  /** A closing tag at the front is deleted. */
  lemma CloseTagPrefix(x: string, s: string)
    ensures StripTag("<" + ("/" + (x + (">" + s))), x) == StripTag(s, x)
  {
    var t := "</" + x + ">";
    var ts := "<" + ("/" + (x + (">" + s)));
    Regroup("</", x, s);
    assert ts == "</" + (x + (">" + s));
    StartsWithConcat(t, s);
    assert ts[|t|..] == s;
  }

  /** A pass keeps a subsequence a subsequence. */
  lemma PassSubsequence(s: string, x: string, t: string)
    requires IsSubsequence(s, t)
    ensures IsSubsequence(StripTag(s, x), t)
  {
    SubsequenceTrans(StripTag(s, x), s, t);
  }

  // ---------------------------------------------------------------------------
  // All passes
  // ---------------------------------------------------------------------------

  /** The preprocessor only deletes characters, never lengthens the text, and
      leaves text without `<` as it is. */
  lemma PreprocessedText(text: string)
    ensures IsSubsequence(TextPreprocessingIOS(text).text, text)
    ensures |TextPreprocessingIOS(text).text| <= |text|
    ensures '<' !in text ==> TextPreprocessingIOS(text).text == text
  {
    SubsequenceLength(TextPreprocessingIOS(text).text, text);
    if '<' !in text {
      NoAngleUnchanged(text, "CB");
      NoAngleUnchanged(text, "CM");
      NoAngleUnchanged(text, "CD");
      NoAngleUnchanged(text, "C");
      NoAngleUnchanged(text, "D");
      NoAngleUnchanged(text, "B");
      NoAngleUnchanged(text, "M");
    }
  }

  /** The options do not depend on the text. */
  lemma PreprocessedOptions(a: string, b: string)
    ensures TextPreprocessingIOS(a).opts == TextPreprocessingIOS(b).opts == BeepAndCut
  {
  }

  /** `<B>w1</B>w2`, written as the nesting the proofs below walk through. */
  function BoldPair(w1: string, w2: string): string {
    "<" + ("B" + (">" + (w1 + ("<" + ("/" + ("B" + (">" + w2)))))))
  }

  /** A sequence identity, stated on its own so that the proofs using it stay small. */
  lemma BoldPairShape(w1: string, w2: string)
    ensures "<B>" + w1 + "</B>" + w2 == BoldPair(w1, w2)
  {
  }

  /** A pass for a tag other than B leaves a bold pair around plain text alone. */
  lemma BoldPairKept(w1: string, w2: string, x: string)
    requires '<' !in w1 && '<' !in w2
    requires |x| > 0 && x[0] != '/' && x[0] != 'B'
    ensures StripTag(BoldPair(w1, w2), x) == BoldPair(w1, w2)
  {
    var c := "B" + (">" + w2);
    var b := "<" + ("/" + c);
    AngleKept("B" + (">" + (w1 + b)), x, 0, 0);
    PlainPrefix("B", ">" + (w1 + b), x);
    PlainPrefix(">", w1 + b, x);
    PlainPrefix(w1, b, x);
    AngleKept("/" + c, x, 1, 0);
    NoAngleUnchanged("/" + c, x);
  }

  /** A bold pair around plain text is removed and nothing else changes. */
  lemma BoldPairRemoved(w1: string, w2: string)
    requires '<' !in w1 && '<' !in w2
    ensures TextPreprocessingIOS("<B>" + w1 + "</B>" + w2).text == w1 + w2
  {
    var s := BoldPair(w1, w2);
    BoldPairShape(w1, w2);
    BoldPairKept(w1, w2, "CB");
    BoldPairKept(w1, w2, "CM");
    BoldPairKept(w1, w2, "CD");
    BoldPairKept(w1, w2, "C");
    BoldPairKept(w1, w2, "D");
    var b := "<" + ("/" + ("B" + (">" + w2)));
    OpenTagPrefix("B", w1 + b);
    PlainPrefix(w1, b, "B");
    CloseTagPrefix("B", w2);
    NoAngleUnchanged(w2, "B");
    assert StripTag(s, "B") == w1 + w2;
    NoAngleUnchanged(w1 + w2, "M");
  }

  /** `"<B>Hello</B>\nWorld"` becomes `"Hello\nWorld"`. */
  lemma BoldExample()
    ensures TextPreprocessingIOS("<B>Hello</B>\nWorld").text == "Hello\nWorld"
  {
    BoldPairRemoved("Hello", "\nWorld");
    BoldSampleShape();
  }

  /** A sequence identity, stated on its own so that the proofs using it stay small. */
  lemma BoldSampleShape()
    ensures "<B>" + "Hello" + "</B>" + "\nWorld" == "<B>Hello</B>\nWorld"
    ensures "Hello" + "\nWorld" == "Hello\nWorld"
  {
  }

  /** A sequence identity, stated on its own so that the proofs using it stay small. */
  lemma Regroup3(a: string, b: string, c: string)
    ensures a + (b + c) == a + b + c
  {
  }

  /** A single left-to-right scan can build a new tag out of what it leaves:
      `<` followed by `<X>X>` loses its inner `<X>`, and what is left is `<X>`. */
  lemma PassCanFormTag(x: string)
    requires |x| > 0 && x[0] != '/' && '<' !in x
    ensures StripTag("<" + ("<" + (x + (">" + (x + ">")))), x) == "<" + x + ">"
    ensures ContainsTag(StripTag("<" + ("<" + (x + (">" + (x + ">")))), x), x)
  {
    var u := "<" + (x + (">" + (x + ">")));
    assert x[0] != '<';
    AngleKept(u, x, 0, 0);
    OpenTagPrefix(x, x + ">");
    NoAngleUnchanged(x + ">", x);
    Regroup3("<", x, ">");
    var r := "<" + x + ">";
    assert StripTag("<" + u, x) == r;
    StartsWithIndex(r, "</" + x + ">", 1);
    StartsWithConcat(r, []);
    assert r + [] == r && r[0..] == r;
    assert TagAt(r, x, 0);
  }

  /** A pass for C or D, or any tag starting with them, keeps `<C<B>w`. */
  lemma NestedKept(w: string, x: string)
    requires '<' !in w
    requires |x| > 0 && (x[0] == 'C' || x[0] == 'D') && '<' !in x
    ensures StripTag("<" + ("C" + ("<" + ("B" + (">" + w)))), x) == "<" + ("C" + ("<" + ("B" + (">" + w))))
  {
    var v := "B" + (">" + w);
    var t := "<" + v;
    var j := if x[0] == 'C' then 1 else 0;
    assert (x + ">")[j] != '<';
    AngleKept("C" + t, x, 0, j);
    PlainPrefix("C", t, x);
    AngleKept(v, x, 0, 0);
    NoAngleUnchanged(v, x);
  }

  /** A sequence identity, stated on its own so that the proofs using it stay small. */
  lemma NestedShape(w: string)
    ensures "<C<B>" + w == "<" + ("C" + ("<" + ("B" + (">" + w))))
    ensures "<C" + w == "<" + ("C" + w)
  {
  }

  /** An earlier pass is not re-run: deleting `<B>` from `<C<B>` followed by
      plain text forms a `<C>` the C pass has already gone by. */
  lemma NestedTagSurvives(w: string)
    requires '<' !in w
    ensures TextPreprocessingIOS("<C<B>" + w).text == "<C" + w
  {
    NestedShape(w);
    NestedKept(w, "CB");
    NestedKept(w, "CM");
    NestedKept(w, "CD");
    NestedKept(w, "C");
    NestedKept(w, "D");
    var t := "<" + ("B" + (">" + w));
    AngleKept("C" + t, "B", 0, 0);
    PlainPrefix("C", t, "B");
    OpenTagPrefix("B", w);
    NoAngleUnchanged(w, "B");
    AngleKept("C" + w, "M", 0, 0);
    PlainPrefix("C", w, "M");
    NoAngleUnchanged(w, "M");
  }

  /** `"<C<B>>"` comes out as `"<C>"`: the preprocessor does not remove every tag. */
  lemma PreprocessorCanLeaveTag()
    ensures TextPreprocessingIOS("<C<B>>").text == "<C>"
  {
    NestedTagSurvives(">");
    assert "<C<B>" + ">" == "<C<B>>";
    assert "<C" + ">" == "<C>";
  }
}
