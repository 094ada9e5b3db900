/** The string operations the engine relies on: `String.prototype.replace` with a
    string pattern (first occurrence only), the global rewrite of `${{` to `{{`
    done before every template compile, and concatenation of buffered chunks. */
module Strings {

  import opened Types

  /** `pat` occurs in `s` at position `j`. */
  predicate At(s: string, pat: string, j: nat) {
    j + |pat| <= |s| && s[j..j + |pat|] == pat
  }

  /** Dropping the first character shifts every occurrence one place to the left. */
  lemma AtTail(s: string, pat: string)
    requires s != []
    ensures forall j: nat :: 1 <= j ==> (At(s, pat, j) <==> At(s[1..], pat, j - 1))
  {
    forall j: nat | 1 <= j ensures At(s, pat, j) <==> At(s[1..], pat, j - 1) {
      if j + |pat| <= |s| {
        assert s[1..][j - 1..j - 1 + |pat|] == s[j..j + |pat|];
      }
    }
  }

  /** The index of the first occurrence of `pat` in `s`, if any. */
  function IndexOf(s: string, pat: string): (r: Option<nat>)
    ensures r.Some? ==> At(s, pat, r.value) && forall j: nat :: j < r.value ==> !At(s, pat, j)
    ensures r.None? ==> forall j: nat :: !At(s, pat, j)
    decreases |s|
  {
    if |s| < |pat| then None
    else if s[..|pat|] == pat then Some(0)
    else
      var rest := IndexOf(s[1..], pat);
      AtTail(s, pat);
      assert !At(s, pat, 0);
      match rest
      case None => None
      case Some(k) => Some(k + 1)
  }

  /** `String.prototype.replace(pat, rep)` for a string pattern and a replacement
      without `$` patterns: only the first occurrence is replaced. */
  function ReplaceFirst(s: string, pat: string, rep: string): string {
    match IndexOf(s, pat)
    case None => s
    case Some(k) => s[..k] + rep + s[k + |pat|..]
  }

  /** When `s` is `pre + pat + post` and no occurrence starts inside `pre`, the
      replacement rewrites exactly that occurrence. */
  lemma ReplaceFirstAtFirstOccurrence(pre: string, pat: string, post: string, rep: string)
    requires forall j: nat :: j < |pre| ==> !At(pre + pat + post, pat, j)
    ensures ReplaceFirst(pre + pat + post, pat, rep) == pre + rep + post
  {
    var s := pre + pat + post;
    assert s[|pre|..|pre| + |pat|] == pat;
    assert At(s, pat, |pre|);
    var k := IndexOf(s, pat).value;
    assert k == |pre|;
    assert s[..k] == pre;
    assert s[k + |pat|..] == post;
  }

  /** Only the first occurrence is replaced: a string that starts with the pattern
      keeps every later occurrence, e.g. `failure() && failure()` becomes
      `true && failure()`. */
  lemma ReplaceFirstKeepsLaterOccurrences(pat: string, rest: string, rep: string)
    ensures ReplaceFirst(pat + rest, pat, rep) == rep + rest
  {
    ReplaceFirstAtFirstOccurrence("", pat, rest, rep);
    assert "" + pat + rest == pat + rest;
    assert "" + rep + rest == rep + rest;
  }

  /** A string that is exactly the pattern becomes the replacement. */
  lemma ReplaceWhole(pat: string, rep: string)
    ensures ReplaceFirst(pat, pat, rep) == rep
  {
    ReplaceFirstKeepsLaterOccurrences(pat, "", rep);
    assert pat + "" == pat && rep + "" == rep;
  }

  /** A string without the pattern is left as it is. */
  lemma ReplaceFirstAbsent(s: string, pat: string, rep: string)
    requires forall j: nat :: !At(s, pat, j)
    ensures ReplaceFirst(s, pat, rep) == s
  {
    assert IndexOf(s, pat).None?;
  }

  /** The replacement leaves alone a string in which no long enough suffix starts
      with the pattern's first two characters. */
  lemma ReplaceFirstAbsentByHead(s: string, pat: string, rep: string)
    requires |pat| >= 2
    requires forall j :: 0 <= j && j + |pat| <= |s| ==> s[j] != pat[0] || s[j + 1] != pat[1]
    ensures ReplaceFirst(s, pat, rep) == s
  {
    forall j: nat ensures !At(s, pat, j) {
      if j + |pat| <= |s| {
        assert s[j..j + |pat|][0] == s[j] && s[j..j + |pat|][1] == s[j + 1];
      }
    }
    ReplaceFirstAbsent(s, pat, rep);
  }

  /** The rewrite `value.replace(/\${{/g, '{{')` done before a template compile:
      left to right, non-overlapping, every match replaced. */
  function ReplaceTemplateOpen(s: string): string
    decreases |s|
  {
    if |s| >= 3 && s[..3] == "${{" then "{{" + ReplaceTemplateOpen(s[3..])
    else if s == [] then []
    else [s[0]] + ReplaceTemplateOpen(s[1..])
  }

  /** `s` with every `$` removed. */
  function WithoutDollars(s: string): string
    decreases |s|
  {
    if s == [] then [] else (if s[0] == '$' then [] else [s[0]]) + WithoutDollars(s[1..])
  }

  lemma WithoutDollarsAppend(a: string, b: string)
    ensures WithoutDollars(a + b) == WithoutDollars(a) + WithoutDollars(b)
    decreases |a|
  {
    if a == [] {
      assert a + b == b;
    } else {
      assert (a + b)[1..] == a[1..] + b;
      WithoutDollarsAppend(a[1..], b);
    }
  }

  /** The rewrite only ever deletes `$` characters: apart from them, the text is unchanged. */
  lemma {:induction false} ReplaceTemplateOpenOnlyDropsDollars(s: string)
    ensures WithoutDollars(ReplaceTemplateOpen(s)) == WithoutDollars(s)
    ensures |ReplaceTemplateOpen(s)| <= |s|
    decreases |s|
  {
    if |s| >= 3 && s[..3] == "${{" {
      ReplaceTemplateOpenOnlyDropsDollars(s[3..]);
      WithoutDollarsAppend("{{", ReplaceTemplateOpen(s[3..]));
      assert s == "${{" + s[3..];
      WithoutDollarsAppend("${{", s[3..]);
    } else if s != [] {
      ReplaceTemplateOpenOnlyDropsDollars(s[1..]);
      WithoutDollarsAppend([s[0]], ReplaceTemplateOpen(s[1..]));
      assert s == [s[0]] + s[1..];
      WithoutDollarsAppend([s[0]], s[1..]);
    }
  }

  /** Each `${{` becomes `{{`: after a `$`-free prefix, the first `${{` is rewritten and
      the rest of the text is rewritten in turn. */
  lemma {:induction false} ReplaceTemplateOpenRewritesOpen(pre: string, post: string)
    requires forall i :: 0 <= i < |pre| ==> pre[i] != '$'
    ensures ReplaceTemplateOpen(pre + "${{" + post) == pre + "{{" + ReplaceTemplateOpen(post)
    decreases |pre|
  {
    var s := pre + "${{" + post;
    if pre == [] {
      assert s == "${{" + post && s[..3] == "${{" && s[3..] == post;
    } else {
      assert s[0] == pre[0] != '$';
      assert s[1..] == pre[1..] + "${{" + post;
      ReplaceTemplateOpenRewritesOpen(pre[1..], post);
      assert [pre[0]] + pre[1..] == pre;
    }
  }

  /** A string with no `$` is passed to the compiler unchanged. */
  lemma {:induction false} ReplaceTemplateOpenNoDollar(s: string)
    requires forall i :: 0 <= i < |s| ==> s[i] != '$'
    ensures ReplaceTemplateOpen(s) == s
    decreases |s|
  {
    if s != [] {
      assert |s| >= 3 ==> s[..3][0] == s[0];
      ReplaceTemplateOpenNoDollar(s[1..]);
    }
  }

  /** `Buffer.concat(chunks).toString()`. */
  function Concat(chunks: seq<string>): string {
    if chunks == [] then "" else Concat(chunks[..|chunks| - 1]) + chunks[|chunks| - 1]
  }

  /** Buffering in pieces does not change the message: concatenation distributes over `+`. */
  lemma {:induction false} ConcatAppend(a: seq<string>, b: seq<string>)
    ensures Concat(a + b) == Concat(a) + Concat(b)
    decreases |b|
  {
    if b == [] {
      assert a + b == a;
    } else {
      var n := |b| - 1;
      var ab := a + b;
      assert ab[..|ab| - 1] == a + b[..n];
      assert ab[|ab| - 1] == b[n];
      ConcatAppend(a, b[..n]);
      calc {
        Concat(ab);
        Concat(a + b[..n]) + b[n];
        Concat(a) + Concat(b[..n]) + b[n];
        Concat(a) + (Concat(b[..n]) + b[n]);
        Concat(a) + Concat(b);
      }
    }
  }
}
