/**
 * Option-name normalisation: the parser turns `--max-results` into the key
 * `maxResults`. Every hyphen is dropped and the character after it is upper-cased.
 */
module Naming {
  import opened Strings

  predicate IsLower(c: char) { 'a' <= c <= 'z' }

  function ToUpper(c: char): (u: char)
    ensures IsLower(c) ==> 'A' <= u <= 'Z' && u as int == c as int - 32
    ensures !IsLower(c) ==> u == c
  {
    if IsLower(c) then (c as int - 32) as char else c
  }

  /** The first character upper-cased, the rest untouched. */
  function Capitalize(s: string): (r: string)
    ensures |r| == |s|
    ensures s != [] ==> r[0] == ToUpper(s[0]) && r[1..] == s[1..]
    ensures s == [] ==> r == []
  {
    if s == [] then [] else [ToUpper(s[0])] + s[1..]
  }

  /** Kebab-case to camel-case: each `-` is removed and the character after it is capitalised. */
  function KebabToCamel(s: string): (r: string)
    ensures '-' !in r
    ensures |r| <= |s|
    decreases |s|
  {
    if s == [] then []
    else if s[0] == '-' then KebabToCamel(Capitalize(s[1..]))
    else [s[0]] + KebabToCamel(s[1..])
  }

  /** A name without hyphens is already its own key (`--json` gives `json`). */
  lemma {:induction false} HyphenFreeUnchanged(s: string)
    requires '-' !in s
    ensures KebabToCamel(s) == s
    decreases |s|
  {
    if s != [] {
      HyphenFreeUnchanged(s[1..]);
    }
  }

  /** Capitalising never produces a hyphen that was not there. */
  lemma CapitalizeKeepsHyphenFree(s: string)
    requires '-' !in s
    ensures '-' !in Capitalize(s)
  {
  }

  /** A hyphen-free prefix is copied through unchanged. */
  lemma {:induction false} PlainPrefix(a: string, b: string)
    requires '-' !in a
    ensures KebabToCamel(a + b) == a + KebabToCamel(b)
  {
    var t := a + b;
    if a != [] {
      assert t[0] == a[0] && t[0] != '-';
      assert t[1..] == a[1..] + b;
      assert KebabToCamel(t) == [a[0]] + KebabToCamel(a[1..] + b);
      PlainPrefix(a[1..], b);
      assert a == [a[0]] + a[1..];
    } else {
      assert t == b;
    }
  }

  /** The segment-wise reading of the rule: every segment after the first is capitalised. */
  function CapitalizedConcat(segs: seq<string>): string
  {
    if segs == [] then [] else Capitalize(segs[0]) + CapitalizedConcat(segs[1..])
  }

  predicate Segment(s: string) { s != [] && '-' !in s }

  /** Capitalising touches only the first character. */
  lemma CapitalizeAppend(x: string, y: string)
    requires x != []
    ensures Capitalize(x + y) == Capitalize(x) + y
  {
    assert (x + y)[0] == x[0];
    assert (x + y)[1..] == x[1..] + y;
  }

  /** Capitalising a joined name touches only its first segment. */
  lemma {:induction false} CapitalizeJoin(segs: seq<string>)
    requires |segs| > 0 && segs[0] != []
    ensures Capitalize(Join(segs, '-')) == Join([Capitalize(segs[0])] + segs[1..], '-')
  {
    var segs' := [Capitalize(segs[0])] + segs[1..];
    assert segs'[0] == Capitalize(segs[0]);
    assert segs'[1..] == segs[1..];
    assert |segs'| == |segs|;
    if |segs| > 1 {
      var tail := ['-'] + Join(segs[1..], '-');
      assert Join(segs, '-') == segs[0] + tail;
      assert Join(segs', '-') == segs'[0] + tail;
      CapitalizeAppend(segs[0], tail);
    }
  }

  /** One unfolding step of the rule on `s-rest`. */
  lemma KebabStep(s: string, rest: seq<string>)
    requires Segment(s) && |rest| > 0 && rest[0] != []
    ensures KebabToCamel(Join([s] + rest, '-'))
         == s + KebabToCamel(Join([Capitalize(rest[0])] + rest[1..], '-'))
  {
    var segs := [s] + rest;
    assert segs[1..] == rest;
    assert Join(segs, '-') == s + ("-" + Join(rest, '-'));
    PlainPrefix(s, "-" + Join(rest, '-'));
    assert ("-" + Join(rest, '-'))[1..] == Join(rest, '-');
    CapitalizeJoin(rest);
  }

  /**
   * For a name made of non-empty hyphen-free segments, `seg0-seg1-...` gives
   * seg0 followed by every later segment capitalised (`context-os` gives `contextOs`).
   */
  lemma {:induction false} KebabSegments(segs: seq<string>)
    requires |segs| > 0
    requires forall i :: 0 <= i < |segs| ==> Segment(segs[i])
    ensures KebabToCamel(Join(segs, '-')) == segs[0] + CapitalizedConcat(segs[1..])
    decreases |segs|
  {
    if |segs| == 1 {
      HyphenFreeUnchanged(segs[0]);
    } else {
      var rest := segs[1..];
      var head := Capitalize(rest[0]);
      CapitalizeKeepsHyphenFree(rest[0]);
      var segs' := [head] + rest[1..];
      assert [segs[0]] + rest == segs;
      KebabStep(segs[0], rest);
      assert forall i :: 0 <= i < |segs'| ==> Segment(segs'[i]) by {
        forall i | 0 <= i < |segs'| ensures Segment(segs'[i]) {
          if i > 0 { assert segs'[i] == segs[i + 1]; }
        }
      }
      KebabSegments(segs');
      assert segs'[1..] == rest[1..];
    }
  }

  /** The two-segment case: `a-b` gives `a` followed by `b` capitalised. */
  lemma TwoSegments(a: string, b: string)
    requires Segment(a) && Segment(b)
    ensures KebabToCamel(a + "-" + b) == a + Capitalize(b)
  {
    var segs := [a, b];
    assert Join(segs, '-') == a + "-" + b by {
      assert segs[1..] == [b];
    }
    assert segs[1..] == [b];
    assert CapitalizedConcat([b]) == Capitalize(b) + CapitalizedConcat([]);
    KebabSegments(segs);
  }
}
