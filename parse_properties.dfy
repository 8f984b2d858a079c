/**
 * What the scan promises, stated without reference to its order of work:
 * which tokens end up in `_`, and which value each option key holds.
 */
module ParseProperties {
  import opened Naming
  import opened Args

  /** The flag `f` takes the token `d` places after it, when no flag lies between. */
  predicate Takes(f: string, d: nat)
    requires IsFlag(f)
  {
    KeyOf(f) in CollectorKeys || d == 1
  }

  /** Token `j` is consumed as (part of) the value of an earlier flag. */
  ghost predicate IsValueToken(ts: seq<string>, j: nat)
    requires j < |ts|
  {
    && !IsFlag(ts[j])
    && exists k :: 0 <= k < j && IsFlag(ts[k]) && NoFlagBetween(ts, k, j) && Takes(ts[k], j - k)
  }

  ghost predicate IsPositional(ts: seq<string>, j: nat)
    requires j < |ts|
  {
    !IsFlag(ts[j]) && !IsValueToken(ts, j)
  }

  /** The positional tokens at positions `i` and after, in input order. */
  ghost function PositionalsFrom(ts: seq<string>, i: nat): seq<string>
    requires i <= |ts|
    decreases |ts| - i
  {
    if i == |ts| then []
    else (if IsPositional(ts, i) then [ts[i]] else []) + PositionalsFrom(ts, i + 1)
  }

  /** Whether token `j` is a value is decided by the last flag before it. */
  lemma LastFlagDecides(ts: seq<string>, c: nat, j: nat)
    requires c < j < |ts| && IsFlag(ts[c]) && NoFlagBetween(ts, c, j)
    ensures IsValueToken(ts, j) <==> !IsFlag(ts[j]) && Takes(ts[c], j - c)
  {
    forall k | 0 <= k < j && IsFlag(ts[k]) && NoFlagBetween(ts, k, j)
      ensures k == c
    {
      assert !(k < c);
      assert !(c < k);
    }
  }

  /** A value token adds nothing to `_`. */
  lemma OneValue(ts: seq<string>, a: nat)
    requires a < |ts| && IsValueToken(ts, a)
    ensures PositionalsFrom(ts, a) == PositionalsFrom(ts, a + 1)
  {
    assert !IsPositional(ts, a);
    assert PositionalsFrom(ts, a) == [] + PositionalsFrom(ts, a + 1);
  }

  lemma {:induction false} SkipValues(ts: seq<string>, a: nat, b: nat)
    requires a <= b <= |ts|
    requires forall j :: a <= j < b ==> IsValueToken(ts, j)
    ensures PositionalsFrom(ts, a) == PositionalsFrom(ts, b)
    decreases b - a
  {
    if a < b {
      OneValue(ts, a);
      assert forall j :: a + 1 <= j < b ==> IsValueToken(ts, j);
      SkipValues(ts, a + 1, b);
      assert PositionalsFrom(ts, a) == PositionalsFrom(ts, a + 1);
    }
  }

  /** A positional token ends whatever the last flag before it was taking. */
  lemma AfterPositional(ts: seq<string>, i: nat)
    requires i + 1 < |ts| && IsPositional(ts, i)
    ensures !IsValueToken(ts, i + 1)
  {
    forall k | 0 <= k < i + 1 && IsFlag(ts[k]) && NoFlagBetween(ts, k, i + 1)
      ensures !Takes(ts[k], i + 1 - k)
    {
      assert k != i;
      assert NoFlagBetween(ts, k, i);
      LastFlagDecides(ts, k, i);
    }
  }

  /**
   * From any position that does not hold a value token, the scan puts exactly
   * the positional tokens into `_`, in order.
   */
  lemma {:induction false} PositionalsFromBoundary(ts: seq<string>, i: nat)
    requires i <= |ts|
    requires i < |ts| ==> !IsValueToken(ts, i)
    ensures ParseFrom(ts, i).positionals == PositionalsFrom(ts, i)
    decreases |ts| - i
  {
    if i < |ts| {
      if IsFlag(ts[i]) {
        var n := FlagNext(ts, i);
        if IsCollector(ts[i]) {
          forall j | i + 1 <= j < n ensures IsValueToken(ts, j) {
            assert NoFlagBetween(ts, i, j);
            LastFlagDecides(ts, i, j);
          }
        } else if i + 1 < |ts| && !IsFlag(ts[i + 1]) {
          LastFlagDecides(ts, i, i + 1);
          if i + 2 < |ts| {
            LastFlagDecides(ts, i, i + 2);
          }
        }
        SkipValues(ts, i + 1, n);
        PositionalsFromBoundary(ts, n);
      } else {
        if i + 1 < |ts| {
          AfterPositional(ts, i);
        }
        PositionalsFromBoundary(ts, i + 1);
      }
    }
  }

  /** `_` holds exactly the tokens that are neither flags nor consumed values, in input order. */
  lemma PositionalsExact(ts: seq<string>)
    ensures Parse(ts).positionals == PositionalsFrom(ts, 0)
  {
    PositionalsFromBoundary(ts, 0);
  }

  /** The flag at `k` is the last one in `ts` to write its key. */
  predicate LastWithKey(ts: seq<string>, k: nat)
    requires k < |ts|
  {
    IsFlag(ts[k]) && forall m :: k < m < |ts| && IsFlag(ts[m]) ==> KeyOf(ts[m]) != KeyOf(ts[k])
  }

  predicate KeyWrittenFrom(ts: seq<string>, i: nat, key: string)
  {
    exists k :: i <= k < |ts| && IsFlag(ts[k]) && KeyOf(ts[k]) == key
  }

  /**
   * The options are exactly the keys of the flags, and each key holds the value
   * written by the last flag with that key.
   */
  lemma {:induction false} OptionsFrom(ts: seq<string>, i: nat)
    requires i <= |ts|
    ensures forall key :: key in ParseFrom(ts, i).options <==> KeyWrittenFrom(ts, i, key)
    ensures forall k :: i <= k < |ts| && LastWithKey(ts, k) ==>
              KeyOf(ts[k]) in ParseFrom(ts, i).options &&
              ParseFrom(ts, i).options[KeyOf(ts[k])] == FlagValue(ts, k)
    decreases |ts| - i
  {
    if i < |ts| {
      var opts := ParseFrom(ts, i).options;
      if IsFlag(ts[i]) {
        var n := FlagNext(ts, i);
        OptionsFrom(ts, n);
        var rest := ParseFrom(ts, n).options;
        assert opts == map[KeyOf(ts[i]) := FlagValue(ts, i)] + rest;
        forall key ensures key in opts <==> KeyWrittenFrom(ts, i, key) {
          if KeyWrittenFrom(ts, i, key) {
            var k :| i <= k < |ts| && IsFlag(ts[k]) && KeyOf(ts[k]) == key;
            if k != i {
              assert !(k < n);
              assert KeyWrittenFrom(ts, n, key);
            }
          }
          if key in rest {
            var k :| n <= k < |ts| && IsFlag(ts[k]) && KeyOf(ts[k]) == key;
            assert i <= k;
          }
        }
        forall k | i <= k < |ts| && LastWithKey(ts, k)
          ensures KeyOf(ts[k]) in opts && opts[KeyOf(ts[k])] == FlagValue(ts, k)
        {
          if k == i {
            forall m | n <= m < |ts| && IsFlag(ts[m]) ensures KeyOf(ts[m]) != KeyOf(ts[i]) {
              assert i < m;
            }
            assert !KeyWrittenFrom(ts, n, KeyOf(ts[i]));
          } else {
            assert !(k < n);
          }
        }
      } else {
        OptionsFrom(ts, i + 1);
        forall key ensures KeyWrittenFrom(ts, i, key) ==> KeyWrittenFrom(ts, i + 1, key) {
          if KeyWrittenFrom(ts, i, key) {
            var k :| i <= k < |ts| && IsFlag(ts[k]) && KeyOf(ts[k]) == key;
            assert k != i;
          }
        }
      }
    }
  }

  /** An option key is present exactly when some flag in the argument list writes it. */
  lemma OptionKeys(ts: seq<string>, key: string)
    ensures key in Parse(ts).options <==> KeyWrittenFrom(ts, 0, key)
  {
    OptionsFrom(ts, 0);
  }

  /**
   * A non-collector flag that is the last with its key stores the next token as a
   * string when that token is not a flag, and `true` when it is a flag or there is none.
   */
  lemma ScalarOrTrue(ts: seq<string>, k: nat)
    requires k < |ts| && LastWithKey(ts, k) && !IsCollector(ts[k])
    ensures KeyOf(ts[k]) in Parse(ts).options
    ensures k + 1 < |ts| && !IsFlag(ts[k + 1]) ==> Parse(ts).options[KeyOf(ts[k])] == Scalar(ts[k + 1])
    ensures k + 1 == |ts| || IsFlag(ts[k + 1]) ==> Parse(ts).options[KeyOf(ts[k])] == Flag
  {
    OptionsFrom(ts, 0);
  }

  /**
   * A collector flag that is the last with its key stores the list of every
   * following token up to the next flag or the end; that run is all non-flags.
   */
  lemma CollectorList(ts: seq<string>, k: nat)
    requires k < |ts| && LastWithKey(ts, k) && IsCollector(ts[k])
    ensures var e := ValuesEnd(ts, k + 1);
      && KeyOf(ts[k]) in Parse(ts).options
      && Parse(ts).options[KeyOf(ts[k])] == List(ts[k + 1..e])
      && (forall j :: k < j < e ==> !IsFlag(ts[j]))
      && (e == |ts| || IsFlag(ts[e]))
  {
    OptionsFrom(ts, 0);
  }

  /** Collector keys always hold a list, even of one token; no other key ever holds one. */
  lemma {:induction false} ListsOnlyForCollectors(ts: seq<string>, i: nat)
    requires i <= |ts|
    ensures forall key :: key in ParseFrom(ts, i).options ==>
              (ParseFrom(ts, i).options[key].List? <==> key in CollectorKeys)
    decreases |ts| - i
  {
    if i < |ts| {
      if IsFlag(ts[i]) {
        ListsOnlyForCollectors(ts, FlagNext(ts, i));
      } else {
        ListsOnlyForCollectors(ts, i + 1);
      }
    }
  }

  /** Two argument lists that differ only in how equal-keyed flags are spelled. */
  predicate SameUpToSpelling(ts: seq<string>, us: seq<string>)
  {
    && |ts| == |us|
    && forall j :: 0 <= j < |ts| ==>
         ts[j] == us[j] || (IsFlag(ts[j]) && IsFlag(us[j]) && KeyOf(ts[j]) == KeyOf(us[j]))
  }

  lemma {:induction false} ValuesEndSpelling(ts: seq<string>, us: seq<string>, j: nat)
    requires SameUpToSpelling(ts, us) && j <= |ts|
    ensures ValuesEnd(ts, j) == ValuesEnd(us, j)
    ensures ts[j..ValuesEnd(ts, j)] == us[j..ValuesEnd(us, j)]
    decreases |ts| - j
  {
    if j < |ts| && !IsFlag(ts[j]) {
      assert ts[j] == us[j];
      ValuesEndSpelling(ts, us, j + 1);
      assert ts[j..ValuesEnd(ts, j)] == [ts[j]] + ts[j + 1..ValuesEnd(ts, j)];
      assert us[j..ValuesEnd(us, j)] == [us[j]] + us[j + 1..ValuesEnd(us, j)];
    } else if j < |ts| {
      assert IsFlag(us[j]);
    }
  }

  /** Only the key a flag denotes matters, not how it is spelled. */
  lemma {:induction false} SpellingIrrelevant(ts: seq<string>, us: seq<string>, i: nat)
    requires SameUpToSpelling(ts, us) && i <= |ts|
    ensures ParseFrom(ts, i) == ParseFrom(us, i)
    decreases |ts| - i
  {
    if i < |ts| {
      if IsFlag(ts[i]) {
        assert IsFlag(us[i]) && KeyOf(ts[i]) == KeyOf(us[i]);
        if i + 1 < |ts| {
          assert IsFlag(ts[i + 1]) <==> IsFlag(us[i + 1]);
          assert !IsFlag(ts[i + 1]) ==> ts[i + 1] == us[i + 1];
        }
        ValuesEndSpelling(ts, us, i + 1);
        assert FlagNext(ts, i) == FlagNext(us, i);
        assert FlagValue(ts, i) == FlagValue(us, i);
        SpellingIrrelevant(ts, us, FlagNext(ts, i));
      } else {
        assert ts[i] == us[i];
        SpellingIrrelevant(ts, us, i + 1);
      }
    }
  }

  /** `-h` and `--help` are interchangeable anywhere in the argument list. */
  lemma ShortHelp(ts: seq<string>, k: nat)
    requires k < |ts| && ts[k] == "-h"
    ensures Parse(ts[k := "--help"]) == Parse(ts)
  {
    assert KeyOf("--help") == "help" by {
      assert "--help"[2..] == "help";
      HyphenFreeUnchanged("help");
    }
    SpellingIrrelevant(ts[k := "--help"], ts, 0);
  }

  /** Without flags every token is a positional, in order, and no option is set. */
  lemma {:induction false} NoFlagsAllPositional(ts: seq<string>, i: nat)
    requires i <= |ts|
    requires forall j :: 0 <= j < |ts| ==> !IsFlag(ts[j])
    ensures ParseFrom(ts, i) == ArgBag(ts[i..], map[])
    decreases |ts| - i
  {
    if i < |ts| {
      NoFlagsAllPositional(ts, i + 1);
      assert ts[i..] == [ts[i]] + ts[i + 1..];
    }
  }
}
