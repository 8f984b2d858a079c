/**
 * The argument parser of the `prior` command line (`parseArgs`): a left-to-right
 * scan of the argument list that yields the positionals, in order, and a map of
 * named options.
 *
 * A token is a flag when it starts with `--`, or when it is exactly `-h`, which
 * stands for `--help`. A flag's key is its name in camel case. A collector flag
 * (key `errorMessages` or `failedApproaches`) takes every following non-flag
 * token as a list; any other flag takes the next token as its value when that
 * token is not a flag, and is `true` otherwise. Every other token is a positional.
 * A later flag with the same key replaces the earlier value.
 */
module Args {
  import opened Naming

  /** The value stored for an option: `true`, one string, or the list of a collector. */
  datatype OptionValue = Flag | Scalar(text: string) | List(items: seq<string>)

  /** What `parseArgs` returns: `_` and the named options. */
  datatype ArgBag = ArgBag(positionals: seq<string>, options: map<string, OptionValue>)

  const CollectorKeys: set<string> := {"errorMessages", "failedApproaches"}

  predicate IsFlag(t: string)
  {
    (|t| >= 2 && t[0] == '-' && t[1] == '-') || t == "-h"
  }

  /** The option key a flag token writes. */
  function KeyOf(t: string): string
    requires IsFlag(t)
  {
    if t == "-h" then "help" else KebabToCamel(t[2..])
  }

  predicate IsCollector(t: string)
  {
    IsFlag(t) && KeyOf(t) in CollectorKeys
  }

  /** No flag strictly between positions `k` and `j`. */
  predicate NoFlagBetween(ts: seq<string>, k: int, j: int)
    requires -1 <= k && j <= |ts|
  {
    forall m :: k < m < j ==> !IsFlag(ts[m])
  }

  /** The end of the run of non-flag tokens that starts at `j`. */
  function ValuesEnd(ts: seq<string>, j: nat): (e: nat)
    requires j <= |ts|
    ensures j <= e <= |ts|
    ensures NoFlagBetween(ts, j - 1, e)
    ensures e == |ts| || IsFlag(ts[e])
    decreases |ts| - j
  {
    if j < |ts| && !IsFlag(ts[j]) then ValuesEnd(ts, j + 1) else j
  }

  /** The value written by the flag at position `i`. */
  function FlagValue(ts: seq<string>, i: nat): OptionValue
    requires i < |ts| && IsFlag(ts[i])
  {
    if IsCollector(ts[i]) then List(ts[i + 1..ValuesEnd(ts, i + 1)])
    else if i + 1 < |ts| && !IsFlag(ts[i + 1]) then Scalar(ts[i + 1])
    else Flag
  }

  /** Where the scan resumes after the flag at position `i` and its value. */
  function FlagNext(ts: seq<string>, i: nat): (n: nat)
    requires i < |ts| && IsFlag(ts[i])
    ensures i < n <= |ts|
    ensures NoFlagBetween(ts, i, n)
  {
    if IsCollector(ts[i]) then ValuesEnd(ts, i + 1)
    else if i + 1 < |ts| && !IsFlag(ts[i + 1]) then i + 2
    else i + 1
  }

  /** The scan from position `i` on, as a recursive function. */
  function ParseFrom(ts: seq<string>, i: nat): ArgBag
    requires i <= |ts|
    decreases |ts| - i
  {
    if i == |ts| then ArgBag([], map[])
    else if IsFlag(ts[i]) then
      var rest := ParseFrom(ts, FlagNext(ts, i));
      ArgBag(rest.positionals, map[KeyOf(ts[i]) := FlagValue(ts, i)] + rest.options)
    else
      var rest := ParseFrom(ts, i + 1);
      ArgBag([ts[i]] + rest.positionals, rest.options)
  }

  function Parse(ts: seq<string>): ArgBag
  {
    ParseFrom(ts, 0)
  }

  /** The bag `a` has collected before the scan reaches the part that gives `b`. */
  function Combine(a: ArgBag, b: ArgBag): ArgBag
  {
    ArgBag(a.positionals + b.positionals, a.options + b.options)
  }

  lemma CombineUpdate(pos: seq<string>, opts: map<string, OptionValue>, k: string, v: OptionValue, rest: ArgBag)
    ensures Combine(ArgBag(pos, opts), ArgBag(rest.positionals, map[k := v] + rest.options))
         == Combine(ArgBag(pos, opts[k := v]), rest)
  {
    assert opts + (map[k := v] + rest.options) == opts[k := v] + rest.options;
  }

  lemma CombinePositional(pos: seq<string>, opts: map<string, OptionValue>, t: string, rest: ArgBag)
    ensures Combine(ArgBag(pos, opts), ArgBag([t] + rest.positionals, rest.options))
         == Combine(ArgBag(pos + [t], opts), rest)
  {
    assert pos + ([t] + rest.positionals) == (pos + [t]) + rest.positionals;
  }

  /** The inner loop of a collector flag: the run of non-flag tokens from `start`, and where it ends. */
  method CollectValues(ts: seq<string>, start: nat) returns (values: seq<string>, j: nat)
    requires start <= |ts|
    ensures j == ValuesEnd(ts, start)
    ensures values == ts[start..j]
  {
    j := start;
    values := [];
    while j < |ts| && !IsFlag(ts[j])
      invariant start <= j <= |ts|
      invariant values == ts[start..j]
      invariant ValuesEnd(ts, j) == ValuesEnd(ts, start)
      decreases |ts| - j
    {
      values := values + [ts[j]];
      j := j + 1;
    }
  }

  /** `parseArgs` as the source writes it: an index scan that appends to `_` and writes keys. */
  method ParseArgs(ts: seq<string>) returns (bag: ArgBag)
    ensures bag == Parse(ts)
  {
    var pos: seq<string> := [];
    var opts: map<string, OptionValue> := map[];
    var i := 0;
    while i < |ts|
      invariant 0 <= i <= |ts|
      invariant Combine(ArgBag(pos, opts), ParseFrom(ts, i)) == Parse(ts)
      decreases |ts| - i
    {
      var t := ts[i];
      if IsFlag(t) {
        var key := KeyOf(t);
        CombineUpdate(pos, opts, key, FlagValue(ts, i), ParseFrom(ts, FlagNext(ts, i)));
        if key in CollectorKeys {
          var values, j := CollectValues(ts, i + 1);
          opts := opts[key := List(values)];
          i := j;
        } else if i + 1 < |ts| && !IsFlag(ts[i + 1]) {
          opts := opts[key := Scalar(ts[i + 1])];
          i := i + 2;
        } else {
          opts := opts[key := Flag];
          i := i + 1;
        }
      } else {
        CombinePositional(pos, opts, t, ParseFrom(ts, i + 1));
        pos := pos + [t];
        i := i + 1;
      }
    }
    assert ParseFrom(ts, i) == ArgBag([], map[]);
    assert pos + [] == pos && opts + map[] == opts;
    bag := ArgBag(pos, opts);
  }
}
