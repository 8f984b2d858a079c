/** The argument lists of the parser's test cases, worked through the definitions. */
module ParseExamples {
  import opened Naming
  import opened Args
  import opened ParseProperties

  // One step of the scan for each kind of token, on an arbitrary argument list.

  lemma EndStep(ts: seq<string>)
    ensures ParseFrom(ts, |ts|) == ArgBag([], map[])
  {
  }

  lemma PositionalStep(ts: seq<string>, i: nat)
    requires i < |ts| && !IsFlag(ts[i])
    ensures ParseFrom(ts, i) == ArgBag([ts[i]] + ParseFrom(ts, i + 1).positionals, ParseFrom(ts, i + 1).options)
  {
  }

  lemma ScalarStep(ts: seq<string>, i: nat)
    requires i + 1 < |ts| && IsFlag(ts[i]) && KeyOf(ts[i]) !in CollectorKeys && !IsFlag(ts[i + 1])
    ensures ParseFrom(ts, i)
         == ArgBag(ParseFrom(ts, i + 2).positionals, map[KeyOf(ts[i]) := Scalar(ts[i + 1])] + ParseFrom(ts, i + 2).options)
  {
  }

  lemma FlagStep(ts: seq<string>, i: nat)
    requires i < |ts| && IsFlag(ts[i]) && KeyOf(ts[i]) !in CollectorKeys
    requires i + 1 == |ts| || IsFlag(ts[i + 1])
    ensures ParseFrom(ts, i)
         == ArgBag(ParseFrom(ts, i + 1).positionals, map[KeyOf(ts[i]) := Flag] + ParseFrom(ts, i + 1).options)
  {
  }

  lemma {:induction false} ValuesEndAt(ts: seq<string>, j: nat, e: nat)
    requires j <= e <= |ts| && NoFlagBetween(ts, j - 1, e) && (e == |ts| || IsFlag(ts[e]))
    ensures ValuesEnd(ts, j) == e
    decreases e - j
  {
    if j < e {
      ValuesEndAt(ts, j + 1, e);
    }
  }

  lemma CollectorStep(ts: seq<string>, i: nat, e: nat)
    requires i < e <= |ts| && IsCollector(ts[i]) && NoFlagBetween(ts, i, e) && (e == |ts| || IsFlag(ts[e]))
    ensures ParseFrom(ts, i)
         == ArgBag(ParseFrom(ts, e).positionals, map[KeyOf(ts[i]) := List(ts[i + 1..e])] + ParseFrom(ts, e).options)
  {
    ValuesEndAt(ts, i + 1, e);
  }

  // The option names of the test cases.

  lemma KeyTitle()
    ensures IsFlag("--title") && KeyOf("--title") == "title"
  {
    assert "--title"[2..] == "title";
    HyphenFreeUnchanged("title");
  }

  lemma KeyJson()
    ensures IsFlag("--json") && KeyOf("--json") == "json"
  {
    assert "--json"[2..] == "json";
    HyphenFreeUnchanged("json");
  }

  lemma KeyVerbose()
    ensures IsFlag("--verbose") && KeyOf("--verbose") == "verbose"
  {
    assert "--verbose"[2..] == "verbose";
    HyphenFreeUnchanged("verbose");
  }

  lemma MaxResultsName()
    ensures "--max-results"[2..] == "max" + "-" + "results"
  {
  }

  lemma MaxResultsCamel()
    ensures "max" + Capitalize("results") == "maxResults"
  {
    assert Capitalize("results") == "Results";
  }

  lemma KeyMaxResults()
    ensures IsFlag("--max-results") && KeyOf("--max-results") == "maxResults"
  {
    MaxResultsName();
    TwoSegments("max", "results");
    MaxResultsCamel();
  }

  lemma KeyHelp()
    ensures IsFlag("--help") && KeyOf("--help") == "help"
  {
    assert "--help"[2..] == "help";
    HyphenFreeUnchanged("help");
  }

  lemma KeyContextOs()
    ensures IsFlag("--context-os") && KeyOf("--context-os") == "contextOs"
  {
    assert "--context-os"[2..] == "context" + "-" + "os";
    TwoSegments("context", "os");
    assert Capitalize("os") == "Os";
  }

  lemma ErrorMessagesName()
    ensures "--error-messages"[2..] == "error" + "-" + "messages"
  {
  }

  lemma ErrorMessagesCamel()
    ensures "error" + Capitalize("messages") == "errorMessages"
  {
    assert Capitalize("messages") == "Messages";
  }

  lemma KeyErrorMessages()
    ensures IsFlag("--error-messages") && KeyOf("--error-messages") == "errorMessages"
  {
    ErrorMessagesName();
    TwoSegments("error", "messages");
    ErrorMessagesCamel();
  }

  lemma FailedApproachesName()
    ensures "--failed-approaches"[2..] == "failed" + "-" + "approaches"
  {
  }

  lemma FailedApproachesCamel()
    ensures "failed" + Capitalize("approaches") == "failedApproaches"
  {
    assert Capitalize("approaches") == "Approaches";
  }

  lemma KeyFailedApproaches()
    ensures IsFlag("--failed-approaches") && KeyOf("--failed-approaches") == "failedApproaches"
  {
    FailedApproachesName();
    TwoSegments("failed", "approaches");
    FailedApproachesCamel();
  }

  lemma KeyFlag()
    ensures IsFlag("--flag") && KeyOf("--flag") == "flag"
  {
    assert "--flag"[2..] == "flag";
    HyphenFreeUnchanged("flag");
  }

  lemma KeyBool()
    ensures IsFlag("--bool") && KeyOf("--bool") == "bool"
  {
    assert "--bool"[2..] == "bool";
    HyphenFreeUnchanged("bool");
  }

  // The shapes of the test cases, for any flags and values.

  lemma ShapeScalar(f: string, v: string)
    requires IsFlag(f) && KeyOf(f) !in CollectorKeys && !IsFlag(v)
    ensures Parse([f, v]) == ArgBag([], map[KeyOf(f) := Scalar(v)])
  {
    var ts := [f, v];
    ScalarStep(ts, 0);
    EndStep(ts);
    assert map[KeyOf(f) := Scalar(v)] + map[] == map[KeyOf(f) := Scalar(v)];
  }

  lemma ShapeFlag(f: string)
    requires IsFlag(f) && KeyOf(f) !in CollectorKeys
    ensures Parse([f]) == ArgBag([], map[KeyOf(f) := Flag])
  {
    var ts := [f];
    FlagStep(ts, 0);
    EndStep(ts);
    assert map[KeyOf(f) := Flag] + map[] == map[KeyOf(f) := Flag];
  }

  lemma ShapeTwoFlags(f: string, g: string)
    requires IsFlag(f) && KeyOf(f) !in CollectorKeys && IsFlag(g) && KeyOf(g) !in CollectorKeys
    ensures Parse([f, g]) == ArgBag([], map[KeyOf(f) := Flag, KeyOf(g) := Flag])
  {
    var ts := [f, g];
    FlagStep(ts, 1);
    EndStep(ts);
    FlagStep(ts, 0);
    assert map[KeyOf(g) := Flag] + map[] == map[KeyOf(g) := Flag];
    assert map[KeyOf(f) := Flag] + map[KeyOf(g) := Flag] == map[KeyOf(f) := Flag, KeyOf(g) := Flag];
  }

  lemma ShapeCollectorThenScalar(f: string, a: string, b: string, c: string, g: string, x: string)
    requires IsFlag(f) && KeyOf(f) in CollectorKeys && IsFlag(g) && KeyOf(g) !in CollectorKeys
    requires !IsFlag(a) && !IsFlag(b) && !IsFlag(c) && !IsFlag(x)
    ensures Parse([f, a, b, c, g, x]) == ArgBag([], map[KeyOf(f) := List([a, b, c]), KeyOf(g) := Scalar(x)])
  {
    var ts := [f, a, b, c, g, x];
    ScalarStep(ts, 4);
    EndStep(ts);
    assert map[KeyOf(g) := Scalar(x)] + map[] == map[KeyOf(g) := Scalar(x)];
    CollectorStep(ts, 0, 4);
    assert ts[1..4] == [a, b, c];
    assert map[KeyOf(f) := List([a, b, c])] + map[KeyOf(g) := Scalar(x)]
        == map[KeyOf(f) := List([a, b, c]), KeyOf(g) := Scalar(x)];
  }

  lemma ShapeCollector(f: string, vs: seq<string>)
    requires IsFlag(f) && KeyOf(f) in CollectorKeys
    requires forall i :: 0 <= i < |vs| ==> !IsFlag(vs[i])
    ensures Parse([f] + vs) == ArgBag([], map[KeyOf(f) := List(vs)])
  {
    var ts := [f] + vs;
    assert forall m :: 0 < m < |ts| ==> ts[m] == vs[m - 1];
    CollectorStep(ts, 0, |ts|);
    EndStep(ts);
    assert ts[1..|ts|] == vs;
    assert map[KeyOf(f) := List(vs)] + map[] == map[KeyOf(f) := List(vs)];
  }

  lemma ShapeMixed(p: string, f: string, v: string, q: string, g: string)
    requires !IsFlag(p) && !IsFlag(v) && !IsFlag(q)
    requires IsFlag(f) && KeyOf(f) !in CollectorKeys && IsFlag(g) && KeyOf(g) !in CollectorKeys
    ensures Parse([p, f, v, q, g]) == ArgBag([p, q], map[KeyOf(f) := Scalar(v), KeyOf(g) := Flag])
  {
    var ts := [p, f, v, q, g];
    FlagStep(ts, 4);
    EndStep(ts);
    assert map[KeyOf(g) := Flag] + map[] == map[KeyOf(g) := Flag];
    PositionalStep(ts, 3);
    ScalarStep(ts, 1);
    assert map[KeyOf(f) := Scalar(v)] + map[KeyOf(g) := Flag] == map[KeyOf(f) := Scalar(v), KeyOf(g) := Flag];
    PositionalStep(ts, 0);
  }

  // The test cases.

  lemma ExamplePositionals()
    ensures Parse(["search", "hello", "world"]) == ArgBag(["search", "hello", "world"], map[])
  {
    NoFlagsAllPositional(["search", "hello", "world"], 0);
  }

  lemma ExampleEmpty()
    ensures Parse([]) == ArgBag([], map[])
  {
  }

  lemma ExampleScalar()
    ensures Parse(["--title", "my title"]) == ArgBag([], map["title" := Scalar("my title")])
  {
    KeyTitle();
    ShapeScalar("--title", "my title");
  }

  lemma ExampleTrue()
    ensures Parse(["--json"]) == ArgBag([], map["json" := Flag])
  {
    KeyJson();
    ShapeFlag("--json");
  }

  /** Two flags in a row, each followed by another flag or the end, are both `true`. */
  lemma ExampleTwoFlags()
    ensures Parse(["--json", "--verbose"]) == ArgBag([], map["json" := Flag, "verbose" := Flag])
  {
    var ts := ["--json", "--verbose"];
    KeyJson();
    KeyVerbose();
    ShapeTwoFlags(ts[0], ts[1]);
  }

  lemma ExampleKebab()
    ensures Parse(["--max-results", "5"]) == ArgBag([], map["maxResults" := Scalar("5")])
  {
    KeyMaxResults();
    ShapeScalar("--max-results", "5");
  }

  lemma ExampleDeepKebab()
    ensures Parse(["--context-os", "linux"]) == ArgBag([], map["contextOs" := Scalar("linux")])
  {
    KeyContextOs();
    ShapeScalar("--context-os", "linux");
  }

  lemma ExampleHelp()
    ensures Parse(["--help"]) == ArgBag([], map["help" := Flag])
    ensures Parse(["-h"]) == ArgBag([], map["help" := Flag])
  {
    KeyHelp();
    ShapeFlag("--help");
    ShortHelp(["-h"], 0);
    assert ["-h"][0 := "--help"] == ["--help"];
  }

  lemma ExampleCollector()
    ensures Parse(["--error-messages", "err1", "err2", "err3", "--title", "x"])
         == ArgBag([], map["errorMessages" := List(["err1", "err2", "err3"]), "title" := Scalar("x")])
  {
    KeyErrorMessages();
    KeyTitle();
    ShapeCollectorThenScalar("--error-messages", "err1", "err2", "err3", "--title", "x");
  }

  lemma ExampleFailedApproaches()
    ensures Parse(["--failed-approaches", "a1", "a2"]) == ArgBag([], map["failedApproaches" := List(["a1", "a2"])])
  {
    KeyFailedApproaches();
    ShapeCollector("--failed-approaches", ["a1", "a2"]);
    assert ["--failed-approaches"] + ["a1", "a2"] == ["--failed-approaches", "a1", "a2"];
  }

  lemma ExampleSingleValueList()
    ensures Parse(["--error-messages", "only one"]) == ArgBag([], map["errorMessages" := List(["only one"])])
  {
    KeyErrorMessages();
    ShapeCollector("--error-messages", ["only one"]);
    assert ["--error-messages"] + ["only one"] == ["--error-messages", "only one"];
  }

  lemma ExampleMixed()
    ensures Parse(["pos1", "--flag", "val", "pos2", "--bool"])
         == ArgBag(["pos1", "pos2"], map["flag" := Scalar("val"), "bool" := Flag])
  {
    KeyFlag();
    KeyBool();
    ShapeMixed("pos1", "--flag", "val", "pos2", "--bool");
  }
}
