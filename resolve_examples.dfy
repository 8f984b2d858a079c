/** The command lines and standard inputs of the test suite, worked through the general lemmas. */
module ResolveExamples {
  import opened Wrappers
  import opened Strings
  import opened Naming
  import opened Args
  import opened JsonValues
  import opened Resolver
  import opened ResolveProperties
  import opened ParseProperties
  import opened ParseExamples

  // The shapes of the test command lines, for any command word, flags and values.

  lemma ParseWords(ts: seq<string>)
    requires forall i :: 0 <= i < |ts| ==> !IsFlag(ts[i])
    ensures Parse(ts) == ArgBag(ts, map[])
  {
    NoFlagsAllPositional(ts, 0);
    assert ts[0..] == ts;
  }

  lemma ParseCommandFlag(c: string, f: string)
    requires !IsFlag(c) && IsFlag(f) && KeyOf(f) !in CollectorKeys
    ensures Parse([c, f]) == ArgBag([c], map[KeyOf(f) := Flag])
  {
    var ts := [c, f];
    FlagStep(ts, 1);
    EndStep(ts);
    assert map[KeyOf(f) := Flag] + map[] == map[KeyOf(f) := Flag];
    PositionalStep(ts, 0);
  }

  lemma ParseCommandScalar(c: string, f: string, v: string)
    requires !IsFlag(c) && IsFlag(f) && KeyOf(f) !in CollectorKeys && !IsFlag(v)
    ensures Parse([c, f, v]) == ArgBag([c], map[KeyOf(f) := Scalar(v)])
  {
    var ts := [c, f, v];
    ScalarStep(ts, 1);
    EndStep(ts);
    assert map[KeyOf(f) := Scalar(v)] + map[] == map[KeyOf(f) := Scalar(v)];
    PositionalStep(ts, 0);
  }

  /** Four options with values after a command word; a later option's key wins over an earlier one. */
  lemma ParseCommandScalars(c: string, f1: string, v1: string, f2: string, v2: string,
                            f3: string, v3: string, f4: string, v4: string)
    requires !IsFlag(c) && !IsFlag(v1) && !IsFlag(v2) && !IsFlag(v3) && !IsFlag(v4)
    requires IsFlag(f1) && KeyOf(f1) !in CollectorKeys && IsFlag(f2) && KeyOf(f2) !in CollectorKeys
    requires IsFlag(f3) && KeyOf(f3) !in CollectorKeys && IsFlag(f4) && KeyOf(f4) !in CollectorKeys
    ensures Parse([c, f1, v1, f2, v2, f3, v3, f4, v4])
         == ArgBag([c], map[KeyOf(f1) := Scalar(v1)] + (map[KeyOf(f2) := Scalar(v2)]
                        + (map[KeyOf(f3) := Scalar(v3)] + (map[KeyOf(f4) := Scalar(v4)] + map[]))))
  {
    var ts := [c, f1, v1, f2, v2, f3, v3, f4, v4];
    EndStep(ts);
    ScalarStep(ts, 7);
    ScalarStep(ts, 5);
    ScalarStep(ts, 3);
    ScalarStep(ts, 1);
    PositionalStep(ts, 0);
  }

  // The option names the test command lines use beyond the parser's own cases.

  lemma KeyContent()
    ensures IsFlag("--content") && KeyOf("--content") == "content"
  {
    assert "--content"[2..] == "content";
    HyphenFreeUnchanged("content");
  }

  lemma KeyTags()
    ensures IsFlag("--tags") && KeyOf("--tags") == "tags"
  {
    assert "--tags"[2..] == "tags";
    HyphenFreeUnchanged("tags");
  }

  lemma KeyModel()
    ensures IsFlag("--model") && KeyOf("--model") == "model"
  {
    assert "--model"[2..] == "model";
    HyphenFreeUnchanged("model");
  }

  lemma KeyVersion()
    ensures IsFlag("--version") && KeyOf("--version") == "version"
  {
    assert "--version"[2..] == "version";
    HyphenFreeUnchanged("version");
  }

  /** A command word followed by no flag reaches its command. */
  lemma WordsReach(c: Command, ts: seq<string>)
    requires ts != [] && ts[0] == Name(c) && ts[0] != "-v"
    ensures Reaches(ArgBag(ts, map[]), c)
  {
    NameRoundTrip(c);
  }

  lemma NamesAreWords(c: Command)
    ensures !IsFlag(Name(c)) && Name(c) != "-v"
  {
  }

  // Dispatch order.

  lemma ExampleNoArguments(stdin: Stdin)
    ensures Invoke([], stdin) == Success(ShowHelp(None))
  {
  }

  /** Any flag with key `version` shows the version. */
  lemma VersionFlag(f: string, stdin: Stdin)
    requires IsFlag(f) && KeyOf(f) == "version"
    ensures Invoke([f], stdin) == Success(ShowVersion)
  {
    ShapeFlag(f);
  }

  lemma ExampleVersion(stdin: Stdin)
    ensures Invoke(["--version"], stdin) == Success(ShowVersion)
  {
    KeyVersion();
    VersionFlag("--version", stdin);
  }

  lemma ExampleShortVersion(stdin: Stdin)
    ensures Invoke(["-v"], stdin) == Success(ShowVersion)
  {
    ParseWords(["-v"]);
  }

  lemma ExampleHelp(stdin: Stdin)
    ensures Invoke(["--help"], stdin) == Success(ShowHelp(None))
  {
    KeyHelp();
    ShapeFlag("--help");
  }

  /** `prior <command> --help` shows that command's help, for every command. */
  lemma ExampleCommandHelp(c: Command, stdin: Stdin)
    ensures Invoke([Name(c), "--help"], stdin) == Success(ShowHelp(Some(c)))
  {
    KeyHelp();
    NamesAreWords(c);
    ParseCommandFlag(Name(c), "--help");
    NameRoundTrip(c);
  }

  lemma ExampleUnknownCommand(stdin: Stdin)
    ensures Invoke(["notacommand"], stdin) == Failure(UnknownCommand("notacommand"))
  {
    ParseWords(["notacommand"]);
  }

  // Validation.

  lemma ExampleSearchNoQuery(stdin: Stdin)
    requires StdinDocument(stdin).Success?
    ensures Invoke(["search"], stdin) == Failure(Usage(Search))
  {
    ParseWords(["search"]);
    WordsReach(Search, ["search"]);
    SearchChecks(ArgBag(["search"], map[]), stdin);
  }

  lemma ExampleSearchShort(stdin: Stdin)
    requires StdinDocument(stdin).Success?
    ensures Invoke(["search", "short"], stdin) == Failure(QueryTooShort(5))
  {
    ParseWords(["search", "short"]);
    WordsReach(Search, ["search", "short"]);
    assert ["search", "short"][1..] == ["short"];
    SearchChecks(ArgBag(["search", "short"], map[]), stdin);
  }

  lemma ExampleSearchTenCharacters(stdin: Stdin)
    requires StdinDocument(stdin).Success?
    ensures Invoke(["search", "1234567890"], stdin) == Success(Run(Search, [JString("1234567890")], map[]))
  {
    ParseWords(["search", "1234567890"]);
    WordsReach(Search, ["search", "1234567890"]);
    assert ["search", "1234567890"][1..] == ["1234567890"];
    ReachesDispatch(ArgBag(["search", "1234567890"], map[]), stdin, Search, StdinDocument(stdin).value);
  }

  /** Every command that needs an operand refuses to run without one. */
  lemma ExampleNoOperand(c: Command, stdin: Stdin)
    requires NeedsOperand(c) && StdinDocument(stdin).Success?
    ensures Invoke([Name(c)], stdin) == Failure(Usage(c))
  {
    NamesAreWords(c);
    ParseWords([Name(c)]);
    WordsReach(c, [Name(c)]);
    OperandChecks(ArgBag([Name(c)], map[]), stdin, c);
  }

  lemma ExampleFeedbackNoOperands()
    ensures Invoke(["feedback"], Terminal) == Failure(Usage(Feedback))
  {
    ParseWords(["feedback"]);
    WordsReach(Feedback, ["feedback"]);
    FeedbackChecks(ArgBag(["feedback"], map[]), Terminal, map[]);
  }

  lemma ExampleFeedbackOnlyEntry()
    ensures Invoke(["feedback", "k_abc123"], Terminal) == Failure(Usage(Feedback))
  {
    ParseWords(["feedback", "k_abc123"]);
    WordsReach(Feedback, ["feedback", "k_abc123"]);
    FeedbackChecks(ArgBag(["feedback", "k_abc123"], map[]), Terminal, map[]);
  }

  /** An empty document supplies none of the fields `contribute` needs. */
  lemma EmptyLayer(schema: map<string, Path>)
    ensures Layer(map[], schema) == map[]
  {
  }

  // `contribute` from the command line alone.

  /** With nothing on standard input, the fields of `contribute` are the command line's options. */
  lemma CliOnlyContribute(bag: ArgBag, stdin: Stdin)
    requires Reaches(bag, Contribute) && StdinDocument(stdin) == Success(map[])
    ensures var f := CliLayer(bag.options);
      var m := Missing(ContributeRequired, f);
      Resolve(bag, stdin) == if m == [] then Success(Run(Contribute, [], f)) else Failure(MissingRequired(m))
  {
    ReachesDispatch(bag, stdin, Contribute, map[]);
    EmptyLayer(ContributeSchema);
    assert ContributeFields(map[], bag.options) == CliLayer(bag.options);
  }

  lemma MissingStep(name: seq<string>, rest: seq<string>, fields: map<string, Json>)
    requires |name| == 1
    ensures Missing(name + rest, fields) == (if Given(fields, name[0]) then [] else name) + Missing(rest, fields)
  {
    assert (name + rest)[0] == name[0] && (name + rest)[1..] == rest;
  }

  /** The required fields of `contribute` that are missing, in their fixed order. */
  lemma MissingRequiredOf(fields: map<string, Json>)
    ensures Missing(ContributeRequired, fields)
         == (if Given(fields, "title") then [] else ["title"])
          + (if Given(fields, "content") then [] else ["content"])
          + (if Given(fields, "tags") then [] else ["tags"])
  {
    var tail := ["content", "tags"];
    assert ContributeRequired == ["title"] + tail && tail == ["content"] + ["tags"];
    MissingStep(["title"], tail, fields);
    MissingStep(["content"], ["tags"], fields);
    MissingStep(["tags"], [], fields);
  }

  /** Nothing is given when no field is present. */
  lemma {:induction false} MissingFromNothing(names: seq<string>)
    ensures Missing(names, map[]) == names
  {
    if names != [] {
      MissingFromNothing(names[1..]);
      assert [names[0]] + names[1..] == names;
    }
  }

  /** `contribute` with neither options nor a document misses every required field. */
  lemma NoOptionsContribute(bag: ArgBag, stdin: Stdin)
    requires Reaches(bag, Contribute) && bag.options == map[] && StdinDocument(stdin) == Success(map[])
    ensures Resolve(bag, stdin) == Failure(MissingRequired(ContributeRequired))
  {
    CliOnlyContribute(bag, stdin);
    assert CliLayer(bag.options) == map[];
    MissingFromNothing(ContributeRequired);
  }

  /** With no document (an interactive terminal, or empty input), `contribute` alone lacks all three fields. */
  lemma ExampleContributeNothing(stdin: Stdin)
    requires StdinDocument(stdin) == Success(map[])
    ensures Invoke(["contribute"], stdin) == Failure(MissingRequired(["title", "content", "tags"]))
  {
    OnlyCommand(Contribute);
    NoOptionsContribute(ArgBag(["contribute"], map[]), stdin);
  }

  /** A given title and neither content nor tags, with no document, leave content and tags missing. */
  lemma TitleOnlyRun(bag: ArgBag, stdin: Stdin)
    requires Reaches(bag, Contribute) && StdinDocument(stdin) == Success(map[])
    requires Given(CliLayer(bag.options), "title") && "content" !in bag.options && "tags" !in bag.options
    ensures Resolve(bag, stdin) == Failure(MissingRequired(["content", "tags"]))
  {
    CliOnlyContribute(bag, stdin);
    var fields := CliLayer(bag.options);
    assert !Given(fields, "content") && !Given(fields, "tags");
    MissingRequiredOf(fields);
    assert [] + ["content"] + ["tags"] == ["content", "tags"];
  }

  /** A title alone, from option `f` with a non-empty value, leaves content and tags missing. */
  lemma ContributeTitleOnly(stdin: Stdin, f: string, v: string)
    requires StdinDocument(stdin) == Success(map[])
    requires IsFlag(f) && KeyOf(f) == "title" && !IsFlag(v) && v != ""
    ensures Invoke(["contribute", f, v], stdin) == Failure(MissingRequired(["content", "tags"]))
  {
    ParseCommandScalar("contribute", f, v);
    var bag := ArgBag(["contribute"], map["title" := Scalar(v)]);
    assert Reaches(bag, Contribute);
    assert CliLayer(bag.options)["title"] == JString(v);
    TitleOnlyRun(bag, stdin);
  }

  lemma ExampleContributeOnlyTitle(stdin: Stdin)
    requires StdinDocument(stdin) == Success(map[])
    ensures Invoke(["contribute", "--title", "test"], stdin) == Failure(MissingRequired(["content", "tags"]))
  {
    KeyTitle();
    ContributeTitleOnly(stdin, "--title", "test");
  }

  /** Title, content and tags given on the command line, with no document, run `contribute` with the command line's fields. */
  lemma AllGivenRun(bag: ArgBag, stdin: Stdin)
    requires Reaches(bag, Contribute) && StdinDocument(stdin) == Success(map[])
    requires Given(CliLayer(bag.options), "title") && Given(CliLayer(bag.options), "content")
    requires Given(CliLayer(bag.options), "tags")
    ensures Resolve(bag, stdin) == Success(Run(Contribute, [], CliLayer(bag.options)))
  {
    CliOnlyContribute(bag, stdin);
    MissingRequiredOf(CliLayer(bag.options));
  }

  lemma FourOptions(v1: string, v2: string, v3: string, v4: string)
    ensures var options := map["title" := Scalar(v1), "content" := Scalar(v2), "tags" := Scalar(v3), "model" := Scalar(v4)];
      options == map["title" := Scalar(v1)] + (map["content" := Scalar(v2)]
                 + (map["tags" := Scalar(v3)] + (map["model" := Scalar(v4)] + map[])))
  {
  }

  lemma FourFields(v1: string, v2: string, v3: string, v4: string)
    ensures var options := map["title" := Scalar(v1), "content" := Scalar(v2), "tags" := Scalar(v3), "model" := Scalar(v4)];
      CliLayer(options) == map["title" := JString(v1), "content" := JString(v2), "tags" := JString(v3), "model" := JString(v4)]
  {
    var options := map["title" := Scalar(v1), "content" := Scalar(v2), "tags" := Scalar(v3), "model" := Scalar(v4)];
    var r := CliLayer(options);
    assert r.Keys == {"title", "content", "tags", "model"};
    assert r["title"] == JString(v1) && r["content"] == JString(v2) && r["tags"] == JString(v3) && r["model"] == JString(v4);
  }

  lemma FourGiven(v1: string, v2: string, v3: string, v4: string)
    requires v1 != "" && v2 != "" && v3 != ""
    ensures var fields := map["title" := JString(v1), "content" := JString(v2), "tags" := JString(v3), "model" := JString(v4)];
      Given(fields, "title") && Given(fields, "content") && Given(fields, "tags")
  {
  }

  lemma AllOptionsRun(stdin: Stdin, v1: string, v2: string, v3: string, v4: string)
    requires StdinDocument(stdin) == Success(map[]) && v1 != "" && v2 != "" && v3 != ""
    ensures var options := map["title" := Scalar(v1), "content" := Scalar(v2), "tags" := Scalar(v3), "model" := Scalar(v4)];
      Resolve(ArgBag(["contribute"], options), stdin)
        == Success(Run(Contribute, [], map["title" := JString(v1), "content" := JString(v2),
                                            "tags" := JString(v3), "model" := JString(v4)]))
  {
    var bag := ArgBag(["contribute"], map["title" := Scalar(v1), "content" := Scalar(v2), "tags" := Scalar(v3), "model" := Scalar(v4)]);
    assert Reaches(bag, Contribute);
    FourFields(v1, v2, v3, v4);
    FourGiven(v1, v2, v3, v4);
    AllGivenRun(bag, stdin);
  }

  lemma ContributeAllOptions(stdin: Stdin, f1: string, v1: string, f2: string, v2: string,
                             f3: string, v3: string, f4: string, v4: string)
    requires StdinDocument(stdin) == Success(map[])
    requires IsFlag(f1) && KeyOf(f1) == "title" && IsFlag(f2) && KeyOf(f2) == "content"
    requires IsFlag(f3) && KeyOf(f3) == "tags" && IsFlag(f4) && KeyOf(f4) == "model"
    requires !IsFlag(v1) && !IsFlag(v2) && !IsFlag(v3) && !IsFlag(v4) && v1 != "" && v2 != "" && v3 != ""
    ensures Invoke(["contribute", f1, v1, f2, v2, f3, v3, f4, v4], stdin)
         == Success(Run(Contribute, [], map["title" := JString(v1), "content" := JString(v2),
                                             "tags" := JString(v3), "model" := JString(v4)]))
  {
    ParseCommandScalars("contribute", f1, v1, f2, v2, f3, v3, f4, v4);
    FourOptions(v1, v2, v3, v4);
    AllOptionsRun(stdin, v1, v2, v3, v4);
  }

  lemma ExampleContributeAllFlags(stdin: Stdin)
    requires StdinDocument(stdin) == Success(map[])
    ensures Invoke(["contribute", "--title", "T", "--content", "C", "--tags", "a,b", "--model", "m"], stdin)
         == Success(Run(Contribute, [], map["title" := JString("T"), "content" := JString("C"),
                                             "tags" := JString("a,b"), "model" := JString("m")]))
  {
    KeyTitle();
    KeyContent();
    KeyTags();
    KeyModel();
    ContributeAllOptions(stdin, "--title", "T", "--content", "C", "--tags", "a,b", "--model", "m");
  }

  // The stdin merge for `contribute`. Each case holds for every document with the test's entries.

  /**
   * A document whose title, content and tags are given satisfies `contribute`
   * when the command line sets none of the three.
   */
  lemma StdinSatisfiesContribute(bag: ArgBag, text: string, doc: map<string, Json>)
    requires Reaches(bag, Contribute) && text != ""
    requires "title" !in bag.options && "content" !in bag.options && "tags" !in bag.options
    requires "title" in doc && Truthy(doc["title"]) && "content" in doc && Truthy(doc["content"])
    requires "tags" in doc && Truthy(Normalise("tags", doc["tags"]))
    ensures var r := Resolve(bag, Piped(text, Some(JObject(doc))));
      r.Success? && r.value == Run(Contribute, [], ContributeFields(doc, bag.options))
  {
    PipedObject(text, doc);
    ContributeChecks(bag, Piped(text, Some(JObject(doc))), doc);
    DocGives(doc, bag.options, "title");
    DocGives(doc, bag.options, "content");
    DocGives(doc, bag.options, "tags");
  }

  /** A required field the command line does not set is given when the document gives it. */
  lemma DocGives(doc: map<string, Json>, options: map<string, OptionValue>, k: string)
    requires k == "title" || k == "content" || k == "tags"
    requires k !in options && k in doc && Truthy(Normalise(k, doc[k]))
    ensures Given(ContributeFields(doc, options), k)
  {
    assert ContributeSchema[k] == Top(k);
    ContributeFieldSource(doc, options, k);
  }

  /** A command line that is only a command word reaches that command with no options. */
  lemma OnlyCommand(c: Command)
    ensures Parse([Name(c)]) == ArgBag([Name(c)], map[]) && Reaches(ArgBag([Name(c)], map[]), c)
  {
    NamesAreWords(c);
    ParseWords([Name(c)]);
    WordsReach(c, [Name(c)]);
  }

  /** `prior contribute` with a document giving title, content and tags runs with the document's layer. */
  lemma StdinOnlyContribute(text: string, doc: map<string, Json>)
    requires text != ""
    requires "title" in doc && Truthy(doc["title"]) && "content" in doc && Truthy(doc["content"])
    requires "tags" in doc && Truthy(Normalise("tags", doc["tags"]))
    ensures var r := Invoke(["contribute"], Piped(text, Some(JObject(doc))));
      r.Success? && r.value == Run(Contribute, [], Layer(doc, ContributeSchema))
  {
    OnlyCommand(Contribute);
    StdinSatisfiesContribute(ArgBag(["contribute"], map[]), text, doc);
    assert CliLayer(map[]) == map[];
    assert ContributeFields(doc, map[]) == Layer(doc, ContributeSchema);
  }

  /** The array `["a"]` is shown as `a`. */
  lemma TextA()
    ensures Text(JArray([JString("a")])) == "a"
  {
    assert StringItems(["a"]) == [JString("a")];
    StringArrayText(["a"]);
  }

  /** The array `["a", "b"]` is shown as `a,b`. */
  lemma TextAB()
    ensures Text(JArray([JString("a"), JString("b")])) == "a,b"
  {
    assert StringItems(["a", "b"]) == [JString("a"), JString("b")];
    StringArrayText(["a", "b"]);
    assert Join(["a", "b"], ',') == "a,b";
  }

  /** A top-level option of the schema carries the document's value, a tags array joined. */
  lemma TopInLayer(doc: map<string, Json>, schema: map<string, Path>, k: string)
    requires k in schema && schema[k] == Top(k) && k in doc
    ensures k in Layer(doc, schema) && Layer(doc, schema)[k] == Normalise(k, doc[k])
  {
  }

  /** With such a document, a top-level option of `contribute` carries the document's value, a tags array joined. */
  lemma StdinContributeField(text: string, doc: map<string, Json>, k: string)
    requires text != ""
    requires "title" in doc && Truthy(doc["title"]) && "content" in doc && Truthy(doc["content"])
    requires "tags" in doc && Truthy(Normalise("tags", doc["tags"]))
    requires k in ContributeSchema && ContributeSchema[k] == Top(k) && k in doc
    ensures var r := Invoke(["contribute"], Piped(text, Some(JObject(doc))));
      r.Success? && r.value.Run? && k in r.value.fields && r.value.fields[k] == Normalise(k, doc[k])
  {
    StdinOnlyContribute(text, doc);
    TopInLayer(doc, ContributeSchema, k);
  }

  /** The first stdin case: the document alone satisfies `contribute`, and its tags array arrives joined. */
  lemma ExampleStdinContribute(text: string, doc: map<string, Json>)
    requires text != ""
    requires "title" in doc && doc["title"] == JString("T") && "content" in doc && doc["content"] == JString("C")
    requires "tags" in doc && doc["tags"] == JArray([JString("a"), JString("b")])
    requires "model" in doc && doc["model"] == JString("gpt-4")
    ensures var r := Invoke(["contribute"], Piped(text, Some(JObject(doc))));
      && r.Success? && r.value.Run?
      && "tags" in r.value.fields && r.value.fields["tags"] == JString("a,b")
      && "model" in r.value.fields && r.value.fields["model"] == JString("gpt-4")
  {
    TextAB();
    assert ContributeSchema["tags"] == Top("tags") && ContributeSchema["model"] == Top("model");
    StdinContributeField(text, doc, "tags");
    StdinContributeField(text, doc, "model");
  }

  /** The array `["tag1", "tag2", "tag3"]` is shown as `tag1,tag2,tag3`. */
  lemma TextTags123()
    ensures Text(JArray(StringItems(["tag1", "tag2", "tag3"]))) == "tag1,tag2,tag3"
  {
    var xs := ["tag1", "tag2", "tag3"];
    StringArrayText(xs);
    JoinAppend(["tag1", "tag2"], "tag3", ',');
    JoinAppend(["tag1"], "tag2", ',');
    assert xs == ["tag1", "tag2"] + ["tag3"] && ["tag1", "tag2"] == ["tag1"] + ["tag2"];
  }

  /**
   * A three-element tags array satisfies `contribute`, arrives as `tag1,tag2,tag3`,
   * and acts exactly like that comma-joined string in the document.
   */
  lemma ExampleStdinTagsArray(text: string, doc: map<string, Json>)
    requires text != ""
    requires "title" in doc && doc["title"] == JString("T") && "content" in doc && doc["content"] == JString("C")
    requires "tags" in doc && doc["tags"] == JArray(StringItems(["tag1", "tag2", "tag3"]))
    ensures var r := Invoke(["contribute"], Piped(text, Some(JObject(doc))));
      && r.Success? && r.value.Run?
      && "tags" in r.value.fields && r.value.fields["tags"] == JString("tag1,tag2,tag3")
      && r == Invoke(["contribute"], Piped(text, Some(JObject(doc["tags" := JString("tag1,tag2,tag3")]))))
  {
    var xs := ["tag1", "tag2", "tag3"];
    TextTags123();
    assert ContributeSchema["tags"] == Top("tags");
    StdinContributeField(text, doc, "tags");
    assert doc["tags" := JArray(StringItems(xs))] == doc;
    OnlyCommand(Contribute);
    TagsArrayAsString(ArgBag(["contribute"], map[]), text, doc, xs);
  }

  /** A title set on the command line beats the document's, which then has to supply content and tags. */
  lemma TitleOverStdinRun(bag: ArgBag, text: string, doc: map<string, Json>, v: string)
    requires Reaches(bag, Contribute) && text != "" && v != ""
    requires "title" in bag.options && bag.options["title"] == Scalar(v)
    requires "content" !in bag.options && "tags" !in bag.options
    requires "content" in doc && Truthy(doc["content"])
    requires "tags" in doc && Truthy(Normalise("tags", doc["tags"]))
    ensures var r := Resolve(bag, Piped(text, Some(JObject(doc))));
      r.Success? && r.value.Run? && "title" in r.value.fields && r.value.fields["title"] == JString(v)
  {
    var stdin := Piped(text, Some(JObject(doc)));
    PipedObject(text, doc);
    ContributeChecks(bag, stdin, doc);
    ContributeFieldSource(doc, bag.options, "title");
    DocGives(doc, bag.options, "content");
    DocGives(doc, bag.options, "tags");
  }

  /** A command-line title, from option `f`, beats the document's. */
  lemma CliTitleOverStdin(text: string, doc: map<string, Json>, f: string, v: string)
    requires text != "" && IsFlag(f) && KeyOf(f) == "title" && !IsFlag(v) && v != ""
    requires "content" in doc && Truthy(doc["content"])
    requires "tags" in doc && Truthy(Normalise("tags", doc["tags"]))
    ensures var r := Invoke(["contribute", f, v], Piped(text, Some(JObject(doc))));
      r.Success? && r.value.Run? && "title" in r.value.fields && r.value.fields["title"] == JString(v)
  {
    ParseCommandScalar("contribute", f, v);
    var bag := ArgBag(["contribute"], map["title" := Scalar(v)]);
    assert Reaches(bag, Contribute);
    TitleOverStdinRun(bag, text, doc, v);
  }

  lemma ExampleCliOverridesStdin(text: string, doc: map<string, Json>)
    requires text != ""
    requires "title" in doc && doc["title"] == JString("StdinTitle") && "content" in doc && doc["content"] == JString("C")
    requires "tags" in doc && doc["tags"] == JArray([JString("a")])
    ensures var r := Invoke(["contribute", "--title", "CLITitle"], Piped(text, Some(JObject(doc))));
      r.Success? && r.value.Run? && "title" in r.value.fields && r.value.fields["title"] == JString("CLITitle")
  {
    KeyTitle();
    TextA();
    CliTitleOverStdin(text, doc, "--title", "CLITitle");
  }

  lemma ExampleStdinTagsString(text: string, doc: map<string, Json>)
    requires text != ""
    requires "title" in doc && doc["title"] == JString("T") && "content" in doc && doc["content"] == JString("C")
    requires "tags" in doc && doc["tags"] == JString("already,a,string")
    ensures var r := Invoke(["contribute"], Piped(text, Some(JObject(doc))));
      r.Success? && r.value.Run? && "tags" in r.value.fields && r.value.fields["tags"] == JString("already,a,string")
  {
    StdinOnlyContribute(text, doc);
    assert ContributeSchema["tags"] == Top("tags");
  }

  /** An option read from a member of a nested object carries that member's value, a tags array joined. */
  lemma NestedInLayer(doc: map<string, Json>, schema: map<string, Path>, inner: map<string, Json>,
                      k: string, group: string, key: string)
    requires k in schema && schema[k] == Nested(group, key)
    requires group in doc && doc[group] == JObject(inner) && key in inner
    ensures k in Layer(doc, schema) && Layer(doc, schema)[k] == Normalise(k, inner[key])
  {
  }

  /** The effort object's members arrive as fields of their own names. */
  lemma ExampleStdinEffort(text: string, doc: map<string, Json>, effort: map<string, Json>)
    requires text != ""
    requires "title" in doc && doc["title"] == JString("T") && "content" in doc && doc["content"] == JString("C")
    requires "tags" in doc && doc["tags"] == JArray([JString("a")])
    requires "effort" in doc && doc["effort"] == JObject(effort)
    requires "tokensUsed" in effort && effort["tokensUsed"] == JNumber("1000")
    requires "durationSeconds" in effort && effort["durationSeconds"] == JNumber("60")
    requires "toolCalls" in effort && effort["toolCalls"] == JNumber("5")
    ensures var r := Invoke(["contribute"], Piped(text, Some(JObject(doc))));
      && r.Success? && r.value.Run?
      && "tokensUsed" in r.value.fields && r.value.fields["tokensUsed"] == JNumber("1000")
      && "durationSeconds" in r.value.fields && r.value.fields["durationSeconds"] == JNumber("60")
      && "toolCalls" in r.value.fields && r.value.fields["toolCalls"] == JNumber("5")
  {
    TextA();
    StdinOnlyContribute(text, doc);
    NestedInLayer(doc, ContributeSchema, effort, "tokensUsed", "effort", "tokensUsed");
    NestedInLayer(doc, ContributeSchema, effort, "durationSeconds", "effort", "durationSeconds");
    NestedInLayer(doc, ContributeSchema, effort, "toolCalls", "effort", "toolCalls");
  }

  lemma ExampleStdinEnvironment(text: string, doc: map<string, Json>, environment: map<string, Json>)
    requires text != ""
    requires "title" in doc && doc["title"] == JString("T") && "content" in doc && doc["content"] == JString("C")
    requires "tags" in doc && doc["tags"] == JArray([JString("a")])
    requires "environment" in doc && doc["environment"] == JObject(environment)
    requires "language" in environment && environment["language"] == JString("python")
    requires "os" in environment && environment["os"] == JString("linux")
    ensures var r := Invoke(["contribute"], Piped(text, Some(JObject(doc))));
      && r.Success? && r.value.Run?
      && "language" in r.value.fields && r.value.fields["language"] == JString("python")
      && "os" in r.value.fields && r.value.fields["os"] == JString("linux")
  {
    TextA();
    StdinOnlyContribute(text, doc);
    NestedInLayer(doc, ContributeSchema, environment, "language", "environment", "language");
    NestedInLayer(doc, ContributeSchema, environment, "os", "environment", "os");
  }

  lemma ExampleStdinTtl(text: string, doc: map<string, Json>)
    requires text != ""
    requires "title" in doc && doc["title"] == JString("T") && "content" in doc && doc["content"] == JString("C")
    requires "tags" in doc && doc["tags"] == JArray([JString("a")])
    requires "ttl" in doc && doc["ttl"] == JString("30d")
    ensures var r := Invoke(["contribute"], Piped(text, Some(JObject(doc))));
      r.Success? && r.value.Run? && "ttl" in r.value.fields && r.value.fields["ttl"] == JString("30d")
  {
    assert ContributeSchema["ttl"] == Top("ttl");
    TextA();
    StdinContributeField(text, doc, "ttl");
  }

  // The stdin merge for `feedback`.

  /** With no command-line operands, the document supplies both. */
  lemma FeedbackFromDocument(doc: map<string, Json>)
    requires GivenOperand(Or(Field(doc, "entryId"), Field(doc, "id"))) && GivenOperand(Field(doc, "outcome"))
    ensures FeedbackRun([], doc, map[])
         == Success(Run(Feedback, [Or(Field(doc, "entryId"), Field(doc, "id")).value, Field(doc, "outcome").value],
                        Layer(doc, FeedbackSchema)))
  {
    assert CliLayer(map[]) == map[];
    var slots := OverlayOperands([], FeedbackSlots(doc));
    assert slots == FeedbackSlots(doc);
    assert FeedbackFields(doc, map[]) == Layer(doc, FeedbackSchema);
  }

  /** `prior feedback` with a document giving both operands runs with them and the document's layer. */
  lemma StdinOnlyFeedback(text: string, doc: map<string, Json>)
    requires text != ""
    requires GivenOperand(Or(Field(doc, "entryId"), Field(doc, "id"))) && GivenOperand(Field(doc, "outcome"))
    ensures var r := Invoke(["feedback"], Piped(text, Some(JObject(doc))));
      r.Success? && r.value == Run(Feedback, [Or(Field(doc, "entryId"), Field(doc, "id")).value, Field(doc, "outcome").value],
                                   Layer(doc, FeedbackSchema))
  {
    var bag := ArgBag(["feedback"], map[]);
    var stdin := Piped(text, Some(JObject(doc)));
    OnlyCommand(Feedback);
    PipedObject(text, doc);
    ReachesDispatch(bag, stdin, Feedback, doc);
    assert bag.positionals[1..] == [];
    FeedbackFromDocument(doc);
  }

  /** Both operands of `feedback` may come from the document. */
  lemma ExampleStdinFeedback(text: string, doc: map<string, Json>)
    requires text != ""
    requires "entryId" in doc && doc["entryId"] == JString("k_abc123")
    requires "outcome" in doc && doc["outcome"] == JString("useful")
    ensures var r := Invoke(["feedback"], Piped(text, Some(JObject(doc))));
      r.Success? && r.value.operands == [JString("k_abc123"), JString("useful")]
  {
    StdinOnlyFeedback(text, doc);
  }

  /** `id` stands in for a missing `entryId`. */
  lemma ExampleStdinIdAlias(text: string, doc: map<string, Json>)
    requires text != ""
    requires "entryId" !in doc && "id" in doc && doc["id"] == JString("k_abc123")
    requires "outcome" in doc && doc["outcome"] == JString("useful")
    ensures var r := Invoke(["feedback"], Piped(text, Some(JObject(doc))));
      r.Success? && r.value.operands == [JString("k_abc123"), JString("useful")]
  {
    StdinOnlyFeedback(text, doc);
  }

  /** Command-line operands beat the document's. */
  lemma ExamplePositionalsOverrideStdin(text: string, doc: map<string, Json>)
    requires text != ""
    requires "entryId" in doc && doc["entryId"] == JString("k_stdin")
    requires "outcome" in doc && doc["outcome"] == JString("not_useful")
    ensures var r := Invoke(["feedback", "k_cli", "useful"], Piped(text, Some(JObject(doc))));
      r.Success? && r.value.operands == [JString("k_cli"), JString("useful")]
  {
    var bag := ArgBag(["feedback", "k_cli", "useful"], map[]);
    ParseWords(["feedback", "k_cli", "useful"]);
    WordsReach(Feedback, ["feedback", "k_cli", "useful"]);
    PipedObject(text, doc);
    FeedbackChecks(bag, Piped(text, Some(JObject(doc))), doc);
  }

  /** The array `["t1", "t2"]` is shown as `t1,t2`. */
  lemma TextT1T2()
    ensures Text(JArray([JString("t1"), JString("t2")])) == "t1,t2"
  {
    assert StringItems(["t1", "t2"]) == [JString("t1"), JString("t2")];
    StringArrayText(["t1", "t2"]);
    assert Join(["t1", "t2"], ',') == "t1,t2";
  }

  /** The correction object's members arrive as `correction…` fields, its tags joined, next to `reason`. */
  lemma ExampleStdinCorrection(text: string, doc: map<string, Json>, correction: map<string, Json>)
    requires text != ""
    requires "entryId" in doc && doc["entryId"] == JString("k_abc")
    requires "outcome" in doc && doc["outcome"] == JString("not_useful")
    requires "reason" in doc && doc["reason"] == JString("wrong")
    requires "correction" in doc && doc["correction"] == JObject(correction)
    requires "content" in correction && correction["content"] == JString("fixed")
    requires "title" in correction && correction["title"] == JString("Fixed Title")
    requires "tags" in correction && correction["tags"] == JArray([JString("t1"), JString("t2")])
    ensures var r := Invoke(["feedback"], Piped(text, Some(JObject(doc))));
      && r.Success? && r.value.Run?
      && "reason" in r.value.fields && r.value.fields["reason"] == JString("wrong")
      && "correctionContent" in r.value.fields && r.value.fields["correctionContent"] == JString("fixed")
      && "correctionTags" in r.value.fields && r.value.fields["correctionTags"] == JString("t1,t2")
  {
    StdinOnlyFeedback(text, doc);
    TextT1T2();
    NestedInLayer(doc, FeedbackSchema, correction, "correctionContent", "correction", "content");
    NestedInLayer(doc, FeedbackSchema, correction, "correctionTags", "correction", "tags");
    assert FeedbackSchema["reason"] == Top("reason");
  }

  lemma ExampleStdinReasonNotes(text: string, doc: map<string, Json>)
    requires text != ""
    requires "entryId" in doc && doc["entryId"] == JString("k_abc")
    requires "outcome" in doc && doc["outcome"] == JString("not_useful")
    requires "reason" in doc && doc["reason"] == JString("outdated")
    requires "notes" in doc && doc["notes"] == JString("some note")
    ensures var r := Invoke(["feedback"], Piped(text, Some(JObject(doc))));
      && r.Success? && r.value.Run?
      && "reason" in r.value.fields && r.value.fields["reason"] == JString("outdated")
      && "notes" in r.value.fields && r.value.fields["notes"] == JString("some note")
  {
    StdinOnlyFeedback(text, doc);
    assert FeedbackSchema["reason"] == Top("reason") && FeedbackSchema["notes"] == Top("notes");
  }

  // Edge cases of standard input.

  lemma ExampleInvalidJson()
    ensures Invoke(["contribute"], Piped("not json{", None)) == Failure(InvalidJson)
  {
    OnlyCommand(Contribute);
    InvalidJsonExactly(ArgBag(["contribute"], map[]), Piped("not json{", None));
  }

  /** Input that is not JSON stops any command before it runs, `search` included. */
  lemma ExampleSearchInvalidJson()
    ensures Invoke(["search", "1234567890"], Piped("not json{", None)) == Failure(InvalidJson)
  {
    ParseWords(["search", "1234567890"]);
    WordsReach(Search, ["search", "1234567890"]);
    InvalidJsonExactly(ArgBag(["search", "1234567890"], map[]), Piped("not json{", None));
  }

  lemma ExampleEmptyStdin()
    ensures Invoke(["contribute"], Piped("", None)) == Failure(MissingRequired(["title", "content", "tags"]))
  {
    ExampleContributeNothing(Piped("", None));
  }
}
