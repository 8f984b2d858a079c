/**
 * What the resolver promises: the order of its decisions, the stdin merge
 * (command line over document, tags array as comma text, `id` as an alias of
 * `entryId`, operands index by index) and each command's checks.
 */
module ResolveProperties {
  import opened Wrappers
  import opened Strings
  import opened Args
  import opened JsonValues
  import opened Resolver

  /** Command names and commands correspond one to one. */
  lemma NameRoundTrip(c: Command)
    ensures CommandOf(Name(c)) == Some(c)
  {
  }

  /** The invocation gets past the version, help and command-name checks and names command `c`. */
  predicate Reaches(bag: ArgBag, c: Command)
  {
    && !WantsVersion(bag)
    && bag.positionals != []
    && CommandOf(bag.positionals[0]) == Some(c)
    && !Set(bag.options, "help")
  }

  /** The invocation gets past the version, help and command-name checks, so standard input is read. */
  predicate ReadsStdin(bag: ArgBag)
  {
    && !WantsVersion(bag)
    && bag.positionals != []
    && CommandOf(bag.positionals[0]).Some?
    && !Set(bag.options, "help")
  }

  /** Once command `c` is reached and standard input gives a document, the result is what the command's checks decide. */
  lemma ReachesDispatch(bag: ArgBag, stdin: Stdin, c: Command, doc: map<string, Json>)
    requires Reaches(bag, c) && StdinDocument(stdin) == Success(doc)
    ensures Resolve(bag, stdin) == Dispatch(c, bag.positionals[1..], bag.options, doc)
  {
  }

  /** A non-empty piped object is the document. */
  lemma PipedObject(text: string, doc: map<string, Json>)
    requires text != ""
    ensures StdinDocument(Piped(text, Some(JObject(doc)))) == Success(doc)
  {
  }

  /** The version request comes first, whatever else the command line or standard input says. */
  lemma VersionFirst(bag: ArgBag, stdin: Stdin)
    ensures Resolve(bag, stdin) == Success(ShowVersion) <==> WantsVersion(bag)
  {
  }

  /** With no command the general help is shown; with `--help` or `-h` after a command, that command's help. */
  lemma HelpTopics(bag: ArgBag, stdin: Stdin)
    requires !WantsVersion(bag)
    ensures bag.positionals == [] ==> Resolve(bag, stdin) == Success(ShowHelp(None))
    ensures bag.positionals != [] && CommandOf(bag.positionals[0]).Some? && Set(bag.options, "help")
            ==> Resolve(bag, stdin) == Success(ShowHelp(CommandOf(bag.positionals[0])))
  {
  }

  /** An unknown first positional is reported by name, and nothing else is. */
  lemma UnknownCommandExactly(bag: ArgBag, stdin: Stdin, name: string)
    ensures Resolve(bag, stdin) == Failure(UnknownCommand(name))
        <==> !WantsVersion(bag) && bag.positionals != [] && CommandOf(bag.positionals[0]).None?
             && name == bag.positionals[0]
  {
  }

  /** Before a command is reached, standard input is not read: the version and help requests and an unknown name ignore it. */
  lemma StdinUnread(bag: ArgBag, s1: Stdin, s2: Stdin)
    requires !ReadsStdin(bag)
    ensures Resolve(bag, s1) == Resolve(bag, s2)
  {
  }

  /** Commands other than `contribute` and `feedback` read standard input but do not use its document. */
  lemma DocumentIgnored(bag: ArgBag, s1: Stdin, s2: Stdin, c: Command)
    requires Reaches(bag, c) && c != Contribute && c != Feedback
    requires StdinDocument(s1).Success? && StdinDocument(s2).Success?
    ensures Resolve(bag, s1) == Resolve(bag, s2)
  {
  }

  /** Empty piped input is no document: it behaves exactly like an interactive terminal. */
  lemma EmptyStdinIsAbsent(bag: ArgBag, parsed: Option<Json>)
    ensures Resolve(bag, Piped("", parsed)) == Resolve(bag, Terminal)
  {
  }

  /**
   * `Invalid JSON` is reported exactly when a known command is reached and gets
   * non-empty input that does not parse, whichever command it is; so such input
   * never reaches a command's own checks such as `Missing required`.
   */
  lemma InvalidJsonExactly(bag: ArgBag, stdin: Stdin)
    ensures Resolve(bag, stdin) == Failure(InvalidJson)
        <==> ReadsStdin(bag) && stdin.Piped? && stdin.text != "" && stdin.parsed.None?
  {
    if !ReadsStdin(bag) {
      StdinUnread(bag, stdin, Terminal);
    }
  }

  /** Where a `contribute` field comes from: the command line when it sets the option, else the document. */
  lemma ContributeFieldSource(doc: map<string, Json>, options: map<string, OptionValue>, k: string)
    ensures k in ContributeFields(doc, options)
        <==> k in options || (k in ContributeSchema && Lookup(doc, ContributeSchema[k]).Some?)
    ensures k in options ==> ContributeFields(doc, options)[k] == OptionJson(options[k])
    ensures k !in options && k in ContributeSchema && Lookup(doc, ContributeSchema[k]).Some?
            ==> ContributeFields(doc, options)[k] == Normalise(k, Lookup(doc, ContributeSchema[k]).value)
  {
  }

  /** Where a `feedback` field comes from: the command line when it sets the option, else the document. */
  lemma FeedbackFieldSource(doc: map<string, Json>, options: map<string, OptionValue>, k: string)
    ensures k in FeedbackFields(doc, options)
        <==> k in options || (k in FeedbackSchema && Lookup(doc, FeedbackSchema[k]).Some?)
    ensures k in options ==> FeedbackFields(doc, options)[k] == OptionJson(options[k])
    ensures k !in options && k in FeedbackSchema && Lookup(doc, FeedbackSchema[k]).Some?
            ==> FeedbackFields(doc, options)[k] == Normalise(k, Lookup(doc, FeedbackSchema[k]).value)
  {
  }

  /**
   * `contribute` runs exactly when title, content and tags are all given after
   * the merge; otherwise it reports precisely the missing ones.
   */
  lemma ContributeChecks(bag: ArgBag, stdin: Stdin, doc: map<string, Json>)
    requires Reaches(bag, Contribute) && StdinDocument(stdin) == Success(doc)
    ensures var r := Resolve(bag, stdin);
      var f := ContributeFields(doc, bag.options);
      && (r.Success? <==> Given(f, "title") && Given(f, "content") && Given(f, "tags"))
      && (r.Success? ==> r.value == Run(Contribute, [], f))
      && (r.Failure? ==> r.error.MissingRequired?)
      && (r.Failure? ==> forall k :: k in r.error.fields <==> k in ContributeRequired && !Given(f, k))
  {
    assert Resolve(bag, stdin) == ContributeRun(doc, bag.options);
    MissingExactly(ContributeRequired, ContributeFields(doc, bag.options));
  }

  /**
   * `search` joins its words with spaces: no text is a usage error, fewer than
   * ten characters is too short, and ten or more runs the query.
   */
  lemma SearchChecks(bag: ArgBag, stdin: Stdin)
    requires Reaches(bag, Search) && StdinDocument(stdin).Success?
    ensures var q := Join(bag.positionals[1..], ' ');
      var r := Resolve(bag, stdin);
      && (r == Failure(Usage(Search)) <==> q == "")
      && (r == Failure(QueryTooShort(|q|)) <==> 0 < |q| < MinQueryLength)
      && (r.Success? <==> |q| >= MinQueryLength)
      && (r.Success? ==> r.value == Run(Search, [JString(q)], CliLayer(bag.options)))
  {
    ReachesDispatch(bag, stdin, Search, StdinDocument(stdin).value);
  }

  /** `get`, `retract`, `claim` and `verify` stop with their usage exactly when the operand is missing or empty. */
  lemma OperandChecks(bag: ArgBag, stdin: Stdin, c: Command)
    requires NeedsOperand(c) && Reaches(bag, c) && StdinDocument(stdin).Success?
    ensures var p := bag.positionals;
      var r := Resolve(bag, stdin);
      && (r == Failure(Usage(c)) <==> |p| < 2 || p[1] == "")
      && (r.Failure? ==> r == Failure(Usage(c)))
      && (r.Success? ==> r.value == Run(c, StringItems(p[1..]), CliLayer(bag.options)))
  {
    ReachesDispatch(bag, stdin, c, StdinDocument(stdin).value);
  }

  /** `status` and `credits` have no checks: they always run. */
  lemma PlainCommandsRun(bag: ArgBag, stdin: Stdin, c: Command)
    requires (c == Status || c == Credits) && Reaches(bag, c) && StdinDocument(stdin).Success?
    ensures Resolve(bag, stdin) == Success(Run(c, StringItems(bag.positionals[1..]), CliLayer(bag.options)))
  {
    ReachesDispatch(bag, stdin, c, StdinDocument(stdin).value);
  }

  /** The entry and the outcome `feedback` ends up with: a command-line operand, else the document's. */
  function FeedbackOperand(bag: ArgBag, doc: map<string, Json>, i: nat): Option<Json>
    requires i < 2 && bag.positionals != []
  {
    if i + 1 < |bag.positionals| then Some(JString(bag.positionals[i + 1])) else FeedbackSlots(doc)[i]
  }

  /**
   * `feedback` runs exactly when both operands are given after the merge,
   * and runs with them; a command-line operand beats the document at its index.
   */
  lemma FeedbackChecks(bag: ArgBag, stdin: Stdin, doc: map<string, Json>)
    requires Reaches(bag, Feedback) && StdinDocument(stdin) == Success(doc)
    ensures var r := Resolve(bag, stdin);
      var e := FeedbackOperand(bag, doc, 0);
      var o := FeedbackOperand(bag, doc, 1);
      && (r.Success? <==> GivenOperand(e) && GivenOperand(o))
      && (r.Failure? ==> r == Failure(Usage(Feedback)))
      && (r.Success? ==> r.value == Run(Feedback, [e.value, o.value], FeedbackFields(doc, bag.options)))
  {
    var ops := bag.positionals[1..];
    var slots := OverlayOperands(ops, FeedbackSlots(doc));
    assert Resolve(bag, stdin) == FeedbackRun(ops, doc, bag.options);
    assert slots[0] == FeedbackOperand(bag, doc, 0);
    assert slots[1] == FeedbackOperand(bag, doc, 1);
  }

  /** The path does not read the top-level key `key`. */
  predicate PathAvoids(path: Path, key: string)
  {
    match path
    case Top(k) => k != key
    case Nested(group, _) => group != key
  }

  /** Option `k` of the schema gets the same stdin-layer value from both documents. */
  predicate SameEntry(d1: map<string, Json>, d2: map<string, Json>, schema: map<string, Path>, k: string)
    requires k in schema
  {
    var a := Lookup(d1, schema[k]);
    var b := Lookup(d2, schema[k]);
    a.Some? == b.Some? && (a.Some? ==> Normalise(k, a.value) == Normalise(k, b.value))
  }

  lemma SameLayer(d1: map<string, Json>, d2: map<string, Json>, schema: map<string, Path>)
    requires forall k :: k in schema ==> SameEntry(d1, d2, schema, k)
    ensures Layer(d1, schema) == Layer(d2, schema)
  {
  }

  /** Writing a key that a path avoids does not change what the path finds. */
  lemma LookupAvoids(doc: map<string, Json>, path: Path, key: string, v: Json)
    requires PathAvoids(path, key)
    ensures Lookup(doc[key := v], path) == Lookup(doc, path)
  {
  }

  lemma ContributeSchemaPaths()
    ensures forall k :: k in ContributeSchema && k != "tags" ==> PathAvoids(ContributeSchema[k], "tags")
    ensures forall k :: k in ContributeSchema ==> PathAvoids(ContributeSchema[k], "id")
    ensures forall k :: k in ContributeSchema ==> PathAvoids(ContributeSchema[k], "entryId")
    ensures ContributeSchema["tags"] == Top("tags")
  {
  }

  lemma FeedbackSchemaPaths()
    ensures forall k :: k in FeedbackSchema ==> PathAvoids(FeedbackSchema[k], "tags")
    ensures forall k :: k in FeedbackSchema ==> PathAvoids(FeedbackSchema[k], "id")
    ensures forall k :: k in FeedbackSchema ==> PathAvoids(FeedbackSchema[k], "entryId")
  {
  }

  /** A document key that no path of the schema reads leaves the stdin layer as it is. */
  lemma LayerAvoids(doc: map<string, Json>, schema: map<string, Path>, key: string, v: Json)
    requires forall k :: k in schema ==> PathAvoids(schema[k], key)
    ensures Layer(doc[key := v], schema) == Layer(doc, schema)
  {
    forall k | k in schema
      ensures SameEntry(doc[key := v], doc, schema, k)
    {
      LookupAvoids(doc, schema[k], key, v);
    }
    SameLayer(doc[key := v], doc, schema);
  }

  /** The feedback operands agree wherever one of them is given. */
  predicate SameSlots(d1: map<string, Json>, d2: map<string, Json>)
  {
    forall i :: 0 <= i < 2 ==>
      GivenOperand(FeedbackSlots(d1)[i]) == GivenOperand(FeedbackSlots(d2)[i])
      && (GivenOperand(FeedbackSlots(d1)[i]) ==> FeedbackSlots(d1)[i] == FeedbackSlots(d2)[i])
  }

  lemma SameFeedbackRun(ops: seq<string>, d1: map<string, Json>, d2: map<string, Json>, options: map<string, OptionValue>)
    requires Layer(d1, FeedbackSchema) == Layer(d2, FeedbackSchema) && SameSlots(d1, d2)
    ensures FeedbackRun(ops, d1, options) == FeedbackRun(ops, d2, options)
  {
    var a := OverlayOperands(ops, FeedbackSlots(d1));
    var b := OverlayOperands(ops, FeedbackSlots(d2));
    assert GivenOperand(a[0]) == GivenOperand(b[0]) && (GivenOperand(a[0]) ==> a[0] == b[0]);
    assert GivenOperand(a[1]) == GivenOperand(b[1]) && (GivenOperand(a[1]) ==> a[1] == b[1]);
  }

  lemma SameContributeRun(d1: map<string, Json>, d2: map<string, Json>, options: map<string, OptionValue>)
    requires Layer(d1, ContributeSchema) == Layer(d2, ContributeSchema)
    ensures ContributeRun(d1, options) == ContributeRun(d2, options)
  {
    assert ContributeFields(d1, options) == ContributeFields(d2, options);
  }

  /** Two documents that agree on both stdin layers and on the feedback operands resolve alike. */
  lemma SameDocuments(bag: ArgBag, text: string, d1: map<string, Json>, d2: map<string, Json>)
    requires Layer(d1, ContributeSchema) == Layer(d2, ContributeSchema)
    requires Layer(d1, FeedbackSchema) == Layer(d2, FeedbackSchema)
    requires SameSlots(d1, d2)
    ensures Resolve(bag, Piped(text, Some(JObject(d1)))) == Resolve(bag, Piped(text, Some(JObject(d2))))
  {
    var s1 := Piped(text, Some(JObject(d1)));
    var s2 := Piped(text, Some(JObject(d2)));
    if text == "" {
      EmptyStdinIsAbsent(bag, s1.parsed);
      EmptyStdinIsAbsent(bag, s2.parsed);
    } else if Reaches(bag, Feedback) {
      var ops := bag.positionals[1..];
      PipedObject(text, d1);
      PipedObject(text, d2);
      ReachesDispatch(bag, s1, Feedback, d1);
      ReachesDispatch(bag, s2, Feedback, d2);
      SameFeedbackRun(ops, d1, d2, bag.options);
    } else if Reaches(bag, Contribute) {
      var ops := bag.positionals[1..];
      PipedObject(text, d1);
      PipedObject(text, d2);
      ReachesDispatch(bag, s1, Contribute, d1);
      ReachesDispatch(bag, s2, Contribute, d2);
      SameContributeRun(d1, d2, bag.options);
    } else if ReadsStdin(bag) {
      PipedObject(text, d1);
      PipedObject(text, d2);
      DocumentIgnored(bag, s1, s2, CommandOf(bag.positionals[0]).value);
    } else {
      StdinUnread(bag, s1, s2);
    }
  }

  /** A `tags` array on standard input acts exactly like the comma-joined string of its elements. */
  lemma TagsArrayAsString(bag: ArgBag, text: string, doc: map<string, Json>, xs: seq<string>)
    ensures Resolve(bag, Piped(text, Some(JObject(doc["tags" := JArray(StringItems(xs))]))))
         == Resolve(bag, Piped(text, Some(JObject(doc["tags" := JString(Join(xs, ','))]))))
  {
    var d1 := doc["tags" := JArray(StringItems(xs))];
    var d2 := doc["tags" := JString(Join(xs, ','))];
    ContributeSchemaPaths();
    FeedbackSchemaPaths();
    StringArrayText(xs);
    forall k | k in ContributeSchema
      ensures SameEntry(d1, d2, ContributeSchema, k)
    {
      if k != "tags" {
        LookupAvoids(doc, ContributeSchema[k], "tags", JArray(StringItems(xs)));
        LookupAvoids(doc, ContributeSchema[k], "tags", JString(Join(xs, ',')));
      }
    }
    SameLayer(d1, d2, ContributeSchema);
    LayerAvoids(doc, FeedbackSchema, "tags", JArray(StringItems(xs)));
    LayerAvoids(doc, FeedbackSchema, "tags", JString(Join(xs, ',')));
    assert FeedbackSlots(d1) == FeedbackSlots(d2);
    SameDocuments(bag, text, d1, d2);
  }

  /** On standard input, `id` stands in for a missing `entryId`: either key gives the same result. */
  lemma IdAlias(bag: ArgBag, text: string, doc: map<string, Json>, v: Json)
    requires "entryId" !in doc && "id" !in doc
    ensures Resolve(bag, Piped(text, Some(JObject(doc["id" := v]))))
         == Resolve(bag, Piped(text, Some(JObject(doc["entryId" := v]))))
  {
    var d1 := doc["id" := v];
    var d2 := doc["entryId" := v];
    ContributeSchemaPaths();
    FeedbackSchemaPaths();
    LayerAvoids(doc, ContributeSchema, "id", v);
    LayerAvoids(doc, ContributeSchema, "entryId", v);
    LayerAvoids(doc, FeedbackSchema, "id", v);
    LayerAvoids(doc, FeedbackSchema, "entryId", v);
    assert FeedbackSlots(d1)[1] == FeedbackSlots(d2)[1];
    SameDocuments(bag, text, d1, d2);
  }
}
