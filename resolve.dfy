/**
 * The stdin merge and the checks made before a command is dispatched.
 *
 * `Resolve` takes the parsed command line and what standard input held and
 * decides what the `prior` command line does: print its version, print a help
 * text, stop with an error, or run a command with its operands and fields.
 * Once a command is named and no help is asked for, standard input is read;
 * non-empty input that is not JSON stops every command with `Invalid JSON`
 * before it runs. Only `contribute` and `feedback` use the document: it is
 * the base layer and the command line is laid over it, so a value given on
 * the command line always wins.
 */
module Resolver {
  import opened Wrappers
  import opened Strings
  import opened Args
  import opened JsonValues

  datatype Command = Search | Contribute | Feedback | Get | Retract | Status | Credits | Claim | Verify

  function Name(c: Command): string
  {
    match c
    case Search => "search"
    case Contribute => "contribute"
    case Feedback => "feedback"
    case Get => "get"
    case Retract => "retract"
    case Status => "status"
    case Credits => "credits"
    case Claim => "claim"
    case Verify => "verify"
  }

  /** The command a first positional names, if any. */
  function CommandOf(name: string): (r: Option<Command>)
    ensures r.Some? ==> Name(r.value) == name
    ensures r.None? ==> forall c: Command :: Name(c) != name
  {
    if name == "search" then Some(Search)
    else if name == "contribute" then Some(Contribute)
    else if name == "feedback" then Some(Feedback)
    else if name == "get" then Some(Get)
    else if name == "retract" then Some(Retract)
    else if name == "status" then Some(Status)
    else if name == "credits" then Some(Credits)
    else if name == "claim" then Some(Claim)
    else if name == "verify" then Some(Verify)
    else None
  }

  /** What standard input held: an interactive terminal, or piped text and what parsing it as JSON gave. */
  datatype Stdin = Terminal | Piped(text: string, parsed: Option<Json>)

  datatype CliError =
    | Usage(command: Command)
    | QueryTooShort(length: nat)
    | MissingRequired(fields: seq<string>)
    | InvalidJson
    | UnknownCommand(name: string)

  datatype Invocation =
    | ShowVersion
    | ShowHelp(topic: Option<Command>)
    | Run(command: Command, operands: seq<Json>, fields: map<string, Json>)

  const MinQueryLength: nat := 10

  const ContributeRequired: seq<string> := ["title", "content", "tags"]

  /** The top-level object of standard input; empty or interactive input is no document, which reads as `{}`. */
  function StdinDocument(stdin: Stdin): (r: Result<map<string, Json>, CliError>)
    ensures r.Failure? <==> stdin.Piped? && stdin.text != "" && stdin.parsed.None?
    ensures r.Failure? ==> r.error == InvalidJson
    ensures stdin.Terminal? || stdin.text == "" ==> r == Success(map[])
  {
    match stdin
    case Terminal => Success(map[])
    case Piped(text, parsed) =>
      if text == "" then Success(map[])
      else match parsed
        case None => Failure(InvalidJson)
        case Some(JObject(fields)) => Success(fields)
        case Some(_) => Success(map[])
  }

  /** Where an option's value sits in the document: a top-level key, or a key of a nested object. */
  datatype Path = Top(key: string) | Nested(group: string, key: string)

  /** The stdin schema of `contribute`, from option name to path. */
  const ContributeSchema: map<string, Path> := map[
    "title" := Top("title"), "content" := Top("content"), "tags" := Top("tags"),
    "model" := Top("model"), "ttl" := Top("ttl"),
    "tokensUsed" := Nested("effort", "tokensUsed"),
    "durationSeconds" := Nested("effort", "durationSeconds"),
    "toolCalls" := Nested("effort", "toolCalls"),
    "language" := Nested("environment", "language"),
    "os" := Nested("environment", "os")]

  /** The stdin schema of `feedback` (beyond the two operands). */
  const FeedbackSchema: map<string, Path> := map[
    "reason" := Top("reason"), "notes" := Top("notes"),
    "correctionContent" := Nested("correction", "content"),
    "correctionTitle" := Nested("correction", "title"),
    "correctionTags" := Nested("correction", "tags")]

  function Field(doc: map<string, Json>, key: string): Option<Json>
  {
    if key in doc then Some(doc[key]) else None
  }

  function Lookup(doc: map<string, Json>, path: Path): Option<Json>
  {
    match path
    case Top(key) => Field(doc, key)
    case Nested(group, key) =>
      if group in doc && doc[group].JObject? then Field(doc[group].fields, key) else None
  }

  predicate IsTagsOption(option: string) { option == "tags" || option == "correctionTags" }

  /** A tags array becomes its comma-joined text; every other value is carried as it is. */
  function Normalise(option: string, v: Json): Json
  {
    if IsTagsOption(option) && v.JArray? then JString(Text(v)) else v
  }

  /** The stdin layer: every schema option whose path is present in the document. */
  function Layer(doc: map<string, Json>, schema: map<string, Path>): (r: map<string, Json>)
    ensures forall k :: k in r <==> k in schema && Lookup(doc, schema[k]).Some?
    ensures forall k :: k in r ==> r[k] == Normalise(k, Lookup(doc, schema[k]).value)
  {
    map k | k in schema && Lookup(doc, schema[k]).Some? :: Normalise(k, Lookup(doc, schema[k]).value)
  }

  /** A command-line value as the command sees it: `true`, a string, or an array of strings. */
  function OptionJson(v: OptionValue): Json
  {
    match v
    case Flag => JBool(true)
    case Scalar(text) => JString(text)
    case List(items) => JArray(StringItems(items))
  }

  /** The command-line layer: every option the command line set. */
  function CliLayer(options: map<string, OptionValue>): (r: map<string, Json>)
    ensures r.Keys == options.Keys
    ensures forall k :: k in options ==> r[k] == OptionJson(options[k])
  {
    map k | k in options :: OptionJson(options[k])
  }

  /** The command line laid over the stdin layer. */
  function Overlay(cli: map<string, Json>, base: map<string, Json>): (r: map<string, Json>)
    ensures r.Keys == cli.Keys + base.Keys
    ensures forall k :: k in cli ==> r[k] == cli[k]
    ensures forall k :: k !in cli && k in base ==> r[k] == base[k]
  {
    base + cli
  }

  /** A field counts as given when it is present and truthy. */
  predicate Given(fields: map<string, Json>, key: string)
  {
    key in fields && Truthy(fields[key])
  }

  /** The names in `names` that are not given, in order. */
  function Missing(names: seq<string>, fields: map<string, Json>): (r: seq<string>)
    ensures |r| <= |names|
  {
    if names == [] then []
    else if Given(fields, names[0]) then Missing(names[1..], fields)
    else [names[0]] + Missing(names[1..], fields)
  }

  /** The missing names are exactly the names not given, and none is missing exactly when every name is given. */
  lemma {:induction false} MissingExactly(names: seq<string>, fields: map<string, Json>)
    ensures forall k :: k in Missing(names, fields) <==> k in names && !Given(fields, k)
    ensures Missing(names, fields) == [] <==> forall i :: 0 <= i < |names| ==> Given(fields, names[i])
  {
    if names != [] {
      MissingExactly(names[1..], fields);
      assert forall k :: k in names <==> k == names[0] || k in names[1..];
      assert forall i :: 0 < i < |names| ==> names[i] == names[1..][i - 1];
    }
  }

  /** JavaScript's `a || b` on values that may be absent. */
  function Or(a: Option<Json>, b: Option<Json>): Option<Json>
  {
    if a.Some? && Truthy(a.value) then a else b
  }

  /** The operands of `feedback` that standard input supplies: the entry and the outcome. */
  function FeedbackSlots(doc: map<string, Json>): seq<Option<Json>>
  {
    [Or(Field(doc, "entryId"), Field(doc, "id")), Field(doc, "outcome")]
  }

  /** Command-line operands laid over the stdin operands, index by index. */
  function OverlayOperands(cli: seq<string>, base: seq<Option<Json>>): (r: seq<Option<Json>>)
    ensures |r| == if |cli| < |base| then |base| else |cli|
    ensures forall i :: 0 <= i < |cli| ==> r[i] == Some(JString(cli[i]))
    ensures forall i :: |cli| <= i < |base| ==> r[i] == base[i]
  {
    var n := if |cli| < |base| then |base| else |cli|;
    seq(n, i requires 0 <= i < n => if i < |cli| then Some(JString(cli[i])) else base[i])
  }

  predicate GivenOperand(o: Option<Json>) { o.Some? && Truthy(o.value) }

  function SearchRun(words: seq<string>, options: map<string, OptionValue>): Result<Invocation, CliError>
  {
    var query := Join(words, ' ');
    if query == "" then Failure(Usage(Search))
    else if |query| < MinQueryLength then Failure(QueryTooShort(|query|))
    else Success(Run(Search, [JString(query)], CliLayer(options)))
  }

  function ContributeFields(doc: map<string, Json>, options: map<string, OptionValue>): map<string, Json>
  {
    Overlay(CliLayer(options), Layer(doc, ContributeSchema))
  }

  function ContributeRun(doc: map<string, Json>, options: map<string, OptionValue>): Result<Invocation, CliError>
  {
    var fields := ContributeFields(doc, options);
    var missing := Missing(ContributeRequired, fields);
    if missing != [] then Failure(MissingRequired(missing))
    else Success(Run(Contribute, [], fields))
  }

  function FeedbackFields(doc: map<string, Json>, options: map<string, OptionValue>): map<string, Json>
  {
    Overlay(CliLayer(options), Layer(doc, FeedbackSchema))
  }

  function FeedbackRun(operands: seq<string>, doc: map<string, Json>, options: map<string, OptionValue>): Result<Invocation, CliError>
  {
    var slots := OverlayOperands(operands, FeedbackSlots(doc));
    if !GivenOperand(slots[0]) || !GivenOperand(slots[1]) then Failure(Usage(Feedback))
    else Success(Run(Feedback, [slots[0].value, slots[1].value],
                     FeedbackFields(doc, options)))
  }

  /** The commands that take one operand and reject a missing or empty one. */
  predicate NeedsOperand(c: Command) { c == Get || c == Retract || c == Claim || c == Verify }

  /** A command's own checks, once standard input has given its document. */
  function Dispatch(c: Command, operands: seq<string>, options: map<string, OptionValue>, doc: map<string, Json>): Result<Invocation, CliError>
  {
    match c
    case Search => SearchRun(operands, options)
    case Contribute => ContributeRun(doc, options)
    case Feedback => FeedbackRun(operands, doc, options)
    case _ =>
      if NeedsOperand(c) && (operands == [] || operands[0] == "") then Failure(Usage(c))
      else Success(Run(c, StringItems(operands), CliLayer(options)))
  }

  /** An option that is set and truthy, such as `--version` or `--help`. */
  predicate Set(options: map<string, OptionValue>, key: string)
  {
    key in options && Truthy(OptionJson(options[key]))
  }

  predicate WantsVersion(bag: ArgBag)
  {
    Set(bag.options, "version") || (bag.positionals != [] && bag.positionals[0] == "-v")
  }

  /** What the command line does, given its parsed arguments and standard input. */
  function Resolve(bag: ArgBag, stdin: Stdin): Result<Invocation, CliError>
  {
    var p := bag.positionals;
    if WantsVersion(bag) then Success(ShowVersion)
    else if p == [] then Success(ShowHelp(None))
    else match CommandOf(p[0])
      case None => Failure(UnknownCommand(p[0]))
      case Some(c) =>
        if Set(bag.options, "help") then Success(ShowHelp(Some(c)))
        else match StdinDocument(stdin)
          case Failure(e) => Failure(e)
          case Success(doc) => Dispatch(c, p[1..], bag.options, doc)
  }

  /** A whole invocation: the argument list is parsed, then resolved. */
  function Invoke(argv: seq<string>, stdin: Stdin): Result<Invocation, CliError>
  {
    Resolve(Parse(argv), stdin)
  }
}
