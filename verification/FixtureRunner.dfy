/**
 * The fixture runner's argument machine: a loop over the arguments that skips the ones it has taken
 * as values, staged guards, and a second parse that hands the database URL to the executor.
 */
module FixtureRunner {
  import opened Wrappers

  datatype Gate = LocalMutation | DisposableDb | FixtureCreation | CleanupRetention | NoProductionNoBeta | NoCustomerData

  /** What the target classifier says; a refused URL throws. */
  datatype Target = NotProvided | Local | Rejected

  /** Text rules that are regular expressions and host lists in the original. */
  datatype Rules = Rules(forbidden: string -> bool, markerText: string -> bool, trim: string -> string,
                         database: Option<string> -> Target, api: Option<string> -> Target)

  predicate Sensible(rules: Rules) {
    rules.database(None) == NotProvided && rules.database(Some("")) == NotProvided
  }

  datatype Environment = Environment(databaseUrl: Option<string>, apiUrl: Option<string>)

  /** The flags the runner knows. */
  datatype Flag =
    | Help | Plan | DryRun | CleanupPlan | Execute | JsonSummary | NoLogin | AllowLogin
    | Family | Marker | DatabaseUrl | ApiUrl | Approval(gate: Gate) | Unknown

  function FlagNamed(text: string): Flag {
    match text
    case "--help" => Help
    case "-h" => Help
    case "--plan" => Plan
    case "--dry-run" => DryRun
    case "--cleanup-plan" => CleanupPlan
    case "--execute" => Execute
    case "--json-summary" => JsonSummary
    case "--no-login" => NoLogin
    case "--allow-login" => AllowLogin
    case "--family" => Family
    case "--marker" => Marker
    case "--database-url" => DatabaseUrl
    case "--api-url" => ApiUrl
    case "--allow-local-mutation" => Approval(LocalMutation)
    case "--approve-local-disposable-db" => Approval(DisposableDb)
    case "--approve-fixture-creation" => Approval(FixtureCreation)
    case "--approve-cleanup-retention" => Approval(CleanupRetention)
    case "--approve-no-production-no-beta" => Approval(NoProductionNoBeta)
    case "--approve-no-customer-data" => Approval(NoCustomerData)
    case _ => Unknown
  }

  /** One flag, with the value it carries or takes from the next argument. */
  datatype Item = Item(flag: Flag, value: string)

  datatype Read = Skip | Take(item: Item, next: nat) | Unreadable

  // ---- single arguments

  function FirstEquals(arg: string): (i: nat)
    ensures i <= |arg| && '=' !in arg[..i] && (i < |arg| ==> arg[i] == '=')
  {
    if arg == "" || arg[0] == '=' then 0
    else
      var i := 1 + FirstEquals(arg[1..]);
      assert arg[..i] == [arg[0]] + arg[1..][..i - 1];
      i
  }

  /** `splitFlag`. */
  function FlagOf(arg: string): Flag {
    FlagNamed(arg[..FirstEquals(arg)])
  }

  function Inline(arg: string): Option<string> {
    if FirstEquals(arg) < |arg| then Some(arg[FirstEquals(arg) + 1..]) else None
  }

  predicate TakesValue(flag: Flag) {
    flag == Family || flag == Marker || flag == DatabaseUrl || flag == ApiUrl
  }

  /** Help, the login flag and unknown text throw. */
  predicate Throws(flag: Flag) {
    flag == Help || flag == AllowLogin || flag == Unknown
  }

  /** What the loop does with the argument at `i`; anything it throws on is unreadable. */
  function ReadAt(rules: Rules, argv: seq<string>, i: nat): (r: Read)
    requires i < |argv|
    ensures r.Take? ==> i < r.next <= |argv|
  {
    var arg := argv[i];
    if arg == "" || arg == "--" then Skip
    else if TakesValue(FlagOf(arg)) then
      var inline := Inline(arg).Some?;
      if !inline && i + 1 >= |argv| then Unreadable else
      var value := if inline then Inline(arg).value else argv[i + 1];
      if value == "" || value == "--" || rules.forbidden(value) then Unreadable
      else Take(Item(FlagOf(arg), value), if inline then i + 1 else i + 2)
    else if Throws(FlagOf(arg)) then Unreadable
    else Take(Item(FlagOf(arg), ""), i + 1)
  }

  /** The items the loop sees from `i` on, unless one of them stops it. */
  function Items(rules: Rules, argv: seq<string>, i: nat): Option<seq<Item>>
    requires i <= |argv|
    decreases |argv| - i
  {
    if i == |argv| then Some([]) else
    match ReadAt(rules, argv, i)
    case Unreadable => None
    case Skip => Items(rules, argv, i + 1)
    case Take(item, next) =>
      var rest := Items(rules, argv, next);
      if rest.None? then None else Some([item] + rest.value)
  }

  // ---- the parsed options

  datatype Options = Options(
    family: string, marker: Option<string>, databaseUrl: Option<string>, apiUrl: Option<string>,
    execute: bool, dryRun: bool, cleanupPlan: bool, gates: set<Gate>)

  function Defaults(env: Environment): Options {
    Options("all", None, env.databaseUrl, env.apiUrl, false, false, false, {})
  }

  /** The `switch` of the loop, for one item. */
  function Absorb(o: Options, item: Item): Options {
    match item.flag
    case Family => o.(family := item.value)
    case Marker => o.(marker := Some(item.value))
    case DatabaseUrl => o.(databaseUrl := Some(item.value))
    case ApiUrl => o.(apiUrl := Some(item.value))
    case Execute => o.(execute := true)
    case DryRun => o.(dryRun := true)
    case CleanupPlan => o.(cleanupPlan := true)
    case Approval(gate) => o.(gates := o.gates + {gate})
    case _ => o
  }

  function AbsorbAll(o: Options, items: seq<Item>): Options
    decreases |items|
  {
    if items == [] then o else AbsorbAll(Absorb(o, items[0]), items[1..])
  }

  /** The two checks after the loop. */
  predicate Combines(o: Options) {
    !(o.execute && (o.dryRun || o.cleanupPlan)) && (o.execute || o.gates == {})
  }

  /** `parseFixtureArgs`; `None` when it throws. */
  method Parse(rules: Rules, argv: seq<string>, env: Environment) returns (parsed: Option<Options>)
    ensures parsed == Parsed(rules, argv, env)
  {
    var o := Defaults(env);
    var index := 0;
    while index < |argv|
      invariant 0 <= index <= |argv|
      invariant Items(rules, argv, 0).Some? <==> Items(rules, argv, index).Some?
      invariant Items(rules, argv, index).Some? ==>
                  AbsorbAll(Defaults(env), Items(rules, argv, 0).value) == AbsorbAll(o, Items(rules, argv, index).value)
    {
      match ReadAt(rules, argv, index) {
        case Unreadable =>
          return None;
        case Skip =>
          index := index + 1;
        case Take(item, next) =>
          assert Items(rules, argv, next).Some? ==> Items(rules, argv, index).value[1..] == Items(rules, argv, next).value;
          o := Absorb(o, item);
          index := next;
      }
    }
    return if Combines(o) then Some(o) else None;
  }

  function Parsed(rules: Rules, argv: seq<string>, env: Environment): Option<Options> {
    var items := Items(rules, argv, 0);
    if items.None? || !Combines(AbsorbAll(Defaults(env), items.value)) then None
    else Some(AbsorbAll(Defaults(env), items.value))
  }

  // ---- the plan and its guards

  predicate IsFamily(family: string) {
    family == "all" || family == "ar" || family == "ap" || family == "bank" || family == "inv" || family == "jrd"
  }

  predicate StartsWith(s: string, prefix: string) {
    |prefix| <= |s| && s[..|prefix|] == prefix
  }

  function MarkerPrefix(family: string): string {
    match family
    case "ar" => "DEV03-AR-"
    case "ap" => "DEV03-AP-"
    case "bank" => "DEV03-BANK-"
    case "inv" => "DEV03-INV-"
    case _ => "DEV03-JRD-"
  }

  /** `validateMarker` on the trimmed marker. */
  predicate MarkerFits(rules: Rules, marker: Option<string>, family: string) {
    marker.Some?
    && var value := rules.trim(marker.value);
      && value != "" && (StartsWith(value, "DEV03-") || StartsWith(value, "DEV04-")) && rules.markerText(value)
      && (family != "all" && StartsWith(value, "DEV03-") ==> StartsWith(value, MarkerPrefix(family)))
  }

  /** What `buildFixturePlan` hands to the executor. */
  datatype FixturePlan = FixturePlan(family: string, marker: string, executeEnabled: bool, databaseWritesEnabled: bool)

  /** How a run ends: help or a plan printed, an error, or the executor called. */
  datatype Outcome = Helped | Planned | Failed | Executed(plan: FixturePlan, url: string)

  predicate PlanBuilds(rules: Rules, o: Options) {
    && IsFamily(o.family) && MarkerFits(rules, o.marker, o.family)
    && rules.database(o.databaseUrl) != Rejected && rules.api(o.apiUrl) != Rejected
  }

  /** `validateExecuteSkeleton`. */
  ghost predicate ExecutionApproved(rules: Rules, o: Options) {
    o.family == "ar" && rules.database(o.databaseUrl) == Local && forall gate: Gate :: gate in o.gates
  }

  /** `runFixtureRunner` with `buildFixturePlan`: parse, guards, and on execution a second parse for the URL. */
  method Run(rules: Rules, argv: seq<string>, env: Environment) returns (outcome: Outcome)
    requires Sensible(rules)
    ensures outcome.Helped? <==> "--help" in argv || "-h" in argv
    ensures outcome.Planned? <==> MayPlan(rules, argv, env)
    ensures outcome.Executed? <==> MayExecute(rules, argv, env)
    ensures outcome.Executed? ==>
              && rules.database(Some(outcome.url)) == Local
              && Some(outcome.url) == LastValue(Items(rules, argv, 0).value, DatabaseUrl, env.databaseUrl)
              && outcome.plan == FixturePlan("ar", rules.trim(LastValue(Items(rules, argv, 0).value, Marker, None).value), true, true)
  {
    ParsedFacts(rules, argv, env);
    hide Items, AbsorbAll, Present, LastValue, StartsWith;
    if "--help" in argv || "-h" in argv {
      return Helped;
    }
    var options := Parse(rules, argv, env);
    if options.None? || !PlanBuilds(rules, options.value) {
      return Failed;
    }
    if !options.value.execute {
      return Planned;
    }
    SixGates(rules, options.value);
    if !ApprovedFor(rules, options.value) {
      return Failed;
    }
    var again := Parse(rules, argv, env);
    var plan := FixturePlan(options.value.family, rules.trim(options.value.marker.value), options.value.execute, options.value.execute);
    return Executed(plan, again.value.databaseUrl.value);
  }

  /** `executeApprovedArFixtureCreation` up to its connection: its own guards, and the URL classified once more. */
  method OpensConnection(rules: Rules, plan: FixturePlan, url: string) returns (opens: bool)
    ensures opens <==> plan.family == "ar" && StartsWith(plan.marker, "DEV03-AR-") && plan.executeEnabled && plan.databaseWritesEnabled
                       && rules.database(Some(url)) != Rejected
  {
    if plan.family != "ar" || !StartsWith(plan.marker, "DEV03-AR-") {
      return false;
    }
    if !plan.executeEnabled || !plan.databaseWritesEnabled {
      return false;
    }
    return rules.database(Some(url)) != Rejected;
  }

  /** A run with the default executor: where it connects, if it does. */
  method Connects(rules: Rules, argv: seq<string>, env: Environment) returns (connected: Option<string>)
    requires Sensible(rules)
    ensures connected.Some? <==> MayExecute(rules, argv, env)
                                 && !StartsWith(rules.trim(LastValue(Items(rules, argv, 0).value, Marker, None).value), "DEV04-")
    ensures connected.Some? ==> rules.database(connected) == Local && connected == LastValue(Items(rules, argv, 0).value, DatabaseUrl, env.databaseUrl)
  {
    var outcome := Run(rules, argv, env);
    hide Items, LastValue, Present;
    if !outcome.Executed? {
      return None;
    }
    MarkerIsOneOrTheOther(outcome.plan.marker);
    hide StartsWith;
    var opens := OpensConnection(rules, outcome.plan, outcome.url);
    return if opens then Some(outcome.url) else None;
  }

  lemma MarkerIsOneOrTheOther(marker: string)
    ensures StartsWith(marker, "DEV03-") ==> !StartsWith(marker, "DEV04-")
    ensures StartsWith(marker, "DEV03-AR-") ==> StartsWith(marker, "DEV03-")
  {
    if StartsWith(marker, "DEV03-AR-") {
      assert marker[..6] == marker[..9][..6] == "DEV03-";
    }
    if StartsWith(marker, "DEV03-") {
      assert marker[..6][4] == '3';
    }
  }

  /** The six gates are looked up one by one. */
  predicate ApprovedFor(rules: Rules, o: Options) {
    && o.family == "ar" && rules.database(o.databaseUrl) == Local
    && LocalMutation in o.gates && DisposableDb in o.gates && FixtureCreation in o.gates
    && CleanupRetention in o.gates && NoProductionNoBeta in o.gates && NoCustomerData in o.gates
  }

  lemma SixGates(rules: Rules, o: Options)
    ensures ApprovedFor(rules, o) <==> ExecutionApproved(rules, o)
  {
    if ApprovedFor(rules, o) {
      forall gate: Gate
        ensures gate in o.gates
      {
        assert gate == LocalMutation || gate == DisposableDb || gate == FixtureCreation || gate == CleanupRetention
               || gate == NoProductionNoBeta || gate == NoCustomerData;
      }
    }
  }

  // ---- the same read off the items

  predicate Present(items: seq<Item>, flag: Flag) {
    exists k :: 0 <= k < |items| && items[k].flag == flag
  }

  function LastValue(items: seq<Item>, flag: Flag, otherwise: Option<string>): Option<string> {
    if items == [] then otherwise
    else if items[|items| - 1].flag == flag then Some(items[|items| - 1].value)
    else LastValue(items[..|items| - 1], flag, otherwise)
  }

  /** When the executor is called: every condition is on what was parsed, none on what merely occurs among the arguments. */
  ghost predicate MayExecute(rules: Rules, argv: seq<string>, env: Environment) {
    && "--help" !in argv && "-h" !in argv
    && var items := Items(rules, argv, 0);
      && items.Some?
      && Present(items.value, Execute) && !Present(items.value, DryRun) && !Present(items.value, CleanupPlan)
      && (forall gate: Gate :: Present(items.value, Approval(gate)))
      && LastValue(items.value, Family, None) == Some("ar")
      && MarkerFits(rules, LastValue(items.value, Marker, None), "ar")
      && rules.database(LastValue(items.value, DatabaseUrl, env.databaseUrl)) == Local
      && rules.api(LastValue(items.value, ApiUrl, env.apiUrl)) != Rejected
  }

  predicate PlansFor(rules: Rules, family: string, marker: Option<string>) {
    && (family == "all" || family == "ar" || family == "ap" || family == "bank" || family == "inv" || family == "jrd")
    && MarkerFits(rules, marker, family)
  }

  /** When a plan is printed and nothing else done. */
  ghost predicate MayPlan(rules: Rules, argv: seq<string>, env: Environment) {
    && "--help" !in argv && "-h" !in argv
    && var items := Items(rules, argv, 0);
      && items.Some?
      && !Present(items.value, Execute) && (forall gate: Gate :: !Present(items.value, Approval(gate)))
      && PlansFor(rules, if LastValue(items.value, Family, None).None? then "all" else LastValue(items.value, Family, None).value,
                  LastValue(items.value, Marker, None))
      && rules.database(LastValue(items.value, DatabaseUrl, env.databaseUrl)) != Rejected
      && rules.api(LastValue(items.value, ApiUrl, env.apiUrl)) != Rejected
  }

  lemma {:induction false} AbsorbLast(o: Options, items: seq<Item>)
    requires items != []
    ensures AbsorbAll(o, items) == Absorb(AbsorbAll(o, items[..|items| - 1]), items[|items| - 1])
    decreases |items|
  {
    if |items| > 1 {
      AbsorbLast(Absorb(o, items[0]), items[1..]);
      assert items[1..][..|items| - 2] == items[..|items| - 1][1..];
    } else {
      assert items[..0] == [] && items[1..] == [];
    }
  }

  lemma PresentInLast(items: seq<Item>)
    requires items != []
    ensures forall flag :: Present(items, flag) <==> Present(items[..|items| - 1], flag) || items[|items| - 1].flag == flag
  {
  }

  lemma AbsorbFields(o: Options, item: Item)
    ensures var r := Absorb(o, item);
            && (r.execute <==> o.execute || item.flag == Execute)
            && (r.dryRun <==> o.dryRun || item.flag == DryRun)
            && (r.cleanupPlan <==> o.cleanupPlan || item.flag == CleanupPlan)
            && (forall gate :: gate in r.gates <==> gate in o.gates || item.flag == Approval(gate))
            && r.family == (if item.flag == Family then item.value else o.family)
            && r.marker == (if item.flag == Marker then Some(item.value) else o.marker)
            && r.databaseUrl == (if item.flag == DatabaseUrl then Some(item.value) else o.databaseUrl)
            && r.apiUrl == (if item.flag == ApiUrl then Some(item.value) else o.apiUrl)
  {
  }

  /** Switches are set when they were parsed, and values are the last ones parsed. */
  lemma {:induction false} AbsorbedFacts(o: Options, items: seq<Item>)
    ensures var r := AbsorbAll(o, items);
            && (r.execute <==> o.execute || Present(items, Execute))
            && (r.dryRun <==> o.dryRun || Present(items, DryRun))
            && (r.cleanupPlan <==> o.cleanupPlan || Present(items, CleanupPlan))
            && (forall gate :: gate in r.gates <==> gate in o.gates || Present(items, Approval(gate)))
            && r.family == (if LastValue(items, Family, None).Some? then LastValue(items, Family, None).value else o.family)
            && r.marker == LastValue(items, Marker, o.marker)
            && r.databaseUrl == LastValue(items, DatabaseUrl, o.databaseUrl)
            && r.apiUrl == LastValue(items, ApiUrl, o.apiUrl)
  {
    if items != [] {
      AbsorbedFacts(o, items[..|items| - 1]);
      AbsorbLast(o, items);
      PresentInLast(items);
      AbsorbFields(AbsorbAll(o, items[..|items| - 1]), items[|items| - 1]);
      hide Present, AbsorbAll, Absorb;
    }
  }

  lemma ParsedFacts(rules: Rules, argv: seq<string>, env: Environment)
    ensures var items, parsed := Items(rules, argv, 0), Parsed(rules, argv, env);
            && (items.None? ==> parsed.None?)
            && (items.Some? ==>
                  && (parsed.Some? <==>
                        && !(Present(items.value, Execute) && (Present(items.value, DryRun) || Present(items.value, CleanupPlan)))
                        && (Present(items.value, Execute) || forall gate: Gate :: !Present(items.value, Approval(gate))))
                  && (parsed.Some? ==>
                        var o := parsed.value;
                        && (o.execute <==> Present(items.value, Execute))
                        && (forall gate :: gate in o.gates <==> Present(items.value, Approval(gate)))
                        && o.family == (if LastValue(items.value, Family, None).Some? then LastValue(items.value, Family, None).value else "all")
                        && o.marker == LastValue(items.value, Marker, None)
                        && o.databaseUrl == LastValue(items.value, DatabaseUrl, env.databaseUrl)
                        && o.apiUrl == LastValue(items.value, ApiUrl, env.apiUrl)))
  {
    if Items(rules, argv, 0).Some? {
      var items := Items(rules, argv, 0).value;
      AbsorbedFacts(Defaults(env), items);
      hide Present, AbsorbAll, LastValue, Items;
      var o := AbsorbAll(Defaults(env), items);
      assert o.gates == {} <==> forall gate: Gate :: gate !in o.gates;
    }
  }

  // ---- the same said of the command line itself

  function GateFlag(gate: Gate): string {
    match gate
    case LocalMutation => "--allow-local-mutation"
    case DisposableDb => "--approve-local-disposable-db"
    case FixtureCreation => "--approve-fixture-creation"
    case CleanupRetention => "--approve-cleanup-retention"
    case NoProductionNoBeta => "--approve-no-production-no-beta"
    case NoCustomerData => "--approve-no-customer-data"
  }

  /** How a flag is written. */
  function NameOf(flag: Flag): string {
    match flag
    case Help => "--help"
    case Plan => "--plan"
    case DryRun => "--dry-run"
    case CleanupPlan => "--cleanup-plan"
    case Execute => "--execute"
    case JsonSummary => "--json-summary"
    case NoLogin => "--no-login"
    case AllowLogin => "--allow-login"
    case Family => "--family"
    case Marker => "--marker"
    case DatabaseUrl => "--database-url"
    case ApiUrl => "--api-url"
    case Approval(gate) => GateFlag(gate)
    case Unknown => ""
  }

  /** The argument is this flag, alone or with something after an equals sign. */
  predicate Says(arg: string, name: string) {
    arg == name || name + "=" <= arg
  }

  lemma NamesHaveNoEquals(flag: Flag)
    ensures '=' !in NameOf(flag)
  {
    if flag.Approval? {
      GatesHaveNoEquals(flag.gate);
    } else if TakesValue(flag) || Throws(flag) {
      ValueFlagsHaveNoEquals(flag);
    } else {
      SwitchesHaveNoEquals(flag);
    }
    hide NameOf, GateFlag;
  }

  lemma GatesHaveNoEquals(gate: Gate)
    ensures '=' !in NameOf(Approval(gate))
  {
  }

  lemma ValueFlagsHaveNoEquals(flag: Flag)
    requires TakesValue(flag) || Throws(flag)
    ensures '=' !in NameOf(flag)
  {
  }

  lemma SwitchesHaveNoEquals(flag: Flag)
    requires !flag.Approval? && !TakesValue(flag) && !Throws(flag)
    ensures '=' !in NameOf(flag)
  {
  }

  lemma NamedAsWritten(flag: Flag)
    requires flag != Unknown
    ensures FlagNamed(NameOf(flag)) == flag && NameOf(flag) != "" && NameOf(flag) != "--"
  {
    if flag.Approval? {
      GateAsWritten(flag.gate);
    } else if TakesValue(flag) || Throws(flag) {
      hide GateFlag;
    } else {
      hide GateFlag, TakesValue, Throws;
    }
  }

  lemma GateAsWritten(gate: Gate)
    ensures FlagNamed(GateFlag(gate)) == Approval(gate) && |GateFlag(gate)| > 2
  {
  }

  lemma NamedOnce(text: string)
    requires FlagNamed(text) != Unknown && FlagNamed(text) != Help
    ensures text == NameOf(FlagNamed(text))
  {
  }

  lemma SaidExactly(arg: string, flag: Flag)
    requires flag != Unknown && flag != Help
    ensures FlagOf(arg) == flag <==> Says(arg, NameOf(flag))
  {
    NamesHaveNoEquals(flag);
    NamedAsWritten(flag);
    var i := FirstEquals(arg);
    if FlagNamed(arg[..i]) == flag {
      NamedOnce(arg[..i]);
    }
    hide FlagNamed, NameOf;
    if arg[..i] == NameOf(flag) && i < |arg| {
      assert arg[..i + 1] == arg[..i] + "=";
    }
    if Says(arg, NameOf(flag)) {
      EqualsAfter(arg, NameOf(flag));
    }
  }

  lemma {:induction false} EqualsAfter(arg: string, name: string)
    requires Says(arg, name) && '=' !in name
    ensures FirstEquals(arg) == |name| && arg[..|name|] == name
  {
    if name == "" {
      assert arg != "" ==> arg[0] == "="[0];
    } else {
      assert arg[0] == name[0];
      assert arg != name ==> (name + "=")[1..] == name[1..] + "=" && name[1..] + "=" <= arg[1..];
      EqualsAfter(arg[1..], name[1..]);
      assert arg[..|name|] == [arg[0]] + arg[1..][..|name| - 1];
    }
  }

  /** The argument before it takes this one as its value. */
  predicate TakenAsValue(argv: seq<string>, j: nat)
    requires j < |argv|
  {
    j > 0 && (argv[j - 1] == "--family" || argv[j - 1] == "--marker" || argv[j - 1] == "--database-url" || argv[j - 1] == "--api-url")
  }

  /** Items come from arguments, and arguments become items, are blank, or are taken as values. */
  lemma {:induction false} ItemsAreArguments(rules: Rules, argv: seq<string>, i: nat)
    requires i <= |argv| && Items(rules, argv, i).Some?
    ensures forall flag :: Present(Items(rules, argv, i).value, flag) ==> exists j :: i <= j < |argv| && FlagOf(argv[j]) == flag
    ensures forall j :: i <= j < |argv| && argv[j] != "" && argv[j] != "--" ==>
              Present(Items(rules, argv, i).value, FlagOf(argv[j])) || (j > i && TakenAsValue(argv, j))
    decreases |argv| - i
  {
    hide FlagNamed;
    var items := Items(rules, argv, i).value;
    if i < |argv| {
      match ReadAt(rules, argv, i)
      case Skip =>
        ItemsAreArguments(rules, argv, i + 1);
      case Take(item, next) =>
        ItemsAreArguments(rules, argv, next);
        var rest := Items(rules, argv, next).value;
        assert items == [item] + rest;
        PresentInParts(item, rest);
        if next == i + 2 {
          ValueFlagAlone(argv[i]);
        }
        hide ReadAt, Present, FlagOf;
    }
  }

  lemma PresentInParts(item: Item, rest: seq<Item>)
    ensures forall flag :: Present([item] + rest, flag) <==> item.flag == flag || Present(rest, flag)
  {
    forall flag
      ensures Present([item] + rest, flag) <==> item.flag == flag || Present(rest, flag)
    {
      assert ([item] + rest)[0] == item;
      assert forall k :: 0 <= k < |rest| ==> ([item] + rest)[k + 1] == rest[k];
    }
  }

  lemma ValueFlagAlone(arg: string)
    requires TakesValue(FlagOf(arg)) && Inline(arg) == None
    ensures arg == "--family" || arg == "--marker" || arg == "--database-url" || arg == "--api-url"
  {
    assert arg[..|arg|] == arg;
  }

  /**
   * Nothing is executed unless the command line asks for it: some argument is `--execute` and one is each
   * of the six approval flags, and a `--dry-run` or `--cleanup-plan` is there only as another flag's value.
   */
  lemma ExecutesOnlyWhenAsked(rules: Rules, argv: seq<string>, env: Environment)
    requires MayExecute(rules, argv, env)
    ensures exists j :: 0 <= j < |argv| && Says(argv[j], "--execute")
    ensures forall gate: Gate :: exists j :: 0 <= j < |argv| && Says(argv[j], GateFlag(gate))
    ensures forall j :: 0 <= j < |argv| && (Says(argv[j], "--dry-run") || Says(argv[j], "--cleanup-plan")) ==> TakenAsValue(argv, j)
  {
    hide Items, Present, Says, LastValue, MarkerFits;
    ItemsAreArguments(rules, argv, 0);
    forall j, flag: Flag | 0 <= j < |argv| && flag != Unknown && flag != Help
      ensures FlagOf(argv[j]) == flag <==> Says(argv[j], NameOf(flag))
    {
      SaidExactly(argv[j], flag);
    }
    hide FlagOf;
    assert NameOf(Execute) == "--execute" && NameOf(DryRun) == "--dry-run" && NameOf(CleanupPlan) == "--cleanup-plan";
    forall gate: Gate
      ensures exists j :: 0 <= j < |argv| && Says(argv[j], GateFlag(gate))
    {
      assert NameOf(Approval(gate)) == GateFlag(gate);
      var j :| 0 <= j < |argv| && FlagOf(argv[j]) == Approval(gate);
    }
    BlanksSayNothing();
  }

  lemma BlanksSayNothing()
    ensures !Says("", "--dry-run") && !Says("", "--cleanup-plan") && !Says("--", "--dry-run") && !Says("--", "--cleanup-plan")
  {
  }

  /** A flag as it may be given: with its value after an equals sign, or as the next argument. */
  datatype Word = Word(item: Item, inline: bool)

  predicate Readable(rules: Rules, word: Word) {
    var item := word.item;
    && !Throws(item.flag)
    && if TakesValue(item.flag) then item.value != "" && item.value != "--" && !rules.forbidden(item.value) else item.value == ""
  }

  function Written(word: Word): seq<string> {
    var name := NameOf(word.item.flag);
    if !TakesValue(word.item.flag) then [name]
    else if word.inline then [name + "=" + word.item.value]
    else [name, word.item.value]
  }

  function CommandLine(words: seq<Word>): seq<string> {
    if words == [] then [] else Written(words[0]) + CommandLine(words[1..])
  }

  function ItemsOf(words: seq<Word>): seq<Item> {
    seq(|words|, k requires 0 <= k < |words| => words[k].item)
  }

  lemma WordReadsBack(rules: Rules, front: seq<string>, word: Word, rest: seq<string>)
    requires Readable(rules, word)
    ensures ReadAt(rules, front + Written(word) + rest, |front|) == Take(word.item, |front| + |Written(word)|)
  {
    var argv := front + Written(word) + rest;
    assert argv[|front|] == Written(word)[0];
    assert |Written(word)| == 2 ==> argv[|front| + 1] == Written(word)[1];
    WordIsWritten(word);
    hide FlagOf, NameOf, Inline;
  }

  lemma WordIsWritten(word: Word)
    requires word.item.flag != Unknown
    ensures var arg := Written(word)[0];
            && arg != "" && arg != "--" && FlagOf(arg) == word.item.flag
            && Inline(arg) == if TakesValue(word.item.flag) && word.inline then Some(word.item.value) else None
  {
    var name := NameOf(word.item.flag);
    NamesHaveNoEquals(word.item.flag);
    NamedAsWritten(word.item.flag);
    hide FlagNamed, NameOf, TakesValue;
    var arg := Written(word)[0];
    EqualsAfter(arg, name);
    if arg != name {
      assert arg == name + "=" + word.item.value;
      assert arg[|name| + 1..] == word.item.value;
      assert arg[|name|] == '=' && '=' !in "--";
    }
  }

  /** Reading a command line undoes writing it, whatever the flags, their order and the form of their values. */
  lemma {:induction false} CommandLineReadsBack(rules: Rules, front: seq<string>, words: seq<Word>)
    requires forall k :: 0 <= k < |words| ==> Readable(rules, words[k])
    ensures Items(rules, front + CommandLine(words), |front|) == Some(ItemsOf(words))
    decreases |words|
  {
    hide ReadAt, Written, Readable;
    if words != [] {
      var own, rest := Written(words[0]), CommandLine(words[1..]);
      WordReadsBack(rules, front, words[0], rest);
      CommandLineReadsBack(rules, front + own, words[1..]);
      assert front + CommandLine(words) == front + own + rest;
      assert ItemsOf(words) == [words[0].item] + ItemsOf(words[1..]);
    }
  }

  /** A blank argument between flags is passed over. */
  lemma BlanksChangeNothing(rules: Rules, front: seq<string>, blank: string, words: seq<Word>)
    requires (blank == "" || blank == "--") && forall k :: 0 <= k < |words| ==> Readable(rules, words[k])
    ensures Items(rules, front + [blank] + CommandLine(words), |front|) == Some(ItemsOf(words))
  {
    hide CommandLine, ItemsOf, Readable, FlagOf;
    CommandLineReadsBack(rules, front + [blank], words);
    assert (front + [blank] + CommandLine(words))[|front|] == blank;
  }

  /** Nothing else is: every other argument is taken as a value or is a flag that the runner knows and allows. */
  lemma {:induction false} OnlyKnownFlags(rules: Rules, argv: seq<string>, i: nat)
    requires i <= |argv| && Items(rules, argv, i).Some?
    ensures forall j :: i <= j < |argv| ==>
              argv[j] == "" || argv[j] == "--" || (j > i && TakenAsValue(argv, j)) || exists flag :: !Throws(flag) && Says(argv[j], NameOf(flag))
    decreases |argv| - i
  {
    hide FlagNamed, NameOf, Says;
    if i < |argv| {
      match ReadAt(rules, argv, i)
      case Skip =>
        OnlyKnownFlags(rules, argv, i + 1);
      case Take(item, next) =>
        OnlyKnownFlags(rules, argv, next);
        SaidExactly(argv[i], FlagOf(argv[i]));
        if next == i + 2 {
          ValueFlagAlone(argv[i]);
        }
        hide ReadAt, FlagOf, Throws;
    }
  }

  predicate Given(words: seq<Word>, flag: Flag) {
    exists k :: 0 <= k < |words| && words[k].item.flag == flag
  }

  /** The flag is given, and whenever it is, with this value. */
  predicate GivenAs(words: seq<Word>, flag: Flag, value: string) {
    Given(words, flag) && forall k :: 0 <= k < |words| && words[k].item.flag == flag ==> words[k].item.value == value
  }

  lemma {:induction false} LastGiven(items: seq<Item>, flag: Flag, value: string, otherwise: Option<string>)
    requires forall k :: 0 <= k < |items| && items[k].flag == flag ==> items[k].value == value
    ensures LastValue(items, flag, otherwise) == if Present(items, flag) then Some(value) else otherwise
  {
    if items != [] {
      LastGiven(items[..|items| - 1], flag, value, otherwise);
      PresentInLast(items);
      hide Present;
    }
  }

  /** A command line with the flag for execution, the six approvals, a fitting marker and a local database, in any order and form, is executed. */
  lemma CommandExecutes(rules: Rules, words: seq<Word>, env: Environment, marker: string, url: string)
    requires forall k :: 0 <= k < |words| ==> Readable(rules, words[k])
    requires Given(words, Execute) && (forall gate: Gate :: Given(words, Approval(gate)))
    requires !Given(words, DryRun) && !Given(words, CleanupPlan) && !Given(words, ApiUrl)
    requires GivenAs(words, Family, "ar") && GivenAs(words, Marker, marker) && GivenAs(words, DatabaseUrl, url)
    requires "--help" !in CommandLine(words) && "-h" !in CommandLine(words)
    requires ("DEV03-AR-" <= rules.trim(marker) || "DEV04-" <= rules.trim(marker)) && rules.markerText(rules.trim(marker))
    requires rules.database(Some(url)) == Local && rules.api(env.apiUrl) != Rejected
    ensures MayExecute(rules, CommandLine(words), env)
  {
    hide Items, Readable, LastValue, Present, Given, CommandLine, MarkerFits;
    assert Given(words, Family) && Given(words, Marker) && Given(words, DatabaseUrl);
    hide GivenAs;
    CommandLineReadsBack(rules, [], words);
    assert [] + CommandLine(words) == CommandLine(words);
    forall flag
      ensures Present(ItemsOf(words), flag) <==> Given(words, flag)
    {
      GivenIsPresent(words, flag);
    }
    LastIsGiven(words, Family, "ar", None);
    LastIsGiven(words, Marker, marker, None);
    LastIsGiven(words, DatabaseUrl, url, env.databaseUrl);
    LastIsGiven(words, ApiUrl, "", env.apiUrl);
    hide ItemsOf;
    Fits(rules, marker);
  }

  lemma GivenIsPresent(words: seq<Word>, flag: Flag)
    ensures Present(ItemsOf(words), flag) <==> Given(words, flag)
  {
    var items := ItemsOf(words);
    assert forall k :: 0 <= k < |words| ==> items[k] == words[k].item;
  }

  lemma LastIsGiven(words: seq<Word>, flag: Flag, value: string, otherwise: Option<string>)
    requires GivenAs(words, flag, value) || !Given(words, flag)
    ensures LastValue(ItemsOf(words), flag, otherwise) == if Given(words, flag) then Some(value) else otherwise
  {
    GivenIsPresent(words, flag);
    LastGiven(ItemsOf(words), flag, value, otherwise);
  }

  lemma Fits(rules: Rules, marker: string)
    requires ("DEV03-AR-" <= rules.trim(marker) || "DEV04-" <= rules.trim(marker)) && rules.markerText(rules.trim(marker))
    ensures MarkerFits(rules, Some(marker), "ar")
  {
    var m := rules.trim(marker);
    if "DEV03-AR-" <= m {
      assert m[..6] == m[..9][..6] == "DEV03-";
    } else {
      assert m[..6] == "DEV04-" && m[4] == '4';
    }
  }

  /** And what is executed has a marker of one of the two families, or it is not executed. */
  lemma ExecutedMarker(rules: Rules, argv: seq<string>, env: Environment)
    requires MayExecute(rules, argv, env)
    ensures var marker := LastValue(Items(rules, argv, 0).value, Marker, None);
            marker.Some? && ("DEV03-AR-" <= rules.trim(marker.value) || "DEV04-" <= rules.trim(marker.value)) && rules.markerText(rules.trim(marker.value))
  {
    hide Items, LastValue, Present;
  }

  /** A marker of the first family fits just the plan of its own records, or one of all of them. */
  lemma MarkersOfFamilies(rules: Rules, marker: string)
    requires "DEV03-" <= rules.trim(marker) && rules.markerText(rules.trim(marker))
    ensures MarkerFits(rules, Some(marker), "all")
    ensures MarkerFits(rules, Some(marker), "ar") <==> "DEV03-AR-" <= rules.trim(marker)
    ensures MarkerFits(rules, Some(marker), "ap") <==> "DEV03-AP-" <= rules.trim(marker)
    ensures MarkerFits(rules, Some(marker), "bank") <==> "DEV03-BANK-" <= rules.trim(marker)
    ensures MarkerFits(rules, Some(marker), "inv") <==> "DEV03-INV-" <= rules.trim(marker)
    ensures MarkerFits(rules, Some(marker), "jrd") <==> "DEV03-JRD-" <= rules.trim(marker)
  {
  }
}
