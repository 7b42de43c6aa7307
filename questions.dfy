/**
  The question lists the generator puts to the user: the general package
  questions, and the service-configuration questions built from the earlier
  answers (the app list and the selected dependencies).
*/
module Questions {
  import opened Optional
  import opened JsBuiltins
  import opened AppTypeController
  import opened Filters

  /** The inquirer prompt type; a question without one is a text input. */
  datatype QuestionKind = InputPrompt | ListPrompt | CheckboxPrompt | AutocompletePrompt

  /** A question's default. `TestCommandDefault` is the callback modelled by
      ScriptsTestDefault, evaluated on the answers given so far. */
  datatype DefaultValue =
    | NoDefault
    | TextDefault(text: string)
    | ListDefault(items: seq<string>)
    | PortDefault(port: int)
    | TestCommandDefault

  /** `PluginChoices` stands for the values of the plugin registry file, which is
      not part of this model. */
  datatype Choices = NoChoices | FixedChoices(options: seq<string>) | PluginChoices

  /** Which answer filter a question applies; FilterValue gives each its meaning. */
  datatype Filter = NoFilter | HostFilter | KeywordsSplit | AppsSplit | BucketsSplit

  /** A value stored in the answers object. */
  datatype AnswerValue =
    | TextAnswer(text: string)
    | ListAnswer(items: seq<string>)
    | BucketsAnswer(buckets: map<string, Bucket>)
    | PortAnswer(port: int)

  /** Whether a question is always asked or asked as the type controller decides. */
  datatype When = Always | ControlledBy(check: TypeCheck)

  datatype Question = Question(
    name: string,
    message: string,
    kind: QuestionKind,
    defaultValue: DefaultValue,
    choices: Choices,
    filter: Filter,
    when: When,
    pageSize: Option<nat>)

  function QuestionNames(q: seq<Question>): seq<string> {
    seq(|q|, i requires 0 <= i < |q| => q[i].name)
  }

  const CouchbasePlugin: string := "bi-service-couchbase"
  const SequelizePlugin: string := "bi-service-sequelize"
  const MochaCommand: string := "mocha --ui bdd --colors --check-leaks -t 5000 --reporter spec 'test/**/*.js'"
  const DefaultHost: string := "http://127.0.0.1"
  const MinPort: int := 3000
  const MaxPort: int := 4000

  /** `~deps.indexOf(plugin)` used as a condition: true exactly when the plugin
      was selected. */
  function Selected(deps: seq<string>, plugin: string): (selected: bool)
    ensures |deps| <= MaxArrayLength ==> (selected <==> plugin in deps)
  {
    var selected := BitNot(IndexOf(deps, plugin)) != 0;
    if |deps| <= MaxArrayLength then BitNotIndexOf(deps, plugin); selected else selected
  }

  /** What a question stores for the raw `answer` typed at its prompt: the
      answer itself, or what its filter makes of it. The host filters return
      their input unchanged; the buckets value is the one BucketsFilter computes. */
  function FilterValue(f: Filter, answer: string): (v: AnswerValue)
    ensures f == NoFilter || f == HostFilter ==> v == TextAnswer(answer)
    ensures f == KeywordsSplit ==>
              && v.ListAnswer? && Join(v.items, ',') == answer
              && forall i :: 0 <= i < |v.items| ==> ',' !in v.items[i]
    ensures f == AppsSplit ==>
              && v.ListAnswer? && |v.items| == Count(answer, ',') + 1
              && forall i :: 0 <= i < |v.items| ==> ',' !in v.items[i] && IsTrimmed(v.items[i])
    ensures f == BucketsSplit ==>
              && v.BucketsAnswer?
              && (forall k :: k in v.buckets <==> k in CommaList(answer))
              && (forall k :: k in v.buckets ==> v.buckets[k] == Bucket(k))
  {
    match f
    case NoFilter => TextAnswer(answer)
    case HostFilter => TextAnswer(answer)
    case KeywordsSplit => ListAnswer(KeywordsFilter(answer))
    case AppsSplit => ListAnswer(CommaList(answer))
    case BucketsSplit => BucketsAnswer(BucketMap(CommaList(answer)))
  }

  /** The default a question offers, given the dependencies selected in the
      earlier batch (read only by the `scripts.test` callback); None stands for
      no default or an undefined one. */
  function DefaultAnswer(d: DefaultValue, deps: seq<string>): (v: Option<AnswerValue>)
    ensures d == NoDefault ==> v == None
    ensures d.TextDefault? ==> v == Some(TextAnswer(d.text))
    ensures d.ListDefault? ==> v == Some(ListAnswer(d.items))
    ensures d.PortDefault? ==> v == Some(PortAnswer(d.port))
    ensures d == TestCommandDefault ==>
              && (v.Some? <==> !(|deps| > 0 && deps[0] == "mocha"))
              && (v.Some? ==> v.value == TextAnswer(MochaCommand))
  {
    match d
    case NoDefault => None
    case TextDefault(text) => Some(TextAnswer(text))
    case ListDefault(items) => Some(ListAnswer(items))
    case PortDefault(port) => Some(PortAnswer(port))
    case TestCommandDefault =>
      var cmd := ScriptsTestDefault(deps);
      if cmd.Some? then Some(TextAnswer(cmd.value)) else None
  }

  // ---------------------------------------------------------------------------
  // general questions

  /** Default of the `scripts.test` question as written: the index of "mocha" is
      used as a truth value, so the command is offered unless "mocha" is the
      FIRST dependency, and also when "mocha" is not selected at all. */
  function ScriptsTestDefault(deps: seq<string>): (r: Option<string>)
    ensures r.Some? <==> !(|deps| > 0 && deps[0] == "mocha")
    ensures r.Some? ==> r.value == MochaCommand
    ensures "mocha" !in deps ==> r == Some(MochaCommand)
  {
    if IndexOf(deps, "mocha") != 0 then Some(MochaCommand) else None
  }

  /** The default the `scripts.test` callback is evidently meant to give: the
      mocha command exactly when mocha is among the dependencies. */
  function IntendedScriptsTestDefault(deps: seq<string>): (r: Option<string>)
    requires |deps| <= MaxArrayLength
    ensures r.Some? <==> "mocha" in deps
    ensures r.Some? ==> r.value == MochaCommand
  {
    BitNotIndexOf(deps, "mocha");
    if Selected(deps, "mocha") then Some(MochaCommand) else None
  }

  /** The two defaults disagree both when mocha is missing and when it is listed
      first. */
  lemma ScriptsTestDefaultDiscrepancy()
    ensures ScriptsTestDefault([]) == Some(MochaCommand)
    ensures IntendedScriptsTestDefault([]) == None
    ensures ScriptsTestDefault(["mocha", "chai"]) == None
    ensures IntendedScriptsTestDefault(["mocha", "chai"]) == Some(MochaCommand)
  {
    assert "mocha" in ["mocha", "chai"];
  }

  /** The first batch of questions; `projectDir` is the name of the working
      directory, the default of the project name. */
  function General(projectDir: string): (q: seq<Question>)
    ensures QuestionNames(q) == ["name", "version", "description", "author", "keywords",
                         "licence", "_dependencies", "scripts.test", "_apps"]
    ensures q[0].defaultValue == TextDefault(projectDir)
    ensures q[1].defaultValue == TextDefault("1.0.0")
    ensures forall i :: 2 <= i <= 5 ==> q[i].defaultValue == NoDefault
    ensures q[4].filter == KeywordsSplit && q[8].filter == AppsSplit
    ensures q[5].kind == AutocompletePrompt && q[5].pageSize == Some(10)
    ensures q[6].kind == CheckboxPrompt && q[6].choices == PluginChoices && q[6].pageSize == Some(17)
    ensures q[6].defaultValue == ListDefault(["bi-service-doc", "bi-service-cli", "bi-service-sdk", "mocha", "chai"])
    ensures q[7].defaultValue == TestCommandDefault
    ensures q[8].defaultValue == TextDefault("public")
    ensures forall i :: 0 <= i < |q| ==>
              (q[i].filter != NoFilter <==> q[i].name in {"keywords", "_apps"})
    ensures forall i :: 0 <= i < |q| ==> q[i].when == Always
  {
    [ Question("name", "The project name", InputPrompt, TextDefault(projectDir), NoChoices, NoFilter, Always, None),
      Question("version", "Version", InputPrompt, TextDefault("1.0.0"), NoChoices, NoFilter, Always, None),
      Question("description", "Description", InputPrompt, NoDefault, NoChoices, NoFilter, Always, None),
      Question("author", "Author", InputPrompt, NoDefault, NoChoices, NoFilter, Always, None),
      Question("keywords", "Keywords (comma separated)", InputPrompt, NoDefault, NoChoices, KeywordsSplit, Always, None),
      Question("licence", "Licence", AutocompletePrompt, NoDefault, NoChoices, NoFilter, Always, Some(10)),
      Question("_dependencies", "Dependencies", CheckboxPrompt,
               ListDefault(["bi-service-doc", "bi-service-cli", "bi-service-sdk", "mocha", "chai"]),
               PluginChoices, NoFilter, Always, Some(17)),
      Question("scripts.test", "npm test cmd", InputPrompt, TestCommandDefault, NoChoices, NoFilter, Always, None),
      Question("_apps", "Apps (Comma separated list of names of apps which will be created)", InputPrompt,
               TextDefault("public"), NoChoices, AppsSplit, Always, None)
    ]
  }

  /** What the general questions store: the keywords question keeps the
      untrimmed comma-separated pieces of its answer, the apps question the
      trimmed ones, and the `scripts.test` default is the as-written callback,
      which offers the mocha command when mocha is not selected. */
  lemma GeneralAnswers(projectDir: string, answer: string, deps: seq<string>)
    ensures var q := General(projectDir);
            && FilterValue(q[4].filter, answer) == ListAnswer(KeywordsFilter(answer))
            && FilterValue(q[8].filter, answer) == ListAnswer(CommaList(answer))
            && DefaultAnswer(q[8].defaultValue, deps) == Some(TextAnswer("public"))
            && ("mocha" !in deps ==> DefaultAnswer(q[7].defaultValue, deps) == Some(TextAnswer(MochaCommand)))
            && (|deps| > 0 && deps[0] == "mocha" ==> DefaultAnswer(q[7].defaultValue, deps) == None)
  {
  }

  // ---------------------------------------------------------------------------
  // service-configuration questions

  /** `defaults || {}`: a missing defaults argument reads as an object without
      a `listen` entry for any app. */
  function ResolveDefaults(defaults: Option<Defaults>): (d: Defaults)
    ensures defaults.Some? ==> d == defaults.value
    ensures defaults.None? ==> forall app :: app !in d.listen
  {
    if defaults.Some? then defaults.value else Defaults(map[])
  }

  function HostQuestion(): Question {
    Question("_host", "Service Host", InputPrompt, TextDefault(DefaultHost), NoChoices, HostFilter, Always, None)
  }

  function TypeQuestion(apps: seq<string>, index: nat, defaults: Defaults): Question
    requires index < |apps|
  {
    Question("listen." + apps[index] + ".type", apps[index] + " app type", ListPrompt, NoDefault,
             FixedChoices(["private", "public"]), NoFilter,
             ControlledBy(TypeCheck(apps, apps[index], index, defaults)), None)
  }

  function PortQuestion(app: string, port: int): Question {
    Question("listen." + app + ".port", app + " app port", InputPrompt, PortDefault(port),
             NoChoices, NoFilter, Always, None)
  }

  function CouchbaseHostQuestion(): Question {
    Question("storage.couchbase.host", "Couchbase Host", InputPrompt, TextDefault("couchbase://127.0.0.1"),
             NoChoices, HostFilter, Always, None)
  }

  function CouchbaseBucketsQuestion(): Question {
    Question("storage.couchbase.buckets", "Buckets (comma separated list)", InputPrompt, TextDefault("default"),
             NoChoices, BucketsSplit, Always, None)
  }

  function SqlProviderQuestion(): Question {
    Question("_sqlProvider", "SQL Provider", ListPrompt, TextDefault("postgres"),
             FixedChoices(["postgres", "mysql"]), NoFilter, Always, None)
  }

  /** The type and port questions of the first `n` apps, in app order. */
  function AppQuestions(apps: seq<string>, n: nat, defaults: Defaults, ports: seq<int>): (q: seq<Question>)
    requires n <= |apps| && |ports| == |apps|
    ensures |q| == 2 * n
    ensures forall i :: 0 <= i < n ==>
              q[2 * i] == TypeQuestion(apps, i, defaults) && q[2 * i + 1] == PortQuestion(apps[i], ports[i])
  {
    if n == 0 then []
    else AppQuestions(apps, n - 1, defaults, ports)
         + [TypeQuestion(apps, n - 1, defaults), PortQuestion(apps[n - 1], ports[n - 1])]
  }

  /** The question list serviceConfig returns. */
  function ServiceConfigQuestions(apps: seq<string>, deps: seq<string>, defaults: Option<Defaults>, ports: seq<int>)
    : seq<Question>
    requires |ports| == |apps|
  {
    [HostQuestion()]
    + AppQuestions(apps, |apps|, ResolveDefaults(defaults), ports)
    + (if Selected(deps, CouchbasePlugin) then [CouchbaseHostQuestion(), CouchbaseBucketsQuestion()] else [])
    + (if Selected(deps, SequelizePlugin) then [SqlProviderQuestion()] else [])
  }

  /** Builds the service-configuration questions. `ports` are the random
      defaults drawn for the apps' port questions, one per app. */
  method ServiceConfig(apps: seq<string>, deps: seq<string>, defaults: Option<Defaults>, ports: seq<int>)
    returns (q: seq<Question>)
    requires |ports| == |apps|
    requires forall i :: 0 <= i < |ports| ==> MinPort <= ports[i] <= MaxPort
    ensures q == ServiceConfigQuestions(apps, deps, defaults, ports)
  {
    var d := ResolveDefaults(defaults);
    q := [HostQuestion()];
    var index := 0;
    while index < |apps|
      invariant 0 <= index <= |apps|
      invariant q == [HostQuestion()] + AppQuestions(apps, index, d, ports)
    {
      var app := apps[index];
      q := q + [TypeQuestion(apps, index, d)];
      q := q + [PortQuestion(app, ports[index])];
      index := index + 1;
    }
    if BitNot(IndexOf(deps, CouchbasePlugin)) != 0 {
      q := q + [CouchbaseHostQuestion(), CouchbaseBucketsQuestion()];
    }
    if BitNot(IndexOf(deps, SequelizePlugin)) != 0 {
      q := q + [SqlProviderQuestion()];
    }
  }

  // ---------------------------------------------------------------------------
  // properties of the service-configuration questions

  /** The host question comes first, then the type and port questions of each
      app in app order, then the optional storage questions; the length counts
      two questions per app, two for Couchbase and one for the SQL provider. */
  lemma ServiceConfigLayout(apps: seq<string>, deps: seq<string>, defaults: Option<Defaults>, ports: seq<int>)
    requires |ports| == |apps| && |deps| <= MaxArrayLength
    ensures var q := ServiceConfigQuestions(apps, deps, defaults, ports);
            && |q| == 1 + 2 * |apps| + (if CouchbasePlugin in deps then 2 else 0)
                                     + (if SequelizePlugin in deps then 1 else 0)
            && q[0].name == "_host" && q[0].defaultValue == TextDefault("http://127.0.0.1")
            && q[0].filter == HostFilter
            && forall i :: 0 <= i < |apps| ==>
                 && q[1 + 2 * i].name == "listen." + apps[i] + ".type"
                 && q[1 + 2 * i].choices == FixedChoices(["private", "public"])
                 && q[1 + 2 * i].when == ControlledBy(TypeCheck(apps, apps[i], i, ResolveDefaults(defaults)))
                 && q[2 + 2 * i].name == "listen." + apps[i] + ".port"
                 && q[2 + 2 * i].defaultValue == PortDefault(ports[i])
  {
    BitNotIndexOf(deps, CouchbasePlugin);
    BitNotIndexOf(deps, SequelizePlugin);
    var q := ServiceConfigQuestions(apps, deps, defaults, ports);
    var appQ := AppQuestions(apps, |apps|, ResolveDefaults(defaults), ports);
    forall i | 0 <= i < |apps|
      ensures q[1 + 2 * i] == appQ[2 * i] && q[2 + 2 * i] == appQ[2 * i + 1]
    {
    }
  }

  /** The names of the app questions all start with "listen.", so none of them
      is one of the fixed names. */
  lemma AppQuestionNames(apps: seq<string>, n: nat, defaults: Defaults, ports: seq<int>)
    requires n <= |apps| && |ports| == |apps|
    ensures forall i :: 0 <= i < 2 * n ==> "listen." <= AppQuestions(apps, n, defaults, ports)[i].name
  {
    var q := AppQuestions(apps, n, defaults, ports);
    forall i | 0 <= i < 2 * n ensures "listen." <= q[i].name {
      var k := i / 2;
      var suffix := if i == 2 * k then ".type" else ".port";
      assert q[i].name == "listen." + (apps[k] + suffix);
    }
  }

  lemma FixedNamesAreNotListenPaths(name: string)
    requires name in {"_host", "storage.couchbase.host", "storage.couchbase.buckets", "_sqlProvider"}
    ensures !("listen." <= name)
  {
    assert name[0] != 'l';
  }

  /** The Couchbase questions are asked exactly when the Couchbase plugin is
      selected, the SQL provider question exactly when the Sequelize plugin is
      selected, and that one offers postgres and mysql with postgres as the
      default. */
  lemma StorageQuestionsIff(apps: seq<string>, deps: seq<string>, defaults: Option<Defaults>, ports: seq<int>)
    requires |ports| == |apps| && |deps| <= MaxArrayLength
    ensures var names := QuestionNames(ServiceConfigQuestions(apps, deps, defaults, ports));
            && ("storage.couchbase.host" in names <==> CouchbasePlugin in deps)
            && ("storage.couchbase.buckets" in names <==> CouchbasePlugin in deps)
            && ("_sqlProvider" in names <==> SequelizePlugin in deps)
    ensures var q := ServiceConfigQuestions(apps, deps, defaults, ports);
            CouchbasePlugin in deps ==>
              && q[1 + 2 * |apps|].name == "storage.couchbase.host"
              && q[1 + 2 * |apps|].defaultValue == TextDefault("couchbase://127.0.0.1")
              && q[1 + 2 * |apps|].filter == HostFilter
              && q[2 + 2 * |apps|].name == "storage.couchbase.buckets"
              && q[2 + 2 * |apps|].defaultValue == TextDefault("default")
              && q[2 + 2 * |apps|].filter == BucketsSplit
    ensures var q := ServiceConfigQuestions(apps, deps, defaults, ports);
            SequelizePlugin in deps ==>
              q[|q| - 1].name == "_sqlProvider"
              && q[|q| - 1].choices == FixedChoices(["postgres", "mysql"])
              && q[|q| - 1].defaultValue == TextDefault("postgres")
  {
    BitNotIndexOf(deps, CouchbasePlugin);
    BitNotIndexOf(deps, SequelizePlugin);
    var d := ResolveDefaults(defaults);
    var appQ := AppQuestions(apps, |apps|, d, ports);
    var q := ServiceConfigQuestions(apps, deps, defaults, ports);
    var names := QuestionNames(q);
    AppQuestionNames(apps, |apps|, d, ports);
    var storage := (if Selected(deps, CouchbasePlugin) then [CouchbaseHostQuestion(), CouchbaseBucketsQuestion()] else [])
                   + (if Selected(deps, SequelizePlugin) then [SqlProviderQuestion()] else []);
    assert q == [HostQuestion()] + appQ + storage;
    forall i | 0 <= i < |q|
      ensures q[i].name in {"storage.couchbase.host", "storage.couchbase.buckets", "_sqlProvider"} ==>
                q[i] in storage
    {
      if 1 <= i < 1 + |appQ| {
        assert q[i] == appQ[i - 1];
        assert "listen." <= q[i].name;
        if q[i].name in {"storage.couchbase.host", "storage.couchbase.buckets", "_sqlProvider"} {
          FixedNamesAreNotListenPaths(q[i].name);
        }
      } else if i >= 1 + |appQ| {
        assert q[i] == storage[i - 1 - |appQ|];
      }
    }
    if CouchbasePlugin in deps {
      assert names[1 + |appQ|] == "storage.couchbase.host";
      assert names[2 + |appQ|] == "storage.couchbase.buckets";
    }
    if SequelizePlugin in deps {
      assert names[|q| - 1] == "_sqlProvider";
    }
  }

  /** The Couchbase questions always come before the SQL provider question. */
  lemma CouchbaseBeforeSql(apps: seq<string>, deps: seq<string>, defaults: Option<Defaults>, ports: seq<int>, i: nat, j: nat)
    requires |ports| == |apps|
    requires var q := ServiceConfigQuestions(apps, deps, defaults, ports);
             && i < |q| && j < |q|
             && q[i].name in {"storage.couchbase.host", "storage.couchbase.buckets"}
             && q[j].name == "_sqlProvider"
    ensures i < j
  {
    var d := ResolveDefaults(defaults);
    var appQ := AppQuestions(apps, |apps|, d, ports);
    var q := ServiceConfigQuestions(apps, deps, defaults, ports);
    AppQuestionNames(apps, |apps|, d, ports);
    var cb := if Selected(deps, CouchbasePlugin) then [CouchbaseHostQuestion(), CouchbaseBucketsQuestion()] else [];
    var sql := if Selected(deps, SequelizePlugin) then [SqlProviderQuestion()] else [];
    assert q == [HostQuestion()] + appQ + cb + sql;
    if 1 <= i < 1 + |appQ| {
      assert q[i] == appQ[i - 1];
      FixedNamesAreNotListenPaths(q[i].name);
    }
    if 1 <= j < 1 + |appQ| {
      assert q[j] == appQ[j - 1];
      FixedNamesAreNotListenPaths(q[j].name);
    }
    if j < 1 + |appQ| + |cb| && j >= 1 + |appQ| {
      assert q[j] == cb[j - 1 - |appQ|];
    }
  }
}
