# serviser-template: question construction and answer shaping

serviser-template scaffolds a new bi-service project. It asks its questions in
batches, and each batch is built from the answers to the batches before it.
This project models the module that builds those batches, `lib/questions.js`,
in Dafny and proves what it promises:

- **The general questions** (`General`): the package questions in their fixed
  order, with their defaults and filters. It includes the `scripts.test`
  default callback (`ScriptsTestDefault`). That callback tests the result of
  `indexOf('mocha')` as a truth value, and the model keeps this behaviour.
- **The answer filters**:
  - the keywords filter splits on commas and does not trim (`KeywordsFilter`);
  - the apps filter splits on commas and trims every entry (`CommaList`);
  - the Couchbase buckets filter splits, trims, and folds the names into a
    `name -> {bucket: name}` object (`BucketsFilter`, a method with a loop, as
    the source's `reduce` is).
  
  The JavaScript built-ins these filters rely on are modelled in `JsBuiltins`:
  `split`, `join`, `trim` with ECMAScript's whitespace set, `indexOf`, and `~`
  with its conversion to a signed 32-bit integer.
- **The service-config questions** (`ServiceConfig`, a method with a loop, as
  the source's `forEach`/`push` is). The list has a `_host` question, then a
  type and a port question per app, then the Couchbase questions if the
  Couchbase plugin is selected, then the SQL-provider question if the
  Sequelize plugin is selected. `ServiceConfig` is proved equal to the
  specification function `ServiceConfigQuestions`, and the lemmas state the
  layout, the length, and the "iff" rules of that function.
- **The app-type controller** (`Answers.TypeQuestionWhen`). This is the `when`
  callback of each app's type question. It works on a class that holds the
  `listen` branch of the answers object, because the callback writes into that
  object with `_.set`. It skips the question when the defaults list the app.
  It also skips the question for a `<base>-doc` app whose base comes earlier in
  the list and has a known type. In that case it copies the type from the
  base, taking the answered type first and the default type second.

Lodash property lookups are modelled with `Slot` (`Absent`, `Undefined`,
`Present`), so that `_.has` (which is true for a property that exists but holds
undefined) and `_.get` (which falls back when the value is undefined) keep
their exact meanings. As in the code, `_.has(defaults, ['listen', app], 'type')`
tests only whether `defaults.listen[app]` exists: lodash ignores the third
argument.

Each question's filter is recorded as a tag (`Filter`), and `FilterValue` gives
every tag its meaning. `HostFilter` stands for the two host filters, which
return their input unchanged. `KeywordsSplit`, `AppsSplit` and `BucketsSplit`
mean `KeywordsFilter`, `CommaList`, and the bucket map that `BucketsFilter`
computes. In the same way, `DefaultAnswer` evaluates a question's default: the
tag `TestCommandDefault` goes to the `scripts.test` callback `ScriptsTestDefault`.
A type question records the controller it is asked under as
`ControlledBy(TypeCheck(...))`, which holds the values the closure captures.
`Answers.TypeQuestionWhen` evaluates it.

## Model

| member | source | states |
|---|---|---|
| `JsBuiltins.Split` | lib/questions.js:33 | `split(',')` gives one piece more than there are commas, even for the empty string, and no piece contains the separator |
| `JsBuiltins.JoinSplit` | lib/questions.js:32-34 | joining the pieces of a split with the separator gives back the input exactly |
| `JsBuiltins.SplitJoin` | lib/questions.js:32-34 | splitting the join of at least one separator-free piece gives back those pieces |
| `JsBuiltins.Trim` | lib/questions.js:72 | `trim()` returns a slice of its input with only whitespace before and after it, and the slice neither starts nor ends with whitespace |
| `JsBuiltins.TrimOfTrimmed` | lib/questions.js:72 | a general fact about the `trim` used by the apps and buckets filters (lines 72 and 125): a string with no whitespace at either end is returned unchanged |
| `JsBuiltins.TrimIdempotent` | lib/questions.js:72 | a general fact about the `trim` used by the apps and buckets filters (lines 72 and 125): trimming twice is the same as trimming once |
| `JsBuiltins.IndexOf` | lib/questions.js:61 | `indexOf` returns -1 exactly when the value is absent; otherwise it returns the first index holding the value |
| `JsBuiltins.ToInt32` | lib/questions.js:108 | the operand of `~` becomes the value in [-2^31, 2^31) that is congruent to it modulo 2^32 |
| `JsBuiltins.BitNot` | lib/questions.js:108 | `~n` is a signed 32-bit value; it is zero exactly when `n` converts to -1, and it is `-n - 1` for any `n` already in 32-bit range |
| `JsBuiltins.BitNotIndexOf` | lib/questions.js:108 | `~deps.indexOf(x)` is non-zero exactly when `x` is in `deps` (for any array length JavaScript allows) |
| `Filters.KeywordsFilter` | lib/questions.js:32-34 | the keywords are the comma-separated pieces, untrimmed: commas + 1 pieces, none containing a comma, and joining them with ',' gives back the answer |
| `Filters.KeywordsFromJoin` | lib/questions.js:32-34 | a keyword list without commas is recovered unchanged from its own comma join |
| `Filters.CommaList` | lib/questions.js:70-74 | the apps filter returns one entry per comma-separated segment, in input order (commas + 1 entries); entry i is segment i trimmed, with no comma and no surrounding whitespace |
| `Filters.BucketsFilter` | lib/questions.js:123-129 | the buckets object has exactly the trimmed segments as keys, each mapped to `{bucket: key}`; repeated segments collapse, so there are at most commas + 1 keys |
| `Filters.BucketMapSize` | lib/questions.js:124-128 | the buckets object has at most one key per name, and exactly one per name iff the names are distinct |
| `AppTypeController.HasType` | lib/questions.js:185 | `_.has` on `listen.<app>.type` is true exactly when `listen[app]` exists and has a `type` property, including one that holds undefined (an entry with only a port gives false); when it is false, `_.get` on the same path returns its fallback |
| `AppTypeController.GetType` | lib/questions.js:190 | `_.get` gives the stored string when the type is present, and the fallback otherwise |
| `AppTypeController.SetType` | lib/questions.js:191 | `_.set` of `listen.<app>.type` stores the type, creates `listen[app]` when missing, keeps its port, and leaves every other app unchanged |
| `AppTypeController.DocBaseFrom` | lib/questions.js:179-194 | the loop's first hit: an index before the controller's own index whose app is the base of `<base>-doc` with a known type, and no earlier index is one; or none |
| `AppTypeController.Answers.TypeQuestionWhen` | lib/questions.js:166-197 | the controller returns whether to ask, as `AskType` decides, and leaves the answers as `AnswersAfter` says: unchanged when the app is defaulted or asked, otherwise with the inherited type copied in |
| `AppTypeController.AskedIffUnknown` | lib/questions.js:170-195 | the type is asked iff the defaults do not list the app and no earlier `<base>` with `app == <base>-doc` has a type in the answers or in the defaults; when it is asked, the answers are untouched |
| `AppTypeController.DefaultedAppNotAsked` | lib/questions.js:170-172 | if `defaults.listen[app]` exists, the controller returns false and changes nothing |
| `AppTypeController.DocCompanionInheritsType` | lib/questions.js:179-193 | when a `-doc` app is skipped, an earlier base with a known type exists; the app's type becomes that base's inherited type; its port is kept; exactly one key may be added; every other app is unchanged |
| `AppTypeController.InheritedType` | lib/questions.js:190 | the type copied from the base is its answered type if there is one, else its default type, else the empty string |
| `AppTypeController.OnlyEarlierAppsMatter` | lib/questions.js:179 | replacing the apps after the controller's own index changes neither the decision nor the resulting answers |
| `Questions.ScriptsTestDefault` | lib/questions.js:60-64 | as written: the mocha command is offered unless "mocha" is the first dependency, so it is also offered when mocha is not selected; otherwise the default is undefined |
| `Questions.IntendedScriptsTestDefault` | lib/questions.js:60-64 | corrected: the mocha command is offered exactly when mocha is among the dependencies |
| `Questions.ScriptsTestDefaultDiscrepancy` | lib/questions.js:61 | with no dependencies the code offers mocha when it should not; with mocha listed first it offers nothing when it should offer mocha |
| `Questions.General` | lib/questions.js:9-77 | the general questions come in the order name, version, description, author, keywords, licence, _dependencies, scripts.test, _apps. Every default is as listed: description, author, keywords and licence have none. keywords has the keywords filter, _apps has the apps filter, and no other question has a filter. licence is an autocomplete prompt with page size 10; _dependencies is a checkbox prompt over the plugins with page size 17 |
| `Questions.GeneralAnswers` | lib/questions.js:30-75 | the keywords question stores the untrimmed comma pieces of its answer, and the _apps question the trimmed ones (default "public"). The `scripts.test` question offers the mocha command when mocha is not selected, and nothing when mocha is the first dependency |
| `Questions.FilterValue` | lib/questions.js:32-129 | what a question stores for a raw answer, by filter tag (the filters at lines 32-34, 70-74, 86-89, 113-116 and 123-129). No filter or a host filter stores the answer unchanged. The keywords filter stores comma-free pieces that join back to the answer. The apps filter stores commas + 1 trimmed, comma-free entries. The buckets filter stores an object keyed by exactly the trimmed names, each mapped to `{bucket: name}` |
| `Questions.DefaultAnswer` | lib/questions.js:48-64 | a question's default: none, the literal text, list (the `_dependencies` checkbox default) or port, or for `scripts.test` the mocha command exactly unless mocha is the first dependency |
| `Questions.AppQuestions` | lib/questions.js:93-106 | per app, in app order: the type question (with its controller) directly followed by the port question, two questions per app |
| `Questions.Selected` | lib/questions.js:108 | the condition `~deps.indexOf(plugin)` holds exactly when the plugin is among the dependencies |
| `Questions.ResolveDefaults` | lib/questions.js:80 | the fallback of a missing defaults argument to an empty object: given defaults are used as they are, and missing defaults list no app |
| `Questions.ServiceConfig` | lib/questions.js:79-157 | the method returns exactly the list `ServiceConfigQuestions` specifies |
| `Questions.ServiceConfigLayout` | lib/questions.js:81-106 | `_host` (default `http://127.0.0.1`, host filter) comes first; then for app i, `listen.<app>.type` at position 1+2i (choices private/public, under its controller) and `listen.<app>.port` at 2+2i; the length is 1 + 2·apps + 2 if Couchbase is selected + 1 if Sequelize is selected |
| `Questions.StorageQuestionsIff` | lib/questions.js:108-140 | the Couchbase host and buckets questions appear iff bi-service-couchbase is selected; when selected, the host question (default `couchbase://127.0.0.1`, host filter) directly follows the app questions and is followed by the buckets question (default `default`, buckets filter); `_sqlProvider` appears iff bi-service-sequelize is selected, and it is last, with choices postgres/mysql and default postgres |
| `Questions.CouchbaseBeforeSql` | lib/questions.js:108-140 | every Couchbase question comes before the SQL-provider question |

## Left out

- `searchLicence` and its `filter` (lib/questions.js:199-212): these build an ECMAScript regular expression from user input, and the licence list file is not part of this model. The licence question is kept as an autocomplete question without its source.
- `getPort` (lib/questions.js:214-226): it uses `Math.random` and state at module level. Its values are the `ports` parameter of `ServiceConfig`, one per app, which the caller requires to be in [3000, 4000]. `getPort` never records a port in `_ports`, so no uniqueness of ports is claimed.
- The `name` default reads the working directory through `process.cwd()` (lib/questions.js:14). The model takes the directory's base name as the parameter `projectDir`.
- The plugin choices come from a plugin registry file that is not part of this model. They are the tag `PluginChoices`, and plugin names are plain strings.
- The `defaults` argument is `Option<Defaults>`: `None` stands for a missing or falsy argument, which `defaults || {}` turns into an empty object. Only the `listen` branch of the defaults is modelled, because it is the only one read.
- `Answers` holds only the `listen` branch of the answers object, with each entry's `type` and `port`. No other branch is read or written by the controller.
- `BucketsFilter`: the result is a map, so JavaScript's key insertion order is not modelled. The special behaviour of assigning to a key named `__proto__` on a plain object is not modelled either: the model stores it as an ordinary key.
- The question names are built as dotted paths (`listen.<app>.type`). How inquirer splits such a path when it stores an answer is not modelled, including for app names that contain dots.
- Strings are sequences of Unicode scalar values, not UTF-16 code units. This does not change splitting on ',' or trimming, because every JavaScript whitespace character is in the Basic Multilingual Plane.
- lib/template.js (prompting, promise chaining, merging of answers, logging), index.js and bin/serviser-template.js (command-line wiring), and the tests are not part of this model. They are I/O and library glue.

## Findings

| source | as written | input that shows it | evidently intended | confidence | as-written member | corrected member |
|---|---|---|---|---|---|---|
| lib/questions.js:61 | `if (argv._dependencies.indexOf('mocha'))` treats the index as a truth value | `_dependencies = []` gives the mocha command; `_dependencies = ["mocha", "chai"]` gives undefined | offer the mocha command exactly when mocha is selected, i.e. `~indexOf('mocha')` as used at lines 108 and 133 | high; not executed | `Questions.ScriptsTestDefault` (exhibited by `Questions.ScriptsTestDefaultDiscrepancy`) | `Questions.IntendedScriptsTestDefault` |

The general question list keeps the as-written behaviour: its `scripts.test`
question has the tag `TestCommandDefault`, and `DefaultAnswer` evaluates that
tag with `ScriptsTestDefault`. The corrected definition is given next to it.
