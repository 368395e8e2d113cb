/** Article generation (src/generator.py): the connection probe, the prompt
    template, one task per title, and the results dictionary filled in the
    order the tasks complete. The thread pool is replaced by `order`, a
    permutation of the task indices giving the completion order; the service,
    `str.format`, the clock and the file system's failures are oracles. Written
    files are a map from path to contents. */
module Generator {
  import opened Wrappers
  import Utils
  import Config
  import Client

  /** One entry of the results dictionary: `success`, `error`, `output_file`. */
  datatype ArticleResult = ArticleResult(success: bool, error: Option<string>, outputFile: Option<string>)

  /** A result has an error exactly when it failed, and a file exactly when it succeeded. */
  predicate WellShaped(r: ArticleResult) {
    (r.success <==> r.error.None?) && (r.success <==> r.outputFile.Some?)
  }

  const NoValidResponse := "OpenAI APIから有効な応答を取得できませんでした"
  const ConnectionFailed := "OpenAI API接続に失敗しました"
  const MissingSetting := "KeyError: prompt setting"

  /** What `open(path, 'w')` followed by `f.write(text)` does: it succeeds;
      `open` raises and the file is left as it was; or `open` succeeds, which
      creates or empties the file, and then writing or closing raises once the
      first `kept` characters of the text have reached the file. */
  datatype WriteOutcome = Written | OpenFailed(error: string) | WriteFailed(error: string, kept: nat)

  /** The world one run of the generator sees.
      `probe` is the reply to the connection test; `provider(i, k)` the reply to
      attempt `k` of task `i`; `format(template, title)` the result of
      `template.format(title=title)`; `today(i)` the date task `i` reads;
      `write(path)` what opening and writing `path` does;
      `render` is `str()` of a configuration value; `nfkc` is Unicode NFKC
      normalisation. */
  datatype Env = Env(
    probe: Client.Attempt,
    provider: (nat, nat) -> Client.Attempt,
    format: (string, string) -> Result<string, string>,
    today: nat -> Utils.ValidDate,
    write: string -> WriteOutcome,
    render: Config.Value -> string,
    nfkc: string -> string)

  /** The generator's state after `__init__`: the configuration, the client
      built from it, and the thread-count setting. */
  datatype ArticleGenerator = ArticleGenerator(config: Config.Table, client: Client.OpenAIClient, maxThreads: Config.Value)

  /** `ArticleGenerator(config_manager, logger)`: fails as the client's
      constructor does. */
  function NewGenerator(config: Config.Table, apiKey: Option<string>): (r: Result<ArticleGenerator, string>)
    ensures r.Ok? <==> Client.NewClient(config, apiKey).Ok?
    ensures r.Ok? ==> r.value.config == config && r.value.client == Client.NewClient(config, apiKey).value
    ensures r.Ok? ==> (r.value.maxThreads ==
              match Config.Lookup(Config.Dict(config), ["processing", "max_threads"])
              case Some(v) => v case None => Config.Int(10))
  {
    match Client.NewClient(config, apiKey)
    case Err(e) => Err(e)
    case Ok(c) =>
      var t := match Config.Lookup(Config.Dict(config), ["processing", "max_threads"])
               case Some(v) => v case None => Config.Int(10);
      Ok(ArticleGenerator(config, c, t))
  }

  /** `output_dir / filename`. */
  function JoinPath(dir: string, name: string): string {
    dir + "/" + name
  }

  /** The replies task `i` receives, attempt by attempt. */
  function TaskProvider(env: Env, i: nat): nat -> Client.Attempt {
    (k: nat) => env.provider(i, k)
  }

  /** What one task leaves behind: its result, and the file it wrote, if any. */
  datatype Task = Task(result: ArticleResult, written: Option<(string, string)>)

  function Failure(msg: string): ArticleResult {
    ArticleResult(false, Some(msg), None)
  }

  // ---------------------------------------------------------------------
  // _generate_single_article (src/generator.py:82-120)
  // ---------------------------------------------------------------------

  /** The number of characters of `text` a failed write leaves in the file. */
  function KeptLength(text: string, kept: nat): (n: nat)
    ensures n <= |text| && (kept <= |text| ==> n == kept)
  {
    if kept < |text| then kept else |text|
  }

  /** What `_generate_single_article` makes of the call's `outcome`: an
      exception becomes a failure with its message; no usable content becomes
      the fixed failure and writes nothing; otherwise the sanitised content is
      written to `path`, unless writing raises. */
  function Shape(outcome: Client.Generation, path: string, write: WriteOutcome): (t: Task)
    ensures WellShaped(t.result)
    ensures outcome.Raised? ==> t == Task(Failure(outcome.error), None)
    ensures outcome.Returned? && (outcome.content.None? || outcome.content.value == []) ==>
              t == Task(Failure(NoValidResponse), None)
    ensures t.written.Some? ==>
              outcome.Returned? && outcome.content.Some? && outcome.content.value != [] &&
              !write.OpenFailed? && t.written.value.0 == path &&
              t.written.value.1 <= Utils.Sanitized(outcome.content.value)
    ensures outcome.Returned? && outcome.content.Some? && outcome.content.value != [] ==>
              (t.written.Some? <==> !write.OpenFailed?) &&
              (t.result.success <==> write.Written?) &&
              (!write.Written? ==> t.result.error == Some(write.error))
    ensures t.result.success ==>
              t.result.outputFile == Some(path) && t.written.Some? &&
              t.written.value.1 == Utils.Sanitized(outcome.content.value) &&
              Utils.NoTripleNewline(t.written.value.1)
  {
    match outcome
    case Raised(e) => Task(Failure(e), None)
    case Returned(content) =>
      if content.None? || content.value == [] then Task(Failure(NoValidResponse), None)
      else
        var text := Utils.Sanitized(content.value);
        match write
        case OpenFailed(e) => Task(Failure(e), None)
        case WriteFailed(e, kept) => Task(Failure(e), Some((path, text[..KeptLength(text, kept)])))
        case Written =>
          Utils.SanitizedShape(content.value);
          Task(ArticleResult(true, None, Some(path)), Some((path, text)))
  }

  /** The file task `i` writes for `title`. */
  function OutputPath(env: Env, outputDir: string, title: string, i: nat): string {
    JoinPath(outputDir, Utils.CreateOutputFilename(title, env.today(i), env.nfkc))
  }

  /** The outcome of task `i` for `title`. */
  function SingleArticle(g: ArticleGenerator, env: Env, template: string, outputDir: string, title: string, i: nat): (t: Task)
    ensures WellShaped(t.result)
    ensures t.written.Some? ==> t.written.value.0 == OutputPath(env, outputDir, title, i)
    ensures env.format(template, title).Err? ==> t == Task(Failure(env.format(template, title).error), None)
  {
    var path := OutputPath(env, outputDir, title, i);
    Shape(Client.Generate(g.client, env.format(template, title), TaskProvider(env, i)).outcome, path, env.write(path))
  }

  /** `_generate_single_article` for task `i`, writing into `files`. */
  method GenerateSingleArticle(g: ArticleGenerator, env: Env, template: string, outputDir: string,
                               title: string, i: nat, files: map<string, string>)
    returns (result: ArticleResult, files': map<string, string>)
    ensures var t := SingleArticle(g, env, template, outputDir, title, i);
            result == t.result &&
            files' == match t.written case Some(w) => files[w.0 := w.1] case None => files
  {
    files' := files;
    var content, calls, delays := Client.GenerateArticle(g.client, env.format(template, title), TaskProvider(env, i));
    ghost var path := OutputPath(env, outputDir, title, i);
    ghost var t := Shape(content, path, env.write(path));
    if content.Raised? {
      return Failure(content.error), files';
    }
    if content.content.None? || content.content.value == [] {
      return Failure(NoValidResponse), files';
    }
    var sanitized := Utils.SanitizeMarkdownContent(content.content.value);
    var filename := Utils.CreateOutputFilename(title, env.today(i), env.nfkc);
    var outputFile := JoinPath(outputDir, filename);
    assert outputFile == path;
    result, files' := WriteArticle(outputFile, sanitized, env.write(outputFile), files');
  }

  /** `with open(path, 'w') as f: f.write(text)` on `files`, and the result
      `_generate_single_article` returns for it: a failed `open` changes
      nothing; a successful one empties the file, which then holds the part of
      `text` written before any error. */
  method WriteArticle(path: string, text: string, write: WriteOutcome, files: map<string, string>)
    returns (result: ArticleResult, files': map<string, string>)
    ensures WellShaped(result) && (result.success <==> write.Written?)
    ensures write.Written? ==> result.outputFile == Some(path) && files' == files[path := text]
    ensures write.OpenFailed? ==> result == Failure(write.error) && files' == files
    ensures write.WriteFailed? ==>
              result == Failure(write.error) && files' == files[path := text[..KeptLength(text, write.kept)]]
  {
    files' := files;
    if write.OpenFailed? {
      return Failure(write.error), files';
    }
    files' := files'[path := []];
    if write.WriteFailed? {
      files' := files'[path := text[..KeptLength(text, write.kept)]];
      return Failure(write.error), files';
    }
    files' := files'[path := text];
    result := ArticleResult(true, None, Some(path));
  }

  // ---------------------------------------------------------------------
  // generate_articles (src/generator.py:24-80)
  // ---------------------------------------------------------------------

  /** The results dictionary after the tasks in `order` have completed, in that order. */
  function Collect(tasks: seq<Task>, titles: seq<string>, order: seq<nat>): (r: map<string, ArticleResult>)
    requires |tasks| == |titles| && forall j :: 0 <= j < |order| ==> order[j] < |titles|
    ensures |r| <= |order|
    decreases |order|
  {
    if order == [] then map[]
    else
      var last := order[|order| - 1];
      Collect(tasks, titles, order[..|order| - 1])[titles[last] := tasks[last].result]
  }

  /** The files after the tasks in `order` have written theirs, in that order. */
  function Apply(files: map<string, string>, tasks: seq<Task>, order: seq<nat>): (r: map<string, string>)
    requires forall j :: 0 <= j < |order| ==> order[j] < |tasks|
    ensures files.Keys <= r.Keys
    decreases |order|
  {
    if order == [] then files
    else
      var last := order[|order| - 1];
      var before := Apply(files, tasks, order[..|order| - 1]);
      match tasks[last].written
      case Some(w) => before[w.0 := w.1]
      case None => before
  }

  /** Every task of the run, indexed by position in `titles`. */
  function Tasks(g: ArticleGenerator, env: Env, template: string, outputDir: string, titles: seq<string>): (ts: seq<Task>)
    ensures |ts| == |titles|
    ensures forall i :: 0 <= i < |titles| ==> ts[i] == SingleArticle(g, env, template, outputDir, titles[i], i)
  {
    seq(|titles|, i requires 0 <= i < |titles| => SingleArticle(g, env, template, outputDir, titles[i], i))
  }

  /** `order` lists every task index exactly once. */
  predicate IsPermutation(order: seq<nat>, n: nat) {
    |order| == n && (forall j :: 0 <= j < n ==> order[j] < n) &&
    (forall i :: 0 <= i < n ==> i in order) &&
    (forall j, k :: 0 <= j < k < n ==> order[j] != order[k])
  }

  const MaxWorkersValueError := "ValueError: max_workers must be greater than 0"
  const MaxWorkersTypeError := "TypeError: '<=' not supported between max_workers and int"

  /** The error `ThreadPoolExecutor(max_workers=v)` raises, if any: `None`
      picks a default size; any other value must compare greater than 0, so
      zero, negative numbers and `False` raise `ValueError`, and a value that
      does not compare with an integer raises `TypeError`. */
  function PoolError(v: Config.Value): (e: Option<string>)
    ensures e.None? <==> v.Null? || (v.Int? && v.i > 0) || (v.Num? && v.r > 0.0) || v == Config.Bool(true)
    ensures (v.Str? || v.Dict?) ==> e == Some(MaxWorkersTypeError)
  {
    match v
    case Null => None
    case Int(i) => if i > 0 then None else Some(MaxWorkersValueError)
    case Num(r) => if r > 0.0 then None else Some(MaxWorkersValueError)
    case Bool(b) => if b then None else Some(MaxWorkersValueError)
    case _ => Some(MaxWorkersTypeError)
  }

  /** `generate_articles`: `Err` stands for the `RuntimeError` of a failed
      probe, for the `KeyError` of a template with missing settings, and for
      the error the thread pool raises on a bad `max_threads`; all three come
      before any task runs and leave the files alone. Otherwise the results map
      and the new files. */
  method GenerateArticles(g: ArticleGenerator, env: Env, titles: seq<string>, outputDir: string,
                          order: seq<nat>, files: map<string, string>)
    returns (r: Result<map<string, ArticleResult>, string>, files': map<string, string>)
    requires IsPermutation(order, |titles|)
    ensures !Client.TestConnection(env.probe) ==> r == Err(ConnectionFailed) && files' == files
    ensures Client.TestConnection(env.probe) && Config.PromptTemplate(g.config, env.render).None? ==>
              r == Err(MissingSetting) && files' == files
    ensures Client.TestConnection(env.probe) && Config.PromptTemplate(g.config, env.render).Some? &&
            PoolError(g.maxThreads).Some? ==>
              r == Err(PoolError(g.maxThreads).value) && files' == files
    ensures r.Ok? <==>
              Client.TestConnection(env.probe) && Config.PromptTemplate(g.config, env.render).Some? &&
              PoolError(g.maxThreads).None?
    ensures r.Ok? ==>
              var ts := Tasks(g, env, Config.PromptTemplate(g.config, env.render).value, outputDir, titles);
              r.value == Collect(ts, titles, order) && files' == Apply(files, ts, order)
  {
    files' := files;
    if !Client.TestConnection(env.probe) {
      return Err(ConnectionFailed), files';
    }
    var template := Config.PromptTemplate(g.config, env.render);
    if template.None? {
      return Err(MissingSetting), files';
    }
    var poolError := PoolError(g.maxThreads);
    if poolError.Some? {
      return Err(poolError.value), files';
    }
    var results;
    results, files' := RunTasks(g, env, template.value, titles, outputDir, order, files);
    return Ok(results), files';
  }

  /** The thread pool's work: every task of `order`, in that completion order. */
  method RunTasks(g: ArticleGenerator, env: Env, template: string, titles: seq<string>, outputDir: string,
                  order: seq<nat>, files: map<string, string>)
    returns (results: map<string, ArticleResult>, files': map<string, string>)
    requires IsPermutation(order, |titles|)
    ensures var ts := Tasks(g, env, template, outputDir, titles);
            results == Collect(ts, titles, order) && files' == Apply(files, ts, order)
  {
    ghost var ts := Tasks(g, env, template, outputDir, titles);
    results, files' := map[], files;
    for j := 0 to |order|
      invariant results == Collect(ts, titles, order[..j])
      invariant files' == Apply(files, ts, order[..j])
    {
      var i := order[j];
      var result;
      result, files' := GenerateSingleArticle(g, env, template, outputDir, titles[i], i, files');
      Advance(ts, titles, order, j, files);
      results := results[titles[i] := result];
    }
    assert order[..|order|] == order;
  }

  /** One more completed task extends both folds by that task. */
  lemma Advance(tasks: seq<Task>, titles: seq<string>, order: seq<nat>, j: nat, files: map<string, string>)
    requires |tasks| == |titles| && j < |order| && forall k :: 0 <= k < |order| ==> order[k] < |titles|
    ensures Collect(tasks, titles, order[..j + 1]) ==
              Collect(tasks, titles, order[..j])[titles[order[j]] := tasks[order[j]].result]
    ensures Apply(files, tasks, order[..j + 1]) ==
              match tasks[order[j]].written
              case Some(w) => Apply(files, tasks, order[..j])[w.0 := w.1]
              case None => Apply(files, tasks, order[..j])
  {
    assert order[..j + 1][..j] == order[..j];
  }

  // ---------------------------------------------------------------------
  // What the results promise
  // ---------------------------------------------------------------------

  /** The results dictionary has one key per title of the completed tasks. */
  lemma {:induction false} CollectKeys(tasks: seq<Task>, titles: seq<string>, order: seq<nat>)
    requires |tasks| == |titles| && forall j :: 0 <= j < |order| ==> order[j] < |titles|
    ensures Collect(tasks, titles, order).Keys == set j | 0 <= j < |order| :: titles[order[j]]
    decreases |order|
  {
    if order != [] {
      var front := order[..|order| - 1];
      CollectKeys(tasks, titles, front);
      assert forall j :: 0 <= j < |front| ==> front[j] == order[j];
    }
  }

  /** When titles are distinct, each title's entry is its own task's result
      whatever the completion order. */
  lemma {:induction false} CollectEntry(tasks: seq<Task>, titles: seq<string>, order: seq<nat>, i: nat)
    requires |tasks| == |titles| && forall j :: 0 <= j < |order| ==> order[j] < |titles|
    requires forall a, b :: 0 <= a < b < |titles| ==> titles[a] != titles[b]
    requires i < |titles| && i in order
    ensures titles[i] in Collect(tasks, titles, order)
    ensures Collect(tasks, titles, order)[titles[i]] == tasks[i].result
    decreases |order|
  {
    var last := order[|order| - 1];
    var front := order[..|order| - 1];
    if last != i {
      assert i in front by {
        var j :| 0 <= j < |order| && order[j] == i;
        assert j < |order| - 1 && front[j] == i;
      }
      CollectEntry(tasks, titles, front, i);
    }
  }

  /** With distinct titles the results dictionary is the same for every
      completion order: it maps each title to its own task's result. */
  lemma ResultsIndependentOfOrder(tasks: seq<Task>, titles: seq<string>, o1: seq<nat>, o2: seq<nat>)
    requires |tasks| == |titles| && IsPermutation(o1, |titles|) && IsPermutation(o2, |titles|)
    requires forall a, b :: 0 <= a < b < |titles| ==> titles[a] != titles[b]
    ensures Collect(tasks, titles, o1) == Collect(tasks, titles, o2)
  {
    var m1, m2 := Collect(tasks, titles, o1), Collect(tasks, titles, o2);
    TitlesAreKeys(tasks, titles, o1);
    TitlesAreKeys(tasks, titles, o2);
    forall t | t in m1 ensures t in m2 && m1[t] == m2[t] {
      var i :| 0 <= i < |titles| && titles[i] == t;
      assert i in o1 && i in o2;
      CollectEntry(tasks, titles, o1, i);
      CollectEntry(tasks, titles, o2, i);
    }
  }

  /** A complete run leaves one key per title, duplicates merged. */
  lemma TitlesAreKeys(tasks: seq<Task>, titles: seq<string>, order: seq<nat>)
    requires |tasks| == |titles| && IsPermutation(order, |titles|)
    ensures Collect(tasks, titles, order).Keys == set i | 0 <= i < |titles| :: titles[i]
  {
    CollectKeys(tasks, titles, order);
    var keys := Collect(tasks, titles, order).Keys;
    forall t | t in (set i | 0 <= i < |titles| :: titles[i]) ensures t in keys {
      var i :| 0 <= i < |titles| && titles[i] == t;
      assert i in order;
      var j :| 0 <= j < |order| && order[j] == i;
      assert titles[order[j]] == t;
    }
  }

  /** The results dictionary has exactly the titles as keys, each distinct
      title maps to its own task's result, and every entry is well shaped. */
  lemma CollectCoversTitles(tasks: seq<Task>, titles: seq<string>, order: seq<nat>)
    requires |tasks| == |titles| && IsPermutation(order, |titles|)
    requires forall i :: 0 <= i < |tasks| ==> WellShaped(tasks[i].result)
    ensures Collect(tasks, titles, order).Keys == set i | 0 <= i < |titles| :: titles[i]
    ensures forall t :: t in Collect(tasks, titles, order) ==> WellShaped(Collect(tasks, titles, order)[t])
    ensures (forall a, b :: 0 <= a < b < |titles| ==> titles[a] != titles[b]) ==>
              forall i :: 0 <= i < |titles| ==> Collect(tasks, titles, order)[titles[i]] == tasks[i].result
  {
    TitlesAreKeys(tasks, titles, order);
    CollectShapes(tasks, titles, order);
    if forall a, b :: 0 <= a < b < |titles| ==> titles[a] != titles[b] {
      forall i | 0 <= i < |titles| ensures Collect(tasks, titles, order)[titles[i]] == tasks[i].result {
        assert i in order;
        CollectEntry(tasks, titles, order, i);
      }
    }
  }

  lemma {:induction false} CollectShapes(tasks: seq<Task>, titles: seq<string>, order: seq<nat>)
    requires |tasks| == |titles| && forall j :: 0 <= j < |order| ==> order[j] < |titles|
    requires forall i :: 0 <= i < |tasks| ==> WellShaped(tasks[i].result)
    ensures forall t :: t in Collect(tasks, titles, order) ==> WellShaped(Collect(tasks, titles, order)[t])
    decreases |order|
  {
    if order != [] {
      CollectShapes(tasks, titles, order[..|order| - 1]);
    }
  }

  /** The paths written by the tasks in `order`. */
  function WrittenPaths(tasks: seq<Task>, order: seq<nat>): set<string>
    requires forall j :: 0 <= j < |order| ==> order[j] < |tasks|
  {
    set j | 0 <= j < |order| && tasks[order[j]].written.Some? :: tasks[order[j]].written.value.0
  }

  /** The files afterwards are the files before plus one per successful task,
      and each written file holds the content of a task that wrote that path. */
  lemma {:induction false} ApplyWrites(files: map<string, string>, tasks: seq<Task>, order: seq<nat>)
    requires forall j :: 0 <= j < |order| ==> order[j] < |tasks|
    ensures Apply(files, tasks, order).Keys == files.Keys + WrittenPaths(tasks, order)
    ensures forall p :: p in WrittenPaths(tasks, order) ==>
              exists j :: 0 <= j < |order| && tasks[order[j]].written == Some((p, Apply(files, tasks, order)[p]))
    ensures forall p :: p in files && p !in WrittenPaths(tasks, order) ==> Apply(files, tasks, order)[p] == files[p]
    decreases |order|
  {
    if order != [] {
      var front := order[..|order| - 1];
      ApplyWrites(files, tasks, front);
      assert forall j :: 0 <= j < |front| ==> front[j] == order[j];
      var last := order[|order| - 1];
      var after := Apply(files, tasks, order);
      assert WrittenPaths(tasks, order) ==
             WrittenPaths(tasks, front) + (if tasks[last].written.Some? then {tasks[last].written.value.0} else {}) by {
        forall p | p in WrittenPaths(tasks, order)
          ensures p in WrittenPaths(tasks, front) || (tasks[last].written.Some? && p == tasks[last].written.value.0)
        {
          var j :| 0 <= j < |order| && tasks[order[j]].written.Some? && tasks[order[j]].written.value.0 == p;
          if j < |front| {
            assert front[j] == order[j];
          }
        }
        if tasks[last].written.Some? {
          assert order[|order| - 1] == last;
        }
      }
      forall p | p in WrittenPaths(tasks, order)
        ensures exists j :: 0 <= j < |order| && tasks[order[j]].written == Some((p, after[p]))
      {
        if tasks[last].written.Some? && tasks[last].written.value.0 == p {
          assert tasks[order[|order| - 1]].written == Some((p, after[p]));
        } else {
          var j :| 0 <= j < |front| &&
                   tasks[front[j]].written == Some((p, Apply(files, tasks, front)[p]));
          assert tasks[order[j]].written == Some((p, after[p]));
        }
      }
    }
  }

  /** The set of paths that exist afterwards does not depend on the
      completion order. */
  lemma WrittenPathsIndependentOfOrder(files: map<string, string>, tasks: seq<Task>, o1: seq<nat>, o2: seq<nat>)
    requires IsPermutation(o1, |tasks|) && IsPermutation(o2, |tasks|)
    ensures Apply(files, tasks, o1).Keys == Apply(files, tasks, o2).Keys
  {
    ApplyWrites(files, tasks, o1);
    ApplyWrites(files, tasks, o2);
    forall p | p in WrittenPaths(tasks, o1) ensures p in WrittenPaths(tasks, o2) {
      var j :| 0 <= j < |o1| && tasks[o1[j]].written.Some? && tasks[o1[j]].written.value.0 == p;
      var i := o1[j];
      assert i in o2;
      var k :| 0 <= k < |o2| && o2[k] == i;
      assert tasks[o2[k]].written.value.0 == p;
    }
    forall p | p in WrittenPaths(tasks, o2) ensures p in WrittenPaths(tasks, o1) {
      var j :| 0 <= j < |o2| && tasks[o2[j]].written.Some? && tasks[o2[j]].written.value.0 == p;
      var i := o2[j];
      assert i in o1;
      var k :| 0 <= k < |o1| && o1[k] == i;
      assert tasks[o1[k]].written.value.0 == p;
    }
  }

  /** A reply whose content is only whitespace is stripped to the empty text
      and reported as no valid response; nothing is written. */
  lemma BlankContentFails(g: ArticleGenerator, env: Env, template: string, outputDir: string, title: string, i: nat)
    requires env.format(template, title).Ok?
    requires Client.RetryCount(g.client.maxRetries).Some? && Client.RetryCount(g.client.maxRetries).value >= 1
    requires env.provider(i, 1).Replied? && |env.provider(i, 1).choices| > 0
    requires env.provider(i, 1).choices[0].Some? && env.provider(i, 1).choices[0].value != []
    requires Utils.IsBlank(env.provider(i, 1).choices[0].value)
    ensures SingleArticle(g, env, template, outputDir, title, i) == Task(Failure(NoValidResponse), None)
  {
    assert TaskProvider(env, i)(1) == env.provider(i, 1);
  }

  /** A reply without content is not a failure: the fallback text
      "No response generated." is sanitised and written as the article. */
  lemma AbsentContentIsWritten(g: ArticleGenerator, env: Env, template: string, outputDir: string, title: string, i: nat)
    requires env.format(template, title).Ok?
    requires Client.RetryCount(g.client.maxRetries).Some? && Client.RetryCount(g.client.maxRetries).value >= 1
    requires env.provider(i, 1) == Client.Replied([None])
    requires env.write(OutputPath(env, outputDir, title, i)) == Written
    ensures SingleArticle(g, env, template, outputDir, title, i).result.success
    ensures SingleArticle(g, env, template, outputDir, title, i).written ==
              Some((OutputPath(env, outputDir, title, i), Utils.Sanitized(Client.NoResponse)))
  {
    assert TaskProvider(env, i)(1) == env.provider(i, 1);
  }
}
