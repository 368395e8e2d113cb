/** The nested configuration store (src/config.py): JSON-like values, the
    built-in defaults, the recursive merge of a user configuration onto them,
    dotted-path lookup and insertion, and the prompt template built from the
    prompt settings. Dictionaries are values here; nothing is shared between
    the defaults and a merged configuration. */
module Config {
  import opened Wrappers
  import Utils

  /** A configuration value as `json.load` or `yaml.safe_load` produce it. */
  datatype Value =
    | Str(s: string)
    | Int(i: int)
    | Num(r: real)
    | Bool(b: bool)
    | Null
    | Dict(entries: map<string, Value>)

  /** A configuration dictionary. */
  type Table = map<string, Value>

  // ---------------------------------------------------------------------
  // DEFAULT_CONFIG (src/config.py:12-32)
  // ---------------------------------------------------------------------

  const DefaultPromptSettings: Table := map[
    "style" := Str("丁寧で読みやすい文体"),
    "stance" := Str("中立的"),
    "target_audience" := Str("一般読者"),
    "article_length" := Dict(map["sections" := Int(3), "words_per_section" := Int(300)])
  ]

  const DefaultOpenAI: Table := map[
    "model" := Str("o4-mini"),
    "temperature" := Num(0.7),
    "max_tokens" := Int(1000)
  ]

  const DefaultProcessing: Table := map[
    "max_threads" := Int(10),
    "retry_attempts" := Int(3),
    "retry_delay" := Num(1.0)
  ]

  const DefaultConfig: Table := map[
    "prompt_settings" := Dict(DefaultPromptSettings),
    "openai" := Dict(DefaultOpenAI),
    "processing" := Dict(DefaultProcessing)
  ]

  // ---------------------------------------------------------------------
  // Dotted paths: get (src/config.py:75-86)
  // ---------------------------------------------------------------------

  /** `key.split('.')`. */
  function PathOf(key: string): (path: seq<string>)
    ensures |path| >= 1
  {
    Utils.Split(key, '.')
  }

  /** The value reached from `v` by following `path`, stepping only into
      dictionaries that hold the next key. */
  function Lookup(v: Value, path: seq<string>): (r: Option<Value>)
    ensures path == [] ==> r == Some(v)
    ensures path != [] && r.Some? ==> v.Dict? && path[0] in v.entries
    decreases |path|
  {
    if path == [] then Some(v)
    else if v.Dict? && path[0] in v.entries then Lookup(v.entries[path[0]], path[1..])
    else None
  }

  /** Following a path in two legs is following it at once. */
  lemma {:induction false} LookupConcat(v: Value, p: seq<string>, q: seq<string>)
    ensures Lookup(v, p + q) == match Lookup(v, p) case Some(w) => Lookup(w, q) case None => None
    decreases |p|
  {
    if p == [] {
      assert p + q == q;
    } else {
      assert (p + q)[0] == p[0] && (p + q)[1..] == p[1..] + q;
      if v.Dict? && p[0] in v.entries {
        LookupConcat(v.entries[p[0]], p[1..], q);
      }
    }
  }

  // ---------------------------------------------------------------------
  // Dotted paths: set (src/config.py:88-98)
  // ---------------------------------------------------------------------

  /** What `set` leaves in the dictionary `m` when it stores `v` at `path`:
      missing intermediate keys get fresh dictionaries, and `None` stands for
      the `TypeError` raised when an existing intermediate value is not a
      dictionary. */
  function Insert(m: Table, path: seq<string>, v: Value): (r: Option<Table>)
    requires |path| >= 1
    ensures r.Some? ==> r.value.Keys == m.Keys + {path[0]}
    ensures r.Some? ==> forall k :: k in m && k != path[0] ==> r.value[k] == m[k]
    ensures |path| == 1 ==> r.Some?
    decreases |path|
  {
    var k := path[0];
    if |path| == 1 then Some(m[k := v])
    else if k !in m then
      match Insert(map[], path[1..], v)
      case Some(t) => Some(m[k := Dict(t)])
      case None => None
    else if m[k].Dict? then
      match Insert(m[k].entries, path[1..], v)
      case Some(t) => Some(m[k := Dict(t)])
      case None => None
    else None
  }

  /** `set` raises exactly when some proper prefix of the path leads to an
      existing value that is not a dictionary. */
  lemma {:induction false} InsertFailsIff(m: Table, path: seq<string>, v: Value)
    requires |path| >= 1
    ensures Insert(m, path, v).None? <==>
              exists j :: 1 <= j < |path| && BlockedAt(Dict(m), path, j)
    decreases |path|
  {
    var k := path[0];
    if |path| > 1 {
      if k !in m {
        InsertIntoEmptySucceeds(path[1..], v);
        forall j | 1 <= j < |path| ensures !BlockedAt(Dict(m), path, j) {
          assert path[..j][0] == k;
        }
      } else if m[k].Dict? {
        InsertFailsIff(m[k].entries, path[1..], v);
        forall j | 1 <= j < |path|
          ensures BlockedAt(Dict(m), path, j) <==> (j >= 2 && BlockedAt(m[k], path[1..], j - 1))
        {
          assert path[..j] == [k] + path[1..][..j - 1];
          LookupConcat(Dict(m), [k], path[1..][..j - 1]);
        }
        if Insert(m, path, v).None? {
          var j' :| 1 <= j' < |path| - 1 && BlockedAt(m[k], path[1..], j');
          assert BlockedAt(Dict(m), path, j' + 1);
        }
      } else {
        assert path[..1] == [k] && [k][1..] == [];
        assert Lookup(Dict(m), [k]) == Lookup(m[k], []) == Some(m[k]);
        assert BlockedAt(Dict(m), path, 1);
      }
    }
  }

  /** The prefix of length `j` of `path` leads from `v` to an existing value that is not a dictionary. */
  predicate BlockedAt(v: Value, path: seq<string>, j: nat)
    requires j <= |path|
  {
    match Lookup(v, path[..j]) case Some(w) => !w.Dict? case None => false
  }

  lemma {:induction false} InsertIntoEmptySucceeds(path: seq<string>, v: Value)
    requires |path| >= 1
    ensures Insert(map[], path, v).Some?
    decreases |path|
  {
    if |path| > 1 {
      InsertIntoEmptySucceeds(path[1..], v);
    }
  }

  /** After a successful `set(k, v)`, `get(k)` returns `v`. */
  lemma {:induction false} GetAfterSet(m: Table, path: seq<string>, v: Value)
    requires |path| >= 1 && Insert(m, path, v).Some?
    ensures Lookup(Dict(Insert(m, path, v).value), path) == Some(v)
    decreases |path|
  {
    var k := path[0];
    if |path| > 1 {
      if k !in m {
        GetAfterSet(map[], path[1..], v);
      } else {
        GetAfterSet(m[k].entries, path[1..], v);
      }
    }
  }

  /** The two paths part ways before either ends. */
  predicate Diverge(p: seq<string>, q: seq<string>) {
    exists j :: 0 <= j < |p| && j < |q| && p[j] != q[j]
  }

  /** `set` leaves every path that parts ways with the written one as it was. */
  lemma {:induction false} SetLeavesOtherPaths(m: Table, path: seq<string>, v: Value, q: seq<string>)
    requires |path| >= 1 && Insert(m, path, v).Some? && Diverge(path, q)
    ensures Lookup(Dict(Insert(m, path, v).value), q) == Lookup(Dict(m), q)
    decreases |path|
  {
    var k := path[0];
    var m' := Insert(m, path, v).value;
    var j :| 0 <= j < |path| && j < |q| && path[j] != q[j];
    if q[0] != k {
    } else {
      assert j >= 1;
      assert Diverge(path[1..], q[1..]) by {
        assert path[1..][j - 1] != q[1..][j - 1];
      }
      if k !in m {
        SetLeavesOtherPaths(map[], path[1..], v, q[1..]);
        assert Lookup(Dict(map[]), q[1..]) == None;
      } else {
        SetLeavesOtherPaths(m[k].entries, path[1..], v, q[1..]);
      }
    }
  }

  /** `set` creates a dictionary only where an intermediate key was missing, and
      such a dictionary holds nothing but the next key of the path. */
  lemma {:induction false} SetCreatesOnlyMissing(m: Table, path: seq<string>, v: Value, j: nat)
    requires |path| >= 1 && Insert(m, path, v).Some? && 1 <= j < |path|
    ensures match Lookup(Dict(Insert(m, path, v).value), path[..j])
            case Some(w) =>
              w.Dict? && path[j] in w.entries &&
              (Lookup(Dict(m), path[..j]).None? ==> w.entries.Keys == {path[j]})
            case None => false
    decreases |path|
  {
    var k := path[0];
    var m' := Insert(m, path, v).value;
    assert path[..j] == [k] + path[1..][..j - 1];
    LookupConcat(Dict(m'), [k], path[1..][..j - 1]);
    LookupConcat(Dict(m), [k], path[1..][..j - 1]);
    var sub := if k in m then m[k].entries else map[];
    var t := Insert(sub, path[1..], v).value;
    assert m'[k] == Dict(t);
    if j == 1 {
      assert path[1..][..0] == [];
      if k !in m {
        AllKeysOfFresh(path[1..], v);
      }
    } else {
      SetCreatesOnlyMissing(sub, path[1..], v, j - 1);
      if k !in m {
        assert Lookup(Dict(m), path[..j]).None?;
        MissingStaysMissing(path[1..][..j - 1]);
      }
    }
  }

  lemma MissingStaysMissing(p: seq<string>)
    requires |p| >= 1
    ensures Lookup(Dict(map[]), p).None?
  {
  }

  /** Inserting into an empty dictionary leaves exactly the first key of the path. */
  lemma AllKeysOfFresh(path: seq<string>, v: Value)
    requires |path| >= 1 && Insert(map[], path, v).Some?
    ensures Insert(map[], path, v).value.Keys == {path[0]}
  {
  }

  // ---------------------------------------------------------------------
  // _merge_with_defaults / deep_merge (src/config.py:61-73)
  // ---------------------------------------------------------------------

  /** Whether the merge recurses at `k`: both sides hold dictionaries there. */
  predicate BothDicts(d: Table, c: Table, k: string) {
    k in d && k in c && d[k].Dict? && c[k].Dict?
  }

  /** The dictionary `deep_merge(default, custom)` leaves behind. */
  function Merged(d: Table, c: Table): (m: Table)
    ensures m.Keys == d.Keys + c.Keys
    decreases Dict(c)
  {
    map k | k in d.Keys + c.Keys ::
      if BothDicts(d, c, k) then Dict(Merged(d[k].entries, c[k].entries))
      else if k in c then c[k]
      else d[k]
  }

  /** Default keys the custom configuration lacks keep their default values;
      where both sides are dictionaries the merge recurses; everywhere else the
      custom value wins, whether it is a scalar over a dictionary or the reverse. */
  lemma MergedEntries(d: Table, c: Table)
    ensures forall k :: k in d && k !in c ==> Merged(d, c)[k] == d[k]
    ensures forall k :: k in c && !BothDicts(d, c, k) ==> Merged(d, c)[k] == c[k]
    ensures forall k :: BothDicts(d, c, k) ==>
              Merged(d, c)[k] == Dict(Merged(d[k].entries, c[k].entries))
  {
  }

  /** Merging an empty custom configuration gives the defaults back. */
  lemma MergeEmpty(d: Table)
    ensures Merged(d, map[]) == d
  {
  }

  /** Merging a configuration onto itself changes nothing. */
  lemma {:induction false} MergeSelf(d: Table)
    ensures Merged(d, d) == d
    decreases Dict(d)
  {
    forall k | k in d && d[k].Dict? ensures Merged(d[k].entries, d[k].entries) == d[k].entries {
      MergeSelf(d[k].entries);
    }
  }

  /** Applying the same custom configuration twice is the same as once. */
  lemma {:induction false} MergeTwice(d: Table, c: Table)
    ensures Merged(Merged(d, c), c) == Merged(d, c)
    decreases Dict(c)
  {
    var m := Merged(d, c);
    forall k | k in c && c[k].Dict? && m[k].Dict?
      ensures Merged(m[k].entries, c[k].entries) == m[k].entries
    {
      if BothDicts(d, c, k) {
        MergeTwice(d[k].entries, c[k].entries);
      } else {
        MergeSelf(c[k].entries);
      }
    }
  }

  /** Every value the custom configuration holds at a path, other than a
      dictionary, is what the merged configuration holds there. */
  lemma {:induction false} MergedKeepsCustomLeaves(d: Table, c: Table, path: seq<string>)
    requires match Lookup(Dict(c), path) case Some(w) => !w.Dict? case None => false
    ensures Lookup(Dict(Merged(d, c)), path) == Lookup(Dict(c), path)
    decreases |path|
  {
    var k := path[0];
    if |path| > 1 && BothDicts(d, c, k) {
      MergedKeepsCustomLeaves(d[k].entries, c[k].entries, path[1..]);
    }
  }

  /** `deep_merge`: walks the entries of `custom` and folds each into `default`,
      recursing where both hold dictionaries. */
  method DeepMerge(default: Table, custom: Table) returns (merged: Table)
    ensures merged == Merged(default, custom)
    decreases Dict(custom)
  {
    merged := default;
    var pending := custom.Keys;
    while pending != {}
      invariant pending <= custom.Keys
      invariant merged == Merged(default, custom - pending)
      decreases pending
    {
      var key :| key in pending;
      var value := custom[key];
      if key in merged && merged[key].Dict? && value.Dict? {
        var inner := DeepMerge(merged[key].entries, value.entries);
        merged := merged[key := Dict(inner)];
      } else {
        merged := merged[key := value];
      }
      MergeStep(default, custom, pending, key);
      pending := pending - {key};
    }
    assert custom - {} == custom;
  }

  /** Folding one more custom entry into a partial merge. */
  lemma MergeStep(d: Table, c: Table, pending: set<string>, key: string)
    requires key in pending && pending <= c.Keys
    ensures var m := Merged(d, c - pending);
            Merged(d, c - (pending - {key})) ==
              if key in m && m[key].Dict? && c[key].Dict?
              then m[key := Dict(Merged(m[key].entries, c[key].entries))]
              else m[key := c[key]]
  {
    var m := Merged(d, c - pending);
    assert key !in c - pending;
    if key in m && m[key].Dict? && c[key].Dict? {
      assert m[key] == d[key];
    }
  }

  /** `_merge_with_defaults(config)`: the user configuration merged onto the defaults. */
  method MergeWithDefaults(config: Table) returns (merged: Table)
    ensures merged == Merged(DefaultConfig, config)
    ensures config.Keys <= merged.Keys
    ensures forall k :: k in DefaultConfig && k !in config ==> merged[k] == DefaultConfig[k]
  {
    merged := DeepMerge(DefaultConfig, config);
  }

  /** With nothing to merge, the defaults come out unchanged: ten threads,
      three retry attempts, a one-second base delay. */
  lemma DefaultsWhenEmpty()
    ensures Merged(DefaultConfig, map[]) == DefaultConfig
    ensures Lookup(Dict(Merged(DefaultConfig, map[])), ["processing", "max_threads"]) == Some(Int(10))
    ensures Lookup(Dict(Merged(DefaultConfig, map[])), ["processing", "retry_attempts"]) == Some(Int(3))
    ensures Lookup(Dict(Merged(DefaultConfig, map[])), ["processing", "retry_delay"]) == Some(Num(1.0))
  {
    MergeEmpty(DefaultConfig);
    assert ["processing", "max_threads"][1..] == ["max_threads"];
    assert ["processing", "retry_attempts"][1..] == ["retry_attempts"];
    assert ["processing", "retry_delay"][1..] == ["retry_delay"];
  }

  // ---------------------------------------------------------------------
  // get_prompt_template (src/config.py:108-126)
  // ---------------------------------------------------------------------

  const TemplatePart0 := "以下の設定に従って、与えられたタイトルについて記事を執筆してください。\n\n文体・スタンス: "
  const TemplatePart1 := "、"
  const TemplatePart2 := "\n対象読者: "
  const TemplatePart3 := "\n記事構成: "
  const TemplatePart4 := "つの見出しで構成し、各セクション約"
  const TemplateTail0 := "文字\n\nタイトル: "
  const TemplatePart5 := TemplateTail0 + TitlePlaceholder + TemplateTail1
  const TemplateTail1 := "\n\nMarkdown形式で出力し、以下の構造を守ってください：\n# タイトル\n## 見出し1\n内容...\n## 見出し2\n内容...\n## 見出し3\n内容..."

  /** The placeholder the prompt template leaves for the article title. */
  const TitlePlaceholder := "{title}"

  /** `x` occurs in `s` starting at index `i`. */
  predicate OccursAt(x: string, s: string, i: nat) {
    i + |x| <= |s| && s[i..i + |x|] == x
  }

  /** `x` occurs somewhere in `s`. */
  predicate Occurs(x: string, s: string) {
    exists i :: 0 <= i <= |s| && OccursAt(x, s, i)
  }

  lemma OccursBetween(a: string, x: string, b: string, s: string)
    requires s == a + x + b
    ensures Occurs(x, s)
  {
    assert s[|a|..|a| + |x|] == x;
    assert OccursAt(x, s, |a|);
  }

  const StylePath := ["prompt_settings", "style"]
  const StancePath := ["prompt_settings", "stance"]
  const AudiencePath := ["prompt_settings", "target_audience"]
  const SectionsPath := ["prompt_settings", "article_length", "sections"]
  const WordsPath := ["prompt_settings", "article_length", "words_per_section"]

  /** The prompt text with the five rendered settings filled in; the title
      placeholder stays for `str.format`. */
  function Fill(style: string, stance: string, audience: string, sections: string, words: string): (t: string)
    ensures Occurs(TitlePlaceholder, t)
    ensures Occurs(style, t) && Occurs(stance, t) && Occurs(audience, t)
    ensures Occurs(sections, t) && Occurs(words, t)
  {
    var t := TemplatePart0 + style + TemplatePart1 + stance + TemplatePart2 + audience +
             TemplatePart3 + sections + TemplatePart4 + words + TemplatePart5;
    FilledOccurs(TemplatePart0, TemplatePart1, TemplatePart2, TemplatePart3, TemplatePart4,
                 TemplateTail0, TemplateTail1, style, stance, audience, sections, words);
    t
  }

  /** Each piece placed between fixed parts of a text occurs in that text. */
  lemma FilledOccurs(p0: string, p1: string, p2: string, p3: string, p4: string, q0: string, q1: string,
                     a: string, b: string, c: string, d: string, e: string)
    ensures var t := p0 + a + p1 + b + p2 + c + p3 + d + p4 + e + (q0 + TitlePlaceholder + q1);
            Occurs(a, t) && Occurs(b, t) && Occurs(c, t) && Occurs(d, t) && Occurs(e, t) &&
            Occurs(TitlePlaceholder, t)
  {
    var q := q0 + TitlePlaceholder + q1;
    var u0 := p0;
    OccursAtEnd(u0, a);
    var u1 := u0 + a;
    OccursExtend(a, u1, p1);
    var u2 := u1 + p1;
    OccursExtend(a, u2, b);
    OccursAtEnd(u2, b);
    var u3 := u2 + b;
    OccursExtend(a, u3, p2);
    OccursExtend(b, u3, p2);
    var u4 := u3 + p2;
    OccursExtend(a, u4, c);
    OccursExtend(b, u4, c);
    OccursAtEnd(u4, c);
    var u5 := u4 + c;
    OccursExtend(a, u5, p3);
    OccursExtend(b, u5, p3);
    OccursExtend(c, u5, p3);
    var u6 := u5 + p3;
    OccursExtend(a, u6, d);
    OccursExtend(b, u6, d);
    OccursExtend(c, u6, d);
    OccursAtEnd(u6, d);
    var u7 := u6 + d;
    OccursExtend(a, u7, p4);
    OccursExtend(b, u7, p4);
    OccursExtend(c, u7, p4);
    OccursExtend(d, u7, p4);
    var u8 := u7 + p4;
    OccursExtend(a, u8, e);
    OccursExtend(b, u8, e);
    OccursExtend(c, u8, e);
    OccursExtend(d, u8, e);
    OccursAtEnd(u8, e);
    var u9 := u8 + e;
    OccursExtend(a, u9, q);
    OccursExtend(b, u9, q);
    OccursExtend(c, u9, q);
    OccursExtend(d, u9, q);
    OccursExtend(e, u9, q);
    var u10 := u9 + q;
    OccursBetween(q0, TitlePlaceholder, q1, q);
    OccursPrepend(TitlePlaceholder, u9, q);
  }

  lemma OccursAtEnd(s: string, x: string)
    ensures Occurs(x, s + x)
  {
    assert (s + x)[|s|..|s| + |x|] == x;
    assert OccursAt(x, s + x, |s|);
  }

  lemma OccursExtend(x: string, s: string, u: string)
    requires Occurs(x, s)
    ensures Occurs(x, s + u)
  {
    var i :| 0 <= i <= |s| && OccursAt(x, s, i);
    assert (s + u)[i..i + |x|] == s[i..i + |x|];
    assert OccursAt(x, s + u, i);
  }

  lemma OccursPrepend(x: string, s: string, u: string)
    requires Occurs(x, u)
    ensures Occurs(x, s + u)
  {
    var i :| 0 <= i <= |u| && OccursAt(x, u, i);
    assert (s + u)[|s| + i..|s| + i + |x|] == u[i..i + |x|];
    assert OccursAt(x, s + u, |s| + i);
  }

  /** The setting at `path` of the configuration. */
  function Setting(config: Table, path: seq<string>): Option<Value> {
    Lookup(Dict(config), path)
  }

  /** All five settings the template quotes are present. */
  predicate HasPromptSettings(config: Table) {
    Setting(config, StylePath).Some? && Setting(config, StancePath).Some? &&
    Setting(config, AudiencePath).Some? && Setting(config, SectionsPath).Some? &&
    Setting(config, WordsPath).Some?
  }

  /** `get_prompt_template`; `render` is Python's `str()` of a value, and `None`
      stands for the `KeyError` or `TypeError` a missing or non-dictionary
      setting raises. */
  function PromptTemplate(config: Table, render: Value -> string): (r: Option<string>)
    ensures r.Some? <==> HasPromptSettings(config)
    ensures r.Some? ==>
              Occurs(TitlePlaceholder, r.value) &&
              Occurs(render(Setting(config, StylePath).value), r.value) &&
              Occurs(render(Setting(config, StancePath).value), r.value) &&
              Occurs(render(Setting(config, AudiencePath).value), r.value) &&
              Occurs(render(Setting(config, SectionsPath).value), r.value) &&
              Occurs(render(Setting(config, WordsPath).value), r.value)
  {
    if HasPromptSettings(config) then
      Some(Fill(render(Setting(config, StylePath).value), render(Setting(config, StancePath).value),
                render(Setting(config, AudiencePath).value), render(Setting(config, SectionsPath).value),
                render(Setting(config, WordsPath).value)))
    else None
  }

  /** The default settings are all present, so the default configuration has a template. */
  lemma DefaultTemplateExists(render: Value -> string)
    ensures PromptTemplate(DefaultConfig, render).Some?
  {
    assert StylePath[1..] == ["style"];
    assert StancePath[1..] == ["stance"];
    assert AudiencePath[1..] == ["target_audience"];
    assert SectionsPath[1..] == ["article_length", "sections"] && SectionsPath[1..][1..] == ["sections"];
    assert WordsPath[1..] == ["article_length", "words_per_section"] && WordsPath[1..][1..] == ["words_per_section"];
  }

  // ---------------------------------------------------------------------
  // ConfigManager (src/config.py:5-98)
  // ---------------------------------------------------------------------

  /** The configuration manager: one configuration dictionary that `set` updates in place. */
  class ConfigManager {
    var config: Table

    /** `__init__` after `_load_config`: the defaults when there is no file,
        otherwise the file's dictionary merged onto the defaults. */
    constructor (fileContents: Option<Table>)
      ensures config == match fileContents
                        case None => DefaultConfig
                        case Some(c) => Merged(DefaultConfig, c)
    {
      match fileContents
      case None =>
        config := DefaultConfig;
      case Some(c) =>
        var merged := MergeWithDefaults(c);
        config := merged;
    }

    /** `get(key, default)`: the value at the dotted path, or `default` when a
        step is missing or not a dictionary. */
    method Get(key: string, default: Value) returns (r: Value)
      ensures r == match Lookup(Dict(config), PathOf(key)) case Some(v) => v case None => default
    {
      var keys := PathOf(key);
      var value := Dict(config);
      for i := 0 to |keys|
        invariant Lookup(Dict(config), keys) == Lookup(value, keys[i..])
      {
        if value.Dict? && keys[i] in value.entries {
          value := value.entries[keys[i]];
        } else {
          return default;
        }
      }
      return value;
    }

    /** `set(key, value)`: stores `value` at the dotted path, creating missing
        intermediate dictionaries; `false` stands for the `TypeError` raised when
        an intermediate value is not a dictionary, and the configuration is then
        unchanged. */
    method Set(key: string, value: Value) returns (ok: bool)
      modifies this
      ensures ok == Insert(old(config), PathOf(key), value).Some?
      ensures ok ==> config == Insert(old(config), PathOf(key), value).value
      ensures !ok ==> config == old(config)
    {
      match Insert(config, PathOf(key), value)
      case Some(t) =>
        config := t;
        ok := true;
      case None =>
        ok := false;
    }

    /** `get_prompt_template` on the current configuration. */
    function Template(render: Value -> string): (r: Option<string>)
      reads this
      ensures r.Some? ==> Occurs(TitlePlaceholder, r.value)
    {
      PromptTemplate(config, render)
    }
  }
}
