/**
 * `Sass::Rails::SassTemplate` and `Sass::Rails::ScssTemplate`: the Tilt
 * templates that hand a stylesheet to the Sass engine. What is modelled is
 * how they assemble the engine's options from the ones Rails configures.
 */
module SassTemplate {

  /** A Ruby hash key (a symbol, written without its colon). */
  type Key = string

  /** The Ruby values that travel in an options hash. */
  datatype Value =
    | Nil
    | Bool(b: bool)
    | Number(n: int)
    | Text(s: string)
    | Symbol(name: string)
    | Object(id: nat)
    | List(items: seq<Value>)
    | Hash(entries: map<Key, Value>)

  /** The two template classes; `ScssTemplate` only overrides `syntax`. */
  datatype Template = Sass | Scss

  const FilenameKey: Key := "filename"
  const CssFilenameKey: Key := "css_filename"
  const LineKey: Key := "line"
  const SyntaxKey: Key := "syntax"
  const ImporterKey: Key := "importer"
  const LoadPathsKey: Key := "load_paths"
  const CustomKey: Key := "custom"

  /** The keys `sass_options` sets over the Rails options. */
  const OverriddenKeys: set<Key> :=
    {FilenameKey, CssFilenameKey, LineKey, SyntaxKey, ImporterKey, LoadPathsKey, CustomKey}

  /** `syntax`: `:sass`, overridden by `ScssTemplate` to `:scss`. */
  function Syntax(template: Template): (s: Value)
    ensures s == Symbol("sass") <==> template == Sass
    ensures s == Symbol("scss") <==> template == Scss
  {
    match template
    case Sass => Symbol("sass")
    case Scss => Symbol("scss")
  }

  /** Ruby truthiness: everything but `nil` and `false`. */
  predicate Truthy(v: Value)
  {
    !(v.Nil? || v == Bool(false))
  }

  /**
   * `(options[:load_paths] || [])` can be `dup`ed and `unshift`ed only when
   * it is an array: the configured entry is absent, falsy or an array.
   */
  predicate LoadPathsConfigured(rails: map<Key, Value>)
  {
    LoadPathsKey in rails && Truthy(rails[LoadPathsKey]) ==> rails[LoadPathsKey].List?
  }

  /** The configured load paths: the Rails entry, or none when it is absent or falsy. */
  function ConfiguredLoadPaths(rails: map<Key, Value>): (paths: seq<Value>)
    requires LoadPathsConfigured(rails)
    ensures LoadPathsKey in rails && rails[LoadPathsKey].List? ==> paths == rails[LoadPathsKey].items
    ensures LoadPathsKey !in rails || !Truthy(rails[LoadPathsKey]) ==> paths == []
  {
    if LoadPathsKey in rails && Truthy(rails[LoadPathsKey]) then rails[LoadPathsKey].items else []
  }

  /** `Hash#merge`: every key of both, the second hash winning where both have one. */
  function Merge(base: map<Key, Value>, overrides: map<Key, Value>): (r: map<Key, Value>)
    ensures r.Keys == base.Keys + overrides.Keys
    ensures forall k :: k in overrides ==> r[k] == overrides[k]
    ensures forall k :: k in base && k !in overrides ==> r[k] == base[k]
  {
    base + overrides
  }

  /**
   * `sass_options(scope)`. The Rails options (`sass_config`), the importer
   * and the resolver built for this scope are inputs, as are the template's
   * file (`eval_file`), its line and the CSS file name that
   * `Resolver#source_path` computes; importer and resolver are objects
   * known only by identity.
   */
  method SassOptions(template: Template, rails: map<Key, Value>, importer: nat, resolver: nat,
                     evalFile: string, cssFilename: string, line: int)
    returns (options: map<Key, Value>)
    requires LoadPathsConfigured(rails)
    ensures options.Keys == rails.Keys + OverriddenKeys
    ensures options[LoadPathsKey] == List([Object(importer)] + ConfiguredLoadPaths(rails))
    ensures options[ImporterKey] == Object(importer)
    ensures options[SyntaxKey] == (if template == Scss then Symbol("scss") else Symbol("sass"))
    ensures options[FilenameKey] == Text(evalFile)
    ensures options[CssFilenameKey] == Text(cssFilename)
    ensures options[LineKey] == Number(line)
    ensures options[CustomKey] == Hash(map["resolver" := Object(resolver)])
    ensures forall k :: k in rails && k !in OverriddenKeys ==> options[k] == rails[k]
  {
    var loadPaths := ConfiguredLoadPaths(rails);
    loadPaths := [Object(importer)] + loadPaths;
    var overrides := map[
      FilenameKey := Text(evalFile),
      CssFilenameKey := Text(cssFilename),
      LineKey := Number(line),
      SyntaxKey := Syntax(template),
      ImporterKey := Object(importer),
      LoadPathsKey := List(loadPaths),
      CustomKey := Hash(map["resolver" := Object(resolver)])
    ];
    assert overrides.Keys == OverriddenKeys;
    options := Merge(rails, overrides);
  }
}
