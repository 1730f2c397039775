/**
 * `Sass::Rails::Resolver`: finds the file behind an asset reference made
 * from a stylesheet, by asking the Sprockets environment of the current
 * compilation context. The resolver only reads its context, so both of its
 * resolving operations are functions of the context and their arguments.
 */
module Resolver {
  import opened Sprockets

  /**
   * The Sprockets context a resolver is bound to (`@context`):
   * - `environment`: the asset environment it queries;
   * - `contentType`: the content type of the asset being compiled;
   * - `isAbsolute`: `Pathname#absolute?` as the host platform answers it;
   * - `basePath`: the directory handed to the environment as `:base_path`
   *   (written `self.pathname.dirname` in the source; nothing is assumed
   *   about its value).
   */
  datatype Context = Context(
    environment: Environment,
    contentType: ContentType,
    isAbsolute: Path -> bool,
    basePath: Path)

  /** The value of the `:content_type` option: `:self` or a given type. */
  datatype RequestedType = SelfType | Explicit(contentType: ContentType)

  /**
   * How a resolution ends: a file, `nil`, or one of the two Sprockets
   * errors, each carrying what its message reports.
   */
  datatype Outcome =
    | Found(path: Path)
    | Nil
    | ContentTypeMismatch(path: Path, actual: ContentType, expected: ContentType)
    | FileNotFound(path: Path)

  /**
   * How one call of `simulate_sprockets_resolve` ends: it returns normally
   * with an outcome, or the block given to it by the call at line 43 runs
   * `return candidate`, which leaves the block's enclosing call instead.
   */
  datatype Completion = Normal(outcome: Outcome) | BlockReturn(candidate: Path)

  /** The content type a request stands for: `:self` is the context's own. */
  function EffectiveType(ctx: Context, requested: RequestedType): (t: ContentType)
    ensures requested == SelfType ==> t == ctx.contentType
    ensures requested.Explicit? ==> t == requested.contentType
  {
    match requested
    case SelfType => ctx.contentType
    case Explicit(t) => t
  }

  /** The files the environment enumerates for `path` under the base path. */
  function Candidates(ctx: Context, path: Path): seq<Path>
  {
    ctx.environment.candidates(path, ctx.basePath)
  }

  /**
   * The index of the first candidate whose content type is `t`: where the
   * block of line 43 returns, as the environment yields the candidates in
   * order.
   */
  function FirstOfType(candidates: seq<Path>, contentTypeOf: Path -> ContentType, t: ContentType): (r: Option<nat>)
    ensures r.Some? ==> r.value < |candidates| && contentTypeOf(candidates[r.value]) == t
    ensures r.Some? ==> forall j :: 0 <= j < r.value ==> contentTypeOf(candidates[j]) != t
    ensures r.None? ==> forall j :: 0 <= j < |candidates| ==> contentTypeOf(candidates[j]) != t
  {
    if |candidates| == 0 then None
    else if t == contentTypeOf(candidates[0]) then Some(0)
    else
      match FirstOfType(candidates[1..], contentTypeOf, t)
      case None => None
      case Some(i) => Some(i + 1)
  }

  /**
   * The environment's own `resolve(path, :base_path => ...)`. Without a
   * block it returns the first candidate or raises `FileNotFound`. With the
   * block of line 43 it yields the candidates in order: the block returns
   * from its enclosing call with the first one whose content type is the
   * context's, and if there is none the lookup returns `nil`.
   */
  function EnvironmentResolve(ctx: Context, path: Path, block: bool): (c: Completion)
    ensures !block ==> c.Normal?
    ensures !block && |Candidates(ctx, path)| > 0 ==> c.outcome == Found(Candidates(ctx, path)[0])
    ensures !block && |Candidates(ctx, path)| == 0 ==> c.outcome == FileNotFound(path)
    ensures block && c.BlockReturn? ==>
      exists i :: 0 <= i < |Candidates(ctx, path)| && Candidates(ctx, path)[i] == c.candidate
        && ctx.environment.contentTypeOf(Candidates(ctx, path)[i]) == ctx.contentType
        && forall j :: 0 <= j < i ==> ctx.environment.contentTypeOf(Candidates(ctx, path)[j]) != ctx.contentType
    ensures block && c.Normal? ==>
      c.outcome == Nil &&
      forall j :: 0 <= j < |Candidates(ctx, path)| ==> ctx.environment.contentTypeOf(Candidates(ctx, path)[j]) != ctx.contentType
  {
    var candidates := Candidates(ctx, path);
    if !block then
      if |candidates| > 0 then Normal(Found(candidates[0])) else Normal(FileNotFound(path))
    else
      match FirstOfType(candidates, ctx.environment.contentTypeOf, ctx.contentType)
      case Some(i) => BlockReturn(candidates[i])
      case None => Normal(Nil)
  }

  /**
   * `simulate_sprockets_resolve(path, options, &block)`. `contentType` is
   * the `:content_type` entry of `options` (`None` when it is absent) and
   * `block` says whether the block of line 43 is given, which only the
   * recursive call at that line does.
   */
  function SimulateSprocketsResolve(ctx: Context, path: Path, contentType: Option<RequestedType>, block: bool): (c: Completion)
    decreases if contentType.Some? then 1 else 0
    ensures ctx.isAbsolute(path) && ctx.environment.stat(path) ==> c == Normal(Found(path))
    ensures !block ==> c.Normal? && !c.outcome.Nil?
    ensures c.BlockReturn? ==> block && contentType.None?
    ensures c.Normal? && c.outcome.ContentTypeMismatch? ==>
      contentType.Some? && ctx.environment.attributesFor(path).formatExtension.Some?
  {
    var attributes := ctx.environment.attributesFor(path);
    if ctx.isAbsolute(path) && ctx.environment.stat(path) then
      Normal(Found(path))
    else if contentType.Some? then
      var expected := EffectiveType(ctx, contentType.value);
      if attributes.formatExtension.Some? && expected != attributes.contentType then
        Normal(ContentTypeMismatch(path, attributes.contentType, expected))
      else
        match SimulateSprocketsResolve(ctx, path, None, true)
        case BlockReturn(candidate) => Normal(Found(candidate))
        case Normal(_) => Normal(FileNotFound(path))
    else
      EnvironmentResolve(ctx, path, block)
  }

  /**
   * `resolve(path, content_type = :self)`: passes `content_type` on as the
   * `:content_type` option unless it is nil, and turns the two Sprockets
   * errors into `nil`.
   */
  function Resolve(ctx: Context, path: Path, contentType: Option<RequestedType> := Some(SelfType)): (r: Outcome)
    ensures r.Found? || r.Nil?
    ensures var strict := SimulateSprocketsResolve(ctx, path, contentType, false).outcome;
      (strict.Found? ==> r == strict) &&
      (strict.ContentTypeMismatch? || strict.FileNotFound? ==> r == Nil)
  {
    var outcome := SimulateSprocketsResolve(ctx, path, contentType, false).outcome;
    if outcome.ContentTypeMismatch? || outcome.FileNotFound? then Nil else outcome
  }
}
