/**
 * What `Resolver#resolve` and `Resolver#simulate_sprockets_resolve`
 * promise, stated over all contexts and paths, and a few concrete
 * environments that show the rules at work.
 */
module ResolverProperties {
  import opened Sprockets
  import opened Resolver

  /**
   * Without a content type, `resolve` passes no `:content_type` option, so
   * a path that is not an existing absolute one goes straight to the
   * environment's plain lookup: the first candidate, or `nil`. No content
   * type is consulted on the way: neither the context's, nor the path's
   * attributes, nor those of the candidates.
   */
  lemma ResolveWithoutTypeIsPlainLookup(ctx: Context, path: Path, contentType: ContentType,
                                        attributesFor: Path -> Attributes, contentTypeOf: Path -> ContentType)
    requires !(ctx.isAbsolute(path) && ctx.environment.stat(path))
    ensures Resolve(ctx, path, None) ==
      if |Candidates(ctx, path)| > 0 then Found(Candidates(ctx, path)[0]) else Nil
    ensures Resolve(ctx.(contentType := contentType,
                         environment := ctx.environment.(attributesFor := attributesFor, contentTypeOf := contentTypeOf)),
                    path, None) == Resolve(ctx, path, None)
  {
  }

  /** An absolute path that exists is returned as is, whatever type was asked for. */
  lemma ExistingAbsolutePathResolvesToItself(ctx: Context, path: Path, contentType: Option<RequestedType>)
    requires ctx.isAbsolute(path) && ctx.environment.stat(path)
    ensures Resolve(ctx, path, contentType) == Found(path)
  {
  }

  /**
   * `:self` stands for the context's content type: asking for it behaves
   * exactly like asking for that type explicitly.
   */
  lemma SelfMeansContextType(ctx: Context, path: Path, block: bool)
    ensures SimulateSprocketsResolve(ctx, path, Some(SelfType), block) ==
            SimulateSprocketsResolve(ctx, path, Some(Explicit(ctx.contentType)), block)
  {
  }

  /**
   * A path whose format extension implies another type than the requested
   * one fails with `ContentTypeMismatch` before any lookup: the outcome is
   * the same whatever candidates the environment would offer.
   */
  lemma MismatchFailsBeforeLookup(ctx: Context, path: Path, requested: RequestedType, candidates: (Path, Path) -> seq<Path>)
    requires !(ctx.isAbsolute(path) && ctx.environment.stat(path))
    requires ctx.environment.attributesFor(path).formatExtension.Some?
    requires ctx.environment.attributesFor(path).contentType != EffectiveType(ctx, requested)
    ensures SimulateSprocketsResolve(ctx, path, Some(requested), false) ==
      Normal(ContentTypeMismatch(path, ctx.environment.attributesFor(path).contentType, EffectiveType(ctx, requested)))
    ensures SimulateSprocketsResolve(ctx.(environment := ctx.environment.(candidates := candidates)), path, Some(requested), false) ==
            SimulateSprocketsResolve(ctx, path, Some(requested), false)
    ensures Resolve(ctx, path, Some(requested)) == Nil
  {
  }

  /**
   * The recursive call at line 43 passes no options, so it always reaches
   * the environment's lookup with the block: it ends either with the
   * block's return of a candidate or with `nil`, never with a file
   * returned normally.
   */
  lemma RecursiveCallIsBlockLookup(ctx: Context, path: Path)
    requires !(ctx.isAbsolute(path) && ctx.environment.stat(path))
    ensures SimulateSprocketsResolve(ctx, path, None, true) == EnvironmentResolve(ctx, path, true)
    ensures SimulateSprocketsResolve(ctx, path, None, true).Normal? ==>
            SimulateSprocketsResolve(ctx, path, None, true).outcome == Nil
  {
  }

  /**
   * When the mismatch check passes, a typed request yields the first
   * candidate whose content type is the CONTEXT's (not necessarily the
   * requested one), or `FileNotFound` when no candidate has it.
   */
  lemma TypedLookupFindsFirstOfContextType(ctx: Context, path: Path, requested: RequestedType)
    requires !(ctx.isAbsolute(path) && ctx.environment.stat(path))
    requires !(ctx.environment.attributesFor(path).formatExtension.Some? &&
               ctx.environment.attributesFor(path).contentType != EffectiveType(ctx, requested))
    ensures var r := SimulateSprocketsResolve(ctx, path, Some(requested), false).outcome;
      r.Found? || r == FileNotFound(path)
    ensures var r := SimulateSprocketsResolve(ctx, path, Some(requested), false).outcome;
      var cs := Candidates(ctx, path);
      r.Found? ==>
        exists i :: 0 <= i < |cs| && cs[i] == r.path
          && ctx.environment.contentTypeOf(cs[i]) == ctx.contentType
          && forall j :: 0 <= j < i ==> ctx.environment.contentTypeOf(cs[j]) != ctx.contentType
    ensures var r := SimulateSprocketsResolve(ctx, path, Some(requested), false).outcome;
      var cs := Candidates(ctx, path);
      r.FileNotFound? <==> forall j :: 0 <= j < |cs| ==> ctx.environment.contentTypeOf(cs[j]) != ctx.contentType
  {
  }

  /**
   * Without a format extension the requested type plays no part at all:
   * every typed request for the path has the same outcome, and it is
   * never `ContentTypeMismatch`.
   */
  lemma RequestedTypeOnlyGuardsMismatch(ctx: Context, path: Path, requested: RequestedType, other: RequestedType)
    requires ctx.environment.attributesFor(path).formatExtension.None?
    ensures SimulateSprocketsResolve(ctx, path, Some(requested), false) ==
            SimulateSprocketsResolve(ctx, path, Some(other), false)
    ensures !SimulateSprocketsResolve(ctx, path, Some(requested), false).outcome.ContentTypeMismatch?
  {
  }

  // A small environment: a stylesheet that exists under two names, an image,
  // a script, and a font under an absolute path.

  function StyleTypeOf(p: Path): ContentType
  {
    if p == "app/styles/_base.scss" || p == "app/styles/base.css" then "text/css"
    else if p == "app/scripts/base.js" then "application/javascript"
    else "application/octet-stream"
  }

  function SampleEnvironment(): Environment
  {
    Environment(
      p => p == "/absolute/fonts/x.woff",
      p => if p == "images/logo.png" then Attributes(Some(".png"), "image/png")
           else if p == "/absolute/fonts/x.woff" then Attributes(Some(".woff"), "application/font-woff")
           else Attributes(None, "application/octet-stream"),
      (p, base) => if p == "styles/base" then ["app/styles/_base.scss", "app/styles/base.css"]
                   else if p == "base" then ["app/scripts/base.js", "app/styles/base.css"]
                   else [],
      StyleTypeOf)
  }

  function SampleContext(contentType: ContentType): Context
  {
    Context(SampleEnvironment(), contentType, p => |p| > 0 && p[0] == '/', "app/styles")
  }

  /** Of two stylesheets for one logical name, the first enumerated wins. */
  lemma FirstEnumeratedStylesheetWins()
    ensures SimulateSprocketsResolve(SampleContext("text/css"), "styles/base", Some(Explicit("text/css")), false)
            == Normal(Found("app/styles/_base.scss"))
  {
  }

  /** An image referenced where a stylesheet is asked for is a mismatch. */
  lemma ImageIsNotStylesheet()
    ensures SimulateSprocketsResolve(SampleContext("text/css"), "images/logo.png", Some(Explicit("text/css")), false)
            == Normal(ContentTypeMismatch("images/logo.png", "image/png", "text/css"))
    ensures Resolve(SampleContext("text/css"), "images/logo.png") == Nil
  {
  }

  /** An existing absolute path is returned despite its font type. */
  lemma AbsoluteFontDespiteType()
    ensures Resolve(SampleContext("text/css"), "/absolute/fonts/x.woff", Some(Explicit("text/css")))
            == Found("/absolute/fonts/x.woff")
  {
  }

  /**
   * The candidate filter compares with the context's type: compiling a
   * script, an explicit request for a stylesheet named "base" (no format
   * extension, so no mismatch) returns the script.
   */
  lemma FilterUsesContextTypeNotRequested()
    ensures SimulateSprocketsResolve(SampleContext("application/javascript"), "base", Some(Explicit("text/css")), false)
            == Normal(Found("app/scripts/base.js"))
    ensures StyleTypeOf("app/scripts/base.js") != "text/css"
  {
  }
}
