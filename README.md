# sass-rails template handlers, modelled in Dafny

This project models the logic of `lib/sass/rails/template_handlers.rb` in
sass-rails. That file plugs the Sass compiler into the Sprockets asset
pipeline. Two parts carry logic:

- `Sass::Rails::Resolver` finds the file behind an asset reference made from a
  stylesheet.
  - `simulate_sprockets_resolve` is the strict lookup. It returns an existing
    absolute path as is.
  - Otherwise, if no content type was requested, it returns the
    environment's plain lookup: the first candidate with no type filter, or
    `FileNotFound` when there is none.
  - Otherwise, a content type was requested, and it computes the effective
    type (`:self` means the context's own type). If the path's format
    extension implies another type, it raises `ContentTypeMismatch`. If not,
    it returns the first candidate the environment enumerates whose content
    type is the context's. If no candidate has that type, it raises
    `FileNotFound`.
  - `resolve` is the lenient lookup. It turns both errors into `nil`.
- `SassTemplate#sass_options` builds the Sass engine's options. It starts from
  the Rails options, puts the importer in front of the configured load paths,
  and sets the file names, line, syntax, importer and resolver.
  `ScssTemplate` differs from `SassTemplate` only in its syntax (`:scss`
  instead of `:sass`).

Files:

- `sprockets.dfy` (module `Sprockets`): the Sprockets environment as an
  abstract, read-only value. It has these functions:
  - `stat`
  - `attributesFor` (format extension and content type)
  - the candidate sequence for a path under a base path
  - `contentTypeOf`
- `resolver.dfy` (module `Resolver`): the resolver as total functions that
  return an `Outcome`: `Found(p)`, `Nil`, `ContentTypeMismatch` or
  `FileNotFound`.
- `resolver_properties.dfy` (module `ResolverProperties`): lemmas over all
  inputs, and concrete environments that show the rules at work.
- `sass_template.dfy` (module `SassTemplate`): the options hash as a
  `map<Key, Value>`, load paths as a sequence, and `sass_options` as a method.

Modelling decisions:

- The recursive call at line 43 hands a block to `simulate_sprockets_resolve`.
  That block runs `return candidate`, which leaves the *outer* call. So one
  call ends in one of two ways, modelled as `Completion`:
  - `Normal(outcome)`: the call returned normally.
  - `BlockReturn(candidate)`: the block returned out of the outer call.

  The `block` parameter is true only for that recursive call.
- The candidate filter at line 44 compares with `context.content_type`, not
  with the requested type computed at line 34. The model keeps this.
  `FilterUsesContextTypeNotRequested` exhibits it, and
  `RequestedTypeOnlyGuardsMismatch` states its general consequence.
- Line 51 passes `self.pathname.dirname` as the base path. `Resolver` does not
  define a `pathname` method. The model takes this base path as an opaque
  field of the context and assumes nothing about it.
- Line 38 raises `ContentTypeMismatch` without the `Sprockets::` prefix.
  Ruby looks that name up from `Sass::Rails::Resolver`, so it finds
  `Sprockets::ContentTypeMismatch` only if `Sass::Rails` defines a constant
  of that name elsewhere. This file does not define one, and whether another
  file does is not known here. Without such a constant, line 38 raises
  `NameError`, which line 18 does not rescue. The model assumes, without
  having checked, that the name denotes the Sprockets error that line 18
  rescues.
- Sprockets' own `resolve` is not part of this model. The model assumes how it
  behaves on the environment's candidate sequence:
  - without a block, it returns the first candidate or raises `FileNotFound`;
  - with a block, it yields the candidates in order, and `nil` comes back when
    the block never returns.
- Inputs the model takes as parameters:
  - the Rails options (`sass_config`)
  - the importer (`Sass::Rails::Importer.new(scope)`) and the resolver, both
    known only by identity
  - `eval_file`
  - `line`
  - the CSS file name (`Resolver#source_path`)

## Model

| member | source | states |
|---|---|---|
| `Resolver.EffectiveType` | lib/sass/rails/template_handlers.rb:33-34 | A request for `:self` stands for the context's content type; an explicit type stands for itself. |
| `Resolver.FirstOfType` | lib/sass/rails/template_handlers.rb:43-47 | The index it returns is that of a candidate with the wanted content type, and no earlier candidate has that type. When it returns nothing, no candidate has that type. |
| `Resolver.EnvironmentResolve` | lib/sass/rails/template_handlers.rb:43-51 | Without a block, the environment's lookup returns the first candidate, or `FileNotFound` when there is none. With the block of line 43, it either returns from the block with the first candidate of the context's content type (no earlier candidate has that type), or ends normally with `nil` when no candidate has that type. |
| `Resolver.SimulateSprocketsResolve` | lib/sass/rails/template_handlers.rb:26-53 | An absolute path that `stat` accepts is `Found` as is, for any options and block. A call without a block always returns normally and never with `nil`. Only the recursive call with no options can end by the block's return. `ContentTypeMismatch` arises only when a content type was requested and the path has a format extension. |
| `Resolver.Resolve` | lib/sass/rails/template_handlers.rb:14-20 | `resolve` never yields an error; its result is a file or `nil`. A file found by the strict lookup is returned unchanged. `ContentTypeMismatch` and `FileNotFound` both become `nil`. |
| `ResolverProperties.ResolveWithoutTypeIsPlainLookup` | lib/sass/rails/template_handlers.rb:14-17 | With `content_type = nil`, a path that is not an existing absolute one resolves to the environment's first candidate, or `nil` when there is none. This is the plain lookup of lines 50-51. The result is the same whatever the context's type, the path attributes and the candidates' types are, so no type check takes place. |
| `ResolverProperties.ExistingAbsolutePathResolvesToItself` | lib/sass/rails/template_handlers.rb:30-31 | An existing absolute path resolves to itself whatever content type is requested, `nil` included. |
| `ResolverProperties.SelfMeansContextType` | lib/sass/rails/template_handlers.rb:33-34 | A request for `:self` behaves exactly like an explicit request for the context's content type, in every case. |
| `ResolverProperties.MismatchFailsBeforeLookup` | lib/sass/rails/template_handlers.rb:36-41 | Take a path that is not an existing absolute one, whose format extension is present and whose attribute type differs from the effective requested type. It fails with `ContentTypeMismatch`, which carries the path, the attribute type and the expected type. The outcome is the same for any candidate sequence, so no candidate is enumerated. `resolve` gives `nil` for it. |
| `ResolverProperties.RecursiveCallIsBlockLookup` | lib/sass/rails/template_handlers.rb:43-51 | The recursive call of line 43 carries no options, so it always reaches the environment lookup with the block of lines 50-51. If it returns normally, it returns `nil`. |
| `ResolverProperties.TypedLookupFindsFirstOfContextType` | lib/sass/rails/template_handlers.rb:43-49 | Past the mismatch check, a typed request has one of two results. It is `Found(c)`, where `c` is the first enumerated candidate whose `content_type_of` equals the context's content type. Or it is `FileNotFound(path)`, exactly when no candidate has that type. |
| `ResolverProperties.RequestedTypeOnlyGuardsMismatch` | lib/sass/rails/template_handlers.rb:36-44 | When the path has no format extension, the mismatch check is skipped. Any two typed requests for that path then have the same outcome, and it is never `ContentTypeMismatch`. |
| `ResolverProperties.FirstEnumeratedStylesheetWins` | lib/sass/rails/template_handlers.rb:43-47 | Two stylesheets share one logical name. The one the environment enumerates first is returned. |
| `ResolverProperties.ImageIsNotStylesheet` | lib/sass/rails/template_handlers.rb:36-41 | A `.png` path asked for as `text/css` is a `ContentTypeMismatch` from `image/png`, and `resolve` gives `nil` for it. |
| `ResolverProperties.AbsoluteFontDespiteType` | lib/sass/rails/template_handlers.rb:30-31 | An existing absolute font path asked for as `text/css` is returned as is. |
| `ResolverProperties.FilterUsesContextTypeNotRequested` | lib/sass/rails/template_handlers.rb:44 | While a script is compiled, an explicit `text/css` request for an extension-less name returns the script candidate, which is not a stylesheet. |
| `SassTemplate.Syntax` | lib/sass/rails/template_handlers.rb:103-105 | The syntax is `:sass` exactly for `SassTemplate` and `:scss` exactly for `ScssTemplate` (the override at lines 146-148). |
| `SassTemplate.ConfiguredLoadPaths` | lib/sass/rails/template_handlers.rb:114 | `options[:load_paths] || []` gives the configured array when there is one. It gives an empty list when the entry is absent or falsy. |
| `SassTemplate.Merge` | lib/sass/rails/template_handlers.rb:118-128 | `Hash#merge` keeps every key of both hashes. The merged-in hash wins on shared keys, and every other key keeps its first value. |
| `SassTemplate.SassOptions` | lib/sass/rails/template_handlers.rb:111-129 | The keys are those of the Rails options plus the seven set here. `:load_paths` is the importer followed by the configured load paths in their order, or by none. `:importer` is that same importer. `:syntax` is `:sass` for `SassTemplate` and `:scss` for `ScssTemplate` (lines 103-105 and 146-148). `:filename`, `:css_filename`, `:line` and `:custom => {:resolver}` are the given values. Every other Rails key keeps its value. |

## Left out

- Path helpers (`source_path`, `public_path`, `image_path`, `video_path`, `audio_path`, `javascript_path`, `stylesheet_path`, `font_path`): they only delegate to the Rails asset paths or to the context, with the global Rails configuration; `source_path`'s result enters `SassOptions` as the `cssFilename` input.
- `process`: a Sprockets asset fetch followed by `to_s`, foreign code.
- `engine_initialized?`, `initialize_engine`, `prepare`, `default_mime_type`: Tilt engine registration only.
- `evaluate` and `importer`: the Sass engine's render and the construction of `Sass::Rails::Importer`, both foreign code; the importer enters as an opaque identity.
- `sass_options_from_rails`: reads the Rails configuration; its result is the `rails` input of `SassOptions`.
- Sprockets' real `stat`, `attributes_for`, `resolve` and `content_type_of`, and `Pathname#absolute?`: file-system I/O inside libraries; they are abstract inputs.
- The error messages' text: the errors carry the path and the types the messages interpolate, not the formatted strings.
- SassOptions: a truthy `:load_paths` entry that is not an array (a string, say) is excluded by the precondition `LoadPathsConfigured`. For such an entry, the `dup` and `unshift` at lines 114-115 raise `NoMethodError`, and the model does not represent that error.
- SassOptions: the `dup` of the configured load-path array is implicit, since sequences are values; the model does not capture that the configured array and the new one are distinct objects.
- Resolve: an explicit content type of `false`, which Ruby would pass on and then treat like an absent option, is not modelled; only `nil`, `:self` and a content type are.
- Determinism and the absence of hidden state hold by construction, since the resolver is modelled by functions of their arguments.
