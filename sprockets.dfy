/**
 * The part of the Sprockets asset environment that the resolver consults,
 * as an abstract, read-only value. The real environment answers these
 * questions from the file system; here they are given functions.
 */
module Sprockets {

  datatype Option<T> = None | Some(value: T)

  /** A path or logical asset name, as a `Pathname` would hold it. */
  type Path = string

  /** A MIME content type such as "text/css". */
  type ContentType = string

  /**
   * What `attributes_for` says about a path: its format extension
   * (".css" in "a.css.scss"), if any, and the content type Sprockets
   * infers for it.
   */
  datatype Attributes = Attributes(formatExtension: Option<string>, contentType: ContentType)

  /**
   * The environment's read-only queries.
   * - `stat`: whether the file exists (a non-nil `File::Stat`);
   * - `attributesFor`: the attributes of a path;
   * - `candidates`: the files the environment's own `resolve` enumerates,
   *   in order, for a logical path looked up under a base path;
   * - `contentTypeOf`: the content type of one such file.
   */
  datatype Environment = Environment(
    stat: Path -> bool,
    attributesFor: Path -> Attributes,
    candidates: (Path, Path) -> seq<Path>,
    contentTypeOf: Path -> ContentType)
}
