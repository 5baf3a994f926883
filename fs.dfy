/** What the scaffolder sees of fs-extra: the errors its calls raise and the
    manifest (`package.json`) that `readJson` and `writeJson` exchange. */
module Fs {
  import opened Wrappers

  /** The exceptions the filesystem calls raise, as values. */
  datatype Error =
    | TemplateNotFound(path: string)   // createFromTemplate's own check
    | NoSuchFile(path: string)         // ENOENT
    | IsADirectory(path: string)       // EISDIR, or a file copied over a directory
    | NotADirectory(path: string)      // ENOTDIR, or a directory made over a file
    | InvalidJson(path: string)        // readJson on text that is not a manifest

  /** The fields of `package.json` the program reads. `description` is
      `None` when the field is missing or not a string. */
  datatype Manifest = Manifest(name: string, description: Option<string>)

  /** JSON reading and writing, left abstract: `parse` is `readJson` on a
      file's text (`None` when it throws), `render` is `writeJson`'s text. */
  datatype JsonCodec = JsonCodec(parse: string -> Option<Manifest>, render: Manifest -> string)

  /** A codec whose written text reads back as what was written. */
  ghost predicate RoundTrips(codec: JsonCodec) {
    forall m :: codec.parse(codec.render(m)) == Some(m)
  }
}
