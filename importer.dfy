/**
 * The `execute` method of the import operator: read the `.mhmat` lines,
 * then, unless a line was rejected, build the material. The file's lines,
 * `float()` and the image loader come in as parameters; what `execute`
 * writes to stderr comes back as the warnings.
 */
module Importer {
  import opened Wrappers
  import opened Text
  import opened Keywords
  import opened Parser
  import opened NodeGraph
  import opened Synthesis
  import opened Synthesiser

  /** What `execute` returns: FINISHED, or CANCELLED after reporting the
      failure. */
  datatype Status = Finished | Cancelled(failure: Failure)

  /** `execute`: cancelled with the first rejected line's failure and no
      material, or finished with a new material named after the file whose
      node tree and blend mode are the ones `Synthesize` gives for the
      parsed settings. The warnings are written in either case. */
  method Execute(host: Host, path: string, lines: seq<string>)
    returns (status: Status, warnings: seq<Warning>, material: Option<Material>)
    ensures warnings == ParseFile(host, path, lines).warnings
    ensures status.Cancelled? <==> ParseFile(host, path, lines).Failed?
    ensures status.Cancelled? ==> status.failure == ParseFile(host, path, lines).failure && material.None?
    ensures status.Finished? ==>
              && WellFormed(ParseFile(host, path, lines).settings)
              && material.Some? && fresh(material.value) && fresh(material.value.tree)
              && material.value.name == Basename(path)
              && material.value.tree.Snapshot() == Synthesize(ParseFile(host, path, lines).settings).graph
              && material.value.blendMethod == Synthesize(ParseFile(host, path, lines).settings).blend
  {
    var r;
    r, warnings := ParseLines(host, path, lines);
    match r
    case Failure(f) =>
      status, material := Cancelled(f), None;
    case Success(s) =>
      ParseKeepsWellFormed(host, path, Tokenize(lines), |lines|);
      var m := BuildMaterial(s);
      status, material := Finished, Some(m);
  }
}
