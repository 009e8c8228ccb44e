/** An `export` line from the console through to the exporter: the
    interpreter's checks on the line, then the exporter's checks on its
    arguments, in that order. */
module Console {
  import opened Wrappers
  import opened Commands
  import opened Exporter

  /** Runs an `export` line: dispatch, then the exporter with the line's
      file name, format and orientation. `generated` and `written` are the
      generator's and the writer's outcomes. */
  function RunExportLine(tokens: seq<string>, generated: Result<Generated, string>, written: bool)
    : (r: Result<ExportJob, string>)
    requires |tokens| > 0 && tokens[0] == "export"
    ensures Interpret(tokens).Failure? ==> r == Failure(Interpret(tokens).error)
    ensures Interpret(tokens).Success? ==>
      r == ExportModel(tokens[1], tokens[2], tokens[3], generated, written)
  {
    match Interpret(tokens)
    case Failure(e) => Failure(e)
    case Success(c) =>
      if c.Export? then ExportModel(c.fileName, c.format, c.orientation, generated, written)
      else Failure(UnrecognizedError)
  }

  /** The file name is checked before the format and the orientation: an
      export line whose name the pattern refuses reports the invalid-name
      error, even when its format or orientation is also wrong. */
  lemma NameCheckedBeforeFormat(tokens: seq<string>, generated: Result<Generated, string>, written: bool)
    requires |tokens| == 4 && tokens[0] == "export"
    requires !InNameLanguage(tokens[1])
    ensures RunExportLine(tokens, generated, written) == Failure(InvalidNameError)
  {
  }

  /** With an accepted name, a format outside ply, obj and stl is what the
      line reports, whatever the orientation. */
  lemma FormatCheckedAfterName(tokens: seq<string>, generated: Result<Generated, string>, written: bool)
    requires |tokens| == 4 && tokens[0] == "export"
    requires InNameLanguage(tokens[1])
    requires tokens[2] !in SupportedFormats
    ensures RunExportLine(tokens, generated, written) == Failure(FormatError)
  {
    InterpretRender(Export(tokens[1], tokens[2], tokens[3]));
    assert Render(Export(tokens[1], tokens[2], tokens[3])) == tokens;
  }
}
