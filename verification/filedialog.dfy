/** The main process's `open-file-dialog` handler (main.js): which path, if any, the dialog
    result hands back to the renderer. */
module FileDialog {
  import opened Wrappers

  /** The path returned for a dialog result; `None` stands for `null`. */
  function SelectedPath(canceled: bool, filePaths: seq<string>): (r: Option<string>)
    ensures r.Some? <==> !canceled && |filePaths| > 0
    ensures r.Some? ==> r.value == filePaths[0]
  {
    if !canceled && |filePaths| > 0 then Some(filePaths[0]) else None
  }
}
