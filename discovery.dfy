/** The note-type test of file discovery (`is_notes_file`). */
module Discovery {
  import opened Wrappers
  import opened Text
  import opened Paths

  /** The extensions, in lower case, of the files the engine indexes. */
  const NoteExtensions: set<string> := {"md", "markdown", "mdown", "mkd", "mkdn", "txt"}

  /** A path names a note when its extension, lower-cased, is one of `NoteExtensions`. */
  predicate IsNotesFile(path: string) {
    match Extension(path)
    case None => false
    case Some(ext) => ToLower(ext) in NoteExtensions
  }

  lemma ToLowerIdempotent(s: string)
    ensures ToLower(ToLower(s)) == ToLower(s)
  {
  }

  /** The test ignores case: lower-casing the whole path never changes the verdict. */
  lemma NotesFileIgnoresCase(path: string)
    ensures IsNotesFile(ToLower(path)) == IsNotesFile(path)
  {
    ExtensionLower(path);
    match Extension(path)
    case None =>
    case Some(ext) => ToLowerIdempotent(ext);
  }

  /**
   * For a path `dir + stem + "." + ext`, with `dir` empty or ending in a separator and a plain
   * stem, the test is exactly "the lower-cased `ext` is a note extension": an independent
   * statement of the rule.
   */
  lemma NotesFileByName(dir: string, stem: string, ext: string)
    requires dir == [] || dir[|dir| - 1] == '/'
    requires stem != [] && '/' !in stem && '.' !in stem && '/' !in ext && '.' !in ext
    ensures IsNotesFile(dir + stem + "." + ext) <==> ToLower(ext) in NoteExtensions
  {
    var name := stem + "." + ext;
    var p := dir + stem + "." + ext;
    assert p == dir + name;
    PlainName(stem, ext);
    FileNameOfJoin(dir, name);
    ExtensionOfName(p, stem, ext);
    NotesFileByExtension(p, ext);
  }

  /** A path whose file name is `stem.ext` has the extension `ext`. */
  lemma ExtensionOfName(p: string, stem: string, ext: string)
    requires stem != [] && '.' !in stem && '.' !in ext
    requires FileName(p) == Some(stem + "." + ext)
    ensures Extension(p) == Some(ext)
  {
    NameSplitsAtDot(stem, ext);
    ExtensionOf(p, stem + "." + ext, |stem|);
  }

  lemma NotesFileByExtension(p: string, ext: string)
    requires Extension(p) == Some(ext)
    ensures IsNotesFile(p) <==> ToLower(ext) in NoteExtensions
  {
  }

  /** A bare file name `stem.ext` is a note exactly when its lower-cased extension is listed. */
  lemma NotesFileNamed(name: string, stem: string, ext: string)
    requires stem != [] && '/' !in stem && '.' !in stem && '/' !in ext && '.' !in ext
    requires name == stem + "." + ext
    ensures IsNotesFile(name) <==> ToLower(ext) in NoteExtensions
  {
    PlainName(stem, ext);
    FileNameOfJoin("", name);
    assert "" + name == name;
    ExtensionOfName(name, stem, ext);
    NotesFileByExtension(name, ext);
  }

  /** Upper-case extensions are accepted, as in the discovery tests' `test.MD`. */
  lemma UpperCaseExtensionAccepted()
    ensures IsNotesFile("test.MD")
  {
    NotesFileNamed("test.MD", "test", "MD");
    assert ToLower("MD") == "md";
  }

  /** Mixed-case long forms are accepted too (`file2.Markdown`). */
  lemma MixedCaseExtensionAccepted()
    ensures IsNotesFile("file2.Markdown")
  {
    assert ToLower("Markdown") == "markdown" by { LowerMarkdown(); }
    NotesFileNamed("file2.Markdown", "file2", "Markdown");
  }

  lemma LowerMarkdown()
    ensures ToLower("Markdown") == "markdown"
  {
  }

  /** Source files are rejected (`test.js`). */
  lemma ScriptRejected()
    ensures !IsNotesFile("test.js")
  {
    assert ToLower("js") == "js";
    assert "js" !in NoteExtensions;
    NotesFileNamed("test.js", "test", "js");
  }

  /** A name without a dot, such as `test`, has no extension and is rejected. */
  lemma BareNameIsNotNote(name: string)
    requires name != [] && '/' !in name && '.' !in name
    ensures !IsNotesFile(name)
  {
    FileNameOfJoin("", name);
    assert "" + name == name;
  }
}
