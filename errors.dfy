/**
 * The failures the skill parser raises. Reading a file fails with an OSError;
 * a header of the wrong YAML type fails, as the source is written, with a
 * TypeError; every other failure is a ValueError.
 */
module Errors {

  datatype ExceptionClass = ValueError | OSError | TypeError

  datatype Error =
    | DirectoryMissing(directory: string)
    | Unreadable(path: string)
    | NoFrontmatter
    | InvalidYaml
    | MissingField(field: string, manifest: string)
    | HeaderNotMapping(manifest: string)
    | HeaderTypeError
    | InvalidReturnType(returnType: string)
    | SkillNotFound(name: string)
    | InvalidPath
    | FileNotFound(relativePath: string)
    | NotAFile(relativePath: string)
  {
    function Class(): ExceptionClass {
      if Unreadable? then OSError
      else if HeaderTypeError? then TypeError
      else ValueError
    }

    /** The message the source raises with (the YAML and OS errors' own texts are not modelled). */
    function Message(): string {
      match this
      case DirectoryMissing(d) => "Skills directory does not exist: " + d
      case Unreadable(p) => "cannot read " + p
      case NoFrontmatter => "No valid YAML frontmatter found"
      case InvalidYaml => "Invalid YAML in frontmatter"
      case MissingField(f, m) => "Missing '" + f + "' field in " + m
      case HeaderNotMapping(m) => "Frontmatter is not a mapping in " + m
      case HeaderTypeError => "the frontmatter value does not support the operation"
      case InvalidReturnType(t) =>
        "Invalid return_type: " + t + ". Must be 'content', 'file_path', or 'both'"
      case SkillNotFound(n) => "Skill '" + n + "' not found"
      case InvalidPath => "Invalid path: attempting to access files outside skill directory"
      case FileNotFound(r) => "File not found: " + r
      case NotAFile(r) => "Path is not a file: " + r
    }
  }
}
