/** The destination filesystem as a map from path to node, and the `fs`
    calls `ProjectCommand` makes on it. */
module Files {
  import opened Common
  import opened Json

  /** What a file holds: text that parses as a JSON document, or any other
      bytes. */
  datatype Content = Structured(doc: Document) | Bytes(data: seq<bv8>)

  datatype Node = FileNode(content: Content) | DirectoryNode

  type FileSystem = map<string, Node>

  /** Parsing a file's text and the cleaning step of `loadJSON(filePath, skipClean)`. */
  function ParseDocument(content: Content, path: string, skipClean: bool): (r: Result<Document>)
    ensures r.Ok? <==> content.Structured?
    ensures r.Ok? ==> r.value == Clean(content.doc, skipClean)
    ensures r.Err? ==> r.error == ParseError(path)
  {
    match content
    case Structured(doc) => Ok(Clean(doc, skipClean))
    case Bytes(_) => Err(ParseError(path))
  }

  /** `readFileSync(path)`. */
  function ReadFile(fs: FileSystem, path: string): (r: Result<Content>)
    ensures r.Ok? <==> path in fs && fs[path].FileNode?
  {
    if path !in fs then Err(NotFound(path))
    else match fs[path]
      case FileNode(c) => Ok(c)
      case DirectoryNode => Err(IsADirectory(path))
  }

  /** `writeFileSync(path, …)` or `copyFileSync(…, path)`: replaces a file or
      creates one, and fails on a directory. */
  function WriteFile(fs: FileSystem, path: string, content: Content): (r: Result<FileSystem>)
    ensures r.Ok? <==> !(path in fs && fs[path].DirectoryNode?)
  {
    if path in fs && fs[path].DirectoryNode? then Err(IsADirectory(path))
    else Ok(fs[path := FileNode(content)])
  }

  /** `mkdirSync(path, { recursive: true })`: succeeds on an existing
      directory, fails on an existing file. */
  function MkDir(fs: FileSystem, path: string): (r: Result<FileSystem>)
    ensures r.Ok? <==> !(path in fs && fs[path].FileNode?)
  {
    if path !in fs then Ok(fs[path := DirectoryNode])
    else if fs[path].DirectoryNode? then Ok(fs)
    else Err(FileExists(path))
  }
}
