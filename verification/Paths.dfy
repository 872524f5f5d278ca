/** Path resolution over a tree of directories, files and symbolic links. */
module Paths {
  import opened Wrappers
  import opened Contract
  import opened Strings

  datatype Component = Cur | Up | Name(name: string)

  datatype RawPath = RawPath(absolute: bool, comps: seq<Component>)

  datatype Node = Directory | File(content: string) | Link(target: RawPath)

  type Tree = map<Path, Node>

  /** How many links one resolution may follow before the system gives up. */
  const MAX_LINKS: nat := 40

  function Parent(p: Path): Path {
    if p == [] then [] else p[..|p| - 1]
  }

  function Names(p: Path): (comps: seq<Component>)
    ensures |comps| == |p|
  {
    seq(|p|, i requires 0 <= i < |p| => Name(p[i]))
  }

  predicate IsDirectory(t: Tree, p: Path) {
    p in t && t[p].Directory?
  }

  predicate IsLink(t: Tree, p: Path) {
    p in t && t[p].Link?
  }

  /** Every entry hangs below a directory, up to the root. */
  ghost predicate WellFormed(t: Tree) {
    && IsDirectory(t, [])
    && forall p :: p in t && p != [] ==> IsDirectory(t, Parent(p))
  }

  /** In a well-formed tree such a path meets no link on the way down. */
  predicate Canonical(t: Tree, p: Path) {
    p in t && !t[p].Link?
  }

  /** Where a walk stopped and how many more links it may still follow. */
  datatype Stop = Stop(at: Path, links: nat)

  /**
   * The system's component-by-component resolution from the directory `at`.
   * With `create` the last component may be missing, as in opening a file for writing.
   */
  function Walk(t: Tree, at: Path, rest: seq<Component>, links: nat, create: bool): Option<Stop>
    decreases links, |rest|
  {
    if rest == [] then Some(Stop(at, links))
    else if !IsDirectory(t, at) then None
    else
      match rest[0]
      case Cur => Walk(t, at, rest[1..], links, create)
      case Up => Walk(t, Parent(at), rest[1..], links, create)
      case Name(name) =>
        var p := at + [name];
        if p !in t then
          if create && |rest| == 1 then Some(Stop(p, links)) else None
        else
          match t[p]
          case Link(target) =>
            if links == 0 then None
            else Walk(t, if target.absolute then [] else at, target.comps + rest[1..], links - 1, create)
          case _ => Walk(t, p, rest[1..], links, create)
  }

  function WalkFromRoot(t: Tree, comps: seq<Component>, create: bool): Option<Path> {
    match Walk(t, [], comps, MAX_LINKS, create)
    case Some(stop) => Some(stop.at)
    case None => None
  }

  function Canonicalize(t: Tree, comps: seq<Component>): Option<Path> {
    WalkFromRoot(t, comps, false)
  }

  /** Existing paths only. */
  function Existing(t: Tree, comps: seq<Component>): Result<Path, AuthorizationError> {
    match Canonicalize(t, comps)
    case Some(p) => Ok(p)
    case None => Err(Io)
  }

  /** The standard library's view of a path drops trailing `.` components and slashes. */
  function TrimCur(comps: seq<Component>): (trimmed: seq<Component>)
    ensures trimmed <= comps
    ensures forall i :: |trimmed| <= i < |comps| ==> comps[i] == Cur
    ensures trimmed != [] ==> trimmed[|trimmed| - 1] != Cur
  {
    if comps != [] && comps[|comps| - 1] == Cur then TrimCur(comps[..|comps| - 1]) else comps
  }

  function ExistingOrParent(t: Tree, comps: seq<Component>): Result<Path, AuthorizationError> {
    match Canonicalize(t, comps)
    case Some(p) => Ok(p)
    case None =>
      var trimmed := TrimCur(comps);
      if trimmed == [] || !trimmed[|trimmed| - 1].Name? then
        Err(Denied("write target must include a file name", None))
      else
        match Canonicalize(t, TrimCur(trimmed[..|trimmed| - 1]))
        case None => Err(Io)
        case Some(parent) => Ok(parent + [trimmed[|trimmed| - 1].name])
  }

  function Candidate(root: Path, path: RawPath): seq<Component> {
    if path.absolute then path.comps else Names(root) + path.comps
  }

  function EnsureUnderRoot(root: Path, p: Path): Result<Path, AuthorizationError> {
    if root <= p then Ok(p) else Err(OutsideWorkspace)
  }

  function ResolveRead(t: Tree, root: Path, path: RawPath): Result<Path, AuthorizationError> {
    match Existing(t, Candidate(root, path))
    case Ok(p) => EnsureUnderRoot(root, p)
    case Err(e) => Err(e)
  }

  function ResolveWrite(t: Tree, root: Path, path: RawPath): Result<Path, AuthorizationError> {
    match ExistingOrParent(t, Candidate(root, path))
    case Ok(p) => EnsureUnderRoot(root, p)
    case Err(e) => Err(e)
  }

  /** The file an open-for-writing of the authorized path `p` reaches. */
  function Landing(t: Tree, p: Path): Option<Path> {
    WalkFromRoot(t, Names(p), true)
  }

  function ReadFile(t: Tree, p: Path): Option<string> {
    match Canonicalize(t, Names(p))
    case Some(q) => if q in t && t[q].File? then Some(t[q].content) else None
    case None => None
  }

  function WriteFile(t: Tree, p: Path, content: string): Option<Tree> {
    match Landing(t, p)
    case Some(q) => if q in t && !t[q].File? then None else Some(t[q := File(content)])
    case None => None
  }

  /** User-facing path strings, split at slashes; a trailing slash asks for a directory, as `.` does. */
  function ParsePath(s: string): RawPath {
    RawPath(s != [] && s[0] == '/', Components(Split(s, '/')))
  }

  function Components(parts: seq<string>): seq<Component> {
    if parts == [] then []
    else
      var rest := Components(parts[1..]);
      if parts[0] == "" then (if |parts| == 1 then [Cur] else rest)
      else if parts[0] == "." then [Cur] + rest
      else if parts[0] == ".." then [Up] + rest
      else [Name(parts[0])] + rest
  }
}
