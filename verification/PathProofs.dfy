/** What path resolution guarantees, over every tree and every input path. */
module PathProofs {
  import opened Wrappers
  import opened Contract
  import opened Paths

  // ----- Shape of walks -----

  lemma {:induction false} AncestorIsDirectory(t: Tree, p: Path, q: Path)
    requires WellFormed(t) && p in t && q < p
    ensures IsDirectory(t, q)
    decreases |p|
  {
    if q != Parent(p) {
      AncestorIsDirectory(t, Parent(p), q);
    }
  }

  /** A finished walk stops at a link-free entry, or (when creating) at a free name below a directory. */
  lemma {:induction false} WalkStops(t: Tree, at: Path, rest: seq<Component>, links: nat, create: bool)
    requires WellFormed(t) && Canonical(t, at)
    requires Walk(t, at, rest, links, create).Some?
    ensures
      var q := Walk(t, at, rest, links, create).value.at;
      Canonical(t, q) || (create && q !in t && q != [] && IsDirectory(t, Parent(q)))
    decreases links, |rest|
  {
    if rest != [] {
      match rest[0]
      case Cur => WalkStops(t, at, rest[1..], links, create);
      case Up =>
        if at != [] { AncestorIsDirectory(t, at, Parent(at)); }
        WalkStops(t, Parent(at), rest[1..], links, create);
      case Name(name) =>
        var p := at + [name];
        assert Parent(p) == at;
        if p in t {
          match t[p]
          case Link(target) =>
            WalkStops(t, if target.absolute then [] else at, target.comps + rest[1..], links - 1, create);
          case _ => WalkStops(t, p, rest[1..], links, create);
        }
    }
  }

  lemma NextElement<T>(at: seq<T>, p: seq<T>)
    requires p != []
    ensures at < at + p
    ensures if |p| == 1 then at + [p[0]] == at + p else at + [p[0]] < at + p
    ensures at + p == at + [p[0]] + p[1..]
  {
  }

  /** One step down towards an existing link-free path. */
  lemma StepDown(t: Tree, at: Path, p: Path)
    requires WellFormed(t) && Canonical(t, at + p) && p != []
    ensures IsDirectory(t, at) && Canonical(t, at + [p[0]])
  {
    NextElement(at, p);
    AncestorIsDirectory(t, at + p, at);
    if |p| > 1 {
      AncestorIsDirectory(t, at + p, at + [p[0]]);
    }
  }

  lemma WalkStep(t: Tree, at: Path, name: string, rest: seq<Component>, links: nat, create: bool)
    requires IsDirectory(t, at) && Canonical(t, at + [name])
    ensures Walk(t, at, [Name(name)] + rest, links, create) == Walk(t, at + [name], rest, links, create)
  {
    assert ([Name(name)] + rest)[1..] == rest;
  }

  lemma NamesFirst(p: Path, rest: seq<Component>)
    requires p != []
    ensures Names(p) + rest == [Name(p[0])] + (Names(p[1..]) + rest)
  {
  }

  /** Walking down the names of an existing link-free path arrives there, on any link budget. */
  lemma {:induction false} WalkNames(t: Tree, at: Path, p: Path, rest: seq<Component>, links: nat, create: bool)
    requires WellFormed(t) && Canonical(t, at + p)
    ensures Walk(t, at, Names(p) + rest, links, create) == Walk(t, at + p, rest, links, create)
    decreases |p|
  {
    if p == [] {
      assert at + p == at && Names(p) + rest == rest;
    } else {
      StepDown(t, at, p);
      NamesFirst(p, rest);
      NextElement(at, p);
      WalkStep(t, at, p[0], Names(p[1..]) + rest, links, create);
      WalkNames(t, at + [p[0]], p[1..], rest, links, create);
    }
  }

  lemma WalkBelow(t: Tree, d: Path, rest: seq<Component>, create: bool)
    requires WellFormed(t) && Canonical(t, d)
    ensures Walk(t, [], Names(d) + rest, MAX_LINKS, create) == Walk(t, d, rest, MAX_LINKS, create)
  {
    assert [] + d == d;
    WalkNames(t, [], d, rest, MAX_LINKS, create);
  }

  lemma CanonicalResolvesToItself(t: Tree, p: Path)
    requires WellFormed(t) && Canonical(t, p)
    ensures Canonicalize(t, Names(p)) == Some(p)
    ensures Landing(t, p) == Some(p)
  {
    assert Names(p) + [] == Names(p);
    WalkBelow(t, p, [], false);
    WalkBelow(t, p, [], true);
  }

  /** Canonicalization yields a link-free existing path and is idempotent. */
  lemma CanonicalizeIdempotent(t: Tree, comps: seq<Component>)
    requires WellFormed(t) && Canonicalize(t, comps).Some?
    ensures
      var p := Canonicalize(t, comps).value;
      Canonical(t, p) && Canonicalize(t, Names(p)) == Some(p)
  {
    WalkStops(t, [], comps, MAX_LINKS, false);
    CanonicalResolvesToItself(t, Canonicalize(t, comps).value);
  }

  // ----- Composing walks -----

  /** Walking `xs + ys` is walking `xs` and then `ys` with what is left of the budget; only the end may create. */
  lemma {:induction false} WalkConcat(
      t: Tree, at: Path, xs: seq<Component>, ys: seq<Component>, links: nat, create: bool)
    ensures Walk(t, at, xs + ys, links, create) ==
            match Walk(t, at, xs, links, create && ys == [])
            case Some(stop) => Walk(t, stop.at, ys, stop.links, create)
            case None => None
    decreases links, |xs|
  {
    if xs == [] {
      assert xs + ys == ys;
    } else {
      assert (xs + ys)[1..] == xs[1..] + ys;
      match xs[0]
      case Cur => WalkConcat(t, at, xs[1..], ys, links, create);
      case Up => WalkConcat(t, Parent(at), xs[1..], ys, links, create);
      case Name(name) =>
        var p := at + [name];
        if p in t {
          match t[p]
          case Link(target) =>
            if links > 0 {
              assert target.comps + (xs[1..] + ys) == (target.comps + xs[1..]) + ys;
              WalkConcat(t, if target.absolute then [] else at, target.comps + xs[1..], ys, links - 1, create);
            }
          case _ => WalkConcat(t, p, xs[1..], ys, links, create);
        }
    }
  }

  lemma {:induction false} WalkCurs(t: Tree, at: Path, curs: seq<Component>, links: nat, create: bool)
    requires forall i :: 0 <= i < |curs| ==> curs[i] == Cur
    ensures Walk(t, at, curs, links, create) ==
            if curs == [] || IsDirectory(t, at) then Some(Stop(at, links)) else None
  {
    if curs != [] && IsDirectory(t, at) {
      WalkCurs(t, at, curs[1..], links, create);
    }
  }

  /** A walk only spends its budget, and a larger one changes nothing but what is left. */
  lemma {:induction false} MoreLinks(t: Tree, at: Path, rest: seq<Component>, links: nat, more: nat, create: bool)
    requires links <= more && Walk(t, at, rest, links, create).Some?
    ensures
      var stop := Walk(t, at, rest, links, create).value;
      stop.links <= links && Walk(t, at, rest, more, create) == Some(Stop(stop.at, stop.links + (more - links)))
    decreases links, |rest|
  {
    if rest != [] {
      match rest[0]
      case Cur => MoreLinks(t, at, rest[1..], links, more, create);
      case Up => MoreLinks(t, Parent(at), rest[1..], links, more, create);
      case Name(name) =>
        var p := at + [name];
        if p in t {
          match t[p]
          case Link(target) =>
            MoreLinks(t, if target.absolute then [] else at, target.comps + rest[1..], links - 1, more - 1, create);
          case _ => MoreLinks(t, p, rest[1..], links, more, create);
        }
    }
  }

  /** A walk allowed to create that stops at an existing entry did not need to. */
  lemma {:induction false} ExistingNeedsNoCreate(t: Tree, at: Path, rest: seq<Component>, links: nat)
    requires Walk(t, at, rest, links, true).Some? && Walk(t, at, rest, links, true).value.at in t
    ensures Walk(t, at, rest, links, false) == Walk(t, at, rest, links, true)
    decreases links, |rest|
  {
    if rest != [] {
      match rest[0]
      case Cur => ExistingNeedsNoCreate(t, at, rest[1..], links);
      case Up => ExistingNeedsNoCreate(t, Parent(at), rest[1..], links);
      case Name(name) =>
        var p := at + [name];
        if p in t {
          match t[p]
          case Link(target) =>
            ExistingNeedsNoCreate(t, if target.absolute then [] else at, target.comps + rest[1..], links - 1);
          case _ => ExistingNeedsNoCreate(t, p, rest[1..], links);
        }
    }
  }

  /** A walk that succeeds without the right to create succeeds alike with it. */
  lemma {:induction false} CreateOnlyAdds(t: Tree, at: Path, rest: seq<Component>, links: nat)
    requires Walk(t, at, rest, links, false).Some?
    ensures Walk(t, at, rest, links, true) == Walk(t, at, rest, links, false)
    decreases links, |rest|
  {
    if rest != [] {
      match rest[0]
      case Cur => CreateOnlyAdds(t, at, rest[1..], links);
      case Up => CreateOnlyAdds(t, Parent(at), rest[1..], links);
      case Name(name) =>
        var p := at + [name];
        match t[p]
        case Link(target) =>
          CreateOnlyAdds(t, if target.absolute then [] else at, target.comps + rest[1..], links - 1);
        case _ => CreateOnlyAdds(t, p, rest[1..], links);
    }
  }

  // ----- Trees that only gain files -----

  ghost predicate SameShape(a: Node, b: Node) {
    a == b || (a.File? && b.File?)
  }

  /** `after` may have other file contents and new files, and nothing else. */
  ghost predicate Grown(before: Tree, after: Tree) {
    && before.Keys <= after.Keys
    && (forall p :: p in before ==> SameShape(before[p], after[p]))
    && (forall p :: p in after && p !in before ==> after[p].File?)
  }

  lemma GrownTransitive(a: Tree, b: Tree, c: Tree)
    requires Grown(a, b) && Grown(b, c)
    ensures Grown(a, c)
  {
  }

  /** What resolved before still resolves, to the same path. */
  lemma {:induction false} GrownKeepsWalks(before: Tree, after: Tree, at: Path, rest: seq<Component>, links: nat)
    requires Grown(before, after)
    requires Walk(before, at, rest, links, false).Some?
    ensures Walk(after, at, rest, links, false) == Walk(before, at, rest, links, false)
    decreases links, |rest|
  {
    if rest != [] {
      match rest[0]
      case Cur => GrownKeepsWalks(before, after, at, rest[1..], links);
      case Up => GrownKeepsWalks(before, after, Parent(at), rest[1..], links);
      case Name(name) =>
        var p := at + [name];
        match before[p]
        case Link(target) =>
          GrownKeepsWalks(before, after, if target.absolute then [] else at, target.comps + rest[1..], links - 1);
        case _ => GrownKeepsWalks(before, after, p, rest[1..], links);
    }
  }

  /** A write opened through any path lands where it would have landed before, or fails as before. */
  lemma {:induction false} GrownKeepsLandings(before: Tree, after: Tree, at: Path, rest: seq<Component>, links: nat)
    requires Grown(before, after)
    ensures Walk(after, at, rest, links, true) == Walk(before, at, rest, links, true)
    decreases links, |rest|
  {
    if rest != [] && IsDirectory(before, at) {
      match rest[0]
      case Cur => GrownKeepsLandings(before, after, at, rest[1..], links);
      case Up => GrownKeepsLandings(before, after, Parent(at), rest[1..], links);
      case Name(name) =>
        var p := at + [name];
        if p in before {
          match before[p]
          case Link(target) =>
            if links > 0 {
              GrownKeepsLandings(before, after, if target.absolute then [] else at, target.comps + rest[1..], links - 1);
            }
          case _ => GrownKeepsLandings(before, after, p, rest[1..], links);
        }
    }
  }

  /** A write changes one file, at its landing, and leaves a well-formed tree. */
  lemma WriteGrows(t: Tree, p: Path, content: string)
    requires WellFormed(t) && WriteFile(t, p, content).Some?
    ensures
      var after, q := WriteFile(t, p, content).value, Landing(t, p).value;
      WellFormed(after) && Grown(t, after) && after == t[q := File(content)]
  {
    WalkStops(t, [], Names(p), MAX_LINKS, true);
  }

  /** A written path reads back as written, and another as before unless it led to the same file. */
  lemma ReadAfterWrite(t: Tree, p: Path, content: string, other: Path)
    requires WellFormed(t) && WriteFile(t, p, content).Some?
    ensures
      var after := WriteFile(t, p, content).value;
      && ReadFile(after, p) == Some(content)
      && (ReadFile(t, other).Some? ==>
            ReadFile(after, other) == if Landing(t, other) == Landing(t, p) then Some(content) else ReadFile(t, other))
  {
    var after := WriteFile(t, p, content).value;
    WriteGrows(t, p, content);
    GrownKeepsLandings(t, after, [], Names(p), MAX_LINKS);
    ExistingNeedsNoCreate(after, [], Names(p), MAX_LINKS);
    if ReadFile(t, other).Some? {
      CreateOnlyAdds(t, [], Names(other), MAX_LINKS);
      GrownKeepsWalks(t, after, [], Names(other), MAX_LINKS);
    }
  }

  // ----- Resolution for reading and writing -----

  /** A path authorized for reading is link-free, exists and is under the root. */
  lemma ResolveReadShape(t: Tree, root: Path, path: RawPath)
    requires WellFormed(t) && ResolveRead(t, root, path).Ok?
    ensures
      var p := ResolveRead(t, root, path).value;
      root <= p && Canonical(t, p)
  {
    CanonicalizeIdempotent(t, Candidate(root, path));
  }

  /** A path a link-free parent or an existing entry gives its name to. */
  ghost predicate Anchored(t: Tree, p: Path) {
    Canonical(t, p) || (p != [] && Canonical(t, Parent(p)))
  }

  lemma ExistingOrParentShape(t: Tree, comps: seq<Component>)
    requires WellFormed(t) && ExistingOrParent(t, comps).Ok?
    ensures Anchored(t, ExistingOrParent(t, comps).value)
  {
    if Canonicalize(t, comps).Some? {
      CanonicalizeIdempotent(t, comps);
    } else {
      var trimmed := TrimCur(comps);
      var parent := TrimCur(trimmed[..|trimmed| - 1]);
      CanonicalizeIdempotent(t, parent);
      NamesOfChild(Canonicalize(t, parent).value, trimmed[|trimmed| - 1].name);
    }
  }

  /** A path authorized for writing is under the root; it is link-free or a name below a link-free parent. */
  lemma ResolveWriteShape(t: Tree, root: Path, path: RawPath)
    requires WellFormed(t) && ResolveWrite(t, root, path).Ok?
    ensures
      var p := ResolveWrite(t, root, path).value;
      root <= p && Anchored(t, p)
  {
    ExistingOrParentShape(t, Candidate(root, path));
  }

  lemma LastStepCreates(t: Tree, d: Path, name: string, links: nat)
    requires d + [name] !in t
    ensures Walk(t, d, [Name(name)], links, true) ==
            if IsDirectory(t, d) then Some(Stop(d + [name], links)) else None
  {
  }

  lemma NamesOfChild(d: Path, name: string)
    ensures Names(d + [name]) == Names(d) + [Name(name)]
    ensures Parent(d + [name]) == d
  {
  }

  lemma LandsOnFreeName(t: Tree, d: Path, name: string)
    requires WellFormed(t) && d + [name] !in t && Canonical(t, d)
    ensures Landing(t, d + [name]) == if IsDirectory(t, d) then Some(d + [name]) else None
  {
    NamesOfChild(d, name);
    WalkBelow(t, d, [Name(name)], true);
    LastStepCreates(t, d, name, MAX_LINKS);
  }

  lemma LandsOnItselfIff(t: Tree, p: Path)
    requires WellFormed(t) && Anchored(t, p) && Landing(t, p).Some?
    ensures Landing(t, p) == Some(p) <==> !IsLink(t, p)
  {
    if Canonical(t, p) {
      CanonicalResolvesToItself(t, p);
    } else if p !in t {
      assert Parent(p) + [p[|p| - 1]] == p;
      LandsOnFreeName(t, Parent(p), p[|p| - 1]);
    } else {
      WalkStops(t, [], Names(p), MAX_LINKS, true);
    }
  }

  /** A write that reaches a file reaches the authorized path itself, if and only if no link sits there. */
  lemma WriteReachesAuthorizedPath(t: Tree, root: Path, path: RawPath)
    requires WellFormed(t) && ResolveWrite(t, root, path).Ok?
    requires Landing(t, ResolveWrite(t, root, path).value).Some?
    ensures
      var p := ResolveWrite(t, root, path).value;
      Landing(t, p) == Some(p) <==> !IsLink(t, p)
  {
    ResolveWriteShape(t, root, path);
    LandsOnItselfIff(t, ResolveWrite(t, root, path).value);
  }

  // ----- When writes stay inside the workspace -----

  /** Opening `p` for writing fails or reaches an entry below `root`. */
  ghost predicate LandsInside(t: Tree, root: Path, p: Path) {
    match Landing(t, p)
    case Some(q) => root <= q || IsDirectory(t, q)
    case None => true
  }

  /** Every link below `root` leads to a directory, nowhere, or back below `root`. */
  ghost predicate LinksStayInside(t: Tree, root: Path) {
    forall p :: IsLink(t, p) && root <= p ==> LandsInside(t, root, p)
  }

  lemma ResolvedWriteLandsInside(t: Tree, root: Path, path: RawPath)
    requires WellFormed(t) && LinksStayInside(t, root) && ResolveWrite(t, root, path).Ok?
    ensures LandsInside(t, root, ResolveWrite(t, root, path).value)
  {
    var p := ResolveWrite(t, root, path).value;
    ResolveWriteShape(t, root, path);
    if Landing(t, p).Some? && !IsLink(t, p) {
      WriteReachesAuthorizedPath(t, root, path);
    }
  }

  /** When `d/name` followed by some `.` does not resolve, it is authorized for writing as `d/name`. */
  lemma UnresolvedNameIsItsOwnTarget(t: Tree, d: Path, name: string, curs: seq<Component>)
    requires WellFormed(t) && Canonical(t, d)
    requires forall i :: 0 <= i < |curs| ==> curs[i] == Cur
    requires Canonicalize(t, Names(d + [name]) + curs) == None
    ensures ExistingOrParent(t, Names(d + [name]) + curs) == Ok(d + [name])
  {
    NamesOfChild(d, name);
    TrimAfterName(Names(d), name, curs);
    TrimNames(d);
    CanonicalResolvesToItself(t, d);
  }

  /** A dot after anything but a directory does not resolve. */
  lemma DotNeedsDirectory(t: Tree, comps: seq<Component>)
    requires Canonicalize(t, comps).Some? && !IsDirectory(t, Canonicalize(t, comps).value)
    ensures Canonicalize(t, comps + [Cur]) == None
  {
    WalkConcat(t, [], comps, [Cur], MAX_LINKS, false);
  }

  /** A path opened at something other than a directory can be spelled so that it does not resolve. */
  lemma UnresolvedSpelling(t: Tree, p: Path) returns (curs: seq<Component>)
    requires Landing(t, p).Some? && !IsDirectory(t, Landing(t, p).value)
    ensures forall i :: 0 <= i < |curs| ==> curs[i] == Cur
    ensures Canonicalize(t, Names(p) + curs) == None
  {
    if Canonicalize(t, Names(p)).Some? {
      CreateOnlyAdds(t, [], Names(p), MAX_LINKS);
      DotNeedsDirectory(t, Names(p));
      curs := [Cur];
    } else {
      curs := [];
      assert Names(p) + [] == Names(p);
    }
  }

  lemma CandidateBelowRoot(root: Path, suffix: Path, curs: seq<Component>)
    ensures Candidate(root, RawPath(false, Names(suffix) + curs)) == Names(root + suffix) + curs
  {
    assert Names(root + suffix) == Names(root) + Names(suffix);
  }

  lemma SplitPath(root: Path, p: Path)
    requires root <= p && p != []
    ensures Parent(p) + [p[|p| - 1]] == p && root + p[|root|..] == p
  {
  }

  /** A link whose landing is outside the root is itself reachable as a write target. */
  lemma OutsideLinkIsWriteTarget(t: Tree, root: Path, p: Path) returns (path: RawPath)
    requires WellFormed(t) && Canonical(t, root)
    requires IsLink(t, p) && root <= p && !LandsInside(t, root, p)
    ensures ResolveWrite(t, root, path) == Ok(p)
  {
    SplitPath(root, p);
    AncestorIsDirectory(t, p, Parent(p));
    var curs := UnresolvedSpelling(t, p);
    path := RawPath(false, Names(p[|root|..]) + curs);
    CandidateBelowRoot(root, p[|root|..], curs);
    UnresolvedNameIsItsOwnTarget(t, Parent(p), p[|p| - 1], curs);
  }

  lemma TrimNames(p: Path)
    ensures TrimCur(Names(p)) == Names(p)
  {
  }

  lemma {:induction false} TrimAfterName(before: seq<Component>, name: string, curs: seq<Component>)
    requires forall i :: 0 <= i < |curs| ==> curs[i] == Cur
    ensures TrimCur(before + [Name(name)] + curs) == before + [Name(name)]
  {
    var comps := before + [Name(name)] + curs;
    if curs == [] {
      assert comps == before + [Name(name)];
    } else {
      var shorter := curs[..|curs| - 1];
      assert comps[..|comps| - 1] == before + [Name(name)] + shorter;
      TrimAfterName(before, name, shorter);
    }
  }

  /** Every write the facade authorizes stays in the workspace, if and only if every link in it does. */
  lemma WritesStayInsideIff(t: Tree, root: Path)
    requires WellFormed(t) && Canonical(t, root)
    ensures LinksStayInside(t, root) <==>
            forall path :: ResolveWrite(t, root, path).Ok? ==>
              LandsInside(t, root, ResolveWrite(t, root, path).value)
  {
    if LinksStayInside(t, root) {
      forall path | ResolveWrite(t, root, path).Ok?
        ensures LandsInside(t, root, ResolveWrite(t, root, path).value)
      {
        ResolvedWriteLandsInside(t, root, path);
      }
    } else {
      var p :| IsLink(t, p) && root <= p && !LandsInside(t, root, p);
      var path := OutsideLinkIsWriteTarget(t, root, p);
    }
  }

  /** A workspace `w` holding one link `l`, to the absolute path of a name `o` beside the workspace. */
  function LinkTree(w: string, l: string, o: string): Tree {
    map[[] := Directory, [w] := Directory, [w, l] := Link(RawPath(true, [Name(o)]))]
  }

  lemma WalkThroughLink(t: Tree, w: string, l: string, o: string, create: bool)
    requires IsDirectory(t, []) && IsDirectory(t, [w])
    requires [w, l] in t && t[[w, l]] == Link(RawPath(true, [Name(o)]))
    ensures Walk(t, [], [Name(w), Name(l)], MAX_LINKS, create) == Walk(t, [], [Name(o)], MAX_LINKS - 1, create)
  {
    var comps := [Name(w), Name(l)];
    assert comps[1..] == [Name(l)] && [Name(o)] + comps[1..][1..] == [Name(o)];
    assert [] + [w] == [w] && [w] + [l] == [w, l];
  }

  lemma WalkOneName(t: Tree, o: string, links: nat, create: bool)
    requires IsDirectory(t, []) && !IsLink(t, [o])
    ensures Walk(t, [], [Name(o)], links, create) ==
            if [o] in t || create then Some(Stop([o], links)) else None
  {
    assert [] + [o] == [o];
  }

  lemma LinkTreeResolves(t: Tree, w: string, l: string, o: string)
    requires IsDirectory(t, []) && IsDirectory(t, [w]) && !IsLink(t, [o])
    requires [w, l] in t && t[[w, l]] == Link(RawPath(true, [Name(o)]))
    ensures Canonicalize(t, Names([w, l])) == if [o] in t then Some([o]) else None
    ensures Landing(t, [w, l]) == Some([o])
  {
    assert Names([w, l]) == [Name(w), Name(l)];
    WalkThroughLink(t, w, l, o, false);
    WalkThroughLink(t, w, l, o, true);
    WalkOneName(t, o, MAX_LINKS - 1, false);
    WalkOneName(t, o, MAX_LINKS - 1, true);
  }

  /**
   * A dangling link in the workspace: the authorized path is inside, the file written is not,
   * and after that write the same request is refused.
   */
  lemma DanglingLinkExample(w: string, l: string, o: string, content: string)
    requires o != w
    ensures
      var t, path := LinkTree(w, l, o), RawPath(false, [Name(l)]);
      && WellFormed(t)
      && ResolveWrite(t, [w], path) == Ok([w, l])
      && WriteFile(t, [w, l], content) == Some(t[[o] := File(content)])
      && ResolveWrite(t[[o] := File(content)], [w], path) == Err(OutsideWorkspace)
  {
    var t, path := LinkTree(w, l, o), RawPath(false, [Name(l)]);
    var after := t[[o] := File(content)];
    assert [o] !in t;
    assert Parent([w]) == [] && Parent([w, l]) == [w];
    assert [w] + [l] == [w, l];
    CandidateBelowRoot([w], [l], []);
    assert Names([l]) + [] == [Name(l)] && Names([w, l]) + [] == Names([w, l]);
    LinkTreeResolves(t, w, l, o);
    UnresolvedNameIsItsOwnTarget(t, [w], l, []);
    LinkTreeResolves(after, w, l, o);
  }

  /**
   * An outward link to an existing file: by its name alone it is refused, but with a dot after the name
   * the link itself is authorized, the file outside is overwritten, and so it is every time.
   */
  lemma OutwardFileLinkExample(w: string, l: string, o: string, was: string, content: string)
    requires o != w
    ensures
      var t, path := LinkTree(w, l, o)[[o] := File(was)], RawPath(false, [Name(l), Cur]);
      && WellFormed(t)
      && ResolveWrite(t, [w], RawPath(false, [Name(l)])) == Err(OutsideWorkspace)
      && ResolveWrite(t, [w], path) == Ok([w, l])
      && WriteFile(t, [w, l], content) == Some(t[[o] := File(content)])
      && ResolveWrite(t[[o] := File(content)], [w], path) == Ok([w, l])
  {
    var t := LinkTree(w, l, o)[[o] := File(was)];
    assert Parent([w]) == [] && Parent([w, l]) == [w] && Parent([o]) == [];
    DottedLinkResolves(t, w, l, o);
    DottedLinkResolves(t[[o] := File(content)], w, l, o);
    CandidateBelowRoot([w], [l], []);
    assert [w] + [l] == [w, l];
    assert Names([l]) + [] == [Name(l)] && Names([w, l]) + [] == Names([w, l]);
    LinkTreeResolves(t, w, l, o);
  }

  lemma DottedLinkResolves(t: Tree, w: string, l: string, o: string)
    requires WellFormed(t) && IsDirectory(t, [w]) && [o] in t && t[[o]].File?
    requires [w, l] in t && t[[w, l]] == Link(RawPath(true, [Name(o)]))
    ensures ResolveWrite(t, [w], RawPath(false, [Name(l), Cur])) == Ok([w, l])
  {
    LinkTreeResolves(t, w, l, o);
    DotNeedsDirectory(t, Names([w, l]));
    assert [w] + [l] == [w, l];
    UnresolvedNameIsItsOwnTarget(t, [w], l, [Cur]);
    CandidateBelowRoot([w], [l], [Cur]);
    assert Names([l]) + [Cur] == [Name(l), Cur];
  }

  // ----- Writing twice -----

  lemma CutAround<T>(s: seq<T>, i: nat, j: nat)
    requires i <= j < |s|
    ensures s == s[..i] + s[i..j] + ([s[j]] + s[j + 1..])
  {
  }

  lemma TailOfPrefixes<T>(a: seq<T>, b: seq<T>, c: seq<T>, x: T)
    requires b != [] && b <= c
    requires var init := b[..|b| - 1]; a <= init && forall k :: |a| <= k < |init| ==> init[k] == x
    requires forall k :: |b| <= k < |c| ==> c[k] == x
    ensures a == c[..|a|] && b[|b| - 1] == c[|b| - 1]
    ensures forall k :: |a| <= k < |c| && k != |b| - 1 ==> c[k] == x
  {
    var init := b[..|b| - 1];
    assert forall k :: 0 <= k < |init| ==> init[k] == c[k];
  }

  /** Where the parent and the file name sit in a path. */
  lemma ParentAndName(comps: seq<Component>, trimmed: seq<Component>, parent: seq<Component>)
    requires trimmed == TrimCur(comps) != []
    requires parent == TrimCur(trimmed[..|trimmed| - 1])
    ensures parent == comps[..|parent|] && trimmed[|trimmed| - 1] == comps[|trimmed| - 1]
    ensures forall k :: |parent| <= k < |comps| && k != |trimmed| - 1 ==> comps[k] == Cur
  {
    TailOfPrefixes(parent, trimmed, comps, Cur);
  }

  /** How a path made of a parent, some dots, a file name and some dots is walked, given where the parent leads. */
  lemma NameWalk(t: Tree, comps: seq<Component>, i: nat, j: nat, create: bool)
    requires i <= j < |comps| && comps[j].Name?
    requires forall k :: i <= k < |comps| && k != j ==> comps[k] == Cur
    requires var stop := Walk(t, [], comps[..i], MAX_LINKS, false); stop.Some? && IsDirectory(t, stop.value.at)
    ensures
      var d := Walk(t, [], comps[..i], MAX_LINKS, false).value;
      var last := j + 1 == |comps|;
      WalkFromRoot(t, comps, create) ==
      match Walk(t, d.at, [comps[j]], d.links, create && last)
      case Some(stop) => if last || IsDirectory(t, stop.at) then Some(stop.at) else None
      case None => None
  {
    var parent, curs, name, curs' := comps[..i], comps[i..j], [comps[j]], comps[j + 1..];
    var d := Walk(t, [], parent, MAX_LINKS, false).value;
    CutAround(comps, i, j);
    WalkConcat(t, [], parent + curs, name + curs', MAX_LINKS, create);
    WalkConcat(t, [], parent, curs, MAX_LINKS, false);
    WalkCurs(t, d.at, curs, d.links, false);
    WalkConcat(t, d.at, name, curs', d.links, create);
    var found := Walk(t, d.at, name, d.links, create && curs' == []);
    if found.Some? {
      WalkCurs(t, found.value.at, curs', found.value.links, create);
    }
  }

  /** What an authorized but unresolved path is made of. */
  lemma UnresolvedParts(t: Tree, comps: seq<Component>) returns (i: nat, j: nat)
    requires WellFormed(t) && Canonicalize(t, comps) == None && ExistingOrParent(t, comps).Ok?
    ensures i <= j < |comps| && comps[j].Name?
    ensures forall k :: i <= k < |comps| && k != j ==> comps[k] == Cur
    ensures Canonicalize(t, comps[..i]).Some? && Canonical(t, Canonicalize(t, comps[..i]).value)
    ensures ExistingOrParent(t, comps) == Ok(Canonicalize(t, comps[..i]).value + [comps[j].name])
  {
    var trimmed := TrimCur(comps);
    var parent := TrimCur(trimmed[..|trimmed| - 1]);
    i, j := |parent|, |trimmed| - 1;
    ParentAndName(comps, trimmed, parent);
    CanonicalizeIdempotent(t, parent);
  }

  lemma LandingOfChild(t: Tree, d: Path, name: string)
    requires WellFormed(t) && Canonical(t, d) && Landing(t, d + [name]).Some?
    ensures
      var stop := Walk(t, d, [Name(name)], MAX_LINKS, true);
      IsDirectory(t, d) && stop.Some? && stop.value.at == Landing(t, d + [name]).value
  {
    NamesOfChild(d, name);
    WalkBelow(t, d, [Name(name)], true);
  }

  /** Opening the request's own spelling for writing fails, or reaches what its authorized path reaches. */
  lemma OwnSpelling(t: Tree, comps: seq<Component>)
    requires WellFormed(t) && ExistingOrParent(t, comps).Ok?
    requires Landing(t, ExistingOrParent(t, comps).value).Some?
    ensures WalkFromRoot(t, comps, true) in {None, Landing(t, ExistingOrParent(t, comps).value)}
  {
    if Canonicalize(t, comps).Some? {
      CreateOnlyAdds(t, [], comps, MAX_LINKS);
      CanonicalizeIdempotent(t, comps);
      CanonicalResolvesToItself(t, Canonicalize(t, comps).value);
    } else {
      var i, j := UnresolvedParts(t, comps);
      var d := Walk(t, [], comps[..i], MAX_LINKS, false).value;
      LandingOfChild(t, d.at, comps[j].name);
      NameWalk(t, comps, i, j, true);
      NameWalk(t, comps, i, j, false);
      MoreLinks(t, [], comps[..i], MAX_LINKS, MAX_LINKS, false);
      if Walk(t, d.at, [comps[j]], d.links, true).Some? {
        MoreLinks(t, d.at, [comps[j]], d.links, MAX_LINKS, true);
      }
    }
  }

  /**
   * Where the same write request resolves once it has been carried out: to what its own spelling opens,
   * provided that is under the root, and as before when its own spelling cannot be opened.
   */
  function SecondTarget(t: Tree, root: Path, path: RawPath): Result<Path, AuthorizationError>
    requires ResolveWrite(t, root, path).Ok?
  {
    match WalkFromRoot(t, Candidate(root, path), true)
    case Some(q) => EnsureUnderRoot(root, q)
    case None => ResolveWrite(t, root, path)
  }

  lemma ParentStays(t: Tree, after: Tree, comps: seq<Component>)
    requires Grown(t, after)
    requires Canonicalize(t, comps) == None && Canonicalize(after, comps) == None && ExistingOrParent(t, comps).Ok?
    ensures ExistingOrParent(after, comps) == ExistingOrParent(t, comps)
  {
    var trimmed := TrimCur(comps);
    GrownKeepsWalks(t, after, [], TrimCur(trimmed[..|trimmed| - 1]), MAX_LINKS);
  }

  lemma ResolvesToSecondTarget(t: Tree, root: Path, path: RawPath, after: Tree, q: Path, content: string)
    requires WellFormed(t) && ResolveWrite(t, root, path).Ok? && after == t[q := File(content)] && Grown(t, after)
    requires Landing(t, ResolveWrite(t, root, path).value) == Some(q)
    ensures ResolveWrite(after, root, path) == SecondTarget(t, root, path)
  {
    var comps := Candidate(root, path);
    OwnSpelling(t, comps);
    GrownKeepsLandings(t, after, [], comps, MAX_LINKS);
    if WalkFromRoot(t, comps, true).Some? {
      ExistingNeedsNoCreate(after, [], comps, MAX_LINKS);
    } else {
      if Canonicalize(after, comps).Some? {
        CreateOnlyAdds(after, [], comps, MAX_LINKS);
      }
      if Canonicalize(t, comps).Some? {
        CreateOnlyAdds(t, [], comps, MAX_LINKS);
      }
      ParentStays(t, after, comps);
    }
  }

  /** After a write the same request resolves to its second target; a write there changes nothing more. */
  lemma WriteAgain(t: Tree, root: Path, path: RawPath, content: string)
    requires WellFormed(t) && ResolveWrite(t, root, path).Ok?
    requires WriteFile(t, ResolveWrite(t, root, path).value, content).Some?
    ensures
      var after := WriteFile(t, ResolveWrite(t, root, path).value, content).value;
      && WellFormed(after)
      && ResolveWrite(after, root, path) == SecondTarget(t, root, path)
      && (SecondTarget(t, root, path).Ok? ==>
            WriteFile(after, SecondTarget(t, root, path).value, content) == Some(after))
  {
    var p := ResolveWrite(t, root, path).value;
    var after, q := WriteFile(t, p, content).value, Landing(t, p).value;
    WriteGrows(t, p, content);
    ResolvesToSecondTarget(t, root, path, after, q, content);
    OwnSpelling(t, Candidate(root, path));
    GrownKeepsLandings(t, after, [], Names(p), MAX_LINKS);
    CanonicalResolvesToItself(after, q);
    assert after[q := File(content)] == after;
  }

  /** With no link at the authorized path, the second target is that path. */
  lemma LinkFreeSecondTarget(t: Tree, root: Path, path: RawPath)
    requires WellFormed(t) && ResolveWrite(t, root, path).Ok?
    requires Landing(t, ResolveWrite(t, root, path).value).Some? && !IsLink(t, ResolveWrite(t, root, path).value)
    ensures SecondTarget(t, root, path) == ResolveWrite(t, root, path)
  {
    OwnSpelling(t, Candidate(root, path));
    WriteReachesAuthorizedPath(t, root, path);
  }
}
