/** What resolution computes, said without walking: the component stack, and where `..` and links lead. */
module PathMeaning {
  import opened Wrappers
  import opened Contract
  import opened Paths
  import opened PathProofs
  import opened PathText
  import opened Strings

  // ----- Trees without links -----

  /** The components read onto a stack of names that starts as `at`. */
  function Stack(at: Path, comps: seq<Component>): Path {
    if comps == [] then at
    else
      var below := Stack(at, comps[..|comps| - 1]);
      match comps[|comps| - 1]
      case Cur => below
      case Up => if below == [] then [] else below[..|below| - 1]
      case Name(name) => below + [name]
  }

  ghost predicate LinkFree(t: Tree) {
    forall p :: p in t ==> !t[p].Link?
  }

  /** Every place a component is read from is a directory. */
  ghost predicate Passes(t: Tree, at: Path, comps: seq<Component>) {
    forall i :: 0 <= i < |comps| ==> IsDirectory(t, Stack(at, comps[..i]))
  }

  /** What the stack names is there, or is a free name that may be created. */
  ghost predicate Arrives(t: Tree, at: Path, comps: seq<Component>, create: bool) {
    Stack(at, comps) in t || (create && comps != [] && comps[|comps| - 1].Name?)
  }

  lemma {:induction false} StackCons(at: Path, first: Component, rest: seq<Component>)
    ensures Stack(at, [first] + rest) == Stack(Stack(at, [first]), rest)
  {
    if rest == [] {
      assert [first] + rest == [first];
    } else {
      var init, last := rest[..|rest| - 1], rest[|rest| - 1];
      StackCons(at, first, init);
      assert ([first] + rest)[..|rest|] == [first] + init;
    }
  }

  lemma StackOfOne(at: Path, c: Component)
    ensures Stack(at, [c]) ==
            match c
            case Cur => at
            case Up => Parent(at)
            case Name(name) => at + [name]
  {
    assert [c][..0] == [];
  }

  lemma PassesCons(t: Tree, at: Path, first: Component, rest: seq<Component>)
    ensures Passes(t, at, [first] + rest) <==> IsDirectory(t, at) && Passes(t, Stack(at, [first]), rest)
  {
    var comps := [first] + rest;
    assert comps[..0] == [];
    forall i | 0 <= i <= |rest|
      ensures Stack(at, comps[..i + 1]) == Stack(Stack(at, [first]), rest[..i])
    {
      assert comps[..i + 1] == [first] + rest[..i];
      StackCons(at, first, rest[..i]);
    }
    if IsDirectory(t, at) && Passes(t, Stack(at, [first]), rest) {
      forall i | 0 <= i < |comps|
        ensures IsDirectory(t, Stack(at, comps[..i]))
      {
        if i > 0 { assert IsDirectory(t, Stack(Stack(at, [first]), rest[..i - 1])); }
      }
    }
    if Passes(t, at, comps) {
      assert IsDirectory(t, Stack(at, comps[..0]));
      forall i | 0 <= i < |rest|
        ensures IsDirectory(t, Stack(Stack(at, [first]), rest[..i]))
      {
        assert IsDirectory(t, Stack(at, comps[..i + 1]));
      }
    }
  }

  /** On a tree without links a walk from an entry reads the stack, on any budget. */
  lemma {:induction false} WalkReadsStack(
      t: Tree, at: Path, comps: seq<Component>, links: nat, create: bool)
    requires WellFormed(t) && LinkFree(t) && at in t
    ensures Walk(t, at, comps, links, create) ==
            if Passes(t, at, comps) && Arrives(t, at, comps, create) then Some(Stop(Stack(at, comps), links)) else None
    decreases |comps|
  {
    if comps != [] {
      var first, rest := comps[0], comps[1..];
      assert comps == [first] + rest;
      StackOfOne(at, first);
      StackCons(at, first, rest);
      PassesCons(t, at, first, rest);
      var next := Stack(at, [first]);
      if IsDirectory(t, at) {
        if next in t {
          WalkReadsStack(t, next, rest, links, create);
          if rest == [] { assert comps == [first]; }
        } else {
          MissingEntryEnds(t, at, next, rest);
        }
      }
    }
  }

  /** Nothing is read from a missing entry. */
  lemma MissingEntryEnds(t: Tree, at: Path, next: Path, rest: seq<Component>)
    requires next !in t
    ensures Passes(t, next, rest) <==> rest == []
  {
    if rest != [] {
      assert Stack(next, rest[..0]) == next;
      assert Passes(t, next, rest) ==> IsDirectory(t, Stack(next, rest[..0]));
    }
  }

  /**
   * On a tree without links a path canonicalizes to its component stack exactly when every component is read
   * from a directory and the stack is there; otherwise it does not resolve.
   */
  lemma CanonicalizeIsStack(t: Tree, comps: seq<Component>)
    requires WellFormed(t) && LinkFree(t)
    ensures Canonicalize(t, comps) ==
            if Passes(t, [], comps) && Stack([], comps) in t then Some(Stack([], comps)) else None
  {
    WalkReadsStack(t, [], comps, MAX_LINKS, false);
  }

  lemma {:induction false} StackOfNames(at: Path, p: Path)
    ensures Stack(at, Names(p)) == at + p
  {
    if p == [] {
      assert at + p == at;
    } else {
      var init := p[..|p| - 1];
      assert Names(p)[..|p| - 1] == Names(init);
      StackOfNames(at, init);
      assert at + init + [p[|p| - 1]] == at + p;
    }
  }

  /**
   * A read request on a tree without links: a relative path is read from the root, an absolute one from the top,
   * and it is authorized as its stack exactly when it resolves there under the root.
   */
  lemma ReadResolvesToStack(t: Tree, root: Path, path: RawPath, p: Path)
    requires WellFormed(t) && LinkFree(t) && IsDirectory(t, root)
    ensures
      var from := if path.absolute then [] else root;
      ResolveRead(t, root, path) == Ok(p) <==>
      Passes(t, from, path.comps) && p == Stack(from, path.comps) && p in t && root <= p
  {
    if path.absolute {
      CanonicalizeIsStack(t, path.comps);
    } else {
      WalkBelow(t, root, path.comps, false);
      WalkReadsStack(t, root, path.comps, MAX_LINKS, false);
    }
  }

  /** The two ways a read request is refused before any policy is asked. */
  lemma ReadRefusals(t: Tree, root: Path, path: RawPath)
    requires WellFormed(t) && LinkFree(t) && IsDirectory(t, root)
    ensures
      var from := if path.absolute then [] else root;
      var found := Passes(t, from, path.comps) && Stack(from, path.comps) in t;
      && (ResolveRead(t, root, path) == Err(Io) <==> !found)
      && (ResolveRead(t, root, path) == Err(OutsideWorkspace) <==> found && !(root <= Stack(from, path.comps)))
  {
    if path.absolute {
      CanonicalizeIsStack(t, path.comps);
    } else {
      WalkBelow(t, root, path.comps, false);
      WalkReadsStack(t, root, path.comps, MAX_LINKS, false);
    }
  }

  // ----- Write requests on trees without links -----

  ghost predicate Dots(comps: seq<Component>) {
    forall i :: 0 <= i < |comps| ==> comps[i] == Cur
  }

  ghost predicate EndsPlain(comps: seq<Component>) {
    comps != [] ==> comps[|comps| - 1] != Cur
  }

  lemma {:induction false} TrimDots(comps: seq<Component>, dots: seq<Component>)
    requires Dots(dots) && EndsPlain(comps)
    ensures TrimCur(comps + dots) == comps
  {
    if dots == [] {
      assert comps + dots == comps;
    } else {
      var shorter := dots[..|dots| - 1];
      assert (comps + dots)[..|comps + dots| - 1] == comps + shorter;
      TrimDots(comps, shorter);
    }
  }

  lemma ParentPart(before: seq<Component>, name: string, dots: seq<Component>, dots': seq<Component>)
    requires Dots(dots) && Dots(dots') && EndsPlain(before)
    ensures
      var comps := before + dots + [Name(name)] + dots';
      TrimCur(comps) == before + dots + [Name(name)] && TrimCur(TrimCur(comps)[..|TrimCur(comps)| - 1]) == before
  {
    TrimDots(before + dots + [Name(name)], dots');
    assert (before + dots + [Name(name)])[..|before + dots|] == before + dots;
    TrimDots(before, dots);
  }

  lemma ParentLookup(
      t: Tree, comps: seq<Component>, before: seq<Component>, dots: seq<Component>, name: string,
      dots': seq<Component>)
    requires Dots(dots) && Dots(dots') && EndsPlain(before)
    requires comps == before + dots + [Name(name)] + dots' && Canonicalize(t, comps) == None
    ensures ExistingOrParent(t, comps) ==
            match Canonicalize(t, before)
            case Some(d) => Ok(d + [name])
            case None => Err(Io)
  {
    ParentPart(before, name, dots, dots');
    assert TrimCur(comps)[|TrimCur(comps)| - 1] == Name(name);
  }

  lemma NoNameLookup(t: Tree, comps: seq<Component>, before: seq<Component>, dots: seq<Component>)
    requires Dots(dots) && before != [] && before[|before| - 1] == Up
    requires comps == before + dots && Canonicalize(t, comps) == None
    ensures ExistingOrParent(t, comps) == Err(Denied("write target must include a file name", None))
  {
    TrimDots(before, dots);
  }

  lemma Regroup<T>(a: seq<T>, b: seq<T>, c: seq<T>, d: seq<T>, e: seq<T>)
    ensures a + (b + c) == a + b + c
    ensures a + (b + c + d + e) == a + b + c + d + e
  {
  }

  lemma CandidateFrom(t: Tree, root: Path, absolute: bool, comps: seq<Component>)
    requires WellFormed(t) && LinkFree(t) && IsDirectory(t, root)
    ensures
      var from := if absolute then [] else root;
      Canonicalize(t, Candidate(root, RawPath(absolute, comps))) ==
      if Passes(t, from, comps) && Stack(from, comps) in t then Some(Stack(from, comps)) else None
  {
    if absolute {
      CanonicalizeIsStack(t, comps);
    } else {
      WalkBelow(t, root, comps, false);
      WalkReadsStack(t, root, comps, MAX_LINKS, false);
    }
  }

  /** A write request that resolves is authorized as what it resolves to, exactly when that is under the root. */
  lemma WriteResolvesToStack(t: Tree, root: Path, path: RawPath)
    requires WellFormed(t) && LinkFree(t) && IsDirectory(t, root)
    ensures
      var from := if path.absolute then [] else root;
      Passes(t, from, path.comps) && Stack(from, path.comps) in t ==>
        ResolveWrite(t, root, path) ==
        if root <= Stack(from, path.comps) then Ok(Stack(from, path.comps)) else Err(OutsideWorkspace)
  {
    CandidateFrom(t, root, path.absolute, path.comps);
  }

  /**
   * One that does not resolve is authorized by its file name, below whatever its parent part resolves to:
   * the parent part is what comes before the name, and dots around the name are dropped.
   */
  lemma NewFileResolves(
      t: Tree, root: Path, absolute: bool, before: seq<Component>, dots: seq<Component>, name: string,
      dots': seq<Component>)
    requires WellFormed(t) && LinkFree(t) && IsDirectory(t, root)
    requires Dots(dots) && Dots(dots') && EndsPlain(before)
    requires
      var from, comps := if absolute then [] else root, before + dots + [Name(name)] + dots';
      !(Passes(t, from, comps) && Stack(from, comps) in t)
    ensures
      var from, comps := if absolute then [] else root, before + dots + [Name(name)] + dots';
      var p := Stack(from, before) + [name];
      ResolveWrite(t, root, RawPath(absolute, comps)) ==
      if !(Passes(t, from, before) && Stack(from, before) in t) then Err(Io)
      else if root <= p then Ok(p)
      else Err(OutsideWorkspace)
  {
    var comps, start := before + dots + [Name(name)] + dots', if absolute then [] else Names(root);
    CandidateFrom(t, root, absolute, comps);
    CandidateFrom(t, root, absolute, before);
    Regroup(start, before, dots, [Name(name)], dots');
    StartedPlain(root, before);
    CandidateStarts(root, absolute, comps);
    CandidateStarts(root, absolute, before);
    ParentLookup(t, start + comps, start + before, dots, name, dots');
  }

  lemma CandidateStarts(root: Path, absolute: bool, comps: seq<Component>)
    ensures Candidate(root, RawPath(absolute, comps)) == (if absolute then [] else Names(root)) + comps
  {
    assert [] + comps == comps;
  }

  lemma StartedPlain(root: Path, before: seq<Component>)
    requires EndsPlain(before)
    ensures EndsPlain(Names(root) + before) && EndsPlain([] + before)
  {
    if before == [] && root != [] {
      assert (Names(root) + before)[|root| - 1] == Name(root[|root| - 1]);
    }
  }

  lemma EndsUp(start: seq<Component>, before: seq<Component>, dots: seq<Component>)
    requires before != [] && before[|before| - 1] == Up
    ensures start + (before + dots) == start + before + dots && (start + before)[|start + before| - 1] == Up
  {
  }

  lemma NoNameRefused(t: Tree, root: Path, absolute: bool, before: seq<Component>, dots: seq<Component>)
    requires Dots(dots) && before != [] && before[|before| - 1] == Up
    requires Canonicalize(t, Candidate(root, RawPath(absolute, before + dots))) == None
    ensures
      ResolveWrite(t, root, RawPath(absolute, before + dots)) ==
      Err(Denied("write target must include a file name", None))
  {
    var start := if absolute then [] else Names(root);
    CandidateStarts(root, absolute, before + dots);
    EndsUp(start, before, dots);
    NoNameLookup(t, start + (before + dots), start + before, dots);
  }

  /** A write request without a file name at its end is refused unless it resolves. */
  lemma NoFileName(t: Tree, root: Path, absolute: bool, before: seq<Component>, dots: seq<Component>)
    requires WellFormed(t) && LinkFree(t) && IsDirectory(t, root)
    requires Dots(dots) && before != [] && before[|before| - 1] == Up
    requires
      var from := if absolute then [] else root;
      !(Passes(t, from, before + dots) && Stack(from, before + dots) in t)
    ensures
      ResolveWrite(t, root, RawPath(absolute, before + dots)) ==
      Err(Denied("write target must include a file name", None))
  {
    CandidateFrom(t, root, absolute, before + dots);
    NoNameRefused(t, root, absolute, before, dots);
  }

  // ----- Every tree: parents and links -----

  /** Resolution with a given number of links still to follow. */
  function Resolve(t: Tree, comps: seq<Component>, links: nat, create: bool): Option<Path> {
    match Walk(t, [], comps, links, create)
    case Some(stop) => Some(stop.at)
    case None => None
  }

  /** The system follows forty links before it gives up. */
  lemma CanonicalizeIsResolve(t: Tree, comps: seq<Component>)
    ensures Canonicalize(t, comps) == Resolve(t, comps, 40, false)
  {
  }

  lemma ResolveFrom(t: Tree, d: Path, rest: seq<Component>, links: nat, create: bool)
    requires WellFormed(t) && Canonical(t, d)
    ensures
      var walked := Walk(t, d, rest, links, create);
      Resolve(t, Names(d) + rest, links, create) == if walked.Some? then Some(walked.value.at) else None
  {
    assert [] + d == d;
    WalkNames(t, [], d, rest, links, create);
  }

  lemma WalkUp(t: Tree, d: Path, rest: seq<Component>, links: nat, create: bool)
    requires IsDirectory(t, d)
    ensures Walk(t, d, [Up] + rest, links, create) == Walk(t, Parent(d), rest, links, create)
  {
    assert ([Up] + rest)[1..] == rest;
  }

  /** `..` in a directory leads to the directory that holds it; at the top it stays. */
  lemma UpLeadsToParent(t: Tree, d: Path, rest: seq<Component>, links: nat, create: bool)
    requires WellFormed(t) && IsDirectory(t, d)
    ensures
      var above := if d == [] then [] else d[..|d| - 1];
      Resolve(t, Names(d) + ([Up] + rest), links, create) == Resolve(t, Names(above) + rest, links, create)
  {
    ResolveFrom(t, d, [Up] + rest, links, create);
    WalkUp(t, d, rest, links, create);
    ResolveFrom(t, Parent(d), rest, links, create);
  }

  /** Nothing is read from anything but a directory, not even `..` or `.`. */
  lemma NothingBeyondFiles(t: Tree, p: Path, c: Component, rest: seq<Component>, links: nat, create: bool)
    requires WellFormed(t) && Canonical(t, p) && !IsDirectory(t, p)
    ensures Resolve(t, Names(p) + ([c] + rest), links, create) == None
  {
    ResolveFrom(t, p, [c] + rest, links, create);
  }

  /** `.` in a directory changes nothing. */
  lemma DotStays(t: Tree, d: Path, rest: seq<Component>, links: nat, create: bool)
    requires WellFormed(t) && IsDirectory(t, d)
    ensures Resolve(t, Names(d) + ([Cur] + rest), links, create) == Resolve(t, Names(d) + rest, links, create)
  {
    ResolveFrom(t, d, [Cur] + rest, links, create);
    assert ([Cur] + rest)[1..] == rest;
    ResolveFrom(t, d, rest, links, create);
  }

  lemma WalkLink(
      t: Tree, d: Path, l: string, target: RawPath, comps: seq<Component>, onward: seq<Component>,
      links: nat, create: bool)
    requires IsDirectory(t, d) && d + [l] in t && t[d + [l]] == Link(target)
    requires comps != [] && comps[0] == Name(l) && onward == target.comps + comps[1..]
    ensures Walk(t, d, comps, links, create) ==
            if links == 0 then None else Walk(t, if target.absolute then [] else d, onward, links - 1, create)
  {
  }

  /**
   * A link reads as its target: from the link's own directory when relative, from the top when absolute,
   * with one link fewer to follow; with none left it does not resolve.
   */
  lemma LinkReadsAsTarget(
      t: Tree, d: Path, l: string, target: RawPath, rest: seq<Component>, links: nat, create: bool)
    requires WellFormed(t) && IsDirectory(t, d) && d + [l] in t && t[d + [l]] == Link(target)
    ensures
      var path, onward := Names(d) + ([Name(l)] + rest), target.comps + rest;
      Resolve(t, path, links, create) ==
      if links == 0 then None
      else Resolve(t, if target.absolute then onward else Names(d) + onward, links - 1, create)
  {
    var own, onward := [Name(l)] + rest, target.comps + rest;
    assert own[1..] == rest;
    ResolveFrom(t, d, own, links, create);
    WalkLink(t, d, l, target, own, onward, links, create);
    if links > 0 {
      ResolveFrom(t, d, onward, links - 1, create);
    }
  }

  /** What resolves on some budget resolves alike on a larger one. */
  lemma BudgetOnlyStops(t: Tree, comps: seq<Component>, links: nat, more: nat, create: bool)
    requires links <= more && Resolve(t, comps, links, create).Some?
    ensures Resolve(t, comps, more, create) == Resolve(t, comps, links, create)
  {
    MoreLinks(t, [], comps, links, more, create);
  }

  /** A missing name resolves only as the last component of a path that may be created. */
  lemma MissingName(t: Tree, d: Path, name: string, rest: seq<Component>, links: nat, create: bool)
    requires WellFormed(t) && IsDirectory(t, d) && d + [name] !in t
    ensures Resolve(t, Names(d) + ([Name(name)] + rest), links, create) ==
            if create && rest == [] then Some(d + [name]) else None
  {
    ResolveFrom(t, d, [Name(name)] + rest, links, create);
  }

  // ----- Requests as text -----

  /** `..` between two names as tool input. */
  lemma DotDotParses(name: string, other: string)
    requires NameOk(name) && NameOk(other)
    ensures ParsePath("..") == RawPath(false, [Up])
    ensures ParsePath(name + "/../" + other) == RawPath(false, [Name(name), Up, Name(other)])
  {
    SplitOfPart(name, '/');
    SplitOfPart("..", '/');
    SplitOfPart(other, '/');
    SplitOfJoin("..", '/', other);
    SplitOfJoin(name, '/', ".." + "/" + other);
    assert name + "/" + (".." + "/" + other) == name + "/../" + other;
    ComponentsOfThree(name, other);
    assert (name + "/../" + other)[0] == name[0];
    assert [".."][1..] == [];
  }

  lemma ComponentsOfThree(name: string, other: string)
    requires NameOk(name) && NameOk(other)
    ensures Components([name] + ([".."] + [other])) == [Name(name), Up, Name(other)]
  {
    NameThen(name, [".."] + [other]);
    assert ([".."] + [other])[1..] == [other];
    NameThen(other, []);
    assert [other] + [] == [other];
  }

  /** A request that goes into a directory and back out names what it would have named directly. */
  lemma DetourResolvesAlike(t: Tree, root: Path, name: string, other: string)
    requires WellFormed(t) && IsDirectory(t, root) && IsDirectory(t, root + [name])
    requires NameOk(name) && NameOk(other)
    ensures ResolveRead(t, root, ParsePath(name + "/../" + other)) == ResolveRead(t, root, ParsePath(other))
  {
    DotDotParses(name, other);
    PlainNameParses(other);
    UpLeadsToParent(t, root + [name], [Name(other)], MAX_LINKS, false);
    assert Names(root) + [Name(name), Up, Name(other)] == Names(root + [name]) + ([Up] + [Name(other)]);
    assert (root + [name])[..|root|] == root;
    CanonicalizeIsResolve(t, Names(root) + [Name(name), Up, Name(other)]);
    CanonicalizeIsResolve(t, Names(root) + [Name(other)]);
  }
}
