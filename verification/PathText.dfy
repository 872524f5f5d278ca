/** Paths as text: what is shown in the audit reads back as the same path. */
module PathText {
  import opened Contract
  import opened Paths
  import opened Policies
  import opened Strings

  /** A name a directory entry can have. */
  ghost predicate NameOk(name: string) {
    name != "" && name != "." && name != ".." && '/' !in name
  }

  ghost predicate NamesOk(p: Path) {
    forall i :: 0 <= i < |p| ==> NameOk(p[i])
  }

  lemma {:induction false} DisplaySplits(p: Path)
    requires p != [] && NamesOk(p)
    ensures Split(Display(p), '/') == [""] + p
  {
    var init, last := p[..|p| - 1], p[|p| - 1];
    assert p == init + [last];
    SplitOfPart(last, '/');
    if init == [] {
      assert "" + "/" + last == Display(p);
      SplitOfJoin("", '/', last);
    } else {
      DisplaySplits(init);
      SplitOfJoin(Display(init), '/', last);
    }
  }

  lemma {:induction false} ComponentsOfNames(p: Path)
    requires NamesOk(p)
    ensures Components(p) == Names(p)
  {
    if p != [] {
      ComponentsOfNames(p[1..]);
      assert Names(p) == [Name(p[0])] + Names(p[1..]);
    }
  }

  lemma DisplayIsRooted(p: Path)
    ensures Display(p) != "" && Display(p)[0] == '/'
  {
  }

  /** A displayed path parses to its own names; the root alone reads as a directory. */
  lemma DisplayedPathParses(p: Path)
    requires NamesOk(p)
    ensures ParsePath(Display(p)) == RawPath(true, if p == [] then [Cur] else Names(p))
  {
    DisplayIsRooted(p);
    if p == [] {
      assert Split("/", '/') == ["", ""] by {
        SplitOfJoin("", '/', "");
        assert "" + "/" + "" == "/";
      }
    } else {
      DisplaySplits(p);
      ComponentsOfNames(p);
      assert ([""] + p)[1..] == p;
    }
  }

  lemma NamesInjective(p: Path, q: Path)
    requires Names(p) == Names(q)
    ensures p == q
  {
    assert |p| == |Names(p)| == |q|;
    forall i | 0 <= i < |p|
      ensures p[i] == q[i]
    {
      assert Names(p)[i] == Name(p[i]) && Names(q)[i] == Name(q[i]);
    }
  }

  /** Two different paths are never shown alike. */
  lemma DisplayInjective(p: Path, q: Path)
    requires NamesOk(p) && NamesOk(q) && Display(p) == Display(q)
    ensures p == q
  {
    DisplayedPathParses(p);
    DisplayedPathParses(q);
    NamesAreNotDots(p);
    NamesAreNotDots(q);
    if p != [] && q != [] {
      NamesInjective(p, q);
    }
  }

  lemma NamesAreNotDots(p: Path)
    ensures Names(p) != [Cur]
  {
    if p != [] {
      assert Names(p)[0] == Name(p[0]);
    }
  }

  /** A plain name as tool input; a slash or a slash and a dot after it asks for a directory. */
  lemma PlainNameParses(name: string)
    requires NameOk(name)
    ensures ParsePath(name) == RawPath(false, [Name(name)])
    ensures ParsePath(name + "/") == RawPath(false, [Name(name), Cur])
    ensures ParsePath(name + "/.") == RawPath(false, [Name(name), Cur])
  {
    SplitOfPart(name, '/');
    SplitOfPart("", '/');
    SplitOfPart(".", '/');
    SplitOfJoin(name, '/', "");
    SplitOfJoin(name, '/', ".");
    assert name + "/" + "" == name + "/" && name + "/" + "." == name + "/.";
    NameThen(name, []);
    NameThen(name, [""]);
    NameThen(name, ["."]);
  }

  lemma NameThen(name: string, rest: seq<string>)
    requires NameOk(name)
    ensures Components([name] + rest) == [Name(name)] + Components(rest)
    ensures Components([""]) == [Cur] && Components(["."]) == [Cur] && Components([]) == []
  {
    assert ([name] + rest)[1..] == rest;
    assert ["."][1..] == [];
  }

  // ----- Sessions in the audit -----

  /** Two texts cut at one character each spell the same exactly when one cut continues the other. */
  lemma JoinedAlikeIff(a: string, b: string, a': string, b': string, c: char)
    ensures a + [c] + b == a' + [c] + b' <==>
            || (a == a' && b == b')
            || (exists x :: a' == a + [c] + x && b == x + [c] + b')
            || (exists x :: a == a' + [c] + x && b' == x + [c] + b)
  {
    if a + [c] + b == a' + [c] + b' {
      if |a| < |a'| {
        ShorterContinues(a, b, a', b', c);
      } else if |a'| < |a| {
        ShorterContinues(a', b', a, b, c);
      } else {
        assert a == (a + [c] + b)[..|a|] && b == (a + [c] + b)[|a| + 1..];
        assert a' == (a' + [c] + b')[..|a|] && b' == (a' + [c] + b')[|a| + 1..];
      }
    }
    forall x | a' == a + [c] + x && b == x + [c] + b'
      ensures a + [c] + b == a' + [c] + b'
    {
      assert a + [c] + (x + [c] + b') == a + [c] + x + [c] + b';
    }
    forall x | a == a' + [c] + x && b' == x + [c] + b
      ensures a + [c] + b == a' + [c] + b'
    {
      assert a' + [c] + (x + [c] + b) == a' + [c] + x + [c] + b;
    }
  }

  lemma ShorterContinues(a: string, b: string, a': string, b': string, c: char)
    requires a + [c] + b == a' + [c] + b' && |a| < |a'|
    ensures exists x :: a' == a + [c] + x && b == x + [c] + b'
  {
    var all, x := a + [c] + b, a'[|a| + 1..];
    assert a' == all[..|a'|] && a == all[..|a|] && all[|a|] == c;
    assert a' == a + [c] + x;
    assert b == all[|a| + 1..] && b == x + [c] + b';
  }

  /** The text a session is recorded as. */
  function SessionText(key: SessionKey): string {
    Display(key.workspaceRoot) + "#" + key.sessionId
  }

  /** One root's text is the other's, a hash and a part that the session id repeats. */
  ghost predicate Overlap(key: SessionKey, other: SessionKey) {
    exists x ::
      && Display(other.workspaceRoot) == Display(key.workspaceRoot) + "#" + x
      && key.sessionId == x + "#" + other.sessionId
  }

  /** Sessions are recorded alike exactly when they are the same, or a hash in one root lets the texts overlap. */
  lemma SessionsRecordedAlikeIff(key: SessionKey, other: SessionKey)
    requires NamesOk(key.workspaceRoot) && NamesOk(other.workspaceRoot)
    ensures Resource(SessionLoadAction(key)) == Resource(SessionLoadAction(other)) <==>
            key == other || Overlap(key, other) || Overlap(other, key)
  {
    assert Resource(SessionLoadAction(key)) == ValueResource(SessionText(key));
    assert Resource(SessionLoadAction(other)) == ValueResource(SessionText(other));
    JoinedAlikeIff(
      Display(key.workspaceRoot), key.sessionId, Display(other.workspaceRoot), other.sessionId, '#');
    if Display(key.workspaceRoot) == Display(other.workspaceRoot) {
      DisplayInjective(key.workspaceRoot, other.workspaceRoot);
    }
  }

  lemma OverlapNeedsHash(key: SessionKey, other: SessionKey)
    requires Overlap(key, other)
    ensures '#' in Display(other.workspaceRoot)
  {
    var x :| Display(other.workspaceRoot) == Display(key.workspaceRoot) + "#" + x;
    assert Display(other.workspaceRoot)[|Display(key.workspaceRoot)|] == '#';
  }

  /** Without a hash in either root the record tells sessions apart. */
  lemma HashFreeRootsTellApart(key: SessionKey, other: SessionKey)
    requires NamesOk(key.workspaceRoot) && NamesOk(other.workspaceRoot)
    requires '#' !in Display(key.workspaceRoot) && '#' !in Display(other.workspaceRoot)
    ensures Resource(SessionLoadAction(key)) == Resource(SessionLoadAction(other)) <==> key == other
  {
    SessionsRecordedAlikeIff(key, other);
    if Overlap(key, other) { OverlapNeedsHash(key, other); }
    if Overlap(other, key) { OverlapNeedsHash(other, key); }
  }

  /** Two different sessions that are recorded alike. */
  lemma SessionsRecordedAlikeExample()
    ensures
      Resource(SessionLoadAction(SessionKey(["a"], "b#c"))) == Resource(SessionLoadAction(SessionKey(["a#b"], "c")))
  {
    assert Display(["a"]) + "#" + "b#c" == "/a#b#c" == Display(["a#b"]) + "#" + "c";
  }
}
