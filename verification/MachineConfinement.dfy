/** When exactly a workspace confines the files a run may change. */
module MachineConfinement {
  import opened Wrappers
  import opened CapabilitySet
  import opened Contract
  import opened Paths
  import opened PathProofs
  import opened Policies
  import opened Registry
  import opened Pipeline
  import opened Kernel
  import opened Invocation
  import opened Machine
  import opened MachineSafety
  import opened MachineRefinement

  ghost predicate MayWriteAt(v: View, root: Path, caps: Capabilities, p: Path, content: string) {
    var ctx := PolicyContext(caps, root);
    Allowed(v, ctx, FsAction(p)) && Allowed(v, ctx, FsWriteAction(p, content))
  }

  /** The policies let a frame with these capabilities write anywhere below its root. */
  ghost predicate MayWriteBelow(v: View, root: Path, caps: Capabilities) {
    forall p, content :: root <= p ==> MayWriteAt(v, root, caps, p, content)
  }

  /** If every frame of the run works in `root`, every file it changed is below `root`. */
  ghost predicate StaysInside(
    cfg: Config, tree: Tree, sessions: map<SessionKey, Bytes>, root: Path, labels: seq<Label>)
  {
    var st := Run(cfg, Initial(tree, sessions), labels);
    (forall i :: 0 <= i < |st.frames| ==> st.frames[i].cx.root == root) ==>
      forall q :: Changed(tree, st.tree, q) ==> root <= q
  }

  lemma StartedFrame(cfg: Config, tree: Tree, sessions: map<SessionKey, Bytes>, tool: string, root: Path, caps: Capabilities)
    requires WellFormed(tree) && Canonical(tree, root) && tool in cfg.tools
    ensures
      var st := Step(cfg, Initial(tree, sessions), Start(tool, Names(root), Some(caps)));
      && st.tree == tree && st.calls == [] && |st.frames| == 1 && LiveFrame(st, 0)
      && st.frames[0].cx.effective == caps && st.frames[0].cx.root == root
  {
    CanonicalResolvesToItself(tree, root);
  }

  /** What an allowed write through an authorized path leaves on disk. */
  lemma AllowedWriting(v: View, w: World, root: Path, caps: Capabilities, path: RawPath, p: Path, content: string)
    requires WellFormed(w.tree) && Canonical(w.tree, root) && MayWriteBelow(v, root, caps)
    requires ResolveWrite(w.tree, root, path) == Ok(p) && root <= p && WriteFile(w.tree, p, content).Some?
    ensures Writing(v, w, PolicyContext(caps, root), path, content).0.tree == WriteFile(w.tree, p, content).value
  {
    CanonicalResolvesToItself(w.tree, root);
    assert MayWriteAt(v, root, caps, p, content);
  }

  /** One tool that makes one write call. */
  function OneWrite(tool: string, root: Path, caps: Capabilities, path: RawPath, content: string): seq<Label> {
    [Start(tool, Names(root), Some(caps))] + WriteCall(path, content)
  }

  function WriteCall(path: RawPath, content: string): seq<Label> {
    [Begin(0, WriteRequest(path, content)), Authorize(0), Authorize(0), Perform(0)]
  }

  lemma WriteCallWrites(
      cfg: Config, st: State, root: Path, caps: Capabilities, path: RawPath, p: Path, content: string)
    requires WellFormed(st.tree) && Canonical(st.tree, root) && MayWriteBelow(cfg.policies, root, caps)
    requires LiveFrame(st, 0) && st.calls == [] && st.frames[0].cx.root == root && st.frames[0].cx.effective == caps
    requires ResolveWrite(st.tree, root, path) == Ok(p) && root <= p && WriteFile(st.tree, p, content).Some?
    ensures
      var after := Run(cfg, st, WriteCall(path, content));
      after.frames == st.frames && after.tree == WriteFile(st.tree, p, content).value
  {
    CallsKeepFrames(cfg, st, WriteCall(path, content));
    CanonicalResolvesToItself(st.tree, root);
    UninterruptedCallIsFacade(cfg, st, 0, WriteRequest(path, content));
    AllowedWriting(cfg.policies, WorldOf(st), root, caps, path, p, content);
  }

  lemma OneWriteWrites(
      cfg: Config, tree: Tree, sessions: map<SessionKey, Bytes>, tool: string, root: Path, caps: Capabilities,
      path: RawPath, p: Path, content: string)
    requires WellFormed(tree) && Canonical(tree, root) && tool in cfg.tools && MayWriteBelow(cfg.policies, root, caps)
    requires ResolveWrite(tree, root, path) == Ok(p) && root <= p && WriteFile(tree, p, content).Some?
    ensures
      var after := Run(cfg, Initial(tree, sessions), OneWrite(tool, root, caps, path, content));
      && (forall i :: 0 <= i < |after.frames| ==> after.frames[i].cx.root == root)
      && after.tree == WriteFile(tree, p, content).value
  {
    var start := Start(tool, Names(root), Some(caps));
    StartedFrame(cfg, tree, sessions, tool, root, caps);
    RunConcat(cfg, Initial(tree, sessions), [start], WriteCall(path, content));
    RunOfOne(cfg, Initial(tree, sessions), start);
    WriteCallWrites(cfg, Step(cfg, Initial(tree, sessions), start), root, caps, path, p, content);
  }

  /** Through an outward link one write call changes a file outside the workspace. */
  lemma OutwardLinkEscapes(
      cfg: Config, tree: Tree, sessions: map<SessionKey, Bytes>, tool: string, root: Path, caps: Capabilities, p: Path)
    returns (labels: seq<Label>)
    requires WellFormed(tree) && Canonical(tree, root) && tool in cfg.tools && MayWriteBelow(cfg.policies, root, caps)
    requires IsLink(tree, p) && root <= p && !LandsInside(tree, root, p)
    ensures !StaysInside(cfg, tree, sessions, root, labels)
  {
    var path := OutsideLinkIsWriteTarget(tree, root, p);
    var q := Landing(tree, p).value;
    WalkStops(tree, [], Names(p), MAX_LINKS, true);
    var content := if q in tree then tree[q].content + "." else "";
    labels := OneWrite(tool, root, caps, path, content);
    OneWriteWrites(cfg, tree, sessions, tool, root, caps, path, p, content);
    assert Changed(tree, Run(cfg, Initial(tree, sessions), labels).tree, q);
  }

  /**
   * Where the policies let tools write in the workspace, every run in it changes only files in it,
   * if and only if no link in the workspace leads out of it.
   */
  lemma WorkspaceConfinesIff(
      cfg: Config, tree: Tree, sessions: map<SessionKey, Bytes>, tool: string, root: Path, caps: Capabilities)
    requires WellFormed(tree) && Canonical(tree, root) && tool in cfg.tools && MayWriteBelow(cfg.policies, root, caps)
    ensures LinksStayInside(tree, root) <==> forall labels :: StaysInside(cfg, tree, sessions, root, labels)
  {
    if LinksStayInside(tree, root) {
      forall labels: seq<Label>
        ensures StaysInside(cfg, tree, sessions, root, labels)
      {
        LinksInsideConfine(cfg, tree, sessions, root, labels);
      }
    } else {
      var p :| IsLink(tree, p) && root <= p && !LandsInside(tree, root, p);
      var labels := OutwardLinkEscapes(cfg, tree, sessions, tool, root, caps, p);
    }
  }

  lemma LinksInsideConfine(cfg: Config, tree: Tree, sessions: map<SessionKey, Bytes>, root: Path, labels: seq<Label>)
    requires WellFormed(tree) && LinksStayInside(tree, root)
    ensures StaysInside(cfg, tree, sessions, root, labels)
  {
    var st := Run(cfg, Initial(tree, sessions), labels);
    if forall i :: 0 <= i < |st.frames| ==> st.frames[i].cx.root == root {
      forall q | Changed(tree, st.tree, q)
        ensures root <= q
      {
        if !(root <= q) {
          FilesOutsideWorkspacesStay(cfg, tree, sessions, labels, q);
        }
      }
    }
  }
}
