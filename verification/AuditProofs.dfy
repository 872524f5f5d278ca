/** What a grant record says about the action it was made for. */
module AuditProofs {
  import opened Contract
  import opened Policies
  import opened PathText
  import opened Pipeline
  import opened Registry

  /** The actions the access facades ask for. */
  ghost predicate Asked(a: Action) {
    match a
    case FsAction(p) => NamesOk(p)
    case FsReadAction(p) => NamesOk(p)
    case FsWriteAction(p, _) => NamesOk(p)
    case NetworkFetchAction(_) => true
    case SessionLoadAction(key) => NamesOk(key.workspaceRoot) && '#' !in Display(key.workspaceRoot)
    case SessionSaveAction(key, _) => NamesOk(key.workspaceRoot) && '#' !in Display(key.workspaceRoot)
    case OtherAction(_, _, _) => false
  }

  /** The same action, up to the content written or the bytes saved. */
  ghost predicate SameRequest(a: Action, b: Action) {
    match a
    case FsAction(p) => b == FsAction(p)
    case FsReadAction(p) => b == FsReadAction(p)
    case FsWriteAction(p, _) => b.FsWriteAction? && b.path == p
    case NetworkFetchAction(url) => b == NetworkFetchAction(url)
    case SessionLoadAction(key) => b == SessionLoadAction(key)
    case SessionSaveAction(key, _) => b.SessionSaveAction? && b.key == key
    case OtherAction(_, _, _) => false
  }

  lemma KindsTellApart(a: Action, b: Action)
    requires !a.OtherAction? && !b.OtherAction? && AuditKind(a) == AuditKind(b)
    ensures TypeOf(a) == TypeOf(b)
  {
    var kinds := [AuditKind(a), AuditKind(b)];
    assert |kinds[0]| == |kinds[1]|;
    assert |AuditKind(a)| > 3 ==> AuditKind(a)[3] == AuditKind(b)[3];
    assert |AuditKind(a)| > 14 ==> AuditKind(a)[14] == AuditKind(b)[14];
  }

  /** A record's kind and resource identify the request, with no hash in a session's root. */
  lemma RecordIdentifiesRequest(a: Action, b: Action)
    requires Asked(a) && Asked(b)
    ensures AuditKind(a) == AuditKind(b) && Resource(a) == Resource(b) <==> SameRequest(a, b)
  {
    if AuditKind(a) == AuditKind(b) && Resource(a) == Resource(b) {
      KindsTellApart(a, b);
      if a.SessionLoadAction? || a.SessionSaveAction? {
        HashFreeRootsTellApart(a.key, b.key);
      }
    }
  }

  /** What the record of each request shows, whoever allowed or denied it. */
  lemma RecordShows(v: View, nextId: nat, ctx: PolicyContext, a: Action)
    requires !a.OtherAction?
    ensures
      var record := RecordFor(v, nextId, ctx, a);
      match a
      case FsAction(p) => record.actionKind == "fs" && record.resource == PathResource(p)
      case FsReadAction(p) => record.actionKind == "fs.read" && record.resource == PathResource(p)
      case FsWriteAction(p, _) => record.actionKind == "fs.write" && record.resource == PathResource(p)
      case NetworkFetchAction(url) => record.actionKind == "network.fetch" && record.resource == ValueResource(url)
      case SessionLoadAction(key) => record.actionKind == "monty.session.load" && record.resource == SessionText(key)
      case SessionSaveAction(key, _) => record.actionKind == "monty.session.save" && record.resource == SessionText(key)
  {
  }

  /** A session as its root, a hash and its id. */
  function SessionText(key: SessionKey): AuditResource {
    ValueResource(Display(key.workspaceRoot) + "#" + key.sessionId)
  }
}
