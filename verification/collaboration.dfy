/** The collaboration module (src/modules/collaboration/CollaborationModule.ts): sessions
    with participants, and per session the lists of changes, comments and suggestions. The
    clock (milliseconds) and the generated ids are parameters; a `Date` compares by its
    millisecond value, so timestamps are integers here. */
module Collaboration {
  import opened Wrappers
  import opened Text
  import opened Collections
  import opened Types

  // ---------------------------------------------------------------- records (src/types/platform.ts)

  datatype Role = Owner | Editor | Viewer | Commenter

  datatype Presence = Online | Offline

  datatype Action = Read | Write | CommentOn | Suggest | Approve

  datatype Scope = WholeDocument | Section | Paragraph

  datatype Permission = Permission(action: Action, scope: Scope, granted: bool)

  datatype Participant = Participant(id: String, name: String, role: Role, status: Presence,
                                     lastSeen: Date, permissions: seq<Permission>)

  /** The document a session shares: the platform record, which has no format field. */
  datatype SharedDocument = SharedDocument(id: String, title: String, content: String,
                                           createdAt: Date, updatedAt: Date,
                                           metadata: DocumentMetadata)

  datatype SessionStatus = Active | Paused | Completed

  datatype Session = Session(id: String, name: String, createdBy: String,
                             participants: seq<Participant>, document: SharedDocument,
                             status: SessionStatus, createdAt: Date, lastActivity: Date)

  /** `{ start, end }` offsets into the document. */
  datatype Span = Span(start: int, end: int)

  datatype ChangeKind = Insert | Delete | Modify

  datatype Change = Change(id: String, kind: ChangeKind, content: String, position: Span,
                           author: String, timestamp: int, approved: bool)

  datatype Reply = Reply(id: String, content: String, author: String, timestamp: int)

  datatype Comment = Comment(id: String, content: String, author: String, position: Span,
                             timestamp: int, resolved: bool, replies: seq<Reply>)

  datatype SuggestionKind = Grammar | StyleSuggestion | Content | Structure

  datatype SuggestionStatus = Pending | Accepted | Rejected

  datatype Proposal = Proposal(id: String, kind: SuggestionKind, original: String,
                               suggested: String, reason: String, confidence: real,
                               position: Span, status: SuggestionStatus)

  const NoSession: String := "会话不存在"
  const NotInitialized: String := "协作模块未初始化"
  const ErrorCode: String := "COLLABORATION_ERROR"

  const UnknownPrefix: String := "未知的协作操作: "

  /** The message an unknown action fails with: the fixed prefix, then the action name. */
  function UnknownAction(action: String): (m: String)
    ensures |m| == |UnknownPrefix| + |action|
    ensures m[..|UnknownPrefix|] == UnknownPrefix && m[|UnknownPrefix|..] == action
  {
    UnknownPrefix + action
  }

  /** The list stored under a session id, or `[]` (the source's `get(id) || []`). */
  function ListOf<T>(m: map<String, seq<T>>, k: String): seq<T> {
    if k in m then m[k] else []
  }

  // ---------------------------------------------------------------- participants

  /** `participants.find(p => p.id === id)`: the position of the first participant with
      that id. */
  function ById(ps: seq<Participant>, id: String): (r: Option<nat>)
    ensures r.Some? ==> r.value < |ps| && ps[r.value].id == id
                        && forall j :: 0 <= j < r.value ==> ps[j].id != id
    ensures r.None? ==> forall j :: 0 <= j < |ps| ==> ps[j].id != id
  {
    FirstIndex(ps, (p: Participant) => p.id == id)
  }

  /** Whether a participant holds a granted permission for an action. */
  predicate Grants(p: Participant, a: Action) {
    exists k :: 0 <= k < |p.permissions| && p.permissions[k].action == a
                && p.permissions[k].granted
  }

  /** The creator as createSession enrols them. */
  function OwnerOf(createdBy: String, now: int): (p: Participant)
    ensures p.id == createdBy && p.name == createdBy && p.role == Owner && p.status == Online
    ensures forall a: Action :: Grants(p, a)
  {
    var p := Participant(createdBy, createdBy, Owner, Online, Instant(now),
                         [Permission(Read, WholeDocument, true),
                          Permission(Write, WholeDocument, true),
                          Permission(CommentOn, WholeDocument, true),
                          Permission(Suggest, WholeDocument, true),
                          Permission(Approve, WholeDocument, true)]);
    assert forall a: Action :: Grants(p, a) by {
      forall a: Action ensures Grants(p, a) {
        assert p.permissions[Index(a)].action == a && p.permissions[Index(a)].granted;
      }
    }
    p
  }

  /** Where an action sits in the permission list the creator receives. */
  function Index(a: Action): (k: nat)
    ensures k < 5
  {
    match a
    case Read => 0
    case Write => 1
    case CommentOn => 2
    case Suggest => 3
    case Approve => 4
  }

  /** The session createSession builds. */
  function NewSession(id: String, name: String, createdBy: String, document: SharedDocument,
                      participants: Option<seq<Participant>>, now: int): (s: Session)
    ensures s.id == id && s.name == name && s.createdBy == createdBy && s.document == document
    ensures |s.participants| >= 1 && s.participants[0] == OwnerOf(createdBy, now)
    ensures s.participants[1..] == participants.GetOr([])
    ensures s.status == Active && s.createdAt == Instant(now) && s.lastActivity == Instant(now)
  {
    Session(id, name, createdBy, [OwnerOf(createdBy, now)] + participants.GetOr([]), document,
            Active, Instant(now), Instant(now))
  }

  /** The participant list after joinSession: the first entry with the joiner's id is set
      online, or the joiner is appended as online. */
  function Joined(ps: seq<Participant>, p: Participant, now: int): (r: seq<Participant>)
  {
    match ById(ps, p.id)
    case Some(i) => ps[i := ps[i].(status := Online, lastSeen := Instant(now))]
    case None => ps + [p.(status := Online, lastSeen := Instant(now))]
  }

  /** Joining keeps everyone already present in place, never duplicates an id that is
      there, and leaves the joiner online. */
  lemma JoinedProperties(ps: seq<Participant>, p: Participant, now: int)
    ensures var r := Joined(ps, p, now);
            |ps| <= |r| && (forall i :: 0 <= i < |ps| ==> r[i].id == ps[i].id)
            && ((exists i :: 0 <= i < |ps| && ps[i].id == p.id) <==> |r| == |ps|)
            && (exists i :: 0 <= i < |r| && r[i].id == p.id && r[i].status == Online)
  {
    var r := Joined(ps, p, now);
    match ById(ps, p.id)
    case Some(i) =>
      assert r[i].id == p.id && r[i].status == Online;
    case None =>
      assert r[|ps|].id == p.id && r[|ps|].status == Online;
  }

  /** The participant list after leaveSession: the first entry with that id goes offline. */
  function Left(ps: seq<Participant>, id: String, now: int): (r: seq<Participant>)
  {
    match ById(ps, id)
    case Some(i) => ps[i := ps[i].(status := Offline, lastSeen := Instant(now))]
    case None => ps
  }

  /** Leaving never changes who takes part, only the leaver's presence. */
  lemma LeftProperties(ps: seq<Participant>, id: String, now: int)
    ensures var r := Left(ps, id, now);
            |r| == |ps| && (forall i :: 0 <= i < |ps| ==> r[i].id == ps[i].id && r[i].role == ps[i].role)
            && ((exists i :: 0 <= i < |ps| && ps[i].id == id) ==>
                  exists i :: 0 <= i < |r| && r[i].id == id && r[i].status == Offline)
            && ((forall i :: 0 <= i < |ps| ==> ps[i].id != id) ==> r == ps)
  {
    match ById(ps, id)
    case Some(i) =>
      assert Left(ps, id, now)[i].status == Offline;
    case None =>
  }

  /** shouldAutoApprove: the first participant with the author's id is an owner or an
      editor. */
  predicate AutoApproves(s: Session, author: String) {
    match ById(s.participants, author)
    case None => false
    case Some(i) => s.participants[i].role == Owner || s.participants[i].role == Editor
  }

  /** A change is approved exactly when its author is on the session and the author's
      (first) entry is an owner's or an editor's; a stranger's change never is. */
  lemma AutoApprovesIff(s: Session, author: String)
    ensures AutoApproves(s, author) <==>
            exists i :: 0 <= i < |s.participants| && s.participants[i].id == author
                        && (forall j :: 0 <= j < i ==> s.participants[j].id != author)
                        && s.participants[i].role in {Owner, Editor}
  {
    match ById(s.participants, author)
    case None =>
    case Some(i) =>
      if AutoApproves(s, author) {
        assert s.participants[i].role in {Owner, Editor};
      }
  }

  // ---------------------------------------------------------------- applying changes

  /** The content applyChange produces, with JavaScript `slice` bounds. */
  function Edited(c: String, kind: ChangeKind, x: String, at: Span): String {
    match kind
    case Insert => Slice(c, 0, at.start) + x + Slice(c, at.start, |c|)
    case Delete => Slice(c, 0, at.start) + Slice(c, at.end, |c|)
    case Modify => Slice(c, 0, at.start) + x + Slice(c, at.end, |c|)
  }

  /** Within the document an insert puts `x` at the start, a delete removes [start, end)
      and a modify replaces [start, end) by `x`. */
  lemma EditedInRange(c: String, x: String, at: Span)
    requires 0 <= at.start <= at.end <= |c|
    ensures Edited(c, Insert, x, at) == c[..at.start] + x + c[at.start..]
    ensures Edited(c, Delete, x, at) == c[..at.start] + c[at.end..]
    ensures Edited(c, Modify, x, at) == c[..at.start] + x + c[at.end..]
    ensures |Edited(c, Modify, x, at)| == |c| - (at.end - at.start) + |x|
  {
  }

  /** Deleting what was just inserted restores the content. */
  lemma InsertThenDelete(c: String, x: String, s: int, e: int)
    requires 0 <= s <= |c|
    ensures Edited(Edited(c, Insert, x, Span(s, e)), Delete, [], Span(s, s + |x|)) == c
  {
    var d := Edited(c, Insert, x, Span(s, e));
    assert d == c[..s] + x + c[s..];
    assert d[..s] == c[..s];
    assert d[s + |x|..] == c[s..];
  }

  /** A modify is a delete followed by an insert at the same place. */
  lemma ModifyIsDeleteThenInsert(c: String, x: String, s: int, e: int)
    requires 0 <= s <= e <= |c|
    ensures Edited(c, Modify, x, Span(s, e))
            == Edited(Edited(c, Delete, [], Span(s, e)), Insert, x, Span(s, s))
  {
    var d := Edited(c, Delete, [], Span(s, e));
    assert d == c[..s] + c[e..];
    assert d[..s] == c[..s];
    assert d[s..] == c[e..];
  }

  /** The document after applyChange: new content, a new `updatedAt`, and the metadata's
      counts recomputed (`split(/\s+/).length` words, `length` characters). */
  function Applied(d: SharedDocument, kind: ChangeKind, x: String, at: Span, now: int): (r: SharedDocument)
    ensures r.content == Edited(d.content, kind, x, at)
    ensures r.metadata.characterCount == |r.content|
    ensures r.metadata.wordCount == |SplitRuns(r.content, IsJsSpace)| >= 1
    ensures r.id == d.id && r.title == d.title && r.createdAt == d.createdAt
    ensures r.updatedAt == Instant(now)
    ensures r.metadata.tags == d.metadata.tags && r.metadata.language == d.metadata.language
  {
    var content := Edited(d.content, kind, x, at);
    d.(content := content, updatedAt := Instant(now),
       metadata := d.metadata.(wordCount := |SplitRuns(content, IsJsSpace)|,
                               characterCount := |content|))
  }

  // ---------------------------------------------------------------- requests and responses

  /** The requests `process` dispatches on; any other action name is `Other`. */
  datatype Request =
    | CreateSessionRequest(name: String, createdBy: String, document: SharedDocument,
                           participants: Option<seq<Participant>>)
    | JoinSessionRequest(sessionId: String, participant: Participant)
    | LeaveSessionRequest(sessionId: String, participantId: String)
    | AddChangeRequest(sessionId: String, changeKind: ChangeKind, content: String,
                       position: Span, author: String)
    | AddCommentRequest(sessionId: String, content: String, author: String, position: Span)
    | AddSuggestionRequest(sessionId: String, suggestionKind: SuggestionKind,
                           original: String, suggested: String, reason: String,
                           confidence: real, position: Span)
    | GetSessionDataRequest(sessionId: String)
    | SyncChangesRequest(sessionId: String, lastSyncTime: Option<int>)
    | Other(action: String)

  datatype SessionData = SessionData(session: Session, changes: seq<Change>,
                                     comments: seq<Comment>, suggestions: seq<Proposal>)

  datatype SyncData = SyncData(changes: seq<Change>, comments: seq<Comment>,
                               suggestions: seq<Proposal>, document: SharedDocument)

  datatype Payload =
    | CreatedSession(session: Session)
    | JoinedSession(session: Session)
    | LeftSession
    | AddedChange(change: Change)
    | AddedComment(comment: Comment)
    | AddedSuggestion(suggestion: Proposal)
    | Data(data: SessionData)
    | Synced(sync: SyncData)

  /** What `process` does: throw, or resolve to a success or failure response. */
  datatype Outcome = Thrown(message: String)
                   | Success(data: Payload)
                   | Failure(code: String, message: String)

  /** Whether a request fails once the module is ready: an unknown action, or a missing
      session for every action but createSession. */
  predicate Fails(req: Request, sessions: map<String, Session>) {
    match req
    case CreateSessionRequest(_, _, _, _) => false
    case Other(_) => true
    case _ => req.sessionId !in sessions
  }

  /** Session ids in the order the source's `Map` iterates them, without repeats, and
      exactly the keys of `sessions`. */
  ghost predicate Ordered(order: seq<String>, sessions: map<String, Session>) {
    (forall k :: k in sessions <==> k in order)
    && (forall i, j :: 0 <= i < j < |order| ==> order[i] != order[j])
  }


  class CollaborationModule {
    var initialized: bool
    var sessions: map<String, Session>
    /** The insertion order of `sessions`. */
    var order: seq<String>
    var changes: map<String, seq<Change>>
    var comments: map<String, seq<Comment>>
    var suggestions: map<String, seq<Proposal>>

    ghost predicate Valid()
      reads this
    {
      Ordered(order, sessions)
    }

    constructor ()
      ensures Valid() && !initialized
      ensures sessions == map[] && order == [] && changes == map[] && comments == map[]
      ensures suggestions == map[]
    {
      initialized := false;
      sessions := map[];
      order := [];
      changes := map[];
      comments := map[];
      suggestions := map[];
    }

    /** initialize: the set-up step cannot fail, so the module becomes ready. */
    method Initialize()
      modifies this
      ensures initialized
      ensures sessions == old(sessions) && order == old(order) && changes == old(changes)
      ensures comments == old(comments) && suggestions == old(suggestions)
    {
      initialized := true;
    }

    /** cleanup: every map is emptied and the module is no longer ready. */
    method Cleanup()
      modifies this
      ensures Valid() && !initialized
      ensures sessions == map[] && order == [] && changes == map[] && comments == map[]
      ensures suggestions == map[]
    {
      sessions := map[];
      order := [];
      changes := map[];
      comments := map[];
      suggestions := map[];
      initialized := false;
    }

    /** createSession under a generated id: the session is stored with empty change,
        comment and suggestion lists. */
    method CreateSession(name: String, createdBy: String, document: SharedDocument,
                         participants: Option<seq<Participant>>, sessionId: String, now: int)
      returns (s: Session)
      requires Valid()
      modifies this
      ensures Valid() && initialized == old(initialized)
      ensures s == NewSession(sessionId, name, createdBy, document, participants, now)
      ensures sessions == old(sessions)[sessionId := s]
      ensures changes == old(changes)[sessionId := []]
      ensures comments == old(comments)[sessionId := []]
      ensures suggestions == old(suggestions)[sessionId := []]
      ensures order == if sessionId in old(sessions) then old(order) else old(order) + [sessionId]
    {
      s := NewSession(sessionId, name, createdBy, document, participants, now);
      if sessionId !in sessions {
        order := order + [sessionId];
      }
      sessions := sessions[sessionId := s];
      changes := changes[sessionId := []];
      comments := comments[sessionId := []];
      suggestions := suggestions[sessionId := []];
    }

    /** joinSession. */
    method JoinSession(sessionId: String, participant: Participant, now: int)
      returns (r: Result<Session, String>)
      requires Valid()
      modifies this
      ensures Valid() && initialized == old(initialized) && order == old(order)
      ensures changes == old(changes) && comments == old(comments)
      ensures suggestions == old(suggestions)
      ensures sessionId !in old(sessions) ==> r == Err(NoSession) && sessions == old(sessions)
      ensures sessionId in old(sessions) ==>
                var s := old(sessions)[sessionId];
                r == Ok(s.(participants := Joined(s.participants, participant, now),
                           lastActivity := Instant(now)))
                && sessions == old(sessions)[sessionId := r.value]
    {
      if sessionId !in sessions {
        return Err(NoSession);
      }
      var s := sessions[sessionId];
      s := s.(participants := Joined(s.participants, participant, now),
              lastActivity := Instant(now));
      sessions := sessions[sessionId := s];
      r := Ok(s);
    }

    /** leaveSession. */
    method LeaveSession(sessionId: String, participantId: String, now: int)
      returns (r: Result<bool, String>)
      requires Valid()
      modifies this
      ensures Valid() && initialized == old(initialized) && order == old(order)
      ensures changes == old(changes) && comments == old(comments)
      ensures suggestions == old(suggestions)
      ensures sessionId !in old(sessions) ==> r == Err(NoSession) && sessions == old(sessions)
      ensures sessionId in old(sessions) ==>
                var s := old(sessions)[sessionId];
                r == Ok(true)
                && sessions == old(sessions)[sessionId := s.(participants := Left(s.participants, participantId, now),
                                                             lastActivity := Instant(now))]
    {
      if sessionId !in sessions {
        return Err(NoSession);
      }
      var s := sessions[sessionId];
      s := s.(participants := Left(s.participants, participantId, now),
              lastActivity := Instant(now));
      sessions := sessions[sessionId := s];
      r := Ok(true);
    }

    /** addChange: the change is appended unapproved, then approved and applied to the
        session's document when its author may edit; the stored entry is the same object,
        so it is stored approved too. */
    method AddChange(sessionId: String, kind: ChangeKind, content: String, position: Span,
                     author: String, changeId: String, now: int)
      returns (r: Result<Change, String>)
      requires Valid()
      modifies this
      ensures Valid() && initialized == old(initialized) && order == old(order)
      ensures comments == old(comments) && suggestions == old(suggestions)
      ensures sessionId !in old(sessions) ==>
                r == Err(NoSession) && sessions == old(sessions) && changes == old(changes)
      ensures sessionId in old(sessions) ==>
                var s := old(sessions)[sessionId];
                var approve := AutoApproves(s, author);
                r == Ok(Change(changeId, kind, content, position, author, now, approve))
                && changes == old(changes)[sessionId := ListOf(old(changes), sessionId) + [r.value]]
                && sessions == old(sessions)[sessionId := s.(
                     document := if approve then Applied(s.document, kind, content, position, now)
                                 else s.document,
                     lastActivity := Instant(now))]
    {
      if sessionId !in sessions {
        return Err(NoSession);
      }
      var s := sessions[sessionId];
      var change := Change(changeId, kind, content, position, author, now, false);
      if AutoApproves(s, author) {
        change := change.(approved := true);
        s := s.(document := Applied(s.document, kind, content, position, now));
      }
      changes := changes[sessionId := ListOf(changes, sessionId) + [change]];
      s := s.(lastActivity := Instant(now));
      sessions := sessions[sessionId := s];
      r := Ok(change);
    }

    /** addComment: appended unresolved and without replies. */
    method AddComment(sessionId: String, content: String, author: String, position: Span,
                      commentId: String, now: int)
      returns (r: Result<Comment, String>)
      requires Valid()
      modifies this
      ensures Valid() && initialized == old(initialized) && order == old(order)
      ensures changes == old(changes) && suggestions == old(suggestions)
      ensures sessionId !in old(sessions) ==>
                r == Err(NoSession) && sessions == old(sessions) && comments == old(comments)
      ensures sessionId in old(sessions) ==>
                r == Ok(Comment(commentId, content, author, position, now, false, []))
                && comments == old(comments)[sessionId := ListOf(old(comments), sessionId) + [r.value]]
                && sessions == old(sessions)[sessionId := old(sessions)[sessionId].(lastActivity := Instant(now))]
    {
      if sessionId !in sessions {
        return Err(NoSession);
      }
      var comment := Comment(commentId, content, author, position, now, false, []);
      comments := comments[sessionId := ListOf(comments, sessionId) + [comment]];
      sessions := sessions[sessionId := sessions[sessionId].(lastActivity := Instant(now))];
      r := Ok(comment);
    }

    /** addSuggestion: appended as pending. */
    method AddSuggestion(sessionId: String, kind: SuggestionKind, original: String,
                         suggested: String, reason: String, confidence: real, position: Span,
                         suggestionId: String, now: int)
      returns (r: Result<Proposal, String>)
      requires Valid()
      modifies this
      ensures Valid() && initialized == old(initialized) && order == old(order)
      ensures changes == old(changes) && comments == old(comments)
      ensures sessionId !in old(sessions) ==>
                r == Err(NoSession) && sessions == old(sessions) && suggestions == old(suggestions)
      ensures sessionId in old(sessions) ==>
                r == Ok(Proposal(suggestionId, kind, original, suggested, reason, confidence,
                                 position, Pending))
                && suggestions == old(suggestions)[sessionId := ListOf(old(suggestions), sessionId) + [r.value]]
                && sessions == old(sessions)[sessionId := old(sessions)[sessionId].(lastActivity := Instant(now))]
    {
      if sessionId !in sessions {
        return Err(NoSession);
      }
      var proposal := Proposal(suggestionId, kind, original, suggested, reason, confidence,
                               position, Pending);
      suggestions := suggestions[sessionId := ListOf(suggestions, sessionId) + [proposal]];
      sessions := sessions[sessionId := sessions[sessionId].(lastActivity := Instant(now))];
      r := Ok(proposal);
    }

    /** getSessionData. */
    function GetSessionData(sessionId: String): (r: Result<SessionData, String>)
      reads this
      ensures r.Err? <==> sessionId !in sessions
      ensures r.Err? ==> r.error == NoSession
      ensures r.Ok? ==> r.value.session == sessions[sessionId]
                        && r.value.changes == ListOf(changes, sessionId)
                        && r.value.comments == ListOf(comments, sessionId)
                        && r.value.suggestions == ListOf(suggestions, sessionId)
    {
      if sessionId !in sessions then Err(NoSession)
      else Ok(SessionData(sessions[sessionId], ListOf(changes, sessionId),
                          ListOf(comments, sessionId), ListOf(suggestions, sessionId)))
    }

    /** syncChanges: changes and comments strictly after the last sync (the epoch when none
        is given), and the suggestions whose span does not start at or before 0. */
    function SyncChanges(sessionId: String, lastSyncTime: Option<int>): (r: Result<SyncData, String>)
      reads this
      ensures r.Err? <==> sessionId !in sessions
      ensures r.Err? ==> r.error == NoSession
      ensures r.Ok? ==>
                var since := lastSyncTime.GetOr(0);
                r.value.document == sessions[sessionId].document
                && (forall c :: c in r.value.changes <==> c in ListOf(changes, sessionId) && c.timestamp > since)
                && (forall c :: c in r.value.comments <==> c in ListOf(comments, sessionId) && c.timestamp > since)
                && (forall p :: p in r.value.suggestions <==> p in ListOf(suggestions, sessionId) && p.position.start > 0)
    {
      if sessionId !in sessions then Err(NoSession)
      else
        var since := lastSyncTime.GetOr(0);
        Ok(SyncData(Filter(ListOf(changes, sessionId), (c: Change) => c.timestamp > since),
                    Filter(ListOf(comments, sessionId), (c: Comment) => c.timestamp > since),
                    Filter(ListOf(suggestions, sessionId), (p: Proposal) => p.position.start > 0),
                    sessions[sessionId].document))
    }

    /** getActiveSessions, in insertion order. */
    function ActiveSessions(): (r: seq<Session>)
      requires Valid()
      reads this
      ensures forall s :: s in r <==> s in sessions.Values && s.status == Active
    {
      assert forall i :: 0 <= i < |order| ==> order[i] in sessions;
      var all := ValuesInOrder(order, sessions);
      assert forall s :: s in sessions.Values ==> s in all by {
        forall s | s in sessions.Values ensures s in all {
          var k :| k in sessions && sessions[k] == s;
          var i :| 0 <= i < |order| && order[i] == k;
          assert all[i] == s;
        }
      }
      Filter(all, (s: Session) => s.status == Active)
    }

    /** getUserSessions, in insertion order. */
    function UserSessions(userId: String): (r: seq<Session>)
      requires Valid()
      reads this
      ensures forall s :: s in r <==> s in sessions.Values && ById(s.participants, userId).Some?
    {
      assert forall i :: 0 <= i < |order| ==> order[i] in sessions;
      var all := ValuesInOrder(order, sessions);
      assert forall s :: s in sessions.Values ==> s in all by {
        forall s | s in sessions.Values ensures s in all {
          var k :| k in sessions && sessions[k] == s;
          var i :| 0 <= i < |order| && order[i] == k;
          assert all[i] == s;
        }
      }
      Filter(all, (s: Session) => ById(s.participants, userId).Some?)
    }

    /** What approveSuggestion checks: the suggestion is listed under the session, the
        session exists, and the approver's (first) entry holds a granted approve
        permission. */
    predicate MayApprove(sessionId: String, suggestionId: String, approverId: String)
      reads this
    {
      FirstIndex(ListOf(suggestions, sessionId), (p: Proposal) => p.id == suggestionId).Some?
      && sessionId in sessions
      && match ById(sessions[sessionId].participants, approverId)
         case None => false
         case Some(i) => Grants(sessions[sessionId].participants[i], Approve)
    }

    /** approveSuggestion: refused without any change unless MayApprove holds; otherwise
        the (first) suggestion with that id is accepted and its text replaces its span of
        the document. */
    method ApproveSuggestion(sessionId: String, suggestionId: String, approverId: String,
                             now: int)
      returns (ok: bool)
      requires Valid()
      modifies this
      ensures Valid() && initialized == old(initialized) && order == old(order)
      ensures changes == old(changes) && comments == old(comments)
      ensures ok <==> old(MayApprove(sessionId, suggestionId, approverId))
      ensures !ok ==> sessions == old(sessions) && suggestions == old(suggestions)
      ensures ok ==>
                var list := old(suggestions)[sessionId];
                var k := FirstIndex(list, (p: Proposal) => p.id == suggestionId).value;
                var s := old(sessions)[sessionId];
                suggestions == old(suggestions)[sessionId := list[k := list[k].(status := Accepted)]]
                && sessions == old(sessions)[sessionId := s.(document := Applied(
                     s.document, Modify, list[k].suggested, list[k].position, now))]
    {
      var list := ListOf(suggestions, sessionId);
      var found := FirstIndex(list, (p: Proposal) => p.id == suggestionId);
      if found.None? || sessionId !in sessions {
        return false;
      }
      var s := sessions[sessionId];
      var approver := ById(s.participants, approverId);
      if approver.None? || !Grants(s.participants[approver.value], Approve) {
        return false;
      }
      var k := found.value;
      var proposal := list[k];
      suggestions := suggestions[sessionId := list[k := proposal.(status := Accepted)]];
      s := s.(document := Applied(s.document, Modify, proposal.suggested, proposal.position, now));
      sessions := sessions[sessionId := s];
      ok := true;
    }

    /** rejectSuggestion: only the status of the (first) suggestion with that id changes,
        whether or not the session still exists. */
    method RejectSuggestion(sessionId: String, suggestionId: String) returns (ok: bool)
      requires Valid()
      modifies this
      ensures Valid() && initialized == old(initialized) && order == old(order)
      ensures sessions == old(sessions) && changes == old(changes) && comments == old(comments)
      ensures var list := ListOf(old(suggestions), sessionId);
              var found := FirstIndex(list, (p: Proposal) => p.id == suggestionId);
              (ok <==> found.Some?)
              && (found.None? ==> suggestions == old(suggestions))
              && (found.Some? ==> suggestions == old(suggestions)[sessionId := list[found.value := list[found.value].(status := Rejected)]])
    {
      var list := ListOf(suggestions, sessionId);
      var found := FirstIndex(list, (p: Proposal) => p.id == suggestionId);
      if found.None? {
        return false;
      }
      suggestions := suggestions[sessionId := list[found.value := list[found.value].(status := Rejected)]];
      ok := true;
    }

    /** process: throws before initialize; otherwise dispatches on the action, and a thrown
        error becomes a failure response with the module's error code. `freshId` is the id
        a create or add action generates. */
    method Process(req: Request, freshId: String, now: int) returns (r: Outcome)
      requires Valid()
      modifies this
      ensures Valid() && initialized == old(initialized)
      ensures !old(initialized) ==>
                r == Thrown(NotInitialized) && sessions == old(sessions) && changes == old(changes)
                && comments == old(comments) && suggestions == old(suggestions)
      ensures old(initialized) && !old(Fails(req, sessions)) ==>
                sessions.Keys == old(sessions.Keys) + (if req.CreateSessionRequest? then {freshId} else {})
      ensures old(initialized) ==> (r.Failure? <==> old(Fails(req, sessions)))
      ensures r.Failure? ==>
                r.code == ErrorCode
                && r.message == (if req.Other? then UnknownAction(req.action) else NoSession)
                && sessions == old(sessions) && changes == old(changes)
                && comments == old(comments) && suggestions == old(suggestions)
      ensures old(initialized) && req.CreateSessionRequest? ==>
                r == Success(CreatedSession(NewSession(freshId, req.name, req.createdBy,
                                                       req.document, req.participants, now)))
    {
      if !initialized {
        return Thrown(NotInitialized);
      }
      match req {
        case CreateSessionRequest(name, createdBy, document, participants) =>
          var s := CreateSession(name, createdBy, document, participants, freshId, now);
          r := Success(CreatedSession(s));
        case JoinSessionRequest(sessionId, participant) =>
          var o := JoinSession(sessionId, participant, now);
          r := if o.Ok? then Success(JoinedSession(o.value)) else Failure(ErrorCode, o.error);
        case LeaveSessionRequest(sessionId, participantId) =>
          var o := LeaveSession(sessionId, participantId, now);
          r := if o.Ok? then Success(LeftSession) else Failure(ErrorCode, o.error);
        case AddChangeRequest(sessionId, kind, content, position, author) =>
          var o := AddChange(sessionId, kind, content, position, author, freshId, now);
          r := if o.Ok? then Success(AddedChange(o.value)) else Failure(ErrorCode, o.error);
        case AddCommentRequest(sessionId, content, author, position) =>
          var o := AddComment(sessionId, content, author, position, freshId, now);
          r := if o.Ok? then Success(AddedComment(o.value)) else Failure(ErrorCode, o.error);
        case AddSuggestionRequest(sessionId, kind, original, suggested, reason, confidence, position) =>
          var o := AddSuggestion(sessionId, kind, original, suggested, reason, confidence,
                                 position, freshId, now);
          r := if o.Ok? then Success(AddedSuggestion(o.value)) else Failure(ErrorCode, o.error);
        case GetSessionDataRequest(sessionId) =>
          var o := GetSessionData(sessionId);
          r := if o.Ok? then Success(Data(o.value)) else Failure(ErrorCode, o.error);
        case SyncChangesRequest(sessionId, lastSyncTime) =>
          var o := SyncChanges(sessionId, lastSyncTime);
          r := if o.Ok? then Success(Synced(o.value)) else Failure(ErrorCode, o.error);
        case Other(action) =>
          r := Failure(ErrorCode, UnknownAction(action));
      }
    }
  }
}
