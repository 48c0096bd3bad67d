/** The route handlers of the feedback router over an in-memory store. Each
    handler is one sequential method (or, for the read-only queries, a
    function) that either returns a result or one of the router's errors;
    on an error nothing is written. */
module FeedbackRouter {
  import opened Models
  import opened Directory
  import opened Tables
  import opened PdfLayout

  /** One string drawn on the exported report. */
  datatype PdfLine = PdfLine(page: nat, y: int, text: string)

  // Filters and sort keys of the store queries.

  function FeedbackFor(employeeId: string): Feedback -> bool
  {
    (fb: Feedback) => fb.employeeId == employeeId
  }

  function FeedbackBy(managerId: string): Feedback -> bool
  {
    (fb: Feedback) => fb.managerEmployeeId == managerId
  }

  function RequestsTo(managerId: string): FeedbackRequest -> bool
  {
    (req: FeedbackRequest) => req.managerEmployeeId == managerId
  }

  function UnseenRequestsTo(managerId: string): FeedbackRequest -> bool
  {
    (req: FeedbackRequest) => req.managerEmployeeId == managerId && !req.seen
  }

  function NotificationsFor(employeeId: string): Notification -> bool
  {
    (n: Notification) => n.employeeId == employeeId
  }

  function UnseenNotificationsFor(employeeId: string): Notification -> bool
  {
    (n: Notification) => n.employeeId == employeeId && !n.seen
  }

  function RequestTime(req: FeedbackRequest): nat
  {
    req.createdAt
  }

  function NotificationTime(n: Notification): nat
  {
    n.createdAt
  }

  /** `Feedback.get(id)`: the position of the record with that id. */
  function Locate(fbs: seq<Feedback>, id: Id): (r: Option<nat>)
    ensures r.Some? ==> r.value < |fbs| && fbs[r.value].id == id
    ensures r.None? ==> forall k :: 0 <= k < |fbs| ==> fbs[k].id != id
  {
    if |fbs| == 0 then None
    else if fbs[|fbs| - 1].id == id then Some(|fbs| - 1)
    else Locate(fbs[..|fbs| - 1], id)
  }

  /** The comment thread as the history views show it: every text passed
      through the Markdown renderer, authors and order kept. */
  function RenderComments(cs: seq<Comment>, render: string -> string): (r: seq<Comment>)
    ensures |r| == |cs|
    ensures forall j :: 0 <= j < |r| ==> r[j].author == cs[j].author && r[j].text == render(cs[j].text)
  {
    seq(|cs|, j requires 0 <= j < |cs| => Comment(cs[j].author, render(cs[j].text)))
  }

  /** `update_many({"$set": {"seen": True}})` on one recipient's notifications. */
  function MarkedSeen(ns: seq<Notification>, employeeId: string): (r: seq<Notification>)
    ensures |r| == |ns|
  {
    seq(|ns|, k requires 0 <= k < |ns| =>
      if ns[k].employeeId == employeeId then ns[k].(seen := true) else ns[k])
  }

  function ReportTitle(employeeId: string): string
  {
    "Feedback Report for Employee ID: " + employeeId
  }

  function ReportLine(fb: Feedback, upper: string -> string): string
  {
    upper(fb.sentiment) + " - " + fb.strengths + " | " + fb.improvement
  }

  /** The display name the employee history shows for a manager id: the
      name of the first account with that id, whatever its role. */
  function NameOrUnknown(users: seq<User>, id: string): string
  {
    match FindOne(users, id, None)
    case Some(u) => u.name
    case None => "Unknown"
  }

  /** The document store: a fixed user directory, the feedback table, the
      feedback-request table, the notification log and an abstract clock. */
  class Store {
    const users: seq<User>
    var feedback: seq<Feedback>
    var nextFeedbackId: Id
    var requests: seq<FeedbackRequest>
    var notifications: seq<Notification>
    var clock: nat

    /** Feedback ids are unique and below the next id to be handed out. */
    ghost predicate Valid()
      reads this
    {
      && (forall k :: 0 <= k < |feedback| ==> feedback[k].id < nextFeedbackId)
      && (forall a, b :: 0 <= a < b < |feedback| ==> feedback[a].id != feedback[b].id)
    }

    constructor (directory: seq<User>)
      ensures Valid()
      ensures users == directory && feedback == [] && requests == [] && notifications == []
      ensures nextFeedbackId == 0 && clock == 0
    {
      users := directory;
      feedback := [];
      nextFeedbackId := 0;
      requests := [];
      notifications := [];
      clock := 0;
    }

    /** `create_feedback`: the manager is checked first, then the employee;
        on success one feedback record and one notification to the employee
        are written. */
    method CreateFeedback(p: FeedbackCreate, tick: nat) returns (r: Result<FeedbackOut>)
      requires Valid()
      modifies this
      ensures Valid()
      ensures FindOne(users, p.managerEmployeeId, Some(Manager)).None? ==>
        r == Err(NotFound(ManagerNotFound)) && unchanged(this)
      ensures (FindOne(users, p.managerEmployeeId, Some(Manager)).Some?
               && FindOne(users, p.employeeId, Some(Employee)).None?) ==>
        r == Err(NotFound(EmployeeNotFound)) && unchanged(this)
      ensures r.Ok? <==>
        FindOne(users, p.managerEmployeeId, Some(Manager)).Some? && FindOne(users, p.employeeId, Some(Employee)).Some?
      ensures r.Ok? ==>
        var mgr := FindOne(users, p.managerEmployeeId, Some(Manager)).value;
        var fb := Feedback(old(nextFeedbackId), p.employeeId, p.managerEmployeeId, p.strengths, p.improvement,
                           p.sentiment, p.anonymous, TagsOrEmpty(p.tags), false, [], clock);
        && clock == old(clock) + tick
        && feedback == old(feedback) + [fb]
        && nextFeedbackId == old(nextFeedbackId) + 1
        && requests == old(requests)
        && notifications == old(notifications)
             + [Notification(p.employeeId, p.managerEmployeeId, mgr.name, NewFeedbackMessage(mgr.name), false, clock)]
        && r.value == FeedbackOut(fb, mgr.name, [])
    {
      var mgr := FindOne(users, p.managerEmployeeId, Some(Manager));
      if mgr.None? {
        return Err(NotFound(ManagerNotFound));
      }
      var employee := FindOne(users, p.employeeId, Some(Employee));
      if employee.None? {
        return Err(NotFound(EmployeeNotFound));
      }
      clock := clock + tick;
      var fb := Feedback(nextFeedbackId, p.employeeId, p.managerEmployeeId, p.strengths, p.improvement,
                         p.sentiment, p.anonymous, TagsOrEmpty(p.tags), false, [], clock);
      feedback := feedback + [fb];
      nextFeedbackId := nextFeedbackId + 1;
      var name := mgr.value.name;
      notifications := notifications
        + [Notification(p.employeeId, mgr.value.employeeId, name, NewFeedbackMessage(name), false, clock)];
      r := Ok(FeedbackOut(fb, name, fb.comments));
    }

    /** `request_feedback`: the employee is checked first, then the manager;
        on success one unseen request and one notification are written, the
        notification carrying the manager's id as both recipient and sender. */
    method RequestFeedback(p: FeedbackRequestIn, tick: nat) returns (r: Result<string>)
      requires Valid()
      modifies this
      ensures Valid()
      ensures FindOne(users, p.employeeId, Some(Employee)).None? ==>
        r == Err(NotFound(EmployeeNotFound)) && unchanged(this)
      ensures (FindOne(users, p.employeeId, Some(Employee)).Some?
               && FindOne(users, p.managerEmployeeId, Some(Manager)).None?) ==>
        r == Err(NotFound(ManagerNotFound)) && unchanged(this)
      ensures r.Ok? <==>
        FindOne(users, p.employeeId, Some(Employee)).Some? && FindOne(users, p.managerEmployeeId, Some(Manager)).Some?
      ensures r.Ok? ==>
        var mgr := FindOne(users, p.managerEmployeeId, Some(Manager)).value;
        && clock == old(clock) + tick
        && requests == old(requests)
             + [FeedbackRequest(p.employeeId, p.managerEmployeeId, p.message, false, clock)]
        && notifications == old(notifications)
             + [Notification(p.managerEmployeeId, p.managerEmployeeId, mgr.name, RequestMessage(p.employeeId), false, clock)]
        && feedback == old(feedback) && nextFeedbackId == old(nextFeedbackId)
        && r.value == "Feedback request submitted successfully"
    {
      var emp := FindOne(users, p.employeeId, Some(Employee));
      if emp.None? {
        return Err(NotFound(EmployeeNotFound));
      }
      var mgr := FindOne(users, p.managerEmployeeId, Some(Manager));
      if mgr.None? {
        return Err(NotFound(ManagerNotFound));
      }
      clock := clock + tick;
      requests := requests + [FeedbackRequest(p.employeeId, p.managerEmployeeId, p.message, false, clock)];
      notifications := notifications
        + [Notification(p.managerEmployeeId, p.managerEmployeeId, mgr.value.name, RequestMessage(p.employeeId), false, clock)];
      r := Ok("Feedback request submitted successfully");
    }

    /** `get_feedback_requests`: 404 unless the id is a manager's; otherwise
        exactly that manager's requests, each once, newest first. */
    function GetFeedbackRequests(managerId: string): (r: Result<seq<Entry<FeedbackRequest>>>)
      reads this
      ensures r.Err? <==> FindOne(users, managerId, Some(Manager)).None?
      ensures r.Err? ==> r.error == NotFound(ManagerNotFound)
      ensures r.Ok? ==> forall k :: 0 <= k < |r.value| ==>
        r.value[k].id < |requests| && r.value[k].rec == requests[r.value[k].id]
        && r.value[k].rec.managerEmployeeId == managerId
      ensures r.Ok? ==> forall i :: 0 <= i < |requests| && requests[i].managerEmployeeId == managerId ==>
        Entry(i, requests[i]) in r.value
      ensures r.Ok? ==> forall a, b :: 0 <= a < b < |r.value| ==> r.value[a].id != r.value[b].id
      ensures r.Ok? ==> forall a, b :: 0 <= a < b < |r.value| ==>
        r.value[a].rec.createdAt >= r.value[b].rec.createdAt
    {
      if FindOne(users, managerId, Some(Manager)).None? then Err(NotFound(ManagerNotFound))
      else Ok(Listing(requests, RequestsTo(managerId), RequestTime))
    }

    /** `mark_feedback_request_seen`: a one-way flip of `seen`; marking an
        already seen request changes nothing. */
    method MarkFeedbackRequestSeen(requestId: Id) returns (r: Result<string>)
      requires Valid()
      modifies this
      ensures Valid()
      ensures requestId >= old(|requests|) ==> r == Err(NotFound(RequestNotFound)) && unchanged(this)
      ensures requestId < old(|requests|) ==>
        && r == Ok("Feedback request marked as seen")
        && requests == old(requests)[requestId := old(requests)[requestId].(seen := true)]
        && feedback == old(feedback) && notifications == old(notifications)
        && nextFeedbackId == old(nextFeedbackId) && clock == old(clock)
      ensures requestId < old(|requests|) && old(requests)[requestId].seen ==> requests == old(requests)
    {
      if requestId >= |requests| {
        return Err(NotFound(RequestNotFound));
      }
      requests := requests[requestId := requests[requestId].(seen := true)];
      r := Ok("Feedback request marked as seen");
    }

    /** `count_unseen_requests`: 404 unless the id is a manager's; otherwise
        the number of that manager's requests not yet seen. */
    function CountUnseenRequests(managerId: string): (r: Result<nat>)
      reads this
      ensures r.Err? <==> FindOne(users, managerId, Some(Manager)).None?
      ensures r.Err? ==> r.error == NotFound(ManagerNotFound)
      ensures r.Ok? ==> r.value == |Select(requests, UnseenRequestsTo(managerId))|
    {
      if FindOne(users, managerId, Some(Manager)).None? then Err(NotFound(ManagerNotFound))
      else Ok(Count(requests, UnseenRequestsTo(managerId)))
    }

    /** `get_feedback_history`: every feedback about the employee in store
        order, with the manager's name looked up by id alone ("Unknown" when
        there is no such account) and the comments rendered. No check that
        the employee exists. */
    method FeedbackHistory(employeeId: string, render: string -> string) returns (out: seq<FeedbackOut>)
      ensures var fbs := Select(feedback, FeedbackFor(employeeId));
        && |out| == |fbs|
        && forall k :: 0 <= k < |out| ==>
             && out[k].feedback == fbs[k].rec
             && out[k].managerName == NameOrUnknown(users, fbs[k].rec.managerEmployeeId)
             && out[k].comments == RenderComments(fbs[k].rec.comments, render)
    {
      var fbs := Select(feedback, FeedbackFor(employeeId));
      out := [];
      for i := 0 to |fbs|
        invariant |out| == i
        invariant forall k :: 0 <= k < i ==>
          && out[k].feedback == fbs[k].rec
          && out[k].managerName == NameOrUnknown(users, fbs[k].rec.managerEmployeeId)
          && out[k].comments == RenderComments(fbs[k].rec.comments, render)
      {
        var fb := fbs[i].rec;
        var mgr := FindOne(users, fb.managerEmployeeId, None);
        var commentsHtml := RenderComments(fb.comments, render);
        out := out + [FeedbackOut(fb, if mgr.Some? then mgr.value.name else "Unknown", commentsHtml)];
      }
    }

    /** `acknowledge`: sets the flag (idempotently) and, on every successful
        call, notifies the feedback's manager if an account of any role has
        that id. */
    method Acknowledge(feedbackId: Id, tick: nat) returns (r: Result<string>)
      requires Valid()
      modifies this
      ensures Valid()
      ensures Locate(old(feedback), feedbackId).None? ==> r == Err(NotFound(FeedbackNotFound)) && unchanged(this)
      ensures Locate(old(feedback), feedbackId).Some? ==>
        var i := Locate(old(feedback), feedbackId).value;
        var fb := old(feedback)[i];
        var mgr := FindOne(users, fb.managerEmployeeId, None);
        && r == Ok("Feedback acknowledged")
        && clock == old(clock) + tick
        && feedback == old(feedback)[i := fb.(acknowledged := true)]
        && notifications == old(notifications)
             + (if mgr.Some?
                then [Notification(fb.managerEmployeeId, fb.managerEmployeeId, mgr.value.name,
                                   AcknowledgedMessage(fb.employeeId), false, clock)]
                else [])
        && requests == old(requests) && nextFeedbackId == old(nextFeedbackId)
      ensures Locate(old(feedback), feedbackId).Some? && old(feedback)[Locate(old(feedback), feedbackId).value].acknowledged ==>
        feedback == old(feedback)
    {
      var found := Locate(feedback, feedbackId);
      if found.None? {
        return Err(NotFound(FeedbackNotFound));
      }
      var i := found.value;
      var fb := feedback[i];
      clock := clock + tick;
      feedback := feedback[i := fb.(acknowledged := true)];
      var mgr := FindOne(users, fb.managerEmployeeId, None);
      if mgr.Some? {
        notifications := notifications
          + [Notification(fb.managerEmployeeId, fb.managerEmployeeId, mgr.value.name,
                          AcknowledgedMessage(fb.employeeId), false, clock)];
      }
      r := Ok("Feedback acknowledged");
    }

    /** `update_feedback`: 404 when the feedback is missing; 403 unless the
        payload's manager id is a manager's and equals the stored one;
        otherwise only the five editable fields are replaced. */
    method UpdateFeedback(feedbackId: Id, upd: FeedbackCreate) returns (r: Result<FeedbackOut>)
      requires Valid()
      modifies this
      ensures Valid()
      ensures Locate(old(feedback), feedbackId).None? ==> r == Err(NotFound(FeedbackNotFound)) && unchanged(this)
      ensures Locate(old(feedback), feedbackId).Some? ==>
        var fb := old(feedback)[Locate(old(feedback), feedbackId).value];
        var mgr := FindOne(users, upd.managerEmployeeId, Some(Manager));
        (mgr.None? || fb.managerEmployeeId != upd.managerEmployeeId) ==> r == Err(Forbidden) && unchanged(this)
      ensures r.Ok? <==>
        && Locate(old(feedback), feedbackId).Some?
        && FindOne(users, upd.managerEmployeeId, Some(Manager)).Some?
        && old(feedback)[Locate(old(feedback), feedbackId).value].managerEmployeeId == upd.managerEmployeeId
      ensures r.Ok? ==>
        && Locate(old(feedback), feedbackId).Some?
        && |feedback| == |old(feedback)|
        && var i := Locate(old(feedback), feedbackId).value;
           var fb := old(feedback)[i];
           var fb' := feedback[i];
           && FindOne(users, upd.managerEmployeeId, Some(Manager)).Some?
           && fb.managerEmployeeId == upd.managerEmployeeId
           && feedback == old(feedback)[i := fb']
           && fb'.strengths == upd.strengths && fb'.improvement == upd.improvement
           && fb'.sentiment == upd.sentiment && fb'.tags == TagsOrEmpty(upd.tags)
           && fb'.anonymous == upd.anonymous
           && fb'.id == fb.id && fb'.employeeId == fb.employeeId
           && fb'.managerEmployeeId == fb.managerEmployeeId && fb'.acknowledged == fb.acknowledged
           && fb'.comments == fb.comments && fb'.createdAt == fb.createdAt
           && r.value == FeedbackOut(fb', FindOne(users, upd.managerEmployeeId, Some(Manager)).value.name, fb.comments)
           && requests == old(requests) && notifications == old(notifications)
           && nextFeedbackId == old(nextFeedbackId) && clock == old(clock)
    {
      var found := Locate(feedback, feedbackId);
      if found.None? {
        return Err(NotFound(FeedbackNotFound));
      }
      var i := found.value;
      var fb := feedback[i];
      var mgr := FindOne(users, upd.managerEmployeeId, Some(Manager));
      if mgr.None? || fb.managerEmployeeId != mgr.value.employeeId {
        return Err(Forbidden);
      }
      fb := fb.(strengths := upd.strengths, improvement := upd.improvement, sentiment := upd.sentiment,
                tags := TagsOrEmpty(upd.tags), anonymous := upd.anonymous);
      feedback := feedback[i := fb];
      r := Ok(FeedbackOut(fb, mgr.value.name, fb.comments));
    }

    /** `delete_feedback`: no caller identity; the record is removed only
        when its stored manager id still resolves to a manager. */
    method DeleteFeedback(feedbackId: Id) returns (r: Result<string>)
      requires Valid()
      modifies this
      ensures Valid()
      ensures Locate(old(feedback), feedbackId).None? ==> r == Err(NotFound(FeedbackNotFound)) && unchanged(this)
      ensures Locate(old(feedback), feedbackId).Some? ==>
        var i := Locate(old(feedback), feedbackId).value;
        if FindOne(users, old(feedback)[i].managerEmployeeId, Some(Manager)).None? then
          r == Err(Forbidden) && unchanged(this)
        else
          && r == Ok("Deleted")
          && feedback == old(feedback)[..i] + old(feedback)[i + 1..]
          && (forall k :: 0 <= k < |feedback| ==> feedback[k].id != feedbackId)
          && requests == old(requests) && notifications == old(notifications)
          && nextFeedbackId == old(nextFeedbackId) && clock == old(clock)
    {
      var found := Locate(feedback, feedbackId);
      if found.None? {
        return Err(NotFound(FeedbackNotFound));
      }
      var i := found.value;
      var mgr := FindOne(users, feedback[i].managerEmployeeId, Some(Manager));
      if mgr.None? {
        return Err(Forbidden);
      }
      ghost var before := feedback;
      feedback := feedback[..i] + feedback[i + 1..];
      assert forall k :: 0 <= k < |feedback| ==> feedback[k] == before[if k < i then k else k + 1];
      r := Ok("Deleted");
    }

    /** `delete_all`: 403 unless the id is a manager's; otherwise removes
        exactly the feedback that manager authored, keeps every other record
        in order, and reports how many were removed. */
    method DeleteAll(managerId: string) returns (r: Result<nat>)
      requires Valid()
      modifies this
      ensures Valid()
      ensures FindOne(users, managerId, Some(Manager)).None? ==> r == Err(Forbidden) && unchanged(this)
      ensures FindOne(users, managerId, Some(Manager)).Some? ==>
        && feedback == Without(old(feedback), FeedbackBy(managerId))
        && r == Ok(Count(old(feedback), FeedbackBy(managerId)))
        && r.value == |old(feedback)| - |feedback|
        && requests == old(requests) && notifications == old(notifications)
        && nextFeedbackId == old(nextFeedbackId) && clock == old(clock)
    {
      var mgr := FindOne(users, managerId, Some(Manager));
      if mgr.None? {
        return Err(Forbidden);
      }
      var before := feedback;
      ghost var kept := Select(before, Not(FeedbackBy(managerId)));
      feedback := Without(feedback, FeedbackBy(managerId));
      forall a, b | 0 <= a < b < |feedback|
        ensures feedback[a].id != feedback[b].id
      {
        assert feedback[a] == before[kept[a].id] && feedback[b] == before[kept[b].id];
        assert kept[a].id < kept[b].id;
      }
      var deleted := |before| - |feedback|;
      r := Ok(deleted);
    }

    /** `comment`: 404 when the feedback is missing; 403 unless the FIRST
        account with the commenter's id is an employee's (any employee, not
        necessarily the feedback's subject); otherwise the comment goes at
        the end of the thread and the manager is notified if an account of
        any role has the stored manager id. */
    method AddComment(feedbackId: Id, c: CommentIn, tick: nat) returns (r: Result<string>)
      requires Valid()
      modifies this
      ensures Valid()
      ensures Locate(old(feedback), feedbackId).None? ==> r == Err(NotFound(FeedbackNotFound)) && unchanged(this)
      ensures Locate(old(feedback), feedbackId).Some? ==>
        var emp := FindOne(users, c.employeeId, None);
        (emp.None? || emp.value.role != Employee) ==> r == Err(Forbidden) && unchanged(this)
      ensures r.Ok? <==>
        && Locate(old(feedback), feedbackId).Some?
        && FindOne(users, c.employeeId, None).Some?
        && FindOne(users, c.employeeId, None).value.role == Employee
      ensures r.Ok? ==>
        && Locate(old(feedback), feedbackId).Some?
        && |feedback| == |old(feedback)|
        && var i := Locate(old(feedback), feedbackId).value;
           var fb := old(feedback)[i];
           var thread := feedback[i].comments;
           var mgr := FindOne(users, fb.managerEmployeeId, None);
           && FindOne(users, c.employeeId, None).Some? && FindOne(users, c.employeeId, None).value.role == Employee
           && r.value == "Comment added"
           && clock == old(clock) + tick
           && feedback == old(feedback)[i := fb.(comments := thread)]
           && |thread| == |fb.comments| + 1
           && thread[..|fb.comments|] == fb.comments
           && thread[|fb.comments|] == Comment(c.employeeId, c.text)
           && notifications == old(notifications)
                + (if mgr.Some?
                   then [Notification(fb.managerEmployeeId, fb.managerEmployeeId, mgr.value.name,
                                      CommentedMessage(c.employeeId), false, clock)]
                   else [])
           && requests == old(requests) && nextFeedbackId == old(nextFeedbackId)
    {
      var found := Locate(feedback, feedbackId);
      if found.None? {
        return Err(NotFound(FeedbackNotFound));
      }
      var i := found.value;
      var emp := FindOne(users, c.employeeId, None);
      if emp.None? || emp.value.role != Employee {
        return Err(Forbidden);
      }
      var fb := feedback[i];
      clock := clock + tick;
      fb := fb.(comments := fb.comments + [Comment(c.employeeId, c.text)]);
      feedback := feedback[i := fb];
      var mgr := FindOne(users, fb.managerEmployeeId, None);
      if mgr.Some? {
        notifications := notifications
          + [Notification(fb.managerEmployeeId, fb.managerEmployeeId, mgr.value.name,
                          CommentedMessage(c.employeeId), false, clock)];
      }
      r := Ok("Comment added");
    }

    /** `export_pdf`: the title, then one line per feedback about the
        employee in store order, laid out down the page and onto new pages. */
    method ExportPdf(employeeId: string, upper: string -> string) returns (lines: seq<PdfLine>)
      ensures var fbs := Select(feedback, FeedbackFor(employeeId));
        && |lines| == |fbs| + 1
        && lines[0] == PdfLine(0, TitleY, ReportTitle(employeeId))
        && forall k :: 0 <= k < |fbs| ==> lines[k + 1] == PdfLine(PageOf(k), YOf(k), ReportLine(fbs[k].rec, upper))
    {
      var fbs := Select(feedback, FeedbackFor(employeeId));
      lines := [PdfLine(0, TitleY, ReportTitle(employeeId))];
      var page: nat := 0;
      var y := FirstLineY;
      for i := 0 to |fbs|
        invariant |lines| == i + 1
        invariant lines[0] == PdfLine(0, TitleY, ReportTitle(employeeId))
        invariant page == PageOf(i) && y == YOf(i)
        invariant forall k :: 0 <= k < i ==> lines[k + 1] == PdfLine(PageOf(k), YOf(k), ReportLine(fbs[k].rec, upper))
      {
        lines := lines + [PdfLine(page, y, ReportLine(fbs[i].rec, upper))];
        NextLine(i);
        y := y - LineStep;
        if y < BottomMargin {
          page := page + 1;
          y := PageTopY;
        }
      }
    }

    /** `get_manager_feedback_history`: 404 unless the id is a manager's;
        otherwise every feedback that manager authored, in store order, with
        the resolved manager's name and the comments rendered. */
    method ManagerFeedbackHistory(managerId: string, render: string -> string) returns (r: Result<seq<FeedbackOut>>)
      ensures FindOne(users, managerId, Some(Manager)).None? <==> r.Err?
      ensures r.Err? ==> r.error == NotFound(ManagerNotFound)
      ensures r.Ok? ==>
        var fbs := Select(feedback, FeedbackBy(managerId));
        var name := FindOne(users, managerId, Some(Manager)).value.name;
        && |r.value| == |fbs|
        && forall k :: 0 <= k < |fbs| ==>
             r.value[k] == FeedbackOut(fbs[k].rec, name, RenderComments(fbs[k].rec.comments, render))
    {
      var mgr := FindOne(users, managerId, Some(Manager));
      if mgr.None? {
        return Err(NotFound(ManagerNotFound));
      }
      var fbs := Select(feedback, FeedbackBy(managerId));
      var out := [];
      for i := 0 to |fbs|
        invariant |out| == i
        invariant forall k :: 0 <= k < i ==>
          out[k] == FeedbackOut(fbs[k].rec, mgr.value.name, RenderComments(fbs[k].rec.comments, render))
      {
        var commentsHtml := RenderComments(fbs[i].rec.comments, render);
        out := out + [FeedbackOut(fbs[i].rec, mgr.value.name, commentsHtml)];
      }
      r := Ok(out);
    }

    /** `get_notifications`: exactly the recipient's notifications, each
        once, newest first. No check that the recipient exists. */
    function GetNotifications(employeeId: string): (r: seq<Entry<Notification>>)
      reads this
      ensures forall k :: 0 <= k < |r| ==>
        r[k].id < |notifications| && r[k].rec == notifications[r[k].id] && r[k].rec.employeeId == employeeId
      ensures forall i :: 0 <= i < |notifications| && notifications[i].employeeId == employeeId ==>
        Entry(i, notifications[i]) in r
      ensures forall a, b :: 0 <= a < b < |r| ==> r[a].id != r[b].id
      ensures forall a, b :: 0 <= a < b < |r| ==> r[a].rec.createdAt >= r[b].rec.createdAt
    {
      Listing(notifications, NotificationsFor(employeeId), NotificationTime)
    }

    /** `update_notification_seen`: sets `seen` to exactly the given value,
        so a notification can be marked unseen again. */
    method UpdateNotificationSeen(notificationId: Id, seen: bool) returns (r: Result<string>)
      requires Valid()
      modifies this
      ensures Valid()
      ensures notificationId >= old(|notifications|) ==> r == Err(NotFound(NotificationNotFound)) && unchanged(this)
      ensures notificationId < old(|notifications|) ==>
        && r == Ok("Notification updated")
        && notifications == old(notifications)[notificationId := old(notifications)[notificationId].(seen := seen)]
        && feedback == old(feedback) && requests == old(requests)
        && nextFeedbackId == old(nextFeedbackId) && clock == old(clock)
    {
      if notificationId >= |notifications| {
        return Err(NotFound(NotificationNotFound));
      }
      notifications := notifications[notificationId := notifications[notificationId].(seen := seen)];
      r := Ok("Notification updated");
    }

    /** `mark_all_seen`: every notification of the recipient becomes seen,
        every other one is left as it was; succeeds when there are none. */
    method MarkAllSeen(employeeId: string) returns (r: Result<string>)
      requires Valid()
      modifies this
      ensures Valid()
      ensures r == Ok("All notifications marked as seen")
      ensures notifications == MarkedSeen(old(notifications), employeeId)
      ensures forall k :: 0 <= k < |notifications| ==>
        if old(notifications)[k].employeeId == employeeId
        then notifications[k] == old(notifications)[k].(seen := true)
        else notifications[k] == old(notifications)[k]
      ensures feedback == old(feedback) && requests == old(requests)
      ensures nextFeedbackId == old(nextFeedbackId) && clock == old(clock)
    {
      notifications := MarkedSeen(notifications, employeeId);
      r := Ok("All notifications marked as seen");
    }
  }

  /** Marking one request seen lowers its manager's unseen count by exactly
      one when it was unseen, and leaves every count alone otherwise. */
  lemma MarkSeenLowersUnseenCount(reqs: seq<FeedbackRequest>, i: nat, managerId: string)
    requires i < |reqs|
    ensures Count(reqs[i := reqs[i].(seen := true)], UnseenRequestsTo(managerId))
         == Count(reqs, UnseenRequestsTo(managerId))
            - (if reqs[i].managerEmployeeId == managerId && !reqs[i].seen then 1 else 0)
  {
    CountUpdate(reqs, UnseenRequestsTo(managerId), i, reqs[i].(seen := true));
  }

  /** After `mark_all_seen` the recipient has no unseen notification left,
      every other recipient's unseen count is what it was, and a second call
      changes nothing. */
  lemma MarkAllSeenEffect(ns: seq<Notification>, employeeId: string, other: string)
    requires other != employeeId
    ensures Count(MarkedSeen(ns, employeeId), UnseenNotificationsFor(employeeId)) == 0
    ensures Count(MarkedSeen(ns, employeeId), UnseenNotificationsFor(other)) == Count(ns, UnseenNotificationsFor(other))
    ensures MarkedSeen(MarkedSeen(ns, employeeId), employeeId) == MarkedSeen(ns, employeeId)
  {
    var marked := MarkedSeen(ns, employeeId);
    CountNone(marked, UnseenNotificationsFor(employeeId));
    CountAgrees(marked, ns, UnseenNotificationsFor(other));
  }
}
