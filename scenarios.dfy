/** Client scenarios of the router against a small directory. Each outcome is
    derived from the handlers' contracts alone. */
module Scenarios {
  import opened Models
  import opened Directory
  import opened Tables
  import opened FeedbackRouter

  function Staff(): seq<User>
  {
    [User("M1", "Mia", Manager), User("M2", "Max", Manager), User("E1", "Eli", Employee)]
  }

  function Payload(manager: string, strengths: string): FeedbackCreate
  {
    FeedbackCreate("E1", manager, strengths, "pace", "positive", false, None)
  }

  /** Employee E1 asks manager M1 for feedback: the request is listed once,
      unseen; the unseen count goes from one to zero once it is marked seen. */
  method RequestThenMarkSeen() returns (listed: Result<seq<Entry<FeedbackRequest>>>, before: Result<nat>, after: Result<nat>)
    ensures listed.Ok? && |listed.value| == 1 && !listed.value[0].rec.seen
    ensures listed.value[0].rec.message == "please review"
    ensures before == Ok(1) && after == Ok(0)
  {
    var store := new Store(Staff());
    assert Matches(Staff()[2], "E1", Some(Employee)) && Matches(Staff()[0], "M1", Some(Manager));
    var sent := store.RequestFeedback(FeedbackRequestIn("E1", "M1", "please review"), 1);
    assert store.requests == [FeedbackRequest("E1", "M1", "please review", false, 1)];
    listed := store.GetFeedbackRequests("M1");
    assert Entry(0, store.requests[0]) in listed.value;
    before := store.CountUnseenRequests("M1");
    assert Select(store.requests, UnseenRequestsTo("M1"))[0] == Entry(0, store.requests[0]);
    var marked := store.MarkFeedbackRequestSeen(0);
    after := store.CountUnseenRequests("M1");
    assert store.requests[0].seen;
    assert |Select(store.requests, UnseenRequestsTo("M1"))| == 0;
  }

  /** Acknowledging twice leaves the flag set and notifies the manager on
      each call. */
  method AcknowledgeTwice() returns (acknowledged: bool, notices: nat)
    ensures acknowledged && notices == 3
  {
    var store := new Store(Staff());
    assert Matches(Staff()[2], "E1", Some(Employee)) && Matches(Staff()[0], "M1", Some(Manager));
    var created := store.CreateFeedback(Payload("M1", "clarity"), 1);
    assert Locate(store.feedback, 0) == Some(0);
    assert Matches(Staff()[0], "M1", None);
    var first := store.Acknowledge(0, 1);
    var second := store.Acknowledge(0, 1);
    acknowledged := store.feedback[0].acknowledged;
    notices := |store.notifications|;
  }

  /** A valid manager who does not own the feedback may not update it, and
      the record is left as it was. */
  method UpdateByOtherManager() returns (r: Result<FeedbackOut>, unchangedRecord: bool)
    ensures r == Err(Forbidden) && unchangedRecord
  {
    var store := new Store(Staff());
    assert Matches(Staff()[2], "E1", Some(Employee)) && Matches(Staff()[0], "M1", Some(Manager));
    var created := store.CreateFeedback(Payload("M1", "clarity"), 1);
    var original := store.feedback;
    assert Locate(store.feedback, 0) == Some(0);
    assert Matches(Staff()[1], "M2", Some(Manager));
    r := store.UpdateFeedback(0, Payload("M2", "rewritten"));
    unchangedRecord := store.feedback == original;
  }

  /** Two comments appended in turn are kept in that order. */
  method CommentsInOrder() returns (thread: seq<Comment>)
    ensures thread == [Comment("E1", "thanks"), Comment("E1", "will do")]
  {
    var store := new Store(Staff());
    assert Matches(Staff()[2], "E1", Some(Employee)) && Matches(Staff()[0], "M1", Some(Manager));
    var created := store.CreateFeedback(Payload("M1", "clarity"), 1);
    assert Locate(store.feedback, 0) == Some(0);
    assert Matches(Staff()[2], "E1", None);
    var c1 := store.AddComment(0, CommentIn("E1", "thanks"), 1);
    assert Locate(store.feedback, 0) == Some(0);
    var c2 := store.AddComment(0, CommentIn("E1", "will do"), 1);
    thread := store.feedback[0].comments;
  }

  /** Deleting all feedback of a manager who authored none reports zero and
      removes nothing. */
  method DeleteAllOfNone() returns (r: Result<nat>, remaining: nat)
    ensures r == Ok(0) && remaining == 1
  {
    var store := new Store(Staff());
    assert Matches(Staff()[2], "E1", Some(Employee)) && Matches(Staff()[0], "M1", Some(Manager));
    var created := store.CreateFeedback(Payload("M1", "clarity"), 1);
    assert Matches(Staff()[1], "M2", Some(Manager));
    r := store.DeleteAll("M2");
    assert Count(store.feedback, FeedbackBy("M2")) == 0;
    remaining := |store.feedback|;
  }

  /** An id held by a manager account first and an employee account second
      is refused as a commenter, although an employee with that id exists. */
  method CommenterShadowedByManager() returns (r: Result<string>, employeeExists: bool)
    ensures employeeExists && r == Err(Forbidden)
  {
    var users := [User("M1", "Mia", Manager), User("X1", "Xia", Manager), User("X1", "Xan", Employee), User("E1", "Eli", Employee)];
    var store := new Store(users);
    assert Matches(users[3], "E1", Some(Employee)) && Matches(users[0], "M1", Some(Manager));
    var created := store.CreateFeedback(Payload("M1", "clarity"), 1);
    assert Locate(store.feedback, 0) == Some(0);
    ManagerShadowsEmployee(users, "X1", 1, 2);
    r := store.AddComment(0, CommentIn("X1", "hello"), 1);
    employeeExists := FindOne(users, "X1", Some(Employee)).Some?;
  }
}
