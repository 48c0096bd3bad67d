/** The records the feedback router stores and exchanges: users, feedback with
    its comment thread, feedback requests and notifications, the request
    payloads, and the error replies of the handlers. */
module Models {

  datatype Option<T> = None | Some(value: T)

  /** Store identifiers. Timestamps are readings of an abstract clock. */
  type Id = nat

  /** The two HTTP errors the handlers raise: 404 with its detail text, and 403. */
  datatype Error = NotFound(detail: string) | Forbidden

  datatype Result<T> = Ok(value: T) | Err(error: Error)

  datatype Role = Manager | Employee

  datatype User = User(employeeId: string, name: string, role: Role)

  /** One entry of a feedback's comment thread (no timestamp, no identity). */
  datatype Comment = Comment(author: string, text: string)

  datatype Feedback = Feedback(
    id: Id,
    employeeId: string,
    managerEmployeeId: string,
    strengths: string,
    improvement: string,
    sentiment: string,
    anonymous: bool,
    tags: seq<string>,
    acknowledged: bool,
    comments: seq<Comment>,
    createdAt: nat)

  datatype FeedbackRequest = FeedbackRequest(
    employeeId: string,
    managerEmployeeId: string,
    message: string,
    seen: bool,
    createdAt: nat)

  /** A feed entry; `employeeId` is the recipient, `managerName` a snapshot. */
  datatype Notification = Notification(
    employeeId: string,
    managerEmployeeId: string,
    managerName: string,
    message: string,
    seen: bool,
    createdAt: nat)

  /** Payload of create and update; `tags` is optional in the request body. */
  datatype FeedbackCreate = FeedbackCreate(
    employeeId: string,
    managerEmployeeId: string,
    strengths: string,
    improvement: string,
    sentiment: string,
    anonymous: bool,
    tags: Option<seq<string>>)

  datatype FeedbackRequestIn = FeedbackRequestIn(
    employeeId: string,
    managerEmployeeId: string,
    message: string)

  datatype CommentIn = CommentIn(employeeId: string, text: string)

  /** The response projection of a feedback record: the record, the display
      name of its manager and the comment thread as it is shown. */
  datatype FeedbackOut = FeedbackOut(feedback: Feedback, managerName: string, comments: seq<Comment>)

  /** `tags or []`: a missing list becomes the empty list. */
  function TagsOrEmpty(tags: Option<seq<string>>): seq<string>
  {
    match tags
    case None => []
    case Some(t) => t
  }

  const ManagerNotFound := "Manager not found"
  const EmployeeNotFound := "Employee not found"
  const FeedbackNotFound := "Feedback not found"
  const RequestNotFound := "Feedback request not found"
  const NotificationNotFound := "Notification not found"

  function NewFeedbackMessage(managerName: string): string
  {
    "You have received new feedback from manager " + managerName
  }

  function RequestMessage(employeeId: string): string
  {
    "Feedback request from employee " + employeeId
  }

  function AcknowledgedMessage(employeeId: string): string
  {
    "Employee " + employeeId + " acknowledged your feedback."
  }

  function CommentedMessage(employeeId: string): string
  {
    "Employee " + employeeId + " commented on your feedback."
  }
}
