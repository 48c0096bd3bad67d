# Feedback exchange router — a Dafny model

This project models the feedback router of a manager/employee feedback
service (`Server/app/routers/feedback.py`). The router does four things:

- Managers submit feedback to employees.
- Employees request feedback, acknowledge it and comment on it.
- Every such event writes an entry to a notification feed.
- The handlers authorise callers by looking ids up in a user directory.

The document store is replaced by an in-memory `Store` class:

- `users`: the directory, a fixed sequence of accounts. A lookup returns the
  first account that matches.
- `feedback`: the feedback table, a sequence in store order. Each record
  carries a unique id.
- `requests`: the feedback-request table.
- `notifications`: the notification log.
- `clock`: an abstract monotone clock.

Requests and notifications are never deleted, so their ids are their
positions in the table. Each route handler is one method or function. It
returns `Ok(...)` or `Err(e)`, where `e` is `NotFound(detail)` for the 404s
(with the source's detail text) or `Forbidden` for the 403s. On an error,
nothing in the store changes.

Files:

- `models.dfy`: the records, the payloads, the errors and the message
  templates.
- `directory.dfy`: `find_one` in its two forms, id-and-role or id only, and
  what the first-match rule implies.
- `tables.dfy`: the store queries, generic over the record type. These are
  filter (`Select`), count, bulk delete (`Without`) and the newest-first sort
  (an insertion sort), with their correctness lemmas.
- `pdf_layout.dfy`: where each line of the exported report lands.
- `feedback_router.dfy`: the `Store` class with one member per route handler,
  and lemmas about the flag operations.
- `scenarios.dfy`: client scenarios whose outcomes follow from the contracts alone. They cover
  the request/seen/count round, acknowledging twice, a foreign manager's
  update, comment order, bulk delete of nothing, and a shadowed commenter.

Behaviour the model keeps on purpose:

- Some handlers look accounts up by id and role. The employee history,
  `acknowledge` and `comment` look them up by id only.
- `comment` accepts the commenter only when the FIRST account with that id is
  an employee's. An id that belongs to a manager account first is refused,
  even when an employee account with the same id exists
  (`ManagerShadowsEmployee`, `CommenterShadowedByManager`).
- `create_feedback` checks the manager first. `request_feedback` checks the
  employee first. When both ids are unknown, the two handlers therefore give
  different 404 details.
- `delete_feedback` takes no caller identity. It only checks that the stored
  manager id still resolves to a manager.
- `update_feedback` ignores the payload's `employee_id`.
- `acknowledge` writes a notification on every successful call, repeats
  included, provided some account of any role has the stored manager id.
- The notification written by `request_feedback` carries the manager's id
  both as recipient and as sender.

## Model

| member | source | states |
|---|---|---|
| `Directory.FirstMatch` | Server/app/routers/feedback.py:279 | the position returned is the first account that matches; none before it matches; None only when no account matches |
| `Directory.FindOne` | Server/app/routers/feedback.py:23-26 | `find_one` finds an account exactly when one matches; the account found has the id asked for and, in the role-filtered form, that role |
| `Directory.RoleFilteredImpliesAnyRole` | Server/app/routers/feedback.py:194-195 | an id that resolves under some role also resolves in the id-only form |
| `Directory.AnyRoleFirstIsRoleFirst` | Server/app/routers/feedback.py:279-281 | the account an id-only lookup returns is also what the lookup filtered by that account's role returns |
| `Directory.ManagerShadowsEmployee` | Server/app/routers/feedback.py:279-281 | a manager account listed first makes the id-only lookup return the manager, although the employee lookup succeeds |
| `Tables.Select` | Server/app/routers/feedback.py:111-113 | a filter query returns exactly the records that pass, each with its position, positions strictly increasing (store order) |
| `Tables.Count` | Server/app/routers/feedback.py:153-156 | a filtered count equals the number of records the filter query returns, and is at most the table size |
| `Tables.Without` | Server/app/routers/feedback.py:264-266 | a bulk delete keeps exactly the records that do not match, in store order; survivors plus the matching count make up the old table |
| `Tables.CountSplit` | Server/app/routers/feedback.py:264-267 | the records matching a filter and those matching its complement together make up the table |
| `Tables.CountUpdate` | Server/app/routers/feedback.py:136 | overwriting one record changes a filtered count by exactly what that record contributed before and after |
| `Tables.CountAgrees` | Server/app/routers/feedback.py:393-395 | two tables whose records pass a filter at the same positions have the same count |
| `Tables.CountNone` | Server/app/routers/feedback.py:393-395 | when no record passes a filter, its count is zero |
| `Tables.Insert` | Server/app/routers/feedback.py:113 | inserting into the sorted listing adds exactly one element and loses none |
| `Tables.NewestFirst` | Server/app/routers/feedback.py:113 | the sort is a permutation of its input |
| `Tables.NewestFirstSorted` | Server/app/routers/feedback.py:366 | the sort's result has non-increasing keys (newest first) |
| `Tables.NewestFirstDistinct` | Server/app/routers/feedback.py:366 | the sort neither duplicates nor merges elements |
| `Tables.Listing` | Server/app/routers/feedback.py:364-366 | a filtered newest-first listing holds exactly the matching records, each once, by non-increasing time; its length is the filtered count |
| `PdfLayout.NextLine` | Server/app/routers/feedback.py:318-321 | one step of the report cursor: 20 lower on the same page, or the top (800) of the next page when it would fall below 50 |
| `PdfLayout.LineWithinPage` | Server/app/routers/feedback.py:311-321 | every report line is drawn above the bottom margin 50 and at most at 800, and lines on the title page are below the title |
| `FeedbackRouter.Locate` | Server/app/routers/feedback.py:187-189 | `Feedback.get` finds the record with that id, or reports that none has it |
| `FeedbackRouter.RenderComments` | Server/app/routers/feedback.py:170-173 | the shown thread has the same length, authors and order as the stored one, each text passed through the renderer |
| `FeedbackRouter.Store.CreateFeedback` | Server/app/routers/feedback.py:21-58 | 404 "Manager not found" first, then 404 "Employee not found", nothing written; else exactly one feedback (unacknowledged, no comments, `tags or []`) and one notification to the employee are appended |
| `FeedbackRouter.Store.RequestFeedback` | Server/app/routers/feedback.py:64-96 | 404 for the employee first, then for the manager, nothing written; else one unseen request and one notification whose recipient and sender are both the manager id |
| `FeedbackRouter.Store.GetFeedbackRequests` | Server/app/routers/feedback.py:102-124 | 404 unless the id is a manager's; else exactly that manager's requests, each once, by non-increasing creation time |
| `FeedbackRouter.Store.MarkFeedbackRequestSeen` | Server/app/routers/feedback.py:130-138 | 404 for an unknown request; else only that request's `seen` becomes true, and marking it again changes nothing |
| `FeedbackRouter.Store.CountUnseenRequests` | Server/app/routers/feedback.py:144-158 | 404 unless the id is a manager's; else the number of that manager's requests not yet seen |
| `FeedbackRouter.MarkSeenLowersUnseenCount` | Server/app/routers/feedback.py:130-158 | marking a request seen lowers its manager's unseen count by exactly one when it was unseen, and by nothing otherwise |
| `FeedbackRouter.Store.FeedbackHistory` | Server/app/routers/feedback.py:164-179 | the employee's feedback in store order, with the manager name from an id-only lookup ("Unknown" when missing) and the comments rendered; no existence check |
| `FeedbackRouter.Store.Acknowledge` | Server/app/routers/feedback.py:185-203 | 404 when missing; else only `acknowledged` becomes true (idempotent); every successful call notifies the manager id when an account of any role has it |
| `FeedbackRouter.Store.UpdateFeedback` | Server/app/routers/feedback.py:209-229 | 404 when missing; 403, nothing changed, unless the payload's manager is a manager and owns the record; else only strengths, improvement, sentiment, tags (`or []`) and anonymous change |
| `FeedbackRouter.Store.DeleteFeedback` | Server/app/routers/feedback.py:235-249 | 404 when missing; 403, nothing removed, when the stored manager id is no manager's; else exactly that record is removed, the others stay in order |
| `FeedbackRouter.Store.DeleteAll` | Server/app/routers/feedback.py:255-267 | 403, nothing removed, unless the id is a manager's; else exactly that manager's feedback is removed, all other records stay in order, and the count removed is returned |
| `FeedbackRouter.Store.AddComment` | Server/app/routers/feedback.py:273-299 | 404 when missing; 403, nothing changed, unless the first account with the id is an employee's; else one comment appended at the end with earlier ones kept in order, and a notification to the manager id when it resolves |
| `FeedbackRouter.Store.ExportPdf` | Server/app/routers/feedback.py:305-324 | the title at y 800 on page 0, then one line per feedback of the employee in store order at the page and height given by the layout |
| `FeedbackRouter.Store.ManagerFeedbackHistory` | Server/app/routers/feedback.py:330-356 | 404 unless the id is a manager's; else that manager's feedback in store order with the resolved manager's name and rendered comments |
| `FeedbackRouter.Store.GetNotifications` | Server/app/routers/feedback.py:362-378 | exactly the recipient's notifications, each once, by non-increasing creation time; no existence check |
| `FeedbackRouter.Store.UpdateNotificationSeen` | Server/app/routers/feedback.py:381-388 | 404 when missing; else that notification's `seen` is set to exactly the given value (reversible), nothing else changes |
| `FeedbackRouter.Store.MarkAllSeen` | Server/app/routers/feedback.py:391-396 | every notification of the recipient becomes seen, every other is unchanged; succeeds when there are none |
| `FeedbackRouter.MarkAllSeenEffect` | Server/app/routers/feedback.py:391-396 | afterwards the recipient has no unseen notification, other recipients' unseen counts are unchanged, and a repeat changes nothing |
| `Scenarios.RequestThenMarkSeen` | Server/app/routers/feedback.py:64-158 | E1 asks M1: one unseen request is listed, the unseen count is 1, and after marking it seen the count is 0 |
| `Scenarios.AcknowledgeTwice` | Server/app/routers/feedback.py:185-203 | acknowledging twice leaves the flag set and writes a notification each time |
| `Scenarios.UpdateByOtherManager` | Server/app/routers/feedback.py:209-220 | a valid manager who does not own the feedback gets 403 and the record is unchanged |
| `Scenarios.CommentsInOrder` | Server/app/routers/feedback.py:283-287 | comments appended one after another are kept in that order |
| `Scenarios.DeleteAllOfNone` | Server/app/routers/feedback.py:255-267 | deleting all feedback of a manager with none returns 0 and removes nothing |
| `Scenarios.CommenterShadowedByManager` | Server/app/routers/feedback.py:279-281 | an id whose first account is a manager's is refused as a commenter although an employee with that id exists |

## Left out

- Document store driver: the Beanie/MongoDB calls are replaced by operations on sequences. Each handler is one sequential method. Concurrent requests, crash windows and the missing atomicity between a record write and its notification write are not modelled.
- Ids: store ids are natural numbers. Feedback ids come from a counter; request and notification ids are positions. Malformed ObjectId strings are not modelled.
- Timestamps: `datetime.utcnow()` is replaced by the store's clock. A creating handler advances it by a caller-given `tick`, which may be 0, so equal timestamps can occur. When timestamps are equal, the listings' order is not stated.
- Markdown rendering of comment text is the `render` parameter. Upper-casing the sentiment in the report is the `upper` parameter. Neither is interpreted.
- PDF export: only the position (page, y) and the text of each drawn line are modelled. The canvas, fonts, the x coordinate, the byte stream and the HTTP streaming response are not.
- Response shapes: `FeedbackOut.from_feedback` and the schemas are defined in app/schemas/feedback.py, which is not part of this model. `FeedbackOut` is modelled as the record, the manager's name and the comment thread. The request listing returns whole request records; the source's dict leaves out `manager_employee_id`, which equals the queried manager id in every entry. The exact field selection of the response dicts is not modelled.
- Notification defaults: app/models/notification.py is not part of this model. A new notification is assumed to start with `seen = false` and a creation time read from the clock when it is written.
- `FeedbackRouter.Store.DeleteAll`: returns the count removed rather than the message text "Deleted {n} items", because turning a number into a string carries no logic.
- `getattr(fb, "comments", [])` guards against a stored document that has no comments field. Every modelled record has one, so that guard is not modelled.
- HTTP routing, status codes and `response_model` serialisation are replaced by the `Result` value.
