# Carpool coordination page — a Dafny model

The page lets residents register vehicles with a number of seats, apply for a
seat on someone else's vehicle, and lets owners read the resulting
notifications. All of it is in-memory state of one component:

- the **vehicle registry** (`vehicles`), in registration order; each vehicle
  embeds its list of applicants;
- the **notification log** (`notifications`), one entry per seat application,
  created unread;
- the **registration draft** and the **application draft**, the two forms
  while they are being filled in;
- the **active tab** (browse, register, notifications).

Module `CarpoolModel` (`carpool_model.dfy`) holds the records, the two draft
defaults, and the pure expressions the handlers evaluate: building a vehicle,
an applicant and a notification, looking a vehicle up by id, appending an
applicant to every vehicle with that id, marking notifications read, filtering
the unread ones, and the remaining-seat count. Its lemmas state what those
promise.

Module `CarpoolComponent` (`carpool_component.dfy`) holds class `CarpoolSite`,
whose fields are the five pieces of state and whose `modifies this` methods are
the handlers. Each method states its whole new state in terms of the old one
and the functions above. `TwoApplicationsSession` is a client: it runs
a whole session on a fresh page and proves the outcome.

The clock and the locale-formatted dates are not modelled. The ids that come
from `Date.now()` and the date strings are parameters of the handlers.
Registration takes `id` and `registeredAt`. Seat application takes
`applicantId`, `appliedAt`, `notificationId` and `timestamp`, because the source
reads the clock twice for ids and twice for strings. Nothing assumes these ids
are unique. Where uniqueness matters, a lemma assumes it as a precondition.

Three behaviours of the code are worth stating plainly:

- Registration ids come from `Date.now()` (src/CarpoolWebsite.jsx:34) and
  need not be distinct, so uniqueness is kept only conditionally
  (`RegisterKeepsIdsUnique`).
- The handler stores whatever seat count the form holds and never checks
  that it is positive.
- Application appends the applicant to every vehicle with the id
  (src/CarpoolWebsite.jsx:71-75) and takes the notification's vehicle fields
  from the first one (src/CarpoolWebsite.jsx:61).

## Model

| member | source | states |
|---|---|---|
| `CarpoolModel.NewVehicle` | src/CarpoolWebsite.jsx:33-38 | a registered vehicle carries exactly the draft's fields (its projection back to a draft is the draft), the supplied id and date, and no applicants |
| `CarpoolModel.NewApplicant` | src/CarpoolWebsite.jsx:64-68 | an applicant carries exactly the application draft's fields, the supplied id and the application time |
| `CarpoolModel.NewNotification` | src/CarpoolWebsite.jsx:78-90 | a new notification is unread, refers to the target vehicle id, copies vehicle name, destination and owner from the found vehicle and the applicant fields from the draft |
| `CarpoolModel.FindVehicle` | src/CarpoolWebsite.jsx:61-62 | the lookup finds nothing exactly when no vehicle has the id; whatever it finds has that id |
| `CarpoolModel.FindVehicleIsFirstMatch` | src/CarpoolWebsite.jsx:61 | the lookup returns the first vehicle with the id: the one at position k when no earlier vehicle has that id |
| `CarpoolModel.RemainingSeats` | src/CarpoolWebsite.jsx:111-113 | remaining seats never exceed the offered seats, and equal them exactly when there are no applicants |
| `CarpoolModel.AddApplicant` | src/CarpoolWebsite.jsx:71-75 | the registry keeps its length; every vehicle with the target id gets the applicant appended at the end of its list; every other vehicle is unchanged |
| `CarpoolModel.MarkRead` | src/CarpoolWebsite.jsx:105-108 | the log keeps its length and order; notifications with the id become read copies of themselves; all others are unchanged |
| `CarpoolModel.Unread` | src/CarpoolWebsite.jsx:126 | the filter is no longer than the log and holds only unread notifications. It is empty exactly when every notification is read |
| `CarpoolModel.UnreadIsFilter` | src/CarpoolWebsite.jsx:126 | a notification is in the filtered list exactly when it is in the log and unread |
| `CarpoolModel.UnreadCount` | src/CarpoolWebsite.jsx:126-128 | the badge count is at most the log length, and is zero exactly when every notification is read |
| `CarpoolModel.RemainingSeatsOfNewVehicle` | src/CarpoolWebsite.jsx:33-38 | right after registration the remaining seats equal the seats chosen in the draft |
| `CarpoolModel.RegisterKeepsIdsUnique` | src/CarpoolWebsite.jsx:33-40 | appending a vehicle whose id is not yet in use keeps all ids distinct |
| `CarpoolModel.AddApplicantKeepsIds` | src/CarpoolWebsite.jsx:71-75 | appending an applicant changes no id: id uniqueness and the presence of any id are the same before and after |
| `CarpoolModel.ApplicationTakesOneSeat` | src/CarpoolWebsite.jsx:71-75 | appending an applicant lowers the remaining seats of every vehicle with the target id by exactly one, with no floor. Every other vehicle keeps its count |
| `CarpoolModel.AddApplicantWithUniqueIds` | src/CarpoolWebsite.jsx:71-75 | when ids are unique, application changes exactly one vehicle, the one at the target's position |
| `CarpoolModel.ApplicantAndNotificationAgree` | src/CarpoolWebsite.jsx:64-90 | the applicant stored on the vehicle and the notification sent to the owner carry the same applicant fields |
| `CarpoolModel.UnreadAppend` | src/CarpoolWebsite.jsx:126 | filtering the log after appending one notification equals filtering before, followed by the new one when it is unread |
| `CarpoolModel.UnreadCountAppend` | src/CarpoolWebsite.jsx:126-128 | appending a notification raises the unread count by one exactly when it is unread, and otherwise leaves it unchanged |
| `CarpoolModel.MarkReadIdempotent` | src/CarpoolWebsite.jsx:105-108 | marking the same id read twice gives the same log as marking it once |
| `CarpoolModel.MarkReadRemovesFromUnread` | src/CarpoolWebsite.jsx:105-108 | after marking, no notification with that id is left in the unread list that the badge counts |
| `CarpoolModel.MarkReadNeverRaisesUnread` | src/CarpoolWebsite.jsx:105-108 | marking read never raises the unread count |
| `CarpoolModel.MarkReadLowersUnread` | src/CarpoolWebsite.jsx:105-108 | marking read strictly lowers the unread count when a notification with that id was unread |
| `CarpoolComponent.CarpoolSite.constructor` | src/CarpoolWebsite.jsx:5-22 | the page starts with empty registry and log, the browse tab, and both drafts at their defaults (empty strings, one seat) |
| `CarpoolComponent.CarpoolSite.SelectTab` | src/CarpoolWebsite.jsx:150-170 | a tab button sets the active tab and changes nothing else |
| `CarpoolComponent.CarpoolSite.EditRegistration` | src/CarpoolWebsite.jsx:299-371 | editing the registration form replaces that draft and changes nothing else |
| `CarpoolComponent.CarpoolSite.EditApplication` | src/CarpoolWebsite.jsx:226-249 | editing the application form replaces that draft and changes nothing else |
| `CarpoolComponent.CarpoolSite.RegisterVehicle` | src/CarpoolWebsite.jsx:30-56 | exactly one vehicle built from the old draft is appended, and earlier vehicles are unchanged. Its remaining seats equal the draft's seat count. The draft is reset and the browse tab is shown. Notifications and the application draft are unchanged |
| `CarpoolComponent.CarpoolSite.ApplyForSeat` | src/CarpoolWebsite.jsx:58-103 | an unknown id changes nothing. A known id appends the applicant to every vehicle with that id, keeping the registry length. It appends one unread notification built from the first match and the old draft, and resets the draft. The target's remaining seats drop by one with no seat check, and the unread count rises by one |
| `CarpoolComponent.CarpoolSite.MarkNotificationAsRead` | src/CarpoolWebsite.jsx:105-109 | the log becomes the mark-read image of the old one: length and order kept, a read flag set exactly where it was set or the id matches. The unread count does not rise, and it falls when an unread notification had the id. Nothing else changes |
| `CarpoolComponent.TwoApplicationsSession` | src/CarpoolWebsite.jsx:30-109 | registering a two-seat vehicle and applying twice leaves zero seats, two applicants and two notifications. Marking the first one read leaves it read, the second unread, and an unread count of one |

## Left out

- Rendering, styling, icons and the tab-button markup are presentation only. Only the active-tab value is kept.
- The guard that shows the application form only while seats remain is a rendering condition. The handler has no such check, so `ApplyForSeat` does not have one either.
- The success alerts, `preventDefault` and the empty mount effect have no effect on state.
- `Date.now()` and the locale date and time strings come from the clock and locale. They are parameters, so the model says nothing about their values or their uniqueness.
- Browser-native required-field validation happens before a handler runs. The handlers do not check it, and neither does the model.
- The seat selector offers 1 to 7 and its value goes through `parseInt`. The model takes any integer, as the handler does.
- `EditRegistration`, `EditApplication`: each input in the source changes one field of a draft. The model replaces the whole draft. Any sequence of field edits equals one such replacement.
- React's deferred, batched state updates are not modelled. Each handler is one atomic step on the current state, so the registry the lookup reads is the one the update maps over.
- JavaScript numbers are modelled as unbounded integers. The ids are clock values well inside the exactly-representable range.
