/** Records and pure state transitions of the carpool coordination page.

    Vehicles, applicants and notifications are immutable records; the page's
    handlers build new sequences of them with spread-append, `map` and
    `filter`. Each of those expressions is a function here, and the lemmas
    below state what the handlers promise about them. Ids are integers
    produced by the clock, so nothing here assumes they are unique.
 */
module CarpoolModel {

  datatype Option<T> = None | Some(value: T)

  /** A seat request, embedded in the vehicle it was made for. */
  datatype Applicant = Applicant(
    id: int,
    applicantName: string,
    applicantFlat: string,
    contactInfo: string,
    message: string,
    appliedAt: string)

  /** A registered ride offer. `availableSeats` is the seat count offered at
      registration; it is never decremented, `applicants` grows instead. */
  datatype Vehicle = Vehicle(
    id: int,
    ownerName: string,
    ownerFlat: string,
    vehicleName: string,
    destination: string,
    availableSeats: int,
    departureTime: string,
    contactInfo: string,
    applicants: seq<Applicant>,
    registeredAt: string)

  /** The owner's record of one seat application, with copies of the vehicle's
      and the applicant's fields taken at the moment of application. */
  datatype Notification = Notification(
    id: int,
    vehicleId: int,
    vehicleName: string,
    destination: string,
    ownerName: string,
    applicantName: string,
    applicantFlat: string,
    applicantContact: string,
    message: string,
    timestamp: string,
    read: bool)

  /** The vehicle-registration form while it is being filled in. */
  datatype RegistrationDraft = RegistrationDraft(
    ownerName: string,
    ownerFlat: string,
    vehicleName: string,
    destination: string,
    availableSeats: int,
    departureTime: string,
    contactInfo: string)

  /** The seat-application form, shared by every vehicle card. */
  datatype ApplicationDraft = ApplicationDraft(
    applicantName: string,
    applicantFlat: string,
    contactInfo: string,
    message: string)

  /** The three exclusive sections of the page. */
  datatype Tab = Browse | Register | Notifications

  /** The registration form's initial and reset value: empty strings, one seat. */
  const EmptyRegistration := RegistrationDraft("", "", "", "", 1, "", "")

  /** The application form's initial and reset value: empty strings. */
  const EmptyApplication := ApplicationDraft("", "", "", "")

  // ---------------------------------------------------------------------------
  // Projections back to the form a record was built from

  /** The registration form fields a vehicle carries. */
  function DraftOfVehicle(v: Vehicle): RegistrationDraft {
    RegistrationDraft(v.ownerName, v.ownerFlat, v.vehicleName, v.destination,
                      v.availableSeats, v.departureTime, v.contactInfo)
  }

  /** The application form fields an applicant carries. */
  function DraftOfApplicant(a: Applicant): ApplicationDraft {
    ApplicationDraft(a.applicantName, a.applicantFlat, a.contactInfo, a.message)
  }

  /** The application form fields a notification carries. */
  function DraftOfNotification(n: Notification): ApplicationDraft {
    ApplicationDraft(n.applicantName, n.applicantFlat, n.applicantContact, n.message)
  }

  // ---------------------------------------------------------------------------
  // Record construction

  /** The vehicle a registration creates: the draft spread over a fresh id,
      no applicants yet, and the registration date. */
  function NewVehicle(id: int, d: RegistrationDraft, registeredAt: string): (v: Vehicle)
    ensures DraftOfVehicle(v) == d
    ensures v.id == id && v.applicants == [] && v.registeredAt == registeredAt
  {
    Vehicle(id, d.ownerName, d.ownerFlat, d.vehicleName, d.destination,
            d.availableSeats, d.departureTime, d.contactInfo, [], registeredAt)
  }

  /** The applicant a seat application creates from the application draft. */
  function NewApplicant(id: int, d: ApplicationDraft, appliedAt: string): (a: Applicant)
    ensures DraftOfApplicant(a) == d
    ensures a.id == id && a.appliedAt == appliedAt
  {
    Applicant(id, d.applicantName, d.applicantFlat, d.contactInfo, d.message, appliedAt)
  }

  /** The unread notification a seat application creates: vehicle fields from
      the vehicle that was found, applicant fields from the draft. */
  function NewNotification(id: int, vehicleId: int, v: Vehicle, d: ApplicationDraft,
                           timestamp: string): (n: Notification)
    ensures DraftOfNotification(n) == d
    ensures n.id == id && n.vehicleId == vehicleId && !n.read && n.timestamp == timestamp
    ensures n.vehicleName == v.vehicleName && n.destination == v.destination
    ensures n.ownerName == v.ownerName
  {
    Notification(id, vehicleId, v.vehicleName, v.destination, v.ownerName,
                 d.applicantName, d.applicantFlat, d.contactInfo, d.message,
                 timestamp, false)
  }

  // ---------------------------------------------------------------------------
  // Vehicle registry

  /** True when some vehicle in `vs` has id `id`. */
  predicate HasVehicle(vs: seq<Vehicle>, id: int) {
    exists i :: 0 <= i < |vs| && vs[i].id == id
  }

  /** The lookup a seat application starts with: the first vehicle in
      registry order whose id is `id`, or nothing. */
  function FindVehicle(vs: seq<Vehicle>, id: int): (r: Option<Vehicle>)
    ensures r.None? <==> !HasVehicle(vs, id)
    ensures r.Some? ==> r.value.id == id
  {
    if vs == [] then None
    else if vs[0].id == id then Some(vs[0])
    else FindVehicle(vs[1..], id)
  }

  /** The lookup returns the first vehicle with the id: the one at position
      `k` when no earlier vehicle has that id. */
  lemma {:induction false} FindVehicleIsFirstMatch(vs: seq<Vehicle>, id: int, k: int)
    requires 0 <= k < |vs| && vs[k].id == id
    requires forall j :: 0 <= j < k ==> vs[j].id != id
    ensures FindVehicle(vs, id) == Some(vs[k])
  {
    if k > 0 {
      assert vs[0].id != id;
      assert forall j :: 0 <= j < k - 1 ==> vs[1..][j] == vs[j + 1];
      FindVehicleIsFirstMatch(vs[1..], id, k - 1);
    }
  }

  /** Remaining seats shown on a vehicle card; never clamped at zero. */
  function RemainingSeats(v: Vehicle): (r: int)
    ensures r <= v.availableSeats
    ensures r == v.availableSeats <==> v.applicants == []
  {
    v.availableSeats - |v.applicants|
  }

  /** The registry update of a seat application: every vehicle with the
      target id gets `a` appended to its applicants; the rest are copied. */
  function AddApplicant(vs: seq<Vehicle>, vehicleId: int, a: Applicant): (r: seq<Vehicle>)
    ensures |r| == |vs|
    ensures forall i :: 0 <= i < |vs| && vs[i].id == vehicleId ==>
              r[i] == vs[i].(applicants := vs[i].applicants + [a])
    ensures forall i :: 0 <= i < |vs| && vs[i].id != vehicleId ==> r[i] == vs[i]
  {
    if vs == [] then []
    else
      var v := vs[0];
      var head := if v.id == vehicleId then v.(applicants := v.applicants + [a]) else v;
      [head] + AddApplicant(vs[1..], vehicleId, a)
  }

  /** No two vehicles share an id. The page does not enforce this; it holds
      only while every registration is given an id not yet in use. */
  predicate UniqueIds(vs: seq<Vehicle>) {
    forall i, j :: 0 <= i < j < |vs| ==> vs[i].id != vs[j].id
  }

  // ---------------------------------------------------------------------------
  // Notification log

  /** The log update of "Mark as Read": every notification with that id is
      replaced by a read copy; the rest are copied. */
  function MarkRead(ns: seq<Notification>, id: int): (r: seq<Notification>)
    ensures |r| == |ns|
    ensures forall i :: 0 <= i < |ns| && ns[i].id == id ==> r[i] == ns[i].(read := true)
    ensures forall i :: 0 <= i < |ns| && ns[i].id != id ==> r[i] == ns[i]
  {
    if ns == [] then []
    else
      var n := ns[0];
      [if n.id == id then n.(read := true) else n] + MarkRead(ns[1..], id)
  }

  /** The notifications not yet read, in log order. */
  function Unread(ns: seq<Notification>): (r: seq<Notification>)
    ensures |r| <= |ns|
    ensures forall i :: 0 <= i < |r| ==> !r[i].read
    ensures r == [] <==> forall i :: 0 <= i < |ns| ==> ns[i].read
  {
    if ns == [] then []
    else
      var rest := Unread(ns[1..]);
      assert forall i :: 1 <= i < |ns| ==> ns[i] == ns[1..][i - 1];
      if ns[0].read then rest else [ns[0]] + rest
  }

  /** The badge count on the notifications tab. */
  function UnreadCount(ns: seq<Notification>): (c: nat)
    ensures c <= |ns|
    ensures c == 0 <==> forall i :: 0 <= i < |ns| ==> ns[i].read
  {
    |Unread(ns)|
  }

  // ---------------------------------------------------------------------------
  // Lemmas: registration

  /** A just-registered vehicle offers exactly the seats chosen in the form. */
  lemma RemainingSeatsOfNewVehicle(id: int, d: RegistrationDraft, registeredAt: string)
    ensures RemainingSeats(NewVehicle(id, d, registeredAt)) == d.availableSeats
  {
  }

  /** Registering with an id that is not yet in use keeps the ids unique. */
  lemma RegisterKeepsIdsUnique(vs: seq<Vehicle>, id: int, d: RegistrationDraft, registeredAt: string)
    requires UniqueIds(vs) && !HasVehicle(vs, id)
    ensures UniqueIds(vs + [NewVehicle(id, d, registeredAt)])
  {
    // Follows from the definition of sequence append.
  }

  // ---------------------------------------------------------------------------
  // Lemmas: seat application

  /** Appending an applicant changes no vehicle's id, so uniqueness of ids and
      lookups by id survive it. */
  lemma AddApplicantKeepsIds(vs: seq<Vehicle>, vehicleId: int, a: Applicant, id: int)
    ensures UniqueIds(AddApplicant(vs, vehicleId, a)) <==> UniqueIds(vs)
    ensures HasVehicle(AddApplicant(vs, vehicleId, a), id) <==> HasVehicle(vs, id)
  {
    // Follows from the pointwise contract of AddApplicant.
  }

  /** Between `before` and `after` every vehicle with the target id has
      exactly one remaining seat fewer, with no lower bound, and every other
      vehicle has the same number. */
  predicate SeatsTaken(before: seq<Vehicle>, after: seq<Vehicle>, vehicleId: int) {
    |after| == |before| &&
    forall i :: 0 <= i < |before| ==>
      RemainingSeats(after[i]) ==
      RemainingSeats(before[i]) - (if before[i].id == vehicleId then 1 else 0)
  }

  /** Each application takes one seat on every vehicle with the target id,
      whether or not any seat remained. */
  lemma ApplicationTakesOneSeat(vs: seq<Vehicle>, vehicleId: int, a: Applicant)
    ensures SeatsTaken(vs, AddApplicant(vs, vehicleId, a), vehicleId)
  {
  }

  /** With unique ids exactly one vehicle, the one with the target id, changes. */
  lemma AddApplicantWithUniqueIds(vs: seq<Vehicle>, k: int, a: Applicant)
    requires UniqueIds(vs) && 0 <= k < |vs|
    ensures AddApplicant(vs, vs[k].id, a) == vs[k := vs[k].(applicants := vs[k].applicants + [a])]
  {
    // Follows from the pointwise contract of AddApplicant.
  }

  /** The applicant stored on the vehicle and the notification sent to its
      owner carry the same applicant fields. */
  lemma ApplicantAndNotificationAgree(applicantId: int, notificationId: int, vehicleId: int,
                                      v: Vehicle, d: ApplicationDraft,
                                      appliedAt: string, timestamp: string)
    ensures DraftOfApplicant(NewApplicant(applicantId, d, appliedAt)) ==
            DraftOfNotification(NewNotification(notificationId, vehicleId, v, d, timestamp))
  {
  }

  /** The unread list holds exactly the log's unread notifications. */
  lemma {:induction false} UnreadIsFilter(ns: seq<Notification>, n: Notification)
    ensures n in Unread(ns) <==> n in ns && !n.read
  {
    if ns != [] {
      UnreadIsFilter(ns[1..], n);
      assert ns == [ns[0]] + ns[1..];
    }
  }

  /** Appending one notification raises the unread count by one exactly when
      it is unread. */
  lemma {:induction false} UnreadCountAppend(ns: seq<Notification>, n: Notification)
    ensures UnreadCount(ns + [n]) == UnreadCount(ns) + (if n.read then 0 else 1)
  {
    UnreadAppend(ns, n);
  }

  /** Filtering distributes over appending one notification. */
  lemma {:induction false} UnreadAppend(ns: seq<Notification>, n: Notification)
    ensures Unread(ns + [n]) == Unread(ns) + (if n.read then [] else [n])
  {
    if ns == [] {
      assert [n][1..] == [];
    } else {
      assert (ns + [n])[1..] == ns[1..] + [n];
      UnreadAppend(ns[1..], n);
    }
  }

  // ---------------------------------------------------------------------------
  // Lemmas: marking notifications read

  /** Marking read twice is the same as marking read once. */
  lemma MarkReadIdempotent(ns: seq<Notification>, id: int)
    ensures MarkRead(MarkRead(ns, id), id) == MarkRead(ns, id)
  {
    // Follows from the pointwise contract of MarkRead.
  }

  /** After marking, no notification with that id is left in the unread
      list that the badge counts. */
  lemma MarkReadRemovesFromUnread(ns: seq<Notification>, id: int, i: int)
    requires 0 <= i < |ns| && ns[i].id == id
    ensures MarkRead(ns, id)[i] !in Unread(MarkRead(ns, id))
  {
    UnreadIsFilter(MarkRead(ns, id), MarkRead(ns, id)[i]);
  }

  /** Marking read never raises the unread count. */
  lemma {:induction false} MarkReadNeverRaisesUnread(ns: seq<Notification>, id: int)
    ensures UnreadCount(MarkRead(ns, id)) <= UnreadCount(ns)
  {
    if ns != [] {
      assert MarkRead(ns, id)[1..] == MarkRead(ns[1..], id);
      MarkReadNeverRaisesUnread(ns[1..], id);
    }
  }

  /** Marking read lowers the unread count when a notification with that id
      was unread. */
  lemma {:induction false} MarkReadLowersUnread(ns: seq<Notification>, id: int, i: int)
    requires 0 <= i < |ns| && ns[i].id == id && !ns[i].read
    ensures UnreadCount(MarkRead(ns, id)) < UnreadCount(ns)
  {
    assert MarkRead(ns, id)[1..] == MarkRead(ns[1..], id);
    if i == 0 {
      MarkReadNeverRaisesUnread(ns[1..], id);
    } else {
      assert ns[1..][i - 1] == ns[i];
      MarkReadLowersUnread(ns[1..], id, i - 1);
    }
  }
}
