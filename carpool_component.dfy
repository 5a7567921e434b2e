/** The carpool page component: its state and its event handlers.

    The component owns five pieces of state, each updated in place by a
    setter. Every handler is modelled as one atomic step on the current
    state. The clock (`Date.now()`) and the locale-formatted date strings are
    parameters of the handlers that read them.
 */
module CarpoolComponent {
  import opened CarpoolModel

  class CarpoolSite {
    /** The vehicle registry, in registration order. */
    var vehicles: seq<Vehicle>
    /** The notification log, in application order. */
    var notifications: seq<Notification>
    /** Which of the three sections is shown. */
    var activeTab: Tab
    /** The registration draft. */
    var registration: RegistrationDraft
    /** The application draft, shared by all vehicle cards. */
    var application: ApplicationDraft

    /** The initial state: empty logs, the browse tab, default drafts. */
    constructor ()
      ensures vehicles == [] && notifications == [] && activeTab == Browse
      ensures registration == EmptyRegistration && application == EmptyApplication
    {
      vehicles := [];
      notifications := [];
      activeTab := Browse;
      registration := EmptyRegistration;
      application := EmptyApplication;
    }

    /** A tab button: selecting a section changes nothing else. */
    method SelectTab(tab: Tab)
      modifies this
      ensures activeTab == tab
      ensures vehicles == old(vehicles) && notifications == old(notifications)
      ensures registration == old(registration) && application == old(application)
    {
      activeTab := tab;
    }

    /** The registration form's inputs; each edit replaces the draft. */
    method EditRegistration(d: RegistrationDraft)
      modifies this
      ensures registration == d
      ensures vehicles == old(vehicles) && notifications == old(notifications)
      ensures activeTab == old(activeTab) && application == old(application)
    {
      registration := d;
    }

    /** The application form's inputs; each edit replaces the draft. */
    method EditApplication(d: ApplicationDraft)
      modifies this
      ensures application == d
      ensures vehicles == old(vehicles) && notifications == old(notifications)
      ensures activeTab == old(activeTab) && registration == old(registration)
    {
      application := d;
    }

    /** Submitting the registration form: the draft becomes a vehicle with
        the given id and date and no applicants, appended at the end; the
        draft is reset and the browse tab is shown. */
    method RegisterVehicle(id: int, registeredAt: string)
      modifies this
      ensures vehicles == old(vehicles) + [NewVehicle(id, old(registration), registeredAt)]
      ensures |vehicles| == old(|vehicles|) + 1 && vehicles[..old(|vehicles|)] == old(vehicles)
      ensures RemainingSeats(vehicles[|vehicles| - 1]) == old(registration).availableSeats
      ensures registration == EmptyRegistration && activeTab == Browse
      ensures notifications == old(notifications) && application == old(application)
    {
      var v := NewVehicle(id, registration, registeredAt);
      RemainingSeatsOfNewVehicle(id, registration, registeredAt);
      vehicles := vehicles + [v];
      registration := EmptyRegistration;
      activeTab := Browse;
    }

    /** Submitting a seat application for `vehicleId`. An unknown id changes
        nothing. Otherwise every vehicle with that id gets the draft appended
        as an applicant, one unread notification built from the first such
        vehicle and the draft is logged, and the draft is reset. Remaining
        seats are not checked. */
    method ApplyForSeat(vehicleId: int, applicantId: int, appliedAt: string,
                        notificationId: int, timestamp: string)
      modifies this
      ensures FindVehicle(old(vehicles), vehicleId).None? ==>
                vehicles == old(vehicles) && notifications == old(notifications) &&
                application == old(application)
      ensures FindVehicle(old(vehicles), vehicleId).Some? ==>
                vehicles == AddApplicant(old(vehicles), vehicleId,
                                         NewApplicant(applicantId, old(application), appliedAt)) &&
                notifications == old(notifications) +
                  [NewNotification(notificationId, vehicleId,
                                   FindVehicle(old(vehicles), vehicleId).value,
                                   old(application), timestamp)] &&
                application == EmptyApplication &&
                SeatsTaken(old(vehicles), vehicles, vehicleId)
      ensures |vehicles| == old(|vehicles|)
      ensures UnreadCount(notifications) ==
                old(UnreadCount(notifications)) + (if FindVehicle(old(vehicles), vehicleId).Some? then 1 else 0)
      ensures registration == old(registration) && activeTab == old(activeTab)
    {
      var found := FindVehicle(vehicles, vehicleId);
      if found.None? {
        return;
      }
      var applicant := NewApplicant(applicantId, application, appliedAt);
      var n := NewNotification(notificationId, vehicleId, found.value, application, timestamp);
      ApplicationTakesOneSeat(vehicles, vehicleId, applicant);
      UnreadCountAppend(notifications, n);
      vehicles, notifications, application :=
        AddApplicant(vehicles, vehicleId, applicant), notifications + [n], EmptyApplication;
    }

    /** The "Mark as Read" button: every notification with that id is set
        read, the others and the order are kept, and the badge count does
        not rise. */
    method MarkNotificationAsRead(id: int)
      modifies this
      ensures notifications == MarkRead(old(notifications), id)
      ensures |notifications| == old(|notifications|)
      ensures forall i :: 0 <= i < |notifications| ==>
                notifications[i].read == (old(notifications)[i].read || old(notifications)[i].id == id)
      ensures UnreadCount(notifications) <= old(UnreadCount(notifications))
      ensures (exists i :: 0 <= i < |old(notifications)| && old(notifications)[i].id == id &&
                             !old(notifications)[i].read) ==>
                UnreadCount(notifications) < old(UnreadCount(notifications))
      ensures vehicles == old(vehicles) && activeTab == old(activeTab)
      ensures registration == old(registration) && application == old(application)
    {
      MarkReadNeverRaisesUnread(notifications, id);
      forall i | 0 <= i < |notifications| && notifications[i].id == id && !notifications[i].read
        ensures UnreadCount(MarkRead(notifications, id)) < UnreadCount(notifications)
      {
        MarkReadLowersUnread(notifications, id, i);
      }
      notifications := MarkRead(notifications, id);
    }
  }

  /** A session on a fresh page: register a two-seat vehicle, apply for it
      twice, then mark the first notification read. Returns the remaining
      seats, the applicant and notification counts, the unread count, and
      the read flags of the two notifications. */
  method TwoApplicationsSession()
    returns (remaining: int, applicantCount: nat, notificationCount: nat,
             unread: nat, firstRead: bool, secondRead: bool)
    ensures remaining == 0 && applicantCount == 2 && notificationCount == 2
    ensures unread == 1 && firstRead && !secondRead
  {
    var site := new CarpoolSite();
    site.EditRegistration(RegistrationDraft("A", "1", "Civic", "Mall", 2, "", "555"));
    site.RegisterVehicle(1000, "10/15/2026");
    assert RemainingSeats(site.vehicles[0]) == 2;

    var draft := ApplicationDraft("B", "2", "555b", "");
    site.EditApplication(draft);
    assert HasVehicle(site.vehicles, 1000) by { assert site.vehicles[0].id == 1000; }
    site.ApplyForSeat(1000, 2000, "10/15/2026, 9:00:00 AM", 2000, "10/15/2026, 9:00:00 AM");
    site.EditApplication(draft);
    assert HasVehicle(site.vehicles, 1000) by { assert site.vehicles[0].id == 1000; }
    site.ApplyForSeat(1000, 3000, "10/15/2026, 9:05:00 AM", 3000, "10/15/2026, 9:05:00 AM");
    assert UnreadCount(site.notifications) == 2;
    assert site.notifications[0].id == 2000 && site.notifications[1].id == 3000;

    site.MarkNotificationAsRead(2000);
    remaining := RemainingSeats(site.vehicles[0]);
    applicantCount := |site.vehicles[0].applicants|;
    notificationCount := |site.notifications|;
    unread := UnreadCount(site.notifications);
    firstRead := site.notifications[0].read;
    secondRead := site.notifications[1].read;
  }
}
