/**
 * Identity sync (src/controllers/authController.ts): the identity provider's
 * `user.created`, `user.updated` and `user.deleted` webhook events create, overwrite
 * and soft-delete a user record keyed by the provider's user id.
 */
module IdentitySync {
  import opened Common

  /** One entry of the payload's `email_addresses` array. */
  datatype EmailAddress = EmailAddress(id: string, emailAddress: Option<string>)

  /** The provider's user object carried in the event's `data`. */
  datatype ClerkUser = ClerkUser(
    id: string,
    emailAddresses: Option<seq<EmailAddress>>,
    primaryEmailAddressId: Option<string>,
    firstName: Option<string>,
    lastName: Option<string>,
    imageUrl: Option<string>,
    profileImageUrl: Option<string>,
    createdAt: int,
    updatedAt: int)

  /** A verified webhook envelope: the event type and the user object. */
  datatype WebhookEvent = WebhookEvent(eventType: string, data: ClerkUser)

  /** A row of the user table. */
  datatype User = User(
    clerkUserId: string,
    email: string,
    firstName: Option<string>,
    lastName: Option<string>,
    imageUrl: Option<string>,
    createdAt: int,
    updatedAt: int,
    deletedAt: Option<int>)

  /** The fields a `user.updated` event writes. */
  datatype UpdatePayload = UpdatePayload(
    email: string,
    firstName: Option<string>,
    lastName: Option<string>,
    imageUrl: Option<string>,
    updatedAt: int)

  const StatusOk: int := 200
  const StatusBadRequest: int := 400

  // ---------------------------------------------------------------------------
  // Payload construction

  /** Whether an email entry is the one the payload designates as primary. */
  predicate IsPrimary(e: EmailAddress, primaryId: Option<string>): (b: bool)
    ensures b ==> primaryId.Some? && primaryId.value == e.id
    ensures primaryId.None? ==> !b
  {
    primaryId == Some(e.id)
  }

  /** `Array.prototype.find`: the position of the first primary entry, if any. */
  function FindPrimary(emails: seq<EmailAddress>, primaryId: Option<string>): (k: Option<nat>)
    ensures k.Some? ==> k.value < |emails| && IsPrimary(emails[k.value], primaryId)
    ensures k.Some? ==> forall j :: 0 <= j < k.value ==> !IsPrimary(emails[j], primaryId)
    ensures k.None? ==> forall j :: 0 <= j < |emails| ==> !IsPrimary(emails[j], primaryId)
  {
    if emails == [] then None
    else if IsPrimary(emails[0], primaryId) then Some(0)
    else
      var rest := FindPrimary(emails[1..], primaryId);
      if rest.Some? then Some(rest.value + 1) else None
  }

  /**
   * `email_addresses?.find(e => e.id === primary_email_address_id) || email_addresses?.[0]`:
   * the first entry with the primary id, else the first entry, else nothing.
   */
  function PrimaryEmail(data: ClerkUser): (r: Option<EmailAddress>)
    ensures r.None? <==> data.emailAddresses.None? || data.emailAddresses.value == []
    ensures r.Some? ==> r.value in data.emailAddresses.value
    ensures r.Some? && IsPrimary(r.value, data.primaryEmailAddressId) ==>
              exists k :: 0 <= k < |data.emailAddresses.value|
                          && data.emailAddresses.value[k] == r.value
                          && forall j :: 0 <= j < k ==>
                               !IsPrimary(data.emailAddresses.value[j], data.primaryEmailAddressId)
    ensures r.Some? && !IsPrimary(r.value, data.primaryEmailAddressId) ==>
              r.value == data.emailAddresses.value[0]
              && forall j :: 0 <= j < |data.emailAddresses.value| ==>
                   !IsPrimary(data.emailAddresses.value[j], data.primaryEmailAddressId)
  {
    match data.emailAddresses
    case None => None
    case Some(emails) =>
      var k := FindPrimary(emails, data.primaryEmailAddressId);
      if k.Some? then Some(emails[k.value])
      else if emails != [] then Some(emails[0])
      else None
  }

  /** `primaryEmail?.email_address || ''`: the stored email address. */
  function ResolveEmail(data: ClerkUser): (email: string)
    ensures PrimaryEmail(data).None? ==> email == ""
    ensures PrimaryEmail(data).Some? && TruthyString(PrimaryEmail(data).value.emailAddress) ==>
              email == PrimaryEmail(data).value.emailAddress.value
    ensures PrimaryEmail(data).Some? && !TruthyString(PrimaryEmail(data).value.emailAddress) ==>
              email == ""
  {
    var p := PrimaryEmail(data);
    if p.Some? && p.value.emailAddress.Some? then p.value.emailAddress.value else ""
  }

  /** `x || null`: a falsy name (absent or empty) is stored as null. */
  function NameOrNull(x: Option<string>): (r: Option<string>)
    ensures r.None? <==> !TruthyString(x)
    ensures r.Some? ==> r == x && r.value != ""
  {
    if TruthyString(x) then x else None
  }

  /** `image_url || profile_image_url || null`: the first truthy image field, else null. */
  function ResolveImageUrl(data: ClerkUser): (r: Option<string>)
    ensures TruthyString(data.imageUrl) ==> r == data.imageUrl
    ensures !TruthyString(data.imageUrl) && TruthyString(data.profileImageUrl) ==>
              r == data.profileImageUrl
    ensures !TruthyString(data.imageUrl) && !TruthyString(data.profileImageUrl) ==> r.None?
  {
    if TruthyString(data.imageUrl) then data.imageUrl
    else if TruthyString(data.profileImageUrl) then data.profileImageUrl
    else None
  }

  /** The record `user.created` inserts: live, with the payload's own timestamps. */
  function NewUser(data: ClerkUser): (u: User)
    ensures u.clerkUserId == data.id && u.email == ResolveEmail(data)
    ensures u.firstName == NameOrNull(data.firstName) && u.lastName == NameOrNull(data.lastName)
    ensures u.imageUrl == ResolveImageUrl(data)
    ensures u.createdAt == data.createdAt && u.updatedAt == data.updatedAt
    ensures u.deletedAt.None?
  {
    User(
      data.id,
      ResolveEmail(data),
      NameOrNull(data.firstName),
      NameOrNull(data.lastName),
      ResolveImageUrl(data),
      data.createdAt,
      data.updatedAt,
      None)
  }

  /** The fields `user.updated` writes; absent names and images become null. */
  function UpdateOf(data: ClerkUser): (p: UpdatePayload)
    ensures p.email == ResolveEmail(data)
    ensures p.firstName == NameOrNull(data.firstName) && p.lastName == NameOrNull(data.lastName)
    ensures p.imageUrl == ResolveImageUrl(data) && p.updatedAt == data.updatedAt
  {
    UpdatePayload(
      ResolveEmail(data),
      NameOrNull(data.firstName),
      NameOrNull(data.lastName),
      ResolveImageUrl(data),
      data.updatedAt)
  }

  /** A full overwrite of the payload's fields; identity, creation time and deletion stay. */
  function ApplyUpdate(u: User, p: UpdatePayload): (r: User)
    ensures r.email == p.email && r.firstName == p.firstName && r.lastName == p.lastName
    ensures r.imageUrl == p.imageUrl && r.updatedAt == p.updatedAt
    ensures r.clerkUserId == u.clerkUserId && r.createdAt == u.createdAt && r.deletedAt == u.deletedAt
  {
    u.(email := p.email, firstName := p.firstName, lastName := p.lastName,
       imageUrl := p.imageUrl, updatedAt := p.updatedAt)
  }

  /** A soft delete: the record stays, stamped with the deletion time. */
  function SoftDelete(u: User, now: int): (r: User)
    ensures r.deletedAt == Some(now) && r.updatedAt == now
    ensures r.clerkUserId == u.clerkUserId && r.email == u.email && r.createdAt == u.createdAt
    ensures r.firstName == u.firstName && r.lastName == u.lastName && r.imageUrl == u.imageUrl
  {
    u.(deletedAt := Some(now), updatedAt := now)
  }

  // ---------------------------------------------------------------------------
  // The table and its transitions: the reference definition

  /** Every record is filed under its own provider id. */
  ghost predicate KeyedByClerkId(users: map<string, User>)
  {
    forall id :: id in users ==> users[id].clerkUserId == id
  }

  /** The outcome of one webhook delivery: the table afterwards and the response status. */
  datatype Outcome = Outcome(users: map<string, User>, status: int)

  /**
   * One delivery: create fails on a provider id already in the table (its unique
   * constraint), update and delete fail on an id not in it; a failure is a 400 with the
   * table untouched, anything else a 200. `now` is the clock read by the delete.
   */
  function Webhook(users: map<string, User>, evt: WebhookEvent, now: int): (r: Outcome)
    ensures r.status == StatusOk || r.status == StatusBadRequest
    ensures r.status == StatusBadRequest ==> r.users == users
    ensures r.users.Keys <= users.Keys + {evt.data.id}
    ensures forall id :: id in users && id != evt.data.id ==> id in r.users && r.users[id] == users[id]
  {
    var id := evt.data.id;
    if evt.eventType == "user.created" then
      if id in users then Outcome(users, StatusBadRequest)
      else Outcome(users[id := NewUser(evt.data)], StatusOk)
    else if evt.eventType == "user.updated" then
      if id in users then Outcome(users[id := ApplyUpdate(users[id], UpdateOf(evt.data))], StatusOk)
      else Outcome(users, StatusBadRequest)
    else if evt.eventType == "user.deleted" then
      if id in users then Outcome(users[id := SoftDelete(users[id], now)], StatusOk)
      else Outcome(users, StatusBadRequest)
    else Outcome(users, StatusOk)
  }

  /** The three recognised event types. */
  predicate Handled(eventType: string)
  {
    eventType == "user.created" || eventType == "user.updated" || eventType == "user.deleted"
  }

  /** Only the record of the event's own provider id can change; a failure changes nothing. */
  lemma WebhookTouchesOneRecord(users: map<string, User>, evt: WebhookEvent, now: int)
    ensures var r := Webhook(users, evt, now);
            (r.status == StatusOk || r.status == StatusBadRequest)
            && (r.status == StatusBadRequest ==> r.users == users)
            && r.users.Keys == users.Keys + (if r.status == StatusOk && evt.eventType == "user.created"
                                             then {evt.data.id} else {})
            && forall id :: id in users && id != evt.data.id ==> r.users[id] == users[id]
  {
  }

  /** The status is 400 exactly when an event is recognised and its precondition on the table fails. */
  lemma WebhookFailsExactly(users: map<string, User>, evt: WebhookEvent, now: int)
    ensures Webhook(users, evt, now).status == StatusBadRequest
            <==> (evt.eventType == "user.created" && evt.data.id in users)
                 || ((evt.eventType == "user.updated" || evt.eventType == "user.deleted")
                     && evt.data.id !in users)
  {
  }

  /** An unrecognised event type is acknowledged and changes nothing. */
  lemma UnknownEventIgnored(users: map<string, User>, evt: WebhookEvent, now: int)
    requires !Handled(evt.eventType)
    ensures Webhook(users, evt, now) == Outcome(users, StatusOk)
  {
  }

  /** Every transition files records under their own provider id. */
  lemma WebhookKeepsKeying(users: map<string, User>, evt: WebhookEvent, now: int)
    requires KeyedByClerkId(users)
    ensures KeyedByClerkId(Webhook(users, evt, now).users)
  {
  }

  /**
   * An update rewrites exactly email, names, image and update time: the provider id,
   * the creation time and the deletion mark stay, and absent names become null.
   */
  lemma UpdateOverwrites(users: map<string, User>, evt: WebhookEvent, now: int)
    requires evt.eventType == "user.updated" && evt.data.id in users
    ensures var r := Webhook(users, evt, now);
            var before, after := users[evt.data.id], r.users[evt.data.id];
            r.status == StatusOk
            && after.clerkUserId == before.clerkUserId && after.createdAt == before.createdAt
            && after.deletedAt == before.deletedAt
            && after.email == ResolveEmail(evt.data) && after.imageUrl == ResolveImageUrl(evt.data)
            && after.updatedAt == evt.data.updatedAt
            && after.firstName == NameOrNull(evt.data.firstName)
            && after.lastName == NameOrNull(evt.data.lastName)
            && (after.firstName.None? <==> !TruthyString(evt.data.firstName))
            && (after.lastName.None? <==> !TruthyString(evt.data.lastName))
            && after == ApplyUpdate(before, UpdateOf(evt.data))
  {
  }

  /** Replaying an update gives the state a single delivery gave: it is a full overwrite. */
  lemma UpdateReplayIsIdempotent(users: map<string, User>, evt: WebhookEvent, now: int, later: int)
    requires evt.eventType == "user.updated"
    ensures var once := Webhook(users, evt, now).users;
            Webhook(once, evt, later).users == once
  {
    var once := Webhook(users, evt, now).users;
    var id := evt.data.id;
    if id in users {
      var u := users[id];
      var p := UpdateOf(evt.data);
      assert once[id] == ApplyUpdate(u, p);
      assert ApplyUpdate(ApplyUpdate(u, p), p) == ApplyUpdate(u, p);
      assert once[id := ApplyUpdate(once[id], p)] == once;
    }
  }

  /** A delete keeps the record and changes only its deletion mark and update time. */
  lemma DeleteIsSoft(users: map<string, User>, evt: WebhookEvent, now: int)
    requires evt.eventType == "user.deleted" && evt.data.id in users
    ensures var r := Webhook(users, evt, now);
            var before, after := users[evt.data.id], r.users[evt.data.id];
            r.status == StatusOk && r.users.Keys == users.Keys
            && after.deletedAt == Some(now) && after.updatedAt == now
            && after == before.(deletedAt := Some(now), updatedAt := now)
  {
  }

  /** A delete for a provider id the table does not know fails, and nothing changes. */
  lemma DeleteUnknownFails(users: map<string, User>, evt: WebhookEvent, now: int)
    requires evt.eventType == "user.deleted" && evt.data.id !in users
    ensures Webhook(users, evt, now) == Outcome(users, StatusBadRequest)
  {
  }

  // ---------------------------------------------------------------------------
  // The table, updated in place

  /** The user table, keyed by the provider's user id. */
  class UserStore {
    var users: map<string, User>

    ghost predicate Valid()
      reads this
    {
      KeyedByClerkId(users)
    }

    constructor ()
      ensures Valid() && users == map[]
    {
      users := map[];
    }

    /** `handleUserCreated`: inserts the new record, or fails on a duplicate provider id. */
    method HandleUserCreated(data: ClerkUser) returns (ok: bool)
      requires Valid()
      modifies this
      ensures Valid()
      ensures ok <==> data.id !in old(users)
      ensures users == if ok then old(users)[data.id := NewUser(data)] else old(users)
    {
      if data.id in users {
        ok := false;
      } else {
        users := users[data.id := NewUser(data)];
        ok := true;
      }
    }

    /** `handleUserUpdated`: overwrites the record's fields, or fails when there is none. */
    method HandleUserUpdated(data: ClerkUser) returns (ok: bool)
      requires Valid()
      modifies this
      ensures Valid()
      ensures ok <==> data.id in old(users)
      ensures users == if ok then old(users)[data.id := ApplyUpdate(old(users)[data.id], UpdateOf(data))]
                       else old(users)
    {
      if data.id in users {
        var updatePayload := UpdateOf(data);
        users := users[data.id := ApplyUpdate(users[data.id], updatePayload)];
        ok := true;
      } else {
        ok := false;
      }
    }

    /** `handleUserDeleted`: marks the record deleted at `now`, or fails when there is none. */
    method HandleUserDeleted(data: ClerkUser, now: int) returns (ok: bool)
      requires Valid()
      modifies this
      ensures Valid()
      ensures ok <==> data.id in old(users)
      ensures users == if ok then old(users)[data.id := SoftDelete(old(users)[data.id], now)]
                       else old(users)
    {
      if data.id in users {
        users := users[data.id := SoftDelete(users[data.id], now)];
        ok := true;
      } else {
        ok := false;
      }
    }

    /** `handleWebhookCallback`: dispatches on the event type and maps failure to 400. */
    method HandleWebhookCallback(evt: WebhookEvent, now: int) returns (status: int)
      requires Valid()
      modifies this
      ensures Valid()
      ensures Outcome(users, status) == Webhook(old(users), evt, now)
    {
      var ok := true;
      if evt.eventType == "user.created" {
        ok := HandleUserCreated(evt.data);
      } else if evt.eventType == "user.updated" {
        ok := HandleUserUpdated(evt.data);
      } else if evt.eventType == "user.deleted" {
        ok := HandleUserDeleted(evt.data, now);
      }
      status := if ok then StatusOk else StatusBadRequest;
    }
  }
}
