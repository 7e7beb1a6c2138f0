/**
 * `POST /api/groups/invite` (src/app/api/groups/invite/route.ts): a group
 * member invites someone by phone number. The invitee is looked up by the
 * normalised number, created with a default list when unknown, added to the
 * group and texted. The session, the request body and the database are
 * inputs; the writes and the text message are returned as effects.
 */
module GroupInvite {
  import opened Wrappers
  import opened Strings
  import opened Json
  import opened PhoneAuth

  /**
   * The route's own `normalizePhoneNumber`. Its branch for input that
   * already starts with `+` gives what the default does, so it agrees with
   * `formatPhoneNumber` of src/lib/auth.ts on every input.
   */
  function NormalizePhoneNumber(phone: string): (r: string)
    ensures r == FormatPhoneNumber(phone)
  {
    var digits := Digits(phone);
    if |digits| == 11 && StartsWith(digits, "1") then "+" + digits
    else if |digits| == 10 then "+1" + digits
    else if StartsWith(phone, "+") then "+" + digits
    else "+" + digits
  }

  /** The signed-in user. */
  datatype Inviter = Inviter(id: string, displayName: string)

  /** A user found by phone number, with its default group and default list (if any). */
  datatype Invitee = Invitee(id: string, defaultGroupId: Option<string>, defaultListId: Option<string>)

  /**
   * The database as the handler reads it: the name of the group of a
   * `(userId, groupId)` membership when there is one, the user with a phone
   * number, and the ids it assigns to a new user and a new list.
   */
  datatype Db = Db(membership: (string, string) -> Option<string>,
                   userByPhone: string -> Option<Invitee>,
                   newUserId: string, newListId: string)

  /** The writes of the transaction and the text message, in order. */
  datatype Effect =
    | CreateUser(phoneNumber: string, listId: string)
    | CreateList(userId: string, listId: string)
    | AddMember(userId: string, groupId: string, listId: string, role: string)
    | SetDefaultGroup(userId: string, groupId: string)
    | SendSms(to: string, text: string)

  datatype Reply = Failure(status: int, error: string) | Success(message: string)

  datatype Outcome = Outcome(reply: Reply, effects: seq<Effect>)

  /** What the outer `catch` answers when a step throws. */
  const Crash := Outcome(Failure(500, "Failed to invite user"), [])

  const MissingFields := Outcome(Failure(400, "Group ID and phone number are required"), [])

  const InvalidNumber := Outcome(Failure(400, "Invalid phone number format"), [])

  /** `process.env.NEXT_PUBLIC_APP_URL || "https://groupgiftlist.com"` */
  function AppUrl(env: Option<string>): (r: string)
    ensures r != []
    ensures Present(env) ==> r == env.value
  {
    if Present(env) then env.value else "https://groupgiftlist.com"
  }

  /** `user.displayName || "Someone"` */
  function InviterName(user: Inviter): (r: string)
    ensures r != []
    ensures user.displayName != [] ==> r == user.displayName
  {
    if user.displayName != [] then user.displayName else "Someone"
  }

  const InvitedYou := " invited you to \""
  const AddedYou := " added you to \""
  const OnTheApp := "\" on Group Gift List!"
  const SignUpPitch := " Create your wishlist and share gift ideas with family and friends. Get started: "
  const ViewPitch := " View the group: "

  /** The invitation text: an unknown invitee is asked to sign up, a known one pointed at the groups page. */
  function InviteText(inviterName: string, groupName: string, appUrl: string, isNewUser: bool): string {
    if isNewUser then inviterName + InvitedYou + groupName + OnTheApp + SignUpPitch + appUrl
    else inviterName + AddedYou + groupName + OnTheApp + ViewPitch + appUrl + "/groups"
  }

  function SuccessMessage(isNewUser: bool): string {
    if isNewUser then "Invitation sent! They'll receive a text to set up their account."
    else "User added to the group and notified."
  }

  /**
   * The transaction: create the invitee (with a default list) when unknown,
   * create a default list when missing, add the membership, and set the
   * group as default when the invitee has none.
   */
  function Enrolment(invitee: Option<Invitee>, phone: string, groupId: string, db: Db): seq<Effect> {
    var (created, userId, defaultGroupId, defaultListId) :=
      match invitee
      case None => ([CreateUser(phone, db.newListId)], db.newUserId, None, Some(db.newListId))
      case Some(u) => ([], u.id, u.defaultGroupId, u.defaultListId);
    var (listCreated, listId) :=
      if defaultListId.None? then ([CreateList(userId, db.newListId)], db.newListId)
      else ([], defaultListId.value);
    created + listCreated + [AddMember(userId, groupId, listId, "MEMBER")]
    + (if !Present(defaultGroupId) then [SetDefaultGroup(userId, groupId)] else [])
  }

  /**
   * The handler as a value. `session` is `getSession()`, `body` what
   * `request.json()` gives (None when it throws). Destructuring `null`, a
   * phone number without `replace` and a group id the database rejects all
   * throw into the outer `catch`.
   */
  function InviteOf(session: Option<Inviter>, body: Option<Json>, db: Db, appUrl: Option<string>): Outcome {
    if session.None? then Outcome(Failure(401, "Unauthorized"), [])
    else if body.None? || body.value.Null? then Crash
    else
      var groupId := Get(body.value, "groupId");
      var phoneNumber := Get(body.value, "phoneNumber");
      if !TruthyOpt(groupId) || !TruthyOpt(phoneNumber) then MissingFields
      else if !phoneNumber.value.Str? then Crash
      else
        var phone := NormalizePhoneNumber(phoneNumber.value.s);
        if !E164Shape(phone) then InvalidNumber
        else if !groupId.value.Str? then Crash
        else Admission(session.value, groupId.value.s, phone, db, appUrl)
  }

  /** From the inviter's membership check on, for a well-formed request. */
  function Admission(user: Inviter, groupId: string, phone: string, db: Db, appUrl: Option<string>): Outcome {
    var groupName := db.membership(user.id, groupId);
    var invitee := db.userByPhone(phone);
    if groupName.None? then Outcome(Failure(403, "You are not a member of this group"), [])
    else if invitee.Some? && db.membership(invitee.value.id, groupId).Some? then
      Outcome(Failure(400, "This person is already a member of the group"), [])
    else
      var isNewUser := invitee.None?;
      Outcome(Success(SuccessMessage(isNewUser)),
              Enrolment(invitee, phone, groupId, db)
              + [SendSms(phone, InviteText(InviterName(user), groupName.value, AppUrl(appUrl), isNewUser))])
  }

  /** `POST /api/groups/invite` */
  method InvitePost(session: Option<Inviter>, body: Option<Json>, db: Db, appUrl: Option<string>)
    returns (out: Outcome)
    ensures out == InviteOf(session, body, db, appUrl)
  {
    if session.None? {
      return Outcome(Failure(401, "Unauthorized"), []);
    }
    var user := session.value;
    if body.None? || body.value.Null? {
      return Crash;
    }
    var groupId := Get(body.value, "groupId");
    var phoneNumber := Get(body.value, "phoneNumber");
    if !TruthyOpt(groupId) || !TruthyOpt(phoneNumber) {
      return MissingFields;
    }
    if !phoneNumber.value.Str? {
      return Crash;
    }
    var normalizedPhone := NormalizePhoneNumber(phoneNumber.value.s);
    if !E164Shape(normalizedPhone) {
      return InvalidNumber;
    }
    if !groupId.value.Str? {
      return Crash;
    }
    out := Admit(user, groupId.value.s, normalizedPhone, db, appUrl);
  }

  /** The handler from the inviter's membership check on: the database reads, the transaction and the text. */
  method Admit(user: Inviter, groupId: string, normalizedPhone: string, db: Db, appUrl: Option<string>)
    returns (out: Outcome)
    ensures out == Admission(user, groupId, normalizedPhone, db, appUrl)
  {
    var membership := db.membership(user.id, groupId);
    if membership.None? {
      return Outcome(Failure(403, "You are not a member of this group"), []);
    }
    var invitedUser := db.userByPhone(normalizedPhone);
    if invitedUser.Some? {
      var existingMembership := db.membership(invitedUser.value.id, groupId);
      if existingMembership.Some? {
        return Outcome(Failure(400, "This person is already a member of the group"), []);
      }
    }
    var effects := AddToGroup(invitedUser, normalizedPhone, groupId, db);
    var isNewUser := invitedUser.None?;
    var message: string;
    if isNewUser {
      message := InviterName(user) + InvitedYou + membership.value + OnTheApp + SignUpPitch + AppUrl(appUrl);
    } else {
      message := InviterName(user) + AddedYou + membership.value + OnTheApp + ViewPitch + AppUrl(appUrl) + "/groups";
    }
    assert message == InviteText(InviterName(user), membership.value, AppUrl(appUrl), isNewUser);
    effects := effects + [SendSms(normalizedPhone, message)];
    out := Outcome(Success(SuccessMessage(isNewUser)), effects);
  }

  /** The transaction, reassigning the target user and the default list as the source does. */
  method AddToGroup(invitedUser: Option<Invitee>, normalizedPhone: string, groupId: string, db: Db)
    returns (effects: seq<Effect>)
    ensures effects == Enrolment(invitedUser, normalizedPhone, groupId, db)
  {
    effects := [];
    var targetId: string;
    var targetDefaultGroup: Option<string>;
    var defaultList: Option<string>;
    if invitedUser.Some? {
      targetId, targetDefaultGroup := invitedUser.value.id, invitedUser.value.defaultGroupId;
      defaultList := invitedUser.value.defaultListId;
    } else {
      effects := effects + [CreateUser(normalizedPhone, db.newListId)];
      targetId, targetDefaultGroup := db.newUserId, None;
      defaultList := Some(db.newListId);
    }
    if defaultList.None? {
      effects := effects + [CreateList(targetId, db.newListId)];
      defaultList := Some(db.newListId);
    }
    effects := effects + [AddMember(targetId, groupId, defaultList.value, "MEMBER")];
    if !Present(targetDefaultGroup) {
      effects := effects + [SetDefaultGroup(targetId, groupId)];
    }
  }

  // ---------------------------------------------------------------------------
  // What the handler guarantees

  /** The number an accepted request is normalised to. */
  function PhoneOf(body: Option<Json>): string
    requires body.Some? && Get(body.value, "phoneNumber").Some? && Get(body.value, "phoneNumber").value.Str?
  {
    NormalizePhoneNumber(Get(body.value, "phoneNumber").value.s)
  }

  /**
   * The checks come in the source's order, each rejecting with nothing
   * written or sent and before the database is consulted: no session (401),
   * a missing group id or phone number (400), a number that does not
   * normalise to `+` and 10 to 15 digits (400).
   */
  lemma EarlyRejections(session: Option<Inviter>, body: Option<Json>, db: Db, db2: Db, appUrl: Option<string>)
    ensures session.None? ==> InviteOf(session, body, db, appUrl) == Outcome(Failure(401, "Unauthorized"), [])
    ensures session.Some? && body.Some? && !body.value.Null?
            && (!TruthyOpt(Get(body.value, "groupId")) || !TruthyOpt(Get(body.value, "phoneNumber")))
            ==> InviteOf(session, body, db, appUrl) == MissingFields
    ensures session.Some? && body.Some? && TruthyOpt(Get(body.value, "groupId"))
            && TruthyOpt(Get(body.value, "phoneNumber")) && Get(body.value, "phoneNumber").value.Str?
            && !(10 <= |Digits(Get(body.value, "phoneNumber").value.s)| <= 15)
            ==> InviteOf(session, body, db, appUrl) == InvalidNumber
    ensures InviteOf(session, body, db, appUrl).reply.Failure?
            && InviteOf(session, body, db, appUrl).reply.status in {400, 401, 500}
            && InviteOf(session, body, db, appUrl).reply.error != "This person is already a member of the group"
            ==> InviteOf(session, body, db2, appUrl) == InviteOf(session, body, db, appUrl)
  {
    if session.Some? && body.Some? && TruthyOpt(Get(body.value, "groupId"))
       && TruthyOpt(Get(body.value, "phoneNumber")) && Get(body.value, "phoneNumber").value.Str? {
      ValidIff(Get(body.value, "phoneNumber").value.s);
    }
  }

  /** An inviter who is not in the group is refused with 403, and nothing is written. */
  lemma OutsiderForbidden(user: Inviter, groupId: string, phone: string, db: Db, appUrl: Option<string>)
    requires db.membership(user.id, groupId).None?
    ensures Admission(user, groupId, phone, db, appUrl) == Outcome(Failure(403, "You are not a member of this group"), [])
  {
  }

  /** An invitee already in the group is refused with 400: no membership is created and no text sent. */
  lemma MemberNotReadded(user: Inviter, groupId: string, phone: string, db: Db, appUrl: Option<string>)
    requires db.membership(user.id, groupId).Some?
    requires db.userByPhone(phone).Some? && db.membership(db.userByPhone(phone).value.id, groupId).Some?
    ensures var out := Admission(user, groupId, phone, db, appUrl);
      out.reply == Failure(400, "This person is already a member of the group") && out.effects == []
  {
  }

  /** How many effects of `effects` add a membership. */
  function MemberAdds(effects: seq<Effect>): (n: nat)
    ensures n <= |effects|
  {
    if effects == [] then 0 else (if effects[0].AddMember? then 1 else 0) + MemberAdds(effects[1..])
  }

  lemma {:induction false} MemberAddsAppend(a: seq<Effect>, b: seq<Effect>)
    ensures MemberAdds(a + b) == MemberAdds(a) + MemberAdds(b)
  {
    if a == [] {
      assert a + b == b;
    } else {
      assert (a + b)[1..] == a[1..] + b;
      MemberAddsAppend(a[1..], b);
    }
  }

  /**
   * `userId` is added to the group exactly once, as a `MEMBER` with some
   * list, and the group is made their default exactly when `setsDefault`.
   */
  ghost predicate EnrolsOnce(effects: seq<Effect>, userId: string, groupId: string, setsDefault: bool) {
    MemberAdds(effects) == 1
    && (exists listId :: AddMember(userId, groupId, listId, "MEMBER") in effects)
    && ((SetDefaultGroup(userId, groupId) in effects) <==> setsDefault)
  }

  /**
   * The transaction adds the target user (the invitee, or the user it
   * creates) to the group exactly once, as a `MEMBER`, with a list of
   * theirs, and makes the group their default only when they had none.
   */
  lemma EnrolmentFacts(invitee: Option<Invitee>, phone: string, groupId: string, db: Db)
    ensures EnrolsOnce(Enrolment(invitee, phone, groupId, db),
                       if invitee.Some? then invitee.value.id else db.newUserId, groupId,
                       invitee.None? || !Present(invitee.value.defaultGroupId))
  {
    var userId := if invitee.Some? then invitee.value.id else db.newUserId;
    var defaultListId := if invitee.Some? then invitee.value.defaultListId else Some(db.newListId);
    var defaultGroupId := if invitee.Some? then invitee.value.defaultGroupId else None;
    var created: seq<Effect> := if invitee.None? then [CreateUser(phone, db.newListId)] else [];
    var listCreated: seq<Effect> := if defaultListId.None? then [CreateList(userId, db.newListId)] else [];
    var listId := if defaultListId.None? then db.newListId else defaultListId.value;
    var head := created + listCreated;
    var add := [AddMember(userId, groupId, listId, "MEMBER")];
    var setDefault: seq<Effect> := if !Present(defaultGroupId) then [SetDefaultGroup(userId, groupId)] else [];
    var effects := Enrolment(invitee, phone, groupId, db);
    assert effects == head + add + setDefault;
    assert MemberAdds(head) == 0 by {
      MemberAddsAppend(created, listCreated);
    }
    MemberAddsAppend(head + add, setDefault);
    MemberAddsAppend(head, add);
    assert effects[|head|] == AddMember(userId, groupId, listId, "MEMBER");
    if SetDefaultGroup(userId, groupId) in effects {
      var k :| 0 <= k < |effects| && effects[k] == SetDefaultGroup(userId, groupId);
      assert k >= |head + add|;
    }
    if !Present(defaultGroupId) {
      assert effects[|head + add|] == SetDefaultGroup(userId, groupId);
    }
  }

  /** A text sent after the transaction changes none of what it did. */
  lemma EnrolsOnceThenText(effects: seq<Effect>, userId: string, groupId: string, setsDefault: bool, sms: Effect)
    requires EnrolsOnce(effects, userId, groupId, setsDefault) && sms.SendSms?
    ensures EnrolsOnce(effects + [sms], userId, groupId, setsDefault)
  {
    MemberAddsAppend(effects, [sms]);
    var listId :| AddMember(userId, groupId, listId, "MEMBER") in effects;
    assert AddMember(userId, groupId, listId, "MEMBER") in effects + [sms];
  }

  /** An admitted invitation is the transaction followed by the invitation text. */
  lemma Admitted(user: Inviter, groupId: string, phone: string, db: Db, appUrl: Option<string>)
    requires db.membership(user.id, groupId).Some?
    requires db.userByPhone(phone).None? || db.membership(db.userByPhone(phone).value.id, groupId).None?
    ensures var isNewUser := db.userByPhone(phone).None?;
      Admission(user, groupId, phone, db, appUrl)
      == Outcome(Success(SuccessMessage(isNewUser)),
                 Enrolment(db.userByPhone(phone), phone, groupId, db)
                 + [SendSms(phone, InviteText(InviterName(user), db.membership(user.id, groupId).value,
                                              AppUrl(appUrl), isNewUser))])
  {
  }

  /**
   * An admitted invitation performs the transaction above and ends by
   * texting the normalised number.
   */
  lemma Enrolled(user: Inviter, groupId: string, phone: string, db: Db, appUrl: Option<string>)
    requires db.membership(user.id, groupId).Some?
    requires db.userByPhone(phone).None? || db.membership(db.userByPhone(phone).value.id, groupId).None?
    ensures var out := Admission(user, groupId, phone, db, appUrl);
      var invitee := db.userByPhone(phone);
      out.reply.Success?
      && EnrolsOnce(out.effects, if invitee.Some? then invitee.value.id else db.newUserId, groupId,
                    invitee.None? || !Present(invitee.value.defaultGroupId))
      && out.effects[|out.effects| - 1].SendSms? && out.effects[|out.effects| - 1].to == phone
  {
    var invitee := db.userByPhone(phone);
    var isNewUser := invitee.None?;
    Admitted(user, groupId, phone, db, appUrl);
    var sms := SendSms(phone, InviteText(InviterName(user), db.membership(user.id, groupId).value,
                                         AppUrl(appUrl), isNewUser));
    EnrolmentFacts(invitee, phone, groupId, db);
    EnrolsOnceThenText(Enrolment(invitee, phone, groupId, db),
                       if invitee.Some? then invitee.value.id else db.newUserId, groupId,
                       invitee.None? || !Present(invitee.value.defaultGroupId), sms);
  }

  /**
   * The text and the JSON message depend only on whether the invitee was
   * unknown: an unknown one is "invited", a known one "added", and the
   * inviter is named by display name or else as "Someone".
   */
  lemma InvitationWording(user: Inviter, groupId: string, phone: string, db: Db, appUrl: Option<string>)
    requires db.membership(user.id, groupId).Some?
    requires db.userByPhone(phone).None? || db.membership(db.userByPhone(phone).value.id, groupId).None?
    ensures var out := Admission(user, groupId, phone, db, appUrl);
      var isNewUser := db.userByPhone(phone).None?;
      var name := if user.displayName == "" then "Someone" else user.displayName;
      var lead := name + (if isNewUser then InvitedYou else AddedYou)
                  + db.membership(user.id, groupId).value + OnTheApp;
      out.reply == Success(SuccessMessage(isNewUser)) && |out.effects| >= 1
      && out.effects[|out.effects| - 1] == SendSms(phone, out.effects[|out.effects| - 1].text)
      && StartsWith(out.effects[|out.effects| - 1].text, lead)
  {
    Admitted(user, groupId, phone, db, appUrl);
    TextOpening(InviterName(user), db.membership(user.id, groupId).value, AppUrl(appUrl),
                db.userByPhone(phone).None?);
  }

  /** The invitation text opens with who invited, the verb and the group's name in quotes. */
  lemma TextOpening(name: string, groupName: string, url: string, isNewUser: bool)
    ensures StartsWith(InviteText(name, groupName, url, isNewUser),
                       name + (if isNewUser then InvitedYou else AddedYou) + groupName + OnTheApp)
  {
    var lead := name + (if isNewUser then InvitedYou else AddedYou) + groupName + OnTheApp;
    var rest := if isNewUser then SignUpPitch + url else ViewPitch + url + "/groups";
    assert InviteText(name, groupName, url, isNewUser) == lead + rest;
    assert (lead + rest)[..|lead|] == lead;
  }
}
