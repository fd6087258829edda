/** The account actions of controllers/adminController.js: deciding a
    worker's verification and blocking or unblocking an account. The admin
    role itself is checked by the route's guard, not here. */
module AdminController {
  import opened Common
  import opened Constants
  import opened UserModel
  import opened Store

  /** The worker record after a verification decision: `approve` verifies,
      `reject` rejects and leaves isVerified as it was, anything else
      changes nothing. */
  function Decided(u: User, action: string): (v: User)
    ensures action == "approve" ==> v == u.(verificationStatus := Verified, isVerified := true)
    ensures action == "reject" ==> v == u.(verificationStatus := VerificationRejected)
    ensures action != "approve" && action != "reject" ==> v == u
  {
    if action == "approve" then u.(verificationStatus := Verified, isVerified := true)
    else if action == "reject" then u.(verificationStatus := VerificationRejected)
    else u
  }

  /** The message `verifyWorker` answers with: "verified" for `approve`,
      "rejected" for every other action, including one that changed nothing. */
  function VerifyMessage(action: string): (m: string)
    ensures m == "Worker verified successfully" <==> action == "approve"
  {
    if action == "approve" then "Worker verified successfully"
    else assert "Worker rejected successfully"[7] == 'r'; "Worker rejected successfully"
  }

  /** `verifyWorker`: 404 unless the user exists and is a worker; 500 when
      the save's validation refuses the stored availability; otherwise the
      decision is saved and success reported. */
  method VerifyWorker(db: Database, id: Id, action: string) returns (resp: Response, message: string)
    requires db.Valid()
    modifies db
    ensures db.Valid()
    ensures id !in old(db.users) || old(db.users)[id].role != Worker ==>
      resp == NotFound && db.Snapshot() == old(db.Snapshot())
    ensures id in old(db.users) && old(db.users)[id].role == Worker && !AvailabilityValid(old(db.users)[id]) ==>
      resp == ServerError && db.Snapshot() == old(db.Snapshot())
    ensures id in old(db.users) && old(db.users)[id].role == Worker && AvailabilityValid(old(db.users)[id]) ==>
      && resp == Ok && message == VerifyMessage(action)
      && db.Snapshot() == old(db.Snapshot()).(users := old(db.users)[id := Decided(old(db.users)[id], action)])
  {
    if id !in db.users || db.users[id].role != Worker {
      return NotFound, "Worker not found";
    }
    var worker := db.users[id];
    if !AvailabilityValid(worker) {
      return ServerError, "Failed to update worker status";
    }
    db.SaveUser(Decided(worker, action));
    return Ok, VerifyMessage(action);
  }

  /** An unknown action reports a rejection although the record is untouched. */
  lemma UnknownActionReportsRejection(u: User, action: string)
    requires action != "approve" && action != "reject"
    ensures Decided(u, action) == u
    ensures VerifyMessage(action) == "Worker rejected successfully"
  {
  }

  /** Rejecting an approved worker leaves isVerified true. */
  lemma RejectKeepsVerifiedFlag(u: User)
    ensures Decided(Decided(u, "approve"), "reject").isVerified
    ensures Decided(Decided(u, "approve"), "reject").verificationStatus == VerificationRejected
  {
  }

  function Toggled(u: User): (v: User)
    ensures v.isActive == !u.isActive
    ensures v.(isActive := u.isActive) == u
  {
    u.(isActive := !u.isActive)
  }

  /** `toggleUserStatus`: 404 for an unknown id; 500 when the save's
      validation refuses the stored availability; otherwise isActive is
      flipped, saved and reported. */
  method ToggleUserStatus(db: Database, id: Id) returns (resp: Response, isActive: Option<bool>)
    requires db.Valid()
    modifies db
    ensures db.Valid()
    ensures id !in old(db.users) ==> resp == NotFound && isActive.None? && db.Snapshot() == old(db.Snapshot())
    ensures id in old(db.users) && !AvailabilityValid(old(db.users)[id]) ==>
      resp == ServerError && isActive.None? && db.Snapshot() == old(db.Snapshot())
    ensures id in old(db.users) && AvailabilityValid(old(db.users)[id]) ==>
      && resp == Ok && isActive == Some(!old(db.users)[id].isActive)
      && db.Snapshot() == old(db.Snapshot()).(users := old(db.users)[id := Toggled(old(db.users)[id])])
  {
    if id !in db.users {
      return NotFound, None;
    }
    var user := db.users[id];
    if !AvailabilityValid(user) {
      return ServerError, None;
    }
    user := user.(isActive := !user.isActive);
    db.SaveUser(user);
    return Ok, Some(user.isActive);
  }

  /** Toggling the same account twice restores the store exactly. */
  lemma ToggleTwiceRestores(s: State, id: Id)
    requires id in s.users
    ensures var s1 := s.(users := s.users[id := Toggled(s.users[id])]);
      s1.(users := s1.users[id := Toggled(s1.users[id])]) == s
  {
    var s1 := s.(users := s.users[id := Toggled(s.users[id])]);
    assert Toggled(s1.users[id]) == s.users[id];
    assert s1.users[id := Toggled(s1.users[id])] == s.users;
  }
}
