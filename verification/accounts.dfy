/** Account maintenance: the profile-update and change-password routes under
    `/api/auth`, and the one-off script that seeds the administrator account.

    The image store is an `Upload` outcome supplied by the caller. The stored
    password is the injective `Hashed` abstraction of the model's pre-save
    hashing hook, so "the old password matches" is equality of hashes. */
module Accounts {
  import opened Models

  const ProfileFailed := "Failed to update user profile"

  /** `PUT /update/:id`: the image (if a file came) is uploaded first; then
      `findByIdAndUpdate(id, { name, email, address, profileImage? })` with
      absent body fields stripped. The reply is `{ user }`, null for an
      unknown id. */
  function UpdateProfile(db: Db, id: Id, name: Option<string>, email: Option<string>,
                         address: Option<string>, image: Upload): (r: Outcome<Option<User>>)
    ensures image.UploadFailed? ==> r == Outcome(db, Response(500, Message(ProfileFailed)))
    ensures !image.UploadFailed? && id !in UserIds(db.users) ==> r == Outcome(db, Response(200, Json(None)))
    ensures !image.UploadFailed? && id in UserIds(db.users) ==>
      && r.response.status == 200 && r.response.body.Json? && r.response.body.value.Some?
      && r.db.products == db.products && r.db.carts == db.carts && r.db.orders == db.orders
      && (exists i :: 0 <= i < |db.users| && db.users[i].id == id &&
            var (u, u') := (db.users[i], r.response.body.value.value);
            && r.db.users == db.users[i := u']
            && u'.name == (if name.Some? then name.value else u.name)
            && u'.email == (if email.Some? then email.value else u.email)
            && u'.address == (if address.Some? then address else u.address)
            && u'.profileImage == (if image.Uploaded? then Some(image.url) else u.profileImage)
            && u'.id == u.id && u'.password == u.password && u'.isAdmin == u.isAdmin)
  {
    if image.UploadFailed? then Outcome(db, Response(500, Message(ProfileFailed)))
    else
      match FindIndex(UserIds(db.users), id)
      case None => Outcome(db, Response(200, Json(None)))
      case Some(i) =>
        var u := db.users[i];
        var u' := u.(name := Overwrite(name, u.name),
                     email := Overwrite(email, u.email),
                     address := if address.Some? then address else u.address,
                     profileImage := if image.Uploaded? then Some(image.url) else u.profileImage);
        Outcome(db.(users := db.users[i := u']), Response(200, Json(Some(u'))))
  }

  /** The saved profile is the one read back by its id. */
  lemma UpdateProfileReadBack(db: Db, id: Id, name: Option<string>, email: Option<string>,
                              address: Option<string>, image: Upload)
    requires !image.UploadFailed? && id in UserIds(db.users)
    ensures var r := UpdateProfile(db, id, name, email, address, image);
            FindUser(r.db.users, id) == r.response.body.value
  {
    var i := FindIndex(UserIds(db.users), id).value;
    var r := UpdateProfile(db, id, name, email, address, image);
    assert UserIds(r.db.users) == UserIds(db.users);
  }

  const PasswordChanged := "Password changed successfully"
  const PasswordError := "Error updating password"

  /** `PUT /change-password/:id`. The hash comparison rejects an absent old
      password by throwing, and saving an absent new password fails; both
      land in the route's catch. */
  function ChangePassword(db: Db, id: Id, oldPassword: Option<string>, newPassword: Option<string>): (r: Outcome<()>)
    ensures id !in UserIds(db.users) ==> r == Outcome(db, Response(404, Message("User not found")))
    ensures id in UserIds(db.users) && oldPassword.None? ==> r == Outcome(db, Response(500, Message(PasswordError)))
    ensures id in UserIds(db.users) && oldPassword.Some? &&
            db.users[FindIndex(UserIds(db.users), id).value].password != Hashed(oldPassword.value) ==>
      r == Outcome(db, Response(400, Message("Incorrect old password")))
    ensures id in UserIds(db.users) && oldPassword.Some? && newPassword.None? &&
            db.users[FindIndex(UserIds(db.users), id).value].password == Hashed(oldPassword.value) ==>
      r == Outcome(db, Response(500, Message(PasswordError)))
    ensures r.response.status != 200 ==> r.db == db
    ensures r.response.status == 200 <==>
      && oldPassword.Some? && newPassword.Some?
      && exists i :: 0 <= i < |db.users| && db.users[i].id == id &&
           (forall j :: 0 <= j < i ==> db.users[j].id != id) &&
           db.users[i].password == Hashed(oldPassword.value)
    ensures r.response.status == 200 ==>
      && r.response.body == Message(PasswordChanged)
      && r.db.products == db.products && r.db.carts == db.carts && r.db.orders == db.orders
      && (exists i :: 0 <= i < |db.users| && db.users[i].id == id &&
            r.db.users == db.users[i := db.users[i].(password := Hashed(newPassword.value))])
    ensures r.response.status in {200, 400, 404, 500}
  {
    match FindIndex(UserIds(db.users), id)
    case None => Outcome(db, Response(404, Message("User not found")))
    case Some(i) =>
      var u := db.users[i];
      if oldPassword.None? then Outcome(db, Response(500, Message(PasswordError)))
      else if u.password != Hashed(oldPassword.value) then
        Outcome(db, Response(400, Message("Incorrect old password")))
      else if newPassword.None? then Outcome(db, Response(500, Message(PasswordError)))
      else
        var u' := u.(password := Hashed(newPassword.value));
        Outcome(db.(users := db.users[i := u']), Response(200, Message(PasswordChanged)))
  }

  /** After a successful change, the new password is the one accepted: a
      further change quoting the new password succeeds, and one quoting the
      previous password is refused unless the two are equal. */
  lemma {:induction false} ChangePasswordTakesEffect(db: Db, id: Id, previous: string, next: string,
                                                     quoted: string, after: string)
    requires ChangePassword(db, id, Some(previous), Some(next)).response.status == 200
    ensures var db' := ChangePassword(db, id, Some(previous), Some(next)).db;
            var r := ChangePassword(db', id, Some(quoted), Some(after));
            r.response.status == 200 <==> quoted == next
  {
    var db' := ChangePassword(db, id, Some(previous), Some(next)).db;
    var i :| 0 <= i < |db.users| && db.users[i].id == id &&
             (forall j :: 0 <= j < i ==> db.users[j].id != id) &&
             db.users[i].password == Hashed(previous);
    assert db'.users == db.users[i := db.users[i].(password := Hashed(next))] by {
      assert FindIndex(UserIds(db.users), id) == Some(i) by {
        var k := FindIndex(UserIds(db.users), id);
        assert UserIds(db.users)[i] == id;
        assert k.Some?;
        assert UserIds(db.users)[k.value] == id;
        assert !(k.value < i);
        assert !(i < k.value) by { assert UserIds(db.users)[i] == db.users[i].id; }
      }
    }
    assert FindIndex(UserIds(db'.users), id) == Some(i) by {
      var k := FindIndex(UserIds(db'.users), id);
      assert UserIds(db'.users)[i] == id;
      assert k.Some?;
      assert UserIds(db'.users)[k.value] == db.users[k.value].id;
      assert !(k.value < i);
      assert !(i < k.value) by { assert UserIds(db'.users)[i] == db'.users[i].id; }
    }
  }

  // ---------------------------------------------------------------------
  // Administrator seeding script
  // ---------------------------------------------------------------------

  const AdminEmail := "admin@printpeak.com"

  /** The account the script creates; the password is hashed on save. */
  function SeededAdmin(newId: Id): User
  {
    User(newId, "Admin", AdminEmail, Hashed("admin123"), None, None, true)
  }

  predicate HasEmail(users: seq<User>, email: string)
  {
    exists i :: 0 <= i < |users| && users[i].email == email
  }

  function EmailCount(users: seq<User>, email: string): nat
  {
    if |users| == 0 then 0
    else (if users[0].email == email then 1 else 0) + EmailCount(users[1..], email)
  }

  /** `findOne({ email: 'admin@printpeak.com' })`; when absent, save the
      seeded administrator. An existing account with that address is left
      as it is, whatever its admin flag. */
  function CreateAdmin(db: Db, newId: Id): (r: Db)
    ensures HasEmail(db.users, AdminEmail) ==> r == db
    ensures !HasEmail(db.users, AdminEmail) ==> r == db.(users := db.users + [SeededAdmin(newId)])
    ensures HasEmail(r.users, AdminEmail)
  {
    if HasEmail(db.users, AdminEmail) then db
    else
      var users := db.users + [SeededAdmin(newId)];
      assert users[|db.users|].email == AdminEmail;
      db.(users := users)
  }

  /** Running the script twice is the same as running it once. */
  lemma CreateAdminIdempotent(db: Db, id1: Id, id2: Id)
    ensures CreateAdmin(CreateAdmin(db, id1), id2) == CreateAdmin(db, id1)
  {
  }

  lemma {:induction false} EmailCountAppend(a: seq<User>, b: seq<User>, email: string)
    ensures EmailCount(a + b, email) == EmailCount(a, email) + EmailCount(b, email)
  {
    if |a| > 0 {
      assert (a + b)[1..] == a[1..] + b;
      EmailCountAppend(a[1..], b, email);
    } else {
      assert a + b == b;
    }
  }

  lemma {:induction false} EmailCountZero(users: seq<User>, email: string)
    ensures EmailCount(users, email) == 0 <==> !HasEmail(users, email)
  {
    if |users| > 0 {
      EmailCountZero(users[1..], email);
      if HasEmail(users[1..], email) {
        var k :| 0 <= k < |users[1..]| && users[1..][k].email == email;
        assert users[k + 1].email == email;
      }
      if HasEmail(users, email) && users[0].email != email {
        var k :| 0 <= k < |users| && users[k].email == email;
        assert users[1..][k - 1].email == email;
      }
    }
  }

  /** The script never produces a second account with the administrator's
      address: with none it creates exactly one, otherwise the count stays. */
  lemma CreateAdminCount(db: Db, newId: Id)
    ensures var before := EmailCount(db.users, AdminEmail);
            EmailCount(CreateAdmin(db, newId).users, AdminEmail) == if before == 0 then 1 else before
  {
    EmailCountZero(db.users, AdminEmail);
    EmailCountAppend(db.users, [SeededAdmin(newId)], AdminEmail);
    assert EmailCount([SeededAdmin(newId)], AdminEmail) == 1 by {
      assert [SeededAdmin(newId)][1..] == [];
    }
  }
}
