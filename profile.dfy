/**
 * The profile page (src/app/profile/page.tsx): the schema for a new name and an optional
 * new password, and the update it sends for the signed-in user.
 */
module Profile {
  import opened Types
  import opened Storage
  import opened Auth

  /** The form's values; an untouched password field is `None` or the empty string. */
  datatype ProfileValues = ProfileValues(name: string, password: Option<string>)

  datatype ProfileField = NameField | PasswordField

  /** `!data.password`: no password, or the empty one. */
  predicate Blank(p: Option<string>) {
    p.None? || p.value == ""
  }

  /**
   * All messages the resolver reports: a failed length check does not abort the object
   * parse, so the password rule is checked whatever the name is.
   */
  function ProfileErrors(v: ProfileValues): (e: set<ProfileField>)
    ensures NameField in e <==> |v.name| < 2
    ensures PasswordField in e <==> !Blank(v.password) && |v.password.value| < 6
  {
    (if |v.name| < 2 then {NameField} else {})
    + (if Blank(v.password) || |v.password.value| >= 6 then {} else {PasswordField})
  }

  /** A change is accepted iff the name has two characters and the password is blank or has six. */
  predicate ProfileValid(v: ProfileValues)
    ensures ProfileValid(v) <==> |v.name| >= 2 && (Blank(v.password) || |v.password.value| >= 6)
  {
    var e := ProfileErrors(v);
    assert e != {} ==> NameField in e || PasswordField in e by {
      if e != {} {
        var f :| f in e;
        assert f.NameField? || f.PasswordField?;
      }
    }
    e == {}
  }

  /** A short password is refused on the password field only. */
  lemma ShortPasswordRefused(name: string, password: string)
    requires |name| >= 2 && 0 < |password| < 6
    ensures ProfileErrors(ProfileValues(name, Some(password))) == {PasswordField}
  {
  }

  /** A short name does not hide a short password: both messages are reported. */
  lemma ShortNameAndPasswordRefused(name: string, password: string)
    requires |name| < 2 && 0 < |password| < 6
    ensures ProfileErrors(ProfileValues(name, Some(password))) == {NameField, PasswordField}
  {
  }

  /**
   * `updateData`: always the name, the password only when one was typed, and never
   * the email.
   */
  method BuildUpdate(v: ProfileValues) returns (p: Patch)
    ensures p.name == Some(v.name)
    ensures p.email.None?
    ensures p.password.Some? <==> !Blank(v.password)
    ensures p.password.Some? ==> p.password == v.password
  {
    p := Patch(Some(v.name), None, None);
    if !Blank(v.password) {
      p := p.(password := v.password);
    }
  }

  datatype ProfileToast = Updated | UpdateFailed

  /** The page once `useRequireAuth` holds a user: that user and the form's values. */
  class ProfilePage {
    const user: User
    var form: ProfileValues

    /** The form starts from the user's name and a blank password. */
    constructor (user: User)
      ensures this.user == user && form == ProfileValues(user.name, Some(""))
    {
      this.user := user;
      form := ProfileValues(user.name, Some(""));
    }

    /**
     * `form.handleSubmit(onSubmit)`. An invalid form reports its errors and sends
     * nothing. A valid one updates the signed-in user's own record; success is reported
     * iff `updateUser` found the record, and then the form shows the new name and a
     * blank password. When the record is missing, `updateUser`'s own alert fires before
     * the failure toast.
     */
    method Submit(store: Store, v: ProfileValues)
      returns (toast: Option<ProfileToast>, alert: Option<Notice>, errors: set<ProfileField>)
      requires store.Valid()
      modifies this, store
      ensures store.Valid()
      ensures !ProfileValid(v) ==>
        && toast.None? && alert.None? && errors == ProfileErrors(v)
        && store.entries == old(store.entries) && form == old(form)
      ensures ProfileValid(v) ==> errors == {} && toast.Some?
      ensures
        var before := Directory(old(store.entries));
        var i := FindIndex(before, ById(user.id));
        ProfileValid(v) ==>
          && (toast == Some(Updated) <==> 0 <= i)
          && (alert == Some(UserNotFound) <==> i == -1)
          && (0 <= i ==> alert.None?)
          && (i == -1 ==> store.entries == Seeded(old(store.entries)) && form == old(form))
          && (0 <= i ==>
                && form == ProfileValues(v.name, Some(""))
                && |Directory(store.entries)| == |before|
                && (forall j :: 0 <= j < |before| && j != i ==> Directory(store.entries)[j] == before[j])
                && Directory(store.entries)[i].name == v.name
                && Directory(store.entries)[i].email == before[i].email
                && Directory(store.entries)[i].id == before[i].id
                && Directory(store.entries)[i].isAdmin == before[i].isAdmin
                && Directory(store.entries)[i].password ==
                     (if Blank(v.password) then before[i].password else v.password)
                && (var session := Session(old(store.entries));
                    var m := old(store.entries)[UsersKey := UserList(Directory(store.entries))];
                    store.entries ==
                      if session.Some? && session.value.id == user.id
                      then m[CurrentUserKey := UserRecord(Directory(store.entries)[i])]
                      else m))
    {
      errors := ProfileErrors(v);
      if errors != {} {
        return None, None, errors;
      }
      var updateData := BuildUpdate(v);
      var updated;
      updated, alert := UpdateUser(store, user.id, updateData);
      if updated.Some? {
        toast := Some(Updated);
        form := ProfileValues(updated.value.name, Some(""));
      } else {
        toast := Some(UpdateFailed);
      }
    }
  }
}
