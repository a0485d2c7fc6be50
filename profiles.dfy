/** The account record every student and teacher links to, the display-name
    format the serializers share, and the linked-user check that the student and
    teacher serializers both run before saving. */
module Profiles {
  import opened Wrappers

  /** A row of the accounts table: names, e-mail and one of the role choices. */
  datatype UserProfile = UserProfile(id: nat, firstName: string, lastName: string, email: string, role: string)

  const AdminRole: string := "admin"
  const TeacherRole: string := "teacher"
  const StudentRole: string := "student"

  /** The display name `f"{first_name} {last_name}"`. */
  function FullName(u: UserProfile): (r: string)
    ensures |r| == |u.firstName| + 1 + |u.lastName|
  {
    u.firstName + " " + u.lastName
  }

  /** Splits a display name at its first space: the inverse of `FullName`
      for first names without a space. */
  function SplitAtFirstSpace(s: string): (parts: (string, string))
  {
    if s == [] then ("", "")
    else if s[0] == ' ' then ("", s[1..])
    else var rest := SplitAtFirstSpace(s[1..]); ([s[0]] + rest.0, rest.1)
  }

  /** A display name is the first name, one space, then the last name:
      the first name and last name can be read back from it. */
  lemma {:induction false} FullNameRoundTrip(u: UserProfile)
    requires ' ' !in u.firstName
    ensures SplitAtFirstSpace(FullName(u)) == (u.firstName, u.lastName)
  {
    SplitRoundTrip(u.firstName, u.lastName);
  }

  lemma {:induction false} SplitRoundTrip(first: string, last: string)
    requires ' ' !in first
    ensures SplitAtFirstSpace(first + " " + last) == (first, last)
  {
    if first == [] {
      assert first + " " + last == [' '] + last;
    } else {
      assert (first + " " + last)[1..] == first[1..] + " " + last;
      SplitRoundTrip(first[1..], last);
      assert first == [first[0]] + first[1..];
    }
  }

  /** The `user` value of the request body, as `initial_data.get("user")` sees it:
      absent or null, the empty string, or a numeric id. */
  datatype UserField = Missing | Empty | Id(n: int)

  /** Python truthiness of the field: `None`, `""` and `0` are false. */
  predicate IsGiven(f: UserField)
  {
    f.Id? && f.n != 0
  }

  const UserRequired: string := "User field is required."
  const UserNotFound: string := "User does not exist."

  /** The check in `validate`: the user field must be given, must name an existing
      profile, and that profile must hold the required role; otherwise the first
      failing check raises its message. On success `data` is returned unchanged. */
  function ValidateLinkedUser<D>(data: D, user: UserField, profiles: map<int, UserProfile>,
                                 role: string, roleError: string): (r: Result<D, string>)
    ensures !IsGiven(user) ==> r == Failure(UserRequired)
    ensures IsGiven(user) && user.n !in profiles ==> r == Failure(UserNotFound)
    ensures IsGiven(user) && user.n in profiles && profiles[user.n].role != role
            ==> r == Failure(roleError)
    ensures r.Success? <==> IsGiven(user) && user.n in profiles && profiles[user.n].role == role
    ensures r.Success? ==> r.value == data
  {
    if !IsGiven(user) then Failure(UserRequired)
    else if user.n !in profiles then Failure(UserNotFound)
    else if profiles[user.n].role != role then Failure(roleError)
    else Success(data)
  }
}
