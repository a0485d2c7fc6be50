/** The student record and the serializer that shows and validates it. */
module StudentSerializer {
  import opened Wrappers
  import opened Profiles

  /** A student: a linked account, a roll number and a grade. The link is optional
      here because the class serializer tests for a missing one. */
  datatype Student = Student(id: nat, user: Option<UserProfile>, rollNumber: string, grade: string)

  const RoleError: string := "This user is not assigned the 'student' role."

  /** `get_full_name`: the linked account's display name. A student without a linked
      account makes the attribute access raise, modelled as `None`. */
  function FullNameOf(s: Student): (r: Option<string>)
    ensures r.Some? <==> s.user.Some?
    ensures s.user.Some? ==> r.value == s.user.value.firstName + " " + s.user.value.lastName
  {
    match s.user
    case Some(u) => Some(FullName(u))
    case None => None
  }

  /** `validate`: the linked user must be given, exist, and hold the student role. */
  function Validate<D>(data: D, user: UserField, profiles: map<int, UserProfile>): (r: Result<D, string>)
    ensures !IsGiven(user) ==> r == Failure("User field is required.")
    ensures IsGiven(user) && user.n !in profiles ==> r == Failure("User does not exist.")
    ensures IsGiven(user) && user.n in profiles && profiles[user.n].role != "student"
            ==> r == Failure("This user is not assigned the 'student' role.")
    ensures r.Success? <==> IsGiven(user) && user.n in profiles && profiles[user.n].role == "student"
    ensures r.Success? ==> r.value == data
  {
    ValidateLinkedUser(data, user, profiles, StudentRole, RoleError)
  }
}
