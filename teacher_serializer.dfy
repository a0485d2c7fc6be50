/** The teacher record and the serializer that shows and validates it. */
module TeacherSerializer {
  import opened Wrappers
  import opened Profiles

  /** A teacher: a linked account and a subject. The link is optional here because
      the class serializer tests for a missing one. */
  datatype Teacher = Teacher(id: nat, user: Option<UserProfile>, subject: string)

  const RoleError: string := "This user is not assigned the 'teacher' role."

  /** `get_full_name`: the linked account's display name. A teacher without a linked
      account makes the attribute access raise, modelled as `None`. */
  function FullNameOf(t: Teacher): (r: Option<string>)
    ensures r.Some? <==> t.user.Some?
    ensures t.user.Some? ==> r.value == t.user.value.firstName + " " + t.user.value.lastName
  {
    match t.user
    case Some(u) => Some(FullName(u))
    case None => None
  }

  /** `validate`: the linked user must be given, exist, and hold the teacher role. */
  function Validate<D>(data: D, user: UserField, profiles: map<int, UserProfile>): (r: Result<D, string>)
    ensures !IsGiven(user) ==> r == Failure("User field is required.")
    ensures IsGiven(user) && user.n !in profiles ==> r == Failure("User does not exist.")
    ensures IsGiven(user) && user.n in profiles && profiles[user.n].role != "teacher"
            ==> r == Failure("This user is not assigned the 'teacher' role.")
    ensures r.Success? <==> IsGiven(user) && user.n in profiles && profiles[user.n].role == "teacher"
    ensures r.Success? ==> r.value == data
  {
    ValidateLinkedUser(data, user, profiles, TeacherRole, RoleError)
  }
}
