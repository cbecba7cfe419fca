/** The in-memory datastore: roles, user records, the seed users and the demo credential table. */
module Users {
  import opened Wrappers

  /** The `type` tag of a user record. */
  datatype Role = Student | Faculty | Staff | Admin | Company {

    /** The tag as it is stored in the record and offered by the role selector. */
    function Name(): string {
      match this
      case Student => "student"
      case Faculty => "faculty"
      case Staff => "staff"
      case Admin => "admin"
      case Company => "company"
    }
  }

  /** Reads a role selector value back as a role; `None` for any other string. */
  function RoleNamed(name: string): (r: Option<Role>)
    ensures r.Some? ==> r.value.Name() == name
    ensures r.None? ==> forall role: Role :: role.Name() != name
  {
    if name == "student" then Some(Student)
    else if name == "faculty" then Some(Faculty)
    else if name == "staff" then Some(Staff)
    else if name == "admin" then Some(Admin)
    else if name == "company" then Some(Company)
    else None
  }

  /** A role and its name determine each other. */
  lemma RoleNameRoundTrip(role: Role)
    ensures RoleNamed(role.Name()) == Some(role)
  {
  }

  datatype Preferences = Preferences(jobTypes: seq<string>, locations: string, salaryRange: string)

  /** A user record. The string-valued properties (`name`, `rollNo`, `department`, `year`, `email`,
      `phone`, `address`, `role`, `companyName`, and any key a form handler writes) live in `fields`,
      keyed by their property names. The other properties are `None` when the record does not
      define them, which is the case for every role except `student`. */
  datatype User = User(
    kind: Role,
    fields: map<string, string>,
    cgpa: Option<real>,
    skills: Option<seq<string>>,
    certifications: Option<seq<string>>,
    profileCompletion: Option<int>,
    preferences: Option<Preferences>)
  {
    /** A string property, `undefined` read as the empty string (the `x || ''` of the profile loader). */
    function Field(key: string): string {
      if key in fields then fields[key] else ""
    }
  }

  const StudentSeed: User := User(
    Student,
    map["name" := "Arjun Sharma", "rollNo" := "21CS001", "department" := "Computer Science",
        "year" := "3rd Year", "email" := "student@college.edu", "phone" := "+91-9876543210",
        "address" := "Hostel-B-102, Campus Rd, Bangalore"],
    Some(8.7),
    Some(["Python", "JavaScript", "React", "Machine Learning", "SQL"]),
    Some(["AWS Cloud Practitioner", "Google Analytics"]),
    Some(92),
    Some(Preferences(["Full-time", "Internship"], "Bangalore, Mumbai, Remote", "8-15 LPA")))

  /** A record with only string properties, as the non-student seeds are. */
  function Plain(kind: Role, fields: map<string, string>): User {
    User(kind, fields, None, None, None, None, None)
  }

  /** `applicationData.users` at page load. */
  const SeedUsers: map<string, User> := map[
    "student@college.edu" := StudentSeed,
    "faculty@college.edu" := Plain(Faculty, map["name" := "Dr. Priya Mehta",
      "department" := "Computer Science", "email" := "faculty@college.edu"]),
    "staff@college.edu" := Plain(Staff, map["name" := "Rajesh Kumar",
      "role" := "Placement Officer", "email" := "staff@college.edu"]),
    "admin@college.edu" := Plain(Admin, map["name" := "Dr. Vikram Singh",
      "role" := "Dean \U{2011} Placements", "email" := "admin@college.edu"]),
    "company@techcorp.com" := Plain(Company, map["name" := "TechCorp HR",
      "companyName" := "TechCorp Solutions", "email" := "company@techcorp.com"])]

  /** `demoCredentials`: username to password. */
  const Credentials: map<string, string> := map[
    "student@college.edu" := "student123",
    "faculty@college.edu" := "faculty123",
    "staff@college.edu" := "staff123",
    "admin@college.edu" := "admin123",
    "company@techcorp.com" := "company123"]
}
