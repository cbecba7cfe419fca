/** The profile editor: the skill grid, the certification list, the three profile forms, the
    profile view the loader fills in, the completion display and the skill-gap filter. Each
    handler is stated on one user record; `None` results mean the handler dereferences a
    property the record does not define and throws a TypeError before changing anything. */
module Profile {
  import opened Wrappers
  import opened Text
  import opened Seqs
  import opened Users

  // ---------------- Skills ----------------

  /** The predicate `s => s !== x`. */
  function Other(x: string): string -> bool {
    y => y != x
  }

  /** `skills.filter(s => s !== x)`: every occurrence of `x` removed, the rest in order. */
  function RemoveAll(s: seq<string>, x: string): (r: seq<string>)
    ensures x !in r
    ensures forall y :: y != x ==> (y in r <==> y in s)
    ensures multiset(r) == multiset(s)[x := 0]
    ensures Subsequence(r, s)
    ensures NoDup(s) ==> NoDup(r)
  {
    FilterCounts(s, Other(x));
    var r := Filter(s, Other(x));
    assert forall y :: multiset(r)[y] == multiset(s)[x := 0][y];
    r
  }

  /** Removing a name the list does not hold gives back the same list. */
  lemma RemoveAbsent(s: seq<string>, x: string)
    requires x !in s
    ensures RemoveAll(s, x) == s
  {
    FilterKeepsAll(s, Other(x));
  }

  /** In a duplicate-free list, removing the entry at `k` closes the gap and keeps the order. */
  lemma RemoveUnique(s: seq<string>, k: int)
    requires NoDup(s) && 0 <= k < |s|
    ensures RemoveAll(s, s[k]) == s[..k] + s[k + 1..]
  {
    var x := s[k];
    assert s == s[..k] + ([x] + s[k + 1..]);
    assert x !in s[..k];
    assert x !in s[k + 1..];
    FilterAppend(s[..k], [x] + s[k + 1..], Other(x));
    FilterAppend([x], s[k + 1..], Other(x));
    assert Filter([x], Other(x)) == [];
    RemoveAbsent(s[..k], x);
    RemoveAbsent(s[k + 1..], x);
  }

  /** The skill click handler: `checked` is whether the clicked grid item carries the `selected`
      class after the click. Selecting pushes a missing skill at the end and leaves a present
      one alone; deselecting removes every occurrence. */
  function SelectSkill(skills: seq<string>, skill: string, checked: bool): (r: seq<string>)
    ensures skill in r <==> checked
    ensures forall y :: y != skill ==> (y in r <==> y in skills)
    ensures NoDup(skills) ==> NoDup(r)
    ensures checked && skill in skills ==> r == skills
    ensures checked && skill !in skills ==> |r| == |skills| + 1 && r[..|skills|] == skills
    ensures !checked ==> multiset(r) == multiset(skills)[skill := 0] && Subsequence(r, skills)
  {
    if checked then (if skill in skills then skills else skills + [skill])
    else RemoveAll(skills, skill)
  }

  /** A click on a grid item whose `selected` class matches the skill list (the grid is rendered
      from the list and every click keeps the two in step): membership flips. */
  function ToggleSkill(skills: seq<string>, skill: string): (r: seq<string>)
    ensures (skill in r) == (skill !in skills)
    ensures forall y :: y != skill ==> (y in r <==> y in skills)
    ensures skill !in skills ==> r == skills + [skill]
    ensures skill in skills ==> multiset(r) == multiset(skills)[skill := 0] && Subsequence(r, skills)
  {
    SelectSkill(skills, skill, skill !in skills)
  }

  /** Toggling an absent skill twice restores the list exactly. */
  lemma ToggleAbsentTwice(s: seq<string>, x: string)
    requires x !in s
    ensures ToggleSkill(ToggleSkill(s, x), x) == s
  {
    assert ToggleSkill(s, x) == s + [x];
    FilterAppend(s, [x], Other(x));
    assert Filter([x], Other(x)) == [];
    RemoveAbsent(s, x);
  }

  /** Toggling a present skill twice keeps the same skills but moves that one to the end. */
  lemma TogglePresentTwice(s: seq<string>, k: int)
    requires NoDup(s) && 0 <= k < |s|
    ensures ToggleSkill(ToggleSkill(s, s[k]), s[k]) == s[..k] + s[k + 1..] + [s[k]]
    ensures multiset(ToggleSkill(ToggleSkill(s, s[k]), s[k])) == multiset(s)
  {
    RemoveUnique(s, k);
    assert s == s[..k] + [s[k]] + s[k + 1..];
  }

  // ---------------- Certifications ----------------

  /** The add-certification handler: the trimmed input is appended unless it is empty. */
  function AddCertification(certs: seq<string>, input: string): (r: seq<string>)
    ensures AllSpace(input) ==> r == certs
    ensures !AllSpace(input) ==> |r| == |certs| + 1 && r[..|certs|] == certs
    ensures forall i :: |certs| <= i < |r| ==>
      CutFrom(r[i], input) && r[i] != [] && !IsSpace(r[i][0]) && !IsSpace(r[i][|r[i]| - 1])
  {
    var name := Trim(input);
    if name != [] then certs + [name] else certs
  }

  /** The list is not deduplicated: adding the same certification twice lists it twice. */
  lemma AddCertificationKeepsDuplicates(certs: seq<string>)
    ensures AddCertification(AddCertification(certs, "AWS"), "AWS") == certs + ["AWS", "AWS"]
  {
    assert !IsSpace('A') && !IsSpace('S');
    assert TrimStart("AWS") == "AWS";
    assert TrimEnd("AWS") == "AWS";
  }

  // ---------------- Forms and the profile view ----------------

  /** The personal-details inputs, by element id. */
  datatype PersonalForm = PersonalForm(fullName: string, email: string, phone: string, rollNo: string, address: string)

  /** An identifier with one capital is rewritten to snake case around that capital. */
  lemma OneCapital(a: string, b: char, c: string)
    requires forall i :: 0 <= i < |a| ==> !IsUpper(a[i])
    requires forall i :: 0 <= i < |c| ==> !IsUpper(c[i])
    requires IsUpper(b)
    ensures CamelToSnake(a + [b] + c) == a + ['_', LowerChar(b)] + c
  {
    CamelToSnakeFixedIffNoUpper(a);
    CamelToSnakeFixedIffNoUpper(c);
    assert [b][1..] == [];
    assert CamelToSnake([b]) == SnakeChar(b) + CamelToSnake([]);
    var mid := CamelToSnake([b]);
    assert mid == ['_', LowerChar(b)];
    CamelToSnakeAppend(a, [b]);
    CamelToSnakeAppend(a + [b], c);
    assert CamelToSnake(a + [b] + c) == CamelToSnake(a + [b]) + CamelToSnake(c);
    assert CamelToSnake(a + [b]) == a + mid;
  }

  lemma KeyFullName()
    ensures CamelToSnake("fullName") == "full_name"
  {
    OneCapital("full", 'N', "ame");
    assert "full" + ['N'] + "ame" == "fullName";
  }

  lemma KeyRollNo()
    ensures CamelToSnake("rollNo") == "roll_no"
  {
    OneCapital("roll", 'N', "o");
    assert "roll" + ['N'] + "o" == "rollNo";
  }

  lemma KeyEmail()
    ensures CamelToSnake("email") == "email"
  {
    CamelToSnakeFixedIffNoUpper("email");
  }

  lemma KeyPhone()
    ensures CamelToSnake("phone") == "phone"
  {
    CamelToSnakeFixedIffNoUpper("phone");
  }

  lemma KeyAddress()
    ensures CamelToSnake("address") == "address"
  {
    CamelToSnakeFixedIffNoUpper("address");
  }

  /** The property names `savePersonalInfo` writes: `fullName` and `rollNo` are rewritten, the
      other three ids are already lower case. */
  lemma PersonalKeys()
    ensures CamelToSnake("fullName") == "full_name"
    ensures CamelToSnake("rollNo") == "roll_no"
    ensures CamelToSnake("email") == "email"
    ensures CamelToSnake("phone") == "phone"
    ensures CamelToSnake("address") == "address"
  {
    KeyFullName();
    KeyRollNo();
    KeyEmail();
    KeyPhone();
    KeyAddress();
  }

  /** `savePersonalInfo`: each input lands under its element id rewritten to snake case, which
      `PersonalKeys` shows to be `full_name`, `email`, `phone`, `roll_no` and `address`; so the
      name and roll number are not written to the `name` and `rollNo` the record was seeded with.
      Nothing else in the record changes. */
  function SavePersonal(u: User, f: PersonalForm): (r: User)
    ensures r == u.(fields := r.fields)
    ensures r.fields.Keys == u.fields.Keys + {"full_name", "email", "phone", "roll_no", "address"}
    ensures && r.fields["full_name"] == f.fullName && r.fields["email"] == f.email
            && r.fields["phone"] == f.phone && r.fields["roll_no"] == f.rollNo
            && r.fields["address"] == f.address
    ensures forall k :: k in u.fields && k !in {"full_name", "email", "phone", "roll_no", "address"} ==>
      r.fields[k] == u.fields[k]
  {
    u.(fields := u.fields["full_name" := f.fullName]["email" := f.email]["phone" := f.phone]
                         ["roll_no" := f.rollNo]["address" := f.address])
  }

  /** What the profile loader puts in the form inputs. */
  datatype ProfileView = ProfileView(
    fullName: string, email: string, phone: string, rollNo: string, address: string,
    department: string, year: string, cgpa: Option<real>)

  /** `currentUser.cgpa || ''`: an undefined or zero CGPA shows as an empty input (`None`). */
  function ShownCgpa(cgpa: Option<real>): (r: Option<real>)
    ensures r.Some? <==> cgpa.Some? && cgpa.value != 0.0
    ensures r.Some? ==> r == cgpa
  {
    if cgpa.Some? && cgpa.value != 0.0 then cgpa else None
  }

  /** `loadProfile`: only a student's record is shown; the inputs read `name`, `email`, `phone`,
      `rollNo`, `address`, `department`, `year` and `cgpa`. */
  function LoadProfile(u: User): (r: Option<ProfileView>)
    ensures r.Some? <==> u.kind == Student
    ensures r.Some? ==> r.value.cgpa == ShownCgpa(u.cgpa)
    ensures r.Some? ==> r.value.fullName == u.Field("name") && r.value.rollNo == u.Field("rollNo")
    ensures r.Some? ==>
      r.value.email == u.Field("email") && r.value.phone == u.Field("phone") && r.value.address == u.Field("address")
    ensures r.Some? ==> r.value.department == u.Field("department") && r.value.year == u.Field("year")
  {
    if u.kind != Student then None
    else Some(ProfileView(u.Field("name"), u.Field("email"), u.Field("phone"), u.Field("rollNo"),
                          u.Field("address"), u.Field("department"), u.Field("year"), ShownCgpa(u.cgpa)))
  }

  /** A personal-form save leaves the properties the loader reads for name, roll number,
      department and year as they were. */
  lemma SavePersonalKeepsName(u: User, f: PersonalForm)
    ensures var r := SavePersonal(u, f);
      && r.Field("name") == u.Field("name") && r.Field("rollNo") == u.Field("rollNo")
  {
  }

  lemma SavePersonalKeepsAcademic(u: User, f: PersonalForm)
    ensures var r := SavePersonal(u, f);
      r.Field("department") == u.Field("department") && r.Field("year") == u.Field("year")
  {
  }

  /** A personal-form save stores all five inputs, two of them under snake-case names. */
  lemma SavePersonalWrites(u: User, f: PersonalForm)
    ensures var r := SavePersonal(u, f);
      && r.Field("email") == f.email && r.Field("phone") == f.phone && r.Field("address") == f.address
      && r.Field("full_name") == f.fullName && r.Field("roll_no") == f.rollNo
  {
  }

  /** Saving the personal form and reloading the profile shows the new email, phone and address,
      but the old name and roll number: the saved copies sit under keys the loader never reads. */
  lemma SavePersonalThenLoad(u: User, f: PersonalForm)
    requires u.kind == Student
    ensures var v, w := LoadProfile(u).value, LoadProfile(SavePersonal(u, f)).value;
      && w.fullName == v.fullName && w.rollNo == v.rollNo
      && w.email == f.email && w.phone == f.phone && w.address == f.address
      && w.department == v.department && w.year == v.year && w.cgpa == v.cgpa
  {
    SavePersonalKeepsName(u, f);
    SavePersonalKeepsAcademic(u, f);
    SavePersonalWrites(u, f);
  }

  /** The result of `parseFloat` on the CGPA input: a number, or NaN. */
  datatype NumberInput = NotANumber | Number(v: real)

  datatype AcademicForm = AcademicForm(department: string, year: string, cgpa: NumberInput)

  /** `parseFloat(input) || previous`: NaN and zero both fall back to the previous value. */
  function ParsedOr(p: NumberInput, previous: Option<real>): (r: Option<real>)
    ensures p.Number? && p.v != 0.0 ==> r == Some(p.v)
    ensures p.NotANumber? || p.v == 0.0 ==> r == previous
  {
    if p.Number? && p.v != 0.0 then Some(p.v) else previous
  }

  /** `saveAcademicInfo`: department and year are overwritten; the CGPA only by a non-zero number. */
  function SaveAcademic(u: User, f: AcademicForm): (r: User)
    ensures r == u.(fields := r.fields, cgpa := r.cgpa)
    ensures r.fields.Keys == u.fields.Keys + {"department", "year"}
    ensures r.fields["department"] == f.department && r.fields["year"] == f.year
    ensures r.cgpa == ParsedOr(f.cgpa, u.cgpa)
    ensures forall k :: k in u.fields && k != "department" && k != "year" ==> r.fields[k] == u.fields[k]
  {
    u.(fields := u.fields["department" := f.department]["year" := f.year], cgpa := ParsedOr(f.cgpa, u.cgpa))
  }

  /** Saving the academic form and reloading shows the new department and year; the CGPA shown
      is the parsed number unless it was NaN or zero, in which case it is what was shown before. */
  lemma SaveAcademicThenLoad(u: User, f: AcademicForm)
    requires u.kind == Student
    ensures var v := LoadProfile(SaveAcademic(u, f)).value;
      && v.department == f.department && v.year == f.year
      && v.fullName == LoadProfile(u).value.fullName && v.rollNo == LoadProfile(u).value.rollNo
      && (f.cgpa.Number? && f.cgpa.v != 0.0 ==> v.cgpa == Some(f.cgpa.v))
      && (f.cgpa.NotANumber? || f.cgpa.v == 0.0 ==> v.cgpa == LoadProfile(u).value.cgpa)
  {
  }

  /** One job-type checkbox of the preferences form. */
  datatype Checkbox = Checkbox(value: string, checked: bool)

  datatype PreferencesForm = PreferencesForm(jobTypeBoxes: seq<Checkbox>, locations: string, salaryRange: string)

  /** The predicate `cb => cb.checked`. */
  function Ticked(b: Checkbox): bool {
    b.checked
  }

  /** `filter(cb => cb.checked).map(cb => cb.value)`: the values of the ticked boxes, in page
      order and with repeats kept. */
  function CheckedValues(boxes: seq<Checkbox>): (r: seq<string>)
    ensures |r| == |Filter(boxes, Ticked)|
    ensures forall i :: 0 <= i < |r| ==> r[i] == Filter(boxes, Ticked)[i].value
    ensures forall v :: v in r <==> exists i :: 0 <= i < |boxes| && boxes[i].checked && boxes[i].value == v
  {
    if boxes == [] then []
    else
      var rest := CheckedValues(boxes[1..]);
      assert forall i :: 1 <= i < |boxes| ==> boxes[i] == boxes[1..][i - 1];
      if boxes[0].checked then
        assert Filter(boxes, Ticked) == [boxes[0]] + Filter(boxes[1..], Ticked);
        [boxes[0].value] + rest
      else
        assert Filter(boxes, Ticked) == Filter(boxes[1..], Ticked);
        rest
  }

  /** `savePreferences`: the preferences object is replaced whole; nothing else changes. */
  function SavePreferences(u: User, f: PreferencesForm): (r: User)
    ensures r == u.(preferences := r.preferences)
    ensures r.preferences.Some?
    ensures var p := r.preferences.value;
      && p.locations == f.locations && p.salaryRange == f.salaryRange
      && |p.jobTypes| == |Filter(f.jobTypeBoxes, Ticked)|
      && (forall i :: 0 <= i < |p.jobTypes| ==> p.jobTypes[i] == Filter(f.jobTypeBoxes, Ticked)[i].value)
  {
    u.(preferences := Some(Preferences(CheckedValues(f.jobTypeBoxes), f.locations, f.salaryRange)))
  }

  /** Nothing of the previous preferences survives a save: the result does not depend on them. */
  lemma SavePreferencesReplacesWhole(u: User, p: Option<Preferences>, f: PreferencesForm)
    ensures SavePreferences(u.(preferences := p), f) == SavePreferences(u, f)
  {
  }

  /** `updateProfileCompletion`: the percentage shown is the stored `profileCompletion`, or 0 when
      the record has none. It is read, never derived from the profile's contents. */
  function CompletionShown(u: User): (p: int)
    ensures u.profileCompletion.None? ==> p == 0
    ensures u.profileCompletion.Some? ==> p == u.profileCompletion.value
  {
    u.profileCompletion.GetOr(0)
  }

  /** The user-level skill click: a record without a skill list throws. */
  function ClickSkill(u: User, skill: string, checked: bool): (r: Option<User>)
    ensures r.None? <==> u.skills.None?
    ensures r.Some? ==> (r.value == u.(skills := r.value.skills)
      && r.value.skills == Some(SelectSkill(u.skills.value, skill, checked)))
  {
    if u.skills.None? then None else Some(u.(skills := Some(SelectSkill(u.skills.value, skill, checked))))
  }

  /** The user-level certification add: whitespace input is ignored, otherwise a record without a
      certification list throws. */
  function AddCertificationTo(u: User, input: string): (r: Option<User>)
    ensures AllSpace(input) ==> r == Some(u)
    ensures r.None? <==> !AllSpace(input) && u.certifications.None?
    ensures r.Some? ==> (r.value == u.(certifications := r.value.certifications)
      && (u.certifications.Some? ==> r.value.certifications == Some(AddCertification(u.certifications.value, input))))
  {
    if AllSpace(input) then Some(u)
    else if u.certifications.None? then None
    else Some(u.(certifications := Some(AddCertification(u.certifications.value, input))))
  }

  // ---------------- Skill gap ----------------

  /** The fixed skill list the gap analysis checks, in display order. */
  const GapTargets: seq<string> := ["Kubernetes", "Docker", "AWS", "TypeScript", "GraphQL"]

  /** The predicate `s => !skills.includes(s)`. */
  function NotIn(skills: seq<string>): string -> bool {
    t => t !in skills
  }

  /** The skills of the fixed list the user lacks, in the list's order. */
  function MissingSkills(skills: seq<string>): (r: seq<string>)
    ensures forall t :: t in r <==> t in GapTargets && t !in skills
    ensures Subsequence(r, GapTargets)
    ensures NoDup(r)
    ensures r == [] <==> forall t :: t in GapTargets ==> t in skills
  {
    assert NoDup(GapTargets);
    var r := Filter(GapTargets, NotIn(skills));
    assert r != [] ==> r[0] in r;
    r
  }

  /** `runSkillGapAnalysis` on a user: a record without a skill list throws. */
  function SkillGapOf(u: User): (r: Option<seq<string>>)
    ensures r.None? <==> u.skills.None?
    ensures r.Some? ==> forall t :: t in r.value <==> t in GapTargets && t !in u.skills.value
    ensures r.Some? ==> Subsequence(r.value, GapTargets) && NoDup(r.value)
  {
    if u.skills.None? then None else Some(MissingSkills(u.skills.value))
  }

  /** A profile holding none of the five gets all five back, in the listed order. */
  lemma MissingSkillsOfPythonAndJavaScript()
    ensures MissingSkills(["Python", "JavaScript"]) == GapTargets
  {
    FilterKeepsAll(GapTargets, NotIn(["Python", "JavaScript"]));
  }
}
