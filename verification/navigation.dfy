/** The sidebar menu a role sees, the section router's loader dispatch and the breadcrumb text. */
module Navigation {
  import opened Users

  datatype MenuItem = MenuItem(id: string, caption: string, icon: string) {

    /** The link's `textContent`: the icon span followed by the caption (`label` in `setupNavigation`). */
    function Text(): string { icon + caption }
  }

  /** The items every role sees first. */
  const CommonItems: seq<MenuItem> := [
    MenuItem("dashboard", "Dashboard", "\U{1F4CA}"),
    MenuItem("notifications", "Notifications", "\U{1F514}")]

  /** `navByRole`: the entries each role adds after the common ones. */
  function RoleItems(role: Role): seq<MenuItem> {
    match role
    case Student => [
      MenuItem("profile", "My Profile", "\U{1F464}"),
      MenuItem("jobs", "Job Opportunities", "\U{1F4BC}"),
      MenuItem("applications", "My Applications", "\U{1F4CB}"),
      MenuItem("interviews", "Interviews", "\U{1F3AF}"),
      MenuItem("mentorship", "Mentorship", "\U{1F91D}"),
      MenuItem("chatbot", "AI Assistant", "\U{1F916}")]
    case Faculty => [
      MenuItem("analytics", "Analytics", "\U{1F4C8}"),
      MenuItem("interviews", "Interviews", "\U{1F3AF}")]
    case Staff => [
      MenuItem("jobManagement", "Job Management", "\U{1F4DD}"),
      MenuItem("analytics", "Analytics", "\U{1F4C8}"),
      MenuItem("interviews", "Interviews", "\U{1F3AF}")]
    case Admin => [
      MenuItem("analytics", "Analytics", "\U{1F4C8}"),
      MenuItem("jobManagement", "Job Management", "\U{1F4DD}"),
      MenuItem("settings", "Settings", "\U{2699}\U{FE0F}")]
    case Company => [
      MenuItem("companyDashboard", "Company Dashboard", "\U{1F3E2}"),
      MenuItem("jobManagement", "Job Posts", "\U{1F4DD}"),
      MenuItem("interviews", "Interviews", "\U{1F3AF}")]
  }

  /** The section ids of a menu, in order. */
  function Ids(menu: seq<MenuItem>): (ids: seq<string>)
    ensures |ids| == |menu|
    ensures forall i :: 0 <= i < |menu| ==> ids[i] == menu[i].id
  {
    if menu == [] then [] else [menu[0].id] + Ids(menu[1..])
  }

  predicate DistinctIds(menu: seq<MenuItem>) {
    forall i, j :: 0 <= i < j < |menu| ==> menu[i].id != menu[j].id
  }

  /** Whether `setupNavigation` renders the item with the `active` class. */
  predicate ActiveOnSetup(item: MenuItem) {
    item.id == "dashboard"
  }

  /** No role's table repeats a section, and none repeats a common one. */
  lemma StudentItemsDistinct()
    ensures DistinctIds(CommonItems + RoleItems(Student))
  {
  }

  lemma FacultyItemsDistinct()
    ensures DistinctIds(CommonItems + RoleItems(Faculty))
  {
  }

  lemma StaffItemsDistinct()
    ensures DistinctIds(CommonItems + RoleItems(Staff))
  {
  }

  lemma AdminItemsDistinct()
    ensures DistinctIds(CommonItems + RoleItems(Admin))
  {
  }

  lemma CompanyItemsDistinct()
    ensures DistinctIds(CommonItems + RoleItems(Company))
  {
  }

  lemma ItemsDistinct(role: Role)
    ensures DistinctIds(CommonItems + RoleItems(role))
  {
    match role
    case Student => StudentItemsDistinct();
    case Faculty => FacultyItemsDistinct();
    case Staff => StaffItemsDistinct();
    case Admin => AdminItemsDistinct();
    case Company => CompanyItemsDistinct();
  }

  /** `setupNavigation(role)`: the rendered menu. */
  function Menu(role: Role): (m: seq<MenuItem>)
    ensures |m| == |CommonItems| + |RoleItems(role)|
    ensures m[..2] == CommonItems
    ensures m[0].id == "dashboard" && m[1].id == "notifications"
    ensures DistinctIds(m)
    ensures forall i :: 0 <= i < |m| ==> (ActiveOnSetup(m[i]) <==> i == 0)
    ensures forall i :: 2 <= i < |m| ==> m[i] == RoleItems(role)[i - 2]
  {
    ItemsDistinct(role);
    CommonItems + RoleItems(role)
  }

  /** The student sees exactly these eight sections, in this order. */
  lemma StudentMenuIds()
    ensures Ids(Menu(Student)) == ["dashboard", "notifications", "profile", "jobs",
                                   "applications", "interviews", "mentorship", "chatbot"]
  {
  }

  /** The loader `navigateToSection` runs after switching sections. */
  datatype Loader =
    | LoadDashboard | LoadProfile | LoadJobs | LoadApplications | LoadAnalytics
    | LoadJobManagement | LoadCompanyDashboard | LoadNotifications | NoLoader

  /** The sections the `switch` of `navigateToSection` has a case for. */
  const LoadedSections: set<string> :=
    {"dashboard", "profile", "jobs", "applications", "analytics", "jobManagement", "companyDashboard", "notifications"}

  /** The `switch` of `navigateToSection`; sections without a case run no loader. */
  function LoaderFor(id: string): (r: Loader)
    ensures r == NoLoader <==> id !in LoadedSections
    ensures id == "profile" <==> r == LoadProfile
  {
    match id
    case "dashboard" => LoadDashboard
    case "profile" => LoadProfile
    case "jobs" => LoadJobs
    case "applications" => LoadApplications
    case "analytics" => LoadAnalytics
    case "jobManagement" => LoadJobManagement
    case "companyDashboard" => LoadCompanyDashboard
    case "notifications" => LoadNotifications
    case _ => NoLoader
  }

  /** The section a loader belongs to. */
  function SectionOf(loader: Loader): string
    requires loader != NoLoader
  {
    match loader
    case LoadDashboard => "dashboard"
    case LoadProfile => "profile"
    case LoadJobs => "jobs"
    case LoadApplications => "applications"
    case LoadAnalytics => "analytics"
    case LoadJobManagement => "jobManagement"
    case LoadCompanyDashboard => "companyDashboard"
    case LoadNotifications => "notifications"
  }

  /** Every loader is reached from exactly its own section, and a section that runs a loader
      runs its own. */
  lemma LoaderDispatchRoundTrip(id: string, loader: Loader)
    ensures loader != NoLoader ==> LoaderFor(SectionOf(loader)) == loader
    ensures LoaderFor(id) != NoLoader ==> SectionOf(LoaderFor(id)) == id
  {
  }

  /** Item `i` is the first one in the menu for section `id` (what `querySelector` finds). */
  predicate FirstFor(menu: seq<MenuItem>, id: string, i: int) {
    0 <= i < |menu| && menu[i].id == id && forall j :: 0 <= j < i ==> menu[j].id != id
  }

  /** The breadcrumb `navigateToSection` shows: the text of the first menu link for `id`, or
      "Dashboard" when no link matches or its text is empty. */
  function Breadcrumb(menu: seq<MenuItem>, id: string): (b: string)
    ensures (forall i :: 0 <= i < |menu| ==> menu[i].id != id) ==> b == "Dashboard"
    ensures forall i :: FirstFor(menu, id, i) && menu[i].Text() != [] ==> b == menu[i].Text()
    ensures forall i :: FirstFor(menu, id, i) && menu[i].Text() == [] ==> b == "Dashboard"
  {
    if menu == [] then "Dashboard"
    else if menu[0].id == id then (if menu[0].Text() == [] then "Dashboard" else menu[0].Text())
    else
      var b := Breadcrumb(menu[1..], id);
      assert forall i :: 1 <= i < |menu| ==> menu[i] == menu[1..][i - 1];
      b
  }

  /** In a menu with distinct ids the breadcrumb is the text of the one item for the section. */
  lemma BreadcrumbOfMenuItem(menu: seq<MenuItem>, i: int)
    requires DistinctIds(menu)
    requires 0 <= i < |menu| && menu[i].Text() != []
    ensures Breadcrumb(menu, menu[i].id) == menu[i].Text()
  {
  }
}
