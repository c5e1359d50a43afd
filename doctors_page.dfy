/** The public doctor directory: a department tab (from the `dept` query
    parameter, "all" by default) and a search box over names and specialties. */
module DoctorsPage {
  import opened Types
  import opened Seqs
  import opened Text

  const AllDepartments: string := "all"

  /** `searchParams.get("dept") || "all"`: a missing or empty parameter
      selects every department. */
  function InitialDept(param: Option<string>): (dept: string)
    ensures param.None? ==> dept == AllDepartments
    ensures param.Some? && param.value == "" ==> dept == AllDepartments
    ensures param.Some? && param.value != "" ==> dept == param.value
  {
    match param
    case Some(v) => if v != "" then v else AllDepartments
    case None => AllDepartments
  }

  /** `matchesDept && matchesSearch`. */
  function Listed(activeDept: string, term: string): Doctor -> bool
  {
    (d: Doctor) =>
      && (activeDept == AllDepartments || d.department == activeDept)
      && (Contains(d.name, term) || exists k :: 0 <= k < |d.specialties| && Contains(d.specialties[k], term))
  }

  /** `filteredDoctors`: the doctors of the active department (all of them
      under "all") whose name or some specialty includes the term, in store
      order. */
  function FilteredDirectory(doctors: seq<Doctor>, activeDept: string, term: string): (r: seq<Doctor>)
    ensures IsSubsequence(r, doctors)
    ensures forall d :: d in r <==>
      && d in doctors
      && (activeDept == AllDepartments || d.department == activeDept)
      && (Contains(d.name, term) || exists k :: 0 <= k < |d.specialties| && Contains(d.specialties[k], term))
  {
    FilterIsSubsequence(Listed(activeDept, term), doctors);
    Filter(Listed(activeDept, term), doctors)
  }

  /** Under "all" with an empty search every doctor is listed, in order. */
  lemma DirectoryShowsAll(doctors: seq<Doctor>)
    ensures FilteredDirectory(doctors, AllDepartments, "") == doctors
  {
    forall k | 0 <= k < |doctors|
      ensures Listed(AllDepartments, "")(doctors[k])
    {
      ContainsEmpty(doctors[k].name);
    }
    FilterKeepsAll(Listed(AllDepartments, ""), doctors);
  }

  /** The empty search filters by department alone. */
  lemma EmptySearchByDepartment(doctors: seq<Doctor>, activeDept: string, d: Doctor)
    ensures d in FilteredDirectory(doctors, activeDept, "") <==>
      d in doctors && (activeDept == AllDepartments || d.department == activeDept)
  {
    ContainsEmpty(d.name);
  }
}
