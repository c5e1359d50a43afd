/** The doctor administration page: the add-doctor dialog, which turns the
    form and a comma-separated list of specialties into a new doctor, and
    the search box that narrows the list of doctors. */
module AdminDoctors {
  import opened Calendar
  import opened Types
  import opened Seqs
  import opened Store
  import opened Text

  /** A specialty name as the parser leaves it: not empty, without a comma,
      and its own trim (neither starting nor ending with white space). */
  predicate CleanName(s: string)
  {
    s != "" && ',' !in s && Trim(s) == s
  }

  /** `parts.map(s => s.trim()).filter(s => s !== "")`, in one pass. */
  function TrimmedNonEmpty(parts: seq<string>): (r: seq<string>)
    ensures |r| <= |parts|
    decreases |parts|
  {
    if parts == [] then []
    else
      var t := Trim(parts[0]);
      (if t != "" then [t] else []) + TrimmedNonEmpty(parts[1..])
  }

  /** `input.split(",").map(s => s.trim()).filter(s => s !== "")`. */
  function ParseSpecialties(input: string): (r: seq<string>)
    ensures forall k :: 0 <= k < |r| ==> CleanName(r[k])
  {
    var parts := Split(input, ',');
    CleanPieces(parts);
    TrimmedNonEmpty(parts)
  }

  /** Pieces without a comma, trimmed, with the empty ones dropped, are
      clean names. */
  lemma {:induction false} CleanPieces(parts: seq<string>)
    requires forall k :: 0 <= k < |parts| ==> ',' !in parts[k]
    ensures forall k :: 0 <= k < |TrimmedNonEmpty(parts)| ==> CleanName(TrimmedNonEmpty(parts)[k])
    decreases |parts|
  {
    if parts != [] {
      CleanPieces(parts[1..]);
      var t := Trim(parts[0]);
      if t != "" {
        TrimContained(parts[0]);
        TrimTrimmed(t);
        assert CleanName(t);
      }
    }
  }

  /** Clean names go through unchanged. */
  lemma {:induction false} TrimmedNonEmptyClean(names: seq<string>)
    requires forall k :: 0 <= k < |names| ==> CleanName(names[k])
    ensures TrimmedNonEmpty(names) == names
    decreases |names|
  {
    if names != [] {
      TrimmedNonEmptyClean(names[1..]);
      assert [names[0]] + names[1..] == names;
    }
  }

  /** Joining clean names with commas and parsing the result gives the
      names back. */
  lemma ParseJoin(names: seq<string>)
    requires |names| >= 1
    requires forall k :: 0 <= k < |names| ==> CleanName(names[k])
    ensures ParseSpecialties(Join(names, ',')) == names
  {
    SplitJoin(names, ',');
    TrimmedNonEmptyClean(names);
  }

  /** An empty box gives no specialties. */
  lemma ParseEmpty()
    ensures ParseSpecialties("") == []
  {
    assert Split("", ',') == [""];
    assert Trim("") == "";
  }

  /** The add-doctor dialog's fields. */
  datatype DoctorForm = DoctorForm(name: string, title: string, department: string, introduction: string, imageUrl: string)

  /** The form after a successful add: every field cleared, the picture too. */
  const EmptyForm: DoctorForm := DoctorForm("", "", "", "", "")

  /** The only validation: a name and a department are given. */
  predicate Complete(form: DoctorForm)
  {
    form.name != "" && form.department != ""
  }

  const DefaultTitle: string := "主治醫師"

  /** The doctor `handleAddDoctor` builds: id `doc-<Date.now()>`, the title
      defaulting to 主治醫師, the picture to an avatar generated from the
      name, always available. */
  function NewDoctor(form: DoctorForm, specialtiesInput: string, stamp: nat): (d: Doctor)
    ensures d.id == StampedId("doc-", stamp)
    ensures d.name == form.name && d.department == form.department && d.introduction == form.introduction
    ensures form.title != "" ==> d.title == form.title
    ensures form.title == "" ==> d.title == DefaultTitle
    ensures d.specialties == ParseSpecialties(specialtiesInput)
    ensures form.imageUrl == "" ==> d.imageUrl == AvatarUrl(form.name)
    ensures form.imageUrl != "" ==> d.imageUrl == form.imageUrl
    ensures d.isAvailable == Some(true)
  {
    Doctor(
      StampedId("doc-", stamp),
      form.name,
      form.department,
      if form.title != "" then form.title else DefaultTitle,
      ParseSpecialties(specialtiesInput),
      if form.imageUrl != "" then form.imageUrl else AvatarUrl(form.name),
      form.introduction,
      Some(true))
  }

  /** Specialties typed as a comma-separated list of clean names become
      exactly those names. */
  lemma NewDoctorSpecialties(form: DoctorForm, names: seq<string>, stamp: nat)
    requires |names| >= 1
    requires forall k :: 0 <= k < |names| ==> CleanName(names[k])
    ensures NewDoctor(form, Join(names, ','), stamp).specialties == names
  {
    ParseJoin(names);
  }

  /** `doc.name`, `doc.department` or `doc.title` includes the term. */
  function MatchesTerm(term: string): Doctor -> bool
  {
    (d: Doctor) => Contains(d.name, term) || Contains(d.department, term) || Contains(d.title, term)
  }

  /** `filteredDoctors`: the doctors whose name, department or title
      includes the search term, in store order; the empty term keeps all. */
  function FilteredDoctors(doctors: seq<Doctor>, term: string): (r: seq<Doctor>)
    ensures IsSubsequence(r, doctors)
    ensures forall d :: d in r <==> d in doctors && (Contains(d.name, term) || Contains(d.department, term) || Contains(d.title, term))
    ensures term == "" ==> r == doctors
  {
    FilterIsSubsequence(MatchesTerm(term), doctors);
    EmptyTermKeepsAll(doctors, term);
    Filter(MatchesTerm(term), doctors)
  }

  lemma EmptyTermKeepsAll(doctors: seq<Doctor>, term: string)
    ensures term == "" ==> Filter(MatchesTerm(term), doctors) == doctors
  {
    if term == "" {
      forall k | 0 <= k < |doctors|
        ensures MatchesTerm(term)(doctors[k])
      {
        ContainsEmpty(doctors[k].name);
      }
      FilterKeepsAll(MatchesTerm(term), doctors);
    }
  }

  /** The page's state. */
  class AdminDoctorsPage {
    var searchTerm: string
    var isAddOpen: bool
    var formData: DoctorForm
    var specialtiesInput: string

    /** The dialog starts empty except for a placeholder picture. */
    constructor ()
      ensures searchTerm == "" && !isAddOpen && specialtiesInput == ""
      ensures formData == DoctorForm("", "", "", "", AvatarUrl("NewDoc"))
    {
      searchTerm, isAddOpen, specialtiesInput := "", false, "";
      formData := DoctorForm("", "", "", "", AvatarUrl("NewDoc"));
    }

    method SetSearchTerm(term: string)
      modifies this`searchTerm
      ensures searchTerm == term
    {
      searchTerm := term;
    }

    /** Opening or closing the dialog. */
    method SetAddOpen(open: bool)
      modifies this`isAddOpen
      ensures isAddOpen == open
    {
      isAddOpen := open;
    }

    /** An edit to one of the dialog's fields. */
    method SetFormData(form: DoctorForm)
      modifies this`formData
      ensures formData == form
    {
      formData := form;
    }

    method SetSpecialtiesInput(input: string)
      modifies this`specialtiesInput
      ensures specialtiesInput == input
    {
      specialtiesInput := input;
    }

    /** `handleAddDoctor`: without a name or a department nothing happens;
      otherwise the new doctor goes to the store, the dialog closes and the
      form is cleared (the picture too, so the next doctor gets an avatar
      from its name). `stamp` is `Date.now()`; `ok` is whether the store's
      server action succeeds. */
    method HandleAddDoctor(store: HospitalStore, stamp: nat, ok: bool)
      modifies this`isAddOpen, this`formData, this`specialtiesInput, store`doctors
      ensures !Complete(old(formData)) ==> store.doctors == old(store.doctors)
      ensures !Complete(old(formData)) ==> isAddOpen == old(isAddOpen)
      ensures !Complete(old(formData)) ==> formData == old(formData)
      ensures !Complete(old(formData)) ==> specialtiesInput == old(specialtiesInput)
      ensures Complete(old(formData)) && ok ==> store.doctors == old(store.doctors) + [NewDoctor(old(formData), old(specialtiesInput), stamp)]
      ensures Complete(old(formData)) && !ok ==> store.doctors == WithoutId(DoctorKey, old(store.doctors), StampedId("doc-", stamp))
      ensures Complete(old(formData)) ==> !isAddOpen
      ensures Complete(old(formData)) ==> formData == EmptyForm
      ensures Complete(old(formData)) ==> specialtiesInput == ""
    {
      if Complete(formData) {
        store.AddDoctor(NewDoctor(formData, specialtiesInput, stamp), ok);
        isAddOpen, formData, specialtiesInput := false, EmptyForm, "";
      }
    }

    /** The delete button on a doctor's card. */
    method DeleteDoctor(store: HospitalStore, id: string, ok: bool)
      modifies store`doctors
      ensures store.doctors == if ok then WithoutId(DoctorKey, old(store.doctors), id) else old(store.doctors)
    {
      store.DeleteDoctor(id, ok);
    }
  }
}
