/** src/components/pages/Crew.jsx: the searchable crew list, the role
    badge and the save and delete handlers. */
module CrewPage {
  import opened Wrappers
  import opened Json
  import opened Text
  import opened Seqs
  import opened Documents
  import opened Store
  import opened Search
  import opened PageActions

  /** The fields the crew search reads. */
  const SearchedFields: seq<string> := ["name", "role"]

  /** The roles that have a badge colour of their own. */
  const ColouredRoles: seq<string> := ["foreman", "carpenter", "electrician", "plumber", "laborer",
    "operator", "mason", "welder", "painter", "other"]

  /** `filteredCrew`: `None` when a name or role that is neither a string
      nor `null` makes `toLowerCase` throw. */
  function FilteredCrew(crew: seq<Doc>, searchTerm: string): Option<seq<Doc>> {
    SearchList(crew, SearchedFields, Lower(searchTerm))
  }

  /** The key of `roleColors[member.role] || roleColors.other`. */
  function RoleColourKey(member: Doc): (key: string)
    ensures key in ColouredRoles
  {
    match Field(member, "role")
    case Some(Str(r)) => if r in ColouredRoles then r else "other"
    case _ => "other"
  }

  /** `member.role || "Unassigned"`, as the badge prints it. */
  function RoleLabel(member: Doc): string {
    if FieldTruthy(member, "role") then ToText(Field(member, "role")) else "Unassigned"
  }

  /** `handleSave(data)`. */
  method HandleSave(store: EntityStore, editingId: Option<string>, data: Doc, freshId: string, now: string)
    returns (r: Result<Doc, StoreError>)
    requires store.Valid()
    modifies store
    ensures store.Valid()
    ensures editingId.Some? ==> var s := UpdateDocument(old(store.crew), editingId.value, data, now);
      r == s.result && store.crew == s.table
    ensures editingId.None? ==> var s := CreateDocument(old(store.crew), data, RequiredFields(Crew), freshId, now);
      r == s.result && store.crew == s.table
    ensures forall kind: Kind :: kind != Crew ==> store.Table(kind) == old(store.Table(kind))
  {
    r := SaveOrCreate(store, Crew, editingId, data, freshId, now);
  }

  /** `handleDelete(id)` after the "Delete this crew member?" prompt. */
  method HandleDelete(store: EntityStore, id: string, confirmed: bool) returns (r: Option<Result<string, StoreError>>)
    requires store.Valid()
    modifies store
    ensures store.Valid()
    ensures confirmed ==> var s := DeleteDocument(old(store.crew), id);
      r == Some(s.result) && store.crew == s.table
    ensures !confirmed ==> r.None? && store.crew == old(store.crew)
    ensures forall kind: Kind :: kind != Crew ==> store.Table(kind) == old(store.Table(kind))
  {
    r := ConfirmDelete(store, Crew, id, confirmed);
  }

  // ---------------------------------------------------------------------------

  /** The search keeps, in order, the members whose name or role contains
      the term in any case, whenever it does not throw. */
  lemma FilteredCrewMeaning(crew: seq<Doc>, searchTerm: string)
    requires FilteredCrew(crew, searchTerm).Some?
    ensures IsSublist(FilteredCrew(crew, searchTerm).value, crew)
    ensures forall d :: d in FilteredCrew(crew, searchTerm).value <==>
      d in crew && (TextFieldContains(d, "name", Lower(searchTerm)) || TextFieldContains(d, "role", Lower(searchTerm)))
  {
    SearchListExact(crew, SearchedFields, Lower(searchTerm));
    assert SearchedFields[0] == "name" && SearchedFields[1] == "role";
  }

  /** An empty term keeps every member whose name or role is a string. */
  lemma EmptyTermKeepsNamedMembers(crew: seq<Doc>, d: Doc)
    requires FilteredCrew(crew, "").Some?
    requires d in crew && (("name" in d && d["name"].Str?) || ("role" in d && d["role"].Str?))
    ensures d in FilteredCrew(crew, "").value
  {
    assert Lower("") == "";
    if "name" in d && d["name"].Str? {
      EmptyTermFindsTextual(crew, SearchedFields, d, 0);
    } else {
      EmptyTermFindsTextual(crew, SearchedFields, d, 1);
    }
  }

  /** A known role has its own colour; an unknown, missing or non-text role
      falls back to "other". */
  lemma RoleColourMeaning(member: Doc)
    ensures (exists r :: Field(member, "role") == Some(Str(r)) && r in ColouredRoles) ==>
      Some(Str(RoleColourKey(member))) == Field(member, "role")
    ensures !(exists r :: Field(member, "role") == Some(Str(r)) && r in ColouredRoles) ==>
      RoleColourKey(member) == "other"
  {
  }

  /** A missing, `null` or empty role is labelled "Unassigned"; a role
      given as text is shown as it is. */
  lemma RoleLabelMeaning(member: Doc)
    ensures !FieldTruthy(member, "role") ==> RoleLabel(member) == "Unassigned"
    ensures forall r :: r != "" && Field(member, "role") == Some(Str(r)) ==> RoleLabel(member) == r
    ensures Field(member, "role").None? ==> RoleLabel(member) == "Unassigned" && RoleColourKey(member) == "other"
  {
  }
}
