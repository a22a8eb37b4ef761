/** The state of the page component of src/app/page.tsx and its list
    handlers. Each React state field is a field of class Home; each handler
    replaces fields the way its setters do, using the list transforms of
    module Materials. */
module Home {
  import opened Common
  import opened Materials

  /** The detail view's edit form: `editContent`. */
  datatype EditDraft = EditDraft(title: string, content: string)

  class Page {
    var materials: seq<Material>
    var newItem: Draft
    var showAddSheet: bool
    var searchQuery: string
    var selectedCategory: Option<string>
    var selectedMaterial: Option<Material>
    var isEditing: bool
    var editContent: EditDraft
    var showDeleteConfirm: bool

    /** A page over the records loaded at start-up (stored or sample data). */
    constructor (initial: seq<Material>)
      ensures materials == initial && newItem == EmptyDraft && !showAddSheet
      ensures searchQuery == "" && selectedCategory.None?
      ensures selectedMaterial.None? && !isEditing && editContent == EditDraft("", "") && !showDeleteConfirm
    {
      materials := initial;
      newItem := EmptyDraft;
      showAddSheet := false;
      searchQuery := "";
      selectedCategory := None;
      selectedMaterial := None;
      isEditing := false;
      editContent := EditDraft("", "");
      showDeleteConfirm := false;
    }

    /** The records the list and search views show: those that match the
        search query and the selected category, in list order and with their
        multiplicity. */
    function FilteredMaterials(): (r: seq<Material>)
      reads this
      ensures IsSubsequence(r, materials)
      ensures forall m :: multiset(r)[m] ==
                            if MatchesSearch(m, searchQuery) && MatchesCategory(m, selectedCategory)
                            then multiset(materials)[m] else 0
    {
      FilteredSpec(materials, searchQuery, selectedCategory);
      Filtered(materials, searchQuery, selectedCategory)
    }

    /** handleAdd: a blank title does nothing; otherwise the new record goes
        in front, and the form is reset and closed. */
    method HandleAdd(id: string, now: int)
      modifies this
      ensures materials == Added(old(materials), old(newItem), id, now)
      ensures Trim(old(newItem.title)) == "" ==> newItem == old(newItem) && showAddSheet == old(showAddSheet)
      ensures Trim(old(newItem.title)) != "" ==> newItem == EmptyDraft && !showAddSheet
      ensures selectedMaterial == old(selectedMaterial) && isEditing == old(isEditing)
      ensures searchQuery == old(searchQuery) && selectedCategory == old(selectedCategory)
      ensures editContent == old(editContent) && showDeleteConfirm == old(showDeleteConfirm)
    {
      var blank := Trim(newItem.title) == "";
      if blank {
        return;
      }
      materials := [NewMaterial(newItem, id, now)] + materials;
      newItem := EmptyDraft;
      showAddSheet := false;
    }

    /** toggleFavorite: flip the favourite flag of the records with this id,
        and of the open detail record when it has this id. */
    method ToggleFavorite(id: string)
      modifies this
      ensures materials == Toggled(old(materials), id)
      ensures old(selectedMaterial).Some? && old(selectedMaterial).value.id == id ==>
                selectedMaterial == Some(Toggle(old(selectedMaterial).value))
      ensures old(selectedMaterial).None? || old(selectedMaterial).value.id != id ==>
                selectedMaterial == old(selectedMaterial)
      ensures newItem == old(newItem) && showAddSheet == old(showAddSheet) && isEditing == old(isEditing)
      ensures searchQuery == old(searchQuery) && selectedCategory == old(selectedCategory)
      ensures editContent == old(editContent) && showDeleteConfirm == old(showDeleteConfirm)
    {
      materials := Toggled(materials, id);
      if selectedMaterial.Some? && selectedMaterial.value.id == id {
        selectedMaterial := Some(Toggle(selectedMaterial.value));
      }
    }

    /** handleDelete: remove the records with this id, close the detail view
        and the delete confirmation. */
    method HandleDelete(id: string)
      modifies this
      ensures materials == Deleted(old(materials), id)
      ensures selectedMaterial.None? && !showDeleteConfirm
      ensures newItem == old(newItem) && showAddSheet == old(showAddSheet) && isEditing == old(isEditing)
      ensures searchQuery == old(searchQuery) && selectedCategory == old(selectedCategory)
      ensures editContent == old(editContent)
    {
      materials := Deleted(materials, id);
      selectedMaterial := None;
      showDeleteConfirm := false;
    }

    /** openDetail: select a record and load its title and content into the
        edit form. */
    method OpenDetail(m: Material)
      modifies this
      ensures selectedMaterial == Some(m) && editContent == EditDraft(m.title, m.content) && !isEditing
      ensures materials == old(materials) && newItem == old(newItem) && showAddSheet == old(showAddSheet)
      ensures searchQuery == old(searchQuery) && selectedCategory == old(selectedCategory)
      ensures showDeleteConfirm == old(showDeleteConfirm)
    {
      selectedMaterial := Some(m);
      editContent := EditDraft(m.title, m.content);
      isEditing := false;
    }

    /** handleEdit: with no record selected nothing happens; otherwise the
        edit form's title and content replace those of the records with the
        selected id and of the selected record, and editing ends. The title
        is not checked for blankness here. */
    method HandleEdit()
      modifies this
      ensures old(selectedMaterial).None? ==> unchanged(this)
      ensures old(selectedMaterial).Some? ==>
                && materials == Edited(old(materials), old(selectedMaterial).value.id,
                                       old(editContent).title, old(editContent).content)
                && selectedMaterial == Some(old(selectedMaterial).value.(title := old(editContent).title,
                                                                         content := old(editContent).content))
                && !isEditing
      ensures newItem == old(newItem) && showAddSheet == old(showAddSheet)
      ensures searchQuery == old(searchQuery) && selectedCategory == old(selectedCategory)
      ensures editContent == old(editContent) && showDeleteConfirm == old(showDeleteConfirm)
    {
      if selectedMaterial.None? {
        return;
      }
      var sel := selectedMaterial.value;
      materials := Edited(materials, sel.id, editContent.title, editContent.content);
      selectedMaterial := Some(sel.(title := editContent.title, content := editContent.content));
      isEditing := false;
    }
  }
}
