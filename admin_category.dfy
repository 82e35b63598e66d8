/** The admin category page: cleaning the creation form, the create and
    delete handlers with their loading flag and pending deletion, the
    filter that renders the category tree, and the parent picker's flat
    option list. Toasts and requests are recorded in an event log. */
module AdminCategory {

  import opened Wrappers
  import opened Catalog
  import opened Strings
  import opened CategoryTree
  import Arrays

  /** The creation form as typed; `parent` is `'none'` or a category id. */
  datatype CategoryForm = CategoryForm(name: string, description: string, icon: string, parent: string)

  const EmptyForm := CategoryForm("", "", "", "none")

  /** The object handed to `createCategory`; `None` is `undefined`. */
  datatype CategoryDraft = CategoryDraft(
    name: Option<string>,
    description: Option<string>,
    icon: Option<string>,
    parent: Option<string>)

  /** `s.trim() || undefined`. */
  function TrimmedOrUndefined(s: string): Option<string> {
    if Trim(s) == "" then None else Some(Trim(s))
  }

  /** A value is dropped exactly when it is blank; otherwise it is kept
      trimmed, with no white space left at either end. */
  lemma TrimmedOrUndefinedMeaning(s: string)
    ensures TrimmedOrUndefined(s).None? <==> AllWhitespace(s)
    ensures TrimmedOrUndefined(s).Some? ==>
      var v := TrimmedOrUndefined(s).value;
      v == Trim(s) && v != [] && !IsWhitespace(v[0]) && !IsWhitespace(v[|v| - 1])
  {
    TrimEmptyIff(s);
    TrimMeaning(s);
  }

  /** Cleaning an already cleaned value changes nothing. */
  lemma TrimmedOrUndefinedStable(s: string)
    requires TrimmedOrUndefined(s).Some?
    ensures TrimmedOrUndefined(TrimmedOrUndefined(s).value) == TrimmedOrUndefined(s)
  {
    TrimIdempotent(s);
  }

  /** `cleanForm`. */
  function CleanForm(form: CategoryForm): CategoryDraft {
    CategoryDraft(
      TrimmedOrUndefined(form.name),
      TrimmedOrUndefined(form.description),
      TrimmedOrUndefined(form.icon),
      if form.parent == "none" then None else TrimmedOrUndefined(form.parent))
  }

  /** Every text field comes out trimmed, or dropped when blank; the parent
      is also dropped when it is `'none'`. */
  lemma CleanFormMeaning(form: CategoryForm)
    ensures var d := CleanForm(form);
      (d.name.None? <==> AllWhitespace(form.name)) &&
      (d.name.Some? ==> d.name.value == Trim(form.name)) &&
      (d.description.None? <==> AllWhitespace(form.description)) &&
      (d.description.Some? ==> d.description.value == Trim(form.description)) &&
      (d.icon.None? <==> AllWhitespace(form.icon)) &&
      (d.icon.Some? ==> d.icon.value == Trim(form.icon)) &&
      (d.parent.None? <==> form.parent == "none" || AllWhitespace(form.parent)) &&
      (d.parent.Some? ==> d.parent.value == Trim(form.parent))
  {
    TrimmedOrUndefinedMeaning(form.name);
    TrimmedOrUndefinedMeaning(form.description);
    TrimmedOrUndefinedMeaning(form.icon);
    TrimmedOrUndefinedMeaning(form.parent);
  }

  /** One entry of the parent picker: `{ id: _id, name }`. */
  datatype CategoryOption = CategoryOption(id: string, name: string)

  /** `getAllCategoriesFlat`. */
  function AllCategoriesFlat(cats: seq<Category>): (r: seq<CategoryOption>)
    ensures |r| == |cats|
    ensures forall k :: 0 <= k < |r| ==> r[k] == CategoryOption(cats[k].id, cats[k].name)
  {
    seq(|cats|, k requires 0 <= k < |cats| => CategoryOption(cats[k].id, cats[k].name))
  }

  /** Picking a category in the parent picker sends that category's id as
      `parent`, provided the id is not `'none'` and has no surrounding
      white space. */
  lemma PickedParentIsSent(cats: seq<Category>, k: nat, form: CategoryForm)
    requires k < |cats| && form.parent == AllCategoriesFlat(cats)[k].id
    requires cats[k].id != "none" && cats[k].id != [] &&
             !IsWhitespace(cats[k].id[0]) && !IsWhitespace(cats[k].id[|cats[k].id| - 1])
    ensures CleanForm(form).parent == Some(cats[k].id)
  {
    TrimOfTrimmed(cats[k].id);
  }

  // ----- The rendered tree

  /** The render filter's test, branch by branch: a falsy parent matches
      the top level, a string parent and an object parent's `_id` match
      the level of that id. */
  predicate RenderTest(cat: Category, parentId: Option<string>) {
    match cat.parent
    case Absent => parentId == None
    case ById(id) => if id == "" then parentId == None else Some(id) == parentId
    case ByObject(id) => Some(id) == parentId
  }

  /** `renderCategoryTree`'s children for one level, or `None` when it
      renders nothing. */
  function RenderedChildren(cats: seq<Category>, parentId: Option<string>): Option<seq<Category>> {
    var children := Arrays.Filter(cats, c => RenderTest(c, parentId));
    if |children| == 0 then None else Some(children)
  }

  /** The render filter keeps exactly what the tree builder selects. */
  lemma RenderMatchesBuilder(cats: seq<Category>, parentId: Option<string>)
    ensures RenderedChildren(cats, parentId) ==
            (if Select(cats, parentId) == [] then None else Some(Select(cats, parentId)))
  {
    forall k | 0 <= k < |cats|
      ensures (c => RenderTest(c, parentId))(cats[k]) == ChildTest(parentId)(cats[k])
    {
      assert RenderTest(cats[k], parentId) == IsChildOf(cats[k], parentId);
    }
    Arrays.FilterAgree(cats, c => RenderTest(c, parentId), ChildTest(parentId));
  }

  /** The admin tree shows the same structure as the built forest: the top
      level renders nothing exactly when the forest is empty, and under any
      node it renders exactly that node's children, or nothing when it has
      none. */
  lemma RenderedTreeIsForest(cats: seq<Category>, p: seq<Node>)
    requires UniqueIds(cats)
    ensures RenderedChildren(cats, None) ==
            (if BuildCategoryTree(cats) == [] then None else Some(Records(BuildCategoryTree(cats))))
    ensures IsForestPath(BuildCategoryTree(cats), p) ==>
      var n := p[|p| - 1];
      RenderedChildren(cats, Some(n.record.id)) == (if n.children == [] then None else Some(Records(n.children)))
  {
    RenderMatchesBuilder(cats, None);
    if IsForestPath(BuildCategoryTree(cats), p) {
      PathIsChain(cats, BuildCategoryTree(cats), None, p);
      RenderMatchesBuilder(cats, Some(p[|p| - 1].record.id));
    }
  }

  // ----- Handlers

  /** What the page shows or asks for, in order. */
  datatype Event =
    | LoadingSet(on: bool)
    | CreateCall(draft: CategoryDraft)
    | DeleteCall(id: string)
    | FetchCall
    | ToastSuccess(message: string)
    | ToastError(message: string, description: Option<string>)

  /** What `createCategory` produced: a response, whose `_id` may be
      missing, or a thrown error. */
  datatype CreateResponse = Created(id: Option<string>) | CreateThrew

  /** What `deleteCategory` produced. */
  datatype DeleteResponse =
    | Deleted(success: bool, message: string, error: Option<string>)
    | DeleteThrew(errorMessage: Option<string>)

  /** What `getAllCategories` produced inside `fetchCategories`. */
  datatype FetchOutcome = Fetched(data: seq<Category>) | FetchThrew(message: Option<string>)

  predicate CreateSucceeded(r: CreateResponse) {
    r.Created? && Truthy(r.id)
  }

  /** The events of one `handleSubmit` call for the cleaned form `draft`. */
  function SubmitEvents(draft: CategoryDraft, create: CreateResponse, fetch: FetchOutcome): seq<Event> {
    if draft.name.None? then [ToastError("El nombre es requerido", None)]
    else
      [LoadingSet(true), CreateCall(draft)] +
      (if CreateSucceeded(create) then
         [ToastSuccess("Categoría creada exitosamente"), FetchCall] +
         (if fetch.Fetched? then [] else [ToastError("Error al crear la categoría", None)])
       else [ToastError("Error al crear la categoría", None)]) +
      [LoadingSet(false)]
  }

  /** The events of one `confirmDelete` call for the pending id. */
  function DeleteEvents(pending: Option<string>, response: DeleteResponse, fetch: FetchOutcome): seq<Event> {
    if !Truthy(pending) then []
    else
      [LoadingSet(true), DeleteCall(pending.value)] +
      (match response
       case Deleted(success, message, error) =>
         if success then
           [ToastSuccess(message), FetchCall] +
           (if fetch.Fetched? then []
            else [ToastError("Error al eliminar la categoría", Some(OrDefault(fetch.message, "Ocurrió un error inesperado")))])
         else [ToastError(message, error)]
       case DeleteThrew(m) =>
         [ToastError("Error al eliminar la categoría", Some(OrDefault(m, "Ocurrió un error inesperado")))]) +
      [LoadingSet(false)]
  }

  predicate IsRequest(e: Event) {
    e.CreateCall? || e.DeleteCall? || e.FetchCall?
  }

  /** A request-free event list that sets no loading flag. */
  predicate Quiet(s: seq<Event>) {
    forall k :: 0 <= k < |s| ==> !IsRequest(s[k]) && !s[k].LoadingSet?
  }

  /** The loading flag is raised first and lowered last, and every request
      in between is made while it is up: exactly one create request for a
      named form, and for a blank name nothing but the error toast. */
  lemma SubmitBracketed(draft: CategoryDraft, create: CreateResponse, fetch: FetchOutcome)
    ensures var s := SubmitEvents(draft, create, fetch);
      if draft.name.None? then Quiet(s) && s == [ToastError("El nombre es requerido", None)]
      else
        |s| >= 4 && s[0] == LoadingSet(true) && s[1] == CreateCall(draft) && s[|s| - 1] == LoadingSet(false) &&
        (forall k :: 1 < k < |s| - 1 ==> !s[k].LoadingSet? && !s[k].CreateCall?) &&
        (ToastSuccess("Categoría creada exitosamente") in s <==> CreateSucceeded(create)) &&
        (FetchCall in s <==> CreateSucceeded(create))
  {
    var s := SubmitEvents(draft, create, fetch);
    if draft.name.Some? {
      if CreateSucceeded(create) {
        assert s[2] == ToastSuccess("Categoría creada exitosamente") && s[3] == FetchCall;
      } else {
        assert forall k :: 0 <= k < |s| ==> s[k] != FetchCall && s[k] != ToastSuccess("Categoría creada exitosamente");
      }
    }
  }

  /** Nothing happens without a pending id; otherwise the delete request
      is made while the loading flag is up, and the flag comes down last. */
  lemma DeleteBracketed(pending: Option<string>, response: DeleteResponse, fetch: FetchOutcome)
    ensures var s := DeleteEvents(pending, response, fetch);
      if !Truthy(pending) then s == []
      else
        |s| >= 4 && s[0] == LoadingSet(true) && s[1] == DeleteCall(pending.value) && s[|s| - 1] == LoadingSet(false) &&
        (forall k :: 1 < k < |s| - 1 ==> !s[k].LoadingSet? && !s[k].DeleteCall?) &&
        (FetchCall in s <==> response.Deleted? && response.success)
  {
    var s := DeleteEvents(pending, response, fetch);
    if Truthy(pending) && !(response.Deleted? && response.success) {
      assert forall k :: 0 <= k < |s| ==> s[k] != FetchCall;
    }
  }

  class AdminCategoryPage {
    var categories: seq<Category>
    var isLoading: bool
    var form: CategoryForm
    var categoryToDelete: Option<string>
    var events: seq<Event>

    constructor()
      ensures categories == [] && !isLoading && form == EmptyForm && categoryToDelete == None && events == []
    {
      categories := [];
      isLoading := false;
      form := EmptyForm;
      categoryToDelete := None;
      events := [];
    }

    /** The trash button of a category. */
    method SelectForDeletion(id: string)
      modifies this
      ensures categoryToDelete == Some(id)
      ensures categories == old(categories) && isLoading == old(isLoading) && form == old(form) && events == old(events)
    {
      categoryToDelete := Some(id);
    }

    /** Closing the confirmation dialog. */
    method DismissDialog()
      modifies this
      ensures categoryToDelete == None
      ensures categories == old(categories) && isLoading == old(isLoading) && form == old(form) && events == old(events)
    {
      categoryToDelete := None;
    }

    /** `handleSubmit` with the outcomes of `createCategory` and of the
        following `fetchCategories`. */
    method HandleSubmit(create: CreateResponse, fetch: FetchOutcome)
      modifies this
      ensures events == old(events) + SubmitEvents(CleanForm(old(form)), create, fetch)
      ensures isLoading == (if CleanForm(old(form)).name.None? then old(isLoading) else false)
      ensures form == (if CleanForm(old(form)).name.Some? && CreateSucceeded(create) then EmptyForm else old(form))
      ensures categories == (if CleanForm(old(form)).name.Some? && CreateSucceeded(create) && fetch.Fetched?
                             then fetch.data else old(categories))
      ensures categoryToDelete == old(categoryToDelete)
    {
      var draft := CleanForm(form);
      if draft.name.None? {
        events := events + [ToastError("El nombre es requerido", None)];
        return;
      }
      isLoading := true;
      events := events + [LoadingSet(true), CreateCall(draft)];
      if CreateSucceeded(create) {
        events := events + [ToastSuccess("Categoría creada exitosamente")];
        form := EmptyForm;
        events := events + [FetchCall];
        if fetch.Fetched? {
          categories := fetch.data;
        } else {
          events := events + [ToastError("Error al crear la categoría", None)];
        }
      } else {
        events := events + [ToastError("Error al crear la categoría", None)];
      }
      isLoading := false;
      events := events + [LoadingSet(false)];
    }

    /** `confirmDelete` with the outcomes of `deleteCategory` and of the
        following `fetchCategories`. */
    method ConfirmDelete(response: DeleteResponse, fetch: FetchOutcome)
      modifies this
      ensures events == old(events) + DeleteEvents(old(categoryToDelete), response, fetch)
      ensures !Truthy(old(categoryToDelete)) ==>
        isLoading == old(isLoading) && categoryToDelete == old(categoryToDelete) && categories == old(categories)
      ensures Truthy(old(categoryToDelete)) ==>
        !isLoading && categoryToDelete == None &&
        categories == (if response.Deleted? && response.success && fetch.Fetched? then fetch.data else old(categories))
      ensures form == old(form)
    {
      if !Truthy(categoryToDelete) {
        return;
      }
      var id := categoryToDelete.value;
      isLoading := true;
      events := events + [LoadingSet(true), DeleteCall(id)];
      match response {
        case Deleted(success, message, error) =>
          if success {
            events := events + [ToastSuccess(message), FetchCall];
            if fetch.Fetched? {
              categories := fetch.data;
            } else {
              events := events + [ToastError("Error al eliminar la categoría", Some(OrDefault(fetch.message, "Ocurrió un error inesperado")))];
            }
          } else {
            events := events + [ToastError(message, error)];
          }
        case DeleteThrew(m) =>
          events := events + [ToastError("Error al eliminar la categoría", Some(OrDefault(m, "Ocurrió un error inesperado")))];
      }
      isLoading := false;
      categoryToDelete := None;
      events := events + [LoadingSet(false)];
    }
  }
}
