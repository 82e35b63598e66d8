/** The edit-product form: its schema, how a loaded product fills the
    form, removing a current image, the category multiselect, and the
    multipart body `onSubmit` assembles. */
module ProductEditForm {

  import opened Wrappers
  import opened Catalog
  import opened Strings
  import opened Validation
  import opened FormPayload

  // ----- Schema

  /** The values the form submits; `images` is the file input. */
  datatype EditValues = EditValues(
    name: string,
    description: Option<string>,
    price: int,
    stock: int,
    categories: Option<seq<string>>)

  /** The schema's rules: a non-empty name, and a price and a stock of at
      least 0. */
  function EditIssues(v: EditValues): (r: seq<Issue>)
    ensures r == [] <==> |v.name| >= 1 && v.price >= 0 && v.stock >= 0
    ensures Issue("name", Some("Nombre requerido")) in r <==> |v.name| < 1
    ensures Issue("price", None) in r <==> v.price < 0
    ensures Issue("stock", Some("El stock no puede ser negativo")) in r <==> v.stock < 0
  {
    (if |v.name| < 1 then [Issue("name", Some("Nombre requerido"))] else []) +
    (if v.price < 0 then [Issue("price", None)] else []) +
    (if v.stock < 0 then [Issue("stock", Some("El stock no puede ser negativo"))] else [])
  }

  // ----- Loading a product

  /** A loaded product's `images` field, which the page does not trust to
      be an array. */
  datatype ImagesField = ImageList(urls: seq<string>) | NotAList

  /** `Array.isArray(images) ? images : []`. */
  function LoadedImages(f: ImagesField): (r: seq<string>)
    ensures f.ImageList? ==> r == f.urls
    ensures f.NotAList? ==> r == []
  {
    match f
    case ImageList(urls) => urls
    case NotAList => []
  }

  /** `categories?.map(cat => typeof cat === 'string' ? cat : cat._id) || []`. */
  function CategoryIds(cats: Option<seq<CategoryRef>>): (r: seq<string>)
  {
    match cats
    case None => []
    case Some(cs) => seq(|cs|, k requires 0 <= k < |cs| =>
                       match cs[k]
                       case RefId(id) => id
                       case RefObject(id, _) => id)
  }

  /** The ids keep the length and order of the product's categories: a
      plain id stays as it is and a populated category gives its `_id`;
      missing categories give none. */
  lemma CategoryIdsMeaning(cats: Option<seq<CategoryRef>>)
    ensures cats.None? ==> CategoryIds(cats) == []
    ensures cats.Some? ==> |CategoryIds(cats)| == |cats.value|
    ensures cats.Some? ==> forall k :: 0 <= k < |cats.value| ==>
      (cats.value[k].RefId? ==> CategoryIds(cats)[k] == cats.value[k].id) &&
      (cats.value[k].RefObject? ==> CategoryIds(cats)[k] == cats.value[k].id)
  {
  }

  /** Ids picked with the multiselect are the categories of a product
      carrying those ids, whether the ids are plain or populated. */
  lemma CategoryIdsRoundTrip(ids: seq<string>, names: seq<string>)
    requires |names| == |ids|
    ensures CategoryIds(Some(seq(|ids|, k requires 0 <= k < |ids| => RefId(ids[k])))) == ids
    ensures CategoryIds(Some(seq(|ids|, k requires 0 <= k < |ids| => RefObject(ids[k], names[k])))) == ids
  {
  }

  // ----- Removing a current image

  /** `images.filter((_, i) => i !== index)`, walking the list with the
      position of its first element. */
  function RemoveAtFrom(images: seq<string>, index: int, from: int): (r: seq<string>)
    decreases |images|
  {
    if images == [] then []
    else (if from != index then [images[0]] else []) + RemoveAtFrom(images[1..], index, from + 1)
  }

  function RemoveImage(images: seq<string>, index: int): seq<string> {
    RemoveAtFrom(images, index, 0)
  }

  lemma {:induction false} RemoveAtFromMeaning(images: seq<string>, index: int, from: int)
    ensures from <= index < from + |images| ==>
      RemoveAtFrom(images, index, from) == images[..index - from] + images[index - from + 1..]
    ensures !(from <= index < from + |images|) ==> RemoveAtFrom(images, index, from) == images
    decreases |images|
  {
    if images != [] {
      RemoveAtFromMeaning(images[1..], index, from + 1);
      if from == index {
        assert images[..0] + images[1..] == images[1..];
      } else if from < index < from + |images| {
        assert [images[0]] + (images[1..][..index - from - 1] + images[1..][index - from..])
            == images[..index - from] + images[index - from + 1..];
      } else {
        assert [images[0]] + images[1..] == images;
      }
    }
  }

  /** Removing image `i` of the list leaves `s[..i] + s[i+1..]`; any
      other index leaves the list as it was. */
  lemma RemoveImageMeaning(images: seq<string>, index: int)
    ensures 0 <= index < |images| ==> RemoveImage(images, index) == images[..index] + images[index + 1..]
    ensures 0 <= index < |images| ==> |RemoveImage(images, index)| == |images| - 1
    ensures !(0 <= index < |images|) ==> RemoveImage(images, index) == images
  {
    RemoveAtFromMeaning(images, index, 0);
  }

  // ----- Submitting

  /** `onSubmit`'s body: `name`, `description` (`''` when missing),
      `price`, `stock`, one `categories[]` per selected id, one
      `currentImages[]` per kept image, then one `images` per new file
      when any was chosen. */
  function EditPayload(data: EditValues, selected: seq<string>, current: seq<string>,
                       files: Option<seq<FileRef>>): seq<Entry>
  {
    EditHead(data) +
    TextEntries("categories[]", selected) +
    TextEntries("currentImages[]", current) +
    (if files.Some? && |files.value| > 0 then FileEntries("images", files.value) else [])
  }

  /** The four plain fields at the head of the body. */
  function EditHead(data: EditValues): seq<Entry> {
    [Entry("name", Text(data.name)),
     Entry("description", Text(OrDefault(data.description, ""))),
     Entry("price", Text(IntToString(data.price))),
     Entry("stock", Text(IntToString(data.stock)))]
  }

  lemma EditHeadReads(data: EditValues, key: string)
    ensures GetAll(EditHead(data), key) ==
      (if key == "name" then [Text(data.name)]
       else if key == "description" then [Text(OrDefault(data.description, ""))]
       else if key == "price" then [Text(IntToString(data.price))]
       else if key == "stock" then [Text(IntToString(data.stock))]
       else [])
  {
    var h := EditHead(data);
    assert h == [h[0]] + [h[1]] + [h[2]] + [h[3]];
    GetAllConcat([h[0]] + [h[1]] + [h[2]], [h[3]], key);
    GetAllConcat([h[0]] + [h[1]], [h[2]], key);
    GetAllConcat([h[0]], [h[1]], key);
    GetAllOne(h[0], key);
    GetAllOne(h[1], key);
    GetAllOne(h[2], key);
    GetAllOne(h[3], key);
  }

  /** Reading one key back from the body: the head's value, the selected
      categories, the kept images or the new files. */
  lemma EditPayloadGetAll(data: EditValues, selected: seq<string>, current: seq<string>,
                          files: Option<seq<FileRef>>, key: string)
    ensures GetAll(EditPayload(data, selected, current, files), key) ==
      GetAll(EditHead(data), key) +
      (if key == "categories[]" then Texts(selected) else []) +
      (if key == "currentImages[]" then Texts(current) else []) +
      (if key == "images" && files.Some? && |files.value| > 0 then Blobs(files.value) else [])
  {
    var head := EditHead(data);
    var cs := TextEntries("categories[]", selected);
    var ims := TextEntries("currentImages[]", current);
    var fs := if files.Some? && |files.value| > 0 then FileEntries("images", files.value) else [];
    assert EditPayload(data, selected, current, files) == head + cs + ims + fs;
    GetAllConcat(head + cs + ims, fs, key);
    GetAllConcat(head + cs, ims, key);
    GetAllConcat(head, cs, key);
    GetAllTextEntries("categories[]", selected, key);
    GetAllTextEntries("currentImages[]", current, key);
    if files.Some? && |files.value| > 0 {
      GetAllFileEntries("images", files.value, key);
    }
  }

  /** What the server reads back from the body: every field, the numbers
      as written, the selected categories and the kept images in order,
      and the new files exactly when some were chosen. */
  lemma EditPayloadReadsBack(data: EditValues, selected: seq<string>, current: seq<string>,
                             files: Option<seq<FileRef>>)
    ensures Get(EditPayload(data, selected, current, files), "name") == Some(Text(data.name))
    ensures Get(EditPayload(data, selected, current, files), "description") ==
            Some(Text(if data.description.Some? then data.description.value else ""))
    ensures Get(EditPayload(data, selected, current, files), "price") == Some(Text(IntToString(data.price)))
    ensures Get(EditPayload(data, selected, current, files), "stock") == Some(Text(IntToString(data.stock)))
    ensures ParseInt(IntToString(data.price)) == Some(data.price)
    ensures ParseInt(IntToString(data.stock)) == Some(data.stock)
    ensures GetAll(EditPayload(data, selected, current, files), "categories[]") == Texts(selected)
    ensures GetAll(EditPayload(data, selected, current, files), "currentImages[]") == Texts(current)
    ensures GetAll(EditPayload(data, selected, current, files), "images") ==
            (if files.Some? && |files.value| > 0 then Blobs(files.value) else [])
  {
    var body := EditPayload(data, selected, current, files);
    assert GetAll(body, "name") == [Text(data.name)] by {
      EditPayloadGetAll(data, selected, current, files, "name");
      EditHeadReads(data, "name");
    }
    assert GetAll(body, "description") == [Text(OrDefault(data.description, ""))] by {
      EditPayloadGetAll(data, selected, current, files, "description");
      EditHeadReads(data, "description");
    }
    assert GetAll(body, "price") == [Text(IntToString(data.price))] by {
      EditPayloadGetAll(data, selected, current, files, "price");
      EditHeadReads(data, "price");
    }
    assert GetAll(body, "stock") == [Text(IntToString(data.stock))] by {
      EditPayloadGetAll(data, selected, current, files, "stock");
      EditHeadReads(data, "stock");
    }
    assert GetAll(body, "categories[]") == Texts(selected) by {
      EditPayloadGetAll(data, selected, current, files, "categories[]");
      EditHeadReads(data, "categories[]");
    }
    assert GetAll(body, "currentImages[]") == Texts(current) by {
      EditPayloadGetAll(data, selected, current, files, "currentImages[]");
      EditHeadReads(data, "currentImages[]");
    }
    assert GetAll(body, "images") == (if files.Some? && |files.value| > 0 then Blobs(files.value) else []) by {
      EditPayloadGetAll(data, selected, current, files, "images");
      EditHeadReads(data, "images");
    }
    IntToStringRoundTrip(data.price);
    IntToStringRoundTrip(data.stock);
  }

  /** A product as the edit page receives it. */
  datatype LoadedProduct = LoadedProduct(
    name: string,
    description: Option<string>,
    price: int,
    stock: int,
    images: ImagesField,
    categories: Option<seq<CategoryRef>>)

  /** What `getProductById` produced. */
  datatype ProductLoad = Answered(success: bool, data: Option<LoadedProduct>) | LoadThrew

  /** There was an id, and the answer carried a product. */
  predicate Loads(id: Option<string>, fetch: ProductLoad) {
    Truthy(id) && fetch.Answered? && fetch.success && fetch.data.Some?
  }

  /** The edit page's state. `selectedCategories` and the form's
      `categories` value are two copies the multiselect keeps equal. */
  class EditProductPage {
    var isLoading: bool
    var currentImages: seq<string>
    var selectedCategories: seq<string>
    var formCategories: Option<seq<string>>

    constructor()
      ensures isLoading && currentImages == [] && selectedCategories == [] && formCategories == None
    {
      isLoading := true;
      currentImages := [];
      selectedCategories := [];
      formCategories := None;
    }

    /** The multiselect's `onValueChange`. */
    method ChangeCategories(values: seq<string>)
      modifies this
      ensures selectedCategories == values && formCategories == Some(values)
      ensures Synced()
      ensures isLoading == old(isLoading) && currentImages == old(currentImages)
    {
      selectedCategories := values;
      formCategories := Some(values);
    }

    /** The remove button of current image `index`. */
    method RemoveCurrentImage(index: nat)
      requires index < |currentImages|
      modifies this
      ensures currentImages == old(currentImages[..index] + currentImages[index + 1..])
      ensures selectedCategories == old(selectedCategories) && formCategories == old(formCategories)
      ensures isLoading == old(isLoading)
    {
      RemoveImageMeaning(currentImages, index);
      currentImages := RemoveImage(currentImages, index);
    }

    /** The two copies of the selected categories agree wherever the
        form holds a value. */
    predicate Synced()
      reads this
    {
      formCategories.Some? ==> formCategories.value == selectedCategories
    }

    /** The loading effect, after the category list arrived, for route
        `id`. Only a successful answer with data touches the form. */
    method LoadProduct(id: Option<string>, fetch: ProductLoad)
      modifies this
      ensures !isLoading
      ensures Loads(id, fetch) ==>
        currentImages == LoadedImages(fetch.data.value.images) &&
        selectedCategories == CategoryIds(fetch.data.value.categories) &&
        formCategories == Some(CategoryIds(fetch.data.value.categories))
      ensures !Loads(id, fetch) ==>
        currentImages == old(currentImages) &&
        selectedCategories == old(selectedCategories) &&
        formCategories == old(formCategories)
      ensures old(Synced()) ==> Synced()
    {
      if Truthy(id) && fetch.Answered? && fetch.success && fetch.data.Some? {
        var product := fetch.data.value;
        currentImages := LoadedImages(product.images);
        var ids := CategoryIds(product.categories);
        selectedCategories := ids;
        formCategories := Some(ids);
      }
      isLoading := false;
    }

    /** `onSubmit`: the body appended entry by entry. */
    method Submit(data: EditValues, files: Option<seq<FileRef>>) returns (formData: seq<Entry>)
      ensures formData == EditPayload(data, selectedCategories, currentImages, files)
      ensures Synced() && formCategories.Some? ==>
        GetAll(formData, "categories[]") == Texts(formCategories.value)
    {
      formData := [Entry("name", Text(data.name))];
      formData := formData + [Entry("description", Text(OrDefault(data.description, "")))];
      formData := formData + [Entry("price", Text(IntToString(data.price)))];
      formData := formData + [Entry("stock", Text(IntToString(data.stock)))];
      assert formData == EditHead(data);
      var head := formData;
      var i := 0;
      while i < |selectedCategories|
        invariant 0 <= i <= |selectedCategories|
        invariant formData == head + TextEntries("categories[]", selectedCategories[..i])
      {
        TextEntriesSnoc("categories[]", selectedCategories, i);
        formData := formData + [Entry("categories[]", Text(selectedCategories[i]))];
        i := i + 1;
      }
      assert selectedCategories[..i] == selectedCategories;
      head := formData;
      var j := 0;
      while j < |currentImages|
        invariant 0 <= j <= |currentImages|
        invariant formData == head + TextEntries("currentImages[]", currentImages[..j])
      {
        TextEntriesSnoc("currentImages[]", currentImages, j);
        formData := formData + [Entry("currentImages[]", Text(currentImages[j]))];
        j := j + 1;
      }
      assert currentImages[..j] == currentImages;
      if files.Some? && |files.value| > 0 {
        var fs := files.value;
        head := formData;
        var k := 0;
        while k < |fs|
          invariant 0 <= k <= |fs|
          invariant formData == head + FileEntries("images", fs[..k])
        {
          FileEntriesSnoc("images", fs, k);
          formData := formData + [Entry("images", Blob(fs[k]))];
          k := k + 1;
        }
        assert fs[..k] == fs;
      }
      EditPayloadReadsBack(data, selectedCategories, currentImages, files);
    }
  }
}
