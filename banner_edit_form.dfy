/** The edit-banner form: how a loaded banner fills the form (dates cut
    to the calendar day, call-to-action defaults), the current image the
    page keeps unless it is removed, and the body `onSubmit` assembles. */
module BannerEditForm {

  import opened Wrappers
  import opened Catalog
  import opened Strings
  import opened FormPayload
  import opened BannerForm

  /** An ISO timestamp cut to its date part, `s.split('T')[0]`. */
  function DatePart(s: string): string {
    BeforeFirst(s, 'T')
  }

  /** The values `reset` gives the form for a loaded banner. */
  function LoadValues(b: Banner): BannerValues {
    BannerValues(
      b.title,
      b.subtitle,
      Some(OrDefault(b.cta, DefaultCta)),
      Some(OrDefault(b.ctaLink, DefaultCtaLink)),
      Some(OrDefault(b.bgColor, DefaultBgColor)),
      b.order,
      b.isActive,
      DatePart(b.startDate),
      if Truthy(b.endDate) then Some(DatePart(b.endDate.value)) else None)
  }

  /** A loaded banner's dates are the text before the first `T` (all of
      it when there is none), `endDate` is dropped when falsy, and every
      call-to-action field is non-empty, keeping a given value and taking
      the default otherwise. */
  lemma LoadValuesMeaning(b: Banner)
    ensures LoadValues(b).startDate <= b.startDate && 'T' !in LoadValues(b).startDate
    ensures 'T' !in b.startDate ==> LoadValues(b).startDate == b.startDate
    ensures |LoadValues(b).startDate| < |b.startDate| ==> b.startDate[|LoadValues(b).startDate|] == 'T'
    ensures LoadValues(b).endDate.Some? <==> Truthy(b.endDate)
    ensures Truthy(b.endDate) ==>
      LoadValues(b).endDate.value <= b.endDate.value && 'T' !in LoadValues(b).endDate.value
    ensures Truthy(LoadValues(b).cta) && Truthy(LoadValues(b).ctaLink) && Truthy(LoadValues(b).bgColor)
    ensures LoadValues(b).cta.value == (if Truthy(b.cta) then b.cta.value else DefaultCta)
    ensures LoadValues(b).ctaLink.value == (if Truthy(b.ctaLink) then b.ctaLink.value else DefaultCtaLink)
    ensures LoadValues(b).bgColor.value == (if Truthy(b.bgColor) then b.bgColor.value else DefaultBgColor)
  {
  }

  /** Cutting a date twice is cutting it once. */
  lemma DatePartIdempotent(s: string)
    ensures DatePart(DatePart(s)) == DatePart(s)
  {
  }

  /** Submitting a banner as loaded sends the same call-to-action values
      as the create form would for the stored banner: the load-time and
      submit-time defaults agree. */
  lemma LoadedDefaultsAgree(b: Banner)
    ensures OrDefault(LoadValues(b).cta, DefaultCta) == OrDefault(b.cta, DefaultCta)
    ensures OrDefault(LoadValues(b).ctaLink, DefaultCtaLink) == OrDefault(b.ctaLink, DefaultCtaLink)
    ensures OrDefault(LoadValues(b).bgColor, DefaultBgColor) == OrDefault(b.bgColor, DefaultBgColor)
  {
  }

  /** `if (currentImage) formData.append('currentImage', currentImage)`. */
  function CurrentImageField(currentImage: string): seq<Entry> {
    if currentImage != "" then Field("currentImage", currentImage) else []
  }

  /** The edit form's body: the banner fields, `currentImage` when there
      is one, then the new file. */
  function EditPayload(data: BannerValues, currentImage: string, files: Option<seq<FileRef>>): seq<Entry> {
    BannerFields(data) + CurrentImageField(currentImage) + ImageField(files)
  }

  /** Without a current image the edit body is exactly the create body;
      with one, `currentImage` sits between the banner fields and the new
      file, carrying the image. */
  lemma EditPayloadExtendsCreate(data: BannerValues, currentImage: string, files: Option<seq<FileRef>>)
    ensures currentImage == "" ==> EditPayload(data, currentImage, files) == CreatePayload(data, files)
    ensures currentImage != "" ==>
      EditPayload(data, currentImage, files) ==
      BannerFields(data) + [Entry("currentImage", Text(currentImage))] + ImageField(files)
    ensures GetAll(EditPayload(data, currentImage, files), "currentImage") ==
            (if currentImage != "" then [Text(currentImage)] else [])
  {
    var a := BannerFields(data);
    var c := CurrentImageField(currentImage);
    var i := ImageField(files);
    if currentImage == "" {
      assert a + c + i == a + i;
    }
    GetAllConcat(a + c, i, "currentImage");
    GetAllConcat(a, c, "currentImage");
    BannerFieldsGetAll(data, "currentImage");
    GetAllImageField(files, "currentImage");
    if currentImage != "" {
      GetAllField("currentImage", currentImage, "currentImage");
    }
  }

  /** What `getBannerById` produced. */
  datatype BannerFetch = Responded(success: bool, data: Option<Banner>) | Threw

  /** The edit page's state: the form's values and the stored image it
      keeps sending until it is removed. */
  class EditBannerPage {
    var isLoading: bool
    var currentImage: string
    var values: Option<BannerValues>

    constructor()
      ensures isLoading && currentImage == "" && values == None
    {
      isLoading := true;
      currentImage := "";
      values := None;
    }

    /** The loading effect for route `id`. */
    method LoadBanner(id: Option<string>, fetch: BannerFetch)
      modifies this
      ensures !isLoading
      ensures Truthy(id) && fetch.Responded? && fetch.success && fetch.data.Some? ==>
        currentImage == fetch.data.value.image && values == Some(LoadValues(fetch.data.value))
      ensures !(Truthy(id) && fetch.Responded? && fetch.success && fetch.data.Some?) ==>
        currentImage == old(currentImage) && values == old(values)
    {
      if Truthy(id) && fetch.Responded? && fetch.success && fetch.data.Some? {
        var banner := fetch.data.value;
        currentImage := banner.image;
        values := Some(LoadValues(banner));
      }
      isLoading := false;
    }

    /** The remove button on the current image. */
    method RemoveCurrentImage()
      modifies this
      ensures currentImage == ""
      ensures isLoading == old(isLoading) && values == old(values)
    {
      currentImage := "";
    }

    /** `onSubmit`: the body appended field by field. */
    method Submit(data: BannerValues, files: Option<seq<FileRef>>) returns (formData: seq<Entry>)
      ensures formData == EditPayload(data, currentImage, files)
      ensures currentImage == "" ==> GetAll(formData, "currentImage") == []
    {
      formData := AppendBannerFields(data);
      if currentImage != "" {
        formData := formData + [Entry("currentImage", Text(currentImage))];
      }
      var imageFile := FirstFile(files);
      if imageFile.Some? {
        formData := formData + [Entry("image", Blob(imageFile.value))];
      }
      EditPayloadExtendsCreate(data, currentImage, files);
    }
  }
}
