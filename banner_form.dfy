/** The create-banner form: its schema, its default values, and the
    multipart body `onSubmit` assembles, with defaults for the
    call-to-action fields. */
module BannerForm {

  import opened Wrappers
  import opened Catalog
  import opened Strings
  import opened Validation
  import opened FormPayload

  const DefaultCta := "Ver más"
  const DefaultCtaLink := "/"
  const DefaultBgColor := "from-[#FF3C3B] to-[#FF8C42]"

  /** The values the form submits; `image` is the file input. `order` is
      a whole number here. */
  datatype BannerValues = BannerValues(
    title: string,
    subtitle: Option<string>,
    cta: Option<string>,
    ctaLink: Option<string>,
    bgColor: Option<string>,
    order: int,
    isActive: bool,
    startDate: string,
    endDate: Option<string>)

  /** The schema's rules, shared word for word by the edit form: a
      non-empty title, an order of at least 0 and a non-empty start
      date. */
  function BannerIssues(v: BannerValues): (r: seq<Issue>)
    ensures r == [] <==> |v.title| >= 1 && v.order >= 0 && |v.startDate| >= 1
    ensures Issue("title", Some("Título requerido")) in r <==> |v.title| < 1
    ensures Issue("order", Some("El orden no puede ser negativo")) in r <==> v.order < 0
    ensures Issue("startDate", Some("Fecha de inicio requerida")) in r <==> |v.startDate| < 1
  {
    (if |v.title| < 1 then [Issue("title", Some("Título requerido"))] else []) +
    (if v.order < 0 then [Issue("order", Some("El orden no puede ser negativo"))] else []) +
    (if |v.startDate| < 1 then [Issue("startDate", Some("Fecha de inicio requerida"))] else [])
  }

  /** The form's initial values; `nowIso` is `new Date().toISOString()`. */
  function DefaultValues(nowIso: string): BannerValues {
    BannerValues("", Some(""), Some(DefaultCta), Some(DefaultCtaLink), Some(DefaultBgColor),
                 0, true, BeforeFirst(nowIso, 'T'), None)
  }

  /** Untouched, the form fails only on its empty title, and its start
      date is the calendar date of the clock reading. */
  lemma DefaultValuesNeedTitle(nowIso: string)
    requires nowIso != [] && nowIso[0] != 'T'
    ensures BannerIssues(DefaultValues(nowIso)) == [Issue("title", Some("Título requerido"))]
    ensures DefaultValues(nowIso).startDate <= nowIso && 'T' !in DefaultValues(nowIso).startDate
  {
    var d := BeforeFirst(nowIso, 'T');
    assert nowIso[0] != 'T';
  }

  // ----- The body

  /** `formData.append(key, text)`. */
  function Field(key: string, text: string): seq<Entry> {
    [Entry(key, Text(text))]
  }

  /** `if (value) formData.append(key, value)`. */
  function OptionalField(key: string, value: Option<string>): seq<Entry> {
    if Truthy(value) then Field(key, value.value) else []
  }

  /** `String(b)` for a boolean. */
  function BoolText(b: bool): (s: string)
    ensures s == "true" <==> b
  {
    if b then "true" else "false"
  }

  /** The first file of the file input, `(files as FileList | null)?.[0]`. */
  function FirstFile(files: Option<seq<FileRef>>): Option<FileRef> {
    if files.Some? && |files.value| > 0 then Some(files.value[0]) else None
  }

  /** `if (imageFile) formData.append('image', imageFile)`. */
  function ImageField(files: Option<seq<FileRef>>): seq<Entry> {
    if FirstFile(files).Some? then [Entry("image", Blob(FirstFile(files).value))] else []
  }

  /** The fields both banner forms send, in append order. */
  function BannerFields(data: BannerValues): seq<Entry> {
    LeadingFields(data) + TrailingFields(data)
  }

  function LeadingFields(data: BannerValues): seq<Entry> {
    Field("title", data.title) +
    OptionalField("subtitle", data.subtitle) +
    Field("cta", OrDefault(data.cta, DefaultCta)) +
    Field("ctaLink", OrDefault(data.ctaLink, DefaultCtaLink))
  }

  function TrailingFields(data: BannerValues): seq<Entry> {
    Field("bgColor", OrDefault(data.bgColor, DefaultBgColor)) +
    Field("order", IntToString(data.order)) +
    Field("isActive", BoolText(data.isActive)) +
    Field("startDate", data.startDate) +
    OptionalField("endDate", data.endDate)
  }

  /** The create form's body. */
  function CreatePayload(data: BannerValues, files: Option<seq<FileRef>>): seq<Entry> {
    BannerFields(data) + ImageField(files)
  }

  /** The keys the banner fields carry, in order: `subtitle` and `endDate`
      only when given. */
  function FieldKeys(data: BannerValues): seq<string> {
    ["title"] + (if Truthy(data.subtitle) then ["subtitle"] else []) +
    ["cta", "ctaLink", "bgColor", "order", "isActive", "startDate"] +
    (if Truthy(data.endDate) then ["endDate"] else [])
  }

  lemma KeysConcat(a: seq<Entry>, b: seq<Entry>)
    ensures Keys(a + b) == Keys(a) + Keys(b)
  {
  }

  /** The create body's keys: the banner fields, then `image` when a file
      was chosen. */
  lemma CreatePayloadKeys(data: BannerValues, files: Option<seq<FileRef>>)
    ensures Keys(BannerFields(data)) == FieldKeys(data)
    ensures Keys(CreatePayload(data, files)) == FieldKeys(data) + (if FirstFile(files).Some? then ["image"] else [])
  {
    LeadingKeys(data);
    TrailingKeys(data);
    KeysConcat(LeadingFields(data), TrailingFields(data));
    KeysConcat(BannerFields(data), ImageField(files));
  }

  lemma LeadingKeys(data: BannerValues)
    ensures Keys(LeadingFields(data)) == ["title"] + (if Truthy(data.subtitle) then ["subtitle"] else []) + ["cta", "ctaLink"]
  {
    var p1 := Field("title", data.title);
    var p2 := OptionalField("subtitle", data.subtitle);
    var p3 := Field("cta", OrDefault(data.cta, DefaultCta));
    var p4 := Field("ctaLink", OrDefault(data.ctaLink, DefaultCtaLink));
    KeysConcat(p1 + p2 + p3, p4);
    KeysConcat(p1 + p2, p3);
    KeysConcat(p1, p2);
  }

  lemma TrailingKeys(data: BannerValues)
    ensures Keys(TrailingFields(data)) ==
            ["bgColor", "order", "isActive", "startDate"] + (if Truthy(data.endDate) then ["endDate"] else [])
  {
    var p5 := Field("bgColor", OrDefault(data.bgColor, DefaultBgColor));
    var p6 := Field("order", IntToString(data.order));
    var p7 := Field("isActive", BoolText(data.isActive));
    var p8 := Field("startDate", data.startDate);
    var p9 := OptionalField("endDate", data.endDate);
    KeysConcat(p5 + p6 + p7 + p8, p9);
    KeysConcat(p5 + p6 + p7, p8);
    KeysConcat(p5 + p6, p7);
    KeysConcat(p5, p6);
  }

  /** The value sent under `key` by the banner fields. */
  function FieldValue(data: BannerValues, key: string): seq<Value> {
    LeadingValue(data, key) + TrailingValue(data, key)
  }

  function LeadingValue(data: BannerValues, key: string): seq<Value> {
    if key == "title" then [Text(data.title)]
    else if key == "subtitle" then (if Truthy(data.subtitle) then [Text(data.subtitle.value)] else [])
    else if key == "cta" then [Text(OrDefault(data.cta, DefaultCta))]
    else if key == "ctaLink" then [Text(OrDefault(data.ctaLink, DefaultCtaLink))]
    else []
  }

  function TrailingValue(data: BannerValues, key: string): seq<Value> {
    if key == "bgColor" then [Text(OrDefault(data.bgColor, DefaultBgColor))]
    else if key == "order" then [Text(IntToString(data.order))]
    else if key == "isActive" then [Text(BoolText(data.isActive))]
    else if key == "startDate" then [Text(data.startDate)]
    else if key == "endDate" then (if Truthy(data.endDate) then [Text(data.endDate.value)] else [])
    else []
  }

  lemma GetAllField(key: string, text: string, k: string)
    ensures GetAll(Field(key, text), k) == if key == k then [Text(text)] else []
  {
    GetAllOne(Entry(key, Text(text)), k);
  }

  lemma GetAllOptionalField(key: string, value: Option<string>, k: string)
    ensures GetAll(OptionalField(key, value), k) ==
            if key == k && Truthy(value) then [Text(value.value)] else []
  {
    if Truthy(value) {
      GetAllField(key, value.value, k);
    }
  }

  lemma LeadingFieldsGetAll(data: BannerValues, k: string)
    ensures GetAll(LeadingFields(data), k) == LeadingValue(data, k)
  {
    var p1 := Field("title", data.title);
    var p2 := OptionalField("subtitle", data.subtitle);
    var p3 := Field("cta", OrDefault(data.cta, DefaultCta));
    var p4 := Field("ctaLink", OrDefault(data.ctaLink, DefaultCtaLink));
    GetAllConcat(p1 + p2 + p3, p4, k);
    GetAllConcat(p1 + p2, p3, k);
    GetAllConcat(p1, p2, k);
    GetAllField("title", data.title, k);
    GetAllOptionalField("subtitle", data.subtitle, k);
    GetAllField("cta", OrDefault(data.cta, DefaultCta), k);
    GetAllField("ctaLink", OrDefault(data.ctaLink, DefaultCtaLink), k);
  }

  lemma TrailingFieldsGetAll(data: BannerValues, k: string)
    ensures GetAll(TrailingFields(data), k) == TrailingValue(data, k)
  {
    var p5 := Field("bgColor", OrDefault(data.bgColor, DefaultBgColor));
    var p6 := Field("order", IntToString(data.order));
    var p7 := Field("isActive", BoolText(data.isActive));
    var p8 := Field("startDate", data.startDate);
    var p9 := OptionalField("endDate", data.endDate);
    GetAllConcat(p5 + p6 + p7 + p8, p9, k);
    GetAllConcat(p5 + p6 + p7, p8, k);
    GetAllConcat(p5 + p6, p7, k);
    GetAllConcat(p5, p6, k);
    GetAllField("bgColor", OrDefault(data.bgColor, DefaultBgColor), k);
    GetAllField("order", IntToString(data.order), k);
    GetAllField("isActive", BoolText(data.isActive), k);
    GetAllField("startDate", data.startDate, k);
    GetAllOptionalField("endDate", data.endDate, k);
  }

  /** Reading any key back from the banner fields. */
  lemma BannerFieldsGetAll(data: BannerValues, k: string)
    ensures GetAll(BannerFields(data), k) == FieldValue(data, k)
  {
    GetAllConcat(LeadingFields(data), TrailingFields(data), k);
    LeadingFieldsGetAll(data, k);
    TrailingFieldsGetAll(data, k);
  }

  lemma GetAllImageField(files: Option<seq<FileRef>>, k: string)
    ensures GetAll(ImageField(files), k) ==
            if k == "image" && FirstFile(files).Some? then [Blob(FirstFile(files).value)] else []
  {
    if FirstFile(files).Some? {
      GetAllOne(Entry("image", Blob(FirstFile(files).value)), k);
    }
  }

  /** What the server reads back from a create body: the title as typed,
      and an empty call-to-action field replaced by its default. */
  lemma CreatePayloadTexts(data: BannerValues, files: Option<seq<FileRef>>)
    ensures GetAll(CreatePayload(data, files), "title") == [Text(data.title)]
    ensures GetAll(CreatePayload(data, files), "cta") ==
            [Text(if Truthy(data.cta) then data.cta.value else DefaultCta)]
    ensures GetAll(CreatePayload(data, files), "ctaLink") ==
            [Text(if Truthy(data.ctaLink) then data.ctaLink.value else DefaultCtaLink)]
    ensures GetAll(CreatePayload(data, files), "bgColor") ==
            [Text(if Truthy(data.bgColor) then data.bgColor.value else DefaultBgColor)]
  {
    assert GetAll(CreatePayload(data, files), "title") == [Text(data.title)] by {
      CreatePayloadGetAll(data, files, "title");
    }
    assert GetAll(CreatePayload(data, files), "cta") == [Text(OrDefault(data.cta, DefaultCta))] by {
      CreatePayloadGetAll(data, files, "cta");
    }
    assert GetAll(CreatePayload(data, files), "ctaLink") == [Text(OrDefault(data.ctaLink, DefaultCtaLink))] by {
      CreatePayloadGetAll(data, files, "ctaLink");
    }
    assert GetAll(CreatePayload(data, files), "bgColor") == [Text(OrDefault(data.bgColor, DefaultBgColor))] by {
      CreatePayloadGetAll(data, files, "bgColor");
    }
  }

  /** `subtitle` and `endDate` are sent only when non-empty, the start
      date as typed, the order and the flag as text that reads back to
      them, and the first file alone as `image`. */
  lemma CreatePayloadOptionals(data: BannerValues, files: Option<seq<FileRef>>)
    ensures GetAll(CreatePayload(data, files), "subtitle") == [] <==> !Truthy(data.subtitle)
    ensures GetAll(CreatePayload(data, files), "endDate") == [] <==> !Truthy(data.endDate)
    ensures GetAll(CreatePayload(data, files), "startDate") == [Text(data.startDate)]
    ensures GetAll(CreatePayload(data, files), "image") ==
            (if files.Some? && |files.value| > 0 then [Blob(files.value[0])] else [])
  {
    assert GetAll(CreatePayload(data, files), "subtitle") == [] <==> !Truthy(data.subtitle) by {
      CreatePayloadGetAll(data, files, "subtitle");
    }
    assert GetAll(CreatePayload(data, files), "endDate") == [] <==> !Truthy(data.endDate) by {
      CreatePayloadGetAll(data, files, "endDate");
    }
    assert GetAll(CreatePayload(data, files), "startDate") == [Text(data.startDate)] by {
      CreatePayloadGetAll(data, files, "startDate");
    }
    assert GetAll(CreatePayload(data, files), "image") ==
           (if files.Some? && |files.value| > 0 then [Blob(files.value[0])] else []) by {
      CreatePayloadGetAll(data, files, "image");
    }
  }

  lemma CreatePayloadScalars(data: BannerValues, files: Option<seq<FileRef>>)
    ensures GetAll(CreatePayload(data, files), "order") == [Text(IntToString(data.order))]
    ensures ParseInt(IntToString(data.order)) == Some(data.order)
    ensures GetAll(CreatePayload(data, files), "isActive") == [Text(BoolText(data.isActive))]
    ensures BoolText(data.isActive) == "true" <==> data.isActive
  {
    assert GetAll(CreatePayload(data, files), "order") == [Text(IntToString(data.order))] by {
      CreatePayloadGetAll(data, files, "order");
    }
    assert GetAll(CreatePayload(data, files), "isActive") == [Text(BoolText(data.isActive))] by {
      CreatePayloadGetAll(data, files, "isActive");
    }
    IntToStringRoundTrip(data.order);
  }

  /** Reading any key back from a create body. */
  lemma CreatePayloadGetAll(data: BannerValues, files: Option<seq<FileRef>>, k: string)
    ensures GetAll(CreatePayload(data, files), k) ==
            FieldValue(data, k) + (if k == "image" && FirstFile(files).Some? then [Blob(FirstFile(files).value)] else [])
  {
    GetAllConcat(BannerFields(data), ImageField(files), k);
    BannerFieldsGetAll(data, k);
    GetAllImageField(files, k);
  }

  /** The appends both banner forms' `onSubmit` make before the image. */
  method AppendBannerFields(data: BannerValues) returns (formData: seq<Entry>)
    ensures formData == BannerFields(data)
  {
    formData := [];
    formData := formData + [Entry("title", Text(data.title))];
    if Truthy(data.subtitle) {
      formData := formData + [Entry("subtitle", Text(data.subtitle.value))];
    }
    formData := formData + [Entry("cta", Text(OrDefault(data.cta, DefaultCta)))];
    formData := formData + [Entry("ctaLink", Text(OrDefault(data.ctaLink, DefaultCtaLink)))];
    assert formData == LeadingFields(data);
    var leading := formData;
    formData := formData + [Entry("bgColor", Text(OrDefault(data.bgColor, DefaultBgColor)))];
    formData := formData + [Entry("order", Text(IntToString(data.order)))];
    formData := formData + [Entry("isActive", Text(BoolText(data.isActive)))];
    formData := formData + [Entry("startDate", Text(data.startDate))];
    if Truthy(data.endDate) {
      formData := formData + [Entry("endDate", Text(data.endDate.value))];
    }
    assert formData == leading + TrailingFields(data);
  }

  /** `onSubmit`: the banner fields, then the first chosen file. */
  method Submit(data: BannerValues, files: Option<seq<FileRef>>) returns (formData: seq<Entry>)
    ensures formData == CreatePayload(data, files)
  {
    formData := AppendBannerFields(data);
    var imageFile := FirstFile(files);
    if imageFile.Some? {
      formData := formData + [Entry("image", Blob(imageFile.value))];
    }
  }
}
