/** The records the storefront exchanges with its API: categories,
    products and banners, as the frontend's type declarations describe
    them. Fields the modelled code never reads are left out. */
module Catalog {

  import opened Wrappers

  /** A category's `parent`: absent or `null`, an id string, or an
      embedded category object (only its `_id` is ever read). */
  datatype ParentRef = Absent | ById(id: string) | ByObject(id: string)

  datatype Category = Category(
    id: string,
    name: string,
    description: Option<string>,
    icon: Option<string>,
    parent: ParentRef)

  /** An entry of a product's `categories`: an id or a populated
      category object. */
  datatype CategoryRef = RefId(id: string) | RefObject(id: string, name: string)

  /** Prices and stock are whole numbers here; the stored stock is never
      negative. */
  datatype Product = Product(
    id: string,
    name: string,
    description: string,
    price: int,
    images: seq<string>,
    categories: Option<seq<CategoryRef>>,
    stock: Option<nat>)

  datatype Banner = Banner(
    id: string,
    title: string,
    subtitle: Option<string>,
    image: string,
    cta: Option<string>,
    ctaLink: Option<string>,
    bgColor: Option<string>,
    order: int,
    isActive: bool,
    startDate: string,
    endDate: Option<string>)

  /** JavaScript truthiness of an optional string: `undefined` and `''`
      are both falsy. */
  predicate Truthy(s: Option<string>) {
    s.Some? && s.value != ""
  }

  /** `s || fallback` for an optional string. */
  function OrDefault(s: Option<string>, fallback: string): (r: string)
    ensures Truthy(s) ==> r == s.value
    ensures !Truthy(s) ==> r == fallback
  {
    if Truthy(s) then s.value else fallback
  }
}
