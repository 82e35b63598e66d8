# La Vitrina storefront core, modelled in Dafny

La Vitrina is a small e-commerce site. It has a React storefront with an admin area and an Express back end. This project models the parts of it that hold real logic, and proves what they promise:

- **The category forest.** `buildCategoryTree` turns the flat category list into a forest in which each record hangs under the record its `parent` names. The storefront searches that forest with a depth-first search and a breadcrumb trail. The admin page renders the same structure with its own filter.
  - Category ids are unique, as the database guarantees. Under that condition the ids on any root-to-node path are pairwise distinct.
  - So the builder's recursion is never deeper than the list is long. A parent cycle among non-root records is never reached, rather than looping.
  - A record is placed exactly once when its chain of parents reaches a root, and nowhere otherwise.
- **The admin category page.** It cleans the creation form, runs the create and delete handlers with their loading flag and pending deletion, and builds the parent picker's option list.
- **The navigation bar.** It shows the first six top-level categories until "Listar todas" is pressed, and a hover submenu per category.
- **The product page.** It has an image carousel that wraps around at both ends, and a quantity stepper clamped between 1 and the stock.
  - The carousel index is not reset when the page loads another product. An index left over from a product with more images therefore lies past the new list. "Next" then only moves it further out and never wraps (`ProductView.StaleIndexDrifts`).
- **The admin forms.** This covers:
  - the zod rules of each form;
  - the image-URL textarea normaliser;
  - how a loaded product or banner fills its form;
  - the multipart bodies the forms assemble.

  The create-product schema wants `images` to be an array of strings, but the textarea registered under `images` hands the form its text. Once any URL is typed the values are refused, and no message for `images` is rendered (`ProductForm.TypedImagesBlockCreation`).

  A `FormData` body is modelled as an ordered list of (key, value) entries, read back with `getAll`.
- **The admin list pages.** Each has a case-insensitive search box over its banners or products.
- **The client token store.** A token is kept in browser storage under `token` and mirrored by a state atom.
- **The back-end admin guard.** It takes the bearer token from the `Authorization` header, then runs the ladder of 401/500/401/403 replies before letting the request through.
- **The back-end upload middleware.** This covers:
  - the stored file name, built with Node's `path.extname` on POSIX paths;
  - the extension and MIME allow-lists;
  - the size and count limits;
  - the handler that turns upload errors into 400 replies and always passes the error on.

Strings are sequences of characters. JavaScript's `trim` uses its full white-space set, and `toLowerCase` maps ASCII letters only. `split`, `join`, `includes` and `String(n)` for whole numbers are defined in `Strings` with their own round-trip lemmas.

Imperative page logic is modelled as classes whose fields are the page's state:
- the product and category pages;
- the admin category page;
- the edit forms;
- the list pages;
- the token store;
- the upload exchange.

Requests, responses, the clock and the random draw are parameters of the methods that use them.

## Model

| member | source | states |
|---|---|---|
| CategoryTree.IsChildOfIffParentKey | frontend/src/hooks/useCategories.ts:10-14 | The filter keeps a record for `parentId` exactly when its parent key (absent, `null` and `''` meaning none; an object parent giving its `_id`) equals `parentId`. |
| CategoryTree.Children | frontend/src/hooks/useCategories.ts:8-22 | The builder, at any recursion depth, returns nodes whose records are exactly the selected records in input order. Every node is built the same way. It terminates because the ids along the ancestor chain are distinct. |
| CategoryTree.BuildCategoryTree | frontend/src/hooks/useCategories.ts:8-22 | The root call yields a forest whose roots are the parentless records in input order. Every node's children are the records naming it as parent, in input order, each carrying its record unchanged. |
| CategoryTree.RootsAreParentless | frontend/src/hooks/useCategories.ts:11 | The roots are exactly the records whose parent is falsy, each once, in input order. |
| CategoryTree.SelectMembers | frontend/src/hooks/useCategories.ts:9-14 | One level's selection contains only records of the list with a matching parent, contains all of them, and is a subsequence of the list. |
| CategoryTree.ChildrenAreItsChildren | frontend/src/hooks/useCategories.ts:12-20 | Under any node of the built forest hang exactly the records whose parent is that node's id, in input order. |
| CategoryTree.ChainIdsDistinct | frontend/src/hooks/useCategories.ts:17-20 | With unique ids, the records on a chain of parents from a root have pairwise distinct ids. |
| CategoryTree.ChainExtends | frontend/src/hooks/useCategories.ts:17-20 | Descending into a selected record extends the chain with an id not yet on it. This is the termination measure. |
| CategoryTree.PathsAreChains | frontend/src/hooks/useCategories.ts:8-22 | Along any root-to-node path of the forest the records form a chain of parents with pairwise distinct ids. The path is no longer than the input list. |
| CategoryTree.PathIsChain | frontend/src/hooks/useCategories.ts:15-20 | Walking down any path of an assembled forest meets built nodes whose records form a chain of parents. |
| CategoryTree.AssembledUnique | frontend/src/hooks/useCategories.ts:8-22 | The forest is fully determined by the list and the parent id: two forests meeting the builder's contract are equal. |
| CategoryTree.ChainUnique | frontend/src/hooks/useCategories.ts:12-13 | Two chains of parents from a root that end at the same record are the same chain. |
| CategoryTree.ChainsEndApart | frontend/src/hooks/useCategories.ts:12-13 | Different chains of parents from a root end at different records. |
| CategoryTree.PathsShape | frontend/src/hooks/useCategories.ts:15-20 | Each entry of the forest's preorder has a path that starts at a root and ends at that entry. |
| CategoryTree.EntryPathsAreChains | frontend/src/hooks/useCategories.ts:15-20 | Every such path is a chain of parents starting under the forest's parent id. |
| CategoryTree.PathsNoDuplicates | frontend/src/hooks/useCategories.ts:15-20 | No two preorder entries share a path. |
| CategoryTree.FlattenNoDuplicates | frontend/src/hooks/useCategories.ts:8-22 | With unique ids, no record occurs twice in the built forest. |
| CategoryTree.ChainReached | frontend/src/hooks/useCategories.ts:15-20 | The end of every chain of parents from a selected record is placed in the assembled forest. |
| CategoryTree.InForestIffRooted | frontend/src/hooks/useCategories.ts:8-22 | A record appears in the forest exactly when a chain of parents leads to it from a root, and never twice. |
| CategoryTree.OrphanLeftOut | frontend/src/hooks/useCategories.ts:10-14 | A record whose parent id names no record of the list appears nowhere in the forest. |
| CategoryTree.AllRootedAllPlaced | frontend/src/hooks/useCategories.ts:8-22 | When every record is reached from a root, the forest holds the whole list, each record exactly once. |
| CategoryView.FindCategory | frontend/src/pages/Categories/ViewCategory.tsx:54-63 | A found node has the target id. |
| CategoryView.FindIsFirstInPreorder | frontend/src/pages/Categories/ViewCategory.tsx:28-37 | The search (`findCategoryInTree` and `findCategoryById` alike) returns the first node in depth-first preorder with the target id, and nothing exactly when no node has it. |
| CategoryView.Breadcrumbs | frontend/src/pages/Categories/ViewCategory.tsx:71-84 | The trail is empty exactly when the search finds nothing. Otherwise it is a root-to-node path of the forest whose last node is the one the search returns. |
| CategoryView.BreadcrumbsEmptyIff | frontend/src/pages/Categories/ViewCategory.tsx:71-84 | The trail is empty exactly when no node of the forest has the target id. |
| CategoryView.FindOnBuiltForest | frontend/src/pages/Categories/ViewCategory.tsx:54-63 | On the forest built from the list, the search for a listed record's id returns the node carrying exactly that record when a chain of parents reaches it from a root, and nothing otherwise. |
| CategoryView.BreadcrumbsOnBuiltForest | frontend/src/pages/Categories/ViewCategory.tsx:71-84 | On the built forest, a listed record's trail is non-empty exactly when it is reached from a root. Its records then start at a parentless record, each one is a child of the one before, and the last is the record itself. |
| CategoryView.SubcategoriesOfBuiltForest | frontend/src/pages/Categories/ViewCategory.tsx:39-41 | On the built forest, a placed category's subcategories are exactly the records naming it as parent, in list order. An unknown or unplaced id has none. |
| CategoryView.NotFoundNotFlattened | frontend/src/pages/Categories/ViewCategory.tsx:54-63 | When the search finds nothing, no record with the target id is in the forest. |
| CategoryView.CategoryPage.LoadCategoryData | frontend/src/pages/Categories/ViewCategory.tsx:45-114 | Loading always ends with `isLoading` false. A missing id or empty forest changes nothing else. Otherwise it sets the found category, the trail and the products of a successful fetch. An unknown id clears all three. |
| AdminCategory.TrimmedOrUndefinedMeaning | frontend/src/pages/admin/AdminCategory.tsx:52-54 | A field is dropped exactly when it is blank. Otherwise it is its trim, non-empty with no white space at either end. |
| AdminCategory.TrimmedOrUndefinedStable | frontend/src/pages/admin/AdminCategory.tsx:52-55 | Cleaning a cleaned value changes nothing. |
| AdminCategory.CleanFormMeaning | frontend/src/pages/admin/AdminCategory.tsx:51-56 | Each text field is trimmed or dropped when blank. The parent is dropped when it is `'none'` or blank, and trimmed otherwise. |
| AdminCategory.AllCategoriesFlat | frontend/src/pages/admin/AdminCategory.tsx:177-182 | The option list has the same length and order as the categories, each entry being `{id: _id, name}`. |
| AdminCategory.PickedParentIsSent | frontend/src/pages/admin/AdminCategory.tsx:55 | Picking an option sends that category's id as `parent`, for an id that is not `'none'` and has no surrounding white space. |
| AdminCategory.RenderMatchesBuilder | frontend/src/pages/admin/AdminCategory.tsx:127-134 | The render filter keeps exactly what the builder selects, and renders nothing when that is empty. |
| AdminCategory.RenderedTreeIsForest | frontend/src/pages/admin/AdminCategory.tsx:127-134 | The rendered tree shows the built forest. The top level is empty exactly when the forest is. Under any node it shows exactly that node's children, or nothing for a leaf. |
| AdminCategory.SubmitBracketed | frontend/src/pages/admin/AdminCategory.tsx:59-79 | A blank name gives only the error toast, with no request and no flag change. Otherwise the flag is raised first and lowered last. One create request is made while it is up. Success toast and refetch happen exactly when the response has an `_id`. |
| AdminCategory.DeleteBracketed | frontend/src/pages/admin/AdminCategory.tsx:82-103 | Without a pending id nothing happens. Otherwise one delete request is made between raising and lowering the flag, and a refetch happens exactly on success. |
| AdminCategory.AdminCategoryPage.HandleSubmit | frontend/src/pages/admin/AdminCategory.tsx:50-80 | The events are those of `SubmitEvents`. The flag ends false after a request. The form resets only on success. The categories are replaced only by a successful refetch. |
| AdminCategory.AdminCategoryPage.ConfirmDelete | frontend/src/pages/admin/AdminCategory.tsx:82-104 | Without a pending id nothing changes. Otherwise the flag ends false, the pending id is cleared whatever the outcome, and the categories are replaced only by a successful refetch. |
| AdminCategory.AdminCategoryPage.SelectForDeletion | frontend/src/pages/admin/AdminCategory.tsx:158 | The trash button sets the pending id and nothing else. |
| AdminCategory.AdminCategoryPage.DismissDialog | frontend/src/pages/admin/AdminCategory.tsx:241 | Closing the dialog clears the pending id and nothing else. |
| SecondaryNav.VisibleCategories | frontend/src/components/SecondaryNav.tsx:18 | Expanded shows every category. Collapsed shows a prefix of length min(6, n). |
| SecondaryNav.ButtonIffSomeHidden | frontend/src/components/SecondaryNav.tsx:22 | The "Listar todas" button shows exactly when some category is hidden, and the hidden ones follow the shown ones. |
| SecondaryNav.NavBar.ListAll | frontend/src/components/SecondaryNav.tsx:26 | The only transition sets `showAll`; the bar never collapses again. |
| SecondaryNav.NavBar.Visible | frontend/src/components/SecondaryNav.tsx:18 | What the bar shows is never longer than the list: collapsed, it is the first min(6, n) categories in order; expanded, all of them. |
| SecondaryNav.RenderItemsInOrder | frontend/src/components/SecondaryNav.tsx:76-78 | Rendering a list of categories keeps its length and order. |
| SecondaryNav.SubmenuRule | frontend/src/components/SecondaryNav.tsx:61-78 | The chevron shows exactly when there are children. The submenu shows exactly when the item is open and has children, and then lists every child by name, in order. |
| SecondaryNav.BarShowsPrefix | frontend/src/components/SecondaryNav.tsx:18-20 | Collapsed, the bar shows the first min(6, n) categories by name, in order; expanded, all n. |
| ProductView.ArrowsStayInRange | frontend/src/pages/Products/ViewProduct.tsx:86-96 | Both arrows keep an in-range index in [0, n). |
| ProductView.ArrowsAreInverse | frontend/src/pages/Products/ViewProduct.tsx:86-96 | "Previous" undoes "next", and the other way round. |
| ProductView.AdvanceAdd | frontend/src/pages/Products/ViewProduct.tsx:94-96 | Pressing "next" a times and then b times is pressing it a + b times. |
| ProductView.AdvanceForward | frontend/src/pages/Products/ViewProduct.tsx:94-96 | Short of the last image, k presses move k places forward. |
| ProductView.FullTurn | frontend/src/pages/Products/ViewProduct.tsx:94-96 | n presses of "next" return to the start. |
| ProductView.AdvanceWraps | frontend/src/pages/Products/ViewProduct.tsx:94-96 | k presses move k places while that stays in range, and n further presses change nothing. |
| ProductView.StaleIndexDrifts | frontend/src/pages/Products/ViewProduct.tsx:23-41 | An index left at or past the image count (it survives a product change) is only moved further out by "next". |
| ProductView.StockCap | frontend/src/pages/Products/ViewProduct.tsx:170 | The cap is the stock when it is non-zero, and 10 when the stock is 0 or missing. |
| ProductView.StepperClamps | frontend/src/pages/Products/ViewProduct.tsx:163-170 | "-" never goes below 1 and "+" never above the cap. From within [1, cap] both stay inside and move by at most one. |
| ProductView.ProductPage.LoadProduct | frontend/src/pages/Products/ViewProduct.tsx:23-41 | Loading never touches the image index or the quantity. Without an id nothing changes. Otherwise only a successful answer replaces the product, and loading ends. |
| ProductView.ProductPage.Previous | frontend/src/pages/Products/ViewProduct.tsx:86-88 | The index moves back with wrap-around and stays in range. Nothing else changes. |
| ProductView.ProductPage.Next | frontend/src/pages/Products/ViewProduct.tsx:94-96 | The index moves forward with wrap-around and stays in range. Nothing else changes. |
| ProductView.ProductPage.SelectImage | frontend/src/pages/Products/ViewProduct.tsx:105-110 | A thumbnail sets the index to its own position. |
| ProductView.ProductPage.DecreaseQuantity | frontend/src/pages/Products/ViewProduct.tsx:163 | The quantity becomes max(1, q - 1). |
| ProductView.ProductPage.IncreaseQuantity | frontend/src/pages/Products/ViewProduct.tsx:170 | The quantity becomes min(cap, q + 1) and never exceeds the cap. |
| ProductForm.TrimLines | frontend/src/pages/admin/Products/AdminProductForm.tsx:88 | Each line is replaced by its trim, keeping length and order. |
| ProductForm.KeptLinesShape | frontend/src/pages/admin/Products/AdminProductForm.tsx:86-89 | Every kept line is non-empty, equal to its own trim and free of line breaks. The kept lines are a subsequence of the trimmed lines. |
| ProductForm.NormalizedLines | frontend/src/pages/admin/Products/AdminProductForm.tsx:85-91 | The normalised text splits back into exactly the kept lines, or is `''` when none is kept. |
| ProductForm.KeptNoneIff | frontend/src/pages/admin/Products/AdminProductForm.tsx:88-89 | No line is kept exactly when every line is blank. |
| ProductForm.NormalizeEmptyIff | frontend/src/pages/admin/Products/AdminProductForm.tsx:89-90 | The text normalises to `''` exactly when all its lines are blank. |
| ProductForm.NormalizeIdempotent | frontend/src/pages/admin/Products/AdminProductForm.tsx:85-91 | Normalising twice is normalising once. |
| ProductForm.ProductIssues | frontend/src/pages/admin/Products/AdminProductForm.tsx:13-19 | The values pass exactly when the name has at least one character, the price is at least 0, and `images` is absent or an array rather than the textarea's text. Each failure is reported on its own field. |
| ProductForm.TypedImagesBlockCreation | frontend/src/pages/admin/Products/AdminProductForm.tsx:80-92 | Under the schema rule of line 17, once image URLs are typed into the textarea, the form's values never pass the schema, with or without the blur normaliser's rewrite. With the textarea untouched, a named product with a price of at least 0 passes. |
| ProductEditForm.EditIssues | frontend/src/pages/admin/Products/AdminProductEditForm.tsx:15-22 | The values pass exactly when the name is non-empty and price and stock are at least 0, each failure with its message. |
| ProductEditForm.LoadedImages | frontend/src/pages/admin/Products/AdminProductEditForm.tsx:62 | A list of images loads as itself, and anything else as `[]`. |
| ProductEditForm.CategoryIdsMeaning | frontend/src/pages/admin/Products/AdminProductEditForm.tsx:68-70 | Id extraction keeps length and order. A plain id is kept and a populated category gives its `_id`. Missing categories give `[]`. |
| ProductEditForm.CategoryIdsRoundTrip | frontend/src/pages/admin/Products/AdminProductEditForm.tsx:68-70 | Ids stored plainly or as populated objects extract back to the same ids. |
| ProductEditForm.RemoveAtFromMeaning | frontend/src/pages/admin/Products/AdminProductEditForm.tsx:189 | Filtering out position `index`, counting from `from`, removes exactly that element, or nothing when the position is outside the list. |
| ProductEditForm.RemoveImageMeaning | frontend/src/pages/admin/Products/AdminProductEditForm.tsx:189 | Removing image i yields `s[..i] + s[i+1..]`, one shorter; any other index leaves the list as it was. |
| ProductEditForm.EditHeadReads | frontend/src/pages/admin/Products/AdminProductEditForm.tsx:108-111 | The four leading fields read back as name, description or `''`, and price and stock as text. |
| ProductEditForm.EditPayloadGetAll | frontend/src/pages/admin/Products/AdminProductEditForm.tsx:107-129 | Any key of the body reads back as the head's value, the selected categories, the kept images, or the new files when some were chosen. |
| ProductEditForm.EditPayloadReadsBack | frontend/src/pages/admin/Products/AdminProductEditForm.tsx:107-129 | The server reads back every field. Price and stock parse back to the numbers. The categories and current images come back in order. New files come back exactly when some were chosen. |
| ProductEditForm.EditProductPage.Submit | frontend/src/pages/admin/Products/AdminProductEditForm.tsx:106-129 | The appends produce exactly the body above, and the categories sent are the form's categories whenever the multiselect keeps the copies in sync. |
| ProductEditForm.EditProductPage.ChangeCategories | frontend/src/pages/admin/Products/AdminProductEditForm.tsx:219-222 | The multiselect sets both copies of the selection, leaving them in sync. |
| ProductEditForm.EditProductPage.RemoveCurrentImage | frontend/src/pages/admin/Products/AdminProductEditForm.tsx:189-190 | The current images lose exactly the one at `index`. |
| ProductEditForm.EditProductPage.LoadProduct | frontend/src/pages/admin/Products/AdminProductEditForm.tsx:54-90 | A successful answer sets the current images and both copies of the category ids. Anything else leaves them. Loading ends and keeps the copies in sync. |
| BannerForm.BannerIssues | frontend/src/pages/admin/Banners/AdminBannerForm.tsx:11-22 | The values pass exactly when the title is non-empty, the order is at least 0 and the start date is non-empty, each failure with its message. |
| BannerForm.DefaultValuesNeedTitle | frontend/src/pages/admin/Banners/AdminBannerForm.tsx:34-43 | The untouched form fails only on its title, and its start date is the date part of the clock reading. |
| BannerForm.BoolText | frontend/src/pages/admin/Banners/AdminBannerForm.tsx:56 | The flag's text is `'true'` exactly when the flag is set. |
| BannerForm.CreatePayloadKeys | frontend/src/pages/admin/Banners/AdminBannerForm.tsx:49-63 | Keys come in the order title, subtitle?, cta, ctaLink, bgColor, order, isActive, startDate, endDate?, image?. |
| BannerForm.LeadingKeys | frontend/src/pages/admin/Banners/AdminBannerForm.tsx:50-53 | The first appends give title, subtitle when given, cta and ctaLink. |
| BannerForm.TrailingKeys | frontend/src/pages/admin/Banners/AdminBannerForm.tsx:54-58 | The next appends give bgColor, order, isActive, startDate, and endDate when given. |
| BannerForm.LeadingFieldsGetAll | frontend/src/pages/admin/Banners/AdminBannerForm.tsx:50-53 | The first appends read back under each key as the typed value or its default. |
| BannerForm.TrailingFieldsGetAll | frontend/src/pages/admin/Banners/AdminBannerForm.tsx:54-58 | The next appends read back under each key as the typed value, its default, or the number and flag as text. |
| BannerForm.BannerFieldsGetAll | frontend/src/pages/admin/Banners/AdminBannerForm.tsx:50-58 | All banner fields read back key by key. |
| BannerForm.CreatePayloadTexts | frontend/src/pages/admin/Banners/AdminBannerForm.tsx:50-54 | The title is sent as typed. An empty cta, ctaLink or bgColor is replaced by `'Ver más'`, `'/'` or the default gradient. |
| BannerForm.CreatePayloadOptionals | frontend/src/pages/admin/Banners/AdminBannerForm.tsx:51-63 | Subtitle and end date are sent exactly when non-empty, the start date as typed, and only the first chosen file as `image`. |
| BannerForm.CreatePayloadScalars | frontend/src/pages/admin/Banners/AdminBannerForm.tsx:55-56 | The order is sent as text that parses back to it, and the flag as `'true'` or `'false'`. |
| BannerForm.CreatePayloadGetAll | frontend/src/pages/admin/Banners/AdminBannerForm.tsx:49-63 | Any key of the create body reads back as the banner field's value, plus the first file under `image`. |
| BannerForm.AppendBannerFields | frontend/src/pages/admin/Banners/AdminBannerForm.tsx:49-58 | The conditional appends build exactly the banner fields. |
| BannerForm.Submit | frontend/src/pages/admin/Banners/AdminBannerForm.tsx:48-63 | `onSubmit` builds exactly the create body. |
| BannerEditForm.LoadValuesMeaning | frontend/src/pages/admin/Banners/AdminBannerEditForm.tsx:55-65 | Loaded dates are the text before the first `T`, or all of it without one. A falsy end date is dropped. Every call-to-action field keeps a given value and takes the default otherwise. |
| BannerEditForm.DatePartIdempotent | frontend/src/pages/admin/Banners/AdminBannerEditForm.tsx:63-64 | Cutting a date twice is cutting it once. |
| BannerEditForm.LoadedDefaultsAgree | frontend/src/pages/admin/Banners/AdminBannerEditForm.tsx:58-60 | The load-time defaults and the submit-time defaults send the same values for a stored banner. |
| BannerEditForm.EditPayloadExtendsCreate | frontend/src/pages/admin/Banners/AdminBannerEditForm.tsx:79-99 | Without a current image the edit body is the create body. With one, `currentImage` sits after the banner fields and before the new file. |
| BannerEditForm.EditBannerPage.LoadBanner | frontend/src/pages/admin/Banners/AdminBannerEditForm.tsx:44-73 | A successful answer sets the current image and the loaded values. Anything else leaves them. Loading ends. |
| BannerEditForm.EditBannerPage.RemoveCurrentImage | frontend/src/pages/admin/Banners/AdminBannerEditForm.tsx:144 | Removing clears the current image and nothing else. |
| BannerEditForm.EditBannerPage.Submit | frontend/src/pages/admin/Banners/AdminBannerEditForm.tsx:78-99 | `onSubmit` builds exactly the edit body, and sends no `currentImage` after the image was removed. |
| BannerList.SearchMeaning | frontend/src/pages/admin/Banners/AdminBannerList.tsx:56-63 | A banner is kept exactly when its lower-cased title, or its present subtitle, contains the lower-cased term. The result is an order-preserving subsequence. |
| BannerList.EmptySearchKeepsAll | frontend/src/pages/admin/Banners/AdminBannerList.tsx:57-61 | An empty search keeps every banner. |
| BannerList.LongerSearchNarrows | frontend/src/pages/admin/Banners/AdminBannerList.tsx:57-61 | When t occurs in t2, the results for t2 are a subsequence of those for t. |
| BannerList.BannerListPage.Load | frontend/src/pages/admin/Banners/AdminBannerList.tsx:47-54 | A successful load replaces the banners, and otherwise they stay. `filtered` stays the search result either way, and equals the banners for an empty search. |
| BannerList.BannerListPage.SetSearch | frontend/src/pages/admin/Banners/AdminBannerList.tsx:56-63 | Typing sets the search and re-filters; the banners stay. |
| BannerList.BannerListPage.SearchEffect | frontend/src/pages/admin/Banners/AdminBannerList.tsx:56-63 | The effect stores the filter result and changes nothing else. |
| ProductList.SearchMeaning | frontend/src/pages/admin/Products/AdminProductList.tsx:24-30 | A product is kept exactly when its lower-cased name contains the lower-cased term, in order. Products with the same name are kept or dropped together, so the description plays no part. |
| ProductList.EmptySearchKeepsAll | frontend/src/pages/admin/Products/AdminProductList.tsx:25-29 | An empty search keeps every product. |
| ProductList.LongerSearchNarrows | frontend/src/pages/admin/Products/AdminProductList.tsx:25-29 | When t occurs in t2, the results for t2 are a subsequence of those for t. |
| ProductList.ProductListPage.Load | frontend/src/pages/admin/Products/AdminProductList.tsx:15-22 | A successful load replaces the products, and otherwise they stay. `filtered` stays the search result either way. |
| ProductList.ProductListPage.SetSearch | frontend/src/pages/admin/Products/AdminProductList.tsx:24-30 | Typing sets the search and re-filters; the products stay. |
| ProductList.ProductListPage.SearchEffect | frontend/src/pages/admin/Products/AdminProductList.tsx:24-30 | The effect stores the filter result and changes nothing else. |
| TokenStore.Initial | frontend/src/atoms/auth.ts:3-6 | The atom starts as the stored `token`, or `''` when absent, agreeing with storage. |
| TokenStore.ApplyKeepsConsistent | frontend/src/atoms/auth.ts:9-17 | Setting stores t and sets the atom to t. Clearing removes the key and sets `''`. Both keep atom and storage in agreement and touch no other key. |
| TokenStore.RunKeepsConsistent | frontend/src/atoms/auth.ts:6-17 | After any sequence of set and clear actions the atom equals the stored token, or `''` when absent. |
| TokenStore.RunKeepsOtherKeys | frontend/src/atoms/auth.ts:10-15 | No storage key other than `token` is added, removed or changed. |
| TokenStore.LastActionWins | frontend/src/atoms/auth.ts:9-17 | The last action decides both the atom and the stored token. |
| TokenStore.ReloadRestores | frontend/src/atoms/auth.ts:3-17 | Reloading the page after any actions restores the same atom value from storage. |
| TokenStore.TokenState.SetToken | frontend/src/atoms/auth.ts:9-12 | `setTokenAtom` performs the set action and keeps atom and storage in agreement. |
| TokenStore.TokenState.ClearToken | frontend/src/atoms/auth.ts:14-17 | `clearTokenAtom` removes the key and empties the atom. |
| AdminAuth.TokenIsSecondWord | backend/src/middlewares/auth.ts:14 | The token is the text between the first and the second space; the scheme word is not checked. |
| AdminAuth.NoSpaceNoToken | backend/src/middlewares/auth.ts:14 | A missing header, or one without a space, yields no token. |
| AdminAuth.PassesIff | backend/src/middlewares/auth.ts:16-42 | The request passes exactly when the token is non-empty, a secret is set and the token verifies to an object whose role is `admin`. |
| AdminAuth.MissingTokenFirst | backend/src/middlewares/auth.ts:16-19 | A missing token gives 401 "No token provided", whatever the secret and the verifier. |
| AdminAuth.OutcomesAreKnown | backend/src/middlewares/auth.ts:16-46 | The guard ends in one of 401 "No token provided", 500 "JWT secret not configured", 401 "Invalid token", 403 "Access denied", or the next handler, and nothing else. |
| AdminAuth.UserOnRefusal | backend/src/middlewares/auth.ts:30-40 | A 403 leaves the non-admin payload on the request and a pass leaves the admin payload. Every other reply leaves the request untouched. |
| AdminAuth.VerifyAdmin | backend/src/middlewares/auth.ts:8-47 | The method gives exactly the decision ladder's outcome and stores the payload as soon as it verifies. |
| Upload.LastIndexOf | backend/src/middlewares/upload.ts:28 | The last occurrence of a character, or none exactly when it does not occur. |
| Upload.LastSegment | backend/src/middlewares/upload.ts:28 | The final path segment holds no `/`. |
| Upload.ExtnameShape | backend/src/middlewares/upload.ts:28 | An extension is empty or a dot followed by dot-free text, holds no `/`, and ends the path once trailing slashes are dropped. |
| Upload.ExtnameOfStemDotExt | backend/src/middlewares/upload.ts:28 | A name `stem.ext` with a dot-free extension part has extension `.ext`, whatever dots the stem holds. The exceptions are a dot file and `..`. |
| Upload.DotfileHasNoExt | backend/src/middlewares/upload.ts:28 | A dot file without a further dot has no extension. |
| Upload.FilenameMeaning | backend/src/middlewares/upload.ts:25-39 | The name is accepted exactly when the lower-cased extension is on the list, and otherwise rejected with the type message. Both carry the same name, starting with the field name and a dash. |
| Upload.StoredNameKeepsExtension | backend/src/middlewares/upload.ts:27-29 | An accepted upload is stored under a name whose own extension is the lower-cased original one, an allowed image extension. |
| Upload.ExtensionCaseIgnored | backend/src/middlewares/upload.ts:28-33 | Two names whose extensions differ only in case are both accepted or both refused. |
| Upload.DotfileRefused | backend/src/middlewares/upload.ts:28-33 | A dot file such as `.png` has no extension and is refused. |
| Upload.FileFilterMeaning | backend/src/middlewares/upload.ts:49-57 | A MIME type passes exactly when it is one of the four image types. Both refusals carry the same message. |
| Upload.ViolatedLimits | backend/src/middlewares/upload.ts:45-48 | The count limit is broken exactly above 10 files, and the size limit exactly when some file exceeds 5·1024·1024 bytes. |
| Upload.HandlerMeaning | backend/src/middlewares/upload.ts:61-85 | The handler always ends by passing the error on, exactly once. Every reply before that is a 400. It replies at most twice, and twice only for a limit error that also carries the type message. |
| Upload.LimitReplies | backend/src/middlewares/upload.ts:62-75 | A broken limit, raised as a multer error, is answered with a 400 and its message, then passed on. |
| Upload.RejectionReplies | backend/src/middlewares/upload.ts:77-84 | Either allow-list's refusal is answered with the images-only 400, then passed on. |
| Upload.Exchange.HandleUploadError | backend/src/middlewares/upload.ts:61-85 | The handler appends exactly its actions to the exchange. |
| Strings.TrimMeaning | frontend/src/pages/admin/AdminCategory.tsx:52-55 | `trim` drops exactly the leading and trailing white space, leaving the middle intact. |
| Strings.TrimIdempotent | frontend/src/pages/admin/Products/AdminProductForm.tsx:88 | Trimming twice is trimming once. |
| Strings.TrimEmptyIff | frontend/src/pages/admin/AdminCategory.tsx:52-55 | A string trims to `''` exactly when it is all white space. |
| Strings.SplitJoin | frontend/src/pages/admin/Products/AdminProductForm.tsx:86-90 | Joining one or more parts free of the separator and splitting again gives back the parts. |
| Strings.JoinSplit | frontend/src/pages/admin/Products/AdminProductForm.tsx:86-90 | Splitting and joining again gives back the string. |
| Strings.IntToStringRoundTrip | frontend/src/pages/admin/Banners/AdminBannerForm.tsx:55 | `String(n)` of a whole number parses back to n. |
| Strings.IntToStringInjective | frontend/src/pages/admin/Products/AdminProductEditForm.tsx:110-111 | Different numbers are written differently. |
| Strings.ContainsToLower | frontend/src/pages/admin/Banners/AdminBannerList.tsx:57-60 | Lower-casing both sides keeps an occurrence. |
| Catalog.OrDefault | frontend/src/pages/admin/Banners/AdminBannerForm.tsx:52-54 | The `||` default of an optional text is the text when it is non-empty, and the fallback otherwise. |

## Left out

- Network requests, responses and effects are parameters of the methods that react to them. This covers axios and fetch calls, the fetch-once effect of the category hook, and the form loaders. Loading states and toasts are recorded as events or fields.
- The back-end controllers, Mongoose schemas, the banner ordering and the static category list in the categories controller are not part of this model. They are database and library calls.
- `jwt.verify` is an oracle passed to the admin guard. Its payload is modelled as a string or an object with an optional string `role`; a `role` of another type is treated as absent, which the guard refuses all the same. bcrypt and `jwt.sign` are not part of this model.
- The `console.log` of the secret in the admin guard is output only and is left out.
- Express's "headers already sent" behaviour is not modelled. The upload handler replies twice only for a `MulterError` with a limit code whose message is 'Tipo de archivo no permitido'. Multer builds its own errors' messages from their codes, so only a hand-built error object reaches that path. For such an error the model records both replies in order, plus the call to the next handler.
- Which limit multer reports first is not modelled. Multer raises one error per request; the model shows how each limit, once raised, is answered.
- Upload runtime details are parameters or left out:
  - The disk-destination writability check and the folder creation are filesystem I/O and are left out.
  - `Date.now()` and `Math.round(Math.random() * 1e9)` are the whole-number parameters `now` and `random`.
- `path.extname` is modelled for POSIX paths. Windows separators are not.
- Prices are whole numbers. Floating-point prices, `z.coerce.number` coercion of text and `Number` formatting are left out; `String(n)` is modelled for whole numbers only.
- `new Date().toISOString()` is a clock read, so the create-banner form takes the timestamp as a parameter.
- react-hook-form's internal state, JSX rendering, Tailwind classes, routing and the 150 ms hover timers of the navigation bar are view-layer code, timing and concurrency. The open state of each menu item is an input to the renderer.
- `toLowerCase` maps ASCII letters only, and `trim` uses JavaScript's white-space set. Unicode case mapping is not modelled.
- CategoryTree.BuildCategoryTree requires unique `_id`s, which the database guarantees. With duplicate ids the source may recurse forever on a parent cycle; that case is not modelled.
- ProductView.ProductPage.Previous and ProductView.ProductPage.Next require more than one image. The arrows are rendered only then, so the handlers cannot run otherwise.
