# Customs & Comex CO storefront and CMS — a Dafny model

This project models the core logic of a Next.js site for a customs broker that also runs an import shop.
The site has a public storefront:
- a home page built from CMS sections;
- a retail catalogue;
- a cart kept in a React context;
- a checkout that posts an order and opens a WhatsApp chat;
- a header, an FAQ accordion and a sitemap.

Behind it sits a staff-only admin area:
- a route guard in the middleware;
- admin API routes that create sections, products and categories and upload media;
- public API routes that store orders, contact queries and wholesale leads;
- an inbox that merges queries, orders and leads;
- three maintenance scripts that rewrite the CMS sections table.

How the model represents the source:
- **JavaScript values.** Request bodies and CMS content are values of the `Json` datatype (`json.dfy`). JavaScript
  truthiness and property reads are functions on that datatype (`Json.Truthy`, `Json.Field`).
- **Effects.** Each effect a handler performs (the session lookup, `request.json()`, each Prisma call, `fetch`) is an
  input of type `Outcome<T>`. The value is `Done(v)` or `Threw(e)`. The handlers consume these inputs in the order
  the source performs the effects, so each handler is a pure function from its effects to a `Response`.
- **Mutable state.** The cart reducer is a function from state and action to state. The checkout page, the header,
  the FAQ accordion and the section table used by the scripts update fields in place, so they are classes with
  `modifies` clauses.
- **Loops.** The scripts' loops are `while` loops proved against specification functions.
- **Helpers whose code is not part of this model** are function parameters:
  - `generateSlug`;
  - `generateUniqueSlug` (an `Outcome`);
  - zod's e-mail check;
  - `parseInt` and `parseFloat` (`None` stands for `NaN`);
  - `toLowerCase`, `toLocaleString` and `encodeURIComponent`;
  - `Date.now()` and `Math.random().toString(36)`.

| file | module | models |
|---|---|---|
| json.dfy, web.dfy, text.dfy, sequences.dfy | Json, Web, Text, Sequences | JS values and truthiness, thrown errors and responses, `trim` / `includes` / integer-to-text, filtering and stable sorting |
| cart.dfy | Cart | `contexts/CartContext.tsx` reducer, totals, add-to-cart payload |
| sections.dfy | Sections | `components/sections/SectionRenderer.tsx` |
| home_page.dfy | HomePage | `app/page.tsx` data query, metadata and hero split |
| middleware.dfy | Middleware | `middleware.ts` admin guard |
| section_store.dfy | SectionStore | the Prisma `section` table the scripts change (a class) |
| remove_all_duplicates.dfy, remove_duplicate_services.dfy, update_consulta_links.dfy | same names | the three `prisma/` maintenance scripts |
| admin_sections_route.dfy, admin_products_route.dfy, admin_categories_route.dfy, admin_forms.dfy | AdminSectionsRoute, AdminProductsRoute, AdminCategoriesRoute, AdminForms | the admin create/list routes and the body-field rules they share |
| media_upload.dfy | MediaUpload | `app/api/media/upload/route.ts` |
| form_schemas.dfy, orders_route.dfy, contact_route.dfy, leads_route.dfy | FormSchemas, OrdersRoute, ContactRoute, LeadsRoute | the zod schemas and the public POST routes |
| catalogue.dfy | Catalogue | the retail catalogue filter |
| checkout.dfy | Checkout | the checkout page (a class) and its WhatsApp message |
| header.dfy | Header | the site header (a class), WhatsApp link, active link |
| faq.dfy | Faq | the FAQ accordion (a class) |
| inbox.dfy | Inbox | the admin contact-queries inbox |
| sitemap.dfy | Sitemap | `app/sitemap.ts` |

## Model

| member | source | states |
|---|---|---|
| Cart.Reduce | contexts/CartContext.tsx:24-65 | the cart reducer: ADD_ITEM raises a present line's quantity or appends a line of 1, REMOVE_ITEM filters the id out, UPDATE_QUANTITY removes on a quantity of zero or less and otherwise sets it, CLEAR_CART empties and LOAD_CART installs the lines; its laws are the rows that follow |
| Cart.Total | contexts/CartContext.tsx:124 | the cart total, the sum over the lines of price times quantity (additive by TotalConcat) |
| Cart.ItemCount | contexts/CartContext.tsx:125 | the item count, the sum of the quantities (additive by TotalConcat) |
| Cart.AddProduct | contexts/CartContext.tsx:100-110 | `addToCart` on a valid cart adds one unit: a product not yet in the cart becomes a new last line of quantity 1 with its id, name, retail price and first image (none for a missing or empty image list), and the total grows by the retail price; a product already in the cart adds one to its own line and changes nothing else |
| Cart.AddExisting | contexts/CartContext.tsx:27-36 | adding a product already in a valid cart raises that line's quantity by one and leaves every other line as it was |
| Cart.AddNew | contexts/CartContext.tsx:37-39 | adding an unknown product appends one line with quantity 1 at the end |
| Cart.AddTotals | contexts/CartContext.tsx:27-39 | every add raises the item count by one and the total by that product's line price |
| Cart.AddTwice | contexts/CartContext.tsx:27-39 | adding a new product twice gives one line with quantity 2, not two lines |
| Cart.WithoutAll | contexts/CartContext.tsx:41-44 | the remove filter keeps exactly the lines whose id differs from the removed id |
| Cart.RemoveSpec | contexts/CartContext.tsx:41-44 | after REMOVE_ITEM a line is in the cart iff it was before and has another id; removing a missing id changes nothing |
| Cart.RemoveAt | contexts/CartContext.tsx:41-44 | in a valid cart, removing the id of line k deletes exactly line k, keeping the order of the rest |
| Cart.RemoveTotals | contexts/CartContext.tsx:124-125 | removing line k lowers the total by its price times quantity and the item count by its quantity |
| Cart.UpdateNonPositive | contexts/CartContext.tsx:46-50 | setting a quantity of zero or less is the same as removing the item |
| Cart.UpdatePositive | contexts/CartContext.tsx:51-57 | a positive quantity replaces the quantity of the matching line only; the other lines and the order stay |
| Cart.ClearAndLoad | contexts/CartContext.tsx:58-61 | CLEAR_CART empties the cart (total 0); LOAD_CART installs the loaded lines verbatim |
| Cart.TotalConcat | contexts/CartContext.tsx:124-125 | total and item count add up over concatenated carts |
| Cart.ReducePreservesValid | contexts/CartContext.tsx:24-65 | every action except LOAD_CART keeps product ids in the cart unique and quantities positive |
| Sections.Render | components/sections/SectionRenderer.tsx:25-62 | `SectionRenderer`: nothing for a missing or empty list, otherwise the list rendered by RenderAll |
| Sections.RenderAll | components/sections/SectionRenderer.tsx:32-59 | `sections.map(...)` with the `null`s of hidden and unknown sections dropped; RenderIsShownInOrder states its result |
| Sections.ComponentForTag | components/sections/SectionRenderer.tsx:35-55 | the switch maps each component's type tag to that component and to no other tag |
| Sections.RenderIsShownInOrder | components/sections/SectionRenderer.tsx:25-62 | the output has one view per visible section of a known type, in the input order |
| Sections.RenderNothing | components/sections/SectionRenderer.tsx:26-28 | a missing or empty section list renders nothing |
| Sections.InvisibleContributesNothing | components/sections/SectionRenderer.tsx:33 | a hidden section adds nothing, wherever it is |
| Sections.UnknownContributesNothing | components/sections/SectionRenderer.tsx:56-57 | a section of an unknown type adds nothing, wherever it is |
| Sections.KnownRendersOnce | components/sections/SectionRenderer.tsx:35-55 | a visible section of a known type renders as exactly that component with its id and content |
| Sections.RenderConcat | components/sections/SectionRenderer.tsx:25-62 | rendering distributes over concatenation |
| HomePage.GetPageData | app/page.tsx:9-21 | the home page query: the page with slug "home" and its visible sections ordered by `order`; PageDataShape and PageDataVisible state its result |
| HomePage.GenerateMetadata | app/page.tsx:23-35 | the page metadata with its fallbacks, stated by MetadataFallbacks |
| HomePage.Compose | app/page.tsx:37-57 | `HomePage`: the not-found text without a page, otherwise the first HERO section in its scene and then the other sections |
| HomePage.FindBySlug | app/page.tsx:10-11 | `page.findUnique` by slug, also used by the maintenance scripts: the page found has the slug asked for; none is found only if no page has it |
| HomePage.PageDataShape | app/page.tsx:9-21 | the home data holds exactly the visible sections of the home page (as a multiset), sorted by order ascending, with ties in stored order |
| HomePage.PageDataVisible | app/page.tsx:9-21 | every section returned is visible and belongs to the page returned |
| HomePage.MetadataFallbacks | app/page.tsx:23-35 | the title is the SEO title, then the page title, then the site default; the Open Graph fields copy title and description; there is one OG image iff an image URL is set |
| HomePage.MissingPage | app/page.tsx:40-42 | without a home page the route shows the not-found message |
| HomePage.NotFoundMisencoded | app/page.tsx:41 | the not-found text in the source file is the intended one with its `á` double-decoded from UTF-8 into the two characters `Ã¡` |
| HomePage.FirstHeroIsFirst | app/page.tsx:45 | the hero picked is the first HERO section, and there is one iff some section is a HERO |
| HomePage.RestHasNoHero | app/page.tsx:46 | the other sections never render a hero |
| HomePage.HeroFirstAndOnly | app/page.tsx:45-55 | a visible first hero is rendered first, and it is the only hero on the page |
| HomePage.RestInFetchedOrder | app/page.tsx:46-55 | after the hero come the shown non-hero sections in fetched order |
| HomePage.ExampleHomePage | app/page.tsx:45-55 | a concrete page: a hero, a hidden FAQ and a CTA band render as hero then CTA band |
| Middleware.Middleware | middleware.ts:5-27 | the middleware body: login page passes; admin and admin-API paths redirect to login without a token or with a role other than ADMIN or EDITOR; everything else passes |
| Middleware.Authorized | middleware.ts:30-45 | the `authorized` callback, which ChecksAgree proves rejects exactly what the body redirects |
| Middleware.LoginAlwaysAllowed | middleware.ts:12-38 | the login page always passes, with or without a token |
| Middleware.AdminPathRule | middleware.ts:17-24 | another admin page redirects to login unless the token's role is ADMIN or EDITOR |
| Middleware.NonAdminAllowed | middleware.ts:26-46 | paths outside /admin always pass |
| Middleware.ChecksAgree | middleware.ts:17-46 | the middleware body and the `authorized` callback reject exactly the same requests |
| Middleware.MatchedIsAdmin | middleware.ts:55-57 | the matcher only runs the guard on admin paths, and there it redirects iff the path is not the login page and the token is not staff |
| SectionStore.Store.Delete | prisma/remove-all-duplicates.ts:44-46 | deleting a present id removes exactly that record and keeps ids unique and createdAt ascending |
| SectionStore.Store.Update | prisma/update-consulta-links.ts:50-56 | updating a present id replaces only that record's content |
| SectionStore.DeleteEach | prisma/remove-duplicate-services.ts:24-35 | deleting a list of present, distinct ids one by one leaves the table without exactly those ids |
| SectionStore.WithoutIdsMembership | prisma/remove-all-duplicates.ts:35-50 | a record survives a batch of deletes iff its id is not among the deleted ids |
| SectionStore.WithoutIdsTwice | prisma/remove-all-duplicates.ts:35-50 | deleting one id set and then another is deleting their union |
| RemoveAllDuplicates.KeyStringInjective | prisma/remove-all-duplicates.ts:24-32 | two sections get the same grouping key string iff they have the same type and order |
| RemoveAllDuplicates.GroupByKey | prisma/remove-all-duplicates.ts:24-32 | the grouping loop yields one group per distinct key, in first-seen order, each group listing that key's sections oldest first |
| RemoveAllDuplicates.OldestSurvives | prisma/remove-all-duplicates.ts:35-50 | a home section is deleted iff it is not the oldest of its type-and-order group |
| RemoveAllDuplicates.OnePerKeyRemains | prisma/remove-all-duplicates.ts:35-50 | afterwards no two remaining home sections share a key, and every key that existed still has a section |
| RemoveAllDuplicates.DuplicateCount | prisma/remove-all-duplicates.ts:35-50 | the number deleted is the number of home sections minus the number of distinct keys |
| RemoveAllDuplicates.OtherPagesUntouched | prisma/remove-all-duplicates.ts:7-14 | sections of other pages are never deleted |
| RemoveAllDuplicates.DeleteGroup | prisma/remove-all-duplicates.ts:38-49 | a group of one section is left alone; a larger group loses every section but its first, and the number deleted is returned |
| RemoveAllDuplicates.DeleteGroups | prisma/remove-all-duplicates.ts:35-50 | the deletion loop removes every group member but the first and counts them |
| RemoveAllDuplicates.RemoveAllDuplicates | prisma/remove-all-duplicates.ts:7-50 | without a home page nothing changes; otherwise exactly the duplicates of the home page are deleted, and the count returned is their number |
| RemoveDuplicateServices.GridsFacts | prisma/remove-duplicate-services.ts:7-15 | the fetched list is exactly the home page's SERVICES_GRID sections, oldest first |
| RemoveDuplicateServices.OnlyOldestGridRemains | prisma/remove-duplicate-services.ts:22-35 | a section survives iff it is not a home services grid, or it is the oldest one |
| RemoveDuplicateServices.RemoveDuplicateServices | prisma/remove-duplicate-services.ts:7-40 | without a home page nothing changes; otherwise every home services grid but the oldest is deleted |
| UpdateConsultaLinks.OtherTypesUntouched | prisma/update-consulta-links.ts:12-57 | sections other than HERO and CTA_BAND are never rewritten |
| UpdateConsultaLinks.FieldsPreserved | prisma/update-consulta-links.ts:13-15 | a rewrite keeps every content key and changes only primaryCta, secondaryCta and cta |
| UpdateConsultaLinks.WrittenOnlyWhenChanged | prisma/update-consulta-links.ts:50-56 | a section is written only when its content actually changed |
| UpdateConsultaLinks.RulesAsStated | prisma/update-consulta-links.ts:18-48 | a HERO primaryCta or a CTA_BAND cta whose text is 'Agendar Consulta' or whose link is '#contacto' becomes {text: 'Consultar', link: '/consultar'}; a HERO secondaryCta whose link is '#contacto' gets link '/consultar' and keeps its other fields |
| UpdateConsultaLinks.Rewritten | prisma/update-consulta-links.ts:13-48 | the loop body on one section: a throw on a `null` content of a HERO or CTA_BAND section, no write, or the spread content with the matching buttons replaced |
| UpdateConsultaLinks.RulesFire | prisma/update-consulta-links.ts:18-48 | conversely, an object content is written iff one of the three conditions matches, and then a matching primaryCta or cta is {text: 'Consultar', link: '/consultar'} and a matching secondaryCta gets link '/consultar' |
| UpdateConsultaLinks.RewriteIdempotent | prisma/update-consulta-links.ts:12-57 | a rewritten section needs no second rewrite |
| UpdateConsultaLinks.PassIdempotent | prisma/update-consulta-links.ts:10-57 | running the whole script a second time changes nothing more and stops at the same place |
| UpdateConsultaLinks.FirstThrow | prisma/update-consulta-links.ts:12-57 | the loop stops at the first section whose content cannot be read, and at no earlier one |
| UpdateConsultaLinks.RewriteSection | prisma/update-consulta-links.ts:13-48 | the per-section step fails iff reading its content throws, and it writes iff the rewrite changes that content |
| UpdateConsultaLinks.UpdateConsultaLinks | prisma/update-consulta-links.ts:10-57 | the table ends as the rewrite of every section before the first failure; the ids updated are exactly those that changed, and the failure is that section's error |
| UpdateConsultaLinks.RewriteAt | prisma/update-consulta-links.ts:12-56 | one pass of the loop body: either the section's content read throws and the table is untouched, or the table becomes the one after this section's step, written exactly when its rewrite changes the content |
| AdminForms.RequiredNameRule | app/api/admin/products/route.ts:54-59 | a missing, empty or all-blank name is refused and the other fields are not read; a string name goes on; a truthy non-string throws at `.trim()` |
| AdminForms.TrimmedOrNullRule | app/api/admin/products/route.ts:83-91 | an optional text field is stored trimmed, or null when missing or blank; a non-string throws |
| AdminForms.SlugSourceRule | app/api/admin/products/route.ts:62-68 | a blank or missing slug is derived from the name, otherwise from the trimmed slug; a non-string slug throws |
| AdminProductsRoute.List | app/api/admin/products/route.ts:9-37 | the GET handler: 401 for non-staff, 500 when the session or the query throws, otherwise the products |
| AdminProductsRoute.Post | app/api/admin/products/route.ts:39-129 | the POST handler, whose status and record are stated by the rows that follow |
| AdminProductsRoute.NoStaffIs401 | app/api/admin/products/route.ts:9-48 | both GET and POST answer 401 to anyone who is not ADMIN or EDITOR |
| AdminProductsRoute.BlankNameIs400 | app/api/admin/products/route.ts:54-59 | a blank name answers 400 before any database call |
| AdminProductsRoute.CreatedOnlyIfAccepted | app/api/admin/products/route.ts:39-103 | a 201 comes only from a staff session, a readable body, a valid name and a slug and insert that succeed |
| AdminProductsRoute.AcceptedCreates | app/api/admin/products/route.ts:62-103 | an accepted request stores the product built from the body with the unique slug, and answers with its id |
| AdminProductsRoute.DataRules | app/api/admin/products/route.ts:80-94 | the record has the trimmed name; array or empty images and tags; an empty category becomes null; NaN prices and stock become 0; `featured` is a boolean and `active` defaults to true |
| AdminProductsRoute.ScalarWrapped | app/api/admin/products/route.ts:85-87 | a truthy non-array `images` or `tags` value is wrapped in a one-element list |
| AdminProductsRoute.ConflictIs409 | app/api/admin/products/route.ts:113-128 | a duplicate-key error (P2002) answers 409; any other error answers 500 |
| AdminCategoriesRoute.Listing | app/api/admin/categories/route.ts:20-25 | `orderBy: [order asc, name asc]` as a stable sort of the table; ListingOrdered states its result |
| AdminCategoriesRoute.List | app/api/admin/categories/route.ts:9-35 | the GET handler: 401 for non-staff, 500 when the session or the query throws, otherwise the listing |
| AdminCategoriesRoute.Post | app/api/admin/categories/route.ts:37-105 | the POST handler, whose status and record are stated by the rows that follow |
| AdminCategoriesRoute.OrderThenNameIsTotalPreorder | app/api/admin/categories/route.ts:20-25 | ordering by order, then name, compares every pair of categories consistently |
| AdminCategoriesRoute.ListingOrdered | app/api/admin/categories/route.ts:9-35 | the GET listing is a permutation of the table, sorted by order then name, with equal categories kept in table order |
| AdminCategoriesRoute.NoStaffIs401 | app/api/admin/categories/route.ts:9-46 | GET and POST answer 401 to anyone who is not staff |
| AdminCategoriesRoute.BlankNameIs400 | app/api/admin/categories/route.ts:51-56 | a blank name answers 400 before any database call |
| AdminCategoriesRoute.CreatedOnlyIfAccepted | app/api/admin/categories/route.ts:39-90 | a 201 comes only from a staff session, a readable body, a valid name and a slug and insert that succeed |
| AdminCategoriesRoute.AcceptedCreates | app/api/admin/categories/route.ts:59-90 | an accepted request stores the category built from the body with the unique slug |
| AdminCategoriesRoute.DataRules | app/api/admin/categories/route.ts:77-84 | the record has the trimmed name, the slug given, order 0 on a NaN parse, and `visible` defaulting to true |
| AdminCategoriesRoute.ConflictIs409 | app/api/admin/categories/route.ts:94-104 | P2002 answers 409; any other error answers 500 "Failed to create category" |
| AdminSectionsRoute.Post | app/api/admin/sections/route.ts:6-86 | the POST handler, whose status and record are stated by the rows that follow |
| AdminSectionsRoute.MaxOrder | app/api/admin/sections/route.ts:44-47 | the aggregate is absent iff the page has no sections, and otherwise it is their largest order |
| AdminSectionsRoute.DefaultOrderIsNext | app/api/admin/sections/route.ts:53 | the default order is 0 on an empty page and otherwise one more than the largest order in use |
| AdminSectionsRoute.NoStaffIs401 | app/api/admin/sections/route.ts:10-15 | anyone who is not staff gets 401 |
| AdminSectionsRoute.MissingFieldsIs400 | app/api/admin/sections/route.ts:23-28 | a missing pageId or type answers 400 without touching the database |
| AdminSectionsRoute.UnknownPageIs404 | app/api/admin/sections/route.ts:31-41 | a pageId with no page answers 404 |
| AdminSectionsRoute.CreatedIff | app/api/admin/sections/route.ts:6-64 | a 201 is answered iff the caller is staff, both fields are present, the page exists and both queries succeed; the record takes pageId and type from the body, the next free order by default, `{}` for empty content and visible by default |
| AdminSectionsRoute.InsertFailureMessage | app/api/admin/sections/route.ts:74-84 | errors answer 500 with the foreign-key message for P2003, the error's own message otherwise, and the default text when it has none |
| MediaUpload.Post | app/api/media/upload/route.ts:9-116 | the upload handler, whose checks, record and errors are stated by the rows that follow |
| MediaUpload.AuthorizationOrder | app/api/media/upload/route.ts:13-27 | no session gives 401 and a non-staff role gives 403, both before the form is read |
| MediaUpload.FileChecks | app/api/media/upload/route.ts:29-55 | a missing file, a type outside the allowed list and a file over 15 MB each answer 400 with their own message, checked in that order |
| MediaUpload.SizeLimitInclusive | app/api/media/upload/route.ts:49-55 | a file of exactly 15 MB (15728640 bytes) is not refused as too large |
| MediaUpload.UploadedIff | app/api/media/upload/route.ts:61-88 | 200 is answered iff every check and effect succeeds |
| MediaUpload.UploadedRecord | app/api/media/upload/route.ts:61-88 | the media record's URL is `/uploads/<time>-<random>.<extension>`, with the original name as alt text and the file's size and type |
| MediaUpload.Extension | app/api/media/upload/route.ts:61-64 | the extension is the name's suffix after its last dot, and the whole name when there is no dot |
| MediaUpload.ExtensionOfName | app/api/media/upload/route.ts:61-64 | the extension of `stem.ext` is `ext` whenever `ext` has no dot |
| MediaUpload.RandomPart | app/api/media/upload/route.ts:62 | the random part is at most 13 characters: characters 2 to 14 of the base-36 string |
| MediaUpload.ErrorPriority | app/api/media/upload/route.ts:99-114 | every failure is a 500 whose message is chosen in this order: P2002, then ENOENT, then EACCES, then the error's message, then the default |
| FormSchemas.TextOf | app/api/contact/route.ts:5-12 | an optional text field that passed the schema is absent or exactly the string sent |
| OrdersRoute.Post | app/api/orders/route.ts:21-55 | the POST handler, whose statuses and stored order are stated by the rows that follow |
| OrdersRoute.StatusRules | app/api/orders/route.ts:22-53 | 400 iff the body fails the schema; 500 iff reading the body or the insert throws; 201 iff both succeed and the body is valid; a 400 is never stored |
| OrdersRoute.StoredOrder | app/api/orders/route.ts:5-40 | a stored order has a name, a valid e-mail, type RETAIL or WHOLESALE, lines with positive quantity and price, a positive total copied from the body, and status NEW |
| OrdersRoute.ZeroTotalRejected | app/api/orders/route.ts:18 | an order whose total is 0 is refused |
| OrdersRoute.ValidEncoded | app/api/orders/route.ts:5-19 | an encoded order body passes the schema iff it has a name, a valid e-mail, a known type, positive lines and a positive total |
| OrdersRoute.CheckoutOrderAccepted | app/importadora/minorista/checkout/page.tsx:26-42 | the body the checkout posts for a valid cart passes the orders schema iff the name is set, the e-mail is valid, the cart is not empty and every price is positive |
| OrdersRoute.PositiveTotal | contexts/CartContext.tsx:124 | a non-empty cart of positive prices and quantities has a positive total |
| ContactRoute.Post | app/api/contact/route.ts:14-74 | the POST handler, whose statuses and stored query are stated by the rows that follow |
| ContactRoute.InvalidIs400 | app/api/contact/route.ts:59-72 | an invalid body answers 400 "Datos inválidos" and nothing is stored |
| ContactRoute.StoredQuery | app/api/contact/route.ts:20-49 | 201 iff the body is valid and the insert succeeds; the stored query has a name, e-mail and message and status NEW, and empty optional fields are null |
| ContactRoute.FailureCodes | app/api/contact/route.ts:59-72 | P2002 answers 409; any other error answers 500 with its message, or "Error desconocido" when there is none |
| LeadsRoute.Post | app/api/wholesale-leads/route.ts:15-48 | the POST handler, whose statuses and stored lead are stated by the rows that follow |
| LeadsRoute.StatusRules | app/api/wholesale-leads/route.ts:20-46 | 400 iff the body fails the schema; 500 iff reading the body or the insert throws; 201 otherwise; a 400 is never stored |
| LeadsRoute.StoredLead | app/api/wholesale-leads/route.ts:5-33 | a stored lead has a company, a name and a valid e-mail, status NEW, and its optional fields exactly as sent |
| LeadsRoute.NullOptionalRejected | app/api/wholesale-leads/route.ts:5-13 | an optional field sent as null is refused, since the schema allows absent but not null |
| Catalogue.FilteredProducts | app/importadora/minorista/page.tsx:28-34 | `products.filter(...)` by category and search; FilteredInOrder states its result |
| Catalogue.ShowAll | app/importadora/minorista/page.tsx:57 | the "Todos" button clears the category and keeps the search |
| Catalogue.SelectCategory | app/importadora/minorista/page.tsx:69 | a category button selects that slug and keeps the search |
| Catalogue.SetSearch | app/importadora/minorista/page.tsx:28-34 | typing replaces the search and keeps the category |
| Catalogue.FilteredInOrder | app/importadora/minorista/page.tsx:28-34 | the products shown are exactly those matching both filters, in catalogue order |
| Catalogue.CategoryRule | app/importadora/minorista/page.tsx:29 | with no category everything matches; with one, exactly the products of that category |
| Catalogue.SearchRule | app/importadora/minorista/page.tsx:30-32 | an empty search matches everything; otherwise a product matches iff the lower-cased query occurs in its lower-cased name or short description |
| Catalogue.NoFiltersShowsAll | app/importadora/minorista/page.tsx:28-34 | with no filters the whole catalogue is shown |
| Catalogue.SelectedCategoryOnly | app/importadora/minorista/page.tsx:28-34 | after selecting a category only its products are shown |
| Checkout.OrderItemsMatchCart | app/importadora/minorista/checkout/page.tsx:26-31 | each order line copies the id, name, quantity and price of its cart line, in cart order |
| Checkout.PostedTotal | app/importadora/minorista/checkout/page.tsx:33-42 | the posted body is a RETAIL order whose total is the sum of its lines |
| Checkout.CheckoutPage.constructor | app/importadora/minorista/checkout/page.tsx:10-19 | the page starts with the cart given, an empty form, nothing submitting and no order id |
| Checkout.CheckoutPage.HandleSubmit | app/importadora/minorista/checkout/page.tsx:44-57 | the request posts the form and the cart as they were; on an ok reply whose body parses to a non-null value the cart is cleared and the order id set; when `fetch` throws, the reply is not ok, or its body fails to parse or is `null` (so reading `order.id` throws), the cart and order id are kept and the alert shown; submitting is always reset |
| Checkout.CheckoutPage.Confirmation | app/importadora/minorista/checkout/page.tsx:59-61 | the confirmation is shown iff a non-empty order id is set |
| Checkout.OptionalLines | app/importadora/minorista/checkout/page.tsx:59-60 | an optional line of the message is empty iff its value is empty, and otherwise it is the caption and the value on a new line |
| Checkout.MessageAfterClear | app/importadora/minorista/checkout/page.tsx:47-60 | as written, once an order id is set the cart is empty (HandleSubmit clears it on success), so the confirmation message lists no products and total 0 |
| Checkout.LinesLost | app/importadora/minorista/checkout/page.tsx:47-60 | for any non-empty cart, the lines the message lists after clearing differ from the lines of the order |
| Checkout.IntendedMessageListsOrder | app/importadora/minorista/checkout/page.tsx:59-60 | the message built from the posted order is the message the page would build from the cart before clearing: every cart line and the cart total |
| Header.DefaultNumber | components/layout/Header.tsx:26 | without a configured number the link uses the default number; with one it uses that number |
| Header.DefaultLink | components/layout/Header.tsx:26-27 | the default number's digits are 5491112345678 |
| Header.LinkOfNumber | components/layout/Header.tsx:27 | the link is `https://wa.me/` followed by exactly the digits of the number, in order |
| Header.DigitsOnly | components/layout/Header.tsx:27 | stripping non-digits keeps every digit, in order, and nothing else |
| Header.DigitsIdempotent | components/layout/Header.tsx:27 | stripping twice is stripping once |
| Header.SiteNameFallback | components/layout/Header.tsx:43 | the site name is the configured one when set, and the default before settings load or when it is empty |
| Header.AtMostOneActive | components/layout/Header.tsx:29-53 | at most one link is active, and one is active iff the path is one of the six hrefs |
| Header.HeaderView.constructor | components/layout/Header.tsx:10-12 | the header starts on the current path with no settings and the menu closed |
| Header.HeaderView.SettingsLoaded | components/layout/Header.tsx:14-19 | loaded settings replace the old ones; a failed fetch is swallowed and changes nothing |
| Header.HeaderView.ToggleMenu | components/layout/Header.tsx:86-99 | the menu button flips the mobile menu and nothing else: a closed menu now lists all the links, an open one none |
| Header.HeaderView.Navigate | components/layout/Header.tsx:21-24 | moving to another path closes the mobile menu, so it lists no links; staying on the same path leaves it as it was |
| Faq.Items | components/sections/FAQSection.tsx:19 | an array `items` is used as it is, and missing or falsy items give an empty list |
| Faq.AtMostOneShown | components/sections/FAQSection.tsx:18-49 | at most one answer is shown, and none at first |
| Faq.ClickTwice | components/sections/FAQSection.tsx:36 | clicking the same question twice restores the state iff nothing was open or that question was open; when another question was open, the two clicks close everything |
| Faq.ClickShows | components/sections/FAQSection.tsx:36-49 | after a click, exactly the clicked answer is shown, or none if it was the open one |
| Faq.Accordion.Click | components/sections/FAQSection.tsx:36 | a click updates the open index by the toggle rule and keeps the items |
| Faq.Accordion.ShownAnswers | components/sections/FAQSection.tsx:49 | at most one answer is open at any time |
| Inbox.AllItems | app/admin/contact-queries/page.tsx:48-83 | `getAllItems`: the tagged rows of the three lists sorted newest first; AllItemsShape states its result |
| Inbox.FilteredItems | app/admin/contact-queries/page.tsx:85-94 | `getFilteredItems`: the rows of the active tab |
| Inbox.Count | app/admin/contact-queries/page.tsx:117-147 | the tab badges: each list's length, 0 for a non-array, and their sum for All |
| Inbox.StatusColor | app/admin/contact-queries/page.tsx:28-46 | each status gets one of five colours |
| Inbox.StatusGroups | app/admin/contact-queries/page.tsx:28-46 | NEW is blue; CONTACTED and IN_PROGRESS are yellow; RESOLVED, DONE and APPROVED are green; ARCHIVED, CANCELLED and REJECTED are red; anything else is grey |
| Inbox.GetAllItems | app/admin/contact-queries/page.tsx:48-83 | the merging loop computes the combined inbox |
| Inbox.AllItemsShape | app/admin/contact-queries/page.tsx:48-83 | the inbox holds every query, order and lead once, newest first, with equal times kept in source order |
| Inbox.RowsTagged | app/admin/contact-queries/page.tsx:48-83 | every row is tagged with its kind |
| Inbox.OrderRowsNamed | app/admin/contact-queries/page.tsx:69 | an order row is named after its customer and typed "order" |
| Inbox.TabsAgreeWithCounts | app/admin/contact-queries/page.tsx:85-117 | every tab lists as many rows as its badge counts; the All count is the sum of the other three; the Orders tab lists the orders in fetched order |
| Inbox.CompanyCellAsWrittenHidesCompany | app/admin/contact-queries/page.tsx:188 | as written, a lead's company cell shows the total text "$undefined" instead of the company |
| Inbox.CompanyCellShowsCompany | app/admin/contact-queries/page.tsx:188 | corrected, the cell shows the company, then the lead's company name, then the order total, else "-" |
| Inbox.CompanyCellRepairsLead | app/admin/contact-queries/page.tsx:188 | corrected, a lead with companyName "Acme" and no company shows "Acme" |
| Sitemap.Routes | app/sitemap.ts:6-73 | the sitemap entries, whose layout Layout and LayoutRows state |
| Sitemap.DefaultBaseUrl | app/sitemap.ts:7-29 | the sitemap's first entry is the site root: NEXTAUTH_URL when set and non-empty, otherwise `http://localhost:3000` |
| Sitemap.Layout | app/sitemap.ts:27-70 | the sitemap has 4 + pages + posts + products entries: the home entry first with priority 1, the news index after the pages, and the importadora and minorista entries after the posts, each with its fixed frequency and priority |
| Sitemap.LayoutRows | app/sitemap.ts:34-69 | between the fixed entries come one entry per published page at `/slug`, one per published post under `/noticias/` and one per active product under `/importadora/minorista/productos/`, in table order |
| Sitemap.Listed | app/sitemap.ts:10-25 | listed pages are exactly the published ones, posts exactly those PUBLISHED with a date by now, and products exactly the active ones |

## Left out

- Rendering, styling, animation and the parallax scenes are left out: they are JSX markup with no logic beyond what the model captures.
- The cart's `localStorage` load and save (contexts/CartContext.tsx:83-98) is left out as browser I/O. Its effect, LOAD_CART, is modelled.
- Prices are integers. The source uses JavaScript floating point; rounding is not modelled.
- `toLowerCase`, `toLocaleString`, `encodeURIComponent`, `generateSlug`, `generateUniqueSlug`, `parseInt`, `parseFloat` and zod's e-mail check are function parameters. Their own code is not part of this model; the Unicode case mapping and the number formatting lie outside it.
- Dates are integers, so a date that parses to NaN is not modelled. `Date.now()` and the random base-36 string are inputs.
- Prisma's `orderBy createdAt` and the unspecified order of `findMany` are represented by the store's sequence order. The products GET sorts by createdAt descending, and that order is left to the store.
- The JavaScript sorts (the inbox sort and Prisma's `orderBy` for categories and home sections) are modelled by value, as a stable insertion sort on sequences. The in-place array mutation is not modelled.
- In the media upload, `mkdir`, `existsSync` and `writeFile` are merged into one `write` effect.
- The JSON details arrays that zod returns with a 400 are not modelled; only the status and the message are.
- Console logging is left out, as are the session's other fields.
- The sitemap's database queries are assumed to succeed, since the source has no error path for them.
- React's batching of state updates is left out: each handler runs as one atomic method.
- Checkout.CheckoutPage.HandleSubmit: an order id that is not a string in the reply is modelled as no id.
- Faq.Items: a truthy non-array `items` value gives an empty list, where the source would fail in `.map`. A `null` content, on which `content.items` throws during rendering, is also modelled as no items.
- Header: a `res.json()` failure in the settings fetch is swallowed like a fetch failure; both are `SettingsLoaded(Threw(_))`.
- AdminForms.NotAString: the message of the TypeError that `.trim()` throws on a non-string is approximated as `<field>.trim is not a function`; the engine's exact text (for example `body.name.trim is not a function`) is not modelled.
- Thrown values are errors with a string message, so `details: error?.message` is always that string (`""` when the message is empty). A thrown value without a `message` property, for which `details` would be left out of the reply, is not modelled.
- Inbox.AsOrder: a `null` element of the orders list, on which `o.customerName` throws, is modelled as a row with no fields but the tags.
- RemoveAllDuplicates.DeleteGroups, RemoveDuplicateServices.RemoveDuplicateServices and UpdateConsultaLinks.UpdateConsultaLinks: a `delete` or `update` call that fails part-way through the loop is not modelled; every such call succeeds. The script would stop there, with the earlier changes kept.
- AdminCategoriesRoute.Listing: names are compared character by character (Text.LexLe). The database orders `name asc` by its collation, which is not modelled.

## Findings

| source | as written | input that shows it | evidently intended | confidence | as-written member | corrected member |
|---|---|---|---|---|---|---|
| app/admin/contact-queries/page.tsx:188 | `item.company \|\| item.companyName \|\| item.type === 'order' ? total : '-'` parses as `(… \|\| …) ? total : '-'` because `?:` binds looser than `\|\|` | a wholesale lead with companyName "Acme" and no total | show the company or company name, and the total only for orders | high (not executed) | Inbox.CompanyCellAsWrittenHidesCompany | Inbox.CompanyCellShowsCompany |
| app/importadora/minorista/checkout/page.tsx:47-60 | `clearCart()` runs before the WhatsApp message is built from the cart, so the message lists no products and total 0 | any successful order of a non-empty cart, e.g. 2 × "Mate" at 100 | the message lists the order just placed | high (not executed) | Checkout.MessageAfterClear | Checkout.IntendedMessageListsOrder |
| app/page.tsx:41 | the not-found text is stored as `PÃ¡gina no encontrada`: the UTF-8 bytes of `á` were decoded a second time, so the page renders `Ã¡` | a request for the home page when no page has slug "home" | render `Página no encontrada` | high (not executed) | HomePage.NotFoundMisencoded | HomePage.MissingPage |
