# Gym site lead capture and admin dashboard, modelled in Dafny

The repository is a fitness gym's marketing site. Its backend is a small
Express API over MongoDB. It stores contact-form submissions ("leads") and
gallery images, and has a single admin login that issues a JWT. Its React
client has a contact form, a gallery with a category filter, and an admin
dashboard that lists, searches and deletes leads.

This project models the logic of that core:

- **Lead document** (`lead_schema.dfy`). `Lead` is the stored record. `Validate` is Mongoose's schema check and build:
  - `name` and `email` are required, and a required string must be non-empty;
  - `phone` and `program` stay as given, with no default;
  - `createdAt` is the time the document is built.
- **Lead collection** (`lead_db.dfy`, `lead_queries.dfy`). A class holds the stored documents in insertion order. Its invariant is that `_id`s are unique. It models insert (a duplicate `_id` is refused), `findById`, delete by `_id`, and `find().sort({ createdAt: -1 })`. The sort is a function proved ordered newest-first and a permutation of the collection.
- **Lead controller** (`lead_controller.dfy`). `createLead` checks `name`/`email`/`phone` itself and fills in `"General Inquiry"`. `getLeads` answers with the newest-first list and its count. `deleteLead` answers 404 or removes exactly that lead.
- **Inline routes of `server.js`** (`server.dfy`):
  - login answers one generic 400 for an unknown email and for a wrong password, and on success a token over `{ user: { id } }` that expires 12 hours after issue;
  - GET and DELETE `/api/leads` sit behind the auth gate;
  - POST `/api/leads` relies on the schema alone;
  - GET `/api/gallery` answers with every stored image.
- **Admin dashboard** (`admin_dashboard.dfy`). The case-insensitive search is proved to be an order-preserving filter with exact multiplicities. The model also covers the display fallbacks and, as a class over the component state and the stored token, `fetchLeads`, `handleDelete` and `handleLogout`.
- **Contact form** (`contact_form.dfy`). A class covers the form fields, the program selector and the submit status machine (idle, loading, then success or error).
- **Gallery** (`gallery_view.dfy`). A class covers loading the images and the category filter.

Shared pieces are in `wrappers.dfy` (Option, Result), `js_text.dfy` (JavaScript truthiness, `||`, ASCII case mapping, `includes`) and `seq_filter.dfy` (`Array.prototype.filter` and what it preserves). Response codes and bodies are in `http.dfy`. A failure body records whether its text is under `message` (the controller, login, 404s) or under `error` (the inline routes' catch blocks).

Parameters stand for the outside world:

- the `_id` the driver assigns and the clock (`now`, `nowMillis`);
- `bcrypt.compare` and `jwt.sign` (function parameters);
- the auth middleware's decision (`Gate`);
- the outcome of each client request (`LeadsReply`, `DeleteReply`, `SubmitReply`, `GalleryReply`);
- the admin's answer to `window.confirm`.

Behaviour worth knowing, as the code has it:

- **Two lead-intake routes.** The inline POST `/api/leads` in `backend/server.js` does not require `phone` and applies no program default. The controller does both. Both are modelled, and `Server.IntakeRoutesDisagree` exhibits a body that one refuses and the other stores. `server.js` does not mount `leadRoutes.js`, so the inline routes are the ones served.
- **`fetchLeads` without a token.** The function returns before its `try`/`finally`, so `isRefreshing` stays `true` and `loading` keeps its value. Only the paths that send a request end with both flags false.

## Model

| member | source | states |
|---|---|---|
| `LeadSchema.Validate` | backend/src/models/Lead.js:3-9 | a document is built iff `name` and `email` are non-empty strings; it then carries the given name, email, phone and program unchanged, the assigned `_id` and `createdAt == now`; otherwise the error lists exactly the missing required paths |
| `LeadSchema.OptionalPathsHaveNoDefault` | backend/src/models/Lead.js:6-7 | a body without phone and program is stored without them: neither path has a default |
| `LeadQueries.IndexOf` | backend/src/controllers/leadController.js:54 | `findById`: absent iff no lead has the `_id`, otherwise the position of the first lead with it |
| `LeadQueries.WithoutKeepsOthers` | client/src/pages/AdminDashboard.jsx:60 | removing an `_id` keeps an order-preserving subsequence with every lead of another `_id` exactly as often as before and none with that `_id` |
| `LeadQueries.WithoutAbsent` | backend/src/controllers/leadController.js:54-58 | removing an `_id` no lead has leaves the sequence unchanged |
| `LeadQueries.WithoutPresent` | backend/src/controllers/leadController.js:60 | with unique ids, removing the `_id` of the lead at `i` yields the sequence without position `i`, the rest in order |
| `LeadQueries.WithoutKeepsDistinct` | backend/server.js:102 | deletion keeps `_id`s unique |
| `LeadQueries.NewestFirst` | backend/src/controllers/leadController.js:37 | `sort({ createdAt: -1 })`: the result is ordered by `createdAt` descending and is a permutation of the input |
| `LeadQueries.InsertKeepsOrder` | backend/src/controllers/leadController.js:37 | inserting a lead into a newest-first sequence keeps it newest first |
| `LeadDb.LeadCollection.Insert` | backend/src/controllers/leadController.js:14-19 | insert appends the document iff its `_id` is new (unique index), keeps the collection's invariant and changes nothing else |
| `LeadDb.LeadCollection.FindById` | backend/src/controllers/leadController.js:54 | the answer is absent iff no stored lead has the `_id`, otherwise a stored lead with that `_id` |
| `LeadDb.LeadCollection.DeleteById` | backend/src/controllers/leadController.js:60 | removes exactly the lead with the `_id` (or nothing when absent), keeping the rest in order and ids unique |
| `LeadDb.LeadCollection.FindNewestFirst` | backend/src/controllers/leadController.js:37 | returns every stored lead (as a multiset) ordered newest first |
| `LeadController.ProgramOrDefault` | backend/src/controllers/leadController.js:18 | the stored program is the supplied one when truthy, else `"General Inquiry"`; never empty |
| `LeadController.CreateLead` | backend/src/controllers/leadController.js:6-29 | a falsy name, email or phone answers 400 "Required fields missing" and stores nothing; otherwise 201 with the new lead (given name, email, phone, defaulted program, `createdAt == now`) appended after the existing leads; a taken `_id` answers 500 and stores nothing |
| `LeadController.GetLeads` | backend/src/controllers/leadController.js:34-47 | 200 with every lead newest first, `count` equal to the length of `data` |
| `LeadController.DeleteLead` | backend/src/controllers/leadController.js:52-69 | unknown `_id`: 404 "Lead not found" and no change; otherwise exactly that lead is removed, the rest kept in order, answer 200 |
| `Server.FindOneByEmail` | backend/server.js:34 | `findOne({ email })`: absent iff no account has exactly that email, otherwise the first account that has it |
| `Server.Login` | backend/server.js:30-61 | the answer is either the generic 400 "Invalid Credentials" or 200; 200 iff the first account with that email has a password hash the supplied password matches; the token then signs `{ user: { id } }` with `iat` the current second and `exp = iat + 12 h` |
| `Server.LoginFailuresIndistinguishable` | backend/server.js:35-42 | any two failed logins give identical responses, whatever the email, password or time |
| `Server.UnknownEmailRefused` | backend/server.js:34-37 | an email no account has gets the generic 400 |
| `Server.WrongPasswordRefused` | backend/server.js:39-42 | a password that matches no account with that email gets the same generic 400 |
| `Server.GetLeads` | backend/server.js:67-78 | a rejected gate answers 401; an admitted one 200 with every lead newest first and `count == data.length` |
| `Server.PostLead` | backend/server.js:84-94 | only a schema failure (400, error under `error`) or a taken `_id` (400) refuses; missing phone or program is accepted and stored as missing; success answers 201 with a message and no lead, appending exactly the validated document |
| `Server.DeleteLead` | backend/server.js:100-109 | a rejected gate answers 401 with no change; unknown `_id` 404 "Lead not found" and no change; otherwise that lead is removed, the rest kept in order, answer 200 |
| `Server.GetGallery` | backend/server.js:115-123 | 200 with every stored image, in stored order |
| `Server.IntakeRoutesDisagree` | backend/server.js:86-88 | a body with name and email only is refused by the controller's check and accepted by the schema, without program |
| `AdminDashboard.Search` | client/src/pages/AdminDashboard.jsx:73-76 | `filteredLeads` is an order-preserving subsequence of `leads` holding each matching lead exactly as often as `leads` does and no other lead |
| `AdminDashboard.MatchesIffOccurs` | client/src/pages/AdminDashboard.jsx:74-75 | a lead matches iff the lower-cased query occurs at some index of its lower-cased name or email |
| `AdminDashboard.EmptySearchKeepsAll` | client/src/pages/AdminDashboard.jsx:73-76 | an empty query shows every lead |
| `AdminDashboard.SearchIgnoresQueryCase` | client/src/pages/AdminDashboard.jsx:74-75 | searching for a query and for its lower-cased form shows the same leads |
| `AdminDashboard.Initial` | client/src/pages/AdminDashboard.jsx:224 | one character: `"?"` for an empty name, otherwise the name's first letter up to case and not lower-case |
| `AdminDashboard.DisplayName` | client/src/pages/AdminDashboard.jsx:227 | the name when non-empty, else `"UNIDENTIFIED"` |
| `AdminDashboard.Sid` | client/src/pages/AdminDashboard.jsx:228 | the last eight characters of `_id` (all of it when shorter), a suffix of it |
| `AdminDashboard.DisplayProgram` | client/src/pages/AdminDashboard.jsx:250 | the program when truthy, else `"Standard Training"` |
| `AdminDashboard.Dashboard.constructor` | client/src/pages/AdminDashboard.jsx:11-14 | no leads, loading, not refreshing, empty search |
| `AdminDashboard.Dashboard.FilteredLeads` | client/src/pages/AdminDashboard.jsx:73-76 | the rows shown are an order-preserving subsequence of the loaded leads, holding each lead that matches the current query exactly as often as the loaded leads do, and no other lead |
| `AdminDashboard.Dashboard.SetSearchQuery` | client/src/pages/AdminDashboard.jsx:136 | the search box sets the query, and the rows shown become exactly the loaded leads matching it |
| `AdminDashboard.Dashboard.FetchLeads` | client/src/pages/AdminDashboard.jsx:17-44 | no token: redirect to `/login`, no request, nothing else changes (refreshing stays on); otherwise the token is sent, an ok answer sets `leads` to `data` or `[]`, a non-ok answer removes the token and redirects, a thrown error changes nothing, and both flags end false |
| `AdminDashboard.Dashboard.HandleDelete` | client/src/pages/AdminDashboard.jsx:50-65 | a request is sent iff confirmed; only an ok answer removes the leads with that `_id`, after which no row shown has it; otherwise `leads` is unchanged |
| `AdminDashboard.Dashboard.HandleLogout` | client/src/pages/AdminDashboard.jsx:67-70 | the stored token is removed and the route is `/login` |
| `ContactForm.Set` | client/src/components/Contact.jsx:34-37 | the named field takes the value; every other field keeps its own |
| `ContactForm.FailureMessage` | client/src/components/Contact.jsx:53 | the error shown is the server's `error` when truthy, else `"Invalid Data Sent"`; for a thrown error, its message |
| `ContactForm.Contact.constructor` | client/src/components/Contact.jsx:20-32 | empty fields with program `"Bodybuilding"`; status idle |
| `ContactForm.Contact.HandleChange` | client/src/components/Contact.jsx:34-37 | updates only the named field |
| `ContactForm.Contact.SelectProgram` | client/src/components/Contact.jsx:180-183 | a program button sets only `program` |
| `ContactForm.Contact.StartSubmit` | client/src/components/Contact.jsx:39-42 | while loading: nothing is sent and nothing changes; otherwise the current form is sent and the status becomes loading, not success, no error |
| `ContactForm.Contact.FinishSubmit` | client/src/components/Contact.jsx:44-62 | an ok answer sets success and resets the form (program `"Bodybuilding"`); any failure clears loading, records the failure message and keeps the form |
| `GalleryView.ReplyOf` | client/src/components/Gallery.jsx:14-17 | `axios` rejects exactly the non-2xx answers; a 2xx answer yields the body's image list when it has one and nothing otherwise |
| `GalleryView.LoadsStoredImages` | client/src/components/Gallery.jsx:14-20 | fetching from the server's gallery route hands the component exactly the stored images, in stored order |
| `GalleryView.InCategory` | client/src/components/Gallery.jsx:35 | exactly the images whose category equals the chosen one, each as often as before, in original order |
| `GalleryView.Gallery.constructor` | client/src/components/Gallery.jsx:6-9 | no images, loading, filter `"all"` |
| `GalleryView.Gallery.FetchImages` | client/src/components/Gallery.jsx:12-26 | an answer sets `images` and `filteredImages` both to `data` or `[]`; a thrown error keeps them; loading ends either way |
| `GalleryView.Gallery.FilterGallery` | client/src/components/Gallery.jsx:30-37 | `activeFilter` becomes the category; `"all"` shows `images`, any other category `InCategory(images, category)`; `images` never changes |
| `JsText.ToLowerCase` | client/src/pages/AdminDashboard.jsx:74-75 | `toLowerCase` keeps the length and lower-cases each character on its own (ASCII letters only) |
| `JsText.Includes` | client/src/pages/AdminDashboard.jsx:74-75 | `includes` is never true for a needle longer than the string and always true for the empty needle; its exact meaning is `JsText.IncludesIffOccurs` |
| `JsText.IncludesIffOccurs` | client/src/pages/AdminDashboard.jsx:74-75 | `includes` answers true exactly when the needle occurs at some index |
| `JsText.UpperCharSameLetter` | client/src/pages/AdminDashboard.jsx:224 | upper-casing keeps a letter equal up to case and leaves no lower-case ASCII letter |
| `SeqFilter.Filter` | client/src/pages/AdminDashboard.jsx:60 | every element `filter` keeps passes the test, and the result is never longer than the input |
| `SeqFilter.FilterMembership` | client/src/components/Gallery.jsx:35 | an element is in a filter result iff it is in the input and passes the test |
| `SeqFilter.FilterIsSubsequence` | client/src/components/Gallery.jsx:35 | a filter result is an order-preserving subsequence of its input |
| `SeqFilter.FilterCounts` | client/src/pages/AdminDashboard.jsx:73-76 | a filter keeps every occurrence of a passing element and none of the others |

## Left out

- Server plumbing: Express setup, CORS, body parsing, environment loading, the database connection, the health-check route and the process exit on a failed connection (backend/server.js:1-24,126-135). These are I/O.
- The MongoDB driver's own failures (lost connection, timeouts), which reach the `catch` blocks as 500 answers, except on the inline POST `/api/leads`, whose catch answers every error with 400 (backend/server.js:90-93). Only the unique-`_id` clash is modelled.
- An `:id` that cannot be cast to an ObjectId. The driver throws a cast error, which becomes a 500 answer; the model treats ids as plain strings, so such an id simply matches nothing.
- Login bodies without `email` or `password`. The behaviour then comes from Mongoose query casting and bcryptjs argument errors. The model takes both as strings.
- `bcrypt.compare` and `jwt.sign` are abstract function parameters. Token verification, signature checks and expiry checking belong to the auth middleware, and `src/middleware/auth.js` is not part of this model. The gate is a parameter, and a rejection is an opaque 401.
- The `User` and `Gallery` models are not part of this model beyond the fields read here.
- The gallery component reads `imageUrl` and `title`, which the gallery documents do not have. Those fields affect only rendering and are not modelled.
- One-off scripts (`createAdmin.js`, `seed.js`), route wiring (`leadRoutes.js`), the login page, and the presentational components (navigation, hero, pricing, trainers, programs, footer, loading screen, toasts, scroll progress, app shell). None of these holds lead logic.
- Timers: the contact form's 5-second success reset and the app's loading screen.
- Locale date formatting on the dashboard (client/src/pages/AdminDashboard.jsx:255) and full Unicode case mapping. `toLowerCase` and `toUpperCase` are modelled on ASCII letters only.
- React's asynchrony. Each handler is modelled as running to completion on the current state, so the following are not captured:
  - stale closures (`handleDelete` filters the `leads` of its render, `handleSubmit` reads the `status` of its render);
  - interleaving of overlapping requests;
  - the mount-time `useEffect` that triggers the fetches.
- The dashboard's alert on a failed delete, all console logging, and the `Array.isArray` guard in the gallery. These have no effect on state.
- Request-body fields that are not strings (numbers, objects) and Mongoose's casting of them.
- The order among leads with equal `createdAt`. The store leaves it unspecified; the model proves only ordering and permutation.
- `LeadDb.LeadCollection.FindNewestFirst`: states the order and the multiset of the result, not which order equal timestamps take.
