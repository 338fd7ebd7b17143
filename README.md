# Invoice dashboard core, modelled in Dafny

This project models the logic at the centre of a small invoice admin dashboard (a Next.js application backed by a Supabase/PostgreSQL store) and proves properties of it:

- **The query-string helper** `useSearchQueryParams` (`app/lib/use-search-query-params.ts`). `setParams`, `appendParams` and `deleteParams` copy the page's read-only query parameters into a fresh `URLSearchParams`. They edit the copy entry by entry, serialize it, and ask the router to navigate only when the query string changed. The hook is a class whose methods carry the source's loops. The `URLSearchParams` object is a class over an ordered list of (name, value) tuples, with the `set`, `append`, `delete`, `get` and `getAll` operations of section 6.2 of the WHATWG URL Standard. Serialization follows the application/x-www-form-urlencoded serializer of section 5.2 of that standard; the section 5.1 parser is modelled as its inverse. The router is a log of the navigations it was asked for.
- **The invoice reads** of `app/lib/data.ts`. The tables are sequences of rows. The query-builder steps the code chains are pure functions (`QueryBuilder`):
  - `ilike` on `status` with `%query%`;
  - `.order` by date descending or by name ascending;
  - the inclusive `.range`, `.limit` and `.single()`.

  On top of those sit the page offset and page count with `ITEMS_PER_PAGE = 6`, the all-or-nothing customer enrichment, `fetchInvoiceById`, `fetchCustomers`, and the paid/pending reduce of `fetchCardData` (a method with a loop).
- **The invoice actions** of `app/lib/actions.ts`:
  - the zod form schema;
  - `createInvoice`, `updateInvoice` and `deleteInvoice` as methods on an invoices table class (a map from id to row), with the revalidate and redirect effects recorded in order;
  - the `authenticate` error-to-message mapping.
- **The route gate and credentials check** of `auth.config.ts`: the `authorized` callback's four-way decision, and the guard chain of `authorize`. The email-format check and the bcrypt comparison are parameters.

Modules: `Wrappers` (Option, Result), `FormUrlEncoded`, `SearchParams`, `SearchQueryParams`, `QueryBuilder`, `Data`, `Actions`, `AuthConfig`.

Where the code and its own documentation disagree, the model follows the code:

- The hook's doc comment gives `method='replace'` and `deleteFalseValues=false` as the defaults (use-search-query-params.ts:9-10). The code uses `push` and `true` (lines 45-50, 95-100, 145-149). `DefaultDeletesFalsyValues` and `NavigatesIffChanged` state the code's behaviour.
- `getUser` never throws when no user or several users match. `.single()` then only leaves `data` null, and `authorize` returns null.
- The customer id check is `z.string()`, so an empty customer id passes validation (`EmptyCustomerIdAccepted`).
- `amount * 100` is stored without rounding.

## Model

| member | source | states |
|---|---|---|
| FormUrlEncoded.DecodeEncode | app/lib/use-search-query-params.ts:69 | percent-decoding undoes the urlencoded encoding of every name or value |
| FormUrlEncoded.ParseSerialize | app/lib/use-search-query-params.ts:69 | parsing the serialization of a tuple list gives back the same list |
| FormUrlEncoded.SerializeInjective | app/lib/use-search-query-params.ts:70 | two tuple lists serialize to the same query string iff they are equal, so comparing strings compares lists |
| FormUrlEncoded.Serialize | app/lib/use-search-query-params.ts:69 | the query string is empty exactly for the empty list, and otherwise starts with the first tuple's `name=value` |
| SearchParams.FirstIndex | app/lib/use-search-query-params.ts:177 | the position of the first tuple with that name: it has the name and no earlier tuple does |
| SearchParams.GetAll | app/lib/use-search-query-params.ts:177 | `getAll(n)` yields at most one value per tuple, each the value of a tuple named `n` |
| SearchParams.Get | app/lib/use-search-query-params.ts:177 | `get(n)` yields a value iff some tuple is named `n`, and that value belongs to a tuple named `n` |
| SearchParams.GetIsFirstOfGetAll | app/lib/use-search-query-params.ts:177 | `get` yields the first of the values `getAll` yields, or null when there are none |
| SearchParams.GetAtFirstIndex | app/lib/use-search-query-params.ts:177 | `get` yields the value of the first tuple with the name, and null iff no tuple has it |
| SearchParams.GetAllHas | app/lib/use-search-query-params.ts:177 | a name has values iff some tuple carries it |
| SearchParams.RemoveGetAll | app/lib/use-search-query-params.ts:60 | after `delete(n)`, `n` has no values and every other name keeps exactly its values |
| SearchParams.RemoveMembers | app/lib/use-search-query-params.ts:60 | `delete(n)` keeps exactly the tuples with other names |
| SearchParams.RemoveConcat | app/lib/use-search-query-params.ts:60 | `delete` distributes over concatenation, so kept tuples keep their relative order |
| SearchParams.RemoveAbsent | app/lib/use-search-query-params.ts:60 | deleting a name no tuple has changes nothing |
| SearchParams.Remove | app/lib/use-search-query-params.ts:60 | `delete(n)` never lengthens the list and leaves no tuple named `n` |
| SearchParams.RemoveKeeps | app/lib/use-search-query-params.ts:60 | every tuple `delete` keeps was already in the list |
| SearchParams.SetValueGetAll | app/lib/use-search-query-params.ts:65 | after `set(n, v)`, `n` has exactly the one value `v` and every other name keeps its values |
| SearchParams.SetValuePlacement | app/lib/use-search-query-params.ts:65 | `set` replaces the first tuple with the name in place and drops the later ones, or appends when the name is absent |
| SearchParams.SetValueShift | app/lib/use-search-query-params.ts:65 | where `set` places the value in the tail of a list whose head has another name, it places it one position later in the whole list |
| SearchParams.SetValue | app/lib/use-search-query-params.ts:65 | after `set(n, v)` the list holds (n, v), every tuple named `n` is that one, no two tuples are named `n`, and the list grew by at most one |
| SearchParams.AppendGetAll | app/lib/use-search-query-params.ts:114 | `append(n, v)` adds `v` after the values `n` already has and touches no other name |
| SearchParams.GetAllConcat | app/lib/use-search-query-params.ts:112-114 | the values of a name in a concatenation are those of each part, in order |
| SearchParams.URLSearchParams.constructor | app/lib/use-search-query-params.ts:52 | a fresh object holding a copy of the given tuples |
| SearchParams.URLSearchParams.Delete | app/lib/use-search-query-params.ts:60 | the object's list becomes the old list without the tuples with that name |
| SearchParams.URLSearchParams.Append | app/lib/use-search-query-params.ts:114 | the object's list becomes the old list plus the new tuple at the end |
| SearchParams.URLSearchParams.Set | app/lib/use-search-query-params.ts:65 | the object's list becomes the WHATWG URL Standard's `set` of the old list |
| SearchQueryParams.Strings | app/lib/use-search-query-params.ts:63 | stringifying an array keeps one string per element |
| SearchQueryParams.StringsEach | app/lib/use-search-query-params.ts:63 | each element of the array is stringified in place, so the strings keep the elements' order |
| SearchQueryParams.ScalarToString | app/lib/use-search-query-params.ts:63-65 | `String(value)` is empty only for the empty string, and a number's string starts with `-` exactly when the number is negative |
| SearchQueryParams.IsFalsy | app/lib/use-search-query-params.ts:58 | a falsy value is never an array, and a falsy scalar stringifies to `""` or `"0"` |
| SearchQueryParams.IsDeleted | app/lib/use-search-query-params.ts:55-58 | an entry is deleted iff its value is falsy and either it is null or undefined or `deleteFalseValues` holds |
| SearchQueryParams.DefaultDeletesFalsyValues | app/lib/use-search-query-params.ts:49-58 | with `deleteFalseValues` at its default, a null, undefined, `""` or `0` value removes its key, and so does an empty array |
| SearchQueryParams.SetEntryGetAll | app/lib/use-search-query-params.ts:54-67 | one `setParams` entry leaves its key holding exactly the set result and every other key unchanged |
| SearchQueryParams.SetEntry | app/lib/use-search-query-params.ts:54-67 | one `setParams` entry adds at most as many tuples as its set result has; a deleted entry leaves no tuple under its key; a kept scalar is present under its key |
| SearchQueryParams.SetEntries | app/lib/use-search-query-params.ts:54-67 | when the last entry is deleted, no tuple under its key remains after the loop |
| SearchQueryParams.SetParamsOtherKeys | app/lib/use-search-query-params.ts:54-67 | `setParams` leaves every key that no entry names with exactly its old values |
| SearchQueryParams.SetParamsKeyValues | app/lib/use-search-query-params.ts:54-67 | after `setParams`, a key holds what its last entry asks for: nothing when deleted, the array's elements stringified in order, or the one stringified scalar |
| SearchQueryParams.SetParamsScalarPlacement | app/lib/use-search-query-params.ts:65 | a kept scalar takes the place of its key's first tuple, or is appended when the key was absent |
| SearchQueryParams.SetEntriesSplit | app/lib/use-search-query-params.ts:54 | the `setParams` loop over a split entry list is the loop over each part in turn |
| SearchQueryParams.AppendEntriesSplit | app/lib/use-search-query-params.ts:104 | the `appendParams` loop over a split entry list is the loop over each part in turn |
| SearchQueryParams.AppendEntryKept | app/lib/use-search-query-params.ts:111-115 | one kept `appendParams` entry adds its stringified values after all existing tuples |
| SearchQueryParams.AppendParamsStep | app/lib/use-search-query-params.ts:104-116 | one more kept entry extends the `appendParams` result by exactly that entry's tuples |
| SearchQueryParams.AppendEntry | app/lib/use-search-query-params.ts:104-116 | a kept `appendParams` entry keeps the whole list in front and adds one tuple per value; a deleted one leaves no tuple under its key |
| SearchQueryParams.AppendEntries | app/lib/use-search-query-params.ts:104-116 | when the last entry is deleted, no tuple under its key remains after the loop |
| SearchQueryParams.AppendParamsKeepsExisting | app/lib/use-search-query-params.ts:104-116 | when no entry is deleted, `appendParams` keeps every existing tuple in place and adds the new values after them, in entry order |
| SearchQueryParams.AppendEntryGetAll | app/lib/use-search-query-params.ts:104-116 | one `appendParams` entry leaves its key empty when deleted, or holding its old values followed by the new ones; other keys are unchanged |
| SearchQueryParams.AppendParamsOtherKeys | app/lib/use-search-query-params.ts:104-116 | `appendParams` leaves every key that no entry names unchanged |
| SearchQueryParams.AppendParamsKeyValues | app/lib/use-search-query-params.ts:104-116 | after `appendParams`, an entry's key holds its old values followed by the new ones, or nothing when the entry is deleted |
| SearchQueryParams.PairsGetAll | app/lib/use-search-query-params.ts:63 | appending values under one key adds exactly those values to that key and nothing to others |
| SearchQueryParams.DeleteParamsRemovesListed | app/lib/use-search-query-params.ts:153-157 | `deleteParams` removes exactly the tuples whose name is listed; all others stay in their original order |
| SearchQueryParams.RemoveKeys | app/lib/use-search-query-params.ts:153-157 | `deleteParams` keeps only tuples of the list, and none of them carries a listed key |
| SearchQueryParams.WithoutMembers | app/lib/use-search-query-params.ts:153-157 | the kept tuples are exactly those whose name is not listed |
| SearchQueryParams.RemoveWithout | app/lib/use-search-query-params.ts:154 | deleting one more key removes that key on top of the ones already removed |
| SearchQueryParams.WithoutNothing | app/lib/use-search-query-params.ts:153-157 | removing no keys keeps the list as it is |
| SearchQueryParams.NavigatesIffChanged | app/lib/use-search-query-params.ts:69-76 | the router is called at most once, exactly when it is enabled and the edited list differs from the original; it uses push unless the method is replace and carries `?` plus the new string |
| SearchQueryParams.NavigationFor | app/lib/use-search-query-params.ts:69-76 | at most one navigation, made iff the router is enabled and the string changed; it carries `?` plus the new string and the scroll option, and is a push iff the method is push |
| SearchQueryParams.Router.Push | app/lib/use-search-query-params.ts:72 | the router's log gains one push of that URL |
| SearchQueryParams.Router.Replace | app/lib/use-search-query-params.ts:74 | the router's log gains one replace of that URL |
| SearchQueryParams.SearchQueryParamsHook.Navigate | app/lib/use-search-query-params.ts:69-76 | the router's log gains exactly the navigation the options and the changed string call for |
| SearchQueryParams.SearchQueryParamsHook.AppendEach | app/lib/use-search-query-params.ts:63 | the copy gains one tuple per array element, stringified, in array order |
| SearchQueryParams.SearchQueryParamsHook.SetParams | app/lib/use-search-query-params.ts:41-78 | returns the serialization of the entry-by-entry edit of a copy of the current parameters; the current parameters are untouched; the router log gains only the navigation for that string |
| SearchQueryParams.SearchQueryParamsHook.AppendParams | app/lib/use-search-query-params.ts:91-127 | the same for the append edit |
| SearchQueryParams.SearchQueryParamsHook.DeleteParams | app/lib/use-search-query-params.ts:141-168 | the same for the removal of the listed keys |
| SearchQueryParams.SearchQueryParamsHook.GetParamValue | app/lib/use-search-query-params.ts:176-178 | the first value stored under the key, present iff some tuple has the key |
| QueryBuilder.Filter | app/lib/data.ts:154 | keeps exactly the rows that satisfy the condition and never more rows than there are |
| QueryBuilder.FilterKeepsAll | app/lib/data.ts:154 | a condition every row meets keeps the table as it is |
| QueryBuilder.FilterConcat | app/lib/data.ts:100-110 | filtering distributes over concatenation, so kept rows stay in table order |
| QueryBuilder.Single | app/lib/data.ts:63 | `.single()` gives a row iff exactly one row matches, and that row is a matching row of the table |
| QueryBuilder.First | app/lib/data.ts:219 | the first matching row in table order, present iff some row matches |
| QueryBuilder.Limit | app/lib/data.ts:52 | `.limit(n)` gives the first `min(n, rows)` rows |
| QueryBuilder.Range | app/lib/data.ts:156 | `.range(from, to)` gives the rows at positions `from` through `to` inclusive: at most `to - from + 1` of them, all that exist in the window |
| QueryBuilder.LexLeqTotal | app/lib/data.ts:155 | any two texts are comparable in the order `.order` sorts by |
| QueryBuilder.LexLeqTransitive | app/lib/data.ts:155 | that order is transitive |
| QueryBuilder.InsertSorted | app/lib/data.ts:155 | inserting a row into a sorted list keeps it sorted |
| QueryBuilder.SortBy | app/lib/data.ts:155 | `.order` returns a permutation of the rows, sorted by the key in the requested direction |
| Data.Lower | app/lib/data.ts:154 | ILIKE's case folding lower-cases every ASCII letter and keeps the length |
| Data.ILikeContains | app/lib/data.ts:154 | a status can only match a query no longer than itself, and the empty query matches every status |
| Data.NewestFirst | app/lib/data.ts:155 | the rows are a permutation of the matching rows, with dates never increasing |
| Data.PageOffset | app/lib/data.ts:140 | the offset is a multiple of six, and is non-negative exactly from page 1 on |
| Data.PageOfInvoices | app/lib/data.ts:140-156 | a page exists iff its number is at least 1; it has at most six rows, each a row of the table whose status matches the query |
| Data.SearchFilter | app/lib/data.ts:154 | a row passes the search iff its status contains the query ignoring case; the empty query keeps every row |
| Data.PageCount | app/lib/data.ts:204 | the page count is the least number of six-row pages covering the count, a null count counting as 0 |
| Data.PageCountExamples | app/lib/data.ts:204 | 0 rows give 0 pages, 6 give 1, 7 give 2, and a null count gives 0 |
| Data.PageWindow | app/lib/data.ts:140-156 | page `p` holds the matching rows, newest first, at positions `(p-1)*6` through `(p-1)*6+5`: at most six |
| Data.EveryMatchOnAPage | app/lib/data.ts:140-156 | every matching row appears on a page between 1 and the page count |
| Data.Enrich | app/lib/data.ts:56-79 | enrichment succeeds iff every invoice has exactly one customer; it then keeps the invoices' length and order, each row shaped with its own customer |
| Data.FetchLatestInvoices | app/lib/data.ts:30-86 | the five newest invoices, each carrying its customer's id, name, email and image; any store error or missing customer gives the one fixed message |
| Data.LatestAreNewest | app/lib/data.ts:51-52 | the latest selection is newest first, has `min(5, rows)` rows, and no invoice left out is newer than a selected one |
| Data.FetchFilteredInvoices | app/lib/data.ts:126-192 | the enriched rows of the requested page in page order; a store error, a page below 1 or a missing customer gives the one fixed message |
| Data.FetchInvoicesPages | app/lib/data.ts:195-209 | the ceiling of the number of matching rows over six, or the fixed message when the store fails |
| Data.FetchInvoiceById | app/lib/data.ts:212-224 | the first invoice with that id, projected to its form fields; null when none has it or when the store fails |
| Data.FetchCustomers | app/lib/data.ts:227-241 | the fixed message exactly when the store fails |
| Data.FetchCustomersListsAll | app/lib/data.ts:229-236 | every customer appears, projected to id and name, one per row, names in ascending order, and nothing else appears: the rows are a permutation of the customers' projections |
| Data.ProjectPermutation | app/lib/data.ts:231 | projecting two permutations of the customers to id and name gives two permutations of the same fields |
| Data.ProjectPermutationMembers | app/lib/data.ts:231 | the projection of a permutation holds every customer's fields and no others |
| Data.TotalConcat | app/lib/data.ts:100-110 | the total of a concatenation is the sum of the totals |
| Data.Total | app/lib/data.ts:100-110 | the total of non-negative amounts is non-negative |
| Data.TotalStep | app/lib/data.ts:101-107 | one more row adds its amount to the total of its own status and to no other |
| Data.StatusTotals | app/lib/data.ts:100-110 | the reduce yields the sum of the amounts of the rows whose status is exactly "paid", and the same for "pending" |
| Data.TotalsPartition | app/lib/data.ts:100-110 | every amount counts toward exactly one of paid, pending and neither |
| Data.OtherStatusCountsNowhere | app/lib/data.ts:102-106 | a row of any other status changes neither total |
| Data.FetchCardData | app/lib/data.ts:88-124 | missing counts become 0; the totals are the paid and pending sums; an error on the status query is returned as the error instead of thrown |
| Actions.Validate | app/lib/actions.ts:21-35 | accepts iff the customer id is text, the amount coerces to a number above 0 and the status is "pending" or "paid"; otherwise reports, per field, an issue exactly for the fields that fail, with the schema's own messages |
| Actions.EmptyCustomerIdAccepted | app/lib/actions.ts:23-25 | an empty customer id passes the schema |
| Actions.Coerce | app/lib/actions.ts:26-28 | only a text field can coerce to a number, and a text field whose text parses to a number does |
| Actions.Updated | app/lib/actions.ts:116-123 | the update changes only the customer, amount (in cents) and status of the row with that id; its date and every other row stay as they were |
| Actions.NewRow | app/lib/actions.ts:61-72 | the inserted row keeps the customer, has a positive amount iff the form's amount is positive, stores the status as its text and the given day as its date |
| Actions.ValidatedRowWellFormed | app/lib/actions.ts:61-72 | a validated form always yields a row with a positive amount and a known status |
| Actions.WritesKeepRowsWellFormed | app/lib/actions.ts:65-72 | inserting, updating and deleting with validated input keep every row well formed |
| Actions.CreateAddsOneRow | app/lib/actions.ts:65-72 | an insert adds exactly one row and changes none of the others |
| Actions.DeleteRemovesOnlyThatRow | app/lib/actions.ts:135 | a delete removes only the row with that id, if there is one |
| Actions.InvoicesTable.constructor | app/lib/actions.ts:65 | a table holding the given rows |
| Actions.InvoicesTable.Insert | app/lib/actions.ts:65-72 | without a store error, the table gains the row under the new id; with one, the table is unchanged and the error is reported |
| Actions.InvoicesTable.Update | app/lib/actions.ts:116-123 | without a store error, the table becomes its update; with one, it is unchanged |
| Actions.InvoicesTable.Delete | app/lib/actions.ts:135 | without a store error, the row with that id is gone; with one, the table is unchanged |
| Actions.Rethrown | app/lib/actions.ts:74-78 | rethrowing a caught store error gives "Error: " followed by its message, and just "Error" exactly when the message is empty, as `Error.prototype.toString` does |
| Actions.InvoiceActions.CreateInvoice | app/lib/actions.ts:43-86 | an invalid form returns its issues with "Failed to Create Invoice." and writes nothing; a store error throws, before any effect, the rethrown store message ("Error: " plus the message, or "Error" when it is empty); otherwise one row is inserted, then the invoices path is revalidated, then redirected to; rows stay well formed |
| Actions.InvoiceActions.UpdateInvoice | app/lib/actions.ts:90-132 | an invalid form returns its issues with "Failed to Create Invoice."; a store error throws "Failed to insert invoice." before any effect; otherwise the row is updated, then revalidation, then the redirect |
| Actions.InvoiceActions.DeleteInvoice | app/lib/actions.ts:134-143 | a store error throws "Failed to delete invoice." with no effect; otherwise the row is removed and the path revalidated, with no redirect |
| Actions.Authenticate | app/lib/actions.ts:145-163 | a "CredentialsSignin" auth error gives "Invalid credentials.", any other auth error "Something went wrong.", any other error is rethrown, success gives nothing |
| AuthConfig.DashboardOn | auth.config.ts:35 | the redirect target is the request's origin followed by "/dashboard" |
| AuthConfig.IsLoggedIn | auth.config.ts:29 | logged in iff there is a session and it carries a user |
| AuthConfig.IsOnDashboard | auth.config.ts:30 | on the dashboard iff the path starts with "/dashboard"; such a path starts with `/` |
| AuthConfig.Authorized | auth.config.ts:28-38 | dashboard and logged in: allow; dashboard and not logged in: refuse; elsewhere and logged in: redirect to the dashboard on the same origin; elsewhere and not logged in: allow |
| AuthConfig.GateSeparatesVisitors | auth.config.ts:28-38 | only a visitor on a dashboard path without a user is refused; nobody reaches a dashboard path without a user; a logged-in user always lands on a dashboard path |
| AuthConfig.DashboardIsAPrefixTest | auth.config.ts:30 | the dashboard test is a prefix test: "/dashboardx" passes, "/dash" and "/login" do not |
| AuthConfig.Utf16Length | auth.config.ts:45 | the length JavaScript reports: between one and two units per character, and one per character exactly when none lies above U+FFFF |
| AuthConfig.ParseCredentials | auth.config.ts:43-47 | credentials parse iff the email is an email-shaped string and the password a string of at least six UTF-16 code units |
| AuthConfig.AstralPasswordAccepted | auth.config.ts:45 | a three-character password of characters above U+FFFF is six code units long, so the schema accepts it |
| AuthConfig.GetUser | auth.config.ts:8-21 | a user comes back iff the store answers and exactly one user has that email, and that user has it |
| AuthConfig.Authorize | auth.config.ts:42-57 | the user comes back iff the credentials parse, the lookup finds the one user and the password matches the stored hash; null in every other case |
| AuthConfig.ShortPasswordRefused | auth.config.ts:45 | a password shorter than six UTF-16 code units never signs in |
| AuthConfig.SharedEmailRefused | auth.config.ts:10-14 | when two users share an email, nobody signs in with it |
| AuthConfig.FilterAtLeastTwo | auth.config.ts:14 | two matching rows leave at least two rows after filtering, which `.single()` refuses |

## Left out

- SearchQueryParams.Scalar: numbers in query parameters are modelled as safe integers (at most 2^53 - 1 in absolute value), for which `String()` gives the plain decimal digits. Larger integers (which `String()` rounds to 17 significant digits, and from 10^21 on writes with an exponent), fractional numbers, `NaN` and the infinities, with their `String()` forms, are not modelled.
- Data.PageOffset: the page is taken to be a whole number. A fractional page such as 1.5, which `currentPage: number` allows, would give an offset that is not a multiple of six; that is not modelled.
- Characters at or above U+0080 pass through the serializer unchanged. Their UTF-8 percent-encoding is not modelled; they can never be mistaken for a separator.
- The Next.js hook machinery (`useRouter`, React rendering) is not modelled. The router is the log of the push and replace calls, and the hook's inputs are given directly.
- `fetchRevenue`, with its artificial delay and fixed rows, is not modelled: it contains no logic.
- `formatCurrency` is not part of this model: the totals of `fetchCardData` and `LatestInvoice.amount` in `Data.FetchLatestInvoices` (data.ts:76) are left unformatted.
- `Promise.all` concurrency is not modelled: the enrichment and the three card reads run sequentially, and only their order matters.
- The network and the store client are not modelled. A failing store is a `failing` flag or a `fault` parameter; the card reads are given as their responses.
- Data.PageOfInvoices: a page below 1 gives a negative offset. The model takes the store to reject that `.range` as an error; the store's real answer to a negative range is not modelled.
- QueryBuilder.SortBy: `.order` is modelled by an insertion sort. The order of rows with equal keys is not modelled beyond what that sort gives, and text is compared character by character, not by a database collation.
- Data.ILikeContains: case folding covers ASCII letters only. The ILIKE wildcards `%` and `_` and its default escape character `\` inside the user's query are not modelled: the query is taken as literal text.
- Amounts are exact `real` numbers. `z.coerce.number()` string parsing is the `toNumber` parameter, `Infinity` is not modelled, and `amount * 100` is exact rather than floating point.
- `parseFormData` and `Object.fromEntries` are not modelled. The form is given as its three fields, each missing, text or a file.
- Actions.InvoicesTable.Insert: the store generates the new id, so the model takes it as a parameter that must be fresh. Database constraints such as the foreign key to customers are folded into the `fault` parameter.
- The zod issues other than the schema's own messages are kept symbolic (`Required`, `ExpectedNumber`, `InvalidEnumValue`); their message texts are not modelled.
- `new Date().toISOString()` is the `today` parameter, `signIn` is its result (`SignInResult`), and `revalidatePath` and `redirect` are recorded effects.
- zod's email check and `bcrypt.compare` are the `isEmail` and `compare` parameters.
- AuthConfig.GetUser: an exception thrown by the store client, which the source turns into "Failed to fetch user.", is not modelled; a failing store gives null.
- `fetchInvoiceById`'s "Failed to fetch invoice." is unreachable in the model: the store's error leaves `data` null, and the function returns null.
