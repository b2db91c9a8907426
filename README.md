# Customer and address manager: a Dafny model

The system is a small customer-relationship page with two halves.

- **The backend** is a Flask service over two MySQL tables: `customers` and `addresses`. Each address row refers to a customer by `customer_id`. The service has one route per create, read, update and delete. The customer listing joins the two tables. It annotates each customer with its address count and the comma-joined cities, states and pin codes of its addresses. A case-insensitive substring search then filters that list.
- **The page** is a browser script. It keeps a customer form, an address form in a detail view, a customer list and an address list in step with the backend. Each event handler is one transition on that state.

The model has these modules, one per `.dfy` file:

| module | file | what it holds |
|---|---|---|
| `Table` | `table.dfy` | A table is a sequence of rows in primary-key order, with an auto-increment counter. It provides lookup, UPDATE, DELETE and filtering, and the lemmas the routes rely on. |
| `Schema` | `schema.dfy` | The rows of both tables, the joined listing row, and the route responses (status code plus JSON body). |
| `CustomerQuery` | `query.dfy` | The read side as pure functions: the LEFT JOIN with COUNT and GROUP_CONCAT, Python's `lower()` and `in`, and the search filter. |
| `CustomerStore` | `store.dfy` | A `Store` class whose fields are the two tables and their counters, with one method per route. |
| `JsText` | `jstext.dfy` | JavaScript's `trim()`, and the text that a JSON number becomes in an input value or a URL. |
| `CustomerPage` | `page.dfy` | A `Page` class whose fields are the values of the page's inputs, button labels, list regions and view visibility, with one method per handler. |
| `Exchange` | `wire.dfy` | Links the page and the backend: what the backend reads from the body the page sends. |

How replies and side effects are modelled:

- A handler that awaits the backend takes the reply as a parameter. `None` means that `fetch` or `response.json()` threw.
- The handler returns the request it issues, the alert it shows, and the fetch it starts afterwards.
- `confirm()` is a boolean parameter.
- `Page.Valid()` is the state invariant and every handler keeps it. It says:
  - exactly one of the two views is visible;
  - the detail view always has a bound customer;
  - each form's button label agrees with whether its hidden id is bound.

## Model

| member | source | states |
|---|---|---|
| Table.Find | backend/app.py:95-99 | The lookup finds a row exactly when the key is present, and the row it returns is in the table under that key. |
| Table.FindUnique | backend/app.py:184-186 | In a table with distinct keys, looking up a row's key returns that very row. |
| Table.Replace | backend/app.py:122-123 | The UPDATE gives the row with the key the new columns and leaves every other row and the row order unchanged. |
| Table.ReplaceThenFind | backend/app.py:122-127 | After the UPDATE of a present key, reading that key back gives the new columns under the same key. |
| Table.Keep | backend/app.py:73-81 | The filter keeps exactly the elements that satisfy the condition, in their original order. |
| Table.KeepTwice | backend/app.py:73-81 | Filtering a filtered list again with the same condition changes nothing. |
| Table.CountIsKeepSize | backend/app.py:60-65 | COUNT over the joined rows equals the number of rows the same condition selects. |
| Table.Remove | backend/app.py:140-141 | The DELETE keeps exactly the rows with another key, in order, and changes nothing when the key is absent. |
| Table.RemoveOne | backend/app.py:140-145 | In a table with distinct keys, deleting a present key removes exactly one row. |
| Table.SubsequenceOrdered | backend/app.py:140-141 | Leaving rows out of a key-ordered table keeps it key-ordered. |
| Table.RemoveWellKeyed | backend/app.py:140-141 | The DELETE keeps the table invariant: keys strictly increase and were all issued by the counter. |
| Table.ReplaceWellKeyed | backend/app.py:122-123 | The UPDATE keeps the table invariant. |
| Table.AppendWellKeyed | backend/app.py:36-37 | An INSERT under the counter's next key keeps the table invariant once the counter advances. |
| CustomerQuery.ContainsIff | backend/app.py:75-80 | Python's `q in s` holds exactly when `q` occurs at some position of `s`. |
| CustomerQuery.LowerAppend | backend/app.py:78-80 | Lowercasing distributes over concatenation. |
| CustomerQuery.GroupConcat | backend/app.py:61-63 | GROUP_CONCAT is NULL exactly when no address row joined. |
| CustomerQuery.AddressesOf | backend/app.py:101-103 | A customer's addresses are exactly the address rows with its id, in table order. |
| CustomerQuery.AddressCount | backend/app.py:60-66 | A customer's address count is the number of address rows with its id. |
| CustomerQuery.Summarize | backend/app.py:55-66 | A listing row carries the customer's columns and the count of its addresses. The count is 0 exactly when the cities column is NULL, so a customer with no address still appears with count 0. |
| CustomerQuery.Summaries | backend/app.py:64-66 | The join produces one row per customer, customers without addresses included. The rows come in customer-key order, which is a modelling choice: the SQL has no ORDER BY. |
| CustomerQuery.ApplySearch | backend/app.py:49-81 | An empty search returns every row. A non-empty search returns exactly the rows whose name, phone or non-empty concatenated cities, states or pin codes contain the lowercased query. The result is an order-preserving subsequence of the unfiltered list. |
| CustomerQuery.LowerChar | backend/app.py:75-80 | ASCII lowercasing: a capital letter becomes the small letter at the same place in the alphabet, and any other character is left as it is. |
| CustomerQuery.Lower | backend/app.py:49 | `.lower()` keeps the length of the text and lowercases it character by character, leaving no upper-case ASCII letter in it. |
| CustomerQuery.LowerIdempotent | backend/app.py:49 | Lowercasing a lowercased text changes nothing. |
| CustomerQuery.Hit | backend/app.py:78-80 | A concatenated column matches exactly when it is non-NULL, non-empty, and its lowercased text holds the query at some position. |
| CustomerQuery.Matches | backend/app.py:74-80 | The comprehension's condition holds exactly when the query occurs in the lowercased first name, last name or phone number, or one of the three concatenated columns matches. |
| CustomerQuery.ListCustomers | backend/app.py:47-83 | The whole GET /customers result is an order-preserving subsequence of the joined rows. With an empty search it has one row per customer, and every row carries the number of addresses with its id. |
| CustomerQuery.ApplySearchTwice | backend/app.py:72-81 | Searching a search result again with the same query changes nothing. |
| CustomerQuery.ApplySearchIgnoresCase | backend/app.py:49-81 | The search ignores the case of the query: a query and its lowercased form return the same rows. |
| CustomerQuery.ListedCountIsDetailSize | backend/app.py:98-105 | A listed customer's address count equals the number of addresses its detail read returns. |
| CustomerQuery.DeletedNotListed | backend/app.py:140-141 | After a customer is deleted, no listing shows it, whatever the search. |
| CustomerQuery.CreatedIsListedLast | backend/app.py:36-37 | After a customer is created, the unfiltered listing has exactly one more row, for that customer. That row is last because the model lists customers in key order. |
| CustomerQuery.SearchFindsCity | backend/app.py:78 | A search for text inside one of a customer's cities finds that customer. |
| CustomerQuery.SearchSpansSeparator | backend/app.py:61 | The search runs over the comma-joined cities. With the cities joined in address-key order (a modelling choice), "N,B" finds a customer whose cities are Austin and Boston, although neither city contains it. |
| CustomerStore.Falsy | backend/app.py:30 | Python truthiness of a value read with `data.get`: a value that is not falsy is present and non-empty. |
| CustomerStore.MissingCustomerField | backend/app.py:30 | `not all([...])` over the three customer fields: a body that passes has all three keys present, so the INSERT can read them. |
| CustomerStore.MissingAddressField | backend/app.py:163 | `not all([...])` over the five address fields: a body that passes has a non-zero customer id and all four string fields present. |
| CustomerStore.Store.constructor | backend/app.py:9-15 | The database the service connects to, taken as empty: both tables empty, both auto-increment counters at 1, and the table invariant holds. |
| CustomerStore.Store.CreateCustomer | backend/app.py:26-39 | A falsy first name, last name or phone number gives 400 "Missing required fields" and no change. Otherwise one row is appended under the next key, holding only those three columns, and the response is 201. |
| CustomerStore.Store.GetCustomers | backend/app.py:47-83 | The response is 200 with the searched listing of the current tables. |
| CustomerStore.Store.GetCustomer | backend/app.py:90-106 | An absent id gives 404 "Customer not found", and only an absent id does. Otherwise the response holds that customer with exactly the addresses that refer to it, as many as its listed count. |
| CustomerStore.Store.UpdateCustomer | backend/app.py:113-127 | An absent id gives 404 and no change. Otherwise only that row's three columns change and the response is 200 "Customer updated successfully". |
| CustomerStore.Store.DeleteCustomer | backend/app.py:135-145 | An absent id gives 404 and no change. Otherwise exactly that one row is removed and the response is 200 "Customer deleted successfully". |
| CustomerStore.Store.AddAddress | backend/app.py:155-171 | A falsy customer id or address field gives 400 "Missing required address fields" and no change. Otherwise one address row is appended under the next key and the response is 201. |
| CustomerStore.Store.GetAddress | backend/app.py:179-189 | An absent id gives 404 "Address not found", and only an absent id does. Otherwise the response is the row with that key. |
| CustomerStore.Store.UpdateAddress | backend/app.py:196-211 | An absent id gives 404 and no change. Otherwise only that row's four address columns change, its customer stays the same, and the response is 200. |
| CustomerStore.Store.DeleteAddress | backend/app.py:219-229 | An absent id gives 404 "Address not found" and no change. Otherwise exactly that one row is removed. |
| JsText.Trim | frontend/script.js:107-113 | A trimmed value neither starts nor ends with white space. |
| JsText.TrimEmptyIff | frontend/script.js:115 | A value is empty after trim() exactly when it holds only white space. |
| JsText.TrimTrimmed | frontend/script.js:107-113 | trim() leaves an already trimmed value unchanged. |
| JsText.NumberToString | frontend/script.js:161 | An id written into an input is a non-empty string of decimal digits with no leading zero. |
| JsText.DigitsValue | backend/app.py:90 | Flask's `<int:...>` converter reads a string of decimal digits, most significant first. A string of k digits denotes a value below 10^k. |
| JsText.NumberToStringRoundTrip | frontend/script.js:132 | The backend's integer route converter reads an id that the page wrote into a URL back as the same id. |
| JsText.NumberToStringInjective | frontend/script.js:54-56 | Distinct ids give distinct texts, so a row's buttons name one customer. |
| CustomerPage.AlertFor | frontend/script.js:142-146 | An ok reply's alert is its message. Any other reply's alert is "Error: " followed by its error. |
| CustomerPage.Complete | frontend/script.js:107-118 | The validation passes only when none of the seven inputs is empty, since an empty input trims to the empty string. |
| CustomerPage.FormPayload | frontend/script.js:121-129 | The body is always a customer body: the seven trimmed primary fields, with nothing from the appended address groups. |
| CustomerPage.ExtraAddressesIgnored | frontend/script.js:82-98 | Whatever the appended address groups hold, the validation and the body sent are the same as without them. |
| CustomerPage.ResetForm | frontend/script.js:148-150 | The reset empties the seven fields, clears the bound id and restores "Add Customer". The appended address groups stay but are emptied. |
| CustomerPage.ResetFormIdempotent | frontend/script.js:148-150 | Resetting a reset form changes nothing. |
| CustomerPage.ClearedFormIncomplete | frontend/script.js:115-118 | A form left empty by a reset fails validation, so an immediate second submit only alerts. |
| CustomerPage.Page.constructor | frontend/script.js:1-23 | The state the page's elements are taken to start in: both forms empty and in create mode, the main view shown and the detail view hidden, so `Valid()` holds. |
| CustomerPage.Page.SearchKeyUp | frontend/script.js:64-66 | A keyup fetches the list filtered by the field's current text. |
| CustomerPage.Page.ClearSearch | frontend/script.js:68-71 | Clearing the search empties the field and fetches the unfiltered list. |
| CustomerPage.Page.RenderCustomers | frontend/script.js:39-61 | An empty list shows the placeholder. Otherwise there is one item per customer, in order. Its badge is "Multiple Addresses" exactly when the count exceeds 1, and "Only One Address" otherwise, including for count 0. |
| CustomerPage.Page.ShowCustomers | frontend/script.js:28-36 | A failed fetch leaves the list as it was. An array reply is rendered. Any other reply leaves the list cleared. |
| CustomerPage.Page.ClearForm | frontend/script.js:74-79 | Clear-form leaves the form empty, in create mode (id '' and "Add Customer"), with no extra address groups. |
| CustomerPage.Page.AddAddressFields | frontend/script.js:82-99 | One empty address group is appended and nothing else changes. |
| CustomerPage.Page.SubmitCustomer | frontend/script.js:103-152 | If any trimmed field is empty: no request, the mandatory-fields alert, and no state change. Otherwise it sends PUT to /customers/<id> when an id is bound, or POST to /customers, carrying exactly the seven trimmed values. After any reply, ok or not, the form is reset to create mode and the unfiltered list is fetched. |
| CustomerPage.Page.ConcludeCustomerSubmit | frontend/script.js:140-151 | After the reply arrives: its alert, the reset to create mode, and a fetch of the unfiltered list. |
| CustomerPage.Page.EditCustomer | frontend/script.js:155-170 | It GETs /customers/<id>. On a reply: the loaded names and phone and the loaded id are bound, the label becomes "Update Customer", and the four address fields and extra groups are cleared. A failed fetch changes nothing. |
| CustomerPage.Page.DeleteCustomer | frontend/script.js:173-186 | A DELETE is issued exactly when the user confirms. After the reply: its alert and the unfiltered list. |
| CustomerPage.Page.RenderAddresses | frontend/script.js:212-229 | An empty list shows the placeholder. Otherwise there is one item per address, in order, carrying its id. |
| CustomerPage.Page.ViewCustomerDetails | frontend/script.js:191-209 | A customer reply binds its id to the address form, renders its addresses, hides the main view and shows the detail view. A reply without customer data switches no view. |
| CustomerPage.Page.SubmitAddress | frontend/script.js:232-265 | With no validation, it sends PUT to /addresses/<id> when an address is bound, or POST to /addresses, carrying the bound customer and the raw field values. After any reply, the form is reset to create mode and the bound customer's detail view is fetched again. |
| CustomerPage.Page.EditAddress | frontend/script.js:268-278 | It GETs /addresses/<id>. The reply's four fields and id are loaded and the label becomes "Update Address". |
| CustomerPage.Page.DeleteAddress | frontend/script.js:281-294 | A DELETE is issued exactly when the user confirms. After the reply: its alert and the bound customer's detail view again. |
| CustomerPage.Page.BackToList | frontend/script.js:297-301 | The main view is shown, the detail view is hidden, and the unfiltered list is fetched. |
| Exchange.CustomerBodyOf | backend/app.py:25-28 | What `request.json` reads from the page's JSON body: every key is present, and the three customer keys hold exactly the strings the page sent. |
| Exchange.ValidatedSubmitAccepted | backend/app.py:26-31 | A customer submit that passes the page's validation is never refused by the backend's required-field check. |
| Exchange.ValidationStricterThanBackend | frontend/script.js:107-118 | The converse fails: the page stops a form with an empty street, but the backend's check would accept its body. |

## Left out

- HTTP transport is a parameter, not modelled. This covers `fetch`, `response.json()`, `encodeURIComponent`, headers and CORS. A reply is an input value, and `None` means the `fetch` or the JSON parse threw.
- The URL of `fetchCustomers`, whose query string is built with `encodeURIComponent`, is not modelled. A list fetch is represented by the query it carries.
- Page text is presentation and is not modelled: `innerHTML` and template-literal markup, the customer name and phone display, and the address line text. `alert` is modelled only as the text it would show. `console.error` is left out.
- Asynchronous interleaving is left out because the code gives no ordering guarantee. This includes out-of-order search responses and a refresh racing a later handler.
- The database plumbing is left out as foreign-library failure: pymysql connections, `commit` and `rollback`, and every `except Exception` 500 path.
- The `db_config` credentials and the Flask application setup are not part of this model.
- Rowcount is treated as "a row with that key existed". MySQL reports 0 rows affected for an UPDATE that rewrites the same values, and the model does not distinguish that case.
- MySQL length limits on GROUP_CONCAT are left out.
- The SQL leaves three orders open, and the model fixes each one to key or table order. The first is the row order of the listing: `GROUP BY customer_id` has no ORDER BY. The second is the order of the values inside each GROUP_CONCAT. The third is the row order of `SELECT * FROM addresses WHERE customer_id = %s`. CustomerQuery.CreatedIsListedLast and CustomerQuery.SearchSpansSeparator depend on this choice: with the cities concatenated in the other order, the "N,B" match of SearchSpansSeparator disappears.
- Foreign keys and cascades on the two tables are not in the code shown. So `AddAddress` does not check that the customer exists, and `DeleteCustomer` leaves that customer's addresses in place.
- `.lower()` is modelled on ASCII letters only. Unicode case mapping is out of scope.
- JsText.NumberToString: writes every `nat` as plain decimal digits. JavaScript writes numbers from 1e21 up in exponent form and loses precision above 2^53. Neither case can arise with MySQL INT keys.
- CustomerStore.Store.UpdateCustomer: takes the three values as present strings, which is weaker than the source. A body that lacks a key makes the route write SQL NULL, and that is not modelled.
- CustomerStore.Store.UpdateAddress: takes the four values as present strings, which is weaker than the source. The same NULL case is left out.
- CustomerStore.Store.AddAddress: takes `customer_id` as an integer, which is weaker than the source. The page sends it as the text of a hidden input, and the conversion MySQL applies to that text is not modelled.
- The page's HTML is not part of this model, so the input types are not known. If the form fields are `<input type="text">`, the browser strips line breaks from a value set by `EditCustomer` or `EditAddress`. The model copies each loaded string into the form unchanged, so a name with a line break, written directly through the API, is not modelled.
- The browser's own constraint checks are not modelled. The `required` attributes of the appended address inputs could block a submit before the handler runs.
- The page's HTML is not part of this model, so the initial state is an assumption. The main view is shown (display unset), the detail view is hidden, both forms are empty and in create mode, and the appended address groups sit inside the customer form, so `customerForm.reset()` empties them.
- The initial `fetchCustomers()` at load time is `SearchKeyUp`'s refresh with an empty query. It has no separate member.

## Where the design description and the code differ

The model follows the code in all four places.

- **Address count after creating a customer.** The design says the list then shows the new customer with an address count of 1. In the code, `create_customer` inserts only the three customer columns. The address fields the page sends are ignored, so the customer is listed with count 0 (`CreateCustomer`, `CreatedIsListedLast`, `Summarize`).
- **The reset after a failed customer submit.** The design says the customer form returns to create mode whatever the outcome. The submit handler has no try/catch around its `fetch` and `response.json()`. If either throws, the handler stops before the reset and the refresh, so the form keeps its values and its mode (`SubmitCustomer`, reply `None`).
- **Validation of the address form.** The design says the address form mirrors the customer form's submit pattern, which includes the trimmed required-field check. The address submit handler validates nothing: it sends the raw field values whatever they hold (`SubmitAddress`).
- **The search term after back-navigation.** The design says going back resets the held search term. The code only fetches with an empty query and leaves the search field's text as it was (`BackToList`).
