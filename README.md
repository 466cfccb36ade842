# aws-crud-app request handler, modelled in Dafny

This project models the Lambda function behind the "items" CRUD API of
aws-crud-app. API Gateway hands the function an event: the HTTP method, the
resource template (`/items` or `/items/{id}`), the path parameter `id` and the
request body. The function routes the event to one of five item operations:

- list every item;
- get one item;
- create an item, assigning an `id` when the body has none and stamping `createdAt`;
- update an item, forcing its `id` to the path id and stamping `updatedAt`;
- delete an item.

Each operation is one call to a DynamoDB table keyed by the string attribute
`id`. Create and update are conditional writes (`attribute_not_exists(id)` and
`attribute_exists(id)`), so whether the key exists decides the result, not a
separate read. Every answer goes through `buildResponse`, which adds a fixed
set of cross-origin headers. Anything an operation throws is caught by the
handler and answered 500.

Modules, one per component:

- `Wrappers` (wrappers.dfy): `Option`.
- `Json` (json.dfy): JSON values, items as open attribute maps, JavaScript
  truthiness, and the key an item is stored under.
- `Http` (http.dfy): faults, response payloads, `BuildResponse` and its headers.
- `Items` (items.dfy): each item operation twice. First as a pure function from
  the table's contents to the new contents and the outcome (`Get`, `Create`,
  `Update`, `Delete`). Then as a method of the class `ItemTable`, whose field
  `items: map<string, Item>` is the table. `GetItem`, `CreateItem`,
  `UpdateItem` and `DeleteItem` are each proved equal to their function.
  `GetItems` has no function: it is proved to return a listing of the table
  (`IsListing`: the stored items in some order, one per key). The multi-step
  properties are lemmas about the functions.
- `Dispatcher` (dispatcher.dfy): the route choice `Resolve`, the catch-all
  `Answer`, and the handler `Handle`.

The sources of non-determinism are parameters (`Env`):

- `freshId` is what `uuidv4()` returns;
- `now` is what `new Date().toISOString()` returns;
- `fault` says whether this request's store call fails, and with what message.

The table keeps one invariant, `WellKeyed`: the item stored under key `k` has
`id == k`. So there is at most one item per identifier. Every operation
preserves it.

Behaviour of the code worth stating on its own:

- A body that is not JSON text is answered **500**: `JSON.parse` throws inside
  the handler's `try` (lambda/index.js:33, 42, 59-61). A body that parses to
  `null` is answered 500 too, because reading or setting `item.id` on it
  throws (the read at lambda/index.js:102 on POST, the assignment at line 130
  on PUT). A string,
  number or boolean body is answered 500 because the store refuses it as an
  item. An array body is an object in JavaScript: `id` and the timestamp are set
  on it, and it goes to the store as the item of its index attributes
  (`"0"`, `"1"`, ...) plus those two (`Json.BodyItem`).
- An update **replaces** the stored item; it does not keep `createdAt`
  (`Items.UpdateForgetsCreatedAt`). Whatever `createdAt` the body carries is
  stored as sent, so a client can drop it, keep it or overwrite it with any value
  (lambda/index.js:130-133).
- Create assigns a fresh `id` when `item.id` is **falsy**, not only when it is
  absent. So `""`, `0`, `false` and `null` are replaced too (lambda/index.js:102).

Two lines of the source are defects. The model does not reproduce them:

- lambda/index.js:34 evaluates `JSON.parse(event,body.orders)`. `body` is
  undefined there, so as written every POST throws and is answered 500
  before `createItem` runs. The model's POST branch calls `createItem`
  directly. `Dispatcher.Handle` has a comment saying so.
- lambda/index.js:88 looks up one item with `scan` and a `Key`, then reads
  `result.Item`. A scan result has no such field. The model uses the
  intended point lookup by key (`Items.Get`).

## Model

| member | source | states |
|---|---|---|
| `Json.KeyOf` | lib/aws-crud-app-stack.ts:29 | The table key of an item is its `id` when that is a non-empty string. Otherwise the store refuses the item. |
| `Json.BodyItem` | lambda/index.js:33-35 | An object body is its own attributes. An array body is exactly `ArrayItem` of its elements and never carries an `id`, so it is given a fresh one. `null`, strings, numbers and booleans give no item. |
| `Json.ArrayItem` | lambda/index.js:102-107 | Element `i` of an array is stored under the decimal name of `i`, and every attribute is the name of some index below the length. |
| `Json.IndexValueOfName` | lambda/index.js:102-107 | Reading the decimal name of an index gives the index back. |
| `Json.IndexNameInjective` | lambda/index.js:102-107 | Two different indices never share a property name. |
| `Json.ArrayItemKeys` | lambda/index.js:102-107 | The attributes of an array are exactly the names of the indices below its length. |
| `Json.ArrayItemReserved` | lambda/index.js:102-107 | No attribute of an array is `id`, `createdAt` or `updatedAt`, so setting those adds new attributes. |
| `Http.BuildResponse` | lambda/index.js:174-185 | The response has the given status and payload and the four fixed headers (`Content-Type: application/json`, allow-origin `*`, and the rest), whatever the status. |
| `Http.HeadersIndependentOfStatus` | lambda/index.js:174-185 | Any two built responses carry identical headers. |
| `Items.Prepared` | lambda/index.js:100-107 | The created item keeps every body attribute except `id` and `createdAt`. `id` becomes the fresh id exactly when the body's `id` is missing or falsy. `createdAt` is the current time. |
| `Items.Revised` | lambda/index.js:128-133 | The updated item has `id` equal to the path id, whatever the body said, and `updatedAt` equal to the current time. Every other body attribute passes through. |
| `Items.Get` | lambda/index.js:81-96 | 200 with the stored item if and only if the key is present (no store failure). 404 `Item not found` if and only if it is absent. A store failure throws that failure. Otherwise an empty key throws the store's key rejection. |
| `Items.Create` | lambda/index.js:100-124 | 201 with the prepared item if and only if its key was absent, and then the table gains exactly that key. 409 `Item with this ID already exists` if and only if the key was present. On anything but 201 the table is unchanged. A store failure throws that failure. Otherwise a prepared item with no usable key throws the key rejection. Existing entries never change, and the invariant is kept. |
| `Items.Update` | lambda/index.js:128-150 | 200 with the revised item if and only if the key existed, and then that entry is replaced whole. 404 if and only if it did not. A store failure throws that failure, and otherwise an empty id throws the key rejection, both with the table unchanged. The key set never changes, so an update never creates. Other entries are unchanged and the invariant is kept. |
| `Items.Delete` | lambda/index.js:154-170 | 200 `Item deleted successfully` if and only if the key existed, and then the table is the old one minus that key. 404 if and only if it was absent. A store failure throws that failure, and otherwise an empty id throws the key rejection. Otherwise nothing changes, and other keys are untouched. |
| `Items.ItemTable.constructor` | lib/aws-crud-app-stack.ts:28-32 | A newly provisioned table is empty and well keyed. `Dispatcher.Handle` accepts any well-keyed table, not only a new one. |
| `Items.ItemTable.GetItems` | lambda/index.js:66-77 | Without a store failure, answers 200 with a listing of the table: the stored items in some order, each key exactly once. With one, throws that failure. The method cannot modify the table. |
| `Items.ItemTable.GetItem` | lambda/index.js:81-96 | The lookup's outcome is `Items.Get` of the current contents. The table is only read. |
| `Items.ItemTable.CreateItem` | lambda/index.js:100-124 | The new contents and the outcome are those of `Items.Create` on the old contents. The invariant is kept. |
| `Items.ItemTable.UpdateItem` | lambda/index.js:128-150 | The new contents and the outcome are those of `Items.Update` on the old contents. The invariant is kept. |
| `Items.ItemTable.DeleteItem` | lambda/index.js:154-170 | The new contents and the outcome are those of `Items.Delete` on the old contents. The invariant is kept. |
| `Items.CreateTwiceConflicts` | lambda/index.js:109-124 | Creating the same explicit id twice answers 201, then 409, and the second call writes nothing. |
| `Items.CreateThenGet` | lambda/index.js:81-124 | After a successful create, a lookup of the item's key answers 200 with the created item. |
| `Items.UpdateThenGet` | lambda/index.js:128-143 | After a successful update, a lookup answers 200 with the revised item, whose `id` is the path id. |
| `Items.UpdateForgetsCreatedAt` | lambda/index.js:128-143 | Update does not merge. A body without `createdAt` is stored without it. |
| `Items.UpdateNeverCreates` | lambda/index.js:135-147 | Updating an absent id leaves it absent and, without a store failure, answers 404. |
| `Items.DeleteThenGetNotFound` | lambda/index.js:81-92 | After a successful delete, a lookup of the same id answers 404. |
| `Items.ListingContents` | lambda/index.js:66-73 | A listing of the table has one entry per key, holds every stored item and nothing else. |
| `Items.PreparedAll` | lambda/index.js:100-107 | The items a run of creates stores: each body prepared with its own fresh id and its own time, in order. |
| `Items.CreateEachAdds` | lambda/index.js:100-124 | A run of creates, each with its own fresh id and time, whose keys (given or generated) are distinct and not yet stored adds exactly those prepared items: the size grows by their number and the stored values are the old ones plus them. |
| `Items.ListAfterCreates` | lambda/index.js:66-73 | After N creates with distinct keys, given or generated, each with its own time, in an empty table, any listing holds exactly those N items. |
| `Dispatcher.Resolve` | lambda/index.js:18-58 | Each direction of every route: GET `/items` lists. GET, PUT or DELETE on `/items/{id}` with a non-empty path id gets, updates or deletes that id. POST `/items` creates. A method other than GET, POST, PUT or DELETE is unsupported. Every other combination is unmatched. |
| `Dispatcher.Answer` | lambda/index.js:59-61 | A returned response passes through unchanged. A thrown fault becomes 500 `Internal server error` carrying the fault. |
| `Dispatcher.OnlyItemRoutesReachTheTable` | lambda/index.js:18-58 | A request for any other resource is never routed to an item operation. |
| `Dispatcher.Handle` | lambda/index.js:6-63 | Every response has the fixed headers and a status in {200, 201, 400, 404, 409, 500}. An unknown method answers 400 `Unsupported method` and an unmatched route 404 `Resource not found`, both with the table unchanged. A body that did not parse answers 500 with the table unchanged. Otherwise the table and the response are those of the routed operation, with a thrown fault answered 500. List and get never change the table. The invariant is kept. |
| `Dispatcher.ItemLifecycle` | lambda/index.js:18-52 | Each request is routed to its operation. POST without an id gives 201 with the generated id. GET then gives 200 with the same item. PUT gives 200 with `updatedAt` set. DELETE gives 200. A second GET gives 404. |

## Left out

- The AWS SDK `DocumentClient`, `.promise()` and `async`/`await` plumbing: the table is a map in a class field. A store failure is the `fault` parameter. The model does not say which network, throttling or permission problem caused it. A failed store call is taken to have written nothing. Two cases are outside the model: a write that committed before its response was lost, and the SDK's own automatic retries.
- The text of the store's error messages: a failure is an abstract `Fault`. This covers a store failure with its message, a key the table refuses, or a body that did not parse.
- `uuidv4()` randomness and uniqueness, and the clock: both are parameters. Uniqueness of generated ids is not proved.
- `JSON.parse` and `JSON.stringify`: the body arrives parsed as an optional JSON value. The response payload stays abstract. JSON numbers are integers here, with no floating point.
- In-place mutation of the parsed body object by `createItem` and `updateItem` (lines 103, 107, 130, 133): the model builds the stored item as a value. The handler never looks at the body object afterwards, so nothing observable is lost.
- Scan pagination: a DynamoDB scan returns at most one page, and lambda/index.js:72-73 ignores `LastEvaluatedKey`. The model's listing is the whole table.
- The order of scan results: `ItemTable.GetItems` may list the items in any order.
- DynamoDB validation beyond the key's type and emptiness: the 2048-byte limit on a partition key value, item size limits, empty sets and reserved attribute values are not modelled. `Json.KeyOf` accepts any non-empty string as a key.
- `event.path` (read at line 11, never used) and all `console.log`/`console.error` logging.
- Concurrency: each request runs alone. The atomicity of conditional writes between racing callers belongs to the store.
- lib/aws-crud-app-stack.ts and bin/aws-crud-app.ts: CDK provisioning of the table, function, API routes and alarms, with no behaviour to verify. Only the key type at lib/aws-crud-app-stack.ts:29 is used.
- Json.BodyItem: the store's view of an array body is taken to be its enumerable properties (index attributes plus the `id` and timestamp set on it); the SDK's marshalling of such a value is not modelled beyond that.
