# mngr: secure mirror, filters, table state and account flow in Dafny

mngr is an AngularJS admin front end over a Firebase store. This project models the
parts of it that decide what a signed-in user may see and change, and how the app
reacts to sign-in:

- the **secure mirror** (`mngrSecureFirebase`). It stands in front of one record type of
  the store and offers the same calls as a direct binding. When the user's access rules
  grant access to the whole type, every call goes to the store. Otherwise the mirror
  tracks only the children the user is permitted to see and checks every read and write
  against the permission rules:
  - public access;
  - role access;
  - per-user access through the user's personal index or a record's `users` list;
  - the special sign-in rule for the `users` type.

  The model covers the permission check, the child table and its order, the guarded
  writes, snapshots, the relay of remote child events, the bulk load of a user's
  records, the fan-out writes that share a record with other users, and the draining of
  a user's data queue.
- `utility.filterArgs`, which turns a table filter (text, number or select) into the
  argument handed to Angular's `filter`. The predicate it builds is modelled as a total
  function on a row.
- the table view's sort header and scroll window state machines.
- the account flow in `api`: creating an email/password account, turning errors into
  messages, routing a login request, reacting to a successful call, building a new user
  profile, and loading the profile of a signed-in account.
- the stock view's "Generate Purchase Order" action: it flags low-stock products, builds
  the order lines and groups them by each line's first supplier.

JavaScript values are modelled as a small `Value` datatype (`values.dfy`):
- `undefined` is `None`;
- truthiness follows JavaScript;
- strict equality holds only between equal scalars, because arrays and objects have
  identity and the model has none.

Promises become `Outcome`s:
- `$q.all` is `JoinAll`, which reports the first rejection in list order;
- the store's answers (push errors, write errors, the remote tree, the settled results
  of queue writes) are parameters;
- every `$timeout` deferral is folded into the transition that follows it.

Modules follow the source:
- `Values`: JavaScript values and outcomes;
- `Permission`: `permit` and its helpers;
- `SecureMirror`: the child table, gates and snapshots;
- `Handlers`: the event registry;
- `Events`: the remote event relay;
- `Lifecycle`: bulk load, init and construction;
- `Membership`: the fan-out to other users;
- `Queue`: the data-queue drain;
- `Facade`: the public calls and their routing;
- `Filters`: `filterArgs`;
- `Table`: the sort and scroll state machines;
- `Api`: the account flow;
- `Stock`: the purchase-order action.

Where the repository's prose description and its code differ, the model follows the code.
The exceptions are the three defects under "## Findings": there, the rest of the model runs
on the corrected behaviour, and the as-written version is kept beside it.
- `$snapshot()` on the whole type builds its object from every tracked child and does not
  check each child again. `WholeSnapshotPermitted` shows this is still safe, because every
  tracked child was admitted by the gate.
- The mirror is initialised only after the user's data queue drains with every write
  succeeding. A failed drain leaves the mirror uninitialised.
- `$save` of a child writes the child and nothing more. It does not compute a diff of the
  record's `users` list.
- `roleAllowed` is consulted for every access token except `public`, so a role literally
  named `user` also grants access.
- `userEmailExists` always answers false in the code. It is the `emailTaken` parameter of
  `Api.CreateAccount`, so both answers are covered.

## Model

| member | source | states |
|---|---|---|
| Values.JoinAll | mngr.utility/service/mngrSecureFirebase.js:534-536 | `$q.all` resolves exactly when every settled write resolved; a rejection it reports is one of the inputs' rejections |
| Permission.NormaliseAccess | mngr.utility/service/mngrSecureFirebase.js:542-545 | a single access string becomes a one-element list, a list is kept as is; the tokens are exactly those given |
| Permission.ScanTokensIff | mngr.utility/service/mngrSecureFirebase.js:367-377 | the early-exit scan over the type's access tokens grants exactly when some token grants |
| Permission.PublicGrantsAll | mngr.utility/service/mngrSecureFirebase.js:362-366 | a type with `public` access permits every key and value, signed in or not |
| Permission.UserPermitIff | mngr.utility/service/mngrSecureFirebase.js:367-392 | for a signed-in user on a non-public type, permission holds iff some token is `user` with user-level access or a role the user holds |
| Permission.NoUserNoAccess | mngr.utility/service/mngrSecureFirebase.js:362-386 | without a user, a non-public type other than `users` permits nothing |
| Permission.UserAllowedByKey | mngr.utility/service/mngrSecureFirebase.js:396-404 | with a truthy key, user-level access holds iff the user's personal index for the type flags that key |
| Permission.UserAllowedByValue | mngr.utility/service/mngrSecureFirebase.js:405-410 | with no truthy key, user-level access holds iff the value's `users` map flags the user's id |
| Permission.UserAllowedNeedsUser | mngr.utility/service/mngrSecureFirebase.js:393-413 | user-level access is never granted without a user |
| Permission.BootstrapRootLeak | mngr.utility/service/mngrSecureFirebase.js:379-383 | as written, an account missing from the account table gets root access to `users`, since undefined equals undefined; the corrected rule refuses |
| Permission.BootstrapNamesProfile | mngr.utility/service/mngrSecureFirebase.js:379-383 | the corrected sign-in rule grants a key without a value only when the account table maps the signed-in account to exactly that profile key |
| Permission.BootstrapAgreesOnNamedKeys | mngr.utility/service/mngrSecureFirebase.js:362-386 | for every named key the corrected permission check answers as the code does; only the root check differs |
| Handlers.AddEventHandler | mngr.utility/service/mngrSecureFirebase.js:225-233 | the handler is registered for the event once, appended after existing ones, and other events are untouched |
| Handlers.RemoveEventHandler | mngr.utility/service/mngrSecureFirebase.js:234-253 | no handler drops the event's whole list; a registered handler is removed, an unknown one changes nothing; other events are untouched |
| Handlers.HandleEvent | mngr.utility/service/mngrSecureFirebase.js:210-224 | every handler of the event is called with the argument, in registration order, and an unknown event calls nothing |
| Handlers.HandleAfterAdd | mngr.utility/service/mngrSecureFirebase.js:210-233 | after a new handler is registered, the event calls the earlier handlers in order and then the new one; other events call what they called before |
| Handlers.HandleAfterRemoveAll | mngr.utility/service/mngrSecureFirebase.js:210-253 | after an event's handlers are all removed, the event calls nothing, and other events are unaffected |
| Handlers.AddIdempotent | mngr.utility/service/mngrSecureFirebase.js:229-232 | registering the same handler twice equals registering it once |
| Handlers.AddThenRemove | mngr.utility/service/mngrSecureFirebase.js:225-253 | removing a freshly added handler restores the registry exactly |
| Handlers.RemoveDropsExactly | mngr.utility/service/mngrSecureFirebase.js:236-246 | removing a registered handler from a duplicate-free list drops exactly that handler: the list is one shorter and keeps every other handler |
| SecureMirror.Fresh | mngr.utility/service/mngrSecureFirebase.js:101-109 | a new mirror tracks no children, is not loading, not bound to the root and not initialised |
| SecureMirror.Child | mngr.utility/service/mngrSecureFirebase.js:110-118 | `child(key)` yields a reference iff the key is permitted, and then tracks the key; a refused key changes nothing |
| SecureMirror.ChildKeys | mngr.utility/service/mngrSecureFirebase.js:122-124 | the key list holds each tracked child exactly once, and nothing else |
| SecureMirror.Forget | mngr.utility/service/mngrSecureFirebase.js:461-465 | dropping a child removes exactly that key and keeps the table consistent and gated |
| SecureMirror.SnapshotValue | mngr.utility/service/mngrSecureFirebase.js:191-209 | a child's snapshot value is null when the child is absent, null or an empty object or array; a record held as an array comes back as a new object holding each item under its position's decimal name, and nothing else; any other record or literal comes back as stored |
| SecureMirror.IndexKeyInjective | mngr.utility/service/mngrSecureFirebase.js:196-200 | two array positions never share an index key, so rebuilding an array as an object loses no item |
| SecureMirror.ArrayAsObject | mngr.utility/service/mngrSecureFirebase.js:196-200 | the rebuilt object holds every item under its position's name and has no other key |
| SecureMirror.ArraySnapshotIsObject | mngr.utility/service/mngrSecureFirebase.js:196-200 | the record `["a", "b"]` is snapshotted as `{"0": "a", "1": "b"}` |
| SecureMirror.WholeSnapshot | mngr.utility/service/mngrSecureFirebase.js:170-178 | the whole snapshot is an object with exactly the tracked children as fields, each holding its snapshot value |
| SecureMirror.ChildSnapshot | mngr.utility/service/mngrSecureFirebase.js:179-188 | a child snapshot exists iff the child is permitted; the previous-child name is kept only when it is null or itself permitted |
| SecureMirror.AddChildAsWritten | mngr.utility/service/mngrSecureFirebase.js:125-138 | as written, a permitted add always reports creation, whatever the push answered, and afterwards the mirror is the old one with the new key bound when that key is permitted and unchanged otherwise; a refused add issues no write and changes nothing |
| SecureMirror.AddChild | mngr.utility/service/mngrSecureFirebase.js:125-138 | a permitted value is pushed; creation is reported iff the push succeeded, and the store's error otherwise; on creation the mirror is the old one with the new key bound when that key is permitted, and unchanged otherwise; a refused value is never written |
| SecureMirror.AddChildIgnoresPushError | mngr.utility/service/mngrSecureFirebase.js:129-132 | on a failed push the code as written reports creation, while the corrected gate reports the store's error |
| SecureMirror.RemoveChild | mngr.utility/service/mngrSecureFirebase.js:139-152 | only a permitted child is removed from the store, and its binding stays tracked until the remote removal arrives; a refused one yields "Child not found" and no write |
| SecureMirror.SaveChild | mngr.utility/service/mngrSecureFirebase.js:153-166 | only a permitted child is written; a refused one yields "Child not found" and no write |
| SecureMirror.ChildMemoised | mngr.utility/service/mngrSecureFirebase.js:110-118 | asking for the same child twice returns the same reference and does not change the mirror again |
| SecureMirror.ChildrenGrowOnlyByPermit | mngr.utility/service/mngrSecureFirebase.js:110-118 | the tracked children grow only by a permitted key |
| SecureMirror.WholeSnapshotPermitted | mngr.utility/service/mngrSecureFirebase.js:170-178 | every field of the whole snapshot is a child the user is permitted to see |
| SecureMirror.ChildSnapshotRegated | mngr.utility/service/mngrSecureFirebase.js:179-188 | a child snapshot is produced exactly for permitted children |
| Events.Announce | mngr.utility/service/mngrSecureFirebase.js:442-490 | a remote add, change or move of a permitted child binds the child and is relayed as `change`, the specific event with the child's snapshot and the previous sibling's key when that is given and null or permitted, and, when not loading, `value` with the whole snapshot of the mirror once the child is bound; the mirror afterwards is the old one with that child bound; unpermitted children are ignored |
| Events.Removal | mngr.utility/service/mngrSecureFirebase.js:454-467 | a remote removal of a permitted child is relayed, its `value` being the whole snapshot that still holds the child; afterwards exactly that child is forgotten and every other tracked child is kept as it was |
| Events.OnRemote | mngr.utility/service/mngrSecureFirebase.js:437-490 | remote events about unpermitted children are dropped; permitted ones are relayed with the child's snapshot, the reported previous sibling and the whole snapshot; an add, change or move adds exactly that child to the tracked ones, a removal drops exactly that child, and every other tracked child is kept |
| Events.DispatchOrder | mngr.utility/service/mngrSecureFirebase.js:442-490 | a relayed change outside a bulk load calls every `change` handler, then every handler of the specific event with the child's snapshot, then every `value` handler with the whole snapshot |
| Events.DispatchThree | mngr.utility/service/mngrSecureFirebase.js:210-224 | three emitted events reach the handlers one event after another, each event's handlers in registration order |
| Events.NoValueWhileLoading | mngr.utility/service/mngrSecureFirebase.js:448-450 | while a bulk load is pending no `value` event is relayed |
| Events.RemovedStillInValue | mngr.utility/service/mngrSecureFirebase.js:457-465 | the `value` event sent for a removal still lists the removed child, because it is forgotten only after the relay |
| Events.Replay | mngr.utility/service/mngrSecureFirebase.js:437-490 | any sequence of remote events keeps the mirror consistent and gated and leaves the loading flag alone |
| Lifecycle.FlaggedKeys | mngr.utility/service/mngrSecureFirebase.js:335-336 | the keys to load are exactly the truthy entries of the user's personal index for the type |
| Lifecycle.FinishLoad | mngr.utility/service/mngrSecureFirebase.js:345-352 | completing a load clears the loading flag and emits `value` then `loaded`, keeping the children |
| Lifecycle.BindAll | mngr.utility/service/mngrSecureFirebase.js:335-344 | binding every wanted key adds exactly those keys to the tracked children and nothing else |
| Lifecycle.Awaited | mngr.utility/service/mngrSecureFirebase.js:335-343 | the bulk load waits on exactly the flagged keys that are permitted |
| Lifecycle.LoadForUser | mngr.utility/service/mngrSecureFirebase.js:330-361 | the load tracks and awaits the flagged keys; it is loading iff some key is awaited, and with none it emits `value` then `loaded` at once |
| Lifecycle.ChildLoaded | mngr.utility/service/mngrSecureFirebase.js:337-345 | each child's `loaded` signal settles that key; the last one finishes the load |
| Lifecycle.LoadSignals | mngr.utility/service/mngrSecureFirebase.js:340-345 | signals never change the tracked children, and without a pending load do nothing |
| Lifecycle.JoinEmitsLoadedOnce | mngr.utility/service/mngrSecureFirebase.js:345-352 | once every awaited key has signalled, `loaded` has been emitted exactly once, or never if nothing was awaited |
| Lifecycle.RootAccessIff | mngr.utility/service/mngrSecureFirebase.js:425-432 | a signed-in user has root access exactly when the type is public or the user holds one of its roles; user-level access alone never binds the root |
| Lifecycle.FlaggedKeysPermitted | mngr.utility/service/mngrSecureFirebase.js:332-339 | every non-empty key the personal index flags passes the permission check, so the bulk load never asks for a refused child |
| Lifecycle.InitForUser | mngr.utility/service/mngrSecureFirebase.js:420-436 | init binds to the root iff root access is permitted; otherwise it binds and awaits exactly the flagged, permitted keys of the user's index, is loading iff some key is awaited, and with none emits `value` then `loaded` at once |
| Lifecycle.Construct | mngr.utility/service/mngrSecureFirebase.js:542-564 | a mirror for a signed-in user waits for the data queue before init; otherwise it initialises at once |
| Lifecycle.OnQueueDrained | mngr.utility/service/mngrSecureFirebase.js:551-557 | a successful drain initialises a waiting mirror; a failed one, or one already initialised, changes nothing |
| Membership.TargetPath | mngr.utility/service/mngrSecureFirebase.js:262-264 | the acting user's own record index is written directly, any other user's goes through that user's data queue |
| Membership.Addressed | mngr.utility/service/mngrSecureFirebase.js:257-261 | the users written to are exactly the listed non-empty ids |
| Membership.AddToUsers | mngr.utility/service/mngrSecureFirebase.js:254-284 | without an id the call is refused with its message; otherwise one flag-setting write per addressed user, at that user's path |
| Membership.RemoveFromUsers | mngr.utility/service/mngrSecureFirebase.js:285-329 | without an id the call is refused with its message; otherwise one write per addressed user, deleting its own entry and queueing false for others |
| Membership.Completion | mngr.utility/service/mngrSecureFirebase.js:274-278 | with one outcome per write, the fan-out resolves iff every write resolved and otherwise rejects with one of the writes' failures; a refused call rejects with its reason |
| Membership.AddressedDistinct | mngr.utility/service/mngrSecureFirebase.js:257-261 | distinct user ids give distinct addressed users |
| Membership.DistinctUsersDistinctPaths | mngr.utility/service/mngrSecureFirebase.js:262-264 | writes for different users never touch the same path |
| Membership.AddThenRemoveSamePaths | mngr.utility/service/mngrSecureFirebase.js:254-329 | adding and then removing for the same users writes the same paths in the same order |
| Queue.Move | mngr.utility/service/mngrSecureFirebase.js:506-527 | a truthy queued flag sets the record's index entry to true, a falsy one deletes it, and no other entry changes |
| Queue.Drain | mngr.utility/service/mngrSecureFirebase.js:502-532 | each entry whose write resolved is applied to the index, each rejected one leaves it as it was and stays queued; ids not queued are untouched |
| Queue.ProcessUserDataQueue | mngr.utility/service/mngrSecureFirebase.js:495-540 | the drain resolves iff nothing stays queued, and then every queued flag has been applied |
| Queue.AddThenRemoveCancels | mngr.utility/service/mngrSecureFirebase.js:285-316 | for another user, sharing and then unsharing write the same queue path, and draining the false flag removes the record from that user's index |
| Queue.SharedRecordArrives | mngr.utility/service/mngrSecureFirebase.js:262-264 | a record shared with another user reaches that user's index as true once their queue drains |
| Facade.RouteOf | mngr.utility/service/mngrSecureFirebase.js:7-89 | with root access every call but the reference and the fan-outs goes to the store; without it set, update and transaction are declined and the rest are gated |
| Facade.StoreAdd | mngr.utility/service/mngrSecureFirebase.js:9-14 | a store push reports creation with the type and new id iff it succeeded, and the store's error otherwise |
| Facade.AddCall | mngr.utility/service/mngrSecureFirebase.js:8-17 | `$add` goes to the store with root access and through the write gate otherwise |
| Facade.RootAccessCoversAdd | mngr.utility/service/mngrSecureFirebase.js:362-377 | root access on a type also permits adding any value |
| Facade.AddPathsAgree | mngr.utility/service/mngrSecureFirebase.js:8-17 | for a user with root access both `$add` paths issue the same push and report the same result |
| Facade.IndexCall | mngr.utility/service/mngrSecureFirebase.js:48-53 | `$getIndex` lists the store's keys with root access and exactly the tracked children otherwise |
| Facade.IndexPermitted | mngr.utility/service/mngrSecureFirebase.js:48-53 | without root access the index lists only permitted keys |
| Facade.OnCall | mngr.utility/service/mngrSecureFirebase.js:60-65 | `$on` registers with the mirror only without root access |
| Facade.OffCall | mngr.utility/service/mngrSecureFirebase.js:66-71 | with root access `$off` leaves the mirror's registry alone; without it, no handler drops the event's list, a given handler is no longer registered for the event, and other events keep their handlers |
| Facade.OnThenOff | mngr.utility/service/mngrSecureFirebase.js:60-71 | without root access `$off` undoes a fresh `$on` exactly |
| Facade.Open | mngr.utility/service/mngrSecureFirebase.js:569-574 | the service hands out the sign-in object iff no type object is given; any type object, even one with an empty name, gets a new well-formed mirror of that type, which waits for the data queue iff the user has an id |
| Filters.FilterArgs | mngr.utility/service/utility.js:4-82 | text filters give a pattern iff the value is truthy; number filters give a test iff the value is truthy or zero; select filters always give a test; other kinds give nothing |
| Filters.NumberMatch | mngr.utility/service/utility.js:15-52 | a row whose field is falsy never matches; on numbers `<` means at most, `>` at least, `><` within both bounds, anything else strict equality |
| Filters.RangeIsBothBounds | mngr.utility/service/utility.js:31-38 | with two numeric bounds the range operand matches iff the field lies between them inclusive |
| Filters.EqualityOperandsAgree | mngr.utility/service/utility.js:35-46 | an unknown operand behaves like `=`, and so does `><` without a second bound |
| Filters.IndexOfValue | mngr.utility/service/utility.js:62 | array `indexOf` finds the first strictly equal item, and -1 iff there is none |
| Filters.IndexOfString | mngr.utility/service/utility.js:69 | string `indexOf` finds the first position of the substring, and -1 iff there is none |
| Filters.Selected | mngr.utility/service/utility.js:61 | the selection's values are an array's items or a string's characters; scalars and an absent value select nothing |
| Filters.SelectMatch | mngr.utility/service/utility.js:54-77 | a falsy field never matches; an array field matches iff it contains some selected value; a scalar field is looked up in the selection, and a selection without `indexOf` throws |
| Filters.ScalarFieldInSelection | mngr.utility/service/utility.js:67-72 | a scalar field matches an array selection iff it is one of its items |
| Filters.ArrayFieldSharesValue | mngr.utility/service/utility.js:59-66 | an array field matches an array selection of scalars iff they share a value |
| Filters.StringFieldInStringSelection | mngr.utility/service/utility.js:69-71 | a string field matches a string selection iff it occurs in it as a substring |
| Table.By | directive/views/mngrTable/mngrTable.js:23-36 | clicking a new column sorts by it ascending, by its custom sort key when it has one; clicking the current column flips the direction |
| Table.ToggleTwice | directive/views/mngrTable/mngrTable.js:33-35 | two clicks on the current column restore the sort state |
| Table.ClickThenClickAgain | directive/views/mngrTable/mngrTable.js:24-35 | after a click the clicked column is the sort column, and a second click reverses it keeping the sort key |
| Table.NewColumnAscending | directive/views/mngrTable/mngrTable.js:24-32 | switching column always starts ascending, whatever the previous direction |
| Table.NextPage | directive/views/mngrTable/mngrTable.js:41-50 | the window grows by one page iff it is still short of the last page; the answer says whether more pages remain; without a table nothing changes |
| Table.PrevPage | directive/views/mngrTable/mngrTable.js:51-58 | the window stays as it is; the answer says whether any row shows |
| Table.ScrollToEnd | directive/views/mngrTable/mngrTable.js:41-50 | paging until `nextPage` answers false grows the window by whole due pages until it covers all but the last page, after which paging changes nothing |
| Api.CallbackError | service/api.js:49-68 | `EMAIL_TAKEN` becomes its message; a code-less error is its own message; no error or an unknown code gives "Unknown error occurred" |
| Api.CallbackErrorIdempotent | service/api.js:49-68 | reporting a reported message again gives the same message |
| Api.TextErrorIsItsOwnMessage | service/api.js:59-61 | a non-empty text error is reported as itself |
| Api.CreateAccount | service/api.js:142-162 | the account is created iff the email is given, the password has at least six characters, the confirmation matches and the email is free; each failure reports its own message, checked in order |
| Api.CreateAccountReportsKnownMessages | service/api.js:142-162 | every refusal is a message `callbackError` reports as itself, never the unknown-error fallback |
| Api.CreatedPasswordsAgree | service/api.js:142-162 | a created account always has a confirmed password of at least six characters |
| Api.ChecksInOrder | service/api.js:149-161 | a mismatch is reported before the email check, and a matching confirmation reaches it |
| Api.WordPrefix | service/api.js:236 | the prefix is the longest run of word characters at the start |
| Api.NameFromEmailIff | service/api.js:236-239 | the email yields a name iff it starts with a non-empty run of word characters followed by `@`, and the name is that run |
| Api.FirstDefault | service/api.js:248-252 | the default for a field is the first defined value listed for it |
| Api.FillDefaults | service/api.js:248-252 | defaults fill only fields the profile lacks, each with its first defined default |
| Api.BaseProfile | service/api.js:212-245 | the profile is new, linked to the account, carries the account's or third party's email, the display name or the name parsed from the email, and is confirmed iff it is a password account with an email |
| Api.NewProfile | service/api.js:212-255 | a profile exists iff the account has a uid; it is new, linked and confirmed as stated, with the account's email and display name |
| Api.NameParsedFromEmail | service/api.js:231-240 | without a display name, an email `word@rest` names the profile `word` |
| Api.DefaultsOnlyFill | service/api.js:248-252 | a default never overrides a field the account already set |
| Api.Login | service/api.js:103-121 | `active`, `password` and the three third-party providers each pick their sign-in route; the password route carries the credentials; any other provider picks none |
| Api.LoginRouteDeterminesProvider | service/api.js:103-121 | two providers that start a sign-in never pick the same route |
| Api.UnknownProviderDoesNothing | service/api.js:106-120 | any other provider, or none, starts no sign-in |
| Api.CallbackSuccess | service/api.js:69-100 | the first test that holds decides: an account loads its profile; a new linked profile is taken and created when confirmed; a profile with a username and an email is taken; a store reference under `users` links accounts; the result is ignored exactly when none of these holds |
| Api.LoadProfile | service/api.js:258-279 | without a uid the load rejects; otherwise it resolves with the truthy profile the account table points to, and with the new profile built for the account when there is no entry or the entry names no truthy profile |
| Api.NewProfileReadAsNew | service/api.js:212-255 | a new profile has no `uid` unless a default supplies one, is new and linked, and is confirmed iff it is a password account with an email |
| Api.FirstSignIn | service/api.js:69-81 | an account missing from the account table loads a fresh profile for itself |
| Stock.MarkAlerts | directive/primary/stock.js:25-28 | each low-stock product gets its minimum order as stock alert; other products are unchanged |
| Stock.GeneratedOrder | directive/primary/stock.js:25-35 | the order has a line for exactly the low-stock products with a suppliers list |
| Stock.GeneratedOrderAppend | directive/primary/stock.js:25-35 | the order lines follow the product order |
| Stock.NamesMembers | directive/primary/stock.js:36-43 | the collected names are exactly the supplier names of the order lines |
| Stock.Dedupe | directive/primary/stock.js:38-40 | the `indexOf` test keeps each name once and loses none |
| Stock.DedupeFirstSeen | directive/primary/stock.js:36-43 | the kept names stay in the order of their first occurrence |
| Stock.SupplierList | directive/primary/stock.js:36-43 | the supplier list holds every supplier name of the order lines once |
| Stock.SupplierListExact | directive/primary/stock.js:36-43 | the supplier list is duplicate-free, complete, and ordered by first occurrence |
| Stock.FirstSupplierListed | directive/primary/stock.js:44-51 | every order line's first supplier is on the supplier list |
| Stock.Bucket | directive/primary/stock.js:49-53 | a supplier's bucket holds exactly the order lines whose first supplier it is |
| Stock.IntendedGrouping | directive/primary/stock.js:44-58 | with no supplier names nothing is grouped; otherwise there is one bucket per listed supplier |
| Stock.GroupAsWritten | directive/primary/stock.js:44-56 | the two loops as written throw iff some supplier name exists and some order line has an empty suppliers array; otherwise they leave the previous result, or build the intended grouping |
| Stock.LoopsAsWritten | directive/primary/stock.js:44-56 | the loops as written throw, or push nothing when there is no supplier name, or end with the intended grouping |
| Stock.InnerThrowsIffEmpty | directive/primary/stock.js:45-55 | the inner loop over the names throws iff it runs at all for a line whose suppliers array is empty |
| Stock.OuterThrowsIffEmpty | directive/primary/stock.js:44-56 | the outer loop throws iff there is a name and some remaining line has an empty suppliers array |
| Stock.InnerEffect | directive/primary/stock.js:45-55 | for a line with a supplier, the inner loop gives every remaining name a bucket and appends the line to its first supplier's bucket only |
| Stock.OuterFiles | directive/primary/stock.js:44-56 | without empty suppliers arrays, the outer loop ends with each name's bucket holding exactly that name's lines, in order |
| Stock.OuterStep | directive/primary/stock.js:44-56 | one pass of the outer loop over a line with a supplier does not throw and extends every name's bucket by that line exactly when it is the line's first supplier |
| Stock.LoopsGroup | directive/primary/stock.js:44-56 | with some name and no empty suppliers array the loops do not throw, push, and end with the intended grouping |
| Stock.FiledIsIntended | directive/primary/stock.js:44-56 | the buckets the loops end with are the intended grouping, and a push has happened |
| Stock.EachLineInOneBucket | directive/primary/stock.js:44-56 | each order line with a supplier lands in its first supplier's bucket and no other |
| Stock.FileStep | directive/primary/stock.js:49-53 | filing one more line appends it to its first supplier's bucket, which exists, and leaves every other bucket as it was |
| Stock.BucketsDone | directive/primary/stock.js:44-58 | once every line is filed the buckets are the intended grouping |
| Stock.GroupByFirstSupplier | directive/primary/stock.js:44-58 | a line-by-line computation of the corrected grouping (every bucket made first, then each line with a supplier filed under its first one) equals `IntendedGrouping` |
| Stock.GeneratePurchaseOrderAsWritten | directive/primary/stock.js:21-59 | the action as written throws iff one ordered product has an empty suppliers array and another has a supplier; otherwise it equals the corrected action, and even when it throws every other part agrees |
| Stock.OrderEmptyLineIff | directive/primary/stock.js:25-35 | an order line has an empty suppliers array iff an ordered product has one |
| Stock.OrderSuppliedLineIff | directive/primary/stock.js:25-35 | an order line has a supplier iff an ordered product has one |
| Stock.NamesNonEmptyIff | directive/primary/stock.js:36-43 | the supplier list is non-empty iff some order line has a supplier |
| Stock.GeneratePurchaseOrder | directive/primary/stock.js:21-59 | the corrected action never throws and files every ordered product that has a supplier under its first supplier |
| Stock.EmptySupplierListCrashes | directive/primary/stock.js:50 | two low-stock products, one with supplier `acme` and one with an empty suppliers array, make the action throw; the corrected action groups under `acme` |
| Stock.AgreeWithoutEmptyLists | directive/primary/stock.js:44-56 | when no ordered product has an empty suppliers array the code as written and the corrected action agree |

## Left out

- Network, Firebase and Angular machinery. This covers `$firebase` bindings, `$timeout`, `$q` scheduling, scopes and watchers. Store answers and remote data are parameters, and each deferral is folded into the next transition.
- `destroy` (mngrSecureFirebase.js:91-99). It only releases listeners and bindings, which have no counterpart in a value model.
- `$asArray` and `childArray` ordering (orderByPriority). The model keeps key order and has no priorities.
- The table's `sortableCount` column width. It is floating-point presentation only.
- The global account table set during init (mngrSecureFirebase.js:429-431) and the `auth` object. Both are the `Login` parameter of the permission check.
- The `$update` write-back of each low-stock product in the stock action. It is a store write with no effect on the returned grouping.
- The partial state left behind when the stock action throws. The model records the throw as `Crashed`.
- Other `api` calls: `createProfile`, `linkProfileAccounts`, `removeAccount`, `logout`, the `loginActive`/`loginPassword`/`loginProvider` store calls and the CRUD wrappers. They are calls into the store; `Api.Login` and `Api.CallbackSuccess` name which one would be made.
- Object identity and non-integer numbers. Arrays and objects are never strictly equal in the model, and numbers are integers.
- Filters.NumberMatch: relational comparisons are decided only between numbers; any other pair answers `Coerced`, because JavaScript's implicit conversions are not modelled.
- Filters.SelectMatch: a non-string field looked up in a string selection answers `Coerced` for the same reason.
- Values.JoinAll: reports the first rejection in list order, while `$q.all` rejects with whichever settles first in time.
- Api.LoadProfile: only string entries of the account table are followed as profile keys; other entries fall back to a new profile.
- Table.NextPage: the "grows iff short of the last page" property is stated for a non-zero page size only, since a zero page "grows" by nothing.
- Lifecycle.LoadForUser: the empty key is never loaded. `Lifecycle.FlaggedKeysPermitted` covers non-empty keys, and the store never has empty keys.
- Queue.ProcessUserDataQueue: the data-queue removal after a successful move is modelled as the entry leaving the queue, and its own failure is not modelled. The code's missing-queue guard (mngrSecureFirebase.js:498) is not modelled either, because every signed-in user has a queue in the model.
- Handlers.HandleEvent: handlers are called with one argument; the source's one-or-two-argument call shapes are folded into it.
- Table.By: the column's custom sort is a key name; a custom sort function, which the table also accepts, is not modelled, since functions are not values in the model.
- Lifecycle.InitForUser: the root check uses the corrected `users` sign-in rule (`Permission.Permit`). On the bootstrap input of the second finding, the code binds the whole `users` type, while the model leaves the mirror unbound and runs the bulk load.
- Lifecycle.Construct: for the same reason, a mirror initialised at once follows the corrected rule, not `Permission.PermitAsWritten`.
- Facade.Open: likewise builds its mirror through `Lifecycle.Construct`, so it also runs on the corrected rule.
- Api.CreateAccount: the six-character minimum counts Unicode characters, while `password.length` counts UTF-16 code units. Three characters outside the Basic Multilingual Plane pass the code's check, but the model refuses them.
- SecureMirror.ChildKeys: keys are listed in the order the bindings were made. `Object.keys` lists integer-like keys first, in ascending numeric order, and the model does not reproduce that.

## Findings

| source | as written | input that shows it | evidently intended | confidence | as-written member | corrected member |
|---|---|---|---|---|---|---|
| mngr.utility/service/mngrSecureFirebase.js:129-132 | `addChild` resolves with the created record in the push callback without looking at the callback's error | a permitted value whose push the store rejects: the caller is told the record was created | resolve only on a successful push, reject with the store's error otherwise | medium, not executed | SecureMirror.AddChildAsWritten | SecureMirror.AddChild |
| mngr.utility/service/mngrSecureFirebase.js:379-383 | the `users` sign-in rule compares `key===userAccounts[uid]`, which holds when both are undefined | type `users` with access `["user"]`, no profile loaded, signed-in account missing from the loaded account table, root check `permit()`: the whole `users` type is granted | grant only a key the account table actually names | medium, not executed | Permission.PermitAsWritten | Permission.Permit |
| directive/primary/stock.js:44-56 | grouping reads `supplier['0'].name` for every order line that has a suppliers value, including an empty array | two low-stock products, one with suppliers `[{name:'acme'}]` and one with `[]`: reading `.name` of undefined throws | skip order lines with no first supplier | high, not executed | Stock.GroupAsWritten | Stock.IntendedGrouping |
